/**
 * The pure decisions of the FBX import: which files are accepted for
 * conversion, the name the converted model is uploaded under, the metadata
 * linking the converted model to its FBX source, and the check and metadata
 * update of a re-import. Reading, converting and uploading are left out.
 */
module FbxImporter {
  import opened Wrappers
  import opened Values
  import opened Text

  /** 500 MB, the largest FBX file accepted. */
  const MaxFileSize: nat := 500 * 1024 * 1024

  datatype FileInfo = FileInfo(name: string, size: nat)

  /** Why `validateFile` rejects a file; the too-large message shows the size in megabytes. */
  datatype ValidationError = NotFbx | EmptyFile | TooLarge(size: nat)

  /** Whether the name ends in ".fbx" in any letter case. */
  predicate HasFbxExtension(name: string) {
    EndsWith(ToLower(name), ".fbx")
  }

  /**
   * `validateFile(file)`: the first failing check, in the order extension,
   * emptiness, size; none when the file is accepted.
   */
  function ValidateFile(f: FileInfo): (r: Option<ValidationError>)
    ensures r.None? <==> HasFbxExtension(f.name) && 0 < f.size <= MaxFileSize
    ensures r == Some(NotFbx) <==> !HasFbxExtension(f.name)
    ensures r == Some(EmptyFile) <==> HasFbxExtension(f.name) && f.size == 0
    ensures r == Some(TooLarge(f.size)) <==> HasFbxExtension(f.name) && f.size > MaxFileSize
  {
    if !HasFbxExtension(f.name) then Some(NotFbx)
    else if f.size == 0 then Some(EmptyFile)
    else if f.size > MaxFileSize then Some(TooLarge(f.size))
    else None
  }

  /** Letter case does not matter to the check: names equal up to case are judged alike. */
  lemma ValidateIgnoresCase(a: string, b: string, size: nat)
    requires ToLower(a) == ToLower(b)
    ensures ValidateFile(FileInfo(a, size)) == ValidateFile(FileInfo(b, size))
  {
  }

  /** A file of exactly 500 MB with an FBX name is accepted; one byte more is not. */
  lemma LimitIsInclusive(name: string)
    requires HasFbxExtension(name)
    ensures ValidateFile(FileInfo(name, MaxFileSize)) == None
    ensures ValidateFile(FileInfo(name, MaxFileSize + 1)) == Some(TooLarge(MaxFileSize + 1))
  {
  }

  datatype SaveFormat = Glb | Gltf

  function FormatName(f: SaveFormat): string {
    match f
    case Glb => "glb"
    case Gltf => "gltf"
  }

  /** The extension the converted model is saved under. */
  function Extension(f: SaveFormat): (e: string)
    ensures e == "." + FormatName(f)
  {
    match f
    case Glb => ".glb"
    case Gltf => ".gltf"
  }

  /** `name.replace(/\.fbx$/i, ext)`: a trailing ".fbx" in any case becomes the extension. */
  function ConvertedName(name: string, f: SaveFormat): (r: string)
    ensures HasFbxExtension(name) ==> r == name[..|name| - 4] + Extension(f)
    ensures !HasFbxExtension(name) ==> r == name
  {
    if HasFbxExtension(name) then name[..|name| - 4] + Extension(f) else name
  }

  /** The extensions are written in lower case, so lower-casing a name keeps its new extension. */
  lemma LowerTail(stem: string, f: SaveFormat)
    ensures var l := ToLower(stem + Extension(f)); |l| == |stem| + |Extension(f)| && l[|stem|..] == Extension(f)
  {
    var e := Extension(f);
    var r := stem + e;
    var l := ToLower(r);
    forall i | 0 <= i < |e| ensures l[|stem| + i] == e[i] {
      assert r[|stem| + i] == e[i];
      assert e[i] in ".glbtf";
    }
    assert l[|stem|..] == e;
  }

  /** The converted model's name is never taken for an FBX file again, and it ends in the chosen extension. */
  lemma ConvertedNameIsNotFbx(name: string, f: SaveFormat)
    requires HasFbxExtension(name)
    ensures EndsWith(ConvertedName(name, f), Extension(f))
    ensures ValidateFile(FileInfo(ConvertedName(name, f), 1)) == Some(NotFbx)
  {
    var r := ConvertedName(name, f);
    var e := Extension(f);
    assert r == name[..|name| - 4] + e;
    assert r[|r| - |e|..] == e;
    var lr := ToLower(r);
    assert lr[|lr| - 1] == LowerChar(r[|r| - 1]);
    assert r[|r| - 1] == e[|e| - 1];
    assert e[|e| - 1] == 'b' || e[|e| - 1] == 'f';
    if |lr| >= 4 {
      assert lr[|lr| - 4..][3] == lr[|lr| - 1];
    }
    assert !EndsWith(lr, ".fbx");
  }

  /** The import settings chosen in the import dialog. */
  datatype ImportSettings = ImportSettings(
    scale: real,
    convertUnits: bool,
    normals: string,
    normalsMode: string,
    saveFormat: SaveFormat,
    embedTextures: bool)

  function EncodeSettings(s: ImportSettings): Value {
    Obj(map["scale" := Num(s.scale), "convertUnits" := Bool(s.convertUnits), "normals" := Str(s.normals),
            "normalsMode" := Str(s.normalsMode), "saveFormat" := Str(FormatName(s.saveFormat)),
            "embedTextures" := Bool(s.embedTextures)])
  }

  /** The metadata written on the uploaded FBX source: hidden from the asset panel. */
  function SourceMetadata(originalName: string): (m: Record)
    ensures m.Keys == {"isSourceFbx", "format", "originalName"} && m["isSourceFbx"] == Bool(true)
  {
    map["isSourceFbx" := Bool(true), "format" := Str("fbx"), "originalName" := Str(originalName)]
  }

  /** The metadata written on the converted model: its format, its FBX source and the settings used. */
  function ConvertedMetadata(fbxAssetId: int, s: ImportSettings): (m: Record)
    ensures m.Keys == {"format", "sourceFbxAssetId", "importSettings"}
    ensures m["sourceFbxAssetId"] == Num(fbxAssetId as real)
  {
    map["format" := Str(FormatName(s.saveFormat)), "sourceFbxAssetId" := Num(fbxAssetId as real),
        "importSettings" := EncodeSettings(s)]
  }

  /**
   * The metadata a re-import writes, or why it refuses: without a truthy
   * `sourceFbxAssetId` it fails before any work; otherwise every old entry
   * stays except `importSettings` and `format`, which take the new settings.
   */
  function ReimportMetadata(metadata: Value, s: ImportSettings): (r: Result<Record, string>)
    ensures r.Err? <==> !Truthy(Get(metadata, "sourceFbxAssetId"))
    ensures r.Ok? ==> r.value.Keys == Entries(metadata).Keys + {"importSettings", "format"}
    ensures r.Ok? ==> r.value["importSettings"] == EncodeSettings(s) && r.value["format"] == Str(FormatName(s.saveFormat))
    ensures r.Ok? ==> forall k :: k in Entries(metadata) && k !in {"importSettings", "format"} ==>
      r.value[k] == Entries(metadata)[k]
  {
    if !Truthy(Get(metadata, "sourceFbxAssetId")) then Err("no source FBX asset to re-import from")
    else Ok(Entries(metadata)["importSettings" := EncodeSettings(s)]["format" := Str(FormatName(s.saveFormat))])
  }

  /**
   * What import writes, re-import accepts: a converted model whose FBX source
   * has a non-zero id can be re-imported, keeps its link to that source, and
   * a second re-import with the same settings writes the same metadata.
   */
  lemma ImportThenReimport(fbxAssetId: int, s: ImportSettings, t: ImportSettings)
    requires fbxAssetId != 0
    ensures var r := ReimportMetadata(Obj(ConvertedMetadata(fbxAssetId, s)), t);
      && r.Ok?
      && r.value["sourceFbxAssetId"] == Num(fbxAssetId as real)
      && r.value.Keys == {"format", "sourceFbxAssetId", "importSettings"}
      && ReimportMetadata(Obj(r.value), t) == r
  {
    var r := ReimportMetadata(Obj(ConvertedMetadata(fbxAssetId, s)), t);
    var again := r.value["importSettings" := EncodeSettings(t)]["format" := Str(FormatName(t.saveFormat))];
    assert again == r.value;
  }

  /** The FBX source itself carries no source link, so it can never be re-imported. */
  lemma SourceIsNotReimportable(originalName: string, t: ImportSettings)
    ensures ReimportMetadata(Obj(SourceMetadata(originalName)), t).Err?
  {
  }

  /** Whether the name ends in ".glb" or ".gltf" in any letter case. */
  predicate HasModelExtension(name: string) {
    EndsWith(ToLower(name), ".glb") || EndsWith(ToLower(name), ".gltf")
  }

  /**
   * `name.replace(/\.(glb|gltf)$/i, ext) || name`: the re-imported model
   * keeps its name with the extension of the new format. The replacement is
   * never empty, so the fallback to the old name never applies.
   */
  function ReimportedName(name: string, f: SaveFormat): (r: string)
    ensures r == [] <==> name == []
    ensures EndsWith(ToLower(name), ".glb") ==> r == name[..|name| - 4] + Extension(f)
    ensures EndsWith(ToLower(name), ".gltf") ==> r == name[..|name| - 5] + Extension(f)
    ensures !HasModelExtension(name) ==> r == name
  {
    var replaced :=
      if EndsWith(ToLower(name), ".glb") then name[..|name| - 4] + Extension(f)
      else if EndsWith(ToLower(name), ".gltf") then name[..|name| - 5] + Extension(f)
      else name;
    GlbOrGltf(name);
    if replaced != [] then replaced else name
  }

  /** No name ends in both ".glb" and ".gltf". */
  lemma GlbOrGltf(name: string)
    ensures !(EndsWith(ToLower(name), ".glb") && EndsWith(ToLower(name), ".gltf"))
  {
    var l := ToLower(name);
    if EndsWith(l, ".glb") {
      assert l[|l| - 1] == 'b';
    }
  }

  /** Re-importing a converted model under a format renames it as a fresh import in that format would. */
  lemma ReimportRenamesLikeImport(name: string, f: SaveFormat, g: SaveFormat)
    requires HasFbxExtension(name)
    ensures ReimportedName(ConvertedName(name, f), g) == ConvertedName(name, g)
  {
    var stem := name[..|name| - 4];
    var r := ConvertedName(name, f);
    assert r == stem + Extension(f);
    LowerTail(stem, f);
    var l := ToLower(r);
    match f {
      case Glb =>
        assert l[|l| - 4..] == l[|stem|..];
        assert r[..|r| - 4] == stem;
      case Gltf =>
        assert l[|l| - 5..] == l[|stem|..];
        assert !EndsWith(l, ".glb") by {
          assert l[|l| - 1] == l[|stem|..][4];
        }
        assert r[..|r| - 5] == stem;
    }
  }
}
