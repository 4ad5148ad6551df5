/**
 * The upload middleware's file filter: a file is taken when its MIME type
 * or its lower-cased extension is on the allowed lists, and refused with an
 * error naming both otherwise. The size limit and the in-memory storage are
 * the upload library's and are not part of this model.
 */
module UploadFilter {
  import opened Wrappers
  import opened Text

  /** glTF binary and JSON, generic binary (GLB, FBX), TGIF, PNG, JPEG, WebP, JSON. */
  const AllowedMimeTypes: seq<string> := [
    "model/gltf-binary", "model/gltf+json", "application/octet-stream", "application/x-tgif",
    "image/png", "image/jpeg", "image/jpg", "image/webp",
    "application/json"]

  const AllowedExtensions: seq<string> := ["glb", "gltf", "fbx", "obj", "png", "jpg", "jpeg", "webp", "json"]

  datatype UploadedFile = UploadedFile(originalname: string, mimetype: string)

  /** `name.split('.').pop()`: the text after the last dot, or the whole name when it has none. */
  function AfterLastDot(name: string): (r: string)
    ensures '.' !in r
    ensures EndsWith(name, r)
    ensures r == name || name[|name| - |r| - 1] == '.'
    decreases |name|
  {
    if name == [] then []
    else if name[|name| - 1] == '.' then []
    else
      var tail := AfterLastDot(name[..|name| - 1]);
      AfterLastDotStep(name, tail);
      tail + [name[|name| - 1]]
  }

  lemma AfterLastDotStep(name: string, tail: string)
    requires name != [] && name[|name| - 1] != '.'
    requires '.' !in tail && EndsWith(name[..|name| - 1], tail)
    requires tail == name[..|name| - 1] || name[..|name| - 1][|name| - |tail| - 2] == '.'
    ensures var r := tail + [name[|name| - 1]];
      && '.' !in r
      && EndsWith(name, r)
      && (r == name || name[|name| - |r| - 1] == '.')
  {
    var init := name[..|name| - 1];
    var last := name[|name| - 1];
    var r := tail + [last];
    assert name == init + [last];
    assert name[|name| - |r|..] == init[|init| - |tail|..] + [last];
    if tail != init {
      assert name[|name| - |r| - 1] == init[|init| - |tail| - 1];
    }
  }

  /** The extension read after the last dot is the one written there. */
  lemma {:induction false} AfterLastDotOf(stem: string, ext: string)
    requires '.' !in ext
    ensures AfterLastDot(stem + "." + ext) == ext
    decreases |ext|
  {
    var name := stem + "." + ext;
    if ext == [] {
      assert name[|name| - 1] == '.';
    } else {
      var init := ext[..|ext| - 1];
      assert name[..|name| - 1] == stem + "." + init;
      AfterLastDotOf(stem, init);
      assert ext == init + [ext[|ext| - 1]];
    }
  }

  /** A name without a dot is its own extension. */
  lemma {:induction false} NoDotIsWholeName(name: string)
    requires '.' !in name
    ensures AfterLastDot(name) == name
    decreases |name|
  {
    if name != [] {
      var init := name[..|name| - 1];
      assert '.' !in init by {
        assert forall i :: 0 <= i < |init| ==> init[i] == name[i];
      }
      NoDotIsWholeName(init);
      assert name == init + [name[|name| - 1]];
    }
  }

  /** `file.originalname.split('.').pop()?.toLowerCase()`. */
  function Extension(file: UploadedFile): (r: string)
    ensures |r| == |AfterLastDot(file.originalname)| && '.' !in r
  {
    var r := ToLower(AfterLastDot(file.originalname));
    assert forall i :: 0 <= i < |r| ==> r[i] != '.' by {
      forall i | 0 <= i < |r| ensures r[i] != '.' {
        assert AfterLastDot(file.originalname)[i] != '.';
      }
    }
    r
  }

  /** The error text: unsupported file type, with the MIME type and the name. */
  function RejectMessage(file: UploadedFile): string {
    "不支持的文件类型: " + file.mimetype + " (" + file.originalname + ")"
  }

  /**
   * `fileFilter`: accept when the MIME type is allowed, or when the
   * extension is non-empty and allowed; refuse with an error otherwise.
   */
  function FileFilter(file: UploadedFile): (r: Result<bool, string>)
    ensures r.Ok? <==> file.mimetype in AllowedMimeTypes || (Extension(file) != [] && Extension(file) in AllowedExtensions)
    ensures r.Ok? ==> r.value
    ensures r.Err? ==> r.error == RejectMessage(file)
  {
    var ext := Extension(file);
    if file.mimetype in AllowedMimeTypes || (ext != [] && ext in AllowedExtensions) then Ok(true)
    else Err(RejectMessage(file))
  }

  /** An allowed MIME type is enough, whatever the name. */
  lemma MimeTypeSuffices(name: string, mimetype: string)
    requires mimetype in AllowedMimeTypes
    ensures FileFilter(UploadedFile(name, mimetype)) == Ok(true)
  {
  }

  /**
   * With any MIME type, a name `stem.ext` is accepted when `ext` lower-cases
   * to an allowed extension, and otherwise exactly when the MIME type is
   * allowed; the letter case of `ext` does not matter.
   */
  lemma ExtensionDecides(stem: string, ext: string, mimetype: string)
    requires '.' !in ext
    ensures FileFilter(UploadedFile(stem + "." + ext, mimetype)).Ok?
        <==> ToLower(ext) in AllowedExtensions || mimetype in AllowedMimeTypes
  {
    AfterLastDotOf(stem, ext);
  }

  /** Changing the letter case of the extension changes nothing. */
  lemma ExtensionCaseInsensitive(stem: string, ext: string, mimetype: string)
    requires '.' !in ext
    ensures FileFilter(UploadedFile(stem + "." + ToUpper(ext), mimetype)).Ok? <==> FileFilter(UploadedFile(stem + "." + ext, mimetype)).Ok?
  {
    assert '.' !in ToUpper(ext) by {
      forall i | 0 <= i < |ext| ensures ToUpper(ext)[i] != '.' {
        assert ext[i] != '.';
      }
    }
    LowerOfUpper(ext);
    ExtensionDecides(stem, ToUpper(ext), mimetype);
    ExtensionDecides(stem, ext, mimetype);
  }

  /** A name ending in a dot has an empty extension: only its MIME type can let it through. */
  lemma TrailingDotNeedsMimeType(stem: string, mimetype: string)
    ensures FileFilter(UploadedFile(stem + ".", mimetype)).Ok? <==> mimetype in AllowedMimeTypes
  {
    AfterLastDotOf(stem, []);
    assert stem + "." + [] == stem + ".";
  }

  lemma PlainTextNotAllowed()
    ensures "text/plain" !in AllowedMimeTypes && "txt" !in AllowedExtensions
  {
  }

  lemma ModelFbx()
    ensures "model" + "." + "FBX" == "model.FBX"
    ensures ToLower("FBX") == "fbx" && "fbx" in AllowedExtensions
  {
  }

  /** "model.FBX" sent with an unlisted MIME type is accepted on its extension. */
  lemma UpperCaseFbxAccepted()
    ensures FileFilter(UploadedFile("model.FBX", "text/plain")).Ok?
  {
    ExtensionDecides("model", "FBX", "text/plain");
    ModelFbx();
  }

  lemma NotesTxt()
    ensures "notes" + "." + "txt" == "notes.txt" && ToLower("txt") == "txt"
  {
  }

  /** "notes.txt" sent as plain text is refused. */
  lemma TextFileRefused()
    ensures FileFilter(UploadedFile("notes.txt", "text/plain")).Err?
  {
    ExtensionDecides("notes", "txt", "text/plain");
    NotesTxt();
    PlainTextNotAllowed();
  }
}
