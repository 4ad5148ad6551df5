/**
 * The server's request-body schemas. Each schema accepts an object whose
 * listed keys hold values of the listed shape, and yields those keys only
 * (an object schema drops unknown keys); anything else is rejected. String
 * lengths count characters. Whether a string is a well-formed e-mail address
 * is decided by the validation library and is a parameter here.
 */
module ServerValidation {
  import opened Wrappers
  import opened Values
  import opened Text

  /** `z.string().min(lo).max(hi)`. */
  predicate StringWithin(v: Value, lo: nat, hi: nat) {
    v.Str? && lo <= |v.s| <= hi
  }

  /** A character of `[a-zA-Z0-9_]`. */
  predicate IsWordChar(c: char) {
    IsUpper(c) || IsLower(c) || IsDigit(c) || c == '_'
  }

  /** `/^[a-zA-Z0-9_]+$/`. */
  predicate WordOnly(s: string) {
    s != [] && forall i :: 0 <= i < |s| ==> IsWordChar(s[i])
  }

  /** `z.string().optional()`: `Some(None)` when left out (or undefined), `Some(Some(s))` for a string, `None` otherwise. */
  function OptionalString(v: Value): (r: Option<Option<string>>)
    ensures r == Some(None) <==> v.Undefined?
    ensures r.Some? && r.value.Some? <==> v.Str?
    ensures v.Str? ==> r == Some(Some(v.s))
  {
    match v
    case Undefined => Some(None)
    case Str(s) => Some(Some(s))
    case _ => None
  }

  /** The string a present field holds, as a yielded optional field: `None` when the field is not a string. */
  function StringIn(v: Value): Option<string> {
    if v.Str? then Some(v.s) else None
  }

  datatype RegisterBody = RegisterBody(username: string, password: string, email: Option<string>)

  /** `registerSchema`: a 3 to 50 character word username, a password of at least 6 characters, an optional e-mail. */
  function ParseRegister(data: Value, isEmail: string -> bool): (r: Option<RegisterBody>)
    ensures r.Some? <==>
      && data.Obj?
      && StringWithin(Get(data, "username"), 3, 50) && WordOnly(Get(data, "username").s)
      && Get(data, "password").Str? && |Get(data, "password").s| >= 6
      && (Get(data, "email").Undefined? || (Get(data, "email").Str? && isEmail(Get(data, "email").s)))
    ensures r.Some? ==>
      && r.value.username == Get(data, "username").s
      && r.value.password == Get(data, "password").s
      && r.value.email == StringIn(Get(data, "email"))
  {
    var username, password, email := Get(data, "username"), Get(data, "password"), OptionalString(Get(data, "email"));
    if data.Obj? && username.Str? && 3 <= |username.s| <= 50 && WordOnly(username.s)
       && password.Str? && |password.s| >= 6
       && email.Some? && (email.value.Some? ==> isEmail(email.value.value))
    then Some(RegisterBody(username.s, password.s, email.value))
    else None
  }

  /** The username rule alone: a registration with a good password and no e-mail stands or falls with it. */
  lemma RegisterUsernameRule(username: string, password: string, isEmail: string -> bool)
    requires |password| >= 6
    ensures ParseRegister(Obj(map["username" := Str(username), "password" := Str(password)]), isEmail).Some?
        <==> 3 <= |username| <= 50 && forall i :: 0 <= i < |username| ==> IsWordChar(username[i])
  {
    var data := Obj(map["username" := Str(username), "password" := Str(password)]);
    assert Get(data, "username") == Str(username) && Get(data, "password") == Str(password);
    assert Get(data, "email") == Undefined;
  }

  /** The e-mail is optional: leaving it out of an accepted registration keeps it accepted. */
  lemma EmailOptional(fields: map<string, Value>, isEmail: string -> bool)
    requires ParseRegister(Obj(fields), isEmail).Some?
    ensures var rest := Obj(fields - {"email"});
      ParseRegister(rest, isEmail).Some? && ParseRegister(rest, isEmail).value.email == None
  {
    var rest := Obj(fields - {"email"});
    assert Get(rest, "username") == Get(Obj(fields), "username");
    assert Get(rest, "password") == Get(Obj(fields), "password");
    assert Get(rest, "email") == Undefined;
  }

  datatype LoginBody = LoginBody(username: string, password: string, rememberMe: Option<bool>)

  /** `loginSchema`: a non-empty username and password, an optional boolean `rememberMe`. */
  function ParseLogin(data: Value): (r: Option<LoginBody>)
    ensures r.Some? <==>
      && data.Obj?
      && Get(data, "username").Str? && Get(data, "username").s != []
      && Get(data, "password").Str? && Get(data, "password").s != []
      && (Get(data, "rememberMe").Undefined? || Get(data, "rememberMe").Bool?)
    ensures r.Some? ==>
      && r.value.username == Get(data, "username").s && r.value.password == Get(data, "password").s
      && r.value.rememberMe == (if Get(data, "rememberMe").Bool? then Some(Get(data, "rememberMe").b) else None)
  {
    var username, password, remember := Get(data, "username"), Get(data, "password"), Get(data, "rememberMe");
    if data.Obj? && username.Str? && username.s != [] && password.Str? && password.s != [] then
      match remember
      case Undefined => Some(LoginBody(username.s, password.s, None))
      case Bool(b) => Some(LoginBody(username.s, password.s, Some(b)))
      case _ => None
    else None
  }

  datatype ProjectBody = ProjectBody(name: Option<string>, description: Option<string>, thumbnail: Option<string>)

  /** `z.string().min(1).max(100).optional()`. */
  function OptionalName(v: Value): (r: Option<Option<string>>)
    ensures r == Some(None) <==> v.Undefined?
    ensures r.Some? && r.value.Some? <==> StringWithin(v, 1, 100)
    ensures r.Some? && r.value.Some? ==> r.value.value == v.s
  {
    if v.Undefined? then Some(None)
    else if StringWithin(v, 1, 100) then Some(Some(v.s))
    else None
  }

  /**
   * `createProjectSchema` (`nameRequired`) and `updateProjectSchema`: a name of
   * 1 to 100 characters, required on creation and optional on update; an
   * optional description and thumbnail.
   */
  function ParseProject(data: Value, nameRequired: bool): (r: Option<ProjectBody>)
    ensures r.Some? <==>
      && data.Obj?
      && (StringWithin(Get(data, "name"), 1, 100) || (!nameRequired && Get(data, "name").Undefined?))
      && (Get(data, "description").Undefined? || Get(data, "description").Str?)
      && (Get(data, "thumbnail").Undefined? || Get(data, "thumbnail").Str?)
    ensures r.Some? ==> r.value.name == StringIn(Get(data, "name"))
    ensures r.Some? ==> r.value.description == StringIn(Get(data, "description"))
    ensures r.Some? ==> r.value.thumbnail == StringIn(Get(data, "thumbnail"))
    ensures r.Some? && nameRequired ==> r.value.name == Some(Get(data, "name").s)
  {
    var name := OptionalName(Get(data, "name"));
    var description := OptionalString(Get(data, "description"));
    var thumbnail := OptionalString(Get(data, "thumbnail"));
    if data.Obj? && name.Some? && (nameRequired ==> name.value.Some?) && description.Some? && thumbnail.Some?
    then Some(ProjectBody(name.value, description.value, thumbnail.value))
    else None
  }

  datatype SceneBody = SceneBody(name: Option<string>, data: Value)

  /**
   * `createSceneSchema` (`nameRequired`) and `updateSceneSchema`: a name of 1
   * to 100 characters, required on creation and optional on update; `data`
   * may be anything, or left out.
   */
  function ParseScene(body: Value, nameRequired: bool): (r: Option<SceneBody>)
    ensures r.Some? <==>
      && body.Obj?
      && (StringWithin(Get(body, "name"), 1, 100) || (!nameRequired && Get(body, "name").Undefined?))
    ensures r.Some? ==> r.value.data == Get(body, "data")
    ensures r.Some? ==> r.value.name == StringIn(Get(body, "name"))
  {
    var name := OptionalName(Get(body, "name"));
    if body.Obj? && name.Some? && (nameRequired ==> name.value.Some?)
    then Some(SceneBody(name.value, Get(body, "data")))
    else None
  }

  /** Every update field is optional: the empty object is a valid project and scene update. */
  lemma EmptyUpdateAccepted()
    ensures ParseProject(Obj(map[]), false) == Some(ProjectBody(None, None, None))
    ensures ParseScene(Obj(map[]), false) == Some(SceneBody(None, Undefined))
  {
  }

  /** A body valid for creation is valid for update, with the same fields. */
  lemma CreateIsUpdate(data: Value)
    ensures ParseProject(data, true).Some? ==> ParseProject(data, false) == ParseProject(data, true)
    ensures ParseScene(data, true).Some? ==> ParseScene(data, false) == ParseScene(data, true)
  {
  }

  /** A name is the one thing creation demands beyond an update: a valid update that names a project creates it. */
  lemma NamedUpdateCreates(data: Value)
    requires ParseProject(data, false).Some? && ParseProject(data, false).value.name.Some?
    ensures ParseProject(data, true) == ParseProject(data, false)
  {
  }

  /** The name bounds are inclusive: 1 and 100 characters pass, 0 and 101 do not. */
  lemma NameBounds(name: string)
    ensures ParseScene(Obj(map["name" := Str(name)]), true).Some? <==> 1 <= |name| <= 100
  {
    assert Get(Obj(map["name" := Str(name)]), "name") == Str(name);
  }
}
