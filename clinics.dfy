/**
  Clinic records and the pure steps of the create-clinic request: reading
  the form, building the record to store, the required-field check, and
  the projection used when listing clinics. Also the unused extension
  check `allowed_file`.
*/
module Clinics {
  import opened Wrappers
  import opened Text

  /** A stored clinic document. `imageUrl` is None when the key is absent. */
  datatype Clinic = Clinic(
    id: nat,
    name: string,
    identifier: string,
    location: string,
    status: string,
    imageUrl: Option<string>,
    username: string,
    passwordHash: string)

  /**
    A clinic as listed to the client: the stored document without its
    password, `_id` rendered, and `image_url` null when the document has none.
  */
  datatype ClinicView = ClinicView(
    id: nat,
    name: string,
    identifier: string,
    location: string,
    status: string,
    imageUrl: Option<string>,
    username: string)

  /** The text fields of a multipart form. */
  type Form = map<string, string>

  /** `request.form.get(key)`. */
  function FormGet(form: Form, key: string): Option<string> {
    if key in form then Some(form[key]) else None
  }

  /**
    The dictionary built from the form before validation. Name, identifier,
    location and username may be absent; the password entry holds the hash
    of the submitted password.
  */
  datatype Draft = Draft(
    name: Option<string>,
    identifier: Option<string>,
    location: Option<string>,
    status: string,
    imageUrl: string,
    username: Option<string>,
    password: Option<string>)

  /** The folder every clinic image is uploaded to. */
  const ImageFolder := "pneumoaid_clinics"

  /** Status given to a clinic when the form has no `status` field. */
  const DefaultStatus := "active"

  /** The required fields of a clinic record. */
  datatype Field = Name | Identifier | Location | Username | Password

  /** Required fields, in the order the check reports them. */
  const RequiredFields: seq<Field> := [Name, Identifier, Location, Username, Password]

  /** The key of a field in the form and in the record, as the error message names it. */
  function FieldName(f: Field): string {
    match f
    case Name => "name"
    case Identifier => "identifier"
    case Location => "location"
    case Username => "username"
    case Password => "password"
  }

  /** Why building the record can fail: hashing an absent password raises. */
  datatype DraftError = PasswordNotText

  /**
    Builds the record from the form, the uploaded image's URL and the
    password hash. The status defaults to "active" only when the field is
    absent; an absent password makes the hash call raise.
  */
  function BuildDraft(form: Form, imageUrl: string, hash: string -> string): (r: Result)
    ensures r.Failure? <==> "password" !in form
    ensures r.Success? ==>
      && r.draft.name == FormGet(form, "name")
      && r.draft.identifier == FormGet(form, "identifier")
      && r.draft.location == FormGet(form, "location")
      && r.draft.username == FormGet(form, "username")
      && r.draft.imageUrl == imageUrl
      && r.draft.password == Some(hash(form["password"]))
      && r.draft.status == (if "status" in form then form["status"] else DefaultStatus)
  {
    match FormGet(form, "password")
    case None => Failure(PasswordNotText)
    case Some(p) =>
      Success(Draft(
        FormGet(form, "name"),
        FormGet(form, "identifier"),
        FormGet(form, "location"),
        if "status" in form then form["status"] else DefaultStatus,
        imageUrl,
        FormGet(form, "username"),
        Some(hash(p))))
  }

  datatype Result = Success(draft: Draft) | Failure(error: DraftError)

  /** Python truthiness of an optional string: absent or empty is "missing". */
  predicate Blank(v: Option<string>) {
    v.None? || v.value == ""
  }

  /** The value the check reads for required field `f`. */
  function FieldValue(d: Draft, f: Field): Option<string> {
    match f
    case Name => d.name
    case Identifier => d.identifier
    case Location => d.location
    case Username => d.username
    case Password => d.password
  }

  /** Position of a required field in the reporting order. */
  function Rank(f: Field): nat {
    match f
    case Name => 0
    case Identifier => 1
    case Location => 2
    case Username => 3
    case Password => 4
  }

  /**
    The fields of `fields` whose value in `d` is absent or empty, in the
    order of `fields`.
  */
  function MissingAmong(d: Draft, fields: seq<Field>): (r: seq<Field>)
    ensures forall f :: f in r <==> f in fields && Blank(FieldValue(d, f))
    ensures (forall i, j :: 0 <= i < j < |fields| ==> Rank(fields[i]) < Rank(fields[j])) ==>
            forall i, j :: 0 <= i < j < |r| ==> Rank(r[i]) < Rank(r[j])
  {
    if fields == [] then []
    else
      var rest := MissingAmong(d, fields[1..]);
      if Blank(FieldValue(d, fields[0])) then
        assert forall j :: 0 <= j < |rest| ==> rest[j] in fields[1..];
        [fields[0]] + rest
      else rest
  }

  /**
    The required-field check: exactly the fields whose value is absent or
    empty, each once, in the fixed order name, identifier, location,
    username, password; nothing is missing exactly when all five are given
    and non-empty.
  */
  function MissingFields(d: Draft): (r: seq<Field>)
    ensures forall f :: f in r <==> Blank(FieldValue(d, f))
    ensures forall i, j :: 0 <= i < j < |r| ==> Rank(r[i]) < Rank(r[j])
    ensures r == [] <==>
      !Blank(d.name) && !Blank(d.identifier) && !Blank(d.location) && !Blank(d.username) && !Blank(d.password)
  {
    EveryFieldRequired();
    var r := MissingAmong(d, RequiredFields);
    assert FieldValue(d, Name) == d.name && FieldValue(d, Identifier) == d.identifier;
    assert FieldValue(d, Location) == d.location && FieldValue(d, Username) == d.username;
    assert FieldValue(d, Password) == d.password;
    assert r != [] ==> r[0] in r;
    r
  }

  /** The check lists every field once, in rank order. */
  lemma EveryFieldRequired()
    ensures forall f :: f in RequiredFields
    ensures forall i, j :: 0 <= i < j < |RequiredFields| ==> Rank(RequiredFields[i]) < Rank(RequiredFields[j])
  {
    forall f ensures f in RequiredFields {
      assert RequiredFields[Rank(f)] == f;
    }
  }

  /**
    The check runs on the stored value, which for the password is its hash:
    the password is reported missing only if the hash of the submitted text
    is empty. A hash function that never returns "" (a salted hash never
    does) makes that entry of the check unreachable, so an empty password
    is accepted and stored hashed.
  */
  lemma PasswordCheckSeesHash(form: Form, imageUrl: string, hash: string -> string)
    requires "password" in form
    ensures BuildDraft(form, imageUrl, hash).Success?
    ensures Password in MissingFields(BuildDraft(form, imageUrl, hash).draft)
            <==> hash(form["password"]) == ""
  {
    var d := BuildDraft(form, imageUrl, hash).draft;
    assert FieldValue(d, Password) == d.password == Some(hash(form["password"]));
  }

  /** The record inserted for a draft that passed the check. */
  function NewClinic(d: Draft, id: nat): (c: Clinic)
    requires MissingFields(d) == []
    ensures c.id == id && c.imageUrl == Some(d.imageUrl) && c.status == d.status
    ensures Some(c.name) == d.name && Some(c.identifier) == d.identifier
    ensures Some(c.location) == d.location && Some(c.username) == d.username
    ensures Some(c.passwordHash) == d.password
    ensures c.name != "" && c.identifier != "" && c.location != "" && c.username != "" && c.passwordHash != ""
  {
    Clinic(id, d.name.value, d.identifier.value, d.location.value, d.status,
           Some(d.imageUrl), d.username.value, d.password.value)
  }

  /** The listing projection of one stored clinic. */
  function View(c: Clinic): (v: ClinicView)
    ensures v.id == c.id && v.name == c.name && v.identifier == c.identifier
    ensures v.location == c.location && v.status == c.status
    ensures v.imageUrl == c.imageUrl && v.username == c.username
  {
    ClinicView(c.id, c.name, c.identifier, c.location, c.status, c.imageUrl, c.username)
  }

  /** `find_one({"username": u})` finds a document. */
  predicate UsernameTaken(clinics: seq<Clinic>, u: string)
    ensures UsernameTaken(clinics, u) <==> u in set c | c in clinics :: c.username
  {
    exists i :: 0 <= i < |clinics| && clinics[i].username == u
  }

  /** The unique index on `username`. */
  predicate UsernamesDistinct(clinics: seq<Clinic>) {
    forall i, j :: 0 <= i < j < |clinics| ==> clinics[i].username != clinics[j].username
  }

  /** Inserting a clinic whose username is not taken keeps usernames distinct. */
  lemma InsertKeepsUsernamesDistinct(clinics: seq<Clinic>, c: Clinic)
    requires UsernamesDistinct(clinics) && !UsernameTaken(clinics, c.username)
    ensures UsernamesDistinct(clinics + [c])
  {
  }

  // ---------------------------------------------------------------------
  // allowed_file

  const AllowedExtensions: set<string> := {"png", "jpg", "jpeg", "gif"}

  /** `s.rsplit('.', 1)[1]` when `s` contains a dot: the text after the last dot. */
  function AfterLastDot(s: string): (r: Option<string>)
    ensures r.None? <==> '.' !in s
    ensures r.Some? ==> |r.value| < |s| && s[|s| - |r.value| - 1] == '.'
                        && r.value == s[|s| - |r.value|..] && '.' !in r.value
  {
    if s == [] then None
    else if s[|s| - 1] == '.' then Some([])
    else
      assert s == s[..|s| - 1] + [s[|s| - 1]];
      match AfterLastDot(s[..|s| - 1])
      case None => None
      case Some(e) => Some(e + [s[|s| - 1]])
  }

  /** The filename has a dot and its extension, lower-cased, is an allowed one. */
  predicate AllowedFile(filename: string)
    ensures AllowedFile(filename) ==> '.' in filename && 4 <= |filename|
    ensures filename != [] && filename[|filename| - 1] == '.' ==> !AllowedFile(filename)
  {
    match AfterLastDot(filename)
    case None => false
    case Some(ext) => AsciiLower(ext) in AllowedExtensions
  }

  /** A dot with no dot after it is the last dot. */
  lemma LastDot(s: string, i: int)
    requires 0 <= i < |s| && s[i] == '.' && '.' !in s[i + 1..]
    ensures AfterLastDot(s) == Some(s[i + 1..])
  {
    assert s[i] in s;
  }

  /**
    AllowedFile holds exactly when some dot in the name has no dot after
    it and the lower-cased text after it is an allowed extension.
  */
  lemma AllowedFileIff(filename: string)
    ensures AllowedFile(filename) <==>
      exists i :: 0 <= i < |filename| && filename[i] == '.' && '.' !in filename[i + 1..]
                  && AsciiLower(filename[i + 1..]) in AllowedExtensions
  {
    if AllowedFile(filename) {
      var e := AfterLastDot(filename).value;
      var i := |filename| - |e| - 1;
      assert filename[i + 1..] == e;
    }
    if exists i :: 0 <= i < |filename| && filename[i] == '.' && '.' !in filename[i + 1..]
                   && AsciiLower(filename[i + 1..]) in AllowedExtensions {
      var i :| 0 <= i < |filename| && filename[i] == '.' && '.' !in filename[i + 1..]
               && AsciiLower(filename[i + 1..]) in AllowedExtensions;
      LastDot(filename, i);
    }
  }

  lemma AllowedFileUpperCase()
    ensures AllowedFile("scan.PNG")
  {
    var s := "scan.PNG";
    assert s[5..] == "PNG";
    LastDot(s, 4);
    assert AsciiLower("PNG") == "png";
  }

  lemma AllowedFileLastDotOnly()
    ensures !AllowedFile("scan.png.gz")
  {
    var s := "scan.png.gz";
    assert s[9..] == "gz";
    LastDot(s, 8);
  }
}
