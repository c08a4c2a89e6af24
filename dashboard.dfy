/**
  The request handlers of the clinic dashboard. One class serves both
  deployments: with `gateEnabled` (the admin app) the clinic, analytics and
  distribution endpoints answer 401 until the session is logged in; without
  it (the demo app) no route looks at the session.

  The document store is the `clinics`, `patients` and `appointments`
  fields; `nextId` stands for the store's id generator. The media host is
  modelled by the log of uploads it received (`uploads`) and, per request,
  the outcome it returns (`Env.upload`). Store failures are the
  `storeFault` parameter: when present, every store call raises with that
  message.
*/
module Dashboard {
  import opened Wrappers
  import opened Clinics
  import opened Stats

  /** The two configured admin credentials; either may be unset. */
  datatype AdminConfig = AdminConfig(username: Option<string>, password: Option<string>)

  /** What the login and logout pages answer. */
  datatype Page =
    | LoginForm                       // render the login template
    | RedirectDashboard
    | RedirectLogin(flash: string)    // redirect to the login page with a flashed message

  const ServiceErrorFlash := "Login service error. Please try again later."
  const InvalidCredentialsFlash := "Invalid credentials"
  const LoggedOutFlash := "You have been logged out"

  /** The `image` part of a multipart request. */
  datatype ImagePart = ImagePart(filename: string)

  /** A POST to the clinics endpoint: the optional image part and the form fields. */
  datatype CreateRequest = CreateRequest(image: Option<ImagePart>, form: Form)

  /** One call to the media host's upload. */
  datatype Upload = Upload(folder: string, file: ImagePart)

  /** What the media host answers to an upload. */
  datatype UploadOutcome = Uploaded(secureUrl: string) | UploadFailed(message: string)

  /**
    The collaborators of one create request: the media host's answer, the
    password hash function and the store's health.
  */
  datatype Env = Env(upload: UploadOutcome, hash: string -> string, storeFault: Option<string>)

  /** The exceptions the handlers catch and turn into a 500 reply. */
  datatype Failure =
    | UploadError(message: string)
    | HashRaised                      // hashing an absent password raises
    | StoreError(message: string)

  /** Replies of `/api/clinics`. */
  datatype ClinicsReply =
    | Unauthorized
    | NoImageProvided
    | NoSelectedImage
    | MissingRequired(fields: seq<Field>)
    | UsernameExists
    | Created(id: nat, imageUrl: string)
    | Listing(clinics: seq<ClinicView>)
    | ServerError(failure: Failure)
  {
    function Status(): nat {
      match this
      case Unauthorized => 401
      case NoImageProvided => 400
      case NoSelectedImage => 400
      case MissingRequired(_) => 400
      case UsernameExists => 409
      case Created(_, _) => 201
      case Listing(_) => 200
      case ServerError(_) => 500
    }
  }

  /** Replies of the statistics endpoints. */
  datatype ApiReply<T> = Denied | Ok(value: T) | Error(message: string)
  {
    function Status(): nat {
      match this
      case Denied => 401
      case Ok(_) => 200
      case Error(_) => 500
    }
  }

  /** The image part is present and names a file. */
  predicate ImageSelected(req: CreateRequest) {
    req.image.Some? && req.image.value.filename != ""
  }

  /** The record built once the upload succeeded and the password was given. */
  function DraftOf(req: CreateRequest, env: Env): Draft
    requires env.upload.Uploaded? && "password" in req.form
  {
    BuildDraft(req.form, env.upload.secureUrl, env.hash).draft
  }

  /** Every document has a different id. */
  predicate IdsDistinct(clinics: seq<Clinic>) {
    forall i, j :: 0 <= i < j < |clinics| ==> clinics[i].id != clinics[j].id
  }

  class App {
    const gateEnabled: bool
    var loggedIn: bool
    var clinics: seq<Clinic>
    var nextId: nat
    var uploads: seq<Upload>
    var patients: seq<Patient>
    var appointments: seq<Appointment>

    /**
      The admin app's unique index on `username` (the demo creates none), and
      ids below the next one handed out.
    */
    ghost predicate Valid()
      reads this
    {
      && (gateEnabled ==> UsernamesDistinct(clinics))
      && IdsDistinct(clinics)
      && forall i :: 0 <= i < |clinics| ==> clinics[i].id < nextId
    }

    /** The session gate: the demo has none; the admin app needs a logged-in session. */
    predicate Authorized()
      reads this
      ensures !gateEnabled ==> Authorized()
      ensures gateEnabled ==> (Authorized() <==> loggedIn)
    {
      !gateEnabled || loggedIn
    }

    /**
      Start-up on an existing store, with a fresh (logged-out) session. The
      admin app creates the unique index on `username`, which fails on a
      store with a repeated username; the demo starts on any store.
    */
    constructor (gateEnabled: bool, clinics: seq<Clinic>, patients: seq<Patient>, appointments: seq<Appointment>)
      requires gateEnabled ==> UsernamesDistinct(clinics)
      requires IdsDistinct(clinics)
      ensures Valid()
      ensures this.gateEnabled == gateEnabled && !loggedIn && uploads == []
      ensures this.clinics == clinics && this.patients == patients && this.appointments == appointments
    {
      var next: nat := 0;
      for i := 0 to |clinics|
        invariant forall k :: 0 <= k < i ==> clinics[k].id < next
      {
        if clinics[i].id >= next {
          next := clinics[i].id + 1;
        }
      }
      this.gateEnabled := gateEnabled;
      this.loggedIn := false;
      this.clinics := clinics;
      this.nextId := next;
      this.uploads := [];
      this.patients := patients;
      this.appointments := appointments;
    }

    /**
      The login page. A logged-in session is sent to the dashboard without
      any check. A POST logs in exactly when both credentials are configured
      and the submitted username and password equal them; otherwise the
      flag is left as it was. Only the admin app has this page.
    */
    method Login(isPost: bool, form: Form, config: AdminConfig) returns (page: Page)
      requires gateEnabled
      modifies this`loggedIn
      ensures loggedIn <==>
        old(loggedIn)
        || (isPost && config.username.Some? && config.password.Some?
            && FormGet(form, "username") == config.username
            && FormGet(form, "password") == config.password)
      ensures old(loggedIn) ==> page == RedirectDashboard
      ensures !old(loggedIn) && !isPost ==> page == LoginForm
      ensures !old(loggedIn) && isPost && (config.username.None? || config.password.None?)
              ==> page == RedirectLogin(ServiceErrorFlash)
      ensures !old(loggedIn) && isPost && config.username.Some? && config.password.Some?
              ==> page == (if loggedIn then RedirectDashboard else RedirectLogin(InvalidCredentialsFlash))
    {
      if loggedIn {
        return RedirectDashboard;
      }
      if !isPost {
        return LoginForm;
      }
      var username := FormGet(form, "username");
      var password := FormGet(form, "password");
      if config.username.None? || config.password.None? {
        return RedirectLogin(ServiceErrorFlash);
      }
      if username == config.username && password == config.password {
        loggedIn := true;
        page := RedirectDashboard;
      } else {
        page := RedirectLogin(InvalidCredentialsFlash);
      }
    }

    /**
      Logout: the admin app clears the session flag (whatever it was, so a
      second logout changes nothing); the demo has no session to clear.
    */
    method Logout() returns (page: Page)
      modifies this`loggedIn
      ensures page == RedirectLogin(LoggedOutFlash)
      ensures loggedIn == (if gateEnabled then false else old(loggedIn))
    {
      if gateEnabled {
        loggedIn := false;
      }
      page := RedirectLogin(LoggedOutFlash);
    }

    /**
      POST /api/clinics. In order: the session gate; the image part and its
      filename; the upload; building the record (hashing the password); the
      required-field check; the username lookup; the insert.
    */
    method CreateClinic(req: CreateRequest, env: Env) returns (r: ClinicsReply)
      requires Valid()
      modifies this`clinics, this`nextId, this`uploads
      ensures Valid()
      // the gate answers before anything else happens
      ensures r == Unauthorized <==> !Authorized()
      ensures Authorized() && req.image.None? ==> r == NoImageProvided
      ensures Authorized() && req.image.Some? && req.image.value.filename == "" ==> r == NoSelectedImage
      // exactly one upload once the image checks pass, whatever happens next
      ensures uploads == old(uploads) + (if Authorized() && ImageSelected(req) then [Upload(ImageFolder, req.image.value)] else [])
      ensures Authorized() && ImageSelected(req) && env.upload.UploadFailed?
              ==> r == ServerError(UploadError(env.upload.message))
      ensures Authorized() && ImageSelected(req) && env.upload.Uploaded? && "password" !in req.form
              ==> r == ServerError(HashRaised)
      ensures Authorized() && ImageSelected(req) && env.upload.Uploaded? && "password" in req.form ==>
              var missing := MissingFields(DraftOf(req, env));
              && (missing != [] ==> r == MissingRequired(missing))
              && (missing == [] && env.storeFault.Some? ==> r == ServerError(StoreError(env.storeFault.value)))
              && (missing == [] && env.storeFault.None? ==>
                    var draft := DraftOf(req, env);
                    if UsernameTaken(old(clinics), draft.username.value) then r == UsernameExists
                    else r == Created(old(nextId), env.upload.secureUrl)
                         && clinics == old(clinics) + [NewClinic(draft, old(nextId))])
      // the table changes only by the one insert of a 201
      ensures r.Created? ==> nextId == old(nextId) + 1 && |clinics| == |old(clinics)| + 1
      ensures !r.Created? ==> clinics == old(clinics) && nextId == old(nextId)
      ensures r.Status() in {401, 400, 409, 201, 500}
    {
      if !Authorized() {
        return Unauthorized;
      }
      if req.image.None? {
        return NoImageProvided;
      }
      var file := req.image.value;
      if file.filename == "" {
        return NoSelectedImage;
      }
      uploads := uploads + [Upload(ImageFolder, file)];
      if env.upload.UploadFailed? {
        return ServerError(UploadError(env.upload.message));
      }
      var imageUrl := env.upload.secureUrl;
      var built := BuildDraft(req.form, imageUrl, env.hash);
      if built.Failure? {
        return ServerError(HashRaised);
      }
      var draft := built.draft;
      assert draft == DraftOf(req, env);
      var missing := MissingFields(draft);
      if missing != [] {
        return MissingRequired(missing);
      }
      if env.storeFault.Some? {
        return ServerError(StoreError(env.storeFault.value));
      }
      var clinic := NewClinic(draft, nextId);
      assert clinic.username == draft.username.value;
      if UsernameTaken(clinics, clinic.username) {
        return UsernameExists;
      }
      if gateEnabled {
        InsertKeepsUsernamesDistinct(clinics, clinic);
      }
      clinics := clinics + [clinic];
      r := Created(nextId, imageUrl);
      nextId := nextId + 1;
    }

    /**
      GET /api/clinics: every stored clinic, in store order, without its
      password and with `image_url` null when the document has none. Reads
      the store only.
    */
    method ListClinics(storeFault: Option<string>) returns (r: ClinicsReply)
      ensures r == Unauthorized <==> !Authorized()
      ensures Authorized() && storeFault.Some? ==> r == ServerError(StoreError(storeFault.value))
      ensures Authorized() && storeFault.None? ==>
        && r.Listing? && |r.clinics| == |clinics|
        && forall i :: 0 <= i < |clinics| ==>
             var c, v := clinics[i], r.clinics[i];
             && v.id == c.id && v.name == c.name && v.identifier == c.identifier
             && v.location == c.location && v.status == c.status && v.username == c.username
             && v.imageUrl == c.imageUrl
    {
      if !Authorized() {
        return Unauthorized;
      }
      if storeFault.Some? {
        return ServerError(StoreError(storeFault.value));
      }
      var listed: seq<ClinicView> := [];
      for i := 0 to |clinics|
        invariant |listed| == i
        invariant forall k :: 0 <= k < i ==> listed[k] == View(clinics[k])
      {
        listed := listed + [View(clinics[i])];
      }
      r := Listing(listed);
    }

    /** GET /api/stats: no session gate in either deployment. */
    method GetStats(today: string, storeFault: Option<string>) returns (r: ApiReply<BasicStats>)
      ensures storeFault.Some? ==> r == Error(storeFault.value)
      ensures storeFault.None? ==>
        && r.Ok?
        && r.value.totalHospitals == |clinics|
        && r.value.patientsLoggedIn == |patients|
        && r.value.totalPlaces == |Places(clinics)| <= |clinics|
        && r.value.todaysAppointments == Aggregation.CountOf(Dates(appointments), today)
    {
      if storeFault.Some? {
        return Error(storeFault.value);
      }
      r := Ok(ComputeStats(clinics, patients, appointments, today));
    }

    /** GET /api/patient-analytics: gated; new patients per day, ascending by day. */
    method GetPatientAnalytics(storeFault: Option<string>) returns (r: ApiReply<seq<DayCount>>)
      ensures r == Denied <==> !Authorized()
      ensures Authorized() && storeFault.Some? ==> r == Error(storeFault.value)
      ensures Authorized() && storeFault.None? ==> r == Ok(PatientAnalytics(patients))
    {
      if !Authorized() {
        return Denied;
      }
      if storeFault.Some? {
        return Error(storeFault.value);
      }
      r := Ok(PatientAnalytics(patients));
    }

    /** GET /api/hospital-distribution: gated; share of clinics per city, largest first. */
    method GetHospitalDistribution(storeFault: Option<string>) returns (r: ApiReply<seq<Share>>)
      ensures r == Denied <==> !Authorized()
      ensures Authorized() && storeFault.Some? ==> r == Error(storeFault.value)
      ensures Authorized() && storeFault.None? ==> r == Ok(HospitalDistribution(clinics))
    {
      if !Authorized() {
        return Denied;
      }
      if storeFault.Some? {
        return Error(storeFault.value);
      }
      r := Ok(HospitalDistribution(clinics));
    }
  }
}
