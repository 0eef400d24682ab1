/** The route handlers of the API server. Each one is a chain of guards,
    each guard ending the request with a status code and message, followed
    by at most one store read or write. A handler behind the gate receives
    the gate's principal; the handlers' `if (!user)` branches cannot be taken
    after the gate has passed, so they are not represented. Every exception a
    handler's `try` block catches (a Mongoose validation error, a
    duplicate-key error from a unique index, a failed ObjectId cast) becomes
    500 "Server error" with the store unchanged. */
module Routes {
  import opened Wrappers
  import opened Text
  import opened Enums
  import opened Crypto
  import opened StudentModel
  import opened AdminModel
  import opened GrievanceModel
  import opened Db
  import opened Auth
  import opened Messages

  /** The JSON payload besides `message`. `message` is `NoMessage` where the source
      answers with `{ data: ... }` only. */
  datatype Body =
    | NoBody
    | StudentDoc(student: Student)
    | AdminDoc(admin: Admin)
    | StudentLogin(token: string, student: Student)
    | AdminLogin(token: string, admin: Admin)
    | OneGrievance(grievance: Grievance)
    | Grievances(list: seq<Grievance>)

  datatype Response = Response(code: int, message: Message, body: Body)

  /** A handler's effect: the store after the request, and the answer. */
  datatype Step = Step(store: Store, response: Response)

  function Fail(code: int, message: Message): Response {
    Response(code, message, NoBody)
  }

  const ServerError: Response := Fail(500, InternalError)

  // ---------------------------------------------------------------------
  // POST /register/student

  /** The request body of a student registration. */
  datatype StudentForm = StudentForm(
    name: Option<string>,
    registrationId: Option<string>,
    course: Option<string>,
    yearOfStudy: Option<string>,
    personalEmail: Option<string>,
    phoneNumber: Option<string>,
    hostelName: Option<string>,
    roomNumber: Option<string>,
    password: Option<string>)

  /** One of the eight required fields is falsy; `phoneNumber` is not checked. */
  predicate StudentFormIncomplete(f: StudentForm) {
    || Falsy(f.name) || Falsy(f.registrationId) || Falsy(f.course) || Falsy(f.yearOfStudy)
    || Falsy(f.personalEmail) || Falsy(f.hostelName) || Falsy(f.roomNumber) || Falsy(f.password)
  }

  /** `new Student({...})` with the hashed password: the document the
      schema builds from a complete form, or `None` when validation fails. */
  function CastStudent(c: Primitives, f: StudentForm): Option<Student>
    requires !StudentFormIncomplete(f)
  {
    StudentModel.Build(f.name.value, f.registrationId.value, f.course.value, f.yearOfStudy.value,
                       f.personalEmail.value, f.phoneNumber, f.hostelName.value,
                       f.roomNumber.value, c.hash(f.password.value))
  }

  function RegisterStudent(st: Store, c: Primitives, f: StudentForm): (r: Step)
    ensures StudentFormIncomplete(f) ==> r == Step(st, Fail(400, MissingStudentFields))
    ensures !StudentFormIncomplete(f) && FindStudent(st, f.registrationId).Some? ==>
              r == Step(st, Fail(400, StudentAlreadyRegistered))
    ensures r.response.code in {201, 400, 500}
    ensures r.response.code != 201 ==> r.store == st
    ensures r.response.code == 500 ==> r.response == ServerError
    ensures !StudentFormIncomplete(f) && FindStudent(st, f.registrationId).None?
            && CastStudent(c, f).None? ==>
              r == Step(st, ServerError)
    ensures !StudentFormIncomplete(f) && FindStudent(st, f.registrationId).None?
            && StudentEmailTaken(st, Normalise(f.personalEmail.value)) ==>
              r == Step(st, ServerError)
    ensures r.response.code == 201 <==>
              && !StudentFormIncomplete(f)
              && FindStudent(st, f.registrationId).None?
              && CastStudent(c, f).Some?
              && !StudentEmailTaken(st, Normalise(f.personalEmail.value))
    ensures r.response.code == 201 ==>
              && !StudentFormIncomplete(f)
              && r.response.body.StudentDoc?
              && var s := r.response.body.student;
              && r.store == st.(students := st.students + [s])
              && (forall t :: t in st.students ==> t.registrationId != s.registrationId)
              && !StudentEmailTaken(st, s.personalEmail)
              && s.registrationId == Normalise(f.registrationId.value)
              && s.personalEmail == Normalise(f.personalEmail.value)
              && s.password == c.hash(f.password.value)
              && s.batch == f.yearOfStudy.value
              && s.name == f.name.value && s.roomNumber == f.roomNumber.value
              && s.phoneNumber == f.phoneNumber
              && CourseName(s.course) == f.course.value
              && HostelName(s.hostel) == f.hostelName.value
              && StudentModel.Valid(s)
  {
    if StudentFormIncomplete(f) then Step(st, Fail(400, MissingStudentFields))
    else if FindStudent(st, f.registrationId).Some? then Step(st, Fail(400, StudentAlreadyRegistered))
    else
      match CastStudent(c, f)
      case None => Step(st, ServerError)
      case Some(s) =>
        if StudentEmailTaken(st, s.personalEmail) then Step(st, ServerError)
        else Step(st.(students := st.students + [s]), Response(201, StudentRegistered, StudentDoc(s)))
  }

  // ---------------------------------------------------------------------
  // POST /register/admin

  /** The request body of an admin registration. */
  datatype AdminForm = AdminForm(
    staffId: Option<string>,
    name: Option<string>,
    designation: Option<string>,
    hostelName: Option<string>,
    phoneNumber: Option<string>,
    personalEmail: Option<string>,
    password: Option<string>)

  /** One of the seven required fields is falsy; `phoneNumber` is among them. */
  predicate AdminFormIncomplete(f: AdminForm) {
    || Falsy(f.name) || Falsy(f.staffId) || Falsy(f.designation) || Falsy(f.hostelName)
    || Falsy(f.phoneNumber) || Falsy(f.personalEmail) || Falsy(f.password)
  }

  /** `new Admin({...})` with the hashed password: the document the schema
      builds from a complete form, or `None` when validation fails. */
  function CastAdmin(c: Primitives, f: AdminForm): Option<Admin>
    requires !AdminFormIncomplete(f)
  {
    AdminModel.Build(f.staffId.value, f.name.value, f.designation.value, f.hostelName.value,
                     f.personalEmail.value, f.phoneNumber.value, c.hash(f.password.value))
  }

  function RegisterAdmin(st: Store, c: Primitives, f: AdminForm): (r: Step)
    ensures AdminFormIncomplete(f) ==> r == Step(st, Fail(400, MissingAdminFields))
    ensures !AdminFormIncomplete(f) && FindAdmin(st, f.staffId).Some? ==>
              r == Step(st, Fail(400, StaffAlreadyRegistered))
    ensures r.response.code in {201, 400, 500}
    ensures r.response.code != 201 ==> r.store == st
    ensures r.response.code == 500 ==> r.response == ServerError
    ensures !AdminFormIncomplete(f) && FindAdmin(st, f.staffId).None?
            && CastAdmin(c, f).None? ==>
              r == Step(st, ServerError)
    ensures !AdminFormIncomplete(f) && FindAdmin(st, f.staffId).None?
            && AdminEmailTaken(st, Normalise(f.personalEmail.value)) ==>
              r == Step(st, ServerError)
    ensures r.response.code == 201 <==>
              && !AdminFormIncomplete(f)
              && FindAdmin(st, f.staffId).None?
              && CastAdmin(c, f).Some?
              && !AdminEmailTaken(st, Normalise(f.personalEmail.value))
    ensures r.response.code == 201 ==>
              && !AdminFormIncomplete(f)
              && r.response.body.AdminDoc?
              && var a := r.response.body.admin;
              && r.store == st.(admins := st.admins + [a])
              && (forall b :: b in st.admins ==> b.staffId != a.staffId)
              && !AdminEmailTaken(st, a.personalEmail)
              && a.staffId == Normalise(f.staffId.value)
              && a.personalEmail == Normalise(f.personalEmail.value)
              && a.password == c.hash(f.password.value)
              && a.name == f.name.value && a.phoneNumber == f.phoneNumber.value
              && DesignationName(a.designation) == f.designation.value
              && HostelName(a.hostel) == f.hostelName.value
              && AdminModel.Valid(a)
  {
    if AdminFormIncomplete(f) then Step(st, Fail(400, MissingAdminFields))
    else if FindAdmin(st, f.staffId).Some? then Step(st, Fail(400, StaffAlreadyRegistered))
    else
      match CastAdmin(c, f)
      case None => Step(st, ServerError)
      case Some(a) =>
        if AdminEmailTaken(st, a.personalEmail) then Step(st, ServerError)
        else Step(st.(admins := st.admins + [a]), Response(201, StaffRegistered, AdminDoc(a)))
  }

  // ---------------------------------------------------------------------
  // POST /login/student and POST /login/admin

  /** Student login. The id is lower-cased and trimmed before the lookup;
      the token signed on success carries the role and the stored id only. */
  function LoginStudent(st: Store, c: Primitives, registrationId: Option<string>, password: Option<string>): (r: Response)
    ensures Falsy(registrationId) || Falsy(password) ==> r == Fail(400, IncorrectUsernameOrPassword)
    ensures !Falsy(registrationId) && !Falsy(password)
            && (forall s :: s in st.students ==> s.registrationId != Normalise(registrationId.value)) ==>
              r == Fail(401, InvalidCredentials)
    ensures r.code in {201, 400, 401}
    ensures !Falsy(registrationId) && !Falsy(password) ==>
              var found := FindStudent(st, Some(Normalise(registrationId.value)));
              && (found.Some? && !c.compare(password.value, found.value.password) ==>
                    r == Fail(401, WrongPasswordStudent))
              && (found.Some? && c.compare(password.value, found.value.password) ==>
                    r.code == 201 && r.body.StudentLogin? && r.body.student == found.value)
    ensures r.code == 401 && r.message == WrongPasswordStudent ==>
              exists s :: s in st.students && s.registrationId == Normalise(registrationId.value)
                          && !c.compare(password.value, s.password)
    ensures r.code == 201 ==>
              && !Falsy(registrationId) && !Falsy(password)
              && r.body.StudentLogin?
              && r.body.student in st.students
              && r.body.student.registrationId == Normalise(registrationId.value)
              && c.compare(password.value, r.body.student.password)
              && r.body.token == c.sign(StudentClaims(r.body.student.registrationId))
  {
    if Falsy(registrationId) || Falsy(password) then Fail(400, IncorrectUsernameOrPassword)
    else
      NormaliseIdempotent(registrationId.value);
      match FindStudent(st, Some(Normalise(registrationId.value)))
      case None => Fail(401, InvalidCredentials)
      case Some(s) =>
        if !c.compare(password.value, s.password) then Fail(401, WrongPasswordStudent)
        else Response(201, LoginSuccessful, StudentLogin(c.sign(StudentClaims(s.registrationId)), s))
  }

  /** Admin login; the schema normalises the staffId in the filter. */
  function LoginAdmin(st: Store, c: Primitives, staffId: Option<string>, password: Option<string>): (r: Response)
    ensures Falsy(staffId) || Falsy(password) ==> r == Fail(400, IncorrectStaffIdOrPassword)
    ensures !Falsy(staffId) && !Falsy(password)
            && (forall a :: a in st.admins ==> a.staffId != Normalise(staffId.value)) ==>
              r == Fail(401, InvalidCredentials)
    ensures r.code in {201, 400, 401}
    ensures !Falsy(staffId) && !Falsy(password) ==>
              var found := FindAdmin(st, staffId);
              && (found.Some? && !c.compare(password.value, found.value.password) ==>
                    r == Fail(401, WrongPasswordAdmin))
              && (found.Some? && c.compare(password.value, found.value.password) ==>
                    r.code == 201 && r.body.AdminLogin? && r.body.admin == found.value)
    ensures r.code == 401 && r.message == WrongPasswordAdmin ==>
              exists a :: a in st.admins && a.staffId == Normalise(staffId.value)
                          && !c.compare(password.value, a.password)
    ensures r.code == 201 ==>
              && !Falsy(staffId) && !Falsy(password)
              && r.body.AdminLogin?
              && r.body.admin in st.admins
              && r.body.admin.staffId == Normalise(staffId.value)
              && c.compare(password.value, r.body.admin.password)
              && r.body.token == c.sign(AdminClaims(r.body.admin.staffId))
  {
    if Falsy(staffId) || Falsy(password) then Fail(400, IncorrectStaffIdOrPassword)
    else
      match FindAdmin(st, staffId)
      case None => Fail(401, InvalidCredentials)
      case Some(a) =>
        if !c.compare(password.value, a.password) then Fail(401, WrongPasswordAdmin)
        else Response(201, LoginSuccessful, AdminLogin(c.sign(AdminClaims(a.staffId)), a))
  }

  // ---------------------------------------------------------------------
  // GET /profile/student and GET /profile/admin

  /** The caller's own student record, looked up by the id in the principal. */
  function StudentProfile(st: Store, user: Principal): (r: Response)
    ensures user.AdminP? ==> r == Fail(403, StudentsOnly)
    ensures r.code in {201, 403, 404}
    ensures r.code == 404 <==> user.StudentP? && FindStudent(st, user.registrationId).None?
    ensures user.StudentP? && FindStudent(st, user.registrationId).Some? ==>
              r == Response(201, ProfileFetched, StudentDoc(FindStudent(st, user.registrationId).value))
    ensures r.code == 201 ==>
              && user.StudentP? && user.registrationId.Some?
              && r.body.StudentDoc?
              && r.body.student in st.students
              && r.body.student.registrationId == Normalise(user.registrationId.value)
  {
    if !user.StudentP? then Fail(403, StudentsOnly)
    else
      match FindStudent(st, user.registrationId)
      case None => Fail(404, DataNotFound)
      case Some(s) => Response(201, ProfileFetched, StudentDoc(s))
  }

  /** The caller's own admin record, looked up by the id in the principal. */
  function AdminProfile(st: Store, user: Principal): (r: Response)
    ensures user.StudentP? ==> r == Fail(403, AdminsOnly)
    ensures r.code in {201, 403, 404}
    ensures r.code == 404 <==> user.AdminP? && FindAdmin(st, user.staffId).None?
    ensures user.AdminP? && FindAdmin(st, user.staffId).Some? ==>
              r == Response(201, ProfileFetched, AdminDoc(FindAdmin(st, user.staffId).value))
    ensures r.code == 201 ==>
              && user.AdminP? && user.staffId.Some?
              && r.body.AdminDoc?
              && r.body.admin in st.admins
              && r.body.admin.staffId == Normalise(user.staffId.value)
  {
    if !user.AdminP? then Fail(403, AdminsOnly)
    else
      match FindAdmin(st, user.staffId)
      case None => Fail(404, DataNotFound)
      case Some(a) => Response(201, ProfileFetched, AdminDoc(a))
  }

  // ---------------------------------------------------------------------
  // GET /api/grievances/my

  /** The student's own grievances: exactly those whose registrationId is
      the principal's. A grievance's registrationId is compared as stored,
      unnormalised, because the grievance schema has no setters. */
  function MyGrievances(st: Store, user: Principal): (r: Response)
    ensures user.AdminP? ==> r == Fail(403, AccessDenied)
    ensures user.StudentP? ==>
              && r.code == 201 && r.body.Grievances?
              && (forall g :: g in r.body.list <==>
                    g in st.grievances && Some(g.registrationId) == user.registrationId)
              && (forall g :: multiset(r.body.list)[g] ==
                    if Some(g.registrationId) == user.registrationId then multiset(st.grievances)[g] else 0)
  {
    if !user.StudentP? then Fail(403, AccessDenied)
    else Response(201, NoMessage, Grievances(Where(st.grievances, (g: Grievance) => Some(g.registrationId) == user.registrationId)))
  }

  // ---------------------------------------------------------------------
  // POST /api/grievances

  /** The text fields of a grievance submission. `hostelName` is whatever
      the client may put in the body; the handler never reads it. */
  datatype GrievanceForm = GrievanceForm(
    title: Option<string>,
    description: Option<string>,
    category: Option<string>,
    hostelName: Option<string>)

  /** `req.files.map(file => ({ link: "/uploads/" + file.filename }))`, or no
      images when the request carried no file list. */
  function ImagesOf(files: Option<seq<string>>): (images: seq<Image>)
    ensures files.None? ==> images == []
    ensures files.Some? ==> |images| == |files.value|
    ensures files.Some? ==> forall i :: 0 <= i < |images| ==> images[i].link == "/uploads/" + files.value[i]
  {
    match files
    case None => []
    case Some(names) => seq(|names|, i requires 0 <= i < |names| => Image("/uploads/" + names[i]))
  }

  /** Filing a grievance. `newId` is the ObjectId the driver generates for
      the new document; `files` are the stored names of the uploaded images
      in upload order. */
  function CreateGrievance(st: Store, user: Principal, f: GrievanceForm,
                           files: Option<seq<string>>, newId: string): (r: Step)
    ensures user.AdminP? ==> r == Step(st, Fail(403, OnlyStudentsSubmit))
    ensures user.StudentP? && (Falsy(f.title) || Falsy(f.description) || Falsy(f.category)) ==>
              r == Step(st, Fail(400, GrievanceFieldsRequired))
    ensures user.StudentP? && !Falsy(f.title) && !Falsy(f.description) && !Falsy(f.category)
            && FindStudent(st, user.registrationId).None? ==>
              r == Step(st, Fail(403, AccessDenied))
    ensures r.response.code in {201, 400, 403, 500}
    ensures r.response.code != 201 ==> r.store == st
    ensures r.response.code == 500 ==> r.response == ServerError
    ensures user.StudentP? && !Falsy(f.title) && !Falsy(f.description) && !Falsy(f.category)
            && FindStudent(st, user.registrationId).Some?
            && (user.registrationId.value == "" || ParseCategory(f.category.value).None?
                || GrievanceIdTaken(st, newId)) ==>
              r == Step(st, ServerError)
    ensures r.response.code == 201 <==>
              && user.StudentP? && !Falsy(f.title) && !Falsy(f.description) && !Falsy(f.category)
              && FindStudent(st, user.registrationId).Some?
              && user.registrationId.value != ""
              && ParseCategory(f.category.value).Some?
              && !GrievanceIdTaken(st, newId)
    ensures r.response.code == 201 ==>
              && user.StudentP? && user.registrationId.Some?
              && FindStudent(st, user.registrationId).Some?
              && r.response.body.OneGrievance?
              && var g := r.response.body.grievance;
              && r.store == st.(grievances := st.grievances + [g])
              && !GrievanceIdTaken(st, newId)
              && g.id == newId
              && g.registrationId == user.registrationId.value
              && g.hostelName == HostelName(FindStudent(st, user.registrationId).value.hostel)
              && g.title == f.title.value && g.description == f.description.value
              && CategoryName(g.category) == f.category.value
              && g.images == ImagesOf(files)
              && g.status == Pending
              && GrievanceModel.Valid(g)
  {
    if !user.StudentP? then Step(st, Fail(403, OnlyStudentsSubmit))
    else if Falsy(f.title) || Falsy(f.description) || Falsy(f.category) then
      Step(st, Fail(400, GrievanceFieldsRequired))
    else
      var images := ImagesOf(files);
      match FindStudent(st, user.registrationId)
      case None => Step(st, Fail(403, AccessDenied))
      case Some(s) =>
        match GrievanceModel.Build(newId, user.registrationId.value, HostelName(s.hostel),
                                   f.title.value, f.description.value, images, f.category)
        case None => Step(st, ServerError)
        case Some(g) =>
          if GrievanceIdTaken(st, g.id) then Step(st, ServerError)
          else Step(st.(grievances := st.grievances + [g]),
                    Response(201, GrievanceSubmitted, OneGrievance(g)))
  }

  // ---------------------------------------------------------------------
  // GET /all/greivances/admin

  /** The grievances of the hostel the calling admin manages, looked up
      from the admin's stored record and never from the request. */
  function HostelGrievances(st: Store, user: Principal): (r: Response)
    ensures user.StudentP? ==> r == Fail(403, AccessDenied)
    ensures user.AdminP? && Falsy(user.staffId) ==> r == Fail(403, IdNotReceived)
    ensures user.AdminP? && !Falsy(user.staffId) && FindAdmin(st, user.staffId).None? ==>
              r == Fail(403, AccessDenied)
    ensures r.code in {201, 403}
    ensures r.code == 201 <==> user.AdminP? && !Falsy(user.staffId) && FindAdmin(st, user.staffId).Some?
    ensures r.code == 201 ==>
              && user.AdminP? && !Falsy(user.staffId)
              && FindAdmin(st, user.staffId).Some?
              && r.body.Grievances?
              && var hostel := HostelName(FindAdmin(st, user.staffId).value.hostel);
                 && (forall g :: g in r.body.list <==> g in st.grievances && g.hostelName == hostel)
                 && (forall g :: multiset(r.body.list)[g] ==
                       if g.hostelName == hostel then multiset(st.grievances)[g] else 0)
  {
    if !user.AdminP? then Fail(403, AccessDenied)
    else if Falsy(user.staffId) then Fail(403, IdNotReceived)
    else
      match FindAdmin(st, user.staffId)
      case None => Fail(403, AccessDenied)
      case Some(a) =>
        var hostel := HostelName(a.hostel);
        Response(201, NoMessage, Grievances(Where(st.grievances, (g: Grievance) => g.hostelName == hostel)))
  }

  // ---------------------------------------------------------------------
  // GET /grievance/:id

  /** One grievance by id, for any authenticated caller: there is no
      ownership or hostel check. An id that is not an ObjectId makes the
      query's cast throw. */
  function FetchGrievance(st: Store, user: Principal, id: string): (r: Response)
    ensures id == "" ==> r == Fail(403, IdNotReceived)
    ensures id != "" && !IsObjectId(id) ==> r == ServerError
    ensures IsObjectId(id) && !GrievanceIdTaken(st, Lower(id)) ==> r == Fail(404, GrievanceNotFound)
    ensures IsObjectId(id) && GrievanceIdTaken(st, Lower(id)) ==> r.code == 201
    ensures r.code in {201, 403, 404, 500}
    ensures r.code == 201 ==>
              IsObjectId(id) && r.body.OneGrievance? && r.body.grievance in st.grievances
              && r.body.grievance.id == Lower(id)
  {
    if id == "" then Fail(403, IdNotReceived)
    else if !IsObjectId(id) then ServerError
    else
      match FindGrievance(st, id)
      case None => Fail(404, GrievanceNotFound)
      case Some(g) => Response(201, NoMessage, OneGrievance(g))
  }

  // ---------------------------------------------------------------------
  // POST /grievance/:id/status

  /** Every stored grievance with this id, with its status replaced. */
  function SetStatus(gs: seq<Grievance>, id: string, s: Status): (r: seq<Grievance>)
    ensures |r| == |gs|
    ensures forall i :: 0 <= i < |gs| ==>
              r[i] == if gs[i].id == id then gs[i].(status := s) else gs[i]
  {
    seq(|gs|, i requires 0 <= i < |gs| => if gs[i].id == id then gs[i].(status := s) else gs[i])
  }

  /** `Grievance.findByIdAndUpdate(id, { status })`: the answer carries the
      document as it was before the update (the library's default). */
  function UpdateById(st: Store, id: string, s: Status): (r: Step)
    ensures !IsObjectId(id) ==> r == Step(st, ServerError)
    ensures IsObjectId(id) && !GrievanceIdTaken(st, Lower(id)) ==> r == Step(st, Fail(404, GrievanceNotFound))
    ensures IsObjectId(id) && GrievanceIdTaken(st, Lower(id)) ==> r.response.code == 201
    ensures r.response.code in {201, 404, 500}
    ensures r.response.code != 201 ==> r.store == st
    ensures r.response.code == 201 ==>
              && IsObjectId(id)
              && r.response.body.OneGrievance?
              && r.response.body.grievance in st.grievances
              && r.response.body.grievance.id == Lower(id)
              && r.store == st.(grievances := SetStatus(st.grievances, Lower(id), s))
  {
    if !IsObjectId(id) then Step(st, ServerError)
    else
      match FindGrievance(st, id)
      case None => Step(st, Fail(404, GrievanceNotFound))
      case Some(g) =>
        Step(st.(grievances := SetStatus(st.grievances, Lower(id), s)),
             Response(201, StatusUpdated, OneGrievance(g)))
  }

  /** The status names the schema's enum admits. */
  function StatusOf(status: Option<string>): (r: Option<Status>)
    ensures r.Some? <==> status in {Some("pending"), Some("running"), Some("completed")}
    ensures r.Some? ==> Some(StatusName(r.value)) == status
  {
    if status.None? then None else ParseStatus(status.value)
  }

  /** The status guard as written: a disjunction of three inequalities,
      which holds of every value. */
  predicate StatusRejectedAsWritten(status: Option<string>) {
    status != Some("pending") || status != Some("running") || status != Some("completed")
  }

  /** The status update as written. The guard always holds, so an admin's
      request with an id is always refused as "Invalid status" and the
      store never changes; the lookup and the write after the guard are
      dead code. */
  function UpdateStatusAsWritten(st: Store, user: Principal, id: string, status: Option<string>): (r: Step)
    ensures r.store == st
    ensures user.StudentP? ==> r.response == Fail(403, AccessDenied)
    ensures user.AdminP? && id == "" ==> r.response == Fail(403, IdNotReceived)
    ensures user.AdminP? && id != "" ==> r.response == Fail(403, InvalidStatus)
  {
    if !user.AdminP? then Step(st, Fail(403, AccessDenied))
    else if id == "" then Step(st, Fail(403, IdNotReceived))
    else if StatusRejectedAsWritten(status) then Step(st, Fail(403, InvalidStatus))
    else
      match StatusOf(status)
      case None => Step(st, Fail(403, InvalidStatus))
      case Some(s) => UpdateById(st, id, s)
  }

  /** The status update with the guard the code evidently intends: refuse a
      status outside the enum, otherwise write it. */
  function UpdateStatus(st: Store, user: Principal, id: string, status: Option<string>): (r: Step)
    ensures user.StudentP? ==> r == Step(st, Fail(403, AccessDenied))
    ensures user.AdminP? && id == "" ==> r == Step(st, Fail(403, IdNotReceived))
    ensures user.AdminP? && id != "" && StatusOf(status).None? ==> r == Step(st, Fail(403, InvalidStatus))
    ensures user.AdminP? && id != "" && StatusOf(status).Some? ==>
              r == UpdateById(st, id, StatusOf(status).value)
    ensures user.AdminP? && id != "" && StatusOf(status).Some? && !IsObjectId(id) ==>
              r == Step(st, ServerError)
    ensures user.AdminP? && id != "" && StatusOf(status).Some? && IsObjectId(id)
            && !GrievanceIdTaken(st, Lower(id)) ==>
              r == Step(st, Fail(404, GrievanceNotFound))
    ensures r.response.code in {201, 403, 404, 500}
    ensures r.response.code != 201 ==> r.store == st
    ensures r.response.code == 201 <==>
              && user.AdminP? && id != "" && IsObjectId(id)
              && status in {Some("pending"), Some("running"), Some("completed")}
              && GrievanceIdTaken(st, Lower(id))
    ensures r.response.code == 201 ==>
              && r.response.body.OneGrievance? && r.response.body.grievance in st.grievances
              && r.store.students == st.students && r.store.admins == st.admins
              && |r.store.grievances| == |st.grievances|
              && forall i :: 0 <= i < |st.grievances| ==>
                   if st.grievances[i].id == Lower(id)
                   then Some(StatusName(r.store.grievances[i].status)) == status
                        && r.store.grievances[i] == st.grievances[i].(status := r.store.grievances[i].status)
                   else r.store.grievances[i] == st.grievances[i]
  {
    if !user.AdminP? then Step(st, Fail(403, AccessDenied))
    else if id == "" then Step(st, Fail(403, IdNotReceived))
    else
      match StatusOf(status)
      case None => Step(st, Fail(403, InvalidStatus))
      case Some(s) => UpdateById(st, id, s)
  }
}
