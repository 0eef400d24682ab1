/** The API as a whole: the eleven routes and the gate in front of the
    protected ones. */
module Server {
  import opened Wrappers
  import opened Text
  import opened Enums
  import opened Crypto
  import opened StudentModel
  import opened AdminModel
  import opened GrievanceModel
  import opened Db
  import opened Auth
  import opened Routes
  import opened Messages

  /** The routes that sit behind `authoriseUser`. */
  datatype Call =
    | GetStudentProfile                                                // GET  /profile/student
    | GetAdminProfile                                                  // GET  /profile/admin
    | GetMyGrievances                                                  // GET  /api/grievances/my
    | PostGrievance(form: GrievanceForm, files: Option<seq<string>>)   // POST /api/grievances
    | GetHostelGrievances                                              // GET  /all/greivances/admin
    | GetGrievance(id: string)                                         // GET  /grievance/:id
    | PostStatus(id: string, status: Option<string>)                   // POST /grievance/:id/status

  datatype Request =
    | PostRegisterStudent(student: StudentForm)                        // POST /register/student
    | PostRegisterAdmin(admin: AdminForm)                              // POST /register/admin
    | PostLoginStudent(registrationId: Option<string>, password: Option<string>)  // POST /login/student
    | PostLoginAdmin(staffId: Option<string>, password: Option<string>)           // POST /login/admin
    | Protected(authorization: Option<string>, call: Call)

  /** The routes whose handler may write to the store. */
  predicate Writes(req: Request) {
    || req.PostRegisterStudent? || req.PostRegisterAdmin?
    || (req.Protected? && (req.call.PostGrievance? || req.call.PostStatus?))
  }

  /** The route handler a protected call reaches once the gate has passed,
      run with the gate's principal. Only filing and the status update can
      write, and only when they answer 201. */
  function Invoke(st: Store, user: Principal, call: Call, newId: string): (r: Step)
    ensures r.response.code != 201 ==> r.store == st
    ensures !call.PostGrievance? && !call.PostStatus? ==> r.store == st
  {
    match call
    case GetStudentProfile => Step(st, StudentProfile(st, user))
    case GetAdminProfile => Step(st, AdminProfile(st, user))
    case GetMyGrievances => Step(st, MyGrievances(st, user))
    case PostGrievance(form, files) => CreateGrievance(st, user, form, files, newId)
    case GetHostelGrievances => Step(st, HostelGrievances(st, user))
    case GetGrievance(id) => Step(st, FetchGrievance(st, user, id))
    case PostStatus(id, status) => UpdateStatus(st, user, id, status)
  }

  /** One request against the store. `c` supplies the foreign crypto
      functions and `newId` the ObjectId a new grievance would receive. */
  function Handle(st: Store, c: Primitives, newId: string, req: Request): (r: Step)
    ensures r.response.code != 201 ==> r.store == st
    ensures !Writes(req) ==> r.store == st
    ensures req.Protected? && Authorise(c, req.authorization).Reject? ==>
              var v := Authorise(c, req.authorization);
              r == Step(st, Fail(v.code, v.message))
    ensures req.Protected? && Authorise(c, req.authorization).Pass? ==>
              r == Invoke(st, Authorise(c, req.authorization).user, req.call, newId)
  {
    match req
    case PostRegisterStudent(f) => RegisterStudent(st, c, f)
    case PostRegisterAdmin(f) => RegisterAdmin(st, c, f)
    case PostLoginStudent(id, pw) => Step(st, LoginStudent(st, c, id, pw))
    case PostLoginAdmin(id, pw) => Step(st, LoginAdmin(st, c, id, pw))
    case Protected(header, call) =>
      match Authorise(c, header)
      case Reject(code, message) => Step(st, Fail(code, message))
      case Pass(user) => Invoke(st, user, call, newId)
  }
}
