/** What holds of the API across requests: the store invariant every
    request keeps, and the properties that relate several requests or the
    gate to a handler. */
module ServerProperties {
  import opened Wrappers
  import opened Text
  import opened Enums
  import opened Crypto
  import opened StudentModel
  import opened AdminModel
  import opened GrievanceModel
  import opened Db
  import opened Auth
  import opened Routes
  import opened Messages
  import opened Server

  // ---------------------------------------------------------------------
  // The store invariant is preserved

  lemma {:induction false} RegisterStudentKeepsValid(st: Store, c: Primitives, f: StudentForm)
    requires Db.Valid(st)
    ensures Db.Valid(RegisterStudent(st, c, f).store)
  {
    var r := RegisterStudent(st, c, f);
    if r.response.code == 201 {
      var s := r.response.body.student;
      StudentAppendValid(st.students, s);
    }
  }

  lemma {:induction false} RegisterAdminKeepsValid(st: Store, c: Primitives, f: AdminForm)
    requires Db.Valid(st)
    ensures Db.Valid(RegisterAdmin(st, c, f).store)
  {
    var r := RegisterAdmin(st, c, f);
    if r.response.code == 201 {
      var a := r.response.body.admin;
      AdminAppendValid(st.admins, a);
    }
  }

  /** `newId` is an id the driver generated, so it is in printed form. */
  lemma {:induction false} CreateGrievanceKeepsValid(st: Store, user: Principal, f: GrievanceForm,
                                                     files: Option<seq<string>>, newId: string)
    requires Db.Valid(st)
    requires IsCanonicalObjectId(newId)
    ensures Db.Valid(CreateGrievance(st, user, f, files, newId).store)
  {
    var r := CreateGrievance(st, user, f, files, newId);
    if r.response.code == 201 {
      var g := r.response.body.grievance;
      GrievanceAppendValid(st.grievances, g);
    }
  }

  /** Changing the status of grievances keeps every grievance schema-valid and
      every id where it was. */
  lemma {:induction false} SetStatusKeepsValid(gs: seq<Grievance>, id: string, s: Status)
    requires GrievancesValid(gs)
    ensures GrievancesValid(SetStatus(gs, id, s))
  {
    var gs' := SetStatus(gs, id, s);
    forall i | 0 <= i < |gs'|
      ensures GrievanceModel.Valid(gs'[i]) && gs'[i].id == gs[i].id
    {
      assert GrievanceModel.Valid(gs[i]);
    }
    assert forall i :: 0 <= i < |gs'| ==> IsCanonicalObjectId(gs'[i].id);
  }

  lemma {:induction false} UpdateStatusKeepsValid(st: Store, user: Principal, id: string, status: Option<string>)
    requires Db.Valid(st)
    ensures Db.Valid(UpdateStatus(st, user, id, status).store)
  {
    var r := UpdateStatus(st, user, id, status);
    if r.response.code == 201 {
      SetStatusKeepsValid(st.grievances, Lower(id), StatusOf(status).value);
    }
  }

  /** Every request keeps every document schema-valid and every unique
      field unique. */
  lemma {:induction false} HandleKeepsValid(st: Store, c: Primitives, newId: string, req: Request)
    requires Db.Valid(st)
    requires IsCanonicalObjectId(newId)
    ensures Db.Valid(Handle(st, c, newId, req).store)
  {
    match req
    case PostRegisterStudent(f) => RegisterStudentKeepsValid(st, c, f);
    case PostRegisterAdmin(f) => RegisterAdminKeepsValid(st, c, f);
    case PostLoginStudent(_, _) =>
    case PostLoginAdmin(_, _) =>
    case Protected(header, call) =>
      match Authorise(c, header)
      case Reject(_, _) =>
      case Pass(user) =>
        match call
        case PostGrievance(f, files) => CreateGrievanceKeepsValid(st, user, f, files, newId);
        case PostStatus(id, status) => UpdateStatusKeepsValid(st, user, id, status);
        case _ =>
  }

  // ---------------------------------------------------------------------
  // Properties across requests

  /** A grievance just filed under a driver-generated id is fetched back by
      that id in any spelling of its hexadecimal digits. */
  lemma {:induction false} FiledGrievanceFetched(st: Store, user: Principal, f: GrievanceForm,
                                                 files: Option<seq<string>>, newId: string,
                                                 u: Principal, id: string)
    requires Db.Valid(st)
    requires IsCanonicalObjectId(newId)
    requires CreateGrievance(st, user, f, files, newId).response.code == 201
    requires IsObjectId(id) && Lower(id) == newId
    ensures var r := CreateGrievance(st, user, f, files, newId);
            FetchGrievance(r.store, u, id) == Response(201, NoMessage, OneGrievance(r.response.body.grievance))
  {
    var r := CreateGrievance(st, user, f, files, newId);
    var g := r.response.body.grievance;
    FirstAfterMisses(st.grievances, g, (h: Grievance) => h.id == Lower(id));
  }

  /** Once a student is registered, a second registration under the same
      (normalised) registrationId is refused with 400, whatever its other
      fields, and changes nothing. */
  lemma DuplicateStudentRefused(st: Store, c: Primitives, f: StudentForm, g: StudentForm)
    requires RegisterStudent(st, c, f).response.code == 201
    requires !StudentFormIncomplete(g)
    requires Normalise(g.registrationId.value) == Normalise(f.registrationId.value)
    ensures var st' := RegisterStudent(st, c, f).store;
            RegisterStudent(st', c, g) == Step(st', Fail(400, StudentAlreadyRegistered))
  {
    var r := RegisterStudent(st, c, f);
    var s := r.response.body.student;
    assert s in r.store.students;
    assert FindStudent(r.store, g.registrationId).Some?;
  }

  /** Once an admin is registered, a second registration under the same
      (normalised) staffId is refused with 400 and changes nothing. */
  lemma DuplicateAdminRefused(st: Store, c: Primitives, f: AdminForm, g: AdminForm)
    requires RegisterAdmin(st, c, f).response.code == 201
    requires !AdminFormIncomplete(g)
    requires Normalise(g.staffId.value) == Normalise(f.staffId.value)
    ensures var st' := RegisterAdmin(st, c, f).store;
            RegisterAdmin(st', c, g) == Step(st', Fail(400, StaffAlreadyRegistered))
  {
    var r := RegisterAdmin(st, c, f);
    var a := r.response.body.admin;
    assert a in r.store.admins;
    assert FindAdmin(r.store, g.staffId).Some?;
  }

  /** A student who has just registered can log in with the same id and
      password, and the token issued passes the gate as that student. */
  lemma RegisteredStudentLogsIn(st: Store, c: Primitives, f: StudentForm)
    requires Sound(c)
    requires RegisterStudent(st, c, f).response.code == 201
    ensures var st' := RegisterStudent(st, c, f).store;
            var s := RegisterStudent(st, c, f).response.body.student;
            var login := LoginStudent(st', c, f.registrationId, f.password);
            && login.code == 201
            && login.body.student == s
            && Authorise(c, Some(BearerPrefix + login.body.token)) == Pass(StudentP(Some(s.registrationId)))
  {
    var r := RegisterStudent(st, c, f);
    var s := r.response.body.student;
    var key := Normalise(f.registrationId.value);
    NormaliseIdempotent(f.registrationId.value);
    FirstAfterMisses(st.students, s, (t: Student) => t.registrationId == Normalise(key));
    assert FindStudent(r.store, Some(key)) == Some(s);
    assert c.compare(f.password.value, s.password);
    IssuedTokenPasses(c, StudentClaims(s.registrationId));
  }

  /** An admin who has just registered can log in with the same staffId and
      password, and the token issued passes the gate as that admin. */
  lemma RegisteredAdminLogsIn(st: Store, c: Primitives, f: AdminForm)
    requires Sound(c)
    requires RegisterAdmin(st, c, f).response.code == 201
    ensures var st' := RegisterAdmin(st, c, f).store;
            var a := RegisterAdmin(st, c, f).response.body.admin;
            var login := LoginAdmin(st', c, f.staffId, f.password);
            && login.code == 201
            && login.body.admin == a
            && Authorise(c, Some(BearerPrefix + login.body.token)) == Pass(AdminP(Some(a.staffId)))
  {
    var r := RegisterAdmin(st, c, f);
    var a := r.response.body.admin;
    FirstAfterMisses(st.admins, a, (b: Admin) => b.staffId == Normalise(f.staffId.value));
    assert FindAdmin(r.store, f.staffId) == Some(a);
    assert c.compare(f.password.value, a.password);
    IssuedTokenPasses(c, AdminClaims(a.staffId));
  }

  /** An unknown id and a wrong password are both answered with 401 (the
      messages differ: "Invalid credentials" and "Wrong Password"). */
  lemma LoginFailuresShareCode(st: Store, c: Primitives, id: string, pw: string)
    requires id != "" && pw != ""
    requires LoginStudent(st, c, Some(id), Some(pw)).code != 201
    ensures LoginStudent(st, c, Some(id), Some(pw)).code == 401
  {
  }

  /** A student principal gets 403 on every admin-only route and an admin
      principal gets 403 on every student-only route. */
  lemma RoleMismatchForbidden(st: Store, c: Primitives, newId: string, header: Option<string>, call: Call)
    requires Authorise(c, header).Pass?
    ensures var r := Handle(st, c, newId, Protected(header, call));
            var user := Authorise(c, header).user;
            && (user.StudentP? && (call.GetAdminProfile? || call.GetHostelGrievances? || call.PostStatus?) ==>
                  r.response.code == 403 && r.store == st)
            && (user.AdminP? && (call.GetStudentProfile? || call.GetMyGrievances? || call.PostGrievance?) ==>
                  r.response.code == 403 && r.store == st)
  {
  }

  /** The hostel stamped on a new grievance does not depend on what the
      client put in the body: two submissions that differ only there have
      the same outcome. */
  lemma ClientHostelIgnored(st: Store, user: Principal, f: GrievanceForm, h: Option<string>,
                            files: Option<seq<string>>, newId: string)
    ensures CreateGrievance(st, user, f.(hostelName := h), files, newId) == CreateGrievance(st, user, f, files, newId)
  {
  }

  /** Fetching one grievance answers the same to every principal: there is
      no ownership or hostel check on this route. */
  lemma FetchIgnoresPrincipal(st: Store, u: Principal, v: Principal, id: string)
    ensures FetchGrievance(st, u, id) == FetchGrievance(st, v, id)
  {
  }

  /** A protected request answered with 201 was let through by the gate. */
  lemma {:induction false} AnsweredRequestPassedGate(st: Store, c: Primitives, newId: string,
                                                     header: Option<string>, call: Call)
    requires Handle(st, c, newId, Protected(header, call)).response.code == 201
    ensures Authorise(c, header).Pass?
    ensures Handle(st, c, newId, Protected(header, call)) == Invoke(st, Authorise(c, header).user, call, newId)
  {
    PassedRequestReachesHandler(st, c, newId, header, call);
  }

  /** A student sees a grievance through "my grievances" only if it was
      filed under the student's own registrationId. */
  lemma {:induction false} MyGrievancesAreOwn(st: Store, c: Primitives, newId: string, header: Option<string>, g: Grievance)
    requires Handle(st, c, newId, Protected(header, GetMyGrievances)).response.code == 201
    ensures Authorise(c, header).Pass? && Authorise(c, header).user.StudentP?
    ensures var r := Handle(st, c, newId, Protected(header, GetMyGrievances)).response;
            var user := Authorise(c, header).user;
            && r.body.Grievances?
            && (g in r.body.list <==> g in st.grievances && Some(g.registrationId) == user.registrationId)
  {
    AnsweredRequestPassedGate(st, c, newId, header, GetMyGrievances);
    var user := Authorise(c, header).user;
    assert Invoke(st, user, GetMyGrievances, newId) == Step(st, MyGrievances(st, user));
  }

  /** An admin sees, through the hostel list, exactly the grievances filed
      in the hostel recorded for that admin in the store. */
  lemma {:induction false} HostelListIsScoped(st: Store, c: Primitives, newId: string, header: Option<string>, g: Grievance)
    requires Handle(st, c, newId, Protected(header, GetHostelGrievances)).response.code == 201
    ensures Authorise(c, header).Pass? && Authorise(c, header).user.AdminP?
    ensures FindAdmin(st, Authorise(c, header).user.staffId).Some?
    ensures var r := Handle(st, c, newId, Protected(header, GetHostelGrievances)).response;
            var user := Authorise(c, header).user;
            var admin := FindAdmin(st, user.staffId).value;
            && admin.staffId == Normalise(user.staffId.value)
            && r.body.Grievances?
            && (g in r.body.list <==> g in st.grievances && g.hostelName == HostelName(admin.hostel))
  {
    AnsweredRequestPassedGate(st, c, newId, header, GetHostelGrievances);
    var user := Authorise(c, header).user;
    assert Invoke(st, user, GetHostelGrievances, newId) == Step(st, HostelGrievances(st, user));
  }

  /** End to end: a student registers, logs in, and files a grievance with no
      images using the token from the login. The grievance is pending,
      carries the hostel given at registration and the normalised id, and
      has no images. */
  lemma RegisterLoginFile(st: Store, c: Primitives, f: StudentForm, g: GrievanceForm, newId: string)
    requires Sound(c)
    requires RegisterStudent(st, c, f).response.code == 201
    requires !Falsy(g.title) && !Falsy(g.description) && g.category.Some?
    requires ParseCategory(g.category.value).Some?
    requires !GrievanceIdTaken(st, newId)
    ensures var st1 := RegisterStudent(st, c, f).store;
            var login := LoginStudent(st1, c, f.registrationId, f.password);
            && login.body.StudentLogin?
            && var r := Handle(st1, c, newId, Protected(Some(BearerPrefix + login.body.token), PostGrievance(g, None)));
            && r.response.code == 201
            && r.response.body.OneGrievance?
            && r.response.body.grievance.status == Pending
            && r.response.body.grievance.hostelName == f.hostelName.value
            && r.response.body.grievance.registrationId == Normalise(f.registrationId.value)
            && r.response.body.grievance.images == []
            && r.store.grievances == st.grievances + [r.response.body.grievance]
  {
    var reg := RegisterStudent(st, c, f);
    var st1 := reg.store;
    var s := reg.response.body.student;
    var login := LoginStudent(st1, c, f.registrationId, f.password);
    RegisteredStudentLogsIn(st, c, f);
    var user := StudentP(Some(s.registrationId));
    var header := Some(BearerPrefix + login.body.token);
    assert Authorise(c, header) == Pass(user);
    var r := CreateGrievance(st1, user, g, None, newId);
    PassedRequestReachesHandler(st1, c, newId, header, PostGrievance(g, None));
    StudentFoundAfterRegistering(st, c, f);
    assert st1.grievances == st.grievances;
    NewGrievanceFiled(st1, s, user, g, newId);
    var filed := r.response.body.grievance;
    assert filed.hostelName == HostelName(s.hostel) == f.hostelName.value;
    assert filed.registrationId == s.registrationId == Normalise(f.registrationId.value);
    assert filed.images == ImagesOf(None) == [];
    assert r.store.grievances == st1.grievances + [filed];
    PostGrievanceFiles(st1, user, PostGrievance(g, None), newId);
  }

  /** A request the gate lets through is answered by its route's handler,
      with the gate's principal. */
  lemma PassedRequestReachesHandler(st: Store, c: Primitives, newId: string, header: Option<string>, call: Call)
    requires Authorise(c, header).Pass?
    ensures Handle(st, c, newId, Protected(header, call)) == Invoke(st, Authorise(c, header).user, call, newId)
  {
  }

  /** The grievance route is answered by the filing handler. */
  lemma PostGrievanceFiles(st: Store, user: Principal, call: Call, newId: string)
    requires call.PostGrievance?
    ensures Invoke(st, user, call, newId) == CreateGrievance(st, user, call.form, call.files, newId)
  {
  }

  /** The student just registered is the one a lookup by its stored id finds. */
  lemma StudentFoundAfterRegistering(st: Store, c: Primitives, f: StudentForm)
    requires RegisterStudent(st, c, f).response.code == 201
    ensures var r := RegisterStudent(st, c, f);
            var s := r.response.body.student;
            FindStudent(r.store, Some(s.registrationId)) == Some(s)
  {
    var r := RegisterStudent(st, c, f);
    var s := r.response.body.student;
    NormaliseIdempotent(f.registrationId.value);
    FirstAfterMisses(st.students, s, (t: Student) => t.registrationId == Normalise(s.registrationId));
  }

  /** A student found in the store files a grievance with all of its text
      fields present and an unused id: the filing succeeds. */
  lemma NewGrievanceFiled(st: Store, s: Student, user: Principal, g: GrievanceForm, newId: string)
    requires user == StudentP(Some(s.registrationId))
    requires FindStudent(st, user.registrationId) == Some(s)
    requires s.registrationId != ""
    requires !Falsy(g.title) && !Falsy(g.description) && g.category.Some?
    requires ParseCategory(g.category.value).Some?
    requires !GrievanceIdTaken(st, newId)
    ensures var r := CreateGrievance(st, user, g, None, newId);
            && r.response.code == 201
            && r.response.body.OneGrievance?
            && r.response.body.grievance.hostelName == HostelName(s.hostel)
            && r.response.body.grievance.registrationId == s.registrationId
  {
    assert CategoryName(ParseCategory(g.category.value).value) == g.category.value;
    assert HostelName(s.hostel) != "";
    var built := GrievanceModel.Build(newId, s.registrationId, HostelName(s.hostel),
                                      g.title.value, g.description.value, [], g.category);
    assert built.Some?;
    assert ImagesOf(None) == [];
  }
}
