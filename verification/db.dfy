/** The document store: the three collections, the queries the handlers
    issue against them, and the invariant the schemas and unique indexes
    maintain. Collections keep insertion order, which is the order `find`
    and `findOne` return documents in. */
module Db {
  import opened Wrappers
  import opened Text
  import opened Enums
  import opened StudentModel
  import opened AdminModel
  import opened GrievanceModel

  datatype Store = Store(students: seq<Student>, admins: seq<Admin>, grievances: seq<Grievance>)

  // ---------------------------------------------------------------------
  // Queries

  /** `findOne`: the first element satisfying the filter, if any. */
  function First<T(!new)>(xs: seq<T>, p: T -> bool): (r: Option<T>)
    ensures r.Some? ==> r.value in xs && p(r.value)
    ensures r.None? <==> forall x :: x in xs ==> !p(x)
  {
    if |xs| == 0 then None
    else if p(xs[0]) then Some(xs[0])
    else First(xs[1..], p)
  }

  /** `find`: every element satisfying the filter, in stored order. */
  function Where<T(!new)>(xs: seq<T>, p: T -> bool): (r: seq<T>)
    ensures forall x :: x in r <==> x in xs && p(x)
    ensures forall x :: multiset(r)[x] == if p(x) then multiset(xs)[x] else 0
    ensures |r| <= |xs|
  {
    if |xs| == 0 then []
    else
      assert xs == [xs[0]] + xs[1..];
      if p(xs[0]) then [xs[0]] + Where(xs[1..], p)
      else Where(xs[1..], p)
  }

  /** `Student.findOne({registrationId: key})`. The schema's setters are
      applied to the filter value, so the key is normalised before it is
      compared. A filter on an undefined key matches no stored student,
      every one of which has the required field. */
  function FindStudent(st: Store, key: Option<string>): (r: Option<Student>)
    ensures r.Some? ==> key.Some? && r.value in st.students && r.value.registrationId == Normalise(key.value)
    ensures r.None? && key.Some? ==> forall s :: s in st.students ==> s.registrationId != Normalise(key.value)
  {
    if key.None? then None
    else First(st.students, (s: Student) => s.registrationId == Normalise(key.value))
  }

  /** `Admin.findOne({staffId: key})`, with the same normalisation of the key. */
  function FindAdmin(st: Store, key: Option<string>): (r: Option<Admin>)
    ensures r.Some? ==> key.Some? && r.value in st.admins && r.value.staffId == Normalise(key.value)
    ensures r.None? && key.Some? ==> forall a :: a in st.admins ==> a.staffId != Normalise(key.value)
  {
    if key.None? then None
    else First(st.admins, (a: Admin) => a.staffId == Normalise(key.value))
  }

  /** `Grievance.findOne({_id: id})` for an id that casts to an ObjectId.
      The cast reads the hexadecimal digits case-insensitively, and stored
      ids are in the lower-case form, so the lower-cased id is compared. */
  function FindGrievance(st: Store, id: string): (r: Option<Grievance>)
    ensures r.Some? ==> r.value in st.grievances && r.value.id == Lower(id)
    ensures r.None? <==> forall g :: g in st.grievances ==> g.id != Lower(id)
  {
    First(st.grievances, (g: Grievance) => g.id == Lower(id))
  }

  /** The unique index on the students' `personalEmail` already holds this value. */
  predicate StudentEmailTaken(st: Store, email: string) {
    exists s :: s in st.students && s.personalEmail == email
  }

  /** The unique index on the admins' `personalEmail` already holds this value. */
  predicate AdminEmailTaken(st: Store, email: string) {
    exists a :: a in st.admins && a.personalEmail == email
  }

  /** The unique `_id` index already holds this value. */
  predicate GrievanceIdTaken(st: Store, id: string) {
    exists g :: g in st.grievances && g.id == id
  }

  // ---------------------------------------------------------------------
  // The store invariant

  /** Every student passes its schema; registrationId and personalEmail are
      unique across students. */
  predicate StudentsValid(ss: seq<Student>) {
    && (forall i :: 0 <= i < |ss| ==> StudentModel.Valid(ss[i]))
    && (forall i, j :: 0 <= i < j < |ss| ==>
          ss[i].registrationId != ss[j].registrationId && ss[i].personalEmail != ss[j].personalEmail)
  }

  /** Every admin passes its schema; staffId and personalEmail are unique
      across admins. */
  predicate AdminsValid(as_: seq<Admin>) {
    && (forall i :: 0 <= i < |as_| ==> AdminModel.Valid(as_[i]))
    && (forall i, j :: 0 <= i < j < |as_| ==>
          as_[i].staffId != as_[j].staffId && as_[i].personalEmail != as_[j].personalEmail)
  }

  /** Every grievance passes its schema and has an id in the lower-case form
      the driver generates; ids are unique. */
  predicate GrievancesValid(gs: seq<Grievance>) {
    && (forall i :: 0 <= i < |gs| ==> GrievanceModel.Valid(gs[i]) && IsCanonicalObjectId(gs[i].id))
    && (forall i, j :: 0 <= i < j < |gs| ==> gs[i].id != gs[j].id)
  }

  /** The invariant the schemas and the unique indexes maintain. */
  predicate Valid(st: Store) {
    StudentsValid(st.students) && AdminsValid(st.admins) && GrievancesValid(st.grievances)
  }

  /** Appending a schema-valid student whose unique fields are all new keeps
      the students valid. */
  lemma {:induction false} StudentAppendValid(ss: seq<Student>, s: Student)
    requires StudentsValid(ss) && StudentModel.Valid(s)
    requires forall t :: t in ss ==> t.registrationId != s.registrationId
    requires forall t :: t in ss ==> t.personalEmail != s.personalEmail
    ensures StudentsValid(ss + [s])
  {
    var ss' := ss + [s];
    forall i, j | 0 <= i < j < |ss'|
      ensures ss'[i].registrationId != ss'[j].registrationId && ss'[i].personalEmail != ss'[j].personalEmail
    {
      if j == |ss| {
        assert ss'[i] in ss;
      }
    }
  }

  /** Appending a schema-valid admin whose unique fields are all new keeps
      the admins valid. */
  lemma {:induction false} AdminAppendValid(as_: seq<Admin>, a: Admin)
    requires AdminsValid(as_) && AdminModel.Valid(a)
    requires forall b :: b in as_ ==> b.staffId != a.staffId
    requires forall b :: b in as_ ==> b.personalEmail != a.personalEmail
    ensures AdminsValid(as_ + [a])
  {
    var as' := as_ + [a];
    forall i, j | 0 <= i < j < |as'|
      ensures as'[i].staffId != as'[j].staffId && as'[i].personalEmail != as'[j].personalEmail
    {
      if j == |as_| {
        assert as'[i] in as_;
      }
    }
  }

  /** Appending a schema-valid grievance under an unused id keeps the
      grievances valid. */
  lemma {:induction false} GrievanceAppendValid(gs: seq<Grievance>, g: Grievance)
    requires GrievancesValid(gs) && GrievanceModel.Valid(g) && IsCanonicalObjectId(g.id)
    requires forall h :: h in gs ==> h.id != g.id
    ensures GrievancesValid(gs + [g])
  {
    var gs' := gs + [g];
    forall i, j | 0 <= i < j < |gs'|
      ensures gs'[i].id != gs'[j].id
    {
      if j == |gs| {
        assert gs'[i] in gs;
      }
    }
  }

  /** Appending an element after elements that all fail the filter makes
      `findOne` return the appended element when it passes. */
  lemma {:induction false} FirstAfterMisses<T(!new)>(xs: seq<T>, y: T, p: T -> bool)
    requires forall x :: x in xs ==> !p(x)
    requires p(y)
    ensures First(xs + [y], p) == Some(y)
  {
    if |xs| > 0 {
      assert (xs + [y])[1..] == xs[1..] + [y];
      FirstAfterMisses(xs[1..], y, p);
    }
  }
}
