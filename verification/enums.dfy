/** The enumerations declared in the three Mongoose schemas. Each stored
    enum field is a closed datatype here; the strings a request carries are
    turned into it by a parse function that succeeds exactly on the names the
    schema's `enum` list admits (Mongoose compares them case-sensitively). */
module Enums {
  import opened Wrappers

  /** The twelve hostels, named "A" to "L" in both the student and the admin schema. */
  datatype Hostel = A | B | C | D | E | F | G | H | I | J | K | L

  function HostelName(h: Hostel): (r: string)
    ensures |r| == 1
  {
    match h
    case A => "A" case B => "B" case C => "C" case D => "D"
    case E => "E" case F => "F" case G => "G" case H => "H"
    case I => "I" case J => "J" case K => "K" case L => "L"
  }

  function ParseHostel(s: string): (r: Option<Hostel>)
    ensures r.Some? ==> HostelName(r.value) == s
    ensures r.None? ==> forall h :: HostelName(h) != s
  {
    if s == "A" then Some(A) else if s == "B" then Some(B)
    else if s == "C" then Some(C) else if s == "D" then Some(D)
    else if s == "E" then Some(E) else if s == "F" then Some(F)
    else if s == "G" then Some(G) else if s == "H" then Some(H)
    else if s == "I" then Some(I) else if s == "J" then Some(J)
    else if s == "K" then Some(K) else if s == "L" then Some(L)
    else None
  }

  /** Student courses. */
  datatype Course = BTech | MTech | MCA | MSc | Phd

  function CourseName(c: Course): string {
    match c
    case BTech => "B.Tech" case MTech => "M.Tech" case MCA => "MCA"
    case MSc => "MSc" case Phd => "Phd"
  }

  function ParseCourse(s: string): (r: Option<Course>)
    ensures r.Some? ==> CourseName(r.value) == s
    ensures r.None? ==> forall c :: CourseName(c) != s
  {
    if s == "B.Tech" then Some(BTech) else if s == "M.Tech" then Some(MTech)
    else if s == "MCA" then Some(MCA) else if s == "MSc" then Some(MSc)
    else if s == "Phd" then Some(Phd)
    else None
  }

  /** Admin designations. */
  datatype Designation = ChiefWarden | Warden | Supervisor | SystemAdmin

  function DesignationName(d: Designation): string {
    match d
    case ChiefWarden => "chief warden" case Warden => "warden"
    case Supervisor => "supervisor" case SystemAdmin => "system admin"
  }

  function ParseDesignation(s: string): (r: Option<Designation>)
    ensures r.Some? ==> DesignationName(r.value) == s
    ensures r.None? ==> forall d :: DesignationName(d) != s
  {
    if s == "chief warden" then Some(ChiefWarden) else if s == "warden" then Some(Warden)
    else if s == "supervisor" then Some(Supervisor) else if s == "system admin" then Some(SystemAdmin)
    else None
  }

  /** Grievance progress; a new grievance starts as `Pending`, the schema default. */
  datatype Status = Pending | Running | Completed

  function StatusName(s: Status): string {
    match s
    case Pending => "pending" case Running => "running" case Completed => "completed"
  }

  function ParseStatus(s: string): (r: Option<Status>)
    ensures r.Some? ==> StatusName(r.value) == s
    ensures r.None? ==> forall t :: StatusName(t) != s
  {
    if s == "pending" then Some(Pending) else if s == "running" then Some(Running)
    else if s == "completed" then Some(Completed)
    else None
  }

  /** Grievance categories; `Other` is the schema default. */
  datatype Category = Cleanliness | Security | Maintenance | Mess | Internet | Other

  function CategoryName(c: Category): string {
    match c
    case Cleanliness => "cleanliness" case Security => "security"
    case Maintenance => "maintenance" case Mess => "mess"
    case Internet => "internet" case Other => "other"
  }

  function ParseCategory(s: string): (r: Option<Category>)
    ensures r.Some? ==> CategoryName(r.value) == s
    ensures r.None? ==> forall c :: CategoryName(c) != s
  {
    if s == "cleanliness" then Some(Cleanliness) else if s == "security" then Some(Security)
    else if s == "maintenance" then Some(Maintenance) else if s == "mess" then Some(Mess)
    else if s == "internet" then Some(Internet) else if s == "other" then Some(Other)
    else None
  }
}
