/** The admin schema: one record per hostel staff member. */
module AdminModel {
  import opened Wrappers
  import opened Text
  import opened Enums

  /** A stored admin. `staffId` and `personalEmail` are kept normalised;
      every field is required, `phoneNumber` included; each admin manages
      exactly one hostel; `role` is the schema default "admin". */
  datatype Admin = Admin(
    role: string,
    staffId: string,
    name: string,
    designation: Designation,
    hostel: Hostel,
    personalEmail: string,
    phoneNumber: string,
    password: string)

  /** A document that passes the schema's validation. */
  predicate Valid(a: Admin) {
    && a.role == "admin"
    && a.staffId != "" && IsNormal(a.staffId)
    && a.name != ""
    && a.personalEmail != "" && IsNormal(a.personalEmail)
    && a.phoneNumber != ""
    && a.password != ""
  }

  /** Casting and validating a new document, as `Admin.create` does before it
      reaches the unique indexes. `None` is a validation error. */
  function Build(staffId: string, name: string, designation: string, hostelName: string,
                 personalEmail: string, phoneNumber: string, password: string): (r: Option<Admin>)
    ensures r.Some? <==>
      && name != "" && phoneNumber != "" && password != ""
      && Normalise(staffId) != "" && Normalise(personalEmail) != ""
      && (exists d :: DesignationName(d) == designation)
      && (exists h :: HostelName(h) == hostelName)
    ensures r.Some? ==>
      && Valid(r.value)
      && r.value.name == name && r.value.phoneNumber == phoneNumber
      && r.value.staffId == Normalise(staffId)
      && r.value.personalEmail == Normalise(personalEmail)
      && r.value.password == password
      && DesignationName(r.value.designation) == designation
      && HostelName(r.value.hostel) == hostelName
  {
    var id := Normalise(staffId);
    var email := Normalise(personalEmail);
    NormaliseIdempotent(staffId);
    NormaliseIdempotent(personalEmail);
    match (ParseDesignation(designation), ParseHostel(hostelName))
    case (Some(d), Some(h)) =>
      if name != "" && phoneNumber != "" && password != "" && id != "" && email != "" then
        Some(Admin("admin", id, name, d, h, email, phoneNumber, password))
      else None
    case _ => None
  }
}
