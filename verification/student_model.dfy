/** The student schema: one record per registered student. */
module StudentModel {
  import opened Wrappers
  import opened Text
  import opened Enums

  /** A stored student. `registrationId` and `personalEmail` are kept
      normalised (lower-cased and trimmed); `phoneNumber` is the only
      optional field; `role` is the schema default "student". */
  datatype Student = Student(
    role: string,
    name: string,
    registrationId: string,
    course: Course,
    batch: string,
    personalEmail: string,
    phoneNumber: Option<string>,
    password: string,
    hostel: Hostel,
    roomNumber: string)

  /** A document that passes the schema's validation. */
  predicate Valid(s: Student) {
    && s.role == "student"
    && s.name != ""
    && s.registrationId != "" && IsNormal(s.registrationId)
    && s.batch != ""
    && s.personalEmail != "" && IsNormal(s.personalEmail)
    && s.password != ""
    && s.roomNumber != ""
  }

  /** Casting and validating a new document, as `Student.create` does before
      it reaches the unique indexes: normalised fields are normalised, enum
      fields must name a member, required strings must be non-empty after
      casting, `role` takes its default. `None` is a validation error. */
  function Build(name: string, registrationId: string, course: string, batch: string,
                 personalEmail: string, phoneNumber: Option<string>, hostelName: string,
                 roomNumber: string, password: string): (r: Option<Student>)
    ensures r.Some? <==>
      && name != "" && batch != "" && roomNumber != "" && password != ""
      && Normalise(registrationId) != "" && Normalise(personalEmail) != ""
      && (exists c :: CourseName(c) == course)
      && (exists h :: HostelName(h) == hostelName)
    ensures r.Some? ==>
      && Valid(r.value)
      && r.value.name == name && r.value.batch == batch && r.value.roomNumber == roomNumber
      && r.value.registrationId == Normalise(registrationId)
      && r.value.personalEmail == Normalise(personalEmail)
      && r.value.phoneNumber == phoneNumber
      && r.value.password == password
      && CourseName(r.value.course) == course
      && HostelName(r.value.hostel) == hostelName
  {
    var id := Normalise(registrationId);
    var email := Normalise(personalEmail);
    NormaliseIdempotent(registrationId);
    NormaliseIdempotent(personalEmail);
    match (ParseCourse(course), ParseHostel(hostelName))
    case (Some(c), Some(h)) =>
      if name != "" && batch != "" && roomNumber != "" && password != "" && id != "" && email != "" then
        Some(Student("student", name, id, c, batch, email, phoneNumber, password, h, roomNumber))
      else None
    case _ => None
  }
}
