/** The `message` strings the server answers with. Responses carry one of
    these tags; `MessageText` gives the exact text the source sends. */
module Messages {

  datatype Message =
    | NoMessage                      // a `{ data: ... }` answer with no message field
    | NotAuthorized
    | TokenInvalid
    | InvalidRole
    | MissingStudentFields
    | StudentAlreadyRegistered
    | StudentRegistered
    | MissingAdminFields
    | StaffAlreadyRegistered
    | StaffRegistered
    | IncorrectUsernameOrPassword
    | IncorrectStaffIdOrPassword
    | InvalidCredentials
    | WrongPasswordStudent
    | WrongPasswordAdmin
    | LoginSuccessful
    | StudentsOnly
    | AdminsOnly
    | DataNotFound
    | ProfileFetched
    | AccessDenied
    | OnlyStudentsSubmit
    | GrievanceFieldsRequired
    | GrievanceSubmitted
    | IdNotReceived
    | GrievanceNotFound
    | InvalidStatus
    | StatusUpdated
    | InternalError

  function MessageText(m: Message): string {
    match m
    case NoMessage => ""
    case NotAuthorized => "Not authorized"
    case TokenInvalid => "Token invalid or expired"
    case InvalidRole => "Access denied: invalid role"
    case MissingStudentFields => "Missing student fields"
    case StudentAlreadyRegistered => "Student already registered"
    case StudentRegistered => "Student registered successfully"
    case MissingAdminFields => "Missing admin fields"
    case StaffAlreadyRegistered => "Staff already registered"
    case StaffRegistered => "Staff registered successfully"
    case IncorrectUsernameOrPassword => "Incorrect username or password"
    case IncorrectStaffIdOrPassword => "Incorrect staffId or password"
    case InvalidCredentials => "Invalid credentials"
    case WrongPasswordStudent => "Wrong Password"
    case WrongPasswordAdmin => "Wrong password"
    case LoginSuccessful => "Login successful"
    case StudentsOnly => "Access denied. Students only."
    case AdminsOnly => "Access denied. Admins only."
    case DataNotFound => "Data not found"
    case ProfileFetched => "Profile fetched successfully"
    case AccessDenied => "Access denied"
    case OnlyStudentsSubmit => "Only students can submit grievances"
    case GrievanceFieldsRequired => "Title, description, and category are required"
    case GrievanceSubmitted => "Grievance submitted successfully"
    case IdNotReceived => "Invalid request : Id not recived"
    case GrievanceNotFound => "Grievance not found"
    case InvalidStatus => "Invalid status"
    case StatusUpdated => "Status updated successfully"
    case InternalError => "Server error"
  }
}
