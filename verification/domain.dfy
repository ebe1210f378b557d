/** Vocabulary shared by every part of the concern-ticketing backend:
    identifiers, roles, the result codes a request can end in, and the
    small Option/Result wrappers used for absent values and refusals. */
module Domain {

  /** Every identifier (a datastore `_id` or a socket id) is an opaque string.
      Datastore ids are taken to be well-formed ObjectIds: a lookup either
      finds a document or finds none, and never fails to cast. */
  type UserId = string
  type ConcernId = string
  type MessageId = string
  type SocketId = string

  datatype Option<+T> = None | Some(value: T)

  /** The four roles an authenticated actor can hold. */
  datatype Role = Student | Mentor | Admin | SuperAdmin

  /** The `['admin', 'superadmin'].includes(role)` test used by the controllers. */
  predicate IsAdmin(r: Role) {
    r == Admin || r == SuperAdmin
  }

  function RoleName(r: Role): string {
    match r
    case Student => "student"
    case Mentor => "mentor"
    case Admin => "admin"
    case SuperAdmin => "superadmin"
  }

  /** How a request ends. `Ok` covers both 200 and 201 replies; `Invalid` is
      every failure of a datastore save (schema validation, enum, duplicate
      key), which the controllers' catch blocks turn into a 500 reply;
      `Unauthenticated` is the 401 of the authentication middleware. */
  datatype Code = Ok | NotFound | Forbidden | BadRequest | Invalid | Unauthenticated

  /** The answer of a read-only request: the data, or the code it was refused with. */
  datatype Result<+T> = Success(value: T) | Failure(code: Code)

  /** Uploaded-file metadata; file contents are not modelled. */
  datatype Attachment = Attachment(filename: string, originalName: string, path: string, mimetype: string, size: nat)
}
