/** The user record as the controllers use it. The user schema itself is not
    part of this model: only the fields the shown code reads or writes are
    kept, and the password hash is left out. */
module Users {
  import opened Domain

  /** `campus`, `phone` and `batch` are `""` when the user has no value there. */
  datatype User = User(
    id: UserId,
    name: string,
    email: string,
    role: Role,
    campus: string,
    phone: string,
    batch: string,
    isActive: bool)
}
