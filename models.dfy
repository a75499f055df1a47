/**
 * The records of the service: the `Role` enumeration, the `users` row and the
 * `contacts` row, with the column defaults the rest of the model relies on.
 */
module Models {
  import opened Wrappers

  /** The three roles a user can hold: `admin`, `moderator` and `user`. */
  datatype Role = Admin | Moderator | User

  /** The role column's default. */
  const DefaultRole: Role := Role.User

  /** The default of the contacts' `user_id` column. */
  const DefaultOwnerId: int := 1

  /** Which of the token service's two kinds a token is. */
  datatype Scope = AccessScope | RefreshScope

  /**
   * A token, represented by its claims: its scope, its subject (a user's email)
   * and a serial number that stands for what makes each issued token distinct.
   * The signed text the `refresh_token` column holds is not modelled.
   */
  datatype Token = Token(scope: Scope, subject: string, serial: nat)

  /** A row of the `users` table; `confirmed` is the flag the authentication handlers read and set. */
  datatype User = User(
    id: int,
    username: string,
    email: string,
    password: string,
    refreshToken: Option<Token>,
    avatar: Option<string>,
    role: Role,
    confirmed: bool)

  /** A row of the `contacts` table; the `created_at`/`updated_at` timestamps are not modelled. */
  datatype Contact = Contact(
    id: int,
    firstname: string,
    lastname: string,
    email: string,
    phone: string,
    birthday: Option<string>,
    userId: int)

  /** The body accepted when creating a contact. */
  datatype ContactModel = ContactModel(
    firstname: string,
    lastname: string,
    email: string,
    phone: string,
    birthday: string)

  /** The body accepted when updating a contact: only these two fields can change. */
  datatype ContactUpdateModel = ContactUpdateModel(email: string, phone: string)
}
