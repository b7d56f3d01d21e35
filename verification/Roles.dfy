/** The role strings of user rows; a string that names no known role grants nothing. */
module Roles {
  datatype Role = RegularUser | Moderator | Admin | SuperAdmin | Unknown(name: string)
}
