/** Users. Their model file is not part of this model; the fields are the
    ones controllers/authController.js reads and writes. Password hashing and
    the public profile are that model's business and are not modelled, so
    `password` holds what the controller assigned. */
module UserSchema {
  import opened Common

  datatype User = User(
    email: string,
    password: string,
    firstName: string,
    lastName: string,
    phoneNumber: string,
    role: string,
    lastLogin: Option<int>)

  /** The role a registered user starts with (any role but "admin"). */
  const DefaultRole := "user"

  /** No two users share an email. */
  ghost predicate EmailsUnique(users: map<Id, User>)
  {
    forall a, b | a in users && b in users && users[a].email == users[b].email :: a == b
  }
}
