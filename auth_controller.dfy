/** controllers/authController.js: registration, login, and reading and
    updating one's own profile. Tokens, password hashing and the public
    profile belong to collaborators outside this model; the password check is
    a parameter and the clock is the `now` argument. */
module AuthController {
  import opened Common
  import opened UserSchema
  import opened Store

  const DuplicateEmailMsg := "Un compte existe déjà avec cet email"
  /** The one answer to a failed login, whichever check failed. */
  const LoginFailedMsg := "Email ou mot de passe incorrect"
  const UserNotFoundMsg := "Utilisateur non trouvé"

  datatype RegisterBody = RegisterBody(
    email: string, password: string, firstName: string, lastName: string, phoneNumber: string)

  /** Some stored user has this email. */
  predicate EmailTaken(users: map<Id, User>, email: string)
    ensures EmailTaken(users, email) <==> email in (set id | id in users :: users[id].email)
  {
    exists id | id in users :: users[id].email == email
  }

  /** The user `new User({...})` makes of a registration body. */
  function NewUser(body: RegisterBody): (u: User)
    ensures u.email == body.email && u.password == body.password
    ensures u.firstName == body.firstName && u.lastName == body.lastName && u.phoneNumber == body.phoneNumber
    ensures u.role == DefaultRole && u.lastLogin == None
  {
    User(body.email, body.password, body.firstName, body.lastName, body.phoneNumber, DefaultRole, None)
  }

  method Register(db: Database, body: RegisterBody) returns (out: Outcome<(Id, User)>)
    requires db.Valid()
    modifies db`users, db`nextId
    ensures db.Valid()
    ensures EmailTaken(old(db.users), body.email) ==>
              out == Failure(BAD_REQUEST, DuplicateEmailMsg) && db.users == old(db.users)
    ensures out.Success? <==> !EmailTaken(old(db.users), body.email)
    ensures out.Success? ==>
              && out == Success(CREATED, (old(db.nextId), NewUser(body)))
              && old(db.nextId) !in old(db.users)
              && db.users == old(db.users)[old(db.nextId) := NewUser(body)]
  {
    if EmailTaken(db.users, body.email) {
      return Failure(BAD_REQUEST, DuplicateEmailMsg);
    }
    var id := db.NewId();
    var user := NewUser(body);
    db.PutUser(id, user);
    return Success(CREATED, (id, user));
  }

  /** `passwordMatches(user, password)` stands for `user.comparePassword(password)`. */
  method Login(db: Database, email: string, password: string, now: int, passwordMatches: (User, string) -> bool)
    returns (out: Outcome<(Id, User)>)
    requires db.Valid()
    modifies db`users
    ensures db.Valid()
    ensures out.Failure? ==> out == Failure(UNAUTHORIZED, LoginFailedMsg) && db.users == old(db.users)
    ensures out.Success? <==>
              exists id | id in old(db.users) :: old(db.users)[id].email == email && passwordMatches(old(db.users)[id], password)
    ensures out.Success? ==>
              var (id, u) := out.data;
              && out.code == OK
              && id in old(db.users) && old(db.users)[id].email == email
              && u == old(db.users)[id].(lastLogin := Some(now))
              && db.users == old(db.users)[id := u]
  {
    if !EmailTaken(db.users, email) {
      return Failure(UNAUTHORIZED, LoginFailedMsg);
    }
    var id :| id in db.users && db.users[id].email == email;
    var user := db.users[id];
    if !passwordMatches(user, password) {
      return Failure(UNAUTHORIZED, LoginFailedMsg);
    }
    user := user.(lastLogin := Some(now));
    db.PutUser(id, user);
    return Success(OK, (id, user));
  }

  method GetProfile(db: Database, rq: Requester) returns (out: Outcome<(Id, User)>)
    ensures rq.id !in db.users ==> out == Failure(NOT_FOUND, UserNotFoundMsg)
    ensures rq.id in db.users ==> out == Success(OK, (rq.id, db.users[rq.id]))
  {
    if rq.id !in db.users {
      return Failure(NOT_FOUND, UserNotFoundMsg);
    }
    return Success(OK, (rq.id, db.users[rq.id]));
  }

  const AllowedProfileUpdates: set<string> := {"firstName", "lastName", "phoneNumber", "password"}

  /** Every key of the body is one a user may change; so never the email or the role. */
  predicate ValidProfileOperation(body: map<string, string>)
    ensures ValidProfileOperation(body) <==> body.Keys <= AllowedProfileUpdates
    ensures ValidProfileOperation(body) ==> "email" !in body && "role" !in body && "lastLogin" !in body
  {
    forall k | k in body :: k in AllowedProfileUpdates
  }

  /** The user with exactly the body's paths written; email, role and last
      login are never among them. */
  function UpdatedUser(u: User, body: map<string, string>): (r: User)
    ensures r.firstName == (if "firstName" in body then body["firstName"] else u.firstName)
    ensures r.lastName == (if "lastName" in body then body["lastName"] else u.lastName)
    ensures r.phoneNumber == (if "phoneNumber" in body then body["phoneNumber"] else u.phoneNumber)
    ensures r.password == (if "password" in body then body["password"] else u.password)
    ensures r.email == u.email && r.role == u.role && r.lastLogin == u.lastLogin
  {
    u.(firstName := if "firstName" in body then body["firstName"] else u.firstName,
       lastName := if "lastName" in body then body["lastName"] else u.lastName,
       phoneNumber := if "phoneNumber" in body then body["phoneNumber"] else u.phoneNumber,
       password := if "password" in body then body["password"] else u.password)
  }

  /** `updates.forEach(update => user[update] = req.body[update])`. */
  method AssignProfilePaths(u: User, body: map<string, string>) returns (r: User)
    requires ValidProfileOperation(body)
    ensures r == UpdatedUser(u, body)
  {
    r := u;
    var todo := body.Keys;
    while todo != {}
      invariant todo <= body.Keys
      invariant r == UpdatedUser(u, body - todo)
      decreases todo
    {
      var k :| k in todo;
      if k == "firstName" {
        r := r.(firstName := body[k]);
      } else if k == "lastName" {
        r := r.(lastName := body[k]);
      } else if k == "phoneNumber" {
        r := r.(phoneNumber := body[k]);
      } else {
        assert k == "password";
        r := r.(password := body[k]);
      }
      todo := todo - {k};
    }
    assert body - {} == body;
  }

  method UpdateProfile(db: Database, rq: Requester, body: map<string, string>) returns (out: Outcome<(Id, User)>)
    requires db.Valid()
    modifies db`users
    ensures db.Valid()
    ensures !ValidProfileOperation(body) ==> out == Failure(BAD_REQUEST, InvalidUpdatesMsg)
    ensures ValidProfileOperation(body) && rq.id !in old(db.users) ==> out == Failure(NOT_FOUND, UserNotFoundMsg)
    ensures out.Failure? ==> db.users == old(db.users)
    ensures out.Success? <==> ValidProfileOperation(body) && rq.id in old(db.users)
    ensures out.Success? ==>
              && out == Success(OK, (rq.id, UpdatedUser(old(db.users)[rq.id], body)))
              && db.users == old(db.users)[rq.id := UpdatedUser(old(db.users)[rq.id], body)]
  {
    if !ValidProfileOperation(body) {
      return Failure(BAD_REQUEST, InvalidUpdatesMsg);
    }
    if rq.id !in db.users {
      return Failure(NOT_FOUND, UserNotFoundMsg);
    }
    var user := AssignProfilePaths(db.users[rq.id], body);
    db.PutUser(rq.id, user);
    return Success(OK, (rq.id, user));
  }
}
