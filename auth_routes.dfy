/** The account routes of routes/authRoutes.js: register, login, approve and
    password update, over an in-memory user table that shares the
    Notification collection with the other routes. `hash` stands for the
    password hash function; a password verifies when it hashes to the stored
    value. */
module AuthRoutes {
  import opened Base
  import opened NotificationStore
  import opened UserModel

  /** The answer of POST /login: a status, and the user's profile on success. */
  datatype LoginReply = LoginReply(status: int, user: Option<User>)

  /** POST /login. The user is looked up first (400 when unknown), approval
      is checked next (403 whatever the password), and only then the password
      (400 when it does not verify). */
  function Login(users: seq<User>, hash: string -> string, email: string, password: string): (r: LoginReply)
    ensures r.status == Ok || r.status == BadRequest || r.status == Forbidden
    ensures FindByEmail(users, email).None? ==> r.status == BadRequest
    ensures r.status == Forbidden <==>
              FindByEmail(users, email).Some? && !users[FindByEmail(users, email).value].approved
    ensures r.status == Ok <==>
              && FindByEmail(users, email).Some?
              && users[FindByEmail(users, email).value].approved
              && hash(password) == users[FindByEmail(users, email).value].password
    ensures r.status == Ok ==> r.user == Some(users[FindByEmail(users, email).value])
    ensures r.status != Ok ==> r.user.None?
  {
    match FindByEmail(users, email)
    case None => LoginReply(BadRequest, None)
    case Some(i) =>
      if !users[i].approved then LoginReply(Forbidden, None)
      else if hash(password) != users[i].password then LoginReply(BadRequest, None)
      else LoginReply(Ok, Some(users[i]))
  }

  /** On a table with unique emails, login succeeds exactly for a stored,
      approved user whose password verifies, and is refused with 403 for an
      unapproved user whatever password is given. */
  lemma LoginMeaning(users: seq<User>, hash: string -> string, email: string, password: string)
    requires EmailsUnique(users)
    ensures Login(users, hash, email, password).status == Ok <==>
              exists i :: 0 <= i < |users| && users[i].email == email && users[i].approved
                          && users[i].password == hash(password)
    ensures Login(users, hash, email, password).status == Forbidden <==>
              exists i :: 0 <= i < |users| && users[i].email == email && !users[i].approved
  {
  }

  /** A user who has just registered cannot log in, whatever the password,
      until approved. */
  lemma NewcomerAwaitsApproval(users: seq<User>, hash: string -> string, id: Id, name: string,
                               email: string, password: string, attempt: string)
    requires EmailsUnique(users) && FindByEmail(users, email).None?
    ensures Login(users + [NewUser(id, name, email, hash(password))], hash, email, attempt).status == Forbidden
  {
    AddNewEmail(users, NewUser(id, name, email, hash(password)));
  }

  /** Once approved, a user logs in with the password that was registered. */
  lemma ApprovedUserLogsIn(users: seq<User>, hash: string -> string, i: nat, password: string)
    requires EmailsUnique(users) && i < |users| && users[i].password == hash(password)
    ensures Login(users[i := users[i].(approved := true)], hash, users[i].email, password).status == Ok
  {
    var after := users[i := users[i].(approved := true)];
    assert EmailsUnique(after) by {
      forall a, b | 0 <= a < b < |after| ensures after[a].email != after[b].email {
        assert after[a].email == users[a].email && after[b].email == users[b].email;
      }
    }
    FindByEmailUnique(after, i);
  }

  /** The message of the "profile" notification; it repeats the plaintext
      password, as the route writes it. */
  function ProfileMessage(password: string): (r: string)
    ensures |password| <= |r| && r[|r| - |password|..] == password
  {
    "Your profile has been updated.with the password" + password
  }

  /** The User collection together with the Notification collection it writes to. */
  class UserService {
    var users: seq<User>
    const log: NotificationLog
    const hash: string -> string

    ghost predicate Valid()
      reads this
    {
      EmailsUnique(users) && IdsUnique(users) && RolesValid(users)
    }

    constructor (log: NotificationLog, hash: string -> string)
      ensures Valid() && users == []
      ensures this.log == log && this.hash == hash
    {
      users := [];
      this.log := log;
      this.hash := hash;
    }

    /** POST /register. 400 and no change when the email is taken; otherwise
        201 and one new unapproved user storing the hash of the password.
        `newId` is the fresh identifier the store assigns. */
    method Register(newId: Id, name: string, email: string, password: string) returns (status: int)
      requires Valid()
      requires forall k :: 0 <= k < |users| ==> users[k].id != newId
      modifies this
      ensures Valid()
      ensures FindByEmail(old(users), email).Some? ==> status == BadRequest && users == old(users)
      ensures FindByEmail(old(users), email).None? ==>
                status == Created && users == old(users) + [NewUser(newId, name, email, hash(password))]
    {
      var existing := FindByEmail(users, email);
      if existing.Some? {
        return BadRequest;
      }
      var user := NewUser(newId, name, email, hash(password));
      AddNewEmail(users, user);
      users := users + [user];
      return Created;
    }

    /** PUT /users/approve. 400 for a missing email, 404 for an unknown one,
        400 for a user already approved; otherwise that user alone becomes
        approved. No notification is recorded in any case. */
    method Approve(email: Option<string>) returns (status: int)
      requires Valid()
      modifies this
      ensures Valid()
      ensures !Given(email) ==> status == BadRequest && users == old(users)
      ensures Given(email) && FindByEmail(old(users), email.value).None? ==>
                status == NotFound && users == old(users)
      ensures Given(email) && FindByEmail(old(users), email.value).Some? ==>
                var i := FindByEmail(old(users), email.value).value;
                if old(users)[i].approved then status == BadRequest && users == old(users)
                else status == Ok && users == old(users)[i := old(users)[i].(approved := true)]
    {
      if !Given(email) {
        return BadRequest;
      }
      var found := FindByEmail(users, email.value);
      if found.None? {
        return NotFound;
      }
      var i := found.value;
      if users[i].approved {
        return BadRequest;
      }
      users := users[i := users[i].(approved := true)];
      return Ok;
    }

    /** PUT /:email. The new password is hashed before the lookup, so a body
        without one fails with 500 and changes nothing, whatever the email.
        Otherwise 404 and no change for an unknown email; else the stored
        password of that user alone becomes the hash of the new one, and one
        "profile" notification goes to that user. */
    method UpdatePassword(email: string, password: Option<string>, now: int) returns (status: int)
      requires Valid()
      modifies this, log
      ensures Valid()
      ensures password.None? ==>
                status == ServerError && users == old(users) && log.records == old(log.records)
      ensures password.Some? && FindByEmail(old(users), email).None? ==>
                status == NotFound && users == old(users) && log.records == old(log.records)
      ensures password.Some? && FindByEmail(old(users), email).Some? ==>
                var i := FindByEmail(old(users), email).value;
                && status == Ok
                && users == old(users)[i := old(users)[i].(password := hash(password.value))]
                && log.records == old(log.records)
                                  + [Notification(old(users)[i].id, ProfileMessage(password.value), "profile", now)]
    {
      if password.None? {
        return ServerError;
      }
      var hashed := hash(password.value);
      var found := FindByEmail(users, email);
      if found.None? {
        return NotFound;
      }
      var i := found.value;
      users := users[i := users[i].(password := hashed)];
      var note := Notification(users[i].id, ProfileMessage(password.value), "profile", now);
      log.Create(note.userId, note.message, note.kind, note.date);
      return Ok;
    }
  }

  /** Approving the same user twice: the first call approves, the second is
      refused and changes nothing. */
  method ApproveTwice(svc: UserService, email: string) returns (first: int, second: int)
    requires svc.Valid() && email != "" && FindByEmail(svc.users, email).Some?
    requires !svc.users[FindByEmail(svc.users, email).value].approved
    modifies svc
    ensures svc.Valid()
    ensures first == Ok && second == BadRequest
  {
    ghost var i := FindByEmail(svc.users, email).value;
    first := svc.Approve(Some(email));
    FindByEmailUnique(svc.users, i);
    second := svc.Approve(Some(email));
  }
}
