/** The User schema (models/User.js): the `approved` and `role` defaults, the
    role enumeration and the unique email index, over a user table kept as a
    sequence in insertion order. */
module UserModel {
  import opened Base

  /** A stored user; `password` holds the hash, never the plaintext. */
  datatype User = User(id: Id, name: string, email: string, password: string,
                       approved: bool, role: string)

  const DefaultRole: string := "user"

  predicate ValidRole(r: string)
  {
    r == "user" || r == "admin"
  }

  /** A user document as registration creates it: the schema defaults leave
      it unapproved and with the plain "user" role. */
  function NewUser(id: Id, name: string, email: string, passwordHash: string): (u: User)
    ensures !u.approved && u.role == "user" && ValidRole(u.role)
    ensures u.id == id && u.name == name && u.email == email && u.password == passwordHash
  {
    User(id, name, email, passwordHash, false, DefaultRole)
  }

  /** The unique index on `email`: no two stored users share an email. */
  predicate EmailsUnique(users: seq<User>)
  {
    forall i, j :: 0 <= i < j < |users| ==> users[i].email != users[j].email
  }

  /** The store's `_id`: no two stored users share an identifier. */
  predicate IdsUnique(users: seq<User>)
  {
    forall i, j :: 0 <= i < j < |users| ==> users[i].id != users[j].id
  }

  predicate RolesValid(users: seq<User>)
  {
    forall i :: 0 <= i < |users| ==> ValidRole(users[i].role)
  }

  /** `User.findOne({ email })`: the position of the first user with that email. */
  function FindByEmail(users: seq<User>, email: string): (r: Option<nat>)
    ensures r.Some? ==> r.value < |users| && users[r.value].email == email
    ensures r.Some? ==> forall k :: 0 <= k < r.value ==> users[k].email != email
    ensures r.None? <==> forall k :: 0 <= k < |users| ==> users[k].email != email
  {
    if users == [] then None
    else if users[0].email == email then Some(0)
    else match FindByEmail(users[1..], email)
      case None => None
      case Some(i) => Some(i + 1)
  }

  /** With unique emails, the lookup finds the one user that has the email. */
  lemma FindByEmailUnique(users: seq<User>, i: nat)
    requires EmailsUnique(users) && i < |users|
    ensures FindByEmail(users, users[i].email) == Some(i)
  {
  }

  /** Adding a user whose email is not yet taken keeps emails unique, and the
      lookup then finds the new user at the end. */
  lemma AddNewEmail(users: seq<User>, u: User)
    requires EmailsUnique(users) && FindByEmail(users, u.email).None?
    ensures EmailsUnique(users + [u])
    ensures FindByEmail(users + [u], u.email) == Some(|users|)
  {
    var s := users + [u];
    forall i, j | 0 <= i < j < |s| ensures s[i].email != s[j].email {
      assert s[i] == users[i];
      if j < |users| {
        assert s[j] == users[j];
      }
    }
    assert s[|users|] == u;
  }
}
