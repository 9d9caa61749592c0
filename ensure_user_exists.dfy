/**
 * `ensureUserExists`: the lead service keeps a shadow row for every identity
 * that owns a requirement or a lead, and inserts a stub row the first time an
 * identity appears. The insert goes through the module-level connection, so it
 * is committed at once and no caller's transaction can roll it back.
 */
module ShadowUsers {
  import opened Common
  import opened LeadStore

  /** The role given when the caller names none. */
  const DefaultRole: string := "buyer"

  /** The stub inserted for an identity not yet known locally. */
  function Stub(userId: Id, role: string): (u: UserRow)
    ensures u.name == "Unknown User" && u.role == role
    ensures u.email == userId + "@stub.local"
  {
    UserRow("Unknown User", userId + "@stub.local", role)
  }

  /** The users table after `ensureUserExists(userId, role)`. */
  function WithStub(users: map<Id, UserRow>, userId: Id, role: string): (r: map<Id, UserRow>)
    ensures userId != "" ==> userId in r
    ensures forall k :: k in users ==> k in r && r[k] == users[k]
    ensures forall k :: k in r ==> k in users || k == userId
    ensures userId != "" && userId !in users ==> r[userId] == Stub(userId, role)
    ensures userId == "" ==> r == users
  {
    if userId == "" || userId in users then users else users[userId := Stub(userId, role)]
  }

  /** A second call finds the row the first left behind and changes nothing. */
  lemma WithStubIdempotent(users: map<Id, UserRow>, userId: Id, role: string, role': string)
    ensures WithStub(WithStub(users, userId, role), userId, role') == WithStub(users, userId, role)
  {
  }

  /** Adding a users row never breaks a constraint of the other tables. */
  lemma WithStubKeepsValid(s: Store, userId: Id, role: string)
    requires Valid(s)
    ensures Valid(s.(users := WithStub(s.users, userId, role)))
  {
  }

  method EnsureUserExists(db: LeadDb, userId: Id, role: string)
    modifies db`users
    ensures db.users == WithStub(old(db.users), userId, role)
  {
    if userId == "" {
      return;
    }
    var found := userId in db.users;
    if found {
      return;
    }
    db.users := db.users[userId := Stub(userId, role)];
  }
}
