/** The in-memory user table (`users` in server/index.js) and the two lookups the
    routes perform on it. The table is fixed at start-up and never changes. */
module CredentialStore {
  import opened Wrappers
  import opened JsSemantics

  /** A bcrypt hash string; its contents are opaque to this model. */
  type Hash = string

  datatype User = User(
    id: int,
    username: string,
    passwordHash: Hash,
    role: string,
    mfaEnabled: bool,
    mfaSecret: string)

  /** The two seed users. Their hashes come from hashing 'admin123' and 'doctor123'
      with a random salt at start-up, so they enter the model as parameters. */
  function SeedUsers(adminHash: Hash, doctorHash: Hash): (users: seq<User>)
    ensures |users| == 2
    ensures forall i :: 0 <= i < |users| ==> users[i].mfaEnabled
    ensures users[0].id != users[1].id && users[0].username != users[1].username
  {
    [ User(1, "admin", adminHash, "ADMIN", true, "123456"),
      User(2, "doctor1", doctorHash, "DOCTOR", true, "654321") ]
  }

  /** `u.username === username` */
  predicate NameMatches(username: Value, u: User)
  {
    username == Str(u.username)
  }

  /** `u.id === temp_user_id` */
  predicate IdMatches(id: Value, u: User)
  {
    id == Num(u.id)
  }

  /** `users.find((u) => u.username === username)` */
  function FindByUsername(users: seq<User>, username: Value): (r: Option<User>)
    ensures r.None? <==> forall i :: 0 <= i < |users| ==> !NameMatches(username, users[i])
    ensures r.Some? ==> r.value in users && username == Str(r.value.username)
  {
    Find(users, (u: User) => NameMatches(username, u))
  }

  /** `users.find((u) => u.id === temp_user_id)` */
  function FindById(users: seq<User>, id: Value): (r: Option<User>)
    ensures r.None? <==> forall i :: 0 <= i < |users| ==> !IdMatches(id, users[i])
    ensures r.Some? ==> r.value in users && id == Num(r.value.id)
  {
    Find(users, (u: User) => IdMatches(id, u))
  }

  /** When several users share a username, the one earliest in the table is found. */
  lemma FindByUsernameFirst(users: seq<User>, username: Value, i: nat)
    requires i < |users| && NameMatches(username, users[i])
    requires forall j :: 0 <= j < i ==> !NameMatches(username, users[j])
    ensures FindByUsername(users, username) == Some(users[i])
  {
  }

  /** When several users share an id, the one earliest in the table is found. */
  lemma FindByIdFirst(users: seq<User>, id: Value, i: nat)
    requires i < |users| && IdMatches(id, users[i])
    requires forall j :: 0 <= j < i ==> !IdMatches(id, users[j])
    ensures FindById(users, id) == Some(users[i])
  {
  }

  /** On the seed table, lookups by name succeed exactly for the strings
      'admin' and 'doctor1', and lookups by id exactly for the numbers 1 and 2. */
  lemma SeedLookups(adminHash: Hash, doctorHash: Hash, v: Value)
    ensures var users := SeedUsers(adminHash, doctorHash);
      && (FindByUsername(users, v) == if v == Str("admin") then Some(users[0])
                                      else if v == Str("doctor1") then Some(users[1])
                                      else None)
      && (FindById(users, v) == if v == Num(1) then Some(users[0])
                                else if v == Num(2) then Some(users[1])
                                else None)
  {
  }
}
