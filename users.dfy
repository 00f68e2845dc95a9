/**
 * The credential store of app/services/user.py: the user table with its two lookups
 * (first match by username, first match by email) and `create_user`. Passwords are hashed
 * by a `Hasher`, which stands for the bcrypt context of app/core/security.py.
 */
module Users {
  import opened Common

  /** A row of the user table; `password` holds the hash, never the plaintext. */
  datatype User = User(id: int, username: string, email: string, password: string)

  /** A password hasher: `hash` and `verify` of passlib's bcrypt context. */
  datatype Hasher = Hasher(hash: string -> string, verify: (string, string) -> bool)

  /** The one property the code relies on: a password verifies against its own hash. */
  ghost predicate SoundHasher(h: Hasher) {
    forall p :: h.verify(p, h.hash(p))
  }

  datatype Column = UsernameColumn | EmailColumn

  function ColumnValue(u: User, c: Column): string {
    match c
    case UsernameColumn => u.username
    case EmailColumn => u.email
  }

  /** The index of the first row, from `from` on, whose column equals `v` (`.where(col == v).first()`). */
  function FirstIndex(users: seq<User>, c: Column, v: string, from: nat): (r: Option<nat>)
    requires from <= |users|
    ensures r.Some? ==> from <= r.value < |users| && ColumnValue(users[r.value], c) == v
    ensures r.Some? ==> forall j :: from <= j < r.value ==> ColumnValue(users[j], c) != v
    ensures r.None? ==> forall j :: from <= j < |users| ==> ColumnValue(users[j], c) != v
    decreases |users| - from
  {
    if from == |users| then None
    else if ColumnValue(users[from], c) == v then Some(from)
    else FirstIndex(users, c, v, from + 1)
  }

  function FindFirst(users: seq<User>, c: Column, v: string): Option<User> {
    match FirstIndex(users, c, v, 0)
    case Some(i) => Some(users[i])
    case None => None
  }

  /** When the search finds nothing, no user at all has that value in the column. */
  lemma FindFirstNone(users: seq<User>, c: Column, v: string)
    ensures FindFirst(users, c, v).None? ==> forall u :: u in users ==> ColumnValue(u, c) != v
  {
    if FindFirst(users, c, v).None? {
      forall u | u in users
        ensures ColumnValue(u, c) != v
      {
        var k :| 0 <= k < |users| && users[k] == u;
      }
    }
  }

  /** `get_user_by_username`: the first user with exactly that username, or None when there is none. */
  function FindByUsername(users: seq<User>, username: string): (r: Option<User>)
    ensures r.None? <==> forall u :: u in users ==> u.username != username
    ensures r.Some? ==> exists i :: 0 <= i < |users| && users[i] == r.value && r.value.username == username
                                      && forall j :: 0 <= j < i ==> users[j].username != username
  {
    FindFirstNone(users, UsernameColumn, username);
    FindFirst(users, UsernameColumn, username)
  }

  /** `get_user_by_email`: the first user with exactly that email, or None when there is none. */
  function FindByEmail(users: seq<User>, email: string): (r: Option<User>)
    ensures r.None? <==> forall u :: u in users ==> u.email != email
    ensures r.Some? ==> exists i :: 0 <= i < |users| && users[i] == r.value && r.value.email == email
                                      && forall j :: 0 <= j < i ==> users[j].email != email
  {
    FindFirstNone(users, EmailColumn, email);
    FindFirst(users, EmailColumn, email)
  }

  /** The user table. Ids are assigned from an auto-increment counter. */
  class UserStore {
    var users: seq<User>
    var nextId: int

    /** Every id is below the counter and no two rows share one. */
    ghost predicate Valid()
      reads this
    {
      && (forall i :: 0 <= i < |users| ==> users[i].id < nextId)
      && (forall i, j :: 0 <= i < j < |users| ==> users[i].id != users[j].id)
    }

    constructor (rows: seq<User>, next: int)
      requires forall i :: 0 <= i < |rows| ==> rows[i].id < next
      requires forall i, j :: 0 <= i < j < |rows| ==> rows[i].id != rows[j].id
      ensures Valid() && users == rows && nextId == next
    {
      users := rows;
      nextId := next;
    }

    /**
     * `create_user`: stores the username, the email and the given hash in the `password`
     * column, and returns the persisted row with its new id. It checks no uniqueness.
     */
    method CreateUser(username: string, email: string, hashedPassword: string) returns (u: User)
      requires Valid()
      modifies this
      ensures Valid()
      ensures u == User(old(nextId), username, email, hashedPassword)
      ensures forall i :: 0 <= i < |old(users)| ==> old(users)[i].id != u.id
      ensures users == old(users) + [u] && nextId == old(nextId) + 1
    {
      u := User(nextId, username, email, hashedPassword);
      users := users + [u];
      nextId := nextId + 1;
    }
  }

  /** Appending a row never changes what a lookup of another username finds. */
  lemma FindByUsernameAfterAppend(users: seq<User>, u: User, name: string)
    requires name != u.username
    ensures FindByUsername(users + [u], name) == FindByUsername(users, name)
  {
    assert forall j :: 0 <= j < |users| ==> (users + [u])[j] == users[j];
  }

  /** Appending a user whose username no row has makes the lookup of that username find it. */
  lemma FindByUsernameAppended(users: seq<User>, u: User)
    requires FindByUsername(users, u.username).None?
    ensures FindByUsername(users + [u], u.username) == Some(u)
  {
    assert forall j :: 0 <= j < |users| ==> (users + [u])[j] == users[j];
    assert forall j :: 0 <= j < |users| ==> users[j] in users;
  }
}
