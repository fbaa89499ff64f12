/** The local account store: a list of users with password hashes.  In
    this service `LoginAsync` creates the account and `RegisterAsync`
    checks the credentials, the other way round from what their names
    say; the model keeps the names and the behaviour.  The hash function
    (SHA-256 written in lower-case hexadecimal) is a parameter of the
    service, and the users file is not part of this model. */
module LocalAuth {
  import opened Text

  /** `User`. */
  datatype User = User(username: string, passwordHash: string)

  /** `FirstOrDefault` by user name, compared ignoring case: the position
      of the first account with that name. */
  function FindUser(users: seq<User>, username: string): (r: Option<nat>)
    ensures r.Some? ==> r.value < |users| && EqualsIgnoreCase(users[r.value].username, username)
    ensures r.Some? ==> forall j :: 0 <= j < r.value ==> !EqualsIgnoreCase(users[j].username, username)
    ensures r.Null? <==> !UsernameTaken(users, username)
  {
    if users == [] then Null
    else if EqualsIgnoreCase(users[0].username, username) then Some(0)
    else match FindUser(users[1..], username)
      case Null =>
        assert forall u :: u in users ==> u == users[0] || u in users[1..];
        Null
      case Some(i) => Some(i + 1)
  }

  /** `Any` by user name, compared ignoring case. */
  predicate UsernameTaken(users: seq<User>, username: string)
  {
    exists u :: u in users && EqualsIgnoreCase(u.username, username)
  }

  /** No two accounts whose names differ only in case. */
  predicate UniqueUsernames(users: seq<User>)
  {
    forall i, j :: 0 <= i < j < |users| ==> !EqualsIgnoreCase(users[i].username, users[j].username)
  }

  /** `VerifyPassword`: the hash of the password given equals the hash
      stored. */
  function VerifyPassword(hash: string -> string, providedPassword: string, storedHash: string): (ok: bool)
  {
    hash(providedPassword) == storedHash
  }

  /** What `LoginAsync` answers and the user list after it: a name already
      taken is refused, otherwise the account is appended with the hash of
      its password. */
  function Created(users: seq<User>, username: string, passwordHash: string): (bool, seq<User>)
  {
    if UsernameTaken(users, username) then (false, users)
    else (true, users + [User(username, passwordHash)])
  }

  /** What `RegisterAsync` answers: the first account with the name must
      exist and its stored hash must verify the password. */
  function Authenticated(users: seq<User>, hash: string -> string, username: string, password: string): (ok: bool)
    ensures ok <==> (UsernameTaken(users, username)
      && VerifyPassword(hash, password, users[FindUser(users, username).value].passwordHash))
  {
    match FindUser(users, username)
    case Null => false
    case Some(i) => VerifyPassword(hash, password, users[i].passwordHash)
  }

  class LocalAuthService {
    /** `HashPassword`. */
    const hashPassword: string -> string
    /** `_users`. */
    var users: seq<User>

    /** The service starts from the accounts loaded from its users file (an
        empty list when the file is missing or unreadable). */
    constructor (hash: string -> string, loaded: seq<User>)
      ensures hashPassword == hash && users == loaded
    {
      hashPassword := hash;
      users := loaded;
    }

    /** `LoginAsync`, which creates an account. */
    method Login(username: string, password: string) returns (created: bool)
      modifies this
      ensures (created, users) == Created(old(users), username, hashPassword(password))
    {
      var i := 0;
      while i < |users|
        invariant 0 <= i <= |users|
        invariant forall j :: 0 <= j < i ==> !EqualsIgnoreCase(users[j].username, username)
      {
        if EqualsIgnoreCase(users[i].username, username) {
          return false;
        }
        i := i + 1;
      }
      users := users + [User(username, hashPassword(password))];
      return true;
    }

    /** `RegisterAsync`, which checks a user name and password. */
    method Register(username: string, password: string) returns (ok: bool)
      ensures ok == Authenticated(users, hashPassword, username, password)
    {
      var i := 0;
      while i < |users|
        invariant 0 <= i <= |users|
        invariant forall j :: 0 <= j < i ==> !EqualsIgnoreCase(users[j].username, username)
      {
        if EqualsIgnoreCase(users[i].username, username) {
          FirstUserFound(users, username, i);
          return VerifyPassword(hashPassword, password, users[i].passwordHash);
        }
        i := i + 1;
      }
      return false;
    }
  }

  /** The lookup returns the account at the first position whose name
      matches. */
  lemma FirstUserFound(users: seq<User>, username: string, i: nat)
    requires i < |users| && EqualsIgnoreCase(users[i].username, username)
    requires forall j :: 0 <= j < i ==> !EqualsIgnoreCase(users[j].username, username)
    ensures FindUser(users, username) == Some(i)
  {
  }

  // -----------------------------------------------------------------------
  // Properties of the store

  /** A password always verifies against its own hash. */
  lemma VerifyPasswordAcceptsOwnHash(hash: string -> string, password: string)
    ensures VerifyPassword(hash, password, hash(password))
  {
  }

  /** Creating accounts keeps user names unique. */
  lemma CreatedKeepsUnique(users: seq<User>, username: string, passwordHash: string)
    requires UniqueUsernames(users)
    ensures UniqueUsernames(Created(users, username, passwordHash).1)
  {
    var (ok, r) := Created(users, username, passwordHash);
    if ok {
      forall i, j | 0 <= i < j < |r| ensures !EqualsIgnoreCase(r[i].username, r[j].username) {
        if j == |users| {
          assert r[i] in users;
          EqualsIgnoreCaseIsEquivalence(r[i].username, username, username);
        }
      }
    }
  }

  /** A name is taken once and for all: a second account under it, in any
      case spelling, is refused and changes nothing. */
  lemma CreatedTwiceIsRefused(users: seq<User>, username: string, passwordHash: string,
                              again: string, otherHash: string)
    requires EqualsIgnoreCase(again, username)
    ensures var r := Created(users, username, passwordHash).1;
      Created(r, again, otherHash) == (false, r)
  {
    var r := Created(users, username, passwordHash).1;
    if !UsernameTaken(users, username) {
      assert r[|users|] == User(username, passwordHash);
      EqualsIgnoreCaseIsEquivalence(username, again, again);
    } else {
      var u :| u in users && EqualsIgnoreCase(u.username, username);
      EqualsIgnoreCaseIsEquivalence(u.username, username, again);
    }
  }

  /** An account just created accepts its password, under the same name
      in any case spelling. */
  lemma CreatedThenAuthenticated(users: seq<User>, hash: string -> string, username: string,
                                 password: string, asked: string)
    requires EqualsIgnoreCase(asked, username)
    ensures var (ok, r) := Created(users, username, hash(password));
      ok ==> Authenticated(r, hash, asked, password)
  {
    var (ok, r) := Created(users, username, hash(password));
    if ok {
      forall j | 0 <= j < |users| ensures !EqualsIgnoreCase(r[j].username, asked) {
        assert r[j] in users;
        EqualsIgnoreCaseIsEquivalence(r[j].username, asked, username);
      }
      EqualsIgnoreCaseIsEquivalence(username, asked, asked);
      FirstUserFound(r, asked, |users|);
    }
  }

  /** Creating an account does not change how any other name
      authenticates. */
  lemma CreatedKeepsOtherAccounts(users: seq<User>, hash: string -> string, username: string,
                                  passwordHash: string, other: string, password: string)
    requires !EqualsIgnoreCase(other, username)
    ensures var r := Created(users, username, passwordHash).1;
      Authenticated(r, hash, other, password) == Authenticated(users, hash, other, password)
  {
    var (ok, r) := Created(users, username, passwordHash);
    if ok {
      EqualsIgnoreCaseIsEquivalence(other, username, other);
      if UsernameTaken(users, other) {
        var i := FindUser(users, other).value;
        FirstUserFound(r, other, i);
      } else {
        assert !UsernameTaken(r, other) by {
          forall v | v in r ensures !EqualsIgnoreCase(v.username, other) {
            if v !in users {
              assert v == User(username, passwordHash);
            }
          }
        }
      }
    }
  }
}
