/** The refresh-token store of the JWT service: a list of
    (user, token, expiry) entries that saving, validating and removing a
    token update in place.  Time is a parameter `now`, counted in ticks of
    100 ns like `DateTime.Ticks`; the store file and the JWT signing are
    not part of this model. */
module RefreshTokens {
  import opened Text
  import Calendar

  /** `UserRefreshToken`. */
  datatype UserRefreshToken = UserRefreshToken(username: string, token: string, expiryDate: int)

  /** The lookup predicate of validation and removal: the user name compared
      ignoring case, the token compared ordinally. */
  predicate Matches(e: UserRefreshToken, username: string, token: string)
  {
    EqualsIgnoreCase(e.username, username) && e.token == token
  }

  predicate OwnedBy(e: UserRefreshToken, username: string)
  {
    EqualsIgnoreCase(e.username, username)
  }

  /** `RemoveAll` on the entries of `username`: the other entries in their
      order. */
  function WithoutUser(tokens: seq<UserRefreshToken>, username: string): (r: seq<UserRefreshToken>)
    ensures |r| <= |tokens|
    ensures forall e :: e in r <==> e in tokens && !OwnedBy(e, username)
  {
    if tokens == [] then []
    else
      var last := tokens[|tokens| - 1];
      WithoutUser(tokens[..|tokens| - 1], username) + (if OwnedBy(last, username) then [] else [last])
  }

  /** The entries of `username`, in their order. */
  function OfUser(tokens: seq<UserRefreshToken>, username: string): (r: seq<UserRefreshToken>)
    ensures forall e :: e in r <==> e in tokens && OwnedBy(e, username)
  {
    if tokens == [] then []
    else
      var last := tokens[|tokens| - 1];
      OfUser(tokens[..|tokens| - 1], username) + (if OwnedBy(last, username) then [last] else [])
  }

  /** `FirstOrDefault`: the position of the first matching entry. */
  function FindToken(tokens: seq<UserRefreshToken>, username: string, token: string): (r: Option<nat>)
    ensures r.Some? ==> r.value < |tokens| && Matches(tokens[r.value], username, token)
    ensures r.Some? ==> forall j :: 0 <= j < r.value ==> !Matches(tokens[j], username, token)
    ensures r.Null? <==> forall j :: 0 <= j < |tokens| ==> !Matches(tokens[j], username, token)
  {
    if tokens == [] then Null
    else if Matches(tokens[0], username, token) then Some(0)
    else match FindToken(tokens[1..], username, token)
      case Null => Null
      case Some(i) => Some(i + 1)
  }

  function RemoveAt<T>(s: seq<T>, i: nat): (r: seq<T>)
    requires i < |s|
    ensures |r| == |s| - 1
    ensures forall k :: 0 <= k < i ==> r[k] == s[k]
    ensures forall k :: i <= k < |r| ==> r[k] == s[k + 1]
  {
    s[..i] + s[i + 1..]
  }

  /** At most one entry per user, user names compared ignoring case: what
      saving through the service keeps, though a hand-edited store file
      may break it. */
  predicate OnePerUser(tokens: seq<UserRefreshToken>)
  {
    forall i, j :: 0 <= i < j < |tokens| ==> !EqualsIgnoreCase(tokens[i].username, tokens[j].username)
  }

  /** The store after `SaveRefreshTokenAsync`: every entry of the user
      dropped, then the new entry appended. */
  function Saved(tokens: seq<UserRefreshToken>, username: string, token: string, expiry: int): seq<UserRefreshToken>
  {
    WithoutUser(tokens, username) + [UserRefreshToken(username, token, expiry)]
  }

  /** The answer of `ValidateRefreshTokenAsync` and the store after it: an
      unknown token is refused, an expired one refused and dropped. */
  function Validated(tokens: seq<UserRefreshToken>, username: string, token: string, now: int)
    : (bool, seq<UserRefreshToken>)
  {
    match FindToken(tokens, username, token)
    case Null => (false, tokens)
    case Some(i) =>
      if tokens[i].expiryDate < now then (false, RemoveAt(tokens, i)) else (true, tokens)
  }

  /** The store after `RemoveRefreshTokenAsync`: the first matching entry
      dropped, if there is one. */
  function Removed(tokens: seq<UserRefreshToken>, username: string, token: string): seq<UserRefreshToken>
  {
    match FindToken(tokens, username, token)
    case Null => tokens
    case Some(i) => RemoveAt(tokens, i)
  }

  class JwtService {
    /** `JwtSettings.RefreshTokenExpirationDays`. */
    const refreshTokenExpirationDays: int
    /** `_refreshTokens`. */
    var refreshTokens: seq<UserRefreshToken>

    /** The service starts from the entries loaded from its store file (an
        empty list when the file is missing or unreadable). */
    constructor (expirationDays: int, loaded: seq<UserRefreshToken>)
      ensures refreshTokenExpirationDays == expirationDays && refreshTokens == loaded
    {
      refreshTokenExpirationDays := expirationDays;
      refreshTokens := loaded;
    }

    /** The position of the first entry matching `username` and `token`. */
    method FirstMatch(username: string, token: string) returns (index: Option<nat>)
      ensures index == FindToken(refreshTokens, username, token)
    {
      var i := 0;
      while i < |refreshTokens|
        invariant 0 <= i <= |refreshTokens|
        invariant forall j :: 0 <= j < i ==> !Matches(refreshTokens[j], username, token)
      {
        if Matches(refreshTokens[i], username, token) {
          return Some(i);
        }
        i := i + 1;
      }
      return Null;
    }

    /** `SaveRefreshTokenAsync`, at time `now`. */
    method SaveRefreshToken(username: string, refreshToken: string, now: int)
      modifies this
      ensures refreshTokens == Saved(old(refreshTokens), username, refreshToken,
        now + refreshTokenExpirationDays * Calendar.TicksPerDay)
    {
      var kept := [];
      var i := 0;
      while i < |refreshTokens|
        invariant 0 <= i <= |refreshTokens|
        invariant kept == WithoutUser(refreshTokens[..i], username)
      {
        assert refreshTokens[..i + 1][..i] == refreshTokens[..i];
        if !OwnedBy(refreshTokens[i], username) {
          kept := kept + [refreshTokens[i]];
        }
        i := i + 1;
      }
      assert refreshTokens[..i] == refreshTokens;
      refreshTokens := kept + [UserRefreshToken(username, refreshToken, now + refreshTokenExpirationDays * Calendar.TicksPerDay)];
    }

    /** `ValidateRefreshTokenAsync`, at time `now`. */
    method ValidateRefreshToken(username: string, refreshToken: string, now: int) returns (valid: bool)
      modifies this
      ensures (valid, refreshTokens) == Validated(old(refreshTokens), username, refreshToken, now)
    {
      var found := FirstMatch(username, refreshToken);
      match found
      case Null =>
        return false;
      case Some(i) =>
        if refreshTokens[i].expiryDate < now {
          refreshTokens := refreshTokens[..i] + refreshTokens[i + 1..];
          return false;
        }
        return true;
    }

    /** `RemoveRefreshTokenAsync`. */
    method RemoveRefreshToken(username: string, refreshToken: string)
      modifies this
      ensures refreshTokens == Removed(old(refreshTokens), username, refreshToken)
    {
      var found := FirstMatch(username, refreshToken);
      if found.Some? {
        var i := found.value;
        refreshTokens := refreshTokens[..i] + refreshTokens[i + 1..];
      }
    }
  }

  // -----------------------------------------------------------------------
  // Properties of the store

  lemma {:induction false} OfUserOfWithout(tokens: seq<UserRefreshToken>, username: string, other: string)
    requires !EqualsIgnoreCase(username, other)
    ensures OfUser(WithoutUser(tokens, username), other) == OfUser(tokens, other)
  {
    if tokens != [] {
      var init, last := tokens[..|tokens| - 1], tokens[|tokens| - 1];
      OfUserOfWithout(init, username, other);
      OfUserAppend(WithoutUser(init, username), if OwnedBy(last, username) then [] else [last], other);
      if OwnedBy(last, username) {
        EqualsIgnoreCaseIsEquivalence(last.username, username, other);
        assert !OwnedBy(last, other);
      }
    }
  }

  lemma {:induction false} OfUserAppend(a: seq<UserRefreshToken>, b: seq<UserRefreshToken>, username: string)
    ensures OfUser(a + b, username) == OfUser(a, username) + OfUser(b, username)
    decreases |b|
  {
    if b == [] {
      assert a + b == a;
    } else {
      var init, last := b[..|b| - 1], b[|b| - 1];
      assert (a + b)[..|a + b| - 1] == a + init;
      OfUserAppend(a, init, username);
    }
  }

  /** Saving leaves exactly one entry for the user, the new one, at the
      end of the list, with an expiry `expirationDays` after `now`. */
  lemma SavedHoldsOneEntryForUser(tokens: seq<UserRefreshToken>, username: string, token: string, expiry: int)
    ensures var r := Saved(tokens, username, token, expiry);
      OfUser(r, username) == [UserRefreshToken(username, token, expiry)]
  {
    var w := WithoutUser(tokens, username);
    var e := UserRefreshToken(username, token, expiry);
    OfUserAppend(w, [e], username);
    OfUserOfNone(w, username);
    assert [e][..0] == [];
  }

  lemma {:induction false} OfUserOfNone(tokens: seq<UserRefreshToken>, username: string)
    requires forall e :: e in tokens ==> !OwnedBy(e, username)
    ensures OfUser(tokens, username) == []
  {
    if tokens != [] {
      OfUserOfNone(tokens[..|tokens| - 1], username);
    }
  }

  /** Saving for one user leaves the entries of every other user as they
      were. */
  lemma SavedKeepsOtherUsers(tokens: seq<UserRefreshToken>, username: string, token: string, expiry: int, other: string)
    requires !EqualsIgnoreCase(username, other)
    ensures OfUser(Saved(tokens, username, token, expiry), other) == OfUser(tokens, other)
  {
    var e := UserRefreshToken(username, token, expiry);
    OfUserOfWithout(tokens, username, other);
    OfUserAppend(WithoutUser(tokens, username), [e], other);
    EqualsIgnoreCaseIsEquivalence(username, other, username);
    assert OfUser([e], other) == [] by {
      assert [e][..0] == [];
    }
  }

  /** Saving keeps the store at one entry per user. */
  lemma SavedKeepsOnePerUser(tokens: seq<UserRefreshToken>, username: string, token: string, expiry: int)
    requires OnePerUser(tokens)
    ensures OnePerUser(Saved(tokens, username, token, expiry))
  {
    var w := WithoutUser(tokens, username);
    var r := Saved(tokens, username, token, expiry);
    WithoutUserKeepsOnePerUser(tokens, username);
    forall i, j | 0 <= i < j < |r| ensures !EqualsIgnoreCase(r[i].username, r[j].username) {
      if j == |r| - 1 {
        assert r[i] in w;
        EqualsIgnoreCaseIsEquivalence(r[i].username, username, username);
      } else {
        assert r[i] == w[i] && r[j] == w[j];
      }
    }
  }

  /** Dropping the entries of one user keeps one entry per user. */
  lemma {:induction false} WithoutUserKeepsOnePerUser(tokens: seq<UserRefreshToken>, username: string)
    requires OnePerUser(tokens)
    ensures OnePerUser(WithoutUser(tokens, username))
  {
    if tokens != [] {
      var init, last := tokens[..|tokens| - 1], tokens[|tokens| - 1];
      WithoutUserKeepsOnePerUser(init, username);
      var w := WithoutUser(init, username);
      forall e | e in w ensures !EqualsIgnoreCase(e.username, last.username) {
        var k :| 0 <= k < |init| && init[k] == e;
        assert tokens[k] == e;
      }
    }
  }

  /** A token just saved validates for the same user, in any case
      spelling, until it expires. */
  lemma SaveThenValidate(tokens: seq<UserRefreshToken>, username: string, token: string, expiry: int,
                         asked: string, now: int)
    requires EqualsIgnoreCase(asked, username) && now <= expiry
    ensures Validated(Saved(tokens, username, token, expiry), asked, token, now) == (true, Saved(tokens, username, token, expiry))
  {
    var r := Saved(tokens, username, token, expiry);
    var w := WithoutUser(tokens, username);
    forall j | 0 <= j < |w| ensures !Matches(r[j], asked, token) {
      assert r[j] == w[j] && w[j] in w;
      EqualsIgnoreCaseIsEquivalence(w[j].username, asked, username);
    }
    EqualsIgnoreCaseIsEquivalence(username, asked, asked);
    assert Matches(r[|w|], asked, token);
  }

  /** A token that no entry holds for the user is refused, and neither
      validation nor removal changes the store. */
  lemma UnknownTokenIsRefused(tokens: seq<UserRefreshToken>, username: string, token: string, now: int)
    requires forall e :: e in tokens ==> !Matches(e, username, token)
    ensures Validated(tokens, username, token, now) == (false, tokens)
    ensures Removed(tokens, username, token) == tokens
  {
    assert forall j :: 0 <= j < |tokens| ==> tokens[j] in tokens;
  }

  /** The first entry matching the user and the token decides: while it
      has not expired the token is accepted and the store kept as is. */
  lemma LiveTokenIsAccepted(tokens: seq<UserRefreshToken>, username: string, token: string, now: int, i: nat)
    requires i < |tokens| && Matches(tokens[i], username, token) && now <= tokens[i].expiryDate
    requires forall j :: 0 <= j < i ==> !Matches(tokens[j], username, token)
    ensures Validated(tokens, username, token, now) == (true, tokens)
  {
  }

  /** After its expiry the token is refused and exactly its entry is
      dropped from the store, as removal would drop it. */
  lemma ExpiredTokenIsDropped(tokens: seq<UserRefreshToken>, username: string, token: string, now: int)
    requires FindToken(tokens, username, token).Some?
    requires tokens[FindToken(tokens, username, token).value].expiryDate < now
    ensures var i := FindToken(tokens, username, token).value;
      var (ok, rest) := Validated(tokens, username, token, now);
      !ok && rest == tokens[..i] + tokens[i + 1..] && rest == Removed(tokens, username, token)
  {
    var i := FindToken(tokens, username, token).value;
    assert RemoveAt(tokens, i) == tokens[..i] + tokens[i + 1..];
  }

  /** Validation keeps at most one entry per user. */
  lemma ValidatedKeepsOnePerUser(tokens: seq<UserRefreshToken>, username: string, token: string, now: int)
    requires OnePerUser(tokens)
    ensures OnePerUser(Validated(tokens, username, token, now).1)
  {
    if FindToken(tokens, username, token).Some? {
      RemovedKeepsOnePerUser(tokens, username, token);
    }
  }

  /** Removal keeps at most one entry per user. */
  lemma RemovedKeepsOnePerUser(tokens: seq<UserRefreshToken>, username: string, token: string)
    requires OnePerUser(tokens)
    ensures OnePerUser(Removed(tokens, username, token))
  {
    var r := Removed(tokens, username, token);
    if FindToken(tokens, username, token).Some? {
      var i := FindToken(tokens, username, token).value;
      forall a, b | 0 <= a < b < |r| ensures !EqualsIgnoreCase(r[a].username, r[b].username) {
        var a', b' := if a < i then a else a + 1, if b < i then b else b + 1;
        assert r[a] == tokens[a'] && r[b] == tokens[b'];
      }
    }
  }

  /** With one entry per user a removed token is gone: it no longer
      validates, and removing it again changes nothing. */
  lemma RemoveIsFinal(tokens: seq<UserRefreshToken>, username: string, token: string, now: int)
    requires OnePerUser(tokens)
    ensures var r := Removed(tokens, username, token);
      FindToken(r, username, token).Null? && Validated(r, username, token, now) == (false, r)
      && Removed(r, username, token) == r
  {
    var r := Removed(tokens, username, token);
    if FindToken(tokens, username, token).Some? {
      var i := FindToken(tokens, username, token).value;
      forall j | 0 <= j < |r| ensures !Matches(r[j], username, token) {
        var j' := if j < i then j else j + 1;
        assert r[j] == tokens[j'];
        if Matches(tokens[j'], username, token) {
          EqualsIgnoreCaseIsEquivalence(tokens[j'].username, username, tokens[i].username);
          assert false;
        }
      }
    }
  }
}
