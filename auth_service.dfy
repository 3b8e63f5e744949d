/** The auth session store (server/src/modules/auth/service.js): registration, login,
    refresh-token rotation and logout over a user collection and the refresh-token records
    of server/models/RefreshToken.js. bcrypt, JWT signing, the signature check of JWT
    verification and the sha256 `hashToken` are foreign: they are the fields of a `Crypto`
    value, and the tokens a signing call would produce and a fresh password hash are given
    to each operation. The expiry check of verification is modelled. `now` is an instant in
    milliseconds, and one operation signs, verifies and stamps records at the same `now`. Users are stored in creation order and a user's
    id is its position. Each state change is specified by a pure function over
    `AuthState`; the methods of `AuthStore` are proved against those functions. */
module AuthService {
  import opened Wrappers
  import opened Models
  import opened Errors
  import Text
  import AuthSchemas

  /** A user record. The user model's own file is not part of this model. */
  datatype User = User(id: UserId, name: string, email: string, passwordHash: string, role: string)

  const UserRole := "user"

  /** The claims a refresh token verifies to: its subject and its expiry in seconds. */
  datatype Claims = Claims(sub: UserId, exp: int)

  /** The foreign functions: `hashToken`, the signature check and decoding of a refresh
      token (`None` when `jwt.verify` throws for a reason other than expiry) and
      `bcrypt.compare` of a password with a stored hash. `hashToken` is deterministic,
      which a mathematical function is. */
  datatype Crypto = Crypto(
    hashToken: string -> string,
    decodeRefresh: string -> Option<Claims>,
    passwordMatches: (string, string) -> bool)

  /** `verifyRefreshToken` at the instant `now` (milliseconds): a token that decodes is
      still refused once the whole seconds of `now` have reached its `exp`, the
      `TokenExpiredError` of `jwt.verify`. */
  function VerifyRefresh(c: Crypto, raw: string, now: int): (r: Option<Claims>)
    ensures r.Some? <==> c.decodeRefresh(raw).Some? && now < c.decodeRefresh(raw).value.exp * 1000
    ensures r.Some? ==> r == c.decodeRefresh(raw)
  {
    var decoded := c.decodeRefresh(raw);
    if decoded.Some? && now / 1000 < decoded.value.exp then decoded else None
  }

  /** The access and refresh token the signing calls produce for a session. */
  datatype IssuedTokens = IssuedTokens(accessToken: string, refreshToken: string)

  datatype UserView = UserView(id: UserId, name: string, email: string, role: string)
  datatype Session = Session(user: UserView, accessToken: string, refreshToken: string)

  datatype AuthState = AuthState(users: seq<User>, tokens: seq<RefreshToken>)

  const EmailExists := Raise(409, "Conflict", "Email already registered.", "email_exists")
  const InvalidCredentials := Raise(401, "Unauthorized", "Invalid credentials.", "invalid_credentials")
  const InvalidRefresh := Raise(401, "Unauthorized", "Invalid refresh token.", "invalid_refresh")
  const RefreshInactive := Raise(401, "Unauthorized", "Refresh token is not active.", "refresh_inactive")
  const UserNotFound := Raise(401, "Unauthorized", "User not found for token.", "user_not_found")
  /** What `jwt.verify` throws when the token just signed does not verify. */
  const SessionTokenRejected := "Refresh token verification failed"

  // ---------------------------------------------------------------- invariant

  /** Ids are positions, stored e-mails are lower-case, and no two users share one. */
  predicate UsersValid(users: seq<User>)
  {
    && (forall i :: 0 <= i < |users| ==> users[i].id == i && Text.Lower(users[i].email) == users[i].email)
    && (forall i, j :: 0 <= i < j < |users| ==> users[i].email != users[j].email)
  }

  /** Every refresh-token record belongs to an existing user. */
  predicate TokensValid(tokens: seq<RefreshToken>, userCount: nat)
  {
    forall i :: 0 <= i < |tokens| ==> tokens[i].userId < userCount
  }

  predicate AuthValid(st: AuthState)
  {
    UsersValid(st.users) && TokensValid(st.tokens, |st.users|)
  }

  const EmptyAuthState := AuthState([], [])

  lemma EmptyAuthStateValid()
    ensures AuthValid(EmptyAuthState)
  {
  }

  // ---------------------------------------------------------------- lookups

  /** `User.findOne({ email })` from position `i` on: the first user with that e-mail. */
  function FindUserFrom(users: seq<User>, email: string, i: nat): (r: Option<nat>)
    requires i <= |users|
    ensures r.Some? ==> i <= r.value < |users| && users[r.value].email == email
    ensures r.Some? ==> forall j :: i <= j < r.value ==> users[j].email != email
    ensures r.None? <==> forall j :: i <= j < |users| ==> users[j].email != email
    decreases |users| - i
  {
    if i == |users| then None
    else if users[i].email == email then Some(i)
    else FindUserFrom(users, email, i + 1)
  }

  function FindUser(users: seq<User>, email: string): (r: Option<nat>)
    ensures r.Some? ==> r.value < |users| && users[r.value].email == email
    ensures r.None? <==> forall j :: 0 <= j < |users| ==> users[j].email != email
  {
    FindUserFrom(users, email, 0)
  }

  /** The filter of `refresh`: the record's user and hash match, it is not revoked
      (`revokedAt: null`) and it has not expired (`expiresAt > now`). */
  predicate Active(t: RefreshToken, userId: UserId, tokenHash: string, now: int)
  {
    t.userId == userId && t.tokenHash == tokenHash && t.revokedAt.None? && t.expiresAt > now
  }

  /** `RefreshToken.findOne(...)` from position `i` on: the first active match. */
  function FindActiveFrom(tokens: seq<RefreshToken>, userId: UserId, tokenHash: string, now: int, i: nat): (r: Option<nat>)
    requires i <= |tokens|
    ensures r.Some? ==> i <= r.value < |tokens| && Active(tokens[r.value], userId, tokenHash, now)
    ensures r.Some? ==> forall j :: i <= j < r.value ==> !Active(tokens[j], userId, tokenHash, now)
    ensures r.None? <==> forall j :: i <= j < |tokens| ==> !Active(tokens[j], userId, tokenHash, now)
    decreases |tokens| - i
  {
    if i == |tokens| then None
    else if Active(tokens[i], userId, tokenHash, now) then Some(i)
    else FindActiveFrom(tokens, userId, tokenHash, now, i + 1)
  }

  function FindActive(tokens: seq<RefreshToken>, userId: UserId, tokenHash: string, now: int): (r: Option<nat>)
    ensures r.Some? ==> r.value < |tokens| && Active(tokens[r.value], userId, tokenHash, now)
    ensures r.Some? ==> forall j :: 0 <= j < r.value ==> !Active(tokens[j], userId, tokenHash, now)
    ensures r.None? <==> forall j :: 0 <= j < |tokens| ==> !Active(tokens[j], userId, tokenHash, now)
  {
    FindActiveFrom(tokens, userId, tokenHash, now, 0)
  }

  // ---------------------------------------------------------------- specifications

  function ViewOf(u: User): (v: UserView)
    ensures v.id == u.id && v.name == u.name && v.email == u.email && v.role == u.role
  {
    UserView(u.id, u.name, u.email, u.role)
  }

  /** `createSession`: the record of the new refresh token, expiring at the token's `exp`
      (seconds) as milliseconds, and the session returned. */
  function SessionSpec(st: AuthState, user: User, now: int, issued: IssuedTokens, c: Crypto): (AuthState, Result<Session, Thrown>)
  {
    var decoded := VerifyRefresh(c, issued.refreshToken, now);
    if decoded.None? then (st, Failure(Foreign(SessionTokenRejected)))
    else
      var record := NewRefreshToken(user.id, c.hashToken(issued.refreshToken), decoded.value.exp * 1000);
      (st.(tokens := st.tokens + [record]),
       Success(Session(ViewOf(user), issued.accessToken, issued.refreshToken)))
  }

  /** `register`: a lower-case e-mail already taken is a conflict; otherwise the user is
      created with role `"user"` and a session is issued for it. */
  function RegisterSpec(st: AuthState, input: AuthSchemas.RegisterInput, passwordHash: string,
                        now: int, issued: IssuedTokens, c: Crypto): (AuthState, Result<Session, Thrown>)
  {
    var email := Text.Lower(input.email);
    if FindUser(st.users, email).Some? then (st, Failure(Api(EmailExists)))
    else
      var user := User(|st.users|, input.name, email, passwordHash, UserRole);
      SessionSpec(st.(users := st.users + [user]), user, now, issued, c)
  }

  /** `login`: an unknown e-mail and a wrong password are the same error. */
  function LoginSpec(st: AuthState, input: AuthSchemas.LoginInput, now: int, issued: IssuedTokens, c: Crypto): (AuthState, Result<Session, Thrown>)
  {
    var found := FindUser(st.users, Text.Lower(input.email));
    if found.None? then (st, Failure(Api(InvalidCredentials)))
    else
      var user := st.users[found.value];
      if !c.passwordMatches(input.password, user.passwordHash) then (st, Failure(Api(InvalidCredentials)))
      else SessionSpec(st, user, now, issued, c)
  }

  /** The record `refresh` consumes, revoked at `now`. */
  function RevokeAt(tokens: seq<RefreshToken>, i: nat, now: int): (r: seq<RefreshToken>)
    requires i < |tokens|
    ensures |r| == |tokens| && r[i] == tokens[i].(revokedAt := Some(now))
    ensures forall j :: 0 <= j < |tokens| && j != i ==> r[j] == tokens[j]
  {
    tokens[i := tokens[i].(revokedAt := Some(now))]
  }

  /** `refresh`: verify, find the active record, revoke it, look the user up, issue a new
      session. The record is revoked before the user lookup. */
  function RefreshSpec(st: AuthState, raw: string, now: int, issued: IssuedTokens, c: Crypto): (AuthState, Result<Session, Thrown>)
  {
    var claims := VerifyRefresh(c, raw, now);
    if claims.None? then (st, Failure(Api(InvalidRefresh)))
    else
      var found := FindActive(st.tokens, claims.value.sub, c.hashToken(raw), now);
      if found.None? then (st, Failure(Api(RefreshInactive)))
      else
        var revoked := st.(tokens := RevokeAt(st.tokens, found.value, now));
        if claims.value.sub >= |st.users| then (revoked, Failure(Api(UserNotFound)))
        else SessionSpec(revoked, st.users[claims.value.sub], now, issued, c)
  }

  /** One record under `updateMany({ tokenHash, revokedAt: null }, { revokedAt: now })`. */
  function Revoked(t: RefreshToken, tokenHash: string, now: int): RefreshToken
  {
    if t.tokenHash == tokenHash && t.revokedAt.None? then t.(revokedAt := Some(now)) else t
  }

  function RevokeAll(tokens: seq<RefreshToken>, tokenHash: string, now: int): (r: seq<RefreshToken>)
    ensures |r| == |tokens|
    ensures forall i :: 0 <= i < |tokens| ==> r[i] == Revoked(tokens[i], tokenHash, now)
  {
    seq(|tokens|, i requires 0 <= i < |tokens| => Revoked(tokens[i], tokenHash, now))
  }

  // ---------------------------------------------------------------- properties

  /** Issuing a session appends exactly one unrevoked record, owned by the user and holding
      the hash of the new refresh token, and returns the user's fields with both tokens. */
  lemma SessionAppendsOneRecord(st: AuthState, user: User, now: int, issued: IssuedTokens, c: Crypto)
    requires VerifyRefresh(c, issued.refreshToken, now).Some?
    ensures var (st', r) := SessionSpec(st, user, now, issued, c);
            && st'.users == st.users
            && |st'.tokens| == |st.tokens| + 1 && st'.tokens[..|st.tokens|] == st.tokens
            && st'.tokens[|st.tokens|].revokedAt.None?
            && st'.tokens[|st.tokens|].userId == user.id
            && st'.tokens[|st.tokens|].tokenHash == c.hashToken(issued.refreshToken)
            && st'.tokens[|st.tokens|].expiresAt == VerifyRefresh(c, issued.refreshToken, now).value.exp * 1000
            && r.Success?
            && r.value.user == UserView(user.id, user.name, user.email, user.role)
            && r.value.accessToken == issued.accessToken && r.value.refreshToken == issued.refreshToken
  {
    var st' := SessionSpec(st, user, now, issued, c).0;
    assert st'.tokens[..|st.tokens|] == st.tokens;
  }

  /** A taken e-mail (compared in lower case) is a 409 `email_exists` that writes nothing. */
  lemma DuplicateEmailRejected(st: AuthState, input: AuthSchemas.RegisterInput, passwordHash: string,
                               now: int, issued: IssuedTokens, c: Crypto, i: nat)
    requires i < |st.users| && st.users[i].email == Text.Lower(input.email)
    ensures RegisterSpec(st, input, passwordHash, now, issued, c) == (st, Failure(Api(EmailExists)))
    ensures EmailExists.status == 409 && EmailExists.code == "email_exists"
  {
  }

  /** A new e-mail stores one user, with the lower-cased e-mail and role `"user"`, whether
      or not issuing the session then succeeds; on success its session is returned. */
  lemma RegisterCreatesUser(st: AuthState, input: AuthSchemas.RegisterInput, passwordHash: string,
                            now: int, issued: IssuedTokens, c: Crypto)
    requires forall j :: 0 <= j < |st.users| ==> st.users[j].email != Text.Lower(input.email)
    ensures var (st', r) := RegisterSpec(st, input, passwordHash, now, issued, c);
            && st'.users == st.users + [User(|st.users|, input.name, Text.Lower(input.email), passwordHash, UserRole)]
            && (r.Success? ==> r.value.user.email == Text.Lower(input.email) && r.value.user.role == UserRole
                               && r.value.user.id == |st.users|)
            && (r.Success? <==> VerifyRefresh(c, issued.refreshToken, now).Some?)
  {
  }

  /** An unknown e-mail and a wrong password give the identical 401 `invalid_credentials`
      error, and neither writes anything. */
  lemma LoginFailuresIndistinguishable(st: AuthState, input: AuthSchemas.LoginInput, now: int, issued: IssuedTokens, c: Crypto)
    requires AuthValid(st)
    ensures var found := FindUser(st.users, Text.Lower(input.email));
            (found.None? || !c.passwordMatches(input.password, st.users[found.value].passwordHash))
            <==> LoginSpec(st, input, now, issued, c) == (st, Failure(Api(InvalidCredentials)))
  {
    var found := FindUser(st.users, Text.Lower(input.email));
    if found.Some? && c.passwordMatches(input.password, st.users[found.value].passwordHash) {
      var r := LoginSpec(st, input, now, issued, c).1;
      assert r.Failure? ==> r.error.Foreign?;
    }
  }

  /** `refresh` with a token that does not verify, an expired one included, is 401
      `invalid_refresh`; with one that verifies it is 401 `refresh_inactive` exactly when no
      record is active for it. Neither failure writes anything. */
  lemma RefreshNeedsAnActiveRecord(st: AuthState, raw: string, now: int, issued: IssuedTokens, c: Crypto)
    ensures c.decodeRefresh(raw).Some? && now >= c.decodeRefresh(raw).value.exp * 1000 ==>
              RefreshSpec(st, raw, now, issued, c) == (st, Failure(Api(InvalidRefresh)))
    ensures VerifyRefresh(c, raw, now).None? ==> RefreshSpec(st, raw, now, issued, c) == (st, Failure(Api(InvalidRefresh)))
    ensures VerifyRefresh(c, raw, now).Some? ==>
              ((forall j :: 0 <= j < |st.tokens| ==> !Active(st.tokens[j], VerifyRefresh(c, raw, now).value.sub, c.hashToken(raw), now))
               <==> RefreshSpec(st, raw, now, issued, c) == (st, Failure(Api(RefreshInactive))))
  {
    var claims := VerifyRefresh(c, raw, now);
    if claims.Some? {
      var found := FindActive(st.tokens, claims.value.sub, c.hashToken(raw), now);
      if found.Some? {
        var r := RefreshSpec(st, raw, now, issued, c).1;
        assert r.Failure? ==> r.error.Foreign? || r.error == Api(UserNotFound);
      }
    }
  }

  /** Once refresh has found its record, that record is revoked at `now` and no other
      prior record changes, whether the user lookup then succeeds or fails with
      `user_not_found`. */
  lemma RefreshRevokesBeforeLookup(st: AuthState, raw: string, now: int, issued: IssuedTokens, c: Crypto)
    requires VerifyRefresh(c, raw, now).Some?
    requires FindActive(st.tokens, VerifyRefresh(c, raw, now).value.sub, c.hashToken(raw), now).Some?
    ensures var k := FindActive(st.tokens, VerifyRefresh(c, raw, now).value.sub, c.hashToken(raw), now).value;
            var (st', r) := RefreshSpec(st, raw, now, issued, c);
            && |st'.tokens| >= |st.tokens|
            && st'.tokens[k] == st.tokens[k].(revokedAt := Some(now))
            && (forall j :: 0 <= j < |st.tokens| && j != k ==> st'.tokens[j] == st.tokens[j])
            && (VerifyRefresh(c, raw, now).value.sub >= |st.users| ==> r == Failure(Api(UserNotFound)) && |st'.tokens| == |st.tokens|)
  {
  }

  /** After a successful refresh, replaying the same refresh token at the same or a later
      instant is refused: with `refresh_inactive` while the token has not expired, provided
      the consumed record was the only active match and the new refresh token hashes
      differently, and with `invalid_refresh` from its expiry on. Neither refusal writes. */
  lemma {:induction false} RotatedTokenCannotBeReplayed(st: AuthState, raw: string, now: int, issued: IssuedTokens,
                                                        c: Crypto, later: int, issuedAgain: IssuedTokens)
    requires RefreshSpec(st, raw, now, issued, c).1.Success?
    requires VerifyRefresh(c, raw, now).Some?
    requires forall i, j ::
               (0 <= i < |st.tokens| && 0 <= j < |st.tokens|
                && Active(st.tokens[i], VerifyRefresh(c, raw, now).value.sub, c.hashToken(raw), now)
                && Active(st.tokens[j], VerifyRefresh(c, raw, now).value.sub, c.hashToken(raw), now)) ==> i == j
    requires c.hashToken(issued.refreshToken) != c.hashToken(raw)
    requires later >= now
    ensures var st' := RefreshSpec(st, raw, now, issued, c).0;
            later < c.decodeRefresh(raw).value.exp * 1000 ==>
              RefreshSpec(st', raw, later, issuedAgain, c) == (st', Failure(Api(RefreshInactive)))
    ensures var st' := RefreshSpec(st, raw, now, issued, c).0;
            later >= c.decodeRefresh(raw).value.exp * 1000 ==>
              RefreshSpec(st', raw, later, issuedAgain, c) == (st', Failure(Api(InvalidRefresh)))
  {
    if later >= c.decodeRefresh(raw).value.exp * 1000 {
      return;
    }
    assert VerifyRefresh(c, raw, later) == VerifyRefresh(c, raw, now);
    var sub := VerifyRefresh(c, raw, now).value.sub;
    var h := c.hashToken(raw);
    var k := FindActive(st.tokens, sub, h, now).value;
    var st' := RefreshSpec(st, raw, now, issued, c).0;
    SessionAppendsOneRecord(st.(tokens := RevokeAt(st.tokens, k, now)), st.users[sub], now, issued, c);
    assert |st'.tokens| == |st.tokens| + 1;
    forall j | 0 <= j < |st'.tokens|
      ensures !Active(st'.tokens[j], sub, h, later)
    {
      if j == |st.tokens| {
        assert st'.tokens[j].tokenHash == c.hashToken(issued.refreshToken);
      } else if j == k {
        assert st'.tokens[j].revokedAt.Some?;
      } else {
        assert st'.tokens[j] == st.tokens[j];
        assert !Active(st.tokens[j], sub, h, now);
      }
    }
    RefreshNeedsAnActiveRecord(st', raw, later, issuedAgain, c);
  }

  /** Hashes are not unique: when two active records share the token's hash, the replay is
      accepted, so the uniqueness premise above cannot be dropped. */
  lemma DuplicateHashAllowsReplay(st: AuthState, raw: string, now: int, issued: IssuedTokens, c: Crypto,
                                  i: nat, j: nat, issuedAgain: IssuedTokens)
    requires VerifyRefresh(c, raw, now).Some? && VerifyRefresh(c, raw, now).value.sub < |st.users|
    requires VerifyRefresh(c, issued.refreshToken, now).Some? && VerifyRefresh(c, issuedAgain.refreshToken, now).Some?
    requires i < j < |st.tokens|
    requires Active(st.tokens[i], VerifyRefresh(c, raw, now).value.sub, c.hashToken(raw), now)
    requires Active(st.tokens[j], VerifyRefresh(c, raw, now).value.sub, c.hashToken(raw), now)
    ensures var st' := RefreshSpec(st, raw, now, issued, c).0;
            RefreshSpec(st, raw, now, issued, c).1.Success? && RefreshSpec(st', raw, now, issuedAgain, c).1.Success?
  {
    var sub := VerifyRefresh(c, raw, now).value.sub;
    var h := c.hashToken(raw);
    var k := FindActive(st.tokens, sub, h, now).value;
    assert k <= i;
    var st' := RefreshSpec(st, raw, now, issued, c).0;
    SessionAppendsOneRecord(st.(tokens := RevokeAt(st.tokens, k, now)), st.users[sub], now, issued, c);
    assert st'.tokens[j] == st.tokens[j];
    assert FindActive(st'.tokens, sub, h, now).Some?;
  }

  /** The payload signed for a refresh token is only `{ sub, role, email }` with whole-second
      `iat`/`exp`, so a refresh within the same second re-issues the identical token. Then the
      new record carries the consumed token's hash and the old token is accepted again: the
      different-hash premise above is reachable and cannot be dropped either. */
  lemma ReissuedTokenAllowsReplay(st: AuthState, raw: string, now: int, issued: IssuedTokens, c: Crypto,
                                  later: int)
    requires AuthValid(st)
    requires VerifyRefresh(c, raw, now).Some? && VerifyRefresh(c, issued.refreshToken, now).Some?
    requires RefreshSpec(st, raw, now, issued, c).1.Success?
    requires c.hashToken(issued.refreshToken) == c.hashToken(raw)
    requires later < VerifyRefresh(c, issued.refreshToken, now).value.exp * 1000
    ensures var st' := RefreshSpec(st, raw, now, issued, c).0;
            FindActive(st'.tokens, VerifyRefresh(c, raw, now).value.sub, c.hashToken(raw), later).Some?
  {
    var sub := VerifyRefresh(c, raw, now).value.sub;
    var h := c.hashToken(raw);
    var k := FindActive(st.tokens, sub, h, now).value;
    var revoked := st.(tokens := RevokeAt(st.tokens, k, now));
    var st' := RefreshSpec(st, raw, now, issued, c).0;
    SessionAppendsOneRecord(revoked, st.users[sub], now, issued, c);
    assert st.users[sub].id == sub;
    assert Active(st'.tokens[|st.tokens|], sub, h, later);
  }

  /** After logout no record with the token's hash is active, for any user at any instant. */
  lemma LogoutDeactivatesHash(tokens: seq<RefreshToken>, tokenHash: string, now: int, userId: UserId, later: int)
    ensures forall i :: 0 <= i < |tokens| ==> !Active(RevokeAll(tokens, tokenHash, now)[i], userId, tokenHash, later)
  {
  }

  /** Logout touches no record with another hash or already revoked, and changes nothing
      but `revokedAt` of the others. */
  lemma LogoutTouchesNothingElse(tokens: seq<RefreshToken>, tokenHash: string, now: int)
    ensures forall i :: 0 <= i < |tokens| && (tokens[i].tokenHash != tokenHash || tokens[i].revokedAt.Some?)
              ==> RevokeAll(tokens, tokenHash, now)[i] == tokens[i]
    ensures forall i :: 0 <= i < |tokens| ==>
              RevokeAll(tokens, tokenHash, now)[i] == tokens[i].(revokedAt := RevokeAll(tokens, tokenHash, now)[i].revokedAt)
  {
  }

  /** A second logout with the same token changes nothing, whenever it happens. */
  lemma LogoutIdempotent(tokens: seq<RefreshToken>, tokenHash: string, now: int, later: int)
    ensures RevokeAll(RevokeAll(tokens, tokenHash, now), tokenHash, later) == RevokeAll(tokens, tokenHash, now)
  {
  }

  /** Every operation keeps the invariant. */
  lemma SessionPreservesValid(st: AuthState, user: User, now: int, issued: IssuedTokens, c: Crypto)
    requires AuthValid(st) && user.id < |st.users|
    ensures AuthValid(SessionSpec(st, user, now, issued, c).0)
  {
  }

  lemma RegisterPreservesValid(st: AuthState, input: AuthSchemas.RegisterInput, passwordHash: string,
                               now: int, issued: IssuedTokens, c: Crypto)
    requires AuthValid(st)
    ensures AuthValid(RegisterSpec(st, input, passwordHash, now, issued, c).0)
  {
    var email := Text.Lower(input.email);
    if FindUser(st.users, email).None? {
      var user := User(|st.users|, input.name, email, passwordHash, UserRole);
      var users' := st.users + [user];
      Text.LowerIdempotent(input.email);
      assert UsersValid(users');
      SessionPreservesValid(st.(users := users'), user, now, issued, c);
    }
  }

  lemma LoginPreservesValid(st: AuthState, input: AuthSchemas.LoginInput, now: int, issued: IssuedTokens, c: Crypto)
    requires AuthValid(st)
    ensures AuthValid(LoginSpec(st, input, now, issued, c).0)
  {
    var found := FindUser(st.users, Text.Lower(input.email));
    if found.Some? {
      SessionPreservesValid(st, st.users[found.value], now, issued, c);
    }
  }

  lemma RefreshPreservesValid(st: AuthState, raw: string, now: int, issued: IssuedTokens, c: Crypto)
    requires AuthValid(st)
    ensures AuthValid(RefreshSpec(st, raw, now, issued, c).0)
  {
    var claims := VerifyRefresh(c, raw, now);
    if claims.Some? {
      var found := FindActive(st.tokens, claims.value.sub, c.hashToken(raw), now);
      if found.Some? {
        var revoked := st.(tokens := RevokeAt(st.tokens, found.value, now));
        assert AuthValid(revoked);
        if claims.value.sub < |st.users| {
          SessionPreservesValid(revoked, st.users[claims.value.sub], now, issued, c);
        }
      }
    }
  }

  lemma LogoutPreservesValid(st: AuthState, tokenHash: string, now: int)
    requires AuthValid(st)
    ensures AuthValid(st.(tokens := RevokeAll(st.tokens, tokenHash, now)))
  {
  }

  // ---------------------------------------------------------------- the store

  class AuthStore {
    var users: seq<User>
    var refreshTokens: seq<RefreshToken>

    function State(): AuthState
      reads this
    {
      AuthState(users, refreshTokens)
    }

    predicate Valid()
      reads this
    {
      AuthValid(State())
    }

    constructor ()
      ensures Valid() && State() == EmptyAuthState
    {
      users, refreshTokens := [], [];
    }

    /** `createSession`. */
    method CreateSession(user: User, now: int, issued: IssuedTokens, c: Crypto) returns (r: Result<Session, Thrown>)
      requires Valid() && user.id < |users|
      modifies this
      ensures Valid()
      ensures (State(), r) == SessionSpec(old(State()), user, now, issued, c)
    {
      SessionPreservesValid(State(), user, now, issued, c);
      var decoded := VerifyRefresh(c, issued.refreshToken, now);
      if decoded.None? {
        return Failure(Foreign(SessionTokenRejected));
      }
      refreshTokens := refreshTokens + [NewRefreshToken(user.id, c.hashToken(issued.refreshToken), decoded.value.exp * 1000)];
      r := Success(Session(ViewOf(user), issued.accessToken, issued.refreshToken));
    }

    method Register(input: AuthSchemas.RegisterInput, passwordHash: string, now: int, issued: IssuedTokens, c: Crypto)
      returns (r: Result<Session, Thrown>)
      requires Valid()
      modifies this
      ensures Valid()
      ensures (State(), r) == RegisterSpec(old(State()), input, passwordHash, now, issued, c)
    {
      RegisterPreservesValid(State(), input, passwordHash, now, issued, c);
      var email := Text.Lower(input.email);
      var existing := FindUser(users, email);
      if existing.Some? {
        return Failure(Api(EmailExists));
      }
      Text.LowerIdempotent(input.email);
      var user := User(|users|, input.name, email, passwordHash, UserRole);
      users := users + [user];
      r := CreateSession(user, now, issued, c);
    }

    method Login(input: AuthSchemas.LoginInput, now: int, issued: IssuedTokens, c: Crypto) returns (r: Result<Session, Thrown>)
      requires Valid()
      modifies this
      ensures Valid()
      ensures (State(), r) == LoginSpec(old(State()), input, now, issued, c)
    {
      var found := FindUser(users, Text.Lower(input.email));
      if found.None? {
        return Failure(Api(InvalidCredentials));
      }
      var user := users[found.value];
      if !c.passwordMatches(input.password, user.passwordHash) {
        return Failure(Api(InvalidCredentials));
      }
      r := CreateSession(user, now, issued, c);
    }

    method Refresh(raw: string, now: int, issued: IssuedTokens, c: Crypto) returns (r: Result<Session, Thrown>)
      requires Valid()
      modifies this
      ensures Valid()
      ensures (State(), r) == RefreshSpec(old(State()), raw, now, issued, c)
    {
      RefreshPreservesValid(State(), raw, now, issued, c);
      var claims := VerifyRefresh(c, raw, now);
      if claims.None? {
        return Failure(Api(InvalidRefresh));
      }
      var tokenHash := c.hashToken(raw);
      var stored := FindActive(refreshTokens, claims.value.sub, tokenHash, now);
      if stored.None? {
        return Failure(Api(RefreshInactive));
      }
      refreshTokens := refreshTokens[stored.value := refreshTokens[stored.value].(revokedAt := Some(now))];
      if claims.value.sub >= |users| {
        return Failure(Api(UserNotFound));
      }
      r := CreateSession(users[claims.value.sub], now, issued, c);
    }

    /** `logout`: the `updateMany` walks the records and revokes each unrevoked one with the
        token's hash. It always answers `loggedOut: true`. */
    method Logout(raw: string, now: int, c: Crypto) returns (loggedOut: bool)
      requires Valid()
      modifies this
      ensures Valid() && loggedOut
      ensures users == old(users)
      ensures refreshTokens == RevokeAll(old(refreshTokens), c.hashToken(raw), now)
    {
      var tokenHash := c.hashToken(raw);
      var i := 0;
      while i < |refreshTokens|
        invariant 0 <= i <= |refreshTokens| == |old(refreshTokens)|
        invariant users == old(users)
        invariant forall j :: 0 <= j < i ==> refreshTokens[j] == Revoked(old(refreshTokens)[j], tokenHash, now)
        invariant forall j :: i <= j < |refreshTokens| ==> refreshTokens[j] == old(refreshTokens)[j]
      {
        if refreshTokens[i].tokenHash == tokenHash && refreshTokens[i].revokedAt.None? {
          refreshTokens := refreshTokens[i := refreshTokens[i].(revokedAt := Some(now))];
        }
        i := i + 1;
      }
      LogoutPreservesValid(old(State()), tokenHash, now);
      return true;
    }
  }
}
