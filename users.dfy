/** Accounts and the email-verification / password-reset token lifecycle of
    BackEnd/UserRoutes.js, over the `users` and `email_verification_tokens`
    tables. Each route is a function from the old tables to its reply and
    the new tables; the class UserStore performs the same steps on its
    fields. Password hashing and token generation are abstract: a hash
    matches exactly the password it was made from, and the fresh token is
    an input. */
module Users {
  import opened Wrappers
  import opened Http
  import opened JsValues
  import opened Tables

  /** `Date.now() + 3600000`: a token lives one hour. */
  const TOKEN_LIFETIME_MS := 3600000

  /** A bcrypt hash; `bcrypt.compare(p, h)` holds exactly when h was made
      from p. */
  datatype Hash = Hashed(secret: string)

  predicate Matches(password: string, h: Hash) {
    h == Hashed(password)
  }

  datatype User = User(name: string, email: string, password: Hash, verified: bool, isAdmin: bool)

  /** A row of `email_verification_tokens`; the same table holds the
      tokens of both flows. `user_id` is a unique key of the table (the
      upsert of resend-verification relies on it). */
  datatype Token = Token(userId: int, value: string, expiresAt: int)

  datatype UserDb = UserDb(users: seq<Row<User>>, nextId: int, tokens: seq<Token>)

  /** What the tables guarantee between requests: well-formed keys, one
      account per email, every token owned by an existing account, at most
      one token per account. */
  predicate Consistent(db: UserDb) {
    && WellFormed(db.users, db.nextId)
    && (forall i, j :: 0 <= i < j < |db.users| ==> db.users[i].data.email != db.users[j].data.email)
    && (forall i :: 0 <= i < |db.tokens| ==> HasId(db.users, db.tokens[i].userId))
    && DistinctOwners(db.tokens)
  }

  // ---------------------------------------------------------------------
  // Mail provider choice

  datatype Provider = Gmail | MailRu | Yandex | Unsupported

  /** No address ends with two of the supported domains, so the order of
      the suffix tests does not matter. */
  lemma SuffixesExclusive(email: string)
    ensures !(EndsWith(email, "@gmail.com") && EndsWith(email, "@mail.ru"))
    ensures !(EndsWith(email, "@gmail.com") && EndsWith(email, "@yandex.ru"))
    ensures !(EndsWith(email, "@mail.ru") && EndsWith(email, "@yandex.ru"))
  {
    if EndsWith(email, "@gmail.com") {
      CharFromEnd(email, "@gmail.com", 0);      // ends in 'm'
    }
    if EndsWith(email, "@mail.ru") {
      CharFromEnd(email, "@mail.ru", 0);        // ends in 'u'
      CharFromEnd(email, "@mail.ru", 7);        // '@' eight from the end
    }
    if EndsWith(email, "@yandex.ru") {
      CharFromEnd(email, "@yandex.ru", 0);      // ends in 'u'
      CharFromEnd(email, "@yandex.ru", 7);      // 'a' eight from the end
    }
  }

  lemma CharFromEnd(s: string, suffix: string, k: nat)
    requires EndsWith(s, suffix) && k < |suffix|
    ensures s[|s| - 1 - k] == suffix[|suffix| - 1 - k]
  {
    assert s[|s| - |suffix|..][|suffix| - 1 - k] == s[|s| - 1 - k];
  }

  /** The transport a verification or reset mail goes through, chosen by
      the domain of the address. */
  function ProviderFor(email: string): (p: Provider)
    ensures p == Gmail <==> EndsWith(email, "@gmail.com")
    ensures p == MailRu <==> EndsWith(email, "@mail.ru")
    ensures p == Yandex <==> EndsWith(email, "@yandex.ru")
    ensures p == Unsupported <==>
              !EndsWith(email, "@gmail.com") && !EndsWith(email, "@mail.ru") && !EndsWith(email, "@yandex.ru")
  {
    SuffixesExclusive(email);
    if EndsWith(email, "@gmail.com") then Gmail
    else if EndsWith(email, "@mail.ru") then MailRu
    else if EndsWith(email, "@yandex.ru") then Yandex
    else Unsupported
  }

  // ---------------------------------------------------------------------
  // Queries

  /** `SELECT * FROM users WHERE email = ?`, first row. */
  function FindUser(users: seq<Row<User>>, email: string): (k: Option<nat>)
    ensures k.Some? ==> k.value < |users| && users[k.value].data.email == email
    ensures k.Some? ==> forall i :: 0 <= i < k.value ==> users[i].data.email != email
    ensures k.None? <==> forall i :: 0 <= i < |users| ==> users[i].data.email != email
  {
    if users == [] then None
    else if users[0].data.email == email then Some(0)
    else match FindUser(users[1..], email)
      case None => None
      case Some(j) => Some(j + 1)
  }

  /** A token row with that value, unexpired at `liveAt` when given
      (`... WHERE token = ? [AND expires_at > NOW()]`). */
  predicate Accepts(t: Token, value: string, liveAt: Option<int>) {
    t.value == value && (liveAt.Some? ==> t.expiresAt > liveAt.value)
  }

  /** The first token row the query returns. */
  function FindToken(tokens: seq<Token>, value: string, liveAt: Option<int>): (k: Option<nat>)
    ensures k.Some? ==> k.value < |tokens| && Accepts(tokens[k.value], value, liveAt)
    ensures k.Some? ==> forall i :: 0 <= i < k.value ==> !Accepts(tokens[i], value, liveAt)
    ensures k.None? <==> forall i :: 0 <= i < |tokens| ==> !Accepts(tokens[i], value, liveAt)
  {
    if tokens == [] then None
    else if Accepts(tokens[0], value, liveAt) then Some(0)
    else match FindToken(tokens[1..], value, liveAt)
      case None => None
      case Some(j) => Some(j + 1)
  }

  /** The token row of an account, if any. */
  function TokenOf(tokens: seq<Token>, userId: int): (k: Option<nat>)
    ensures k.Some? ==> k.value < |tokens| && tokens[k.value].userId == userId
    ensures k.None? <==> forall i :: 0 <= i < |tokens| ==> tokens[i].userId != userId
  {
    if tokens == [] then None
    else if tokens[0].userId == userId then Some(0)
    else match TokenOf(tokens[1..], userId)
      case None => None
      case Some(j) => Some(j + 1)
  }

  // ---------------------------------------------------------------------
  // Updates

  /** `UPDATE users SET password = ? WHERE id = ?` */
  function SetPassword(users: seq<Row<User>>, userId: int, h: Hash): (r: seq<Row<User>>)
    ensures |r| == |users|
    ensures forall i :: 0 <= i < |r| ==> r[i].id == users[i].id && r[i].data.email == users[i].data.email
    ensures forall i :: 0 <= i < |r| && users[i].id == userId ==>
              r[i].data == users[i].data.(password := h)
    ensures forall i :: 0 <= i < |r| && users[i].id != userId ==> r[i] == users[i]
  {
    seq(|users|, i requires 0 <= i < |users| =>
      if users[i].id == userId then Row(userId, users[i].data.(password := h)) else users[i])
  }

  /** `UPDATE users SET is_verified = 1 WHERE id = ?` */
  function SetVerified(users: seq<Row<User>>, userId: int): (r: seq<Row<User>>)
    ensures |r| == |users|
    ensures forall i :: 0 <= i < |r| ==> r[i].id == users[i].id && r[i].data.email == users[i].data.email
    ensures forall i :: 0 <= i < |r| && users[i].id == userId ==>
              r[i].data == users[i].data.(verified := true)
    ensures forall i :: 0 <= i < |r| && users[i].id != userId ==> r[i] == users[i]
  {
    seq(|users|, i requires 0 <= i < |users| =>
      if users[i].id == userId then Row(userId, users[i].data.(verified := true)) else users[i])
  }

  /** `DELETE FROM email_verification_tokens WHERE token = ?` */
  function RemoveTokens(tokens: seq<Token>, value: string): (r: seq<Token>)
    ensures |r| <= |tokens|
    ensures forall k :: 0 <= k < |r| ==> r[k] in tokens && r[k].value != value
    ensures forall k :: 0 <= k < |tokens| && tokens[k].value != value ==> tokens[k] in r
  {
    if tokens == [] then []
    else (if tokens[0].value == value then [] else [tokens[0]]) + RemoveTokens(tokens[1..], value)
  }

  /** `INSERT ... ON DUPLICATE KEY UPDATE token = VALUES(token),
      expires_at = VALUES(expires_at)` keyed by user_id. */
  function Upsert(tokens: seq<Token>, t: Token): (r: seq<Token>)
    ensures TokenOf(tokens, t.userId).Some? ==> r == tokens[TokenOf(tokens, t.userId).value := t]
    ensures TokenOf(tokens, t.userId).None? ==> r == tokens + [t]
    ensures t in r
  {
    match TokenOf(tokens, t.userId)
    case Some(k) => assert tokens[k := t][k] == t; tokens[k := t]
    case None => tokens + [t]
  }

  /** With user_id unique, the upsert leaves the account one token, the
      new one, and every other account's token as it was. */
  lemma UpsertReplaces(tokens: seq<Token>, t: Token)
    requires forall i, j :: 0 <= i < j < |tokens| ==> tokens[i].userId != tokens[j].userId
    ensures var r := Upsert(tokens, t);
            && (forall i, j :: 0 <= i < j < |r| ==> r[i].userId != r[j].userId)
            && (forall k :: 0 <= k < |r| ==> r[k] == t || (r[k] in tokens && r[k].userId != t.userId))
            && (forall k :: 0 <= k < |tokens| && tokens[k].userId != t.userId ==> tokens[k] in r)
  {
    var r := Upsert(tokens, t);
    match TokenOf(tokens, t.userId)
    case Some(m) =>
      forall k | 0 <= k < |tokens| && tokens[k].userId != t.userId ensures tokens[k] in r {
        assert r[k] == tokens[k];
      }
    case None =>
      forall k | 0 <= k < |tokens| ensures tokens[k] in r {
        assert r[k] == tokens[k];
      }
  }

  // ---------------------------------------------------------------------
  // Routes

  /** POST /register. The token INSERT error is only logged, and every
      domain, supported or not, gets 201 once the account is stored. */
  function RegisterOutcome(db: UserDb, name: string, email: string, password: string, token: string, now: int)
    : (out: (Reply, UserDb))
    ensures out.0 == Status(BAD_REQUEST) <==> FindUser(db.users, email).Some?
    ensures out.0 == Status(BAD_REQUEST) || out.0 == Status(CREATED)
    ensures out.0 == Status(BAD_REQUEST) ==> out.1 == db
    ensures out.0 == Status(CREATED) ==>
              && out.1.users == db.users + [Row(db.nextId, User(name, email, Hashed(password), false, false))]
              && out.1.nextId == db.nextId + 1
              && out.1.tokens == db.tokens + [Token(db.nextId, token, now + TOKEN_LIFETIME_MS)]
  {
    if FindUser(db.users, email).Some? then (Status(BAD_REQUEST), db)
    else
      var id := db.nextId;
      (Status(CREATED),
       UserDb(db.users + [Row(id, User(name, email, Hashed(password), false, false))],
              id + 1,
              db.tokens + [Token(id, token, now + TOKEN_LIFETIME_MS)]))
  }

  /** POST /login: unknown address 401, unverified account 403 (before
      the password is looked at), wrong password 401. The reply carries
      the whole account row. */
  function LoginOutcome(db: UserDb, email: string, password: string): (out: (Reply, Option<Row<User>>))
    ensures out.0 == Status(OK) <==> out.1.Some?
    ensures FindUser(db.users, email).None? ==> out.0 == Status(UNAUTHORIZED)
    ensures FindUser(db.users, email).Some? ==>
              var u := db.users[FindUser(db.users, email).value];
              && (out.0 == Status(FORBIDDEN) <==> !u.data.verified)
              && (out.0 == Status(OK) <==> u.data.verified && Matches(password, u.data.password))
              && (out.0 == Status(UNAUTHORIZED) <==> u.data.verified && !Matches(password, u.data.password))
              && (out.1.Some? ==> out.1.value == u)
  {
    match FindUser(db.users, email)
    case None => (Status(UNAUTHORIZED), None)
    case Some(k) =>
      var u := db.users[k];
      if !u.data.verified then (Status(FORBIDDEN), None)
      else if !Matches(password, u.data.password) then (Status(UNAUTHORIZED), None)
      else (Status(OK), Some(u))
  }

  /** POST /change-password: an unknown id leaves `user` undefined and the
      handler answers 500; a wrong current password 401. */
  function ChangePasswordOutcome(db: UserDb, userId: int, current: string, newPassword: string)
    : (out: (Reply, UserDb))
    ensures out.0 != Status(OK) ==> out.1 == db
    ensures !HasId(db.users, userId) ==> out.0 == Status(SERVER_ERROR)
    ensures HasId(db.users, userId) ==>
              var u := db.users[Find(db.users, userId).value].data;
              (out.0 == Status(UNAUTHORIZED) <==> !Matches(current, u.password))
              && (out.0 == Status(OK) <==> Matches(current, u.password))
    ensures out.0 == Status(OK) ==>
              out.1 == db.(users := SetPassword(db.users, userId, Hashed(newPassword)))
  {
    match Find(db.users, userId)
    case None => (Status(SERVER_ERROR), db)
    case Some(k) =>
      if !Matches(current, db.users[k].data.password) then (Status(UNAUTHORIZED), db)
      else (Status(OK), db.(users := SetPassword(db.users, userId, Hashed(newPassword))))
  }

  /** POST /request-password-reset. The token goes in with a plain INSERT,
      which the unique user_id key refuses while the account still holds
      a token; a failed send through a supported provider is awaited and
      answers 500 after the token is stored. */
  function RequestResetOutcome(db: UserDb, email: string, token: string, now: int, sendFails: bool)
    : (out: (Reply, UserDb))
    ensures FindUser(db.users, email).None? <==> out.0 == Status(NOT_FOUND)
    ensures out.0 == Status(NOT_FOUND) ==> out.1 == db
    ensures FindUser(db.users, email).Some? ==>
              var id := db.users[FindUser(db.users, email).value].id;
              && (TokenOf(db.tokens, id).Some? ==> out == (Status(SERVER_ERROR), db))
              && (TokenOf(db.tokens, id).None? ==>
                    && out.1 == db.(tokens := db.tokens + [Token(id, token, now + TOKEN_LIFETIME_MS)])
                    && (out.0 == Status(OK) <==> !sendFails || ProviderFor(email) == Unsupported))
    ensures out.0 in {Status(OK), Status(NOT_FOUND), Status(SERVER_ERROR)}
  {
    match FindUser(db.users, email)
    case None => (Status(NOT_FOUND), db)
    case Some(k) =>
      var id := db.users[k].id;
      if TokenOf(db.tokens, id).Some? then (Status(SERVER_ERROR), db)
      else
        var db' := db.(tokens := db.tokens + [Token(id, token, now + TOKEN_LIFETIME_MS)]);
        if sendFails && ProviderFor(email) != Unsupported then (Status(SERVER_ERROR), db')
        else (Status(OK), db')
  }

  /** POST /reset-password: only an unexpired token is accepted; the
      account it names gets the new password and every row with that token
      value is deleted. */
  function ResetPasswordOutcome(db: UserDb, token: string, newPassword: string, now: int)
    : (out: (Reply, UserDb))
    ensures out.0 == Status(BAD_REQUEST) <==> FindToken(db.tokens, token, Some(now)).None?
    ensures out.0 == Status(BAD_REQUEST) || out.0 == Status(OK)
    ensures out.0 == Status(BAD_REQUEST) ==> out.1 == db
    ensures out.0 == Status(OK) ==>
              var id := db.tokens[FindToken(db.tokens, token, Some(now)).value].userId;
              out.1 == UserDb(SetPassword(db.users, id, Hashed(newPassword)), db.nextId,
                              RemoveTokens(db.tokens, token))
  {
    match FindToken(db.tokens, token, Some(now))
    case None => (Status(BAD_REQUEST), db)
    case Some(k) =>
      var id := db.tokens[k].userId;
      (Status(OK), UserDb(SetPassword(db.users, id, Hashed(newPassword)), db.nextId,
                          RemoveTokens(db.tokens, token)))
  }

  /** POST /verify-email: any stored token is accepted, expired or not; the
      account it names becomes verified and the token is deleted. */
  function VerifyEmailOutcome(db: UserDb, token: string): (out: (Reply, UserDb))
    ensures out.0 == Status(BAD_REQUEST) <==> FindToken(db.tokens, token, None).None?
    ensures out.0 == Status(BAD_REQUEST) || out.0 == Status(OK)
    ensures out.0 == Status(BAD_REQUEST) ==> out.1 == db
    ensures out.0 == Status(OK) ==>
              var id := db.tokens[FindToken(db.tokens, token, None).value].userId;
              out.1 == UserDb(SetVerified(db.users, id), db.nextId, RemoveTokens(db.tokens, token))
  {
    match FindToken(db.tokens, token, None)
    case None => (Status(BAD_REQUEST), db)
    case Some(k) =>
      var id := db.tokens[k].userId;
      (Status(OK), UserDb(SetVerified(db.users, id), db.nextId, RemoveTokens(db.tokens, token)))
  }

  /** POST /resend-verification: unknown address 404, verified account
      400, otherwise the account's token row is replaced or created. */
  function ResendOutcome(db: UserDb, email: string, token: string, now: int): (out: (Reply, UserDb))
    ensures out.0 == Status(NOT_FOUND) <==> FindUser(db.users, email).None?
    ensures out.0 == Status(BAD_REQUEST) <==>
              FindUser(db.users, email).Some? && db.users[FindUser(db.users, email).value].data.verified
    ensures out.0 != Status(OK) ==> out.1 == db
    ensures out.0 in {Status(OK), Status(BAD_REQUEST), Status(NOT_FOUND)}
    ensures out.0 == Status(OK) ==>
              var id := db.users[FindUser(db.users, email).value].id;
              out.1 == db.(tokens := Upsert(db.tokens, Token(id, token, now + TOKEN_LIFETIME_MS)))
  {
    match FindUser(db.users, email)
    case None => (Status(NOT_FOUND), db)
    case Some(k) =>
      if db.users[k].data.verified then (Status(BAD_REQUEST), db)
      else (Status(OK), db.(tokens := Upsert(db.tokens, Token(db.users[k].id, token, now + TOKEN_LIFETIME_MS))))
  }

  /** POST /verify-token: 200 exactly for an unexpired stored token. */
  function VerifyTokenOutcome(db: UserDb, token: string, now: int): (r: Reply)
    ensures r == Status(OK) <==>
              exists i :: 0 <= i < |db.tokens| && db.tokens[i].value == token && db.tokens[i].expiresAt > now
    ensures r == Status(OK) || r == Status(BAD_REQUEST)
  {
    var k := FindToken(db.tokens, token, Some(now));
    if k.Some? then Status(OK)
    else
      assert forall i :: 0 <= i < |db.tokens| ==> !Accepts(db.tokens[i], token, Some(now));
      Status(BAD_REQUEST)
  }

  // ---------------------------------------------------------------------
  // Consistency is kept by every route

  /** In a consistent table the account an address names is unique. */
  lemma FindUserUnique(db: UserDb, i: int)
    requires Consistent(db)
    requires 0 <= i < |db.users|
    ensures FindUser(db.users, db.users[i].data.email) == Some(i)
  {
  }

  lemma SameAccountsConsistent(db: UserDb, users': seq<Row<User>>)
    requires Consistent(db)
    requires |users'| == |db.users|
    requires forall i :: 0 <= i < |users'| ==> users'[i].id == db.users[i].id && users'[i].data.email == db.users[i].data.email
    ensures Consistent(db.(users := users'))
  {
    var db' := db.(users := users');
    forall i | 0 <= i < |db.tokens| ensures HasId(users', db.tokens[i].userId) {
      var j :| 0 <= j < |db.users| && db.users[j].id == db.tokens[i].userId;
      assert users'[j].id == db.tokens[i].userId;
    }
  }

  predicate DistinctOwners(tokens: seq<Token>) {
    forall i, j :: 0 <= i < j < |tokens| ==> tokens[i].userId != tokens[j].userId
  }

  lemma DistinctOwnersCons(t: Token, tail: seq<Token>)
    requires DistinctOwners(tail)
    requires forall k :: 0 <= k < |tail| ==> tail[k].userId != t.userId
    ensures DistinctOwners([t] + tail)
  {
    var r := [t] + tail;
    forall i, j | 0 <= i < j < |r| ensures r[i].userId != r[j].userId {
      assert r[j] == tail[j - 1];
      if i > 0 {
        assert r[i] == tail[i - 1];
      }
    }
  }

  lemma {:induction false} RemoveTokensKeepsOwners(tokens: seq<Token>, value: string)
    requires DistinctOwners(tokens)
    ensures DistinctOwners(RemoveTokens(tokens, value))
  {
    if tokens != [] {
      var rest := tokens[1..];
      assert DistinctOwners(rest) by {
        forall i, j | 0 <= i < j < |rest| ensures rest[i].userId != rest[j].userId {
          assert rest[i] == tokens[i + 1] && rest[j] == tokens[j + 1];
        }
      }
      RemoveTokensKeepsOwners(rest, value);
      var tail := RemoveTokens(rest, value);
      if tokens[0].value != value {
        forall k | 0 <= k < |tail| ensures tail[k].userId != tokens[0].userId {
          var m :| 0 <= m < |rest| && rest[m] == tail[k];
          assert tokens[m + 1] == tail[k];
        }
        DistinctOwnersCons(tokens[0], tail);
        assert RemoveTokens(tokens, value) == [tokens[0]] + tail;
      } else {
        assert RemoveTokens(tokens, value) == tail;
      }
    }
  }

  lemma RemoveTokensConsistent(db: UserDb, value: string)
    requires Consistent(db)
    ensures Consistent(db.(tokens := RemoveTokens(db.tokens, value)))
  {
    RemoveTokensKeepsOwners(db.tokens, value);
    var r := RemoveTokens(db.tokens, value);
    forall k | 0 <= k < |r| ensures HasId(db.users, r[k].userId) {
      var m :| 0 <= m < |db.tokens| && db.tokens[m] == r[k];
    }
  }

  lemma RegisterKeepsConsistent(db: UserDb, name: string, email: string, password: string, token: string, now: int)
    requires Consistent(db)
    ensures Consistent(RegisterOutcome(db, name, email, password, token, now).1)
  {
    var out := RegisterOutcome(db, name, email, password, token, now);
    if out.0 == Status(CREATED) {
      var db' := out.1;
      forall i | 0 <= i < |db'.tokens| ensures HasId(db'.users, db'.tokens[i].userId) {
        if i < |db.tokens| {
          var j :| 0 <= j < |db.users| && db.users[j].id == db.tokens[i].userId;
          assert db'.users[j] == db.users[j];
        } else {
          assert db'.users[|db.users|].id == db'.tokens[i].userId;
        }
      }
      forall i | 0 <= i < |db.tokens| ensures db.tokens[i].userId < db.nextId {
        var j :| 0 <= j < |db.users| && db.users[j].id == db.tokens[i].userId;
      }
    }
  }

  lemma ChangePasswordKeepsConsistent(db: UserDb, userId: int, current: string, newPassword: string)
    requires Consistent(db)
    ensures Consistent(ChangePasswordOutcome(db, userId, current, newPassword).1)
  {
    if ChangePasswordOutcome(db, userId, current, newPassword).0 == Status(OK) {
      SameAccountsConsistent(db, SetPassword(db.users, userId, Hashed(newPassword)));
    }
  }

  lemma RequestResetKeepsConsistent(db: UserDb, email: string, token: string, now: int, sendFails: bool)
    requires Consistent(db)
    ensures Consistent(RequestResetOutcome(db, email, token, now, sendFails).1)
  {
  }

  lemma ResetPasswordKeepsConsistent(db: UserDb, token: string, newPassword: string, now: int)
    requires Consistent(db)
    ensures Consistent(ResetPasswordOutcome(db, token, newPassword, now).1)
  {
    var k := FindToken(db.tokens, token, Some(now));
    if k.Some? {
      var id := db.tokens[k.value].userId;
      var users' := SetPassword(db.users, id, Hashed(newPassword));
      SameAccountsConsistent(db, users');
      RemoveTokensConsistent(db.(users := users'), token);
    }
  }

  lemma VerifyEmailKeepsConsistent(db: UserDb, token: string)
    requires Consistent(db)
    ensures Consistent(VerifyEmailOutcome(db, token).1)
  {
    var k := FindToken(db.tokens, token, None);
    if k.Some? {
      var users' := SetVerified(db.users, db.tokens[k.value].userId);
      SameAccountsConsistent(db, users');
      RemoveTokensConsistent(db.(users := users'), token);
    }
  }

  lemma ResendKeepsConsistent(db: UserDb, email: string, token: string, now: int)
    requires Consistent(db)
    ensures Consistent(ResendOutcome(db, email, token, now).1)
  {
    var out := ResendOutcome(db, email, token, now);
    if out.0 == Status(OK) {
      var k := FindUser(db.users, email).value;
      var t := Token(db.users[k].id, token, now + TOKEN_LIFETIME_MS);
      var r := Upsert(db.tokens, t);
      assert HasId(db.users, t.userId);
      UpsertReplaces(db.tokens, t);
      forall k | 0 <= k < |r| ensures HasId(db.users, r[k].userId) {
        if r[k] != t {
          var m :| 0 <= m < |db.tokens| && db.tokens[m] == r[k];
        }
      }
    }
  }

  // ---------------------------------------------------------------------
  // The token lifecycle

  /** An expired token still verifies an email address, but is refused by
      reset-password and verify-token. */
  lemma ExpiredTokenAsymmetry(db: UserDb, token: string, newPassword: string, now: int)
    requires exists i :: 0 <= i < |db.tokens| && db.tokens[i].value == token
    requires forall i :: 0 <= i < |db.tokens| && db.tokens[i].value == token ==> db.tokens[i].expiresAt <= now
    ensures VerifyEmailOutcome(db, token).0 == Status(OK)
    ensures ResetPasswordOutcome(db, token, newPassword, now) == (Status(BAD_REQUEST), db)
    ensures VerifyTokenOutcome(db, token, now) == Status(BAD_REQUEST)
  {
    var i :| 0 <= i < |db.tokens| && db.tokens[i].value == token;
    assert Accepts(db.tokens[i], token, None);
  }

  /** A freshly registered account cannot log in, whatever the password. */
  lemma NewAccountCannotLogIn(db: UserDb, name: string, email: string, password: string,
                              token: string, now: int, attempt: string)
    requires Consistent(db)
    requires RegisterOutcome(db, name, email, password, token, now).0 == Status(CREATED)
    ensures LoginOutcome(RegisterOutcome(db, name, email, password, token, now).1, email, attempt).0
            == Status(FORBIDDEN)
  {
    var db' := RegisterOutcome(db, name, email, password, token, now).1;
    RegisterKeepsConsistent(db, name, email, password, token, now);
    FindUserUnique(db', |db.users|);
  }

  /** Register, follow the verification link, log in with the same
      password: 201, 200, 200 — provided the new token's value is not
      already in the table. */
  lemma RegisterVerifyLogin(db: UserDb, name: string, email: string, password: string, token: string, now: int)
    requires Consistent(db)
    requires FindUser(db.users, email).None?
    requires forall i :: 0 <= i < |db.tokens| ==> db.tokens[i].value != token
    ensures var db1 := RegisterOutcome(db, name, email, password, token, now).1;
            var db2 := VerifyEmailOutcome(db1, token).1;
            && RegisterOutcome(db, name, email, password, token, now).0 == Status(CREATED)
            && VerifyEmailOutcome(db1, token).0 == Status(OK)
            && LoginOutcome(db2, email, password).0 == Status(OK)
  {
    var db1 := RegisterOutcome(db, name, email, password, token, now).1;
    RegisterKeepsConsistent(db, name, email, password, token, now);
    var n := |db.tokens|;
    assert Accepts(db1.tokens[n], token, None);
    assert FindToken(db1.tokens, token, None) == Some(n);
    var db2 := VerifyEmailOutcome(db1, token).1;
    VerifyEmailKeepsConsistent(db1, token);
    var k := |db.users|;
    assert db1.users[k].id == db.nextId;
    assert db2.users[k].data == db1.users[k].data.(verified := true);
    FindUserUnique(db2, k);
  }

  /** A token is good for one use: after verify-email or reset-password
      consumes it, every token route refuses it. */
  lemma TokenSingleUse(db: UserDb, token: string, newPassword: string, now: int, later: int)
    ensures var db' := VerifyEmailOutcome(db, token).1;
            && VerifyEmailOutcome(db', token).0 == Status(BAD_REQUEST)
            && ResetPasswordOutcome(db', token, newPassword, later).0 == Status(BAD_REQUEST)
            && VerifyTokenOutcome(db', token, later) == Status(BAD_REQUEST)
    ensures var db' := ResetPasswordOutcome(db, token, newPassword, now).1;
            ResetPasswordOutcome(db, token, newPassword, now).0 == Status(OK) ==>
              && VerifyEmailOutcome(db', token).0 == Status(BAD_REQUEST)
              && ResetPasswordOutcome(db', token, newPassword, later).0 == Status(BAD_REQUEST)
  {
    var r := RemoveTokens(db.tokens, token);
    assert forall i :: 0 <= i < |r| ==> !Accepts(r[i], token, None);
    assert forall i :: 0 <= i < |r| ==> !Accepts(r[i], token, Some(later));
  }

  /** The token mailed at registration also resets the password — the
      table does not record which flow issued a token — for exactly one
      hour. */
  lemma RegistrationTokenResetsPassword(db: UserDb, name: string, email: string, password: string,
                                        token: string, now: int, later: int, newPassword: string)
    requires FindUser(db.users, email).None?
    requires forall i :: 0 <= i < |db.tokens| ==> db.tokens[i].value != token
    ensures var db1 := RegisterOutcome(db, name, email, password, token, now).1;
            ResetPasswordOutcome(db1, token, newPassword, later).0 == Status(OK)
            <==> later < now + TOKEN_LIFETIME_MS
  {
    var db1 := RegisterOutcome(db, name, email, password, token, now).1;
    var n := |db.tokens|;
    if later < now + TOKEN_LIFETIME_MS {
      assert Accepts(db1.tokens[n], token, Some(later));
    } else {
      forall i | 0 <= i < |db1.tokens| ensures !Accepts(db1.tokens[i], token, Some(later)) {
        if i < n {
          assert db1.tokens[i] == db.tokens[i];
        }
      }
    }
  }

  /** While an account still holds its registration token, asking for a
      password reset fails: the INSERT conflicts with that row. */
  lemma PendingTokenBlocksResetRequest(db: UserDb, name: string, email: string, password: string,
                                       token: string, now: int, resetToken: string, sendFails: bool)
    requires RegisterOutcome(db, name, email, password, token, now).0 == Status(CREATED)
    requires Consistent(db)
    ensures var db1 := RegisterOutcome(db, name, email, password, token, now).1;
            RequestResetOutcome(db1, email, resetToken, now, sendFails) == (Status(SERVER_ERROR), db1)
  {
    var db1 := RegisterOutcome(db, name, email, password, token, now).1;
    RegisterKeepsConsistent(db, name, email, password, token, now);
    FindUserUnique(db1, |db.users|);
    assert db1.tokens[|db.tokens|].userId == db1.users[|db.users|].id;
  }

  /** After a successful password change the new password logs in (the
      account was verified) and the old one no longer does, unless they
      are the same. */
  lemma ChangedPasswordLogsIn(db: UserDb, userId: int, current: string, newPassword: string, i: int)
    requires Consistent(db)
    requires 0 <= i < |db.users| && db.users[i].id == userId && db.users[i].data.verified
    requires ChangePasswordOutcome(db, userId, current, newPassword).0 == Status(OK)
    ensures var db' := ChangePasswordOutcome(db, userId, current, newPassword).1;
            var email := db.users[i].data.email;
            && LoginOutcome(db', email, newPassword).0 == Status(OK)
            && (current != newPassword ==> LoginOutcome(db', email, current).0 == Status(UNAUTHORIZED))
  {
    var db' := ChangePasswordOutcome(db, userId, current, newPassword).1;
    ChangePasswordKeepsConsistent(db, userId, current, newPassword);
    FindUserUnique(db', i);
  }

  /** A successful resend leaves the account exactly one token, the new
      one, and touches no other account's token. */
  lemma ResendLeavesOneToken(db: UserDb, email: string, token: string, now: int)
    requires Consistent(db)
    requires ResendOutcome(db, email, token, now).0 == Status(OK)
    ensures var db' := ResendOutcome(db, email, token, now).1;
            var id := db.users[FindUser(db.users, email).value].id;
            && (forall i :: 0 <= i < |db'.tokens| && db'.tokens[i].userId == id ==>
                  db'.tokens[i] == Token(id, token, now + TOKEN_LIFETIME_MS))
            && (exists i :: 0 <= i < |db'.tokens| && db'.tokens[i].userId == id)
            && (forall i :: 0 <= i < |db.tokens| && db.tokens[i].userId != id ==> db.tokens[i] in db'.tokens)
  {
    var db' := ResendOutcome(db, email, token, now).1;
    var id := db.users[FindUser(db.users, email).value].id;
    var t := Token(id, token, now + TOKEN_LIFETIME_MS);
    var m :| 0 <= m < |db'.tokens| && db'.tokens[m] == t;
    UpsertReplaces(db.tokens, t);
  }

  // ---------------------------------------------------------------------
  // The tables, updated in place

  class UserStore {
    var users: seq<Row<User>>
    var nextId: int
    var tokens: seq<Token>

    function Db(): UserDb
      reads this
    {
      UserDb(users, nextId, tokens)
    }

    predicate Valid()
      reads this
    {
      Consistent(Db())
    }

    constructor ()
      ensures Valid()
      ensures users == [] && nextId == 1 && tokens == []
    {
      users, nextId, tokens := [], 1, [];
    }

    method Register(name: string, email: string, password: string, token: string, now: int)
      returns (r: Reply, mailer: Option<Provider>)
      requires Valid()
      modifies this
      ensures Valid()
      ensures (r, Db()) == RegisterOutcome(old(Db()), name, email, password, token, now)
      ensures mailer == (if r == Status(CREATED) && ProviderFor(email) != Unsupported then Some(ProviderFor(email)) else None)
    {
      RegisterKeepsConsistent(Db(), name, email, password, token, now);
      if FindUser(users, email).Some? {
        return Status(BAD_REQUEST), None;
      }
      var id := nextId;
      users := users + [Row(id, User(name, email, Hashed(password), false, false))];
      nextId := nextId + 1;
      tokens := tokens + [Token(id, token, now + TOKEN_LIFETIME_MS)];
      r := Status(CREATED);
      mailer := if ProviderFor(email) != Unsupported then Some(ProviderFor(email)) else None;
    }

    method Login(email: string, password: string) returns (r: Reply, user: Option<Row<User>>)
      requires Valid()
      ensures (r, user) == LoginOutcome(Db(), email, password)
    {
      var k := FindUser(users, email);
      if k.None? {
        return Status(UNAUTHORIZED), None;
      }
      var u := users[k.value];
      if !u.data.verified {
        return Status(FORBIDDEN), None;
      }
      if !Matches(password, u.data.password) {
        return Status(UNAUTHORIZED), None;
      }
      r, user := Status(OK), Some(u);
    }

    method ChangePassword(userId: int, current: string, newPassword: string) returns (r: Reply)
      requires Valid()
      modifies this
      ensures Valid()
      ensures (r, Db()) == ChangePasswordOutcome(old(Db()), userId, current, newPassword)
    {
      ChangePasswordKeepsConsistent(Db(), userId, current, newPassword);
      var k := Find(users, userId);
      if k.None? {
        return Status(SERVER_ERROR);
      }
      if !Matches(current, users[k.value].data.password) {
        return Status(UNAUTHORIZED);
      }
      users := SetPassword(users, userId, Hashed(newPassword));
      r := Status(OK);
    }

    method RequestPasswordReset(email: string, token: string, now: int, sendFails: bool) returns (r: Reply)
      requires Valid()
      modifies this
      ensures Valid()
      ensures (r, Db()) == RequestResetOutcome(old(Db()), email, token, now, sendFails)
    {
      RequestResetKeepsConsistent(Db(), email, token, now, sendFails);
      var k := FindUser(users, email);
      if k.None? {
        return Status(NOT_FOUND);
      }
      var id := users[k.value].id;
      if TokenOf(tokens, id).Some? {
        return Status(SERVER_ERROR);            // duplicate user_id
      }
      tokens := tokens + [Token(id, token, now + TOKEN_LIFETIME_MS)];
      if sendFails && ProviderFor(email) != Unsupported {
        return Status(SERVER_ERROR);
      }
      r := Status(OK);
    }

    method ResetPassword(token: string, newPassword: string, now: int) returns (r: Reply)
      requires Valid()
      modifies this
      ensures Valid()
      ensures (r, Db()) == ResetPasswordOutcome(old(Db()), token, newPassword, now)
    {
      ResetPasswordKeepsConsistent(Db(), token, newPassword, now);
      var k := FindToken(tokens, token, Some(now));
      if k.None? {
        return Status(BAD_REQUEST);
      }
      var id := tokens[k.value].userId;
      users := SetPassword(users, id, Hashed(newPassword));
      tokens := RemoveTokens(tokens, token);
      r := Status(OK);
    }

    method VerifyEmail(token: string) returns (r: Reply)
      requires Valid()
      modifies this
      ensures Valid()
      ensures (r, Db()) == VerifyEmailOutcome(old(Db()), token)
    {
      VerifyEmailKeepsConsistent(Db(), token);
      var k := FindToken(tokens, token, None);
      if k.None? {
        return Status(BAD_REQUEST);
      }
      var id := tokens[k.value].userId;
      users := SetVerified(users, id);
      tokens := RemoveTokens(tokens, token);
      r := Status(OK);
    }

    method ResendVerification(email: string, token: string, now: int) returns (r: Reply, mailer: Option<Provider>)
      requires Valid()
      modifies this
      ensures Valid()
      ensures (r, Db()) == ResendOutcome(old(Db()), email, token, now)
      ensures mailer == (if r == Status(OK) && ProviderFor(email) != Unsupported then Some(ProviderFor(email)) else None)
    {
      ResendKeepsConsistent(Db(), email, token, now);
      var k := FindUser(users, email);
      if k.None? {
        return Status(NOT_FOUND), None;
      }
      if users[k.value].data.verified {
        return Status(BAD_REQUEST), None;
      }
      tokens := Upsert(tokens, Token(users[k.value].id, token, now + TOKEN_LIFETIME_MS));
      r := Status(OK);
      mailer := if ProviderFor(email) != Unsupported then Some(ProviderFor(email)) else None;
    }

    method VerifyToken(token: string, now: int) returns (r: Reply)
      requires Valid()
      ensures r == VerifyTokenOutcome(Db(), token, now)
    {
      var k := FindToken(tokens, token, Some(now));
      r := if k.Some? then Status(OK) else Status(BAD_REQUEST);
    }
  }
}
