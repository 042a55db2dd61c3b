/** The credential endpoints of server/src/routes/auth.js: email normalisation and the
    email-shape test, POST /register (which inserts a user row) and POST /login (which only
    reads). The users table is a map from the (normalised, unique) email to its row;
    bcrypt's hash and compare and jsonwebtoken's sign are the parameters `hash`, `compare`
    and `sign`. `secretSet` says whether JWT_SECRET is configured, `storeUp` whether the
    database answers; `now` and `nowSec` are the clock in milliseconds and seconds. */
module AuthRoutes {
  import opened Wrappers
  import opened Strings
  import opened Api

  // ---------------------------------------------------------------------------------
  // normalizeEmail and isValidEmail

  /** normalizeEmail: `String(email || "").trim().toLowerCase()`. */
  function NormalizeEmail(raw: Option<string>): (r: string)
    ensures NoEdgeWhitespace(r)
    ensures HasNoUpperAscii(r)
    ensures |r| <= |raw.GetOr("")|
    ensures |r| == |Trim(raw.GetOr(""))|
    ensures forall k :: 0 <= k < |r| ==> r[k] == LowerChar(Trim(raw.GetOr(""))[k])
  {
    var t := Trim(raw.GetOr(""));
    ToLowerStable(t);
    ToLower(t)
  }

  /** Normalising twice is normalising once. */
  lemma NormalizeEmailIdempotent(raw: Option<string>)
    ensures NormalizeEmail(Some(NormalizeEmail(raw))) == NormalizeEmail(raw)
  {
    var n := NormalizeEmail(raw);
    TrimFixed(n);
    ToLowerStable(Trim(raw.GetOr("")));
  }

  /** What normalizeEmail leaves unchanged: no white space at the edges, no upper-case
      ASCII letter. */
  predicate IsNormalised(e: string) {
    NoEdgeWhitespace(e) && HasNoUpperAscii(e)
  }

  /** The normalised addresses are exactly the fixed points of normalizeEmail. */
  lemma NormalisedIsFixed(e: string)
    ensures IsNormalised(e) <==> NormalizeEmail(Some(e)) == e
  {
    if IsNormalised(e) {
      TrimFixed(e);
      assert ToLower(e) == e;
    }
  }

  /** Any surrounding white space and any ASCII casing of a normalised address normalise
      back to that address. */
  lemma NormalizeEmailOfVariant(pre: string, v: string, post: string, e: string)
    requires AllWhitespace(pre) && AllWhitespace(post)
    requires NormalizeEmail(Some(e)) == e && ToLower(v) == e
    ensures NormalizeEmail(Some(pre + v + post)) == e
  {
    NoEdgeWhitespaceOfLowered(v, e);
    TrimSurrounded(pre, v, post);
    var s := pre + v + post;
    assert Trim(Some(s).GetOr("")) == v;
    assert NormalizeEmail(Some(s)) == ToLower(v);
  }

  /** Lower-casing neither adds nor removes white space at the edges. */
  lemma NoEdgeWhitespaceOfLowered(v: string, e: string)
    requires NoEdgeWhitespace(e) && ToLower(v) == e
    ensures NoEdgeWhitespace(v)
  {
    if v != [] {
      assert e[0] == LowerChar(v[0]) && e[|e| - 1] == LowerChar(v[|v| - 1]);
    }
  }

  /** A character of the class `[^\s@]`. */
  predicate IsEmailChar(c: char) {
    c != '@' && !IsJsWhitespace(c)
  }

  predicate NoWhitespace(s: string) {
    forall i :: 0 <= i < |s| ==> !IsJsWhitespace(s[i])
  }

  /** The regular expression `^[^\s@]+@[^\s@]+\.[^\s@]+$`: an `@` at `at` and a `.` at `dot`
      with at least one character before the `@`, between the two, and after the `.`, and
      every character other than that `@` drawn from `[^\s@]` (the `.` is one of them). */
  ghost predicate MatchesEmailPattern(s: string) {
    exists at, dot :: EmailPatternAt(s, at, dot)
  }

  ghost predicate EmailPatternAt(s: string, at: int, dot: int) {
    && 0 < at && at + 1 < dot && dot + 1 < |s| && s[at] == '@' && s[dot] == '.'
    && forall i :: 0 <= i < |s| && i != at ==> IsEmailChar(s[i])
  }

  /** The domain part `[^\s@]+\.[^\s@]+`, given that it holds no `@` and no white space. */
  predicate DomainHasInnerDot(d: string) {
    |d| >= 3 && '.' in d[1..|d| - 1]
  }

  /** isValidEmail: exactly one `@`, no white space, something before the `@`, and after it
      a `.` with something on both sides. */
  predicate IsValidEmail(s: string)
    ensures IsValidEmail(s) ==> Count(s, '@') == 1 && NoWhitespace(s)
  {
    var parts := Split(s, '@');
    |parts| == 2 && NoWhitespace(s) && parts[0] != "" && DomainHasInnerDot(parts[1])
  }

  lemma ValidEmailHasPattern(s: string)
    requires IsValidEmail(s)
    ensures MatchesEmailPattern(s)
  {
    var parts := Split(s, '@');
    var l, d := parts[0], parts[1];
    SplitInTwo(s, '@');
    var k :| 0 <= k < |d[1..|d| - 1]| && d[1..|d| - 1][k] == '.';
    var at, dot := |l|, |l| + 2 + k;
    assert s[dot] == d[k + 1];
    forall i | 0 <= i < |s| && i != at ensures IsEmailChar(s[i]) {
      if i < at {
        assert s[i] == l[i];
      } else {
        assert s[i] == d[i - at - 1];
      }
    }
    assert EmailPatternAt(s, at, dot);
  }

  lemma PatternIsValidEmail(s: string, at: int, dot: int)
    requires EmailPatternAt(s, at, dot)
    ensures IsValidEmail(s)
  {
    var l, d := s[..at], s[at + 1..];
    assert '@' !in l by {
      forall i | 0 <= i < |l| ensures l[i] != '@' { assert l[i] == s[i]; }
    }
    assert '@' !in d by {
      forall i | 0 <= i < |d| ensures d[i] != '@' { assert d[i] == s[at + 1 + i]; }
    }
    assert s == l + "@" + d;
    assert Join([l, d], '@') == s by {
      assert [l, d][1..] == [d];
    }
    JoinThenSplit([l, d], '@');
    assert d[1..|d| - 1][dot - at - 2] == '.';
  }

  /** isValidEmail accepts exactly the strings the regular expression matches. */
  lemma IsValidEmailMatchesPattern(s: string)
    ensures IsValidEmail(s) <==> MatchesEmailPattern(s)
  {
    if IsValidEmail(s) {
      ValidEmailHasPattern(s);
    }
    if MatchesEmailPattern(s) {
      var at, dot :| EmailPatternAt(s, at, dot);
      PatternIsValidEmail(s, at, dot);
    }
  }

  // ---------------------------------------------------------------------------------
  // Rows, answers, and the validation chain of register

  /** A row of the users table. */
  datatype UserRow = UserRow(id: int, name: Option<string>, email: string,
                             passwordHash: string, createdAt: int)

  /** The `user` object of an answer: never the password hash. Register returns the
      row's `created_at`, login does not. */
  datatype PublicUser = PublicUser(id: int, name: Option<string>, email: string,
                                   createdAt: Option<int>)

  /** An endpoint's answer: an error reply, or the user and the token signed from `claims`. */
  datatype AuthAnswer =
    | Refused(reply: Reply)
    | Issued(status: int, user: PublicUser, claims: Claims, token: string)

  /** The request body; each field None when absent (null or undefined). */
  datatype Credentials = Credentials(name: Option<string>, email: Option<string>,
                                     password: Option<string>)

  const MissingFieldsMessage: string := "Email and password are required."
  const BadEmailMessage: string := "Invalid email format."
  const ShortPasswordMessage: string := "Password must be at least 8 characters."
  const NoSecretMessage: string := "JWT_SECRET is not configured."
  const EmailTakenMessage: string := "Email is already registered."
  const RegisterErrorMessage: string := "Server error during registration."
  const InvalidCredentialsMessage: string := "Invalid credentials."
  const LoginErrorMessage: string := "Server error during login."
  const MinPasswordLength: nat := 8

  /** `String(password || "")`. */
  function PasswordOf(raw: Option<string>): string {
    raw.GetOr("")
  }

  /** `String(name || "").trim()`, then `name || null` for the insert. */
  function NameOf(raw: Option<string>): (r: Option<string>)
    ensures r.None? <==> Trim(raw.GetOr("")) == ""
    ensures r.Some? ==> r.value == Trim(raw.GetOr("")) && NoEdgeWhitespace(r.value)
  {
    var n := Trim(raw.GetOr(""));
    if n == "" then None else Some(n)
  }

  /** The checks register makes before touching the table, in order: both fields present,
      the email's shape, the password's length (400 each), then the signing secret (500). */
  function RegisterPrecheck(email: string, password: string, secretSet: bool): (r: Option<Reply>)
    ensures r.None? <==> email != "" && password != "" && IsValidEmail(email)
                         && |password| >= MinPasswordLength && secretSet
    ensures r.Some? ==> r.value.status == 400 || r.value.status == 500
    ensures r.Some? && r.value.status == 500 <==>
              email != "" && password != "" && IsValidEmail(email)
              && |password| >= MinPasswordLength && !secretSet
    ensures (email == "" || password == "") ==> r == Some(Reply(400, MissingFieldsMessage))
    ensures email != "" && password != "" && !IsValidEmail(email) ==>
              r == Some(Reply(400, BadEmailMessage))
    ensures email != "" && password != "" && IsValidEmail(email) && |password| < MinPasswordLength ==>
              r == Some(Reply(400, ShortPasswordMessage))
    ensures (email != "" && password != "" && IsValidEmail(email)
             && |password| >= MinPasswordLength && !secretSet) ==>
              r == Some(Reply(500, NoSecretMessage))
  {
    if email == "" || password == "" then Some(Reply(400, MissingFieldsMessage))
    else if !IsValidEmail(email) then Some(Reply(400, BadEmailMessage))
    else if |password| < MinPasswordLength then Some(Reply(400, ShortPasswordMessage))
    else if !secretSet then Some(Reply(500, NoSecretMessage))
    else None
  }

  /** A request refused for its content is refused the same way whatever the server's
      configuration: validation comes before the secret check. */
  lemma ValidationBeforeConfiguration(email: string, password: string)
    requires RegisterPrecheck(email, password, true).Some?
    ensures RegisterPrecheck(email, password, false) == RegisterPrecheck(email, password, true)
    ensures RegisterPrecheck(email, password, true).value.status == 400
  {
  }

  // ---------------------------------------------------------------------------------
  // POST /login

  /** POST /login: 400 on a missing field, 500 without a secret or a store, the same 401
      for an unknown email and for a wrong password, otherwise 200 with the row's public
      fields and a token signed over its id and email. */
  function Login(rows: map<string, UserRow>, body: Credentials, secretSet: bool, storeUp: bool,
                 compare: (string, string) -> bool, sign: Claims -> string, nowSec: int)
    : (r: AuthAnswer)
    ensures var email := NormalizeEmail(body.email);
            var password := PasswordOf(body.password);
            && (r.Issued? <==> email != "" && password != "" && secretSet && storeUp
                               && email in rows && compare(password, rows[email].passwordHash))
            && (r.Issued? ==>
                  && r.status == 200
                  && r.user == PublicUser(rows[email].id, rows[email].name, rows[email].email, None)
                  && r.claims == IssueClaims(rows[email].id, rows[email].email, nowSec)
                  && r.claims.sub == r.user.id && r.claims.email == r.user.email
                  && r.token == sign(r.claims))
            && (r.Refused? && r.reply.status == 401 <==>
                  email != "" && password != "" && secretSet && storeUp
                  && (email !in rows || !compare(password, rows[email].passwordHash)))
            && (r.Refused? && r.reply.status == 401 ==> r.reply.message == InvalidCredentialsMessage)
            && (r.Refused? && r.reply.status == 400 <==> email == "" || password == "")
            && (email == "" || password == "" ==> r == Refused(Reply(400, MissingFieldsMessage)))
            && (email != "" && password != "" && !secretSet ==>
                  r == Refused(Reply(500, NoSecretMessage)))
            && (email != "" && password != "" && secretSet && !storeUp ==>
                  r == Refused(Reply(500, LoginErrorMessage)))
  {
    var email := NormalizeEmail(body.email);
    var password := PasswordOf(body.password);
    if email == "" || password == "" then Refused(Reply(400, MissingFieldsMessage))
    else if !secretSet then Refused(Reply(500, NoSecretMessage))
    else if !storeUp then Refused(Reply(500, LoginErrorMessage))
    else if email !in rows then Refused(Reply(401, InvalidCredentialsMessage))
    else
      var row := rows[email];
      if !compare(password, row.passwordHash) then Refused(Reply(401, InvalidCredentialsMessage))
      else
        var claims := IssueClaims(row.id, row.email, nowSec);
        Issued(200, PublicUser(row.id, row.name, row.email, None), claims, sign(claims))
  }

  /** An unknown email and a wrong password give identical answers: no account enumeration. */
  lemma LoginDoesNotEnumerate(rows: map<string, UserRow>, unknown: Credentials, wrong: Credentials,
                              compare: (string, string) -> bool, sign: Claims -> string, nowSec: int)
    requires NormalizeEmail(unknown.email) != "" && PasswordOf(unknown.password) != ""
    requires NormalizeEmail(unknown.email) !in rows
    requires NormalizeEmail(wrong.email) != "" && NormalizeEmail(wrong.email) in rows
    requires PasswordOf(wrong.password) != ""
    requires !compare(PasswordOf(wrong.password), rows[NormalizeEmail(wrong.email)].passwordHash)
    ensures Login(rows, unknown, true, true, compare, sign, nowSec)
            == Login(rows, wrong, true, true, compare, sign, nowSec)
            == Refused(Reply(401, InvalidCredentialsMessage))
  {
    var a := Login(rows, unknown, true, true, compare, sign, nowSec);
    var b := Login(rows, wrong, true, true, compare, sign, nowSec);
    assert a == Refused(Reply(401, InvalidCredentialsMessage));
    assert b == Refused(Reply(401, InvalidCredentialsMessage));
  }

  /** After a row is stored, logging in with any body whose email normalises to the row's
      address, and the password the hash was made from, succeeds, and the token names that
      row. */
  lemma LoginFindsStoredRow(rows: map<string, UserRow>, row: UserRow, body: Credentials,
                            hash: string -> string, compare: (string, string) -> bool,
                            sign: Claims -> string, nowSec: int)
    requires NormalizeEmail(body.email) == row.email != ""
    requires PasswordOf(body.password) != ""
    requires row.passwordHash == hash(PasswordOf(body.password))
    requires compare(PasswordOf(body.password), hash(PasswordOf(body.password)))
    ensures var r := Login(rows[row.email := row], body, true, true, compare, sign, nowSec);
            r.Issued? && r.user.id == row.id && r.claims.sub == row.id && r.claims.email == row.email
  {
  }

  /** The stored address in any ASCII casing, with any surrounding white space, logs in. */
  lemma LoginWithAnyCaseOrPadding(rows: map<string, UserRow>, row: UserRow, name: Option<string>,
                                  pre: string, v: string, post: string, password: string,
                                  hash: string -> string, compare: (string, string) -> bool,
                                  sign: Claims -> string, nowSec: int)
    requires NormalizeEmail(Some(row.email)) == row.email != ""
    requires AllWhitespace(pre) && AllWhitespace(post) && ToLower(v) == row.email
    requires password != "" && row.passwordHash == hash(password) && compare(password, hash(password))
    ensures var r := Login(rows[row.email := row], Credentials(name, Some(pre + v + post), Some(password)),
                           true, true, compare, sign, nowSec);
            r.Issued? && r.user.id == row.id && r.claims.sub == row.id && r.claims.email == row.email
  {
    NormalizeEmailOfVariant(pre, v, post, row.email);
    LoginFindsStoredRow(rows, row, Credentials(name, Some(pre + v + post), Some(password)),
                        hash, compare, sign, nowSec);
  }

  // ---------------------------------------------------------------------------------
  // POST /register, inserting into the users table

  /** The users table keeps every row under its own email, which is normalised and well
      formed (so the UNIQUE email column is the map's key), and the ids are distinct, all
      below the next one the sequence hands out. */
  ghost predicate TableInv(rows: map<string, UserRow>, nextId: int) {
    && (forall e | e in rows :: StoredUnder(rows[e], e, nextId))
    && (forall e1, e2 | e1 in rows && e2 in rows && e1 != e2 :: rows[e1].id != rows[e2].id)
  }

  /** A row as it may be stored under key `e`. */
  ghost predicate StoredUnder(row: UserRow, e: string, nextId: int) {
    row.email == e && IsValidEmail(e) && IsNormalised(e) && row.id < nextId
  }

  /** Inserting a row for a new, accepted address with the next id keeps the invariant. */
  lemma InsertKeepsTableInv(rows: map<string, UserRow>, nextId: int, row: UserRow)
    requires TableInv(rows, nextId)
    requires row.email !in rows && row.id == nextId
    requires IsValidEmail(row.email) && IsNormalised(row.email)
    ensures TableInv(rows[row.email := row], nextId + 1)
  {
    InsertKeepsKeys(rows, nextId, row);
    InsertKeepsIdsDistinct(rows, nextId, row);
  }

  lemma InsertKeepsKeys(rows: map<string, UserRow>, nextId: int, row: UserRow)
    requires forall e | e in rows :: StoredUnder(rows[e], e, nextId)
    requires StoredUnder(row, row.email, nextId + 1)
    ensures var rows' := rows[row.email := row];
            forall e | e in rows' :: StoredUnder(rows'[e], e, nextId + 1)
  {
    var rows' := rows[row.email := row];
    forall e | e in rows' ensures StoredUnder(rows'[e], e, nextId + 1) {
      if e != row.email {
        assert rows'[e] == rows[e] && StoredUnder(rows[e], e, nextId);
      }
    }
  }

  lemma InsertKeepsIdsDistinct(rows: map<string, UserRow>, nextId: int, row: UserRow)
    requires forall e | e in rows :: rows[e].id < nextId
    requires forall e1, e2 | e1 in rows && e2 in rows && e1 != e2 :: rows[e1].id != rows[e2].id
    requires row.id == nextId
    ensures var rows' := rows[row.email := row];
            forall e1, e2 | e1 in rows' && e2 in rows' && e1 != e2 :: rows'[e1].id != rows'[e2].id
  {
    var rows' := rows[row.email := row];
    forall e1, e2 | e1 in rows' && e2 in rows' && e1 != e2 ensures rows'[e1].id != rows'[e2].id {
      if e1 == row.email {
        assert rows'[e2] == rows[e2];
      } else if e2 == row.email {
        assert rows'[e1] == rows[e1];
      }
    }
  }

  class UserTable {
    var rows: map<string, UserRow>
    /** The next value of the `id` sequence. */
    var nextId: int

    ghost predicate Valid()
      reads this
    {
      TableInv(rows, nextId)
    }

    constructor ()
      ensures Valid() && rows == map[] && nextId == 1
    {
      rows := map[];
      nextId := 1;
    }

    /** POST /register. */
    method Register(body: Credentials, secretSet: bool, storeUp: bool, hash: string -> string,
                    sign: Claims -> string, now: int, nowSec: int) returns (r: AuthAnswer)
      requires Valid()
      modifies this
      ensures Valid()
      ensures var email := NormalizeEmail(body.email);
              var password := PasswordOf(body.password);
              var check := RegisterPrecheck(email, password, secretSet);
              && (r.Issued? <==> check.None? && storeUp && email !in old(rows))
              && (r.Issued? ==>
                    var row := UserRow(old(nextId), NameOf(body.name), email, hash(password), now);
                    && rows == old(rows)[email := row] && nextId == old(nextId) + 1
                    && r.status == 201
                    && r.user == PublicUser(row.id, row.name, row.email, Some(now))
                    && r.claims == IssueClaims(row.id, email, nowSec)
                    && r.token == sign(r.claims))
              && (r.Refused? ==> rows == old(rows) && nextId == old(nextId))
              && (r.Refused? ==>
                    r.reply == if check.Some? then check.value
                               else if !storeUp then Reply(500, RegisterErrorMessage)
                               else Reply(409, EmailTakenMessage))
    {
      var name := NameOf(body.name);
      var email := NormalizeEmail(body.email);
      var password := PasswordOf(body.password);
      var check := RegisterPrecheck(email, password, secretSet);
      if check.Some? {
        return Refused(check.value);
      }
      if !storeUp {
        return Refused(Reply(500, RegisterErrorMessage));
      }
      if email in rows {
        return Refused(Reply(409, EmailTakenMessage));
      }
      var passwordHash := hash(password);
      var row := UserRow(nextId, name, email, passwordHash, now);
      InsertKeepsTableInv(rows, nextId, row);
      rows := rows[email := row];
      nextId := nextId + 1;
      var claims := IssueClaims(row.id, row.email, nowSec);
      return Issued(201, PublicUser(row.id, row.name, row.email, Some(row.createdAt)), claims,
                    sign(claims));
    }
  }
}
