/** Password hashing, token signing and the bearer-token gate
    (`authenticateToken` in routes/user.js and routes/admin.js). bcrypt and
    jsonwebtoken are foreign code: they enter as the function-valued fields
    of `Crypto`, with the secret, the salt rounds and the one-hour expiry
    folded into them. */
module Auth {
  import opened Http

  /** The `id` claim: the user table's six-character code or the admin
      table's serial number. */
  datatype ClaimId = UserCode(code: string) | AdminNumber(number: nat)

  /** The payload `{ email, id }` that both login routes sign. */
  datatype Claims = Claims(email: string, id: ClaimId)

  /** The foreign calls: `bcrypt.hash(p, 10)`, `bcrypt.compare(p, h)`,
      `jwt.sign(claims, secret, { expiresIn: '1h' })` and
      `jwt.verify(token, secret)` (None when it reports an error). */
  datatype Crypto = Crypto(
    hash: string -> string,
    compare: (string, string) -> bool,
    sign: Claims -> string,
    verify: string -> Option<Claims>)

  /** What the libraries promise when used as the routes use them: a
      password matches its own hash, a token just signed verifies to the
      claims it carries, and a signed token (base64url pieces joined by dots)
      is non-empty and holds no space. */
  ghost predicate Sound(c: Crypto) {
    && (forall p :: c.compare(p, c.hash(p)))
    && (forall cl :: c.verify(c.sign(cl)) == Some(cl))
    && (forall cl :: c.sign(cl) != "" && ' ' !in c.sign(cl))
  }

  /** JavaScript's `s.split(sep)` for a one-character separator. */
  function Split(s: string, sep: char): (r: seq<string>)
    ensures |r| >= 1
    ensures forall i :: 0 <= i < |r| ==> sep !in r[i]
    ensures sep !in s ==> r == [s]
  {
    if s == [] then [""]
    else if s[0] == sep then [""] + Split(s[1..], sep)
    else
      var rest := Split(s[1..], sep);
      assert sep !in s ==> sep !in s[1..] && rest == [s[1..]] && [s[0]] + s[1..] == s;
      [[s[0]] + rest[0]] + rest[1..]
  }

  /** `parts.join(sep)`, the inverse of Split. */
  function Join(parts: seq<string>, sep: char): string
    requires |parts| >= 1
  {
    if |parts| == 1 then parts[0] else parts[0] + [sep] + Join(parts[1..], sep)
  }

  lemma {:induction false} SplitThenJoin(s: string, sep: char)
    ensures Join(Split(s, sep), sep) == s
  {
    if s != [] {
      SplitThenJoin(s[1..], sep);
      var rest := Split(s[1..], sep);
      if s[0] != sep && |rest| > 1 {
        assert Join(Split(s, sep), sep) == [s[0]] + rest[0] + [sep] + Join(rest[1..], sep);
      }
    }
  }

  /** Splitting at the first separator: the piece before it, then the split
      of what follows. */
  lemma {:induction false} SplitAtSeparator(a: string, sep: char, b: string)
    requires sep !in a
    ensures Split(a + [sep] + b, sep) == [a] + Split(b, sep)
  {
    if a != [] {
      var s := a + [sep] + b;
      assert s[0] == a[0] != sep;
      assert s[1..] == a[1..] + [sep] + b;
      SplitAtSeparator(a[1..], sep, b);
      var rest := Split(s[1..], sep);
      assert rest == [a[1..]] + Split(b, sep);
      assert Split(s, sep) == [[a[0]] + a[1..]] + Split(b, sep);
      assert [a[0]] + a[1..] == a;
    } else {
      assert a + [sep] + b == [sep] + b;
    }
  }

  lemma {:induction false} JoinThenSplit(parts: seq<string>, sep: char)
    requires |parts| >= 1
    requires forall i :: 0 <= i < |parts| ==> sep !in parts[i]
    ensures Split(Join(parts, sep), sep) == parts
  {
    if |parts| > 1 {
      JoinThenSplit(parts[1..], sep);
      SplitAtSeparator(parts[0], sep, Join(parts[1..], sep));
    }
  }

  /** The first two pieces of a join, and what follows them. */
  lemma JoinFirstTwo(parts: seq<string>, sep: char)
    requires |parts| >= 2
    ensures Join(parts, sep) == parts[0] + [sep] + parts[1] + (if |parts| == 2 then [] else [sep] + Join(parts[2..], sep))
  {
    assert parts[1..][0] == parts[1] && parts[1..][1..] == parts[2..];
  }

  /** `header` reads `<scheme> <token><rest>`: a scheme word without a space,
      one space, the token, and either the end or a space and anything. */
  predicate HeaderShape(header: string, scheme: string, token: string, rest: string) {
    && ' ' !in scheme && (rest == [] || rest[0] == ' ')
    && header == scheme + " " + token + rest
  }

  /** A string with at least two pieces is the first, a space, the second,
      and a rest that is empty or starts with a space. */
  lemma SecondWord(s: string)
    requires |Split(s, ' ')| >= 2
    ensures exists scheme, rest :: HeaderShape(s, scheme, Split(s, ' ')[1], rest)
  {
    var words := Split(s, ' ');
    var rest: string := if |words| == 2 then [] else [' '] + Join(words[2..], ' ');
    SplitThenJoin(s, ' ');
    JoinFirstTwo(words, ' ');
    assert ' ' !in words[0];
    assert HeaderShape(s, words[0], words[1], rest);
  }

  /** `const token = authHeader && authHeader.split(' ')[1]`, followed by
      the `if (!token)` test: the second space-separated word of the
      Authorization header, when there is one and it is not empty. A found
      token is the word between the first space and the next space or the
      end of the header. */
  function BearerToken(header: Option<string>): (r: Option<string>)
    ensures r.Some? ==> header.Some? && r.value != "" && ' ' !in r.value
    ensures r.Some? ==> exists scheme, rest :: HeaderShape(header.value, scheme, r.value, rest)
  {
    if header.None? || header.value == "" then None
    else
      var words := Split(header.value, ' ');
      if |words| < 2 || words[1] == "" then None
      else
        SecondWord(header.value);
        Some(words[1])
  }

  /** The converse: a header `<scheme> <token>`, optionally followed by a
      space and anything else, yields the token, whatever the scheme word
      (the gate does not look at it). */
  lemma {:induction false} BearerTokenOfHeader(header: string, scheme: string, token: string, rest: string)
    requires HeaderShape(header, scheme, token, rest) && ' ' !in token && token != ""
    ensures BearerToken(Some(header)) == Some(token)
  {
    assert scheme + " " + token + rest == scheme + [' '] + (token + rest);
    SplitAtSeparator(scheme, ' ', token + rest);
    if rest == [] {
      assert token + rest == token;
    } else {
      assert token + rest == token + [' '] + rest[1..];
      SplitAtSeparator(token, ' ', rest[1..]);
    }
  }

  /** The outcome of the gate: no token (401), a token the verifier rejects
      (403), or the verified claims, which are attached to the request. */
  datatype Gate = Missing | Rejected | Accepted(claims: Claims)

  function Authenticate(header: Option<string>, verify: string -> Option<Claims>): (g: Gate)
    ensures g.Missing? <==> BearerToken(header).None?
    ensures g.Rejected? <==> BearerToken(header).Some? && verify(BearerToken(header).value).None?
    ensures g.Accepted? ==> BearerToken(header).Some? && verify(BearerToken(header).value) == Some(g.claims)
  {
    match BearerToken(header)
    case None => Missing
    case Some(token) =>
      match verify(token)
      case None => Rejected
      case Some(claims) => Accepted(claims)
  }

  /** The response the gate sends instead of calling the handler. */
  function Refusal<T>(g: Gate): (r: Response<T>)
    requires !g.Accepted?
    ensures r.status == (if g.Missing? then UNAUTHORIZED else FORBIDDEN)
  {
    if g.Missing? then Failure(UNAUTHORIZED, "Token missing") else Failure(FORBIDDEN, "Invalid token")
  }

  /** A token fresh from `sign`, sent as `Bearer <token>`, passes the gate
      with exactly the claims it was signed with. */
  lemma SignedTokenPasses(c: Crypto, claims: Claims)
    requires Sound(c)
    ensures Authenticate(Some("Bearer " + c.sign(claims)), c.verify) == Accepted(claims)
  {
    var token := c.sign(claims);
    assert token != "" && ' ' !in token;
    assert "Bearer " + token == "Bearer" + " " + token + "";
    BearerTokenOfHeader("Bearer " + token, "Bearer", token, "");
    assert c.verify(token) == Some(claims);
  }
}
