/** The authentication and role middleware.

    Authentication reads the `Authorization` header, requires the `Bearer `
    prefix, takes the second space-separated segment as the token, verifies it
    and attaches `{userId: sub, role}` to the request. The role middleware
    admits a request only if an identity is attached and its role is in the
    route's allow-list. */
module AuthGate {
  import opened Http
  import opened Models
  import opened Tokens

  const Bearer: string := "Bearer "

  /** The segments of `s` between single spaces, as JavaScript's `split(' ')`
      returns them: empty segments are kept. */
  function Split(s: string): (parts: seq<string>)
    ensures |parts| >= 1
    ensures forall k :: 0 <= k < |parts| ==> ' ' !in parts[k]
  {
    if |s| == 0 then [""]
    else if s[0] == ' ' then [""] + Split(s[1..])
    else
      var rest := Split(s[1..]);
      [[s[0]] + rest[0]] + rest[1..]
  }

  /** Segments glued back with single spaces. */
  function Join(parts: seq<string>): string
    requires |parts| >= 1
  {
    if |parts| == 1 then parts[0] else parts[0] + " " + Join(parts[1..])
  }

  lemma {:induction false} JoinSplit(s: string)
    ensures Join(Split(s)) == s
  {
    if |s| == 0 {
    } else if s[0] == ' ' {
      JoinSplit(s[1..]);
      assert s == " " + s[1..];
    } else {
      var rest := Split(s[1..]);
      JoinSplit(s[1..]);
      if |rest| == 1 {
        assert s == [s[0]] + s[1..];
      } else {
        assert Join(rest) == rest[0] + " " + Join(rest[1..]);
        assert ([[s[0]] + rest[0]] + rest[1..])[1..] == rest[1..];
        assert s == [s[0]] + s[1..];
      }
    }
  }

  /** A word without spaces followed by a space is one segment, and the
      segments of the rest follow it. */
  lemma {:induction false} SplitAfterWord(a: string, b: string)
    requires ' ' !in a
    ensures Split(a + " " + b) == [a] + Split(b)
  {
    if |a| == 0 {
      assert a + " " + b == " " + b;
      assert (" " + b)[1..] == b;
    } else {
      assert (a + " " + b)[1..] == a[1..] + " " + b;
      SplitAfterWord(a[1..], b);
      assert [a[0]] + a[1..] == a;
    }
  }

  lemma {:induction false} SplitOfWord(a: string)
    requires ' ' !in a
    ensures Split(a) == [a]
  {
    if |a| > 0 {
      SplitOfWord(a[1..]);
      assert [a[0]] + a[1..] == a;
    }
  }

  /** Splitting undoes joining for segments without spaces. */
  lemma {:induction false} SplitJoin(parts: seq<string>)
    requires |parts| >= 1
    requires forall k :: 0 <= k < |parts| ==> ' ' !in parts[k]
    ensures Split(Join(parts)) == parts
  {
    if |parts| == 1 {
      SplitOfWord(parts[0]);
    } else {
      SplitJoin(parts[1..]);
      SplitAfterWord(parts[0], Join(parts[1..]));
      assert [parts[0]] + parts[1..] == parts;
    }
  }

  predicate HasBearerPrefix(h: string) {
    |h| >= |Bearer| && h[..|Bearer|] == Bearer
  }

  /** The token the header carries: the second segment of a `Bearer ` header. */
  function BearerToken(header: Option<string>): (r: Option<string>)
    ensures r.Some? <==> header.Some? && HasBearerPrefix(header.value)
    ensures r.Some? ==> ' ' !in r.value
  {
    if header.None? || !HasBearerPrefix(header.value) then None
    else
      var h := header.value;
      assert h == "Bearer" + " " + h[|Bearer|..];
      SplitAfterWord("Bearer", h[|Bearer|..]);
      Some(Split(h)[1])
  }

  /** The header a client sends for a token is parsed back to that token. */
  lemma BearerRoundTrip(token: string)
    requires ' ' !in token
    ensures BearerToken(Some(Bearer + token)) == Some(token)
  {
    assert Bearer + token == Join(["Bearer", token]);
    SplitJoin(["Bearer", token]);
  }

  /** A `Bearer ` header whose text after the prefix is empty or starts with
      another space carries an empty token. */
  lemma EmptyTokenSegment(rest: string)
    requires rest == "" || rest[0] == ' '
    ensures BearerToken(Some(Bearer + rest)) == Some("")
  {
    var h := Bearer + rest;
    assert h == "Bearer" + " " + rest;
    SplitAfterWord("Bearer", rest);
    if rest != "" {
      assert rest == "" + " " + rest[1..];
      SplitAfterWord("", rest[1..]);
    }
  }

  /** The authentication middleware. */
  function Authenticate(header: Option<string>, verify: string -> Option<Claims>): (r: Reply<Identity>)
    ensures BearerToken(header).None? ==> r == Fail(Unauthorized("Unauthorized"))
    ensures BearerToken(header) == Some("") ==> r == Fail(Unauthorized("Unauthorized"))
    ensures r.Fail? ==> r.failure == Unauthorized("Unauthorized") || r.failure == Unauthorized("Invalid token")
    ensures BearerToken(header).Some? && BearerToken(header).value != "" && verify(BearerToken(header).value).None? ==>
              r == Fail(Unauthorized("Invalid token"))
    ensures r.Ok? <==> BearerToken(header).Some? && BearerToken(header).value != ""
                       && verify(BearerToken(header).value).Some?
    ensures r.Ok? ==> verify(BearerToken(header).value) == Some(Claims(r.value.userId, r.value.role))
  {
    match BearerToken(header)
    case None => Fail(Unauthorized("Unauthorized"))
    case Some(token) =>
      if token == "" then Fail(Unauthorized("Unauthorized"))
      else
        match verify(token)
        case None => Fail(Unauthorized("Invalid token"))
        case Some(payload) => Ok(Identity(payload.sub, payload.role))
  }

  /** The header a client builds from a token the server signed authenticates
      as exactly the identity the token was signed over. */
  lemma IssuedTokenAuthenticates(c: Crypto, cl: Claims)
    requires Coherent(c)
    ensures Authenticate(Some(Bearer + c.sign(cl)), c.verify) == Ok(Identity(cl.sub, cl.role))
  {
    BearerRoundTrip(c.sign(cl));
  }

  /** The role middleware. */
  function RequireRole(user: Option<Identity>, roles: seq<Role>): (r: Reply<()>)
    ensures r.Ok? <==> user.Some? && user.value.role in roles
    ensures r.Fail? ==> r.failure == Forbidden
  {
    if user.None? || user.value.role !in roles then Fail(Forbidden) else Ok(())
  }
}
