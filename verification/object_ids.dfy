/** System identifiers. Every stored record carries a 12-byte database id
    whose text form is 24 hexadecimal digits. When a request supplies such an
    id as text (a path parameter, a body field, a token subject), the database
    layer casts it: 24 hex digits in either case are accepted and denote the id
    whose canonical text is the lower-case spelling; any other text makes the
    cast throw. */
module ObjectIds {
  import opened Http

  predicate IsHexDigit(c: char) {
    '0' <= c <= '9' || 'a' <= c <= 'f' || 'A' <= c <= 'F'
  }

  predicate IsLowerHexDigit(c: char) {
    '0' <= c <= '9' || 'a' <= c <= 'f'
  }

  /** Text the cast accepts. */
  predicate IsIdText(s: string) {
    |s| == 24 && forall i :: 0 <= i < |s| ==> IsHexDigit(s[i])
  }

  /** Text an id is printed as. */
  predicate IsCanonical(s: string) {
    |s| == 24 && forall i :: 0 <= i < |s| ==> IsLowerHexDigit(s[i])
  }

  function LowerDigit(c: char): char {
    if 'A' <= c <= 'F' then (c as int - 'A' as int + 'a' as int) as char else c
  }

  /** Casting request text to an id, answered by the id's canonical text. */
  function Cast(s: string): (r: Option<string>)
    ensures r.Some? <==> IsIdText(s)
    ensures r.Some? ==> IsCanonical(r.value)
    ensures IsCanonical(s) ==> r == Some(s)
  {
    if IsIdText(s) then
      var t := seq(|s|, i requires 0 <= i < |s| => LowerDigit(s[i]));
      assert IsCanonical(s) ==> t == s;
      Some(t)
    else None
  }

  /** Two accepted texts denote the same id exactly when they agree digit by
      digit once letters are lower-cased. */
  lemma SameIdIgnoringCase(s: string, t: string)
    requires IsIdText(s) && IsIdText(t)
    ensures Cast(s) == Cast(t) <==> forall i :: 0 <= i < 24 ==> LowerDigit(s[i]) == LowerDigit(t[i])
  {
    var a, b := Cast(s).value, Cast(t).value;
    assert forall i :: 0 <= i < 24 ==> a[i] == LowerDigit(s[i]) && b[i] == LowerDigit(t[i]);
    assert a == b <==> forall i :: 0 <= i < 24 ==> a[i] == b[i];
  }

  /** Casting the text of an id gives that id back. */
  lemma CastIdempotent(s: string)
    requires IsIdText(s)
    ensures Cast(Cast(s).value) == Cast(s)
  {
  }
}
