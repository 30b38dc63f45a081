/** The few string operations the importers and forms use, on sequences of characters. */
module Text {

  /** White space and line terminators as `trim` and `\s` understand them. */
  predicate IsSpace(c: char) {
    || '\t' <= c <= '\r' || c == ' ' || c == '\U{00A0}' || c == '\U{1680}' || '\U{2000}' <= c <= '\U{200A}'
    || c == '\U{2028}' || c == '\U{2029}' || c == '\U{202F}' || c == '\U{205F}' || c == '\U{3000}' || c == '\U{FEFF}'
  }

  predicate IsBlank(s: string) {
    forall i | 0 <= i < |s| :: IsSpace(s[i])
  }

  function TrimStart(s: string): string {
    if s != "" && IsSpace(s[0]) then TrimStart(s[1..]) else s
  }

  function TrimEnd(s: string): string {
    if s != "" && IsSpace(s[|s| - 1]) then TrimEnd(s[..|s| - 1]) else s
  }

  function Trim(s: string): string {
    TrimEnd(TrimStart(s))
  }

  lemma {:induction false} TrimStartCuts(s: string)
    ensures IsBlank(TrimStart(s)) <==> IsBlank(s)
    ensures TrimStart(s) != "" ==> !IsSpace(TrimStart(s)[0])
  {
    if s == "" || !IsSpace(s[0]) {
    } else {
      TrimStartCuts(s[1..]);
      assert s == [s[0]] + s[1..];
    }
  }

  lemma {:induction false} TrimEndCuts(s: string)
    ensures IsBlank(TrimEnd(s)) <==> IsBlank(s)
    ensures TrimEnd(s) != "" ==> !IsSpace(TrimEnd(s)[|TrimEnd(s)| - 1]) && TrimEnd(s)[0] == s[0]
  {
    if s == "" || !IsSpace(s[|s| - 1]) {
    } else {
      TrimEndCuts(s[..|s| - 1]);
      assert s == s[..|s| - 1] + [s[|s| - 1]];
    }
  }

  /**
   A trimmed text is blank only if it is empty, and begins and ends with something else than white space
   otherwise.
   */
  lemma TrimCuts(s: string)
    ensures Trim(s) == "" <==> IsBlank(s)
    ensures IsTrimmed(Trim(s))
  {
    TrimStartCuts(s);
    TrimEndCuts(TrimStart(s));
    if Trim(s) != "" { assert TrimStart(s)[0] == Trim(s)[0]; }
  }

  /** A string that neither starts nor ends with white space. */
  predicate IsTrimmed(s: string) {
    s != "" ==> !IsSpace(s[0]) && !IsSpace(s[|s| - 1])
  }

  lemma TrimOfTrimmed(s: string)
    requires IsTrimmed(s)
    ensures Trim(s) == s
  {
  }

  function Join(parts: seq<string>, separator: string): string {
    if parts == [] then ""
    else if |parts| == 1 then parts[0]
    else parts[0] + separator + Join(parts[1..], separator)
  }

  // ----- texts joined by a separator -----

  lemma SeparatorEndsFront(c: char, a: string, b: string, s: string, t: string)
    requires c !in b && a + [c] + s == b + [c] + t
    ensures |b| <= |a|
  {
    var x, y := a + [c] + s, b + [c] + t;
    assert x[|a|] == c;
    assert forall i | 0 <= i < |b| :: y[i] == b[i] && b[i] in b;
  }

  /** A text splits in one way at its first separator. */
  lemma SplitAtFirst(c: char, a: string, b: string, s: string, t: string)
    requires c !in a && c !in b && a + [c] + s == b + [c] + t
    ensures a == b && s == t
  {
    SeparatorEndsFront(c, a, b, s, t);
    SeparatorEndsFront(c, b, a, t, s);
    var x, y := a + [c] + s, b + [c] + t;
    assert x[..|a|] == a && y[..|b|] == b;
    assert x[|a| + 1..] == s && y[|b| + 1..] == t;
  }

  lemma SeparatorStartsBack(c: char, a: string, b: string, s: string, t: string)
    requires c !in t && a + [c] + s == b + [c] + t
    ensures |t| <= |s|
  {
    var x, y := a + [c] + s, b + [c] + t;
    assert x[|a|] == c;
    assert forall i | |b| < i < |y| :: y[i] == t[i - |b| - 1] && y[i] in t;
  }

  /** And in one way at its last separator. */
  lemma SplitAtLast(c: char, a: string, b: string, s: string, t: string)
    requires c !in s && c !in t && a + [c] + s == b + [c] + t
    ensures a == b && s == t
  {
    SeparatorStartsBack(c, a, b, s, t);
    SeparatorStartsBack(c, b, a, t, s);
    var x, y := a + [c] + s, b + [c] + t;
    assert x[..|a|] == a && y[..|b|] == b;
    assert x[|a| + 1..] == s && y[|b| + 1..] == t;
  }
}
