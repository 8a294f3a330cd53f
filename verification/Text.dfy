/** The few string operations the handlers use, on sequences of Unicode scalar values. */
module Text {

  /** `char::is_whitespace`: the characters with the White_Space property. */
  predicate IsWhitespace(c: char) {
    || '\t' <= c <= '\r' || c == ' ' || c == '\U{85}' || c == '\U{A0}' || c == '\U{1680}'
    || '\U{2000}' <= c <= '\U{200A}' || c == '\U{2028}' || c == '\U{2029}' || c == '\U{202F}'
    || c == '\U{205F}' || c == '\U{3000}'
  }

  /** There are 25 of them. */
  lemma WhitespaceCharacters(c: char)
    ensures IsWhitespace(c) <==> c in "\t\n\U{B}\U{C}\r \U{85}\U{A0}\U{1680}\U{2000}\U{2001}\U{2002}\U{2003}"
                                    + "\U{2004}\U{2005}\U{2006}\U{2007}\U{2008}\U{2009}\U{200A}\U{2028}\U{2029}"
                                    + "\U{202F}\U{205F}\U{3000}"
  {
  }

  predicate Blank(s: string) {
    forall i | 0 <= i < |s| :: IsWhitespace(s[i])
  }

  function TrimStart(s: string): string {
    if s != "" && IsWhitespace(s[0]) then TrimStart(s[1..]) else s
  }

  function TrimEnd(s: string): string {
    if s != "" && IsWhitespace(s[|s| - 1]) then TrimEnd(s[..|s| - 1]) else s
  }

  /** `str::trim`. */
  function Trim(s: string): string {
    TrimEnd(TrimStart(s))
  }

  predicate Bare(s: string) {
    s != "" ==> !IsWhitespace(s[0]) && !IsWhitespace(s[|s| - 1])
  }

  lemma {:induction false} TrimStartDrops(front: string, rest: string)
    requires Blank(front) && (rest != "" ==> !IsWhitespace(rest[0]))
    ensures TrimStart(front + rest) == rest
  {
    if front == "" {
      assert front + rest == rest;
    } else {
      assert (front + rest)[1..] == front[1..] + rest;
      TrimStartDrops(front[1..], rest);
    }
  }

  lemma {:induction false} TrimEndDrops(rest: string, back: string)
    requires Blank(back) && (rest != "" ==> !IsWhitespace(rest[|rest| - 1]))
    ensures TrimEnd(rest + back) == rest
  {
    if back == "" {
      assert rest + back == rest;
    } else {
      assert (rest + back)[..|rest + back| - 1] == rest + back[..|back| - 1];
      TrimEndDrops(rest, back[..|back| - 1]);
    }
  }

  lemma {:induction false} TrimStartStops(s: string)
    requires !Blank(s)
    ensures !Blank(TrimStart(s))
  {
    if IsWhitespace(s[0]) {
      TrimStartStops(s[1..]);
    }
  }

  lemma {:induction false} TrimEndStops(s: string)
    requires !Blank(s)
    ensures TrimEnd(s) != ""
  {
    if IsWhitespace(s[|s| - 1]) {
      TrimEndStops(s[..|s| - 1]);
    }
  }

  /** Trimming gives what stands between the whitespace at both ends. */
  lemma TrimBetween(front: string, s: string, back: string)
    requires Blank(front) && Blank(back) && Bare(s)
    ensures Trim(front + s + back) == s
  {
    if s == "" {
      assert front + s + back == (front + back) + "";
      TrimStartDrops(front + back, "");
    } else {
      assert front + s + back == front + (s + back);
      TrimStartDrops(front, s + back);
      TrimEndDrops(s, back);
    }
  }

  /** Nothing is left exactly of a blank string. */
  lemma TrimOfBlank(s: string)
    ensures Trim(s) == "" <==> Blank(s)
  {
    if Blank(s) {
      TrimBetween(s, "", "");
      assert s + "" + "" == s;
    } else {
      TrimStartStops(s);
      TrimEndStops(TrimStart(s));
    }
  }

  /** The text before the first `c`, or all of it. */
  function Before(s: string, c: char): (r: string)
    ensures c !in r && r <= s
    ensures |r| < |s| ==> s[|r|] == c
  {
    if s == "" || s[0] == c then "" else [s[0]] + Before(s[1..], c)
  }

  lemma {:induction false} BeforeAt(a: string, c: char, b: string)
    requires c !in a
    ensures Before(a + [c] + b, c) == a && Before(a, c) == a
  {
    if a == "" {
      assert a + [c] + b == [c] + b;
    } else {
      assert (a + [c] + b)[1..] == a[1..] + [c] + b;
      BeforeAt(a[1..], c, b);
      assert a == [a[0]] + a[1..];
    }
  }

  /** The position of the last dot, or -1. */
  function LastDot(s: string): (i: int)
    ensures -1 <= i < |s|
    ensures i >= 0 ==> s[i] == '.'
    ensures forall j | i < j < |s| :: s[j] != '.'
  {
    if s == "" then -1 else if s[|s| - 1] == '.' then |s| - 1 else LastDot(s[..|s| - 1])
  }

  lemma Regrouped(a: string, b: string, c: string)
    ensures a + (b + c) == a + b + c
  {
  }

  /** A dot with no dot behind it is the last one. */
  lemma LastDotSplits(s: string, stem: string, tail: string)
    requires '.' !in tail && s == stem + "." + tail
    ensures LastDot(s) == |stem| && s[|stem|..] == "." + tail
  {
    assert s[|stem|] == '.';
    assert forall j | |stem| < j < |s| :: s[j] == tail[j - |stem| - 1];
  }

  /** A name with no dot behind its first character has none that counts. */
  lemma NoDotBehind(s: string)
    requires forall j | 1 <= j < |s| :: s[j] != '.'
    ensures LastDot(s) <= 0
  {
  }
}
