/** File names for download headers and archives. */
module FileNames {
  import opened Wrappers

  const MAX_BYTES := 128

  /** `char::is_control`. */
  predicate IsControl(c: char) {
    c < ' ' || '\U{7F}' <= c <= '\U{9F}'
  }

  /** The length of a character in UTF-8. */
  function Width(c: char): (w: nat)
    ensures 1 <= w <= 4
  {
    if c < '\U{80}' then 1 else if c < '\U{800}' then 2 else if c < '\U{10000}' then 3 else 4
  }

  /** Where the next byte is needed: behind 7, 11 and 16 bits. */
  lemma WidthSteps(c: char, d: char)
    ensures c <= d ==> Width(c) <= Width(d)
    ensures Width('\U{7F}') == 1 && Width('\U{80}') == 2 && Width('\U{7FF}') == 2 && Width('\U{800}') == 3
    ensures Width('\U{FFFF}') == 3 && Width('\U{10000}') == 4
  {
  }

  function Utf8Length(s: string): (n: nat)
    ensures |s| <= n
  {
    if s == "" then 0 else Utf8Length(s[..|s| - 1]) + Width(s[|s| - 1])
  }

  /** The text behind the last slash or backslash. */
  function BaseName(s: string): (r: string)
    ensures '/' !in r && '\\' !in r
  {
    if s == "" then ""
    else if s[|s| - 1] == '/' || s[|s| - 1] == '\\' then ""
    else BaseName(s[..|s| - 1]) + [s[|s| - 1]]
  }

  /** What stands behind a separator, and has none itself, is the base name; so is a name without separators. */
  lemma {:induction false} BaseNameBehind(path: string, base: string)
    requires '/' !in base && '\\' !in base
    requires path == "" || path[|path| - 1] == '/' || path[|path| - 1] == '\\'
    ensures BaseName(path + base) == base
  {
    var s := path + base;
    if base == "" {
      assert s == path;
    } else {
      assert base[|base| - 1] in base;
      assert s[..|s| - 1] == path + base[..|base| - 1];
      BaseNameBehind(path, base[..|base| - 1]);
    }
  }

  function Masked(c: char): char {
    if c == '"' || c == '\'' || c == '\\' || c == ';' then '_' else c
  }

  /** Control characters go, quotes and separators are masked. */
  function Filtered(s: string): string {
    if s == "" then ""
    else
      var rest := Filtered(s[..|s| - 1]);
      var c := s[|s| - 1];
      if IsControl(c) then rest else rest + [Masked(c)]
  }

  /** One character: control characters go, quotes and semicolons become underscores, the others stay. */
  lemma FilteredOne(c: char)
    ensures Filtered([c]) ==
      if c as int < 0x20 || 0x7F <= c as int <= 0x9F then ""
      else if c == '"' || c == '\'' || c == '\\' || c == ';' then "_"
      else [c]
  {
    assert [c][..0] == "";
  }

  /** A name is filtered character by character. */
  lemma {:induction false} FilteredParts(a: string, b: string)
    ensures Filtered(a + b) == Filtered(a) + Filtered(b)
  {
    if b == "" {
      assert a + b == a;
    } else {
      assert (a + b)[..|a + b| - 1] == a + b[..|b| - 1];
      FilteredParts(a, b[..|b| - 1]);
    }
  }

  function Undotted(s: string): (r: string)
    ensures r != "" ==> r[0] != '.'
    ensures |r| <= |s| && r == s[|s| - |r|..]
  {
    if s != "" && s[0] == '.' then Undotted(s[1..]) else s
  }

  /** `String::truncate` to a byte length: it panics off a character boundary. */
  function Truncated(s: string, bytes: nat): Option<string> {
    if Utf8Length(s) == bytes then Some(s)
    else if Utf8Length(s) < bytes then None
    else Truncated(s[..|s| - 1], bytes)
  }

  predicate AllDots(s: string) {
    forall i | 0 <= i < |s| :: s[i] == '.'
  }

  lemma {:induction false} UndottedDrops(dots: string, rest: string)
    requires AllDots(dots) && (rest != "" ==> rest[0] != '.')
    ensures Undotted(dots + rest) == rest
  {
    if dots == "" {
      assert dots + rest == rest;
    } else {
      assert (dots + rest)[1..] == dots[1..] + rest;
      UndottedDrops(dots[1..], rest);
    }
  }

  /** The name before it is cut to its length. */
  function Cleaned(name: string): (r: string)
    ensures r != "" && r[0] != '.'
  {
    var out := Undotted(Filtered(BaseName(name)));
    if out == "" then "download" else out
  }

  /**
   * A name behind any path, filtered, loses the dots it then begins with; if nothing is left it is called "download".
   */
  lemma CleanedName(path: string, base: string, dots: string, rest: string)
    requires '/' !in base && '\\' !in base
    requires path == "" || path[|path| - 1] == '/' || path[|path| - 1] == '\\'
    requires Filtered(base) == dots + rest && AllDots(dots) && (rest != "" ==> rest[0] != '.')
    ensures Cleaned(path + base) == if rest == "" then "download" else rest
  {
    BaseNameBehind(path, base);
    UndottedDrops(dots, rest);
  }

  /** `sanitize_filename`; `None` where it panics. */
  function Sanitize(name: string): Option<string> {
    var out := Cleaned(name);
    if Utf8Length(out) > MAX_BYTES then Truncated(out, MAX_BYTES) else Some(out)
  }

  predicate CleanChar(c: char) {
    0x20 <= c as int && !(0x7F <= c as int <= 0x9F) && c != '/' && c != '\\' && c != '"' && c != '\'' && c != ';'
  }

  predicate AllClean(s: string) {
    forall i | 0 <= i < |s| :: CleanChar(s[i])
  }

  /** A name that is fit for a header: clean characters only, not empty, not hidden, not too long. */
  predicate Fit(s: string) {
    AllClean(s) && s != "" && s[0] != '.' && Utf8Length(s) <= 128
  }

  lemma {:induction false} FilteredIsClean(s: string)
    requires '/' !in s
    ensures AllClean(Filtered(s))
  {
    if s != "" {
      assert s[|s| - 1] in s && forall c | c in s[..|s| - 1] :: c in s;
      FilteredIsClean(s[..|s| - 1]);
    }
  }

  lemma {:induction false} UndottedIsClean(s: string)
    requires AllClean(s)
    ensures AllClean(Undotted(s))
  {
    if s != "" && s[0] == '.' {
      UndottedIsClean(s[1..]);
    }
  }

  lemma CleanedIsClean(name: string)
    ensures AllClean(Cleaned(name))
  {
    FilteredIsClean(BaseName(name));
    UndottedIsClean(Filtered(BaseName(name)));
  }

  lemma {:induction false} Utf8Monotone(s: string, n: nat)
    requires n <= |s|
    ensures Utf8Length(s[..n]) <= Utf8Length(s)
    decreases |s|
  {
    if n < |s| {
      Utf8Monotone(s[..|s| - 1], n);
      assert s[..|s| - 1][..n] == s[..n];
    } else {
      assert s[..n] == s;
    }
  }

  lemma {:induction false} TruncatedIsPrefix(s: string, bytes: nat)
    requires Utf8Length(s) >= bytes
    ensures Truncated(s, bytes).Some? ==>
      Truncated(s, bytes).value <= s && Utf8Length(Truncated(s, bytes).value) == bytes
    ensures Truncated(s, bytes).Some? <==> exists n :: 0 <= n <= |s| && Utf8Length(s[..n]) == bytes
    decreases |s|
  {
    if Utf8Length(s) == bytes {
      assert s[..|s|] == s;
    } else {
      var init := s[..|s| - 1];
      if Utf8Length(init) >= bytes {
        TruncatedIsPrefix(init, bytes);
        assert forall n | 0 <= n <= |init| :: init[..n] == s[..n];
        assert s[..|s|] == s;
      } else {
        forall n | 0 <= n <= |s|
          ensures Utf8Length(s[..n]) != bytes
        {
          Utf8Monotone(s, n);
          assert s[..|s|] == s;
          if n < |s| {
            Utf8Monotone(init, n);
            assert init[..n] == s[..n];
          }
        }
      }
    }
  }

  /** Whatever the name, the result is fit for a header; it is the cleaned name, or the first 128 bytes of it. */
  lemma SanitizedIsFit(name: string)
    requires Sanitize(name).Some?
    ensures Fit(Sanitize(name).value) && Sanitize(name).value <= Cleaned(name)
    ensures Sanitize(name).value == Cleaned(name) || Utf8Length(Sanitize(name).value) == 128
  {
    CleanedIsClean(name);
    if Utf8Length(Cleaned(name)) > MAX_BYTES {
      TruncatedIsPrefix(Cleaned(name), MAX_BYTES);
    }
  }

  /**
   * The cap is announced in characters but applied in bytes: the function panics exactly when the cleaned name is
   * longer and no prefix of it has that very length.
   */
  lemma SanitizePanics(name: string)
    ensures Sanitize(name).None? <==>
      Utf8Length(Cleaned(name)) > 128
      && forall n | 0 <= n <= |Cleaned(name)| :: Utf8Length(Cleaned(name)[..n]) != 128
  {
    if Utf8Length(Cleaned(name)) > MAX_BYTES {
      TruncatedIsPrefix(Cleaned(name), MAX_BYTES);
    }
  }

  lemma {:induction false} AsciiLength(s: string)
    requires forall i | 0 <= i < |s| :: s[i] < '\U{80}'
    ensures Utf8Length(s) == |s|
  {
    if s != "" {
      AsciiLength(s[..|s| - 1]);
    }
  }

  lemma {:induction false} FitStays(s: string)
    requires AllClean(s)
    ensures BaseName(s) == s && Filtered(s) == s
  {
    if s != "" {
      FitStays(s[..|s| - 1]);
    }
  }

  /** A clean name is kept exactly when it is short enough. */
  lemma SanitizeClean(s: string)
    requires AllClean(s) && s != "" && s[0] != '.'
    ensures Sanitize(s) == Some(s) <==> Utf8Length(s) <= 128
  {
    FitStays(s);
    if Utf8Length(s) > MAX_BYTES {
      TruncatedIsPrefix(s, MAX_BYTES);
    }
  }

  /** With a wide character behind 127 narrow ones no prefix has 128 bytes. */
  lemma WideEnd(s: string, c: char)
    requires |s| == 127 && forall i | 0 <= i < |s| :: s[i] < '\U{80}'
    requires c > '\U{9F}'
    ensures Utf8Length(s + [c]) > 128
    ensures forall n | 0 <= n <= |s + [c]| :: Utf8Length((s + [c])[..n]) != 128
  {
    var name := s + [c];
    assert name[..|s|] == s;
    AsciiLength(s);
    forall n | 0 <= n <= |name|
      ensures Utf8Length(name[..n]) != 128
    {
      if n <= |s| {
        assert name[..n] == s[..n];
        AsciiLength(s[..n]);
      } else {
        assert name[..n] == name;
      }
    }
  }

  /** Names it panics on: 127 clean ASCII characters, and then one that is not ASCII. */
  lemma SanitizePanicsOn(s: string, c: char)
    requires AllClean(s) && |s| == 127 && s[0] != '.' && forall i | 0 <= i < |s| :: s[i] < '\U{80}'
    requires c > '\U{9F}'
    ensures Sanitize(s + [c]) == None
  {
    FitStays(s + [c]);
    WideEnd(s, c);
    SanitizePanics(s + [c]);
  }

  lemma SanitizePanicsSomewhere()
    ensures Sanitize(seq(127, _ => 'a') + ['\U{E9}']) == None
  {
    SanitizePanicsOn(seq(127, _ => 'a'), '\U{E9}');
  }

  /** Sanitizing again changes nothing. */
  lemma SanitizeIdempotent(name: string)
    requires Sanitize(name).Some?
    ensures Sanitize(Sanitize(name).value) == Sanitize(name)
  {
    SanitizedIsFit(name);
    FitStays(Sanitize(name).value);
  }

  /** The loops of `sanitize_filename`. */
  method SanitizeFilename(name: string) returns (r: Option<string>)
    ensures r == Sanitize(name)
  {
    var base := BaseName(name);
    var out := "";
    for i := 0 to |base|
      invariant out == Filtered(base[..i])
    {
      assert base[..i + 1][..i] == base[..i];
      if !IsControl(base[i]) {
        out := out + [Masked(base[i])];
      }
    }
    assert base[..|base|] == base;
    ghost var filtered := out;
    while out != "" && out[0] == '.'
      invariant Undotted(out) == Undotted(filtered)
      decreases |out|
    {
      out := out[1..];
    }
    if out == "" {
      out := "download";
    }
    if Utf8Length(out) > MAX_BYTES {
      r := Truncated(out, MAX_BYTES);
    } else {
      r := Some(out);
    }
  }
}
