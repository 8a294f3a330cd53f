/** Naming the entries of an archive. */
module Zip {
  import D = Decimal
  import opened FileNames
  import opened Text
  import opened Wrappers

  function Stem(base: string): string {
    if LastDot(base) > 0 then base[..LastDot(base)] else base
  }

  function Extension(base: string): string {
    if LastDot(base) > 0 then base[LastDot(base)..] else ""
  }

  /** The `suffix`-th name tried for `base`; the first is `base` itself. */
  function Candidate(base: string, suffix: nat): string {
    if suffix < 2 then base else Stem(base) + " (" + D.Print(suffix) + ")" + Extension(base)
  }

  /** Later tries are numbered before the extension ... */
  lemma LaterTries(base: string, stem: string, tail: string, n: nat)
    requires n >= 2 && stem != "" && '.' !in tail && base == stem + "." + tail
    ensures Candidate(base, n) == stem + " (" + D.Print(n) + ")" + "." + tail
  {
    LastDotSplits(base, stem, tail);
    Regrouped(stem + " (" + D.Print(n) + ")", ".", tail);
  }

  /** ... or at the end, if there is none; and the name itself comes first. */
  lemma PlainTries(base: string, n: nat)
    requires n >= 2 && forall j | 1 <= j < |base| :: base[j] != '.'
    ensures Candidate(base, 1) == base && Candidate(base, n) == base + " (" + D.Print(n) + ")"
  {
    NoDotBehind(base);
  }

  lemma StemAndExtension(base: string)
    ensures base == Stem(base) + Extension(base)
  {
  }

  /** No two tries are alike. */
  lemma CandidateInjective(base: string, a: nat, b: nat)
    requires 1 <= a && 1 <= b && Candidate(base, a) == Candidate(base, b)
    ensures a == b
  {
    StemAndExtension(base);
    var stem, ext := Stem(base), Extension(base);
    if a >= 2 && b >= 2 {
      var x, y := Candidate(base, a), Candidate(base, b);
      assert x[|stem| + 2..|x| - |ext| - 1] == D.Print(a);
      assert y[|stem| + 2..|y| - |ext| - 1] == D.Print(b);
      D.PrintInjective(a, b);
    } else {
      assert a >= 2 ==> |Candidate(base, a)| > |base|;
      assert b >= 2 ==> |Candidate(base, b)| > |base|;
    }
  }

  /** The first `n` tries. */
  function Tried(base: string, n: nat): set<string> {
    set i | 1 <= i <= n :: Candidate(base, i)
  }

  lemma {:induction false} TriedCount(base: string, n: nat)
    ensures |Tried(base, n)| == n
  {
    if n > 0 {
      TriedCount(base, n - 1);
      assert Tried(base, n) == Tried(base, n - 1) + {Candidate(base, n)};
      if Candidate(base, n) in Tried(base, n - 1) {
        var i :| 1 <= i <= n - 1 && Candidate(base, i) == Candidate(base, n);
        CandidateInjective(base, i, n);
      }
    } else {
      assert Tried(base, 0) == {};
    }
  }

  lemma {:induction false} SubsetCount<T>(a: set<T>, b: set<T>)
    requires a <= b
    ensures |a| <= |b|
  {
    if a != {} {
      var x :| x in a;
      SubsetCount(a - {x}, b - {x});
    }
  }

  /** When the first `n` tries were all taken, there are at least `n` taken names. */
  lemma TriesAreTaken(base: string, n: nat, seen: set<string>)
    requires forall i | 1 <= i <= n :: Candidate(base, i) in seen
    ensures n <= |seen|
  {
    TriedCount(base, n);
    SubsetCount(Tried(base, n), seen);
  }

  /** The least suffix whose name is free; it is found within one more try than there are taken names. */
  method FirstFree(base: string, seen: set<string>) returns (suffix: nat)
    ensures 1 <= suffix <= |seen| + 1
    ensures Candidate(base, suffix) !in seen
    ensures forall i | 1 <= i < suffix :: Candidate(base, i) in seen
  {
    suffix := 1;
    while Candidate(base, suffix) in seen
      invariant 1 <= suffix <= |seen| + 1
      invariant forall i | 1 <= i < suffix :: Candidate(base, i) in seen
      decreases |seen| + 1 - suffix
    {
      TriesAreTaken(base, suffix, seen);
      suffix := suffix + 1;
    }
  }

  method UniqueName(requested: string, seen: set<string>) returns (name: Option<string>, seen': set<string>)
    ensures name.None? <==> Sanitize(requested).None?
    ensures name.None? ==> seen' == seen
    ensures name.Some? ==>
      && name.value !in seen && seen' == seen + {name.value}
      && exists suffix: nat ::
           && 1 <= suffix <= |seen| + 1 && name.value == Candidate(Sanitize(requested).value, suffix)
           && forall i | 1 <= i < suffix :: Candidate(Sanitize(requested).value, i) in seen
  {
    var base := SanitizeFilename(requested);
    if base.None? {
      return None, seen;
    }
    var suffix := FirstFree(base.value, seen);
    var candidate := Candidate(base.value, suffix);
    return Some(candidate), seen + {candidate};
  }

  predicate Distinct(names: seq<string>) {
    forall i, j | 0 <= i < j < |names| :: names[i] != names[j]
  }

  /** The name is one of the first `tries` for `base`. */
  predicate IsTry(base: string, name: string, tries: nat) {
    exists suffix | 1 <= suffix <= tries :: name == Candidate(base, suffix)
  }

  /** Whatever names are asked for, the entries of an archive all have different ones. */
  method DistinctNames(bases: seq<string>) returns (names: seq<string>)
    ensures |names| == |bases| && Distinct(names)
    ensures forall i | 0 <= i < |bases| :: IsTry(bases[i], names[i], i + 1)
  {
    var seen: set<string> := {};
    names := [];
    for i := 0 to |bases|
      invariant |names| == i && Distinct(names) && |seen| == i
      invariant forall j | 0 <= j < i :: names[j] in seen
      invariant forall j | 0 <= j < i :: IsTry(bases[j], names[j], j + 1)
    {
      var suffix := FirstFree(bases[i], seen);
      var name := Candidate(bases[i], suffix);
      assert IsTry(bases[i], name, i + 1);
      names, seen := names + [name], seen + {name};
    }
  }

  // ---- The names asked for ----

  /** What an entry is named after: a file's original name, or a paste's title or core. */
  datatype Source = NamedFile(original: string) | TitledPaste(title: Option<string>, core: string)

  /** A paste is named after its title, if that is not blank, and else after its core. */
  function PasteStem(title: Option<string>, core: string): string {
    if title.Some? && Trim(title.value) != "" then title.value else TrimEnd(core)
  }

  /** A title counts if it has a character that is not whitespace; it is then taken as it is. */
  lemma PasteIsNamedAfter(title: Option<string>, core: string)
    ensures title.Some? && (exists i :: 0 <= i < |title.value| && !IsWhitespace(title.value[i])) ==>
      PasteStem(title, core) == title.value
    ensures title.None? || (forall i | 0 <= i < |title.value| :: IsWhitespace(title.value[i])) ==>
      PasteStem(title, core) == TrimEnd(core)
  {
    if title.Some? {
      TrimOfBlank(title.value);
    }
  }

  /** The sanitized name an entry starts from; a paste's name is sanitized twice. */
  function BaseOf(source: Source): Option<string> {
    match source
    case NamedFile(original) => Sanitize(original)
    case TitledPaste(title, core) =>
      match Sanitize(PasteStem(title, core))
      case None => None
      case Some(stem) => Sanitize(stem + ".txt")
  }

  lemma AppendTxt(stem: string)
    requires Fit(stem)
    ensures AllClean(stem + ".txt") && Utf8Length(stem + ".txt") == Utf8Length(stem) + 4
  {
    var t, tx, txt := stem + ".t", stem + ".tx", stem + ".txt";
    assert txt[..|txt| - 1] == tx && tx[..|tx| - 1] == t;
    assert t[..|t| - 1] == stem + "." && (stem + ".")[..|stem|] == stem;
    assert Utf8Length(stem + ".") == Utf8Length(stem) + 1;
    assert Utf8Length(t) == Utf8Length(stem) + 2;
    assert Utf8Length(tx) == Utf8Length(stem) + 3;
  }

  /** The second sanitizing of a paste's name keeps the `.txt` exactly when the name still fits with it. */
  lemma PasteKeepsExtension(title: Option<string>, core: string)
    requires Sanitize(PasteStem(title, core)).Some?
    ensures var stem := Sanitize(PasteStem(title, core)).value;
      BaseOf(TitledPaste(title, core)) == Some(stem + ".txt") <==> Utf8Length(stem) + 4 <= 128
  {
    var stem := Sanitize(PasteStem(title, core)).value;
    SanitizedIsFit(PasteStem(title, core));
    AppendTxt(stem);
    SanitizeClean(stem + ".txt");
  }

  /** All of them, unless one panics. */
  function Bases(sources: seq<Source>): (r: Option<seq<string>>)
    ensures r.Some? <==> forall i | 0 <= i < |sources| :: BaseOf(sources[i]).Some?
    ensures r.Some? ==>
      |r.value| == |sources| && forall i | 0 <= i < |sources| :: r.value[i] == BaseOf(sources[i]).value
  {
    if sources == [] then Some([])
    else
      match Bases(sources[1..])
      case None => None
      case Some(rest) =>
        match BaseOf(sources[0])
        case None => None
        case Some(base) => Some([base] + rest)
  }

  /** Every entry gets a name of its own, one of the first tries for its base, unless a base panics. */
  method EntryNames(sources: seq<Source>) returns (names: Option<seq<string>>)
    ensures names.Some? <==> forall i | 0 <= i < |sources| :: BaseOf(sources[i]).Some?
    ensures names.Some? ==>
      && |names.value| == |sources| && Distinct(names.value)
      && forall i | 0 <= i < |sources| :: IsTry(BaseOf(sources[i]).value, names.value[i], i + 1)
  {
    var bases := Bases(sources);
    if bases.None? {
      return None;
    }
    var all := DistinctNames(bases.value);
    names := Some(all);
  }
}
