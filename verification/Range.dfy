/** Single byte ranges, section 14.1.2 of RFC 9110. */
module Range {
  import D = Decimal
  import opened Text
  import opened Wrappers

  import opened Arithmetic
  import opened ObjectCrypt
  import opened StoredObjects
  import opened StreamReads

  datatype Outcome = Full | Satisfiable(start: nat, end: nat) | Invalid | Unsatisfiable

  const UNIT := "bytes="

  predicate NoSpace(s: string) {
    forall i | 0 <= i < |s| :: !IsWhitespace(s[i])
  }

  /** The part between `bytes=` and the end decides the outcome for an object of `len` bytes. */
  function ParseSpec(spec: string, len: nat): Outcome {
    if spec == "" || ',' in spec || !NoSpace(spec) || '-' !in spec then Invalid
    else
      var first := Before(spec, '-');
      var last := spec[|first| + 1..];
      if first == "" then
        match D.Parse(last)
        case None => Invalid
        case Some(suffix) =>
          if suffix == 0 || len == 0 then Unsatisfiable
          else Satisfiable(if suffix < len then len - suffix else 0, len - 1)
      else
        match D.Parse(first)
        case None => Invalid
        case Some(start) =>
          if last == "" then
            if len == 0 || start >= len then Unsatisfiable else Satisfiable(start, len - 1)
          else
            match D.Parse(last)
            case None => Invalid
            case Some(end) =>
              if end < start then Invalid
              else if len == 0 || start >= len then Unsatisfiable
              else Satisfiable(start, Min(end, len - 1))
  }

  function Parse(header: Option<string>, len: nat): Outcome {
    match header
    case None => Full
    case Some(h) =>
      var text := Trim(h);
      if UNIT <= text then ParseSpec(text[|UNIT|..], len) else Invalid
  }

  // ---- The three forms of a range ----

  /** A number as it may stand in a range: digits, of any value and with any zeros in front. */
  predicate IsNumber(s: string) {
    s != "" && D.AllDigits(s)
  }

  lemma DigitsAreSpecFree(s: string)
    requires D.AllDigits(s)
    ensures '-' !in s && ',' !in s && NoSpace(s)
  {
  }

  /** A header made of the unit and a spec without spaces is taken apart again, whatever space is around it. */
  lemma HeaderOf(front: string, spec: string, back: string, len: nat)
    requires Blank(front) && Blank(back) && spec != "" && NoSpace(spec)
    ensures Parse(Some(front + ("bytes=" + spec) + back), len) == ParseSpec(spec, len)
  {
    TrimBetween(front, "bytes=" + spec, back);
    assert (UNIT + spec)[|UNIT|..] == spec;
  }

  lemma SpecSplits(first: string, last: string)
    requires D.AllDigits(first) && D.AllDigits(last)
    ensures var spec := first + "-" + last;
      && spec != "" && NoSpace(spec) && ',' !in spec && '-' in spec
      && Before(spec, '-') == first && spec[|first| + 1..] == last
  {
    DigitsAreSpecFree(first);
    DigitsAreSpecFree(last);
    BeforeAt(first, '-', last);
    assert (first + "-" + last)[|first|] == '-';
  }

  /**
   * `bytes=a-b`: the interval, cut at the last byte. It is invalid backwards or when a number does not fit 64 bits, and
   * past the end it is unsatisfiable.
   */
  lemma ClosedRange(front: string, first: string, last: string, back: string, len: nat)
    requires Blank(front) && Blank(back) && IsNumber(first) && IsNumber(last)
    ensures var a, b := D.Value(first), D.Value(last);
      Parse(Some(front + ("bytes=" + (first + "-" + last)) + back), len) ==
        if a > 0xFFFF_FFFF_FFFF_FFFF || b > 0xFFFF_FFFF_FFFF_FFFF || b < a then Invalid
        else if a >= len then Unsatisfiable
        else Satisfiable(a, if b < len then b else len - 1)
  {
    SpecSplits(first, last);
    HeaderOf(front, first + "-" + last, back, len);
  }

  /** `bytes=a-`: from `a` to the end. */
  lemma OpenRange(front: string, first: string, back: string, len: nat)
    requires Blank(front) && Blank(back) && IsNumber(first)
    ensures var a := D.Value(first);
      Parse(Some(front + ("bytes=" + (first + "-" + "")) + back), len) ==
        if a > 0xFFFF_FFFF_FFFF_FFFF then Invalid
        else if a >= len then Unsatisfiable
        else Satisfiable(a, len - 1)
  {
    SpecSplits(first, "");
    HeaderOf(front, first + "-" + "", back, len);
  }

  /** `bytes=-n`: the last `n` bytes, or all of them. */
  lemma SuffixRange(front: string, last: string, back: string, len: nat)
    requires Blank(front) && Blank(back) && IsNumber(last)
    ensures var n := D.Value(last);
      Parse(Some(front + ("bytes=" + ("" + "-" + last)) + back), len) ==
        if n > 0xFFFF_FFFF_FFFF_FFFF then Invalid
        else if n == 0 || len == 0 then Unsatisfiable
        else Satisfiable(if n < len then len - n else 0, len - 1)
  {
    SpecSplits("", last);
    HeaderOf(front, "" + "-" + last, back, len);
  }

  /** Nothing else is a range: what is not invalid is one of these forms, with numbers that fit 64 bits. */
  lemma OnlyTheseForms(header: string, len: nat)
    requires Parse(Some(header), len) != Invalid
    ensures exists first, last ::
      && Trim(header) == "bytes=" + (first + "-" + last) && (first != "" || last != "")
      && D.AllDigits(first) && D.AllDigits(last)
      && D.Value(first) <= 0xFFFF_FFFF_FFFF_FFFF && D.Value(last) <= 0xFFFF_FFFF_FFFF_FFFF
  {
    var text := Trim(header);
    var spec := text[|UNIT|..];
    var first := Before(spec, '-');
    var last := spec[|first| + 1..];
    assert spec == first + "-" + last;
    assert text == "bytes=" + (first + "-" + last);
  }

  /** The whole object is answered exactly to a request without the header. */
  lemma NoHeaderIsFull(header: Option<string>, len: nat)
    ensures Parse(header, len) == Full <==> header.None?
  {
  }

  /** Every satisfiable range lies within the object. */
  lemma SatisfiableInBounds(header: Option<string>, len: nat)
    requires Parse(header, len).Satisfiable?
    ensures var r := Parse(header, len);
      r.start <= r.end < len
  {
  }

  /** A stream emits no more than the declared length, and exactly that if it ends without an error. */
  predicate Emits(stream: Result<seq<StreamReads.Item>, StorageError>, declared: nat) {
    && (stream.Success? ==> |StreamReads.Text(stream.value)| <= declared)
    && (stream.Success? && Complete(stream.value) ==> |StreamReads.Text(stream.value)| == declared)
  }

  /** What a span stream emits, next to the length its response declares. */
  lemma SpanEmits(cipher: Cipher, format: Format, key: Option<Key>, pt: seq<ByteStrings.byte>, link: Link,
                  kind: BackendKind, start: nat, declared: nat)
    requires cipher.Correct() && Storable(format, key, pt) && |pt| < U64
    requires Honest(link, Stored(cipher, format, key, pt))
    requires format.Plain? || link.ranged(0, 4)
    requires start + declared <= |pt|
    ensures Emits(RangeStreamOf(cipher, key, Stored(cipher, format, key, pt), link, kind, start, declared), declared)
  {
    RangeGivesBack(cipher, format, key, pt, link, kind, start, declared);
  }

  /**
   * The declared length of a partial response, `end - start + 1`, is the number of bytes the span stream emits, in
   * every format, whenever the stream ends without an error.
   */
  lemma DeclaredLengthIsEmitted(cipher: Cipher, format: Format, key: Option<Key>, pt: seq<ByteStrings.byte>, link: Link,
                                kind: BackendKind, header: Option<string>, start: nat, end: nat)
    requires cipher.Correct() && Storable(format, key, pt) && |pt| < U64
    requires Honest(link, Stored(cipher, format, key, pt))
    requires format.Plain? || link.ranged(0, 4)
    requires Parse(header, |pt|) == Satisfiable(start, end)
    ensures start <= end && Emits(RangeStreamOf(cipher, key, Stored(cipher, format, key, pt), link, kind, start,
                                                end - start + 1), end - start + 1)
  {
    SatisfiableInBounds(header, |pt|);
    SpanEmits(cipher, format, key, pt, link, kind, start, end - start + 1);
  }
}
