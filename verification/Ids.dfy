/** Cores, extensions, and the keys and links spelled from them. */
module Ids {
  import F = FileNames
  import S = Storage
  import opened Text

  const ID_LEN := 8
  const ALPHABET := "abcdefghijkmnpqrstuvwxyz23456789"

  predicate IsCore(core: string) {
    |core| == ID_LEN && forall i | 0 <= i < |core| :: core[i] in ALPHABET
  }

  /** The alphabet is the lower-case letters without l and o, and then the digits from 2 on. */
  lemma Letter(i: nat)
    requires i < 32
    ensures |ALPHABET| == 32
    ensures ALPHABET[i] as int ==
      if i < 11 then 'a' as int + i
      else if i < 13 then 'm' as int + (i - 11)
      else if i < 24 then 'p' as int + (i - 13)
      else '2' as int + (i - 24)
  {
  }

  /** The low five bits. */
  function LowBits(byte: nat): (bits: nat)
    ensures bits < 32 && (byte < 32 ==> bits == byte)
  {
    byte % 32
  }

  /** The low five bits of a random byte pick a letter of the alphabet. */
  function PickLetter(byte: nat): (c: char)
    ensures c in ALPHABET
  {
    ALPHABET[LowBits(byte)]
  }

  /** `generate_core`: eight random bytes. */
  function GenerateCore(random: seq<nat>): (core: string)
    requires |random| == ID_LEN
    ensures IsCore(core)
  {
    seq(ID_LEN, i requires 0 <= i < ID_LEN => PickLetter(random[i]))
  }

  lemma IndexOf(c: char) returns (i: nat)
    requires ('a' <= c <= 'z' && c != 'l' && c != 'o') || '2' <= c <= '9'
    ensures i < 32 && ALPHABET[i] == c
  {
    var code := c as int;
    i := if code < 'a' as int then code - '2' as int + 24
      else if code < 'l' as int then code - 'a' as int
      else if code < 'o' as int then code - 'm' as int + 11
      else code - 'p' as int + 13;
    Letter(i);
  }

  lemma Picks(byte: nat)
    requires byte < 32
    ensures PickLetter(byte) == ALPHABET[byte]
  {
  }

  /** Every string of eight letters and digits but l, o, 0 and 1 can come up: some bytes make it. */
  lemma EveryCoreIsGenerated(core: string) returns (random: seq<nat>)
    requires |core| == 8
    requires forall i | 0 <= i < 8 ::
      ('a' <= core[i] <= 'z' && core[i] != 'l' && core[i] != 'o') || '2' <= core[i] <= '9'
    ensures |random| == 8 && (forall i | 0 <= i < 8 :: random[i] < 0x100) && GenerateCore(random) == core
  {
    random := [];
    for n := 0 to 8
      invariant |random| == n
      invariant forall i | 0 <= i < n :: random[i] < 32 && PickLetter(random[i]) == core[i]
    {
      var k := IndexOf(core[n]);
      Picks(k);
      random := random + [k];
    }
  }

  predicate IsExtension(ext: string) {
    ext == "" || (2 <= |ext| <= 10 && ext[0] == '.'
      && forall i | 0 <= i < |ext| :: 'a' <= ext[i] <= 'z' || '0' <= ext[i] <= '9' || ext[i] == '.')
  }

  /** `tail` is the text behind the last dot of a name, and something stands before the dot. */
  predicate EndsIn(base: string, stem: string, tail: string) {
    stem != "" && '.' !in tail && base == stem + "." + tail
  }

  /** `normalize_ext`; `lower` is Unicode lower-casing, which keeps a leading dot. */
  function NormalizeExt(name: string, lower: string -> string): (ext: string)
    requires forall s | s != "" && s[0] == '.' :: lower(s) != "" && lower(s)[0] == '.'
    ensures IsExtension(ext)
  {
    var base := F.BaseName(name);
    var dot := LastDot(base);
    if dot <= 0 then ""
    else
      var ext := lower(base[dot..]);
      if 2 <= |ext| <= 10 && IsExtension(ext) then ext else ""
  }

  /**
   * The extension is the lower-cased text from the last dot of the base name on, whenever it has two to ten letters,
   * digits and dots in all; a name without a dot behind its first character has none.
   */
  lemma ExtensionIsLoweredTail(path: string, base: string, lower: string -> string, stem: string, tail: string)
    requires forall s | s != "" && s[0] == '.' :: lower(s) != "" && lower(s)[0] == '.'
    requires '/' !in base && '\\' !in base
    requires path == "" || path[|path| - 1] == '/' || path[|path| - 1] == '\\'
    ensures EndsIn(base, stem, tail) ==>
      var ext := lower("." + tail);
      NormalizeExt(path + base, lower) ==
        if 2 <= |ext| <= 10
          && forall i | 0 <= i < |ext| :: 'a' <= ext[i] <= 'z' || '0' <= ext[i] <= '9' || ext[i] == '.'
        then ext else ""
    ensures (forall j | 1 <= j < |base| :: base[j] != '.') ==> NormalizeExt(path + base, lower) == ""
  {
    F.BaseNameBehind(path, base);
    if EndsIn(base, stem, tail) {
      LastDotSplits(base, stem, tail);
    }
    if forall j | 1 <= j < |base| :: base[j] != '.' {
      NoDotBehind(base);
    }
  }

  function StripToCore(segment: string): string {
    Before(segment, '.')
  }

  function FileKey(core: string, ext: string): string {
    "files/" + core + ext
  }

  function ThumbKey(core: string): string {
    "thumbs/" + core + ".jpg"
  }

  lemma CoreHasNoDot(core: string)
    requires IsCore(core)
    ensures '.' !in core
  {
    assert '.' !in ALPHABET;
  }

  /** A link made of a core and an extension leads back to the core. */
  lemma LinkResolves(core: string, ext: string)
    requires IsCore(core) && IsExtension(ext)
    ensures StripToCore(core + ext) == core
  {
    CoreHasNoDot(core);
    if ext == "" {
      assert core + ext == core;
      BeforeAt(core, '.', "");
    } else {
      assert core + ext == core + ['.'] + ext[1..];
      BeforeAt(core, '.', ext[1..]);
    }
  }

  /** No key made of a core and an extension with one dot at most makes the store panic. */
  lemma KeysAreSafe(core: string, ext: string)
    requires IsCore(core) && (ext == "" || (ext[0] == '.' && '.' !in ext[1..]))
    ensures S.SafeKey(FileKey(core, ext)) && S.SafeKey(ThumbKey(core))
  {
    CoreHasNoDot(core);
    var key := FileKey(core, ext);
    forall i | 0 <= i < |key| - 1
      ensures !(key[i] == '.' && key[i + 1] == '.')
    {
      if i < 14 {
        assert key[..14] == "files/" + core;
        assert key[i] in key[..14] && '.' !in "files/" && '.' !in core;
      } else {
        assert key[i + 1] == ext[i - 13] && ext[i - 13] in ext[1..];
      }
    }
  }

  /** All cores have one length, so keys are spelled alike only for one core and extension, and never across areas. */
  lemma KeysInjective(core: string, ext: string, core': string, ext': string)
    requires IsCore(core) && IsCore(core')
    ensures FileKey(core, ext) == FileKey(core', ext') <==> core == core' && ext == ext'
    ensures ThumbKey(core) == ThumbKey(core') <==> core == core'
    ensures FileKey(core, ext) != ThumbKey(core')
    ensures "files/" <= FileKey(core, ext) && "thumbs/" <= ThumbKey(core)
  {
    var a, b := FileKey(core, ext), FileKey(core', ext');
    assert a[6..6 + ID_LEN] == core && a[6 + ID_LEN..] == ext;
    assert b[6..6 + ID_LEN] == core' && b[6 + ID_LEN..] == ext';
    assert ThumbKey(core)[7..7 + ID_LEN] == core && ThumbKey(core')[7..7 + ID_LEN] == core';
    assert a[0] == 'f' && ThumbKey(core')[0] == 't';
  }
}
