/**
 The assistant's two browser hashes, on UTF-16 code units with 32-bit words: the digest of a text, which
 is also the fingerprint of a context, and the request id minted from a text and the history before it.
 */
module RequestIds {
  import opened Wrappers
  import opened Json
  import opened JsText
  import opened CanonicalJson

  // ---------------------------------------------------------------- 32-bit words

  type Word = bv32

  function Xor(a: Word, b: Word): Word { a ^ b }

  /** The two multipliers. */
  datatype Prime = Fnv | Mix

  function FnvTimes(a: Word): Word { a * 0x01000193 }

  function MixTimes(a: Word): Word { a * 0x85ebca6b }

  /** `Math.imul` by a multiplier, read unsigned. */
  function Times(a: Word, prime: Prime): Word {
    match prime
    case Fnv => FnvTimes(a)
    case Mix => MixTimes(a)
  }

  function Shift13(a: Word): Word { a >> 13 }

  lemma XorCancels(a: Word, b: Word, c: Word)
    ensures Xor(a, b) == Xor(a, c) ==> b == c
    ensures Xor(b, a) == Xor(c, a) ==> b == c
  {
  }

  /** Multiplication by the inverse modulo 2^32. */
  function FnvUndo(a: Word): Word { a * 0x359C449B }

  lemma FnvProduct(a: Word)
    ensures FnvTimes(a) == a * 0x01000193 && FnvUndo(a * 0x01000193) == a
  {
  }

  lemma FnvUndone(a: Word)
    ensures FnvUndo(FnvTimes(a)) == a
  {
    hide FnvTimes, FnvUndo;
    FnvProduct(a);
  }

  /** Multiplication by the inverse modulo 2^32. */
  function MixUndo(a: Word): Word { a * 0xa5cb9243 }

  lemma MixProduct(a: Word)
    ensures MixTimes(a) == a * 0x85ebca6b && MixUndo(a * 0x85ebca6b) == a
  {
  }

  lemma MixUndone(a: Word)
    ensures MixUndo(MixTimes(a)) == a
  {
    hide MixTimes, MixUndo;
    MixProduct(a);
  }

  /** Multiplication by either odd constant can be undone. */
  lemma TimesCancels(a: Word, b: Word, prime: Prime)
    requires Times(a, prime) == Times(b, prime)
    ensures a == b
  {
    hide FnvTimes, FnvUndo, MixTimes, MixUndo;
    FnvUndone(a);
    FnvUndone(b);
    MixUndone(a);
    MixUndone(b);
  }

  lemma XorSwaps(a: Word, b: Word, c: Word, d: Word)
    requires Xor(a, b) == Xor(c, d)
    ensures Xor(a, c) == Xor(b, d)
  {
    BitsSwap(a, b, c, d);
  }

  lemma BitsSwap(a: Word, b: Word, c: Word, d: Word)
    requires a ^ b == c ^ d
    ensures a ^ c == b ^ d
  {
  }

  lemma ShiftXor(a: Word, b: Word)
    ensures Shift13(Xor(a, b)) == Xor(Shift13(a), Shift13(b))
  {
  }

  lemma ShiftFixed(d: Word)
    ensures d == Shift13(d) ==> d == 0
  {
  }

  lemma XorZero(a: Word, b: Word)
    ensures Xor(a, b) == 0 ==> a == b
  {
  }

  /** So can mixing a word with its own upper bits. */
  lemma MixCancels(a: Word, b: Word)
    requires Xor(a, Shift13(a)) == Xor(b, Shift13(b))
    ensures a == b
  {
    hide Xor, Shift13;
    XorSwaps(a, Shift13(a), b, Shift13(b));
    ShiftXor(a, b);
    ShiftFixed(Xor(a, b));
    XorZero(a, b);
  }

  /** The UTF-16 code units of a string, as words. */
  function Words(s: string): seq<Word> { UnitWords(Units(s)) }

  function UnitWords(units: seq<Unit>): (r: seq<Word>)
    ensures |r| == |units|
    ensures forall i :: 0 <= i < |r| ==> r[i] == UnitWord(units[i])
  {
    if units == [] then [] else [UnitWord(units[0])] + UnitWords(units[1..])
  }

  function UnitWord(u: Unit): Word { u as Word }

  // ---------------------------------------------------------------- words in hexadecimal

  function HexChar(n: Word): char {
    if n == 0 then '0' else if n == 1 then '1' else if n == 2 then '2' else if n == 3 then '3'
    else if n == 4 then '4' else if n == 5 then '5' else if n == 6 then '6' else if n == 7 then '7'
    else if n == 8 then '8' else if n == 9 then '9' else if n == 10 then 'a' else if n == 11 then 'b'
    else if n == 12 then 'c' else if n == 13 then 'd' else if n == 14 then 'e' else 'f'
  }

  /** The digits of a word as numbers, the leftmost first. */
  function Nibble(w: Word, k: nat): Word
    requires k < 8
  {
    if k == 0 then (w >> 28) & 15 else if k == 1 then (w >> 24) & 15 else if k == 2 then (w >> 20) & 15 else if k == 3 then (w >> 16) & 15
    else if k == 4 then (w >> 12) & 15 else if k == 5 then (w >> 8) & 15 else if k == 6 then (w >> 4) & 15 else w & 15
  }

  /** A word in eight lower-case digits, zeros first. */
  function Hex8(w: Word): (s: string)
    ensures |s| == 8
    ensures forall k :: 0 <= k < 8 ==> s[k] == HexChar(Nibble(w, k))
  {
    seq(8, k requires 0 <= k < 8 => HexChar(Nibble(w, k)))
  }

  predicate IsLowerHex(c: char) { '0' <= c <= '9' || 'a' <= c <= 'f' }

  lemma HexCharIsHex(n: Word)
    ensures IsLowerHex(HexChar(n))
  {
  }

  lemma Hex8IsHex(w: Word)
    ensures forall i :: 0 <= i < 8 ==> IsLowerHex(Hex8(w)[i])
  {
    hide HexChar, IsLowerHex, Nibble;
    forall i | 0 <= i < 8 ensures IsLowerHex(Hex8(w)[i]) { HexCharIsHex(Nibble(w, i)); }
  }

  lemma HexCharInjective(m: Word, n: Word)
    requires m < 16 && n < 16 && HexChar(m) == HexChar(n)
    ensures m == n
  {
  }

  lemma NibbleSmall(w: Word, k: nat)
    requires k < 8
    ensures Nibble(w, k) < 16
  {
  }

  lemma Hex8Injective(v: Word, w: Word)
    requires Hex8(v) == Hex8(w)
    ensures v == w
  {
    hide HexChar, Nibble;
    forall k | 0 <= k < 8 ensures Nibble(v, k) == Nibble(w, k) {
      assert Hex8(v)[k] == Hex8(w)[k];
      NibbleSmall(v, k);
      NibbleSmall(w, k);
      HexCharInjective(Nibble(v, k), Nibble(w, k));
    }
    NibblesMakeWord(v, w);
  }

  lemma LeadingNibbles(v: Word, w: Word)
    requires Nibble(v, 0) == Nibble(w, 0) && Nibble(v, 1) == Nibble(w, 1) && Nibble(v, 2) == Nibble(w, 2) && Nibble(v, 3) == Nibble(w, 3)
    ensures (v >> 28) & 15 == (w >> 28) & 15 && (v >> 24) & 15 == (w >> 24) & 15 && (v >> 20) & 15 == (w >> 20) & 15 && (v >> 16) & 15 == (w >> 16) & 15
  {
  }

  lemma TrailingNibbles(v: Word, w: Word)
    requires Nibble(v, 4) == Nibble(w, 4) && Nibble(v, 5) == Nibble(w, 5) && Nibble(v, 6) == Nibble(w, 6) && Nibble(v, 7) == Nibble(w, 7)
    ensures (v >> 12) & 15 == (w >> 12) & 15 && (v >> 8) & 15 == (w >> 8) & 15 && (v >> 4) & 15 == (w >> 4) & 15 && v & 15 == w & 15
  {
  }

  lemma NibblesMakeWord(v: Word, w: Word)
    requires forall k :: 0 <= k < 8 ==> Nibble(v, k) == Nibble(w, k)
    ensures v == w
  {
    hide Nibble;
    LeadingNibbles(v, w);
    TrailingNibbles(v, w);
    NibbleBits(v, w);
  }

  lemma NibbleBits(v: bv32, w: bv32)
    requires v & 15 == w & 15 && (v >> 4) & 15 == (w >> 4) & 15 && (v >> 8) & 15 == (w >> 8) & 15 && (v >> 12) & 15 == (w >> 12) & 15
    requires (v >> 16) & 15 == (w >> 16) & 15 && (v >> 20) & 15 == (w >> 20) & 15 && (v >> 24) & 15 == (w >> 24) & 15 && (v >> 28) & 15 == (w >> 28) & 15
    ensures v == w
  {
  }

  // ---------------------------------------------------------------- the digest of a text

  /** One of the digest's two words. */
  function Fold(text: seq<Word>, h: Word, prime: Prime): Word {
    if text == [] then h else Fold(text[1..], Times(Xor(h, text[0]), prime), prime)
  }

  function TextDigest(s: string): string {
    Hex8(Fold(Words(s), 0x811c9dc5, Fnv)) + Hex8(Fold(Words(s), 0x9e3779b9, Mix))
  }

  predicate IsFingerprint(s: string) { |s| == 16 && forall i :: 0 <= i < 16 ==> IsLowerHex(s[i]) }

  lemma DigestIsFingerprint(s: string)
    ensures IsFingerprint(TextDigest(s))
  {
    hide Fold, Hex8, IsLowerHex;
    Hex8IsHex(Fold(Words(s), 0x811c9dc5, Fnv));
    Hex8IsHex(Fold(Words(s), 0x9e3779b9, Mix));
  }

  lemma {:induction false} FoldSplit(a: seq<Word>, b: seq<Word>, h: Word, prime: Prime)
    ensures Fold(a + b, h, prime) == Fold(b, Fold(a, h, prime), prime)
  {
    hide Times, Xor;
    if a == [] {
      assert a + b == b;
    } else {
      assert (a + b)[1..] == a[1..] + b && (a + b)[0] == a[0];
      FoldSplit(a[1..], b, Times(Xor(h, a[0]), prime), prime);
    }
  }

  lemma FoldNext(text: seq<Word>, n: nat, h: Word, prime: Prime)
    requires n < |text|
    ensures Fold(text[..n + 1], h, prime) == Times(Xor(Fold(text[..n], h, prime), text[n]), prime)
  {
    hide Times, Xor;
    assert text[..n + 1] == text[..n] + [text[n]];
    FoldSplit(text[..n], [text[n]], h, prime);
    assert [text[n]][1..] == [];
  }

  method AssistantTextDigest(value: string) returns (digest: string)
    ensures digest == TextDigest(value) && IsFingerprint(digest)
  {
    hide Times, Xor, Hex8, Words, IsFingerprint, Fold;
    var codes := Words(value);
    var first: Word, second: Word := 0x811c9dc5, 0x9e3779b9;
    FoldEmpty(codes, 0x811c9dc5, Fnv);
    FoldEmpty(codes, 0x9e3779b9, Mix);
    for index := 0 to |codes|
      invariant first == Fold(codes[..index], 0x811c9dc5, Fnv)
      invariant second == Fold(codes[..index], 0x9e3779b9, Mix)
    {
      FoldNext(codes, index, 0x811c9dc5, Fnv);
      FoldNext(codes, index, 0x9e3779b9, Mix);
      first := Times(Xor(first, codes[index]), Fnv);
      second := Times(Xor(second, codes[index]), Mix);
    }
    assert codes[..|codes|] == codes;
    digest := Hex8(first) + Hex8(second);
    DigestIsFingerprint(value);
  }

  lemma FoldEmpty(text: seq<Word>, h: Word, prime: Prime)
    ensures Fold(text[..0], h, prime) == h
  {
  }

  /** No step loses information: what differed before it differs after. */
  lemma {:induction false} FoldInjective(text: seq<Word>, g: Word, h: Word, prime: Prime)
    requires Fold(text, g, prime) == Fold(text, h, prime)
    ensures g == h
  {
    hide Times, Xor;
    if text != [] {
      FoldInjective(text[1..], Times(Xor(g, text[0]), prime), Times(Xor(h, text[0]), prime), prime);
      TimesCancels(Xor(g, text[0]), Xor(h, text[0]), prime);
      XorCancels(text[0], g, h);
    }
  }

  /** Both texts are the same but for one code unit. */
  ghost predicate OneUnitApart(a: seq<Word>, b: seq<Word>) {
    |a| == |b| && exists i :: ApartAt(a, b, i)
  }

  ghost predicate ApartAt(a: seq<Word>, b: seq<Word>, i: int) {
    0 <= i < |a| == |b| && a[i] != b[i] && a[..i] == b[..i] && a[i + 1..] == b[i + 1..]
  }

  lemma ApartFolds(a: seq<Word>, b: seq<Word>, h: Word, prime: Prime)
    requires OneUnitApart(a, b)
    ensures Fold(a, h, prime) != Fold(b, h, prime)
  {
    hide Times, Xor;
    var i :| ApartAt(a, b, i);
    var before := Fold(a[..i], h, prime);
    FoldAt(a, i, h, prime);
    FoldAt(b, i, h, prime);
    var g, g' := Times(Xor(before, a[i]), prime), Times(Xor(before, b[i]), prime);
    if Fold(a, h, prime) == Fold(b, h, prime) {
      FoldInjective(a[i + 1..], g, g', prime);
      TimesCancels(Xor(before, a[i]), Xor(before, b[i]), prime);
      XorCancels(before, a[i], b[i]);
    }
  }

  lemma FoldAt(text: seq<Word>, i: nat, h: Word, prime: Prime)
    requires i < |text|
    ensures Fold(text, h, prime) == Fold(text[i + 1..], Times(Xor(Fold(text[..i], h, prime), text[i]), prime), prime)
  {
    assert text == text[..i + 1] + text[i + 1..];
    FoldSplit(text[..i + 1], text[i + 1..], h, prime);
    hide Times, Xor;
    FoldNext(text, i, h, prime);
  }

  /** One changed code unit always shows, in either half of the digest. */
  lemma OneUnitChangesDigest(s: string, t: string)
    requires OneUnitApart(Words(s), Words(t))
    ensures TextDigest(s)[..8] != TextDigest(t)[..8] && TextDigest(s)[8..] != TextDigest(t)[8..]
  {
    hide Fold, Hex8, Words, OneUnitApart;
    ApartFolds(Words(s), Words(t), 0x811c9dc5, Fnv);
    ApartFolds(Words(s), Words(t), 0x9e3779b9, Mix);
    Halves(Fold(Words(s), 0x811c9dc5, Fnv), Fold(Words(s), 0x9e3779b9, Mix));
    Halves(Fold(Words(t), 0x811c9dc5, Fnv), Fold(Words(t), 0x9e3779b9, Mix));
    if Hex8(Fold(Words(s), 0x811c9dc5, Fnv)) == Hex8(Fold(Words(t), 0x811c9dc5, Fnv)) {
      Hex8Injective(Fold(Words(s), 0x811c9dc5, Fnv), Fold(Words(t), 0x811c9dc5, Fnv));
    }
    if Hex8(Fold(Words(s), 0x9e3779b9, Mix)) == Hex8(Fold(Words(t), 0x9e3779b9, Mix)) {
      Hex8Injective(Fold(Words(s), 0x9e3779b9, Mix), Fold(Words(t), 0x9e3779b9, Mix));
    }
  }

  lemma Halves(v: Word, w: Word)
    ensures (Hex8(v) + Hex8(w))[..8] == Hex8(v) && (Hex8(v) + Hex8(w))[8..] == Hex8(w)
  {
  }

  // ---------------------------------------------------------------- the request id of a text

  function UuidStep(h: Word, code: Word, offset: Word): Word {
    var mixed := Times(Xor(h, code + offset), Fnv);
    Xor(mixed, Shift13(mixed))
  }

  /** One of the id's four words. */
  function UuidFold(text: seq<Word>, h: Word, offset: Word): Word {
    if text == [] then h else UuidFold(text[1..], UuidStep(h, text[0], offset), offset)
  }

  /** The variant digit keeps two bits of the hash. */
  function VariantChar(w: Word): char { HexChar((Nibble(w, 0) & 3) | 8) }

  /** The four words in hexadecimal, with the version and the variant put in their places. */
  function Layout(a: Word, b: Word, c: Word, d: Word): string {
    Hex8(a) + "-" + Hex8(b)[..4] + "-" + "4" + Hex8(b)[5..] + "-" + [VariantChar(c)] + Hex8(c)[1..4] + "-" + Hex8(c)[4..] + Hex8(d)
  }

  const SEED0: Word := 0x811c9dc5
  const SEED1: Word := 0x9e3779b9
  const SEED2: Word := 0x85ebca6b
  const SEED3: Word := 0xc2b2ae35

  /** `deterministicRequestUuid`; word k adds 131 k to every code unit. */
  function RequestUuid(value: string): string {
    var text := Words(value);
    Layout(UuidFold(text, SEED0, 0), UuidFold(text, SEED1, 131), UuidFold(text, SEED2, 262), UuidFold(text, SEED3, 393))
  }

  method UuidWord(text: seq<Word>, seed: Word, offset: Word) returns (hash: Word)
    ensures hash == UuidFold(text, seed, offset)
  {
    hide UuidStep;
    hash := seed;
    for index := 0 to |text|
      invariant UuidFold(text, seed, offset) == UuidFold(text[index..], hash, offset)
    {
      assert text[index..][1..] == text[index + 1..];
      hash := UuidStep(hash, text[index], offset);
    }
  }

  method DeterministicRequestUuid(value: string) returns (id: string)
    ensures id == RequestUuid(value) && IsUuid(id)
  {
    hide Layout, UuidFold, IsUuid, Words;
    var text := Words(value);
    var first := UuidWord(text, SEED0, 0);
    var second := UuidWord(text, SEED1, 131);
    var third := UuidWord(text, SEED2, 262);
    var fourth := UuidWord(text, SEED3, 393);
    id := Layout(first, second, third, fourth);
    RequestUuidFormat(value);
  }

  lemma LowerHexIsHex(c: char)
    requires IsLowerHex(c)
    ensures IsHex(c)
  {
  }

  lemma VariantIs8To11(w: Word)
    ensures VariantChar(w) in {'8', '9', 'a', 'b'}
  {
    hide Nibble;
    VariantBits(Nibble(w, 0));
  }

  lemma VariantBits(n: bv32)
    ensures var v := (n & 3) | 8; v == 8 || v == 9 || v == 10 || v == 11
  {
  }

  lemma LayoutFormat(a: Word, b: Word, c: Word, d: Word)
    ensures IsUuid(Layout(a, b, c, d))
  {
    Hex8IsHex(a);
    Hex8IsHex(b);
    Hex8IsHex(c);
    Hex8IsHex(d);
    VariantIs8To11(c);
    hide Hex8, VariantChar, IsHex, IsLowerHex;
    forall ch: char | IsLowerHex(ch) ensures IsHex(ch) { LowerHexIsHex(ch); }
    assert IsHex('4') && IsHex(VariantChar(c)) by { HexDigitsAreHex(); }
    var id := Layout(a, b, c, d);
    LayoutAt(Hex8(a), Hex8(b), Hex8(c), Hex8(d), VariantChar(c), id);
    forall i | 0 <= i < 36 && i !in {8, 13, 18, 23} ensures IsHex(id[i]) {
      if i < 8 { assert id[i] == Hex8(a)[i]; }
      else if i < 13 { assert id[9 + (i - 9)] == Hex8(b)[i - 9]; }
      else if 14 < i < 18 { assert id[14 + (i - 14)] == Hex8(b)[4 + (i - 14)]; }
      else if 19 < i < 23 { assert id[19 + (i - 19)] == Hex8(c)[i - 19]; }
      else if 23 < i < 28 { assert id[24 + (i - 24)] == Hex8(c)[4 + (i - 24)]; }
      else if 28 <= i { assert id[28 + (i - 28)] == Hex8(d)[i - 28]; }
    }
  }

  lemma HexDigitsAreHex()
    ensures IsHex('4') && IsHex('8') && IsHex('9') && IsHex('a') && IsHex('b')
  {
  }

  lemma LayoutAt(a: string, b: string, c: string, d: string, v: char, id: string)
    requires |a| == |b| == |c| == |d| == 8
    requires id == a + "-" + b[..4] + "-" + "4" + b[5..] + "-" + [v] + c[1..4] + "-" + c[4..] + d
    ensures |id| == 36
    ensures id[8] == id[13] == id[18] == id[23] == '-' && id[14] == '4' && id[19] == v
    ensures forall i :: 0 <= i < 8 ==> id[i] == a[i] && id[28 + i] == d[i]
    ensures forall i :: 0 <= i < 4 ==> id[9 + i] == b[i] && id[24 + i] == c[4 + i]
    ensures forall i :: 1 <= i < 4 ==> id[14 + i] == b[4 + i] && id[19 + i] == c[i]
  {
  }

  /** Section 4.1 of RFC 4122: every id has version 4 and the variant bits 10. */
  lemma RequestUuidFormat(value: string)
    ensures IsUuid(RequestUuid(value))
  {
    hide UuidFold, Layout, IsUuid;
    var text := Words(value);
    LayoutFormat(UuidFold(text, SEED0, 0), UuidFold(text, SEED1, 131), UuidFold(text, SEED2, 262), UuidFold(text, SEED3, 393));
  }

  lemma UuidStepCancels(g: Word, h: Word, code: Word, code': Word)
    requires UuidStep(g, code, 0) == UuidStep(h, code', 0)
    ensures Xor(g, code) == Xor(h, code')
  {
    hide Xor, Times, Shift13;
    assert code + 0 == code && code' + 0 == code';
    MixCancels(Times(Xor(g, code), Fnv), Times(Xor(h, code'), Fnv));
    TimesCancels(Xor(g, code), Xor(h, code'), Fnv);
  }

  lemma {:induction false} UuidFoldInjective(text: seq<Word>, g: Word, h: Word)
    requires UuidFold(text, g, 0) == UuidFold(text, h, 0)
    ensures g == h
  {
    hide UuidStep, Xor;
    if text != [] {
      UuidFoldInjective(text[1..], UuidStep(g, text[0], 0), UuidStep(h, text[0], 0));
      UuidStepCancels(g, h, text[0], text[0]);
      XorCancels(text[0], g, h);
    }
  }

  lemma {:induction false} UuidFoldAt(text: seq<Word>, i: nat, h: Word)
    requires i <= |text|
    ensures UuidFold(text, h, 0) == UuidFold(text[i..], UuidFold(text[..i], h, 0), 0)
  {
    hide UuidStep;
    if i == 0 {
      assert text[0..] == text;
    } else {
      assert text[..i][1..] == text[1..][..i - 1] && text[1..][i - 1..] == text[i..];
      UuidFoldAt(text[1..], i - 1, UuidStep(h, text[0], 0));
    }
  }

  /** One changed code unit always shows in the first group of the id. */
  lemma OneUnitChangesId(s: string, t: string)
    requires OneUnitApart(Words(s), Words(t))
    ensures |RequestUuid(s)| == |RequestUuid(t)| == 36 && RequestUuid(s)[..8] != RequestUuid(t)[..8]
  {
    FirstGroup(s);
    FirstGroup(t);
    hide UuidFold, Hex8, RequestUuid, Words, OneUnitApart;
    ApartUuidFolds(Words(s), Words(t));
    var v, w := UuidFold(Words(s), SEED0, 0), UuidFold(Words(t), SEED0, 0);
    if Hex8(v) == Hex8(w) { Hex8Injective(v, w); }
  }

  lemma ApartUuidFolds(a: seq<Word>, b: seq<Word>)
    requires OneUnitApart(a, b)
    ensures UuidFold(a, SEED0, 0) != UuidFold(b, SEED0, 0)
  {
    hide UuidStep, Xor;
    var i :| ApartAt(a, b, i);
    var before := UuidFold(a[..i], SEED0, 0);
    UuidFoldAt(a, i, SEED0);
    UuidFoldAt(b, i, SEED0);
    assert a[i..][1..] == a[i + 1..] && b[i..][1..] == b[i + 1..] && a[i..][0] == a[i] && b[i..][0] == b[i];
    assert UuidFold(a, SEED0, 0) == UuidFold(a[i + 1..], UuidStep(before, a[i], 0), 0);
    assert UuidFold(b, SEED0, 0) == UuidFold(a[i + 1..], UuidStep(before, b[i], 0), 0);
    hide UuidFold;
    if UuidFold(a, SEED0, 0) == UuidFold(b, SEED0, 0) {
      UuidFoldInjective(a[i + 1..], UuidStep(before, a[i], 0), UuidStep(before, b[i], 0));
      UuidStepCancels(before, before, a[i], b[i]);
      XorCancels(before, a[i], b[i]);
    }
  }

  lemma FirstGroup(s: string)
    ensures |RequestUuid(s)| == 36 && RequestUuid(s)[..8] == Hex8(UuidFold(Words(s), SEED0, 0))
  {
    hide UuidFold, Hex8, VariantChar;
    var text := Words(s);
    var a, b, c, d := UuidFold(text, SEED0, 0), UuidFold(text, SEED1, 131), UuidFold(text, SEED2, 262), UuidFold(text, SEED3, 393);
    LayoutAt(Hex8(a), Hex8(b), Hex8(c), Hex8(d), VariantChar(c), Layout(a, b, c, d));
  }

  // ---------------------------------------------------------------- the id of a request

  /** Whether one id sorts before another: by code units. */
  predicate IdLess(a: string, b: string) { LexLess(Units(a), Units(b)) }

  function InsertId(id: string, ids: seq<string>): seq<string> {
    if ids == [] || !IdLess(ids[0], id) then [id] + ids else [ids[0]] + InsertId(id, ids[1..])
  }

  function SortIds(ids: seq<string>): seq<string> {
    if ids == [] then [] else InsertId(ids[0], SortIds(ids[1..]))
  }

  ghost predicate IdsSorted(ids: seq<string>) { forall i, j :: 0 <= i < j < |ids| ==> !IdLess(ids[j], ids[i]) }

  lemma {:induction false} InsertIdKeeps(id: string, ids: seq<string>)
    requires IdsSorted(ids)
    ensures IdsSorted(InsertId(id, ids)) && multiset(InsertId(id, ids)) == multiset(ids) + multiset{id}
  {
    hide IdLess;
    if ids == [] {
    } else if !IdLess(ids[0], id) {
      forall j | 0 <= j < |ids| ensures !IdLess(ids[j], id) {
        if j > 0 { IdTransitive(id, ids[0], ids[j]); }
      }
      assert InsertId(id, ids) == [id] + ids;
    } else {
      InsertIdKeeps(id, ids[1..]);
      var r := InsertId(id, ids[1..]);
      assert ids == [ids[0]] + ids[1..];
      IdLessAsymmetric(ids[0], id);
      forall j | 0 <= j < |r| ensures !IdLess(r[j], ids[0]) {
        assert r[j] in multiset(ids[1..]) + multiset{id};
      }
      assert InsertId(id, ids) == [ids[0]] + r;
    }
  }

  lemma IdTransitive(a: string, b: string, c: string)
    requires !IdLess(b, a) && !IdLess(c, b)
    ensures !IdLess(c, a)
  {
    LexTransitive(Units(a), Units(b), Units(c));
  }

  lemma IdLessAsymmetric(a: string, b: string)
    requires IdLess(a, b)
    ensures !IdLess(b, a)
  {
    LexTotal(Units(a), Units(b));
  }

  lemma {:induction false} SortIdsSorts(ids: seq<string>)
    ensures IdsSorted(SortIds(ids)) && multiset(SortIds(ids)) == multiset(ids)
  {
    if ids != [] {
      SortIdsSorts(ids[1..]);
      InsertIdKeeps(ids[0], SortIds(ids[1..]));
      assert ids == [ids[0]] + ids[1..];
    }
  }

  lemma {:induction false} SortedIdsUnique(a: seq<string>, b: seq<string>)
    requires IdsSorted(a) && IdsSorted(b) && multiset(a) == multiset(b)
    ensures a == b
  {
    assert |multiset(a)| == |multiset(b)|;
    if a != [] {
      SameFirst(a, b);
      SameRest(a, b);
      assert IdsSorted(a[1..]) && IdsSorted(b[1..]) by { hide IdLess; }
      hide IdsSorted, IdLess;
      SortedIdsUnique(a[1..], b[1..]);
      assert a == [a[0]] + a[1..] && b == [b[0]] + b[1..];
    }
  }

  lemma SameRest(a: seq<string>, b: seq<string>)
    requires a != [] && b != [] && a[0] == b[0] && multiset(a) == multiset(b)
    ensures multiset(a[1..]) == multiset(b[1..])
  {
    assert a == [a[0]] + a[1..] && b == [b[0]] + b[1..];
    assert multiset(a[1..]) == multiset(a) - multiset{a[0]};
    assert multiset(b[1..]) == multiset(b) - multiset{b[0]};
  }

  lemma SameFirst(a: seq<string>, b: seq<string>)
    requires a != [] && b != [] && IdsSorted(a) && IdsSorted(b) && multiset(a) == multiset(b)
    ensures a[0] == b[0]
  {
    hide IdLess;
    FirstLeast(b, a[0]) by { assert a[0] in multiset(b); }
    FirstLeast(a, b[0]) by { assert b[0] in multiset(a); }
    IdAntisymmetric(a[0], b[0]);
  }

  lemma FirstLeast(ids: seq<string>, id: string)
    requires ids != [] && IdsSorted(ids) && id in ids
    ensures !IdLess(id, ids[0])
  {
    hide IdLess;
    var i :| 0 <= i < |ids| && ids[i] == id;
    if IdLess(id, ids[0]) { IdLessAsymmetric(id, ids[0]); }
  }

  lemma IdAntisymmetric(a: string, b: string)
    requires !IdLess(a, b) && !IdLess(b, a)
    ensures a == b
  {
    LexTotal(Units(a), Units(b));
    UnitsInjective(a, b);
  }

  function StrItems(ids: seq<string>): seq<Json> {
    seq(|ids|, i requires 0 <= i < |ids| => Str(ids[i]))
  }

  /** The text a request id is hashed from. */
  function Baseline(text: string, ids: seq<string>, historyBaselineReady: bool, contextFingerprint: string): string {
    Print(BaselineJson(text, ids, historyBaselineReady, contextFingerprint))
  }

  function BaselineJson(text: string, ids: seq<string>, historyBaselineReady: bool, contextFingerprint: string): Json {
    Obj([Entry("text", Str(text)), Entry("knownTurnIds", Arr(StrItems(SortIds(ids)))),
         Entry("historyBaselineReady", Bool(historyBaselineReady)), Entry("contextFingerprint", Str(contextFingerprint))])
  }

  lemma BaselineParses(text: string, ids: seq<string>, ready: bool, context: string)
    ensures Parse(Baseline(text, ids, ready, context)) == Some(BaselineJson(text, ids, ready, context))
  {
    hide SortIds, Parse, Print;
    PrintRoundTrip(BaselineJson(text, ids, ready, context));
  }

  lemma BaselineJsonDecides(text: string, ids: seq<string>, ready: bool, context: string, text': string, ids': seq<string>, ready': bool, context': string)
    requires BaselineJson(text, ids, ready, context) == BaselineJson(text', ids', ready', context')
    ensures text == text' && SortIds(ids) == SortIds(ids') && ready == ready' && context == context'
  {
    hide SortIds;
    var es, es' := BaselineJson(text, ids, ready, context).entries, BaselineJson(text', ids', ready', context').entries;
    assert es[0] == es'[0] && es[1] == es'[1] && es[2] == es'[2] && es[3] == es'[3];
    StrItemsInjective(SortIds(ids), SortIds(ids'));
  }

  /** The hashed text tells apart everything but the order of the turns. */
  lemma BaselineDecides(text: string, ids: seq<string>, ready: bool, context: string, text': string, ids': seq<string>, ready': bool, context': string)
    ensures Baseline(text, ids, ready, context) == Baseline(text', ids', ready', context')
        <==> text == text' && multiset(ids) == multiset(ids') && ready == ready' && context == context'
  {
    SortIdsSorts(ids);
    SortIdsSorts(ids');
    if multiset(ids) == multiset(ids') { SortedIdsUnique(SortIds(ids), SortIds(ids')); }
    BaselineParses(text, ids, ready, context);
    BaselineParses(text', ids', ready', context');
    hide SortIds, IdsSorted, Parse, Print, BaselineJson;
    if Baseline(text, ids, ready, context) == Baseline(text', ids', ready', context') {
      BaselineJsonDecides(text, ids, ready, context, text', ids', ready', context');
    }
  }

  lemma StrItemsInjective(a: seq<string>, b: seq<string>)
    requires StrItems(a) == StrItems(b)
    ensures a == b
  {
    assert |StrItems(a)| == |a| && |StrItems(b)| == |b|;
    assert forall i :: 0 <= i < |a| ==> StrItems(a)[i].s == a[i];
  }

  function MintedId(text: string, ids: seq<string>, historyBaselineReady: bool, contextFingerprint: string): string {
    RequestUuid(Baseline(text, ids, historyBaselineReady, contextFingerprint))
  }

  /** The id depends on which turns are known, not on their order: two windows that race mint the same one. */
  lemma MintedIdIgnoresOrder(text: string, ids: seq<string>, ids': seq<string>, ready: bool, context: string)
    requires multiset(ids) == multiset(ids')
    ensures MintedId(text, ids, ready, context) == MintedId(text, ids', ready, context)
  {
    SortIdsSorts(ids);
    SortIdsSorts(ids');
    SortedIdsUnique(SortIds(ids), SortIds(ids'));
  }

  // ---------------------------------------------------------------- the fingerprint of a context

  datatype Chat = Chat(name: string, phone: string, conversationId: Option<string>, leadId: Option<string>, isGroup: Option<bool>)

  datatype Context = Context(companyId: string, threadId: string, pathname: Option<string>, whatsapp: Option<Chat>)

  function Digits(s: string): string {
    if s == [] then [] else (if IsDigit(s[0]) then [s[0]] else []) + Digits(s[1..])
  }

  function OrEmpty(s: Option<string>): string { if s.Some? then s.value else "" }

  function ChatJson(c: Chat): Json {
    Obj([Entry("phone", Str(Digits(c.phone))), Entry("conversationId", Str(OrEmpty(c.conversationId))),
         Entry("leadId", Str(OrEmpty(c.leadId))), Entry("isGroup", Bool(c.isGroup == Some(true)))])
  }

  function ContextJson(c: Context): Json {
    Obj([Entry("companyId", Str(c.companyId)), Entry("threadId", Str(c.threadId)),
         Entry("whatsapp", if c.whatsapp.Some? then ChatJson(c.whatsapp.value) else Null)])
  }

  function ContextText(c: Context): string { Print(ContextJson(c)) }

  function ContextFingerprint(c: Context): string { TextDigest(ContextText(c)) }

  /** Same company, thread, phone digits, conversation, lead and kind of chat; names and routes do not count. */
  predicate SameContext(c: Context, d: Context) {
    && c.companyId == d.companyId && c.threadId == d.threadId && c.whatsapp.Some? == d.whatsapp.Some?
    && (c.whatsapp.Some? ==>
          var x, y := c.whatsapp.value, d.whatsapp.value;
          && Digits(x.phone) == Digits(y.phone)
          && OrEmpty(x.conversationId) == OrEmpty(y.conversationId)
          && OrEmpty(x.leadId) == OrEmpty(y.leadId)
          && (x.isGroup == Some(true) <==> y.isGroup == Some(true)))
  }

  lemma ContextParses(c: Context)
    ensures Parse(ContextText(c)) == Some(ContextJson(c))
  {
    hide Parse, Print, Digits;
    PrintRoundTrip(ContextJson(c));
  }

  lemma ContextJsonDecides(c: Context, d: Context)
    ensures ContextJson(c) == ContextJson(d) <==> SameContext(c, d)
  {
    hide Digits;
    if ContextJson(c) == ContextJson(d) {
      var es, fs := ContextJson(c).entries, ContextJson(d).entries;
      assert es[0] == fs[0] && es[1] == fs[1] && es[2] == fs[2];
      if c.whatsapp.Some? && d.whatsapp.Some? {
        var x, y := ChatJson(c.whatsapp.value).entries, ChatJson(d.whatsapp.value).entries;
        assert x[0] == y[0] && x[1] == y[1] && x[2] == y[2] && x[3] == y[3];
      }
    }
  }

  /** The fingerprinted text changes exactly with what identifies the conversation. */
  lemma ContextTextDecides(c: Context, d: Context)
    ensures ContextText(c) == ContextText(d) <==> SameContext(c, d)
  {
    ContextParses(c);
    ContextParses(d);
    ContextJsonDecides(c, d);
    hide Parse, ContextJson, SameContext;
    assert ContextJson(c) == ContextJson(d) ==> ContextText(c) == ContextText(d);
  }
}
