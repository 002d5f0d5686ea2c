/**
 Which addresses outgoing requests may go to: bit-mask tests on IPv4 addresses, and IPv6 addresses read
 from any of their textual forms.

 `isIP` of the platform has told the family; an IPv4 address is given by the octets its text splits into.
 */
module EgressAddresses {
  import opened Wrappers
  import opened Json
  import opened Powers

  // ---------------------------------------------------------------- IPv4

  datatype Octets = Octets(a: bv32, b: bv32, c: bv32, d: bv32)

  predicate ValidOctets(o: Octets) { o.a < 256 && o.b < 256 && o.c < 256 && o.d < 256 }

  function Ipv4ToNumber(o: Octets): bv32 { (((((o.a << 8) | o.b) << 8) | o.c) << 8) | o.d }

  type Prefix = p: bv6 | p <= 32

  function Mask(prefix: Prefix): bv32 { if prefix == 0 then 0 else 0xffffffff << (32 - prefix) }

  /** Equal where the mask has bits. */
  predicate Agree(v: bv32, n: bv32, m: bv32) { v & m == n & m }

  predicate InCidr(value: bv32, network: bv32, prefix: Prefix) { Agree(value, network, Mask(prefix)) }

  /** Between the network's first address, the bits outside the mask zero, and its last, those bits one. */
  predicate Within(v: bv32, n: bv32, m: bv32) { n & m <= v && v <= (n & m) | !m }

  /** The bits outside the mask are the last ones. */
  predicate LastBitsFree(m: bv32) { !m & (!m + 1) == 0 }

  lemma MaskLeavesLast(prefix: Prefix)
    ensures LastBitsFree(Mask(prefix))
  {
  }

  lemma AgreeWithin(v: bv32, n: bv32, m: bv32)
    requires Agree(v, n, m)
    ensures Within(v, n, m)
  {
  }

  lemma WithinDiffers(v: bv32, n: bv32, m: bv32)
    requires LastBitsFree(m) && Within(v, n, m)
    ensures (v ^ (n & m)) & m == 0
  {
  }

  lemma SameMasked(v: bv32, n: bv32, m: bv32)
    requires (v ^ (n & m)) & m == 0
    ensures Agree(v, n, m)
  {
  }

  lemma WithinAgree(v: bv32, n: bv32, m: bv32)
    requires LastBitsFree(m) && Within(v, n, m)
    ensures Agree(v, n, m)
  {
    WithinDiffers(v, n, m);
    hide LastBitsFree, Within, Agree;
    SameMasked(v, n, m);
  }

  /** Section 3.1 of RFC 4632: a block is the interval from its first address to its last. */
  lemma CidrIsInterval(value: bv32, network: bv32, prefix: Prefix)
    ensures InCidr(value, network, prefix) <==> Within(value, network, Mask(prefix))
  {
    MaskLeavesLast(prefix);
    hide Mask, LastBitsFree, Within, Agree;
    if InCidr(value, network, prefix) {
      AgreeWithin(value, network, Mask(prefix));
    }
    if Within(value, network, Mask(prefix)) {
      WithinAgree(value, network, Mask(prefix));
    }
  }

  const BLOCKED_IPV4: seq<(Octets, Prefix)> := [
    (Octets(0, 0, 0, 0), 8),
    (Octets(10, 0, 0, 0), 8),
    (Octets(100, 64, 0, 0), 10),
    (Octets(127, 0, 0, 0), 8),
    (Octets(169, 254, 0, 0), 16),
    (Octets(172, 16, 0, 0), 12),
    (Octets(192, 0, 0, 0), 24),
    (Octets(192, 0, 2, 0), 24),
    (Octets(192, 31, 196, 0), 24),
    (Octets(192, 52, 193, 0), 24),
    (Octets(192, 88, 99, 0), 24),
    (Octets(192, 168, 0, 0), 16),
    (Octets(192, 175, 48, 0), 24),
    (Octets(198, 18, 0, 0), 15),
    (Octets(198, 51, 100, 0), 24),
    (Octets(203, 0, 113, 0), 24),
    (Octets(224, 0, 0, 0), 4),
    (Octets(240, 0, 0, 0), 4)
  ]

  predicate InBlock(o: Octets, block: (Octets, Prefix)) { InCidr(Ipv4ToNumber(o), Ipv4ToNumber(block.0), block.1) }

  method IsPublicIpv4(o: Octets) returns (public: bool)
    ensures public <==> forall i :: 0 <= i < |BLOCKED_IPV4| ==> !InBlock(o, BLOCKED_IPV4[i])
  {
    hide InBlock;
    for n := 0 to |BLOCKED_IPV4|
      invariant forall i :: 0 <= i < n ==> !InBlock(o, BLOCKED_IPV4[i])
    {
      if InBlock(o, BLOCKED_IPV4[n]) { return false; }
    }
    return true;
  }

  /** The addresses that are not public, read off the octets. */
  predicate Reserved(o: Octets) {
    || o.a == 0 || o.a == 10 || o.a == 127 || 224 <= o.a
    || (o.a == 100 && 64 <= o.b < 128)
    || (o.a == 169 && o.b == 254)
    || (o.a == 172 && 16 <= o.b < 32)
    || (o.a == 192 && (o.b == 168
                       || (o.b == 0 && (o.c == 0 || o.c == 2)) || (o.b == 31 && o.c == 196) || (o.b == 52 && o.c == 193)
                       || (o.b == 88 && o.c == 99) || (o.b == 175 && o.c == 48)))
    || (o.a == 198 && (o.b == 18 || o.b == 19 || (o.b == 51 && o.c == 100)))
    || (o.a == 203 && o.b == 0 && o.c == 113)
  }

  /** The octets that name an address of a block. */
  predicate InRange(o: Octets, i: nat)
    requires i < 18
  {
    var Octets(a, b, c, d) := o;
    if i == 0 then a == 0
    else if i == 1 then a == 10
    else if i == 2 then a == 100 && 64 <= b < 128
    else if i == 3 then a == 127
    else if i == 4 then a == 169 && b == 254
    else if i == 5 then a == 172 && 16 <= b < 32
    else if i == 6 then a == 192 && b == 0 && c == 0
    else if i == 7 then a == 192 && b == 0 && c == 2
    else if i == 8 then a == 192 && b == 31 && c == 196
    else if i == 9 then a == 192 && b == 52 && c == 193
    else if i == 10 then a == 192 && b == 88 && c == 99
    else if i == 11 then a == 192 && b == 168
    else if i == 12 then a == 192 && b == 175 && c == 48
    else if i == 13 then a == 198 && (b == 18 || b == 19)
    else if i == 14 then a == 198 && b == 51 && c == 100
    else if i == 15 then a == 203 && b == 0 && c == 113
    else if i == 16 then 224 <= a < 240
    else 240 <= a
  }

  /** The blocks that the first octet tells. */
  lemma OneOctetBlocks(o: Octets)
    requires ValidOctets(o)
    ensures InBlock(o, (Octets(0, 0, 0, 0), 8)) <==> InRange(o, 0)
    ensures InBlock(o, (Octets(10, 0, 0, 0), 8)) <==> InRange(o, 1)
    ensures InBlock(o, (Octets(127, 0, 0, 0), 8)) <==> InRange(o, 3)
    ensures InBlock(o, (Octets(224, 0, 0, 0), 4)) <==> InRange(o, 16)
    ensures InBlock(o, (Octets(240, 0, 0, 0), 4)) <==> InRange(o, 17)
  {
  }

  /** The blocks that the first two octets tell. */
  lemma NearTwoOctetBlocks(o: Octets)
    requires ValidOctets(o)
    ensures InBlock(o, (Octets(100, 64, 0, 0), 10)) <==> InRange(o, 2)
    ensures InBlock(o, (Octets(169, 254, 0, 0), 16)) <==> InRange(o, 4)
    ensures InBlock(o, (Octets(172, 16, 0, 0), 12)) <==> InRange(o, 5)
  {
  }

  lemma FarTwoOctetBlocks(o: Octets)
    requires ValidOctets(o)
    ensures InBlock(o, (Octets(192, 168, 0, 0), 16)) <==> InRange(o, 11)
    ensures InBlock(o, (Octets(198, 18, 0, 0), 15)) <==> InRange(o, 13)
  {
  }

  /** The blocks of three octets, up to 192.52.193. */
  lemma NearThreeOctetBlocks(o: Octets)
    requires ValidOctets(o)
    ensures InBlock(o, (Octets(192, 0, 0, 0), 24)) <==> InRange(o, 6)
    ensures InBlock(o, (Octets(192, 0, 2, 0), 24)) <==> InRange(o, 7)
    ensures InBlock(o, (Octets(192, 31, 196, 0), 24)) <==> InRange(o, 8)
    ensures InBlock(o, (Octets(192, 52, 193, 0), 24)) <==> InRange(o, 9)
  {
  }

  /** And those after it. */
  lemma FarThreeOctetBlocks(o: Octets)
    requires ValidOctets(o)
    ensures InBlock(o, (Octets(192, 88, 99, 0), 24)) <==> InRange(o, 10)
    ensures InBlock(o, (Octets(192, 175, 48, 0), 24)) <==> InRange(o, 12)
    ensures InBlock(o, (Octets(198, 51, 100, 0), 24)) <==> InRange(o, 14)
    ensures InBlock(o, (Octets(203, 0, 113, 0), 24)) <==> InRange(o, 15)
  {
  }

  lemma BlockIsRange(o: Octets, i: nat)
    requires ValidOctets(o) && i < 18
    ensures |BLOCKED_IPV4| == 18 && (InBlock(o, BLOCKED_IPV4[i]) <==> InRange(o, i))
  {
    hide InBlock, InRange, ValidOctets;
    match i
    case 0 | 1 | 3 | 16 | 17 => OneOctetBlocks(o);
    case 2 | 4 | 5 => NearTwoOctetBlocks(o);
    case 11 | 13 => FarTwoOctetBlocks(o);
    case 6 | 7 | 8 | 9 => NearThreeOctetBlocks(o);
    case _ => FarThreeOctetBlocks(o);
  }

  /** An IPv4 address is public exactly if its octets are in none of the reserved ranges. */
  lemma PublicIpv4Iff(o: Octets)
    requires ValidOctets(o)
    ensures (forall i :: 0 <= i < |BLOCKED_IPV4| ==> !InBlock(o, BLOCKED_IPV4[i])) <==> !Reserved(o)
  {
    hide InBlock, InRange, ValidOctets, Reserved;
    forall i | 0 <= i < 18 ensures InBlock(o, BLOCKED_IPV4[i]) <==> InRange(o, i) { BlockIsRange(o, i); }
    ReservedIsSomeRange(o);
  }

  lemma ReservedIsSomeRange(o: Octets)
    requires ValidOctets(o)
    ensures Reserved(o) <==> exists i :: 0 <= i < 18 && InRange(o, i)
  {
    assert Reserved(o) <==> InRange(o, 0) || InRange(o, 1) || InRange(o, 2) || InRange(o, 3) || InRange(o, 4) || InRange(o, 5) || InRange(o, 6)
                            || InRange(o, 7) || InRange(o, 8) || InRange(o, 9) || InRange(o, 10) || InRange(o, 11) || InRange(o, 12)
                            || InRange(o, 13) || InRange(o, 14) || InRange(o, 15) || InRange(o, 16) || InRange(o, 17);
  }

  // ---------------------------------------------------------------- IPv6 texts

  /** A text split at every separator. */
  function Split(s: string, separator: char): (r: seq<string>)
    ensures r != []
  {
    if s == "" then [""]
    else
      var rest := Split(s[1..], separator);
      if s[0] == separator then [""] + rest else [[s[0]] + rest[0]] + rest[1..]
  }

  /** A text split at every double colon, from the left. */
  function Halves(s: string): (r: seq<string>)
    ensures r != []
    decreases |s|
  {
    if |s| < 2 then [s]
    else if s[0] == ':' && s[1] == ':' then [""] + Halves(s[2..])
    else
      var rest := Halves(s[1..]);
      [[s[0]] + rest[0]] + rest[1..]
  }

  predicate AllHex(g: string) { forall i :: 0 <= i < |g| ==> HexValue(g[i]).Some? }

  function HexNumber(g: string): nat
    requires AllHex(g)
  {
    if g == "" then 0 else 16 * HexNumber(g[..|g| - 1]) + HexValue(g[|g| - 1]).value
  }

  /** The eight groups as one number; a group that is not hexadecimal is an error, an empty one is zero. */
  function Fold(groups: seq<string>): Option<nat> {
    if groups == [] then Some(0)
    else
      var last := groups[|groups| - 1];
      match Fold(groups[..|groups| - 1])
      case Some(v) => if AllHex(last) then Some(0x10000 * v + HexNumber(last)) else None
      case None => None
  }

  function Zeros(n: nat): seq<string> { seq(n, _ => "0") }

  function HalfGroups(half: string): seq<string> { if half == "" then [] else Split(half, ':') }

  /** `expandIpv6`; None where it throws. Groups have at most four digits, as `isIP` has checked. */
  function ExpandIpv6(address: string): Option<nat> {
    var halves := Halves(address);
    if |halves| > 2 then None
    else
      var left := HalfGroups(halves[0]);
      var right := if |halves| == 2 then HalfGroups(halves[1]) else [];
      var missing := 8 - |left| - |right|;
      if missing < 0 || (|halves| == 1 && missing != 0) then None
      else Fold(left + Zeros(missing) + right)
  }

  function Join(parts: seq<string>): string {
    if parts == [] then "" else if |parts| == 1 then parts[0] else parts[0] + ":" + Join(parts[1..])
  }

  /** One to four hexadecimal digits, in either case and with zeros in front or not. */
  predicate Spells(text: string, group: nat) { 1 <= |text| <= 4 && AllHex(text) && HexNumber(text) == group }

  ghost predicate SpellAll(texts: seq<string>, groups: seq<nat>) {
    |texts| == |groups| && forall i :: 0 <= i < |texts| ==> Spells(texts[i], groups[i])
  }

  ghost predicate NoColons(texts: seq<string>) { forall i :: 0 <= i < |texts| ==> texts[i] != "" && ':' !in texts[i] }

  lemma SpelledNoColons(texts: seq<string>, groups: seq<nat>)
    requires SpellAll(texts, groups)
    ensures NoColons(texts)
  {
    forall i | 0 <= i < |texts| ensures texts[i] != "" && ':' !in texts[i] {
      assert Spells(texts[i], groups[i]);
    }
  }

  lemma {:induction false} SplitPlain(s: string)
    requires ':' !in s
    ensures Split(s, ':') == [s]
  {
    if s != "" {
      assert s[0] in s && ':' !in s[1..];
      SplitPlain(s[1..]);
      assert s == [s[0]] + s[1..];
    }
  }

  lemma {:induction false} SplitFirst(part: string, rest: string)
    requires ':' !in part
    ensures Split(part + ":" + rest, ':') == [part] + Split(rest, ':')
  {
    var s := part + ":" + rest;
    if part == "" {
      assert s[1..] == rest && s[0] == ':';
    } else {
      assert part[0] in part && ':' !in part[1..];
      SplitFirst(part[1..], rest);
      assert s[1..] == part[1..] + ":" + rest && s[0] == part[0];
      assert part == [part[0]] + part[1..];
      var tail := Split(s[1..], ':');
      assert tail == [part[1..]] + Split(rest, ':');
      assert tail[1..] == Split(rest, ':');
    }
  }

  lemma {:induction false} SplitJoin(parts: seq<string>)
    requires parts != [] && NoColons(parts)
    ensures Split(Join(parts), ':') == parts && Join(parts) != ""
  {
    if |parts| == 1 {
      SplitPlain(parts[0]);
    } else {
      SplitJoin(parts[1..]);
      SplitFirst(parts[0], Join(parts[1..]));
    }
  }

  /** No double colon inside, and none made with a colon that follows. */
  ghost predicate Single(s: string) { forall i :: 0 <= i < |s| - 1 ==> !(s[i] == ':' && s[i + 1] == ':') }

  lemma {:induction false} JoinSingle(parts: seq<string>)
    requires NoColons(parts)
    ensures Single(Join(parts)) && (Join(parts) != "" ==> Join(parts)[0] != ':' && Join(parts)[|Join(parts)| - 1] != ':')
  {
    if parts != [] {
      var s := parts[0];
      assert s != "" && s[0] in s && s[|s| - 1] in s;
      assert forall i :: 0 <= i < |s| ==> s[i] in s;
      if |parts| > 1 {
        JoinSingle(parts[1..]);
        SplitJoin(parts[1..]);
        var rest := Join(parts[1..]);
        var whole := Join(parts);
        assert whole == s + ":" + rest;
        forall i | 0 <= i < |whole| - 1 ensures !(whole[i] == ':' && whole[i + 1] == ':') {
          if i > |s| { assert whole[i] == rest[i - |s| - 1] && whole[i + 1] == rest[i - |s|]; }
        }
      }
    }
  }

  lemma {:induction false} HalvesSingle(s: string)
    requires Single(s)
    ensures Halves(s) == [s]
    decreases |s|
  {
    if |s| >= 2 {
      HalvesSingle(s[1..]);
      assert s == [s[0]] + s[1..];
    }
  }

  lemma {:induction false} HalvesAt(left: string, right: string)
    requires Single(left) && (left != "" ==> left[|left| - 1] != ':')
    requires Single(right) && (right != "" ==> right[0] != ':')
    ensures Halves(left + "::" + right) == [left, right]
    decreases |left|
  {
    var s := left + "::" + right;
    if left == "" {
      assert s[2..] == right && s[0] == ':' && s[1] == ':';
      HalvesSingle(right);
    } else {
      assert s[1..] == left[1..] + "::" + right && s[0] == left[0];
      HalvesAt(left[1..], right);
      assert left == [left[0]] + left[1..];
      if |left| > 1 { assert s[1] == left[1]; } else { assert left[0] != ':'; }
    }
  }

  function Value(groups: seq<nat>): nat {
    if groups == [] then 0 else 0x10000 * Value(groups[..|groups| - 1]) + groups[|groups| - 1]
  }

  lemma {:induction false} FoldSpelled(texts: seq<string>, groups: seq<nat>)
    requires SpellAll(texts, groups)
    ensures Fold(texts) == Some(Value(groups))
  {
    if texts != [] {
      var last := |texts| - 1;
      FoldSpelled(texts[..last], groups[..last]);
      assert Spells(texts[last], groups[last]);
    }
  }

  lemma ZeroSpelled()
    ensures Spells("0", 0)
  {
    assert "0"[..0] == "";
  }

  /** What a compressed text is taken apart into. */
  lemma CompressedGroups(left: seq<string>, right: seq<string>)
    requires NoColons(left) && NoColons(right) && |left| + |right| <= 8
    ensures ExpandIpv6(Join(left) + "::" + Join(right)) == Fold(left + Zeros(8 - |left| - |right|) + right)
  {
    hide Single, Halves, Split, Fold, Join, ExpandIpv6, NoColons, HalfGroups;
    JoinSingle(left);
    JoinSingle(right);
    HalvesAt(Join(left), Join(right));
    GroupsOf(left);
    GroupsOf(right);
    ExpandHalves(Join(left) + "::" + Join(right), Join(left), Join(right));
  }

  lemma GroupsOf(parts: seq<string>)
    requires NoColons(parts)
    ensures HalfGroups(Join(parts)) == parts
  {
    if parts != [] { SplitJoin(parts); }
  }

  lemma ExpandHalves(address: string, l: string, r: string)
    requires Halves(address) == [l, r] && |HalfGroups(l)| + |HalfGroups(r)| <= 8
    ensures ExpandIpv6(address) == Fold(HalfGroups(l) + Zeros(8 - |HalfGroups(l)| - |HalfGroups(r)|) + HalfGroups(r))
  {
    hide Halves, Split, Fold;
  }

  lemma ZerosFill(left: seq<string>, right: seq<string>, groups: seq<nat>)
    requires |groups| == 8 && |left| + |right| <= 8
    requires SpellAll(left, groups[..|left|]) && SpellAll(right, groups[8 - |right|..])
    requires forall i :: |left| <= i < 8 - |right| ==> groups[i] == 0
    ensures SpellAll(left + Zeros(8 - |left| - |right|) + right, groups)
  {
    ZeroSpelled();
    hide Spells;
    var texts := left + Zeros(8 - |left| - |right|) + right;
    forall i | 0 <= i < 8 ensures Spells(texts[i], groups[i]) {
      if i < |left| { assert Spells(left[i], groups[..|left|][i]); }
      else if i >= 8 - |right| { assert Spells(right[i - (8 - |right|)], groups[8 - |right|..][i - (8 - |right|)]); }
    }
  }

  /**
   Section 2.2 of RFC 4291: however a run of zero groups is compressed and however the groups are spelled,
   a text stands for the number its eight groups make.
   */
  lemma CompressedExpands(left: seq<string>, right: seq<string>, groups: seq<nat>)
    requires |groups| == 8 && |left| + |right| <= 7
    requires SpellAll(left, groups[..|left|]) && SpellAll(right, groups[8 - |right|..])
    requires forall i :: |left| <= i < 8 - |right| ==> groups[i] == 0
    ensures ExpandIpv6(Join(left) + "::" + Join(right)) == Some(Value(groups))
  {
    SpelledNoColons(left, groups[..|left|]);
    SpelledNoColons(right, groups[8 - |right|..]);
    CompressedGroups(left, right);
    ZerosFill(left, right, groups);
    hide SpellAll, NoColons, Join, ExpandIpv6, Fold, Value;
    FoldSpelled(left + Zeros(8 - |left| - |right|) + right, groups);
  }

  lemma FullExpands(texts: seq<string>, groups: seq<nat>)
    requires |groups| == 8 && SpellAll(texts, groups)
    ensures ExpandIpv6(Join(texts)) == Some(Value(groups))
  {
    SpelledNoColons(texts, groups);
    JoinSingle(texts);
    HalvesSingle(Join(texts));
    SplitJoin(texts);
    assert texts + Zeros(0) + [] == texts;
    hide Spells, Join, Halves, Split, Fold, Value;
    FoldSpelled(texts, groups);
  }

  // ---------------------------------------------------------------- IPv6 blocks

  /** How many addresses a block has. */
  function BlockSize(prefix: nat): (size: nat)
    requires prefix <= 128
    ensures size >= 1
  {
    Pow2Grows(0, 128 - prefix);
    Pow2(128 - prefix)
  }

  /** Equal above the host bits, which are shifted out. */
  predicate InCidr6(value: nat, network: nat, prefix: nat)
    requires prefix <= 128
  {
    value / BlockSize(prefix) == network / BlockSize(prefix)
  }

  lemma DivMod(x: nat, p: nat)
    requires p > 0
    ensures x == (x / p) * p + x % p && x % p < p
  {
  }

  lemma {:induction false} Gap(a: nat, b: nat, p: nat)
    requires a < b
    ensures a * p + p <= b * p
  {
    assert b * p == (b - 1) * p + p;
    if a < b - 1 { Gap(a, b - 1, p); }
  }

  lemma DivUnique(x: nat, p: nat, q: nat, r: nat)
    requires r < p && x == q * p + r
    ensures x / p == q
  {
    var k := x / p;
    DivMod(x, p);
    if k < q { Gap(k, q, p); } else if q < k { Gap(q, k, p); }
  }

  /** In the q-th run of p numbers. */
  predicate InMultiple(x: nat, q: nat, p: nat) { q * p <= x < q * p + p }

  lemma DivInterval(x: nat, q: nat, p: nat)
    requires p > 0
    ensures x / p == q <==> InMultiple(x, q, p)
  {
    DivMod(x, p);
    if q * p <= x < q * p + p { DivUnique(x, p, q, x - q * p); }
  }

  /** Also here a block is an interval: the run of as many addresses as it has that the network is in. */
  lemma Cidr6IsInterval(value: nat, network: nat, prefix: nat, size: nat, q: nat)
    requires prefix <= 128 && size == BlockSize(prefix) && InMultiple(network, q, size)
    ensures InCidr6(value, network, prefix) <==> InMultiple(value, q, size)
  {
    hide BlockSize, InMultiple;
    DivInterval(network, q, size);
    DivInterval(value, q, size);
  }

  /** A text is in the block of another; an unreadable one makes the test throw. */
  function TextInCidr6(address: string, base: string, prefix: nat): Option<bool>
    requires prefix <= 128
  {
    match (ExpandIpv6(address), ExpandIpv6(base))
    case (Some(value), Some(network)) => Some(InCidr6(value, network, prefix))
    case _ => None
  }

  /** The IPv6 half of `isPublicEgressAddress`: globally routed unicast, less three special blocks. */
  predicate IsPublicIpv6(address: string) {
    && '.' !in address && '%' !in address
    && TextInCidr6(address, "2000::", 3) == Some(true)
    && TextInCidr6(address, "2001::", 23) == Some(false)
    && TextInCidr6(address, "2001:db8::", 32) == Some(false)
    && TextInCidr6(address, "2002::", 16) == Some(false)
  }

  lemma DivDiv(x: nat, a: nat, b: nat)
    requires a > 0 && b > 0
    ensures a * b > 0 && x / (a * b) == (x / a) / b
  {
    DivMod(x, a);
    DivMod(x / a, b);
    var q, t, r := (x / a) / b, (x / a) % b, x % a;
    Regroup(q, b, t, a, r);
    SmallRest(t, b, a, r);
    DivUnique(x, a * b, q, t * a + r);
  }

  lemma SmallRest(t: nat, b: nat, a: nat, r: nat)
    requires t < b && r < a
    ensures t * a + r < a * b
  {
    Gap(t, b, a);
  }

  lemma Regroup(q: nat, b: nat, t: nat, a: nat, r: nat)
    ensures (q * b + t) * a + r == q * (a * b) + (t * a + r)
  {
    assert (q * b + t) * a == q * b * a + t * a;
    assert q * b * a == q * (a * b);
  }

  ghost predicate Groups(groups: seq<nat>) { forall i :: 0 <= i < |groups| ==> groups[i] < 0x10000 }

  /** Shifting out whole groups leaves the number the others make. */
  lemma {:induction false} ShiftGroups(groups: seq<nat>, k: nat)
    requires Groups(groups) && k <= |groups|
    ensures Pow2(16 * k) >= 1 && Value(groups) / Pow2(16 * k) == Value(groups[..|groups| - k])
  {
    Pow2Grows(0, 16 * k);
    if k == 0 {
      assert groups[..|groups|] == groups;
    } else {
      var front := groups[..|groups| - 1];
      ShiftGroups(front, k - 1);
      assert front[..|front| - (k - 1)] == groups[..|groups| - k];
      assert Value(groups) / 0x10000 == Value(front);
      Pow2Grows(0, 16 * (k - 1));
      DivDiv(Value(groups), 0x10000, Pow2(16 * (k - 1)));
      Pow2Adds(16, 16 * (k - 1));
      Pow2Of16();
    }
  }

  lemma Pow2Of16()
    ensures Pow2(16) == 0x10000 && Pow2(9) == 512 && Pow2(13) == 8192
  {
    assert Pow2(4) == 16 && Pow2(8) == 256 && Pow2(12) == 4096;
  }

  /** The leading groups decide membership in the four blocks. */
  lemma LeadingGroups(groups: seq<nat>)
    requires |groups| == 8 && Groups(groups)
    ensures Pow2(112) >= 1 && Pow2(96) >= 1 && Pow2(125) >= 1 && Pow2(105) >= 1
    ensures Value(groups) / Pow2(112) == groups[0] && Value(groups) / Pow2(125) == groups[0] / 8192
    ensures Value(groups) / Pow2(96) == 0x10000 * groups[0] + groups[1] && Value(groups) / Pow2(105) == (0x10000 * groups[0] + groups[1]) / 512
  {
    ShiftGroups(groups, 7);
    ShiftGroups(groups, 6);
    Pow2Of16();
    Pow2Adds(112, 13);
    Pow2Adds(96, 9);
    DivDiv(Value(groups), Pow2(112), 8192);
    DivDiv(Value(groups), Pow2(96), 512);
    TopGroups(groups);
    hide Pow2, Value;
  }

  lemma TopGroups(groups: seq<nat>)
    requires |groups| == 8
    ensures Value(groups[..1]) == groups[0] && Value(groups[..2]) == 0x10000 * groups[0] + groups[1]
  {
    assert groups[..1][..0] == [] && groups[..2][..1] == groups[..1];
  }

  function Base(a: nat, b: nat): seq<nat> { [a, b, 0, 0, 0, 0, 0, 0] }

  lemma Digits4(d3: char, d2: char, d1: char, d0: char)
    requires HexValue(d3).Some? && HexValue(d2).Some? && HexValue(d1).Some? && HexValue(d0).Some?
    ensures Spells([d3, d2, d1, d0], 4096 * HexValue(d3).value + 256 * HexValue(d2).value + 16 * HexValue(d1).value + HexValue(d0).value)
  {
    var s := [d3, d2, d1, d0];
    assert s[..3] == [d3, d2, d1] && s[..3][..2] == [d3, d2] && s[..3][..2][..1] == [d3] && s[..3][..2][..1][..0] == [];
    hide HexValue;
    assert HexNumber([d3]) == HexValue(d3).value;
    assert HexNumber([d3, d2]) == 16 * HexValue(d3).value + HexValue(d2).value;
    assert HexNumber([d3, d2, d1]) == 256 * HexValue(d3).value + 16 * HexValue(d2).value + HexValue(d1).value;
  }

  lemma Digits3(d2: char, d1: char, d0: char)
    requires HexValue(d2).Some? && HexValue(d1).Some? && HexValue(d0).Some?
    ensures Spells([d2, d1, d0], 256 * HexValue(d2).value + 16 * HexValue(d1).value + HexValue(d0).value)
  {
    var s := [d2, d1, d0];
    assert s[..2] == [d2, d1] && s[..2][..1] == [d2] && s[..2][..1][..0] == [];
    hide HexValue;
    assert HexNumber([d2]) == HexValue(d2).value;
    assert HexNumber([d2, d1]) == 16 * HexValue(d2).value + HexValue(d1).value;
  }

  lemma BaseExpands(text: string, group: nat)
    requires Spells(text, group)
    ensures ExpandIpv6(text + "::") == Some(Value(Base(group, 0)))
  {
    hide Spells, Value;
    var groups := Base(group, 0);
    assert groups[..1] == [group] && groups[8..] == [];
    assert SpellAll([text], groups[..1]) && SpellAll([], groups[8..]);
    assert Join([text]) == text && Join([]) == "" && text + "::" + "" == text + "::";
    CompressedExpands([text], [], groups);
  }

  lemma BasesSpelled()
    ensures Spells("2000", 0x2000) && Spells("2001", 0x2001) && Spells("2002", 0x2002) && Spells("db8", 0xdb8)
  {
    Digits4('2', '0', '0', '0');
    Digits4('2', '0', '0', '1');
    Digits4('2', '0', '0', '2');
    Digits3('d', 'b', '8');
    hide Spells;
    assert "2000" == ['2', '0', '0', '0'] && "2001" == ['2', '0', '0', '1'] && "2002" == ['2', '0', '0', '2'] && "db8" == ['d', 'b', '8'];
  }

  lemma DocumentationExpands()
    requires Spells("2001", 0x2001) && Spells("db8", 0xdb8)
    ensures ExpandIpv6("2001:db8::") == Some(Value(Base(0x2001, 0xdb8)))
  {
    hide Spells, Value, ExpandIpv6;
    var groups := Base(0x2001, 0xdb8);
    var texts := ["2001", "db8"];
    assert groups[..2] == [0x2001, 0xdb8] && groups[8..] == [];
    assert SpellAll(texts, groups[..2]) && SpellAll([], groups[8..]);
    CompressedExpands(texts, [], groups);
    JoinTwo("2001", "db8");
    assert "2001" + ":" + "db8" + "::" + "" == "2001:db8::";
  }

  lemma JoinTwo(a: string, b: string)
    ensures Join([a, b]) == a + ":" + b
  {
    assert [a, b][1..] == [b];
  }

  lemma BasesExpand()
    ensures ExpandIpv6("2000::") == Some(Value(Base(0x2000, 0))) && ExpandIpv6("2001::") == Some(Value(Base(0x2001, 0)))
    ensures ExpandIpv6("2002::") == Some(Value(Base(0x2002, 0))) && ExpandIpv6("2001:db8::") == Some(Value(Base(0x2001, 0xdb8)))
  {
    BasesSpelled();
    hide Spells, Value, ExpandIpv6;
    DocumentationExpands();
    BaseExpands("2000", 0x2000);
    BaseExpands("2001", 0x2001);
    BaseExpands("2002", 0x2002);
    assert "2000" + "::" == "2000::" && "2001" + "::" == "2001::" && "2002" + "::" == "2002::";
  }

  lemma BlocksByGroups(groups: seq<nat>, a: nat, b: nat)
    requires |groups| == 8 && Groups(groups) && a < 0x10000 && b < 0x10000
    ensures var v, n := Value(groups), Value(Base(a, b));
      && (InCidr6(v, n, 3) <==> groups[0] / 8192 == a / 8192)
      && (InCidr6(v, n, 16) <==> groups[0] == a)
      && (InCidr6(v, n, 23) <==> (0x10000 * groups[0] + groups[1]) / 512 == (0x10000 * a + b) / 512)
      && (InCidr6(v, n, 32) <==> groups[0] == a && groups[1] == b)
  {
    LeadingGroups(groups);
    LeadingGroups(Base(a, b));
    hide Value, Pow2;
  }

  /** Of the texts that read as eight groups, the public ones: 2000::/3 less 2001::/23, 2001:db8::/32 and 2002::/16. */
  lemma PublicIpv6Iff(address: string, groups: seq<nat>)
    requires |groups| == 8 && Groups(groups) && ExpandIpv6(address) == Some(Value(groups)) && '.' !in address && '%' !in address
    ensures IsPublicIpv6(address) <==>
      && 0x2000 <= groups[0] < 0x4000
      && groups[0] != 0x2002
      && !(groups[0] == 0x2001 && (groups[1] < 0x200 || groups[1] == 0xdb8))
  {
    BasesExpand();
    hide ExpandIpv6, Value, InCidr6, TextInCidr6, Base;
    var v := Value(groups);
    TextBlock(address, "2000::", 3, v, Value(Base(0x2000, 0)));
    TextBlock(address, "2001::", 23, v, Value(Base(0x2001, 0)));
    TextBlock(address, "2001:db8::", 32, v, Value(Base(0x2001, 0xdb8)));
    TextBlock(address, "2002::", 16, v, Value(Base(0x2002, 0)));
    BlocksByGroups(groups, 0x2000, 0);
    BlocksByGroups(groups, 0x2001, 0);
    BlocksByGroups(groups, 0x2002, 0);
    BlocksByGroups(groups, 0x2001, 0xdb8);
    GroupRanges(groups[0], groups[1]);
  }

  lemma TextBlock(address: string, base: string, prefix: nat, v: nat, n: nat)
    requires prefix <= 128 && ExpandIpv6(address) == Some(v) && ExpandIpv6(base) == Some(n)
    ensures TextInCidr6(address, base, prefix) == Some(InCidr6(v, n, prefix))
  {
    hide ExpandIpv6, InCidr6;
  }

  lemma GroupRanges(a: nat, b: nat)
    requires a < 0x10000 && b < 0x10000
    ensures a / 8192 == 0x2000 / 8192 <==> 0x2000 <= a < 0x4000
    ensures (0x10000 * a + b) / 512 == (0x10000 * 0x2001 + 0) / 512 <==> a == 0x2001 && b < 0x200
  {
  }
}
