/** Strings: UUIDs, and trimming as JavaScript does it. */
module JsText {
  import opened Json

  predicate IsHex(c: char) { HexValue(c).Some? }

  /** A version 4 UUID of RFC 4122, in either case. */
  predicate IsUuid(s: string) {
    && |s| == 36
    && (forall i :: 0 <= i < 36 ==> if i in {8, 13, 18, 23} then s[i] == '-' else IsHex(s[i]))
    && s[14] == '4'
    && s[19] in {'8', '9', 'a', 'b', 'A', 'B'}
  }

  predicate AllHex(s: string) { forall i :: 0 <= i < |s| ==> IsHex(s[i]) }

  /** Five groups of hexadecimal digits, the third marked as version 4 and the fourth as its variant. */
  ghost predicate Groups(s: string, a: string, b: string, c: string, d: string, e: string) {
    && s == a + "-" + b + "-4" + c + "-" + d + "-" + e
    && |a| == 8 && |b| == 4 && |c| == 3 && |d| == 4 && |e| == 12
    && AllHex(a) && AllHex(b) && AllHex(c) && AllHex(d) && AllHex(e)
    && d[0] in {'8', '9', 'a', 'b', 'A', 'B'}
  }

  lemma GroupsAt(s: string, a: string, b: string, c: string, d: string, e: string)
    requires Groups(s, a, b, c, d, e)
    ensures IsUuid(s)
  {
    assert IsHex('4');
    hide IsHex;
    var q, r := a + "-" + b + "-4", a + "-" + b + "-4" + c + "-";
    var t := r + d + "-";
    assert |q| == 15 && |r| == 19 && |t| == 24 && s == t + e;
    assert forall i :: 0 <= i < 15 ==> s[i] == q[i];
    assert forall i :: 15 <= i < 19 ==> s[i] == r[i];
    assert forall i :: 19 <= i < 24 ==> s[i] == t[i];
    assert forall i :: 0 <= i < 8 ==> q[i] == a[i];
    assert q[8] == '-' && q[13] == '-' && q[14] == '4' && r[18] == '-' && t[23] == '-';
    assert forall i :: 9 <= i < 13 ==> q[i] == b[i - 9];
    assert forall i :: 15 <= i < 18 ==> r[i] == c[i - 15];
    assert forall i :: 19 <= i < 23 ==> t[i] == d[i - 19];
  }

  lemma UuidMeaning(s: string)
    ensures IsUuid(s) <==> exists a, b, c, d, e :: Groups(s, a, b, c, d, e)
  {
    hide IsHex;
    if IsUuid(s) {
      assert s == s[..8] + "-" + s[9..13] + "-4" + s[15..18] + "-" + s[19..23] + "-" + s[24..];
      assert Groups(s, s[..8], s[9..13], s[15..18], s[19..23], s[24..]);
    }
    forall a, b, c, d, e | Groups(s, a, b, c, d, e) ensures IsUuid(s) { GroupsAt(s, a, b, c, d, e); }
  }

  predicate IsSpace(c: char) {
    c in "\t\n\r \U{000B}\U{000C}\U{00A0}\U{1680}\U{2028}\U{2029}\U{202F}\U{205F}\U{3000}\U{FEFF}" || '\U{2000}' <= c <= '\U{200A}'
  }

  function TrimStart(s: string): string
    decreases |s|
  {
    if s != [] && IsSpace(s[0]) then TrimStart(s[1..]) else s
  }

  function TrimEnd(s: string): string
    decreases |s|
  {
    if s != [] && IsSpace(s[|s| - 1]) then TrimEnd(s[..|s| - 1]) else s
  }

  function Trim(s: string): string { TrimEnd(TrimStart(s)) }

  lemma {:induction false} TrimEndKeeps(s: string)
    ensures TrimEnd(s) <= s && (TrimEnd(s) != "" ==> !IsSpace(TrimEnd(s)[|TrimEnd(s)| - 1]))
  {
    if s != [] && IsSpace(s[|s| - 1]) { TrimEndKeeps(s[..|s| - 1]); }
  }

  lemma {:induction false} TrimStartKeeps(s: string)
    ensures TrimStart(s) != "" ==> !IsSpace(TrimStart(s)[0])
  {
    if s != [] && IsSpace(s[0]) { TrimStartKeeps(s[1..]); }
  }

  predicate Blank(s: string) { forall i :: 0 <= i < |s| ==> IsSpace(s[i]) }

  lemma {:induction false} TrimStartAt(s: string) returns (lo: nat)
    ensures lo <= |s| && TrimStart(s) == s[lo..] && Blank(s[..lo])
  {
    hide IsSpace;
    lo := 0;
    if s != [] && IsSpace(s[0]) {
      lo := TrimStartAt(s[1..]);
      assert s[1..][lo..] == s[lo + 1..] && s[..lo + 1] == [s[0]] + s[1..][..lo];
      lo := lo + 1;
    }
  }

  lemma {:induction false} TrimEndAt(s: string) returns (hi: nat)
    ensures hi <= |s| && TrimEnd(s) == s[..hi] && Blank(s[hi..])
  {
    hide IsSpace;
    hi := |s|;
    if s != [] && IsSpace(s[|s| - 1]) {
      var last := |s| - 1;
      hi := TrimEndAt(s[..last]);
      assert s[..last][..hi] == s[..hi] && s[hi..] == s[..last][hi..] + [s[last]];
    }
  }

  /** Trimming takes away blanks at both ends, and all of them. */
  lemma TrimMeaning(s: string) returns (lo: nat, hi: nat)
    ensures lo <= hi <= |s| && Trim(s) == s[lo..hi] && Blank(s[..lo]) && Blank(s[hi..])
    ensures lo == hi || (!IsSpace(s[lo]) && !IsSpace(s[hi - 1]))
  {
    hide IsSpace;
    TrimStartKeeps(s);
    TrimEndKeeps(TrimStart(s));
    lo := TrimStartAt(s);
    hi := TrimEndAt(s[lo..]);
    assert s[lo..][..hi] == s[lo..lo + hi] && s[lo..][hi..] == s[lo + hi..];
    hi := lo + hi;
    TrimmedStart(s);
  }

  lemma TrimEmptyIff(s: string)
    ensures Trim(s) == "" <==> Blank(s)
  {
    hide IsSpace, Trim;
    var lo, hi := TrimMeaning(s);
    assert lo == hi ==> s == s[..lo] + s[hi..];
    assert lo < hi ==> Trim(s)[0] == s[lo];
  }

  lemma TrimmedStart(s: string)
    ensures Trim(s) != "" ==> !IsSpace(Trim(s)[0])
  {
    TrimStartKeeps(s);
    TrimEndKeeps(TrimStart(s));
  }

  lemma TrimKeeps(s: string)
    requires s != "" && !IsSpace(s[0]) && !IsSpace(s[|s| - 1])
    ensures Trim(s) == s
  {
  }
}
