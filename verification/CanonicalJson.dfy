/**
 The two canonical printers: `canonicalJson` of the manual send ledger and `stableJson` of the
 agent digests. Both print an object after sorting its keys; they differ in the order they sort by.

 A key order is given by a weight function: keys are compared by the lexicographic order of their
 weights, as a collation compares strings by their sort keys. `localeCompare` is some such function,
 under which distinct keys may weigh the same; the order of `canonicalJson` is `JsWeight`.
 The sort is stable.
 */
module CanonicalJson {
  import opened Wrappers
  import opened Json

  // ---------------------------------------------------------------- lexicographic order

  predicate LexLess(a: seq<nat>, b: seq<nat>) {
    b != [] && (a == [] || a[0] < b[0] || (a[0] == b[0] && LexLess(a[1..], b[1..])))
  }

  lemma {:induction false} LexTotal(a: seq<nat>, b: seq<nat>)
    ensures a == b || LexLess(a, b) || LexLess(b, a)
    ensures !(LexLess(a, b) && LexLess(b, a))
    ensures !LexLess(a, a)
  {
    if a != [] && b != [] && a[0] == b[0] {
      LexTotal(a[1..], b[1..]);
      assert a == [a[0]] + a[1..] && b == [b[0]] + b[1..];
    }
    if a != [] { LexTotal(a[1..], a[1..]); }
  }

  lemma {:induction false} LexTransitive(a: seq<nat>, b: seq<nat>, c: seq<nat>)
    requires !LexLess(b, a) && !LexLess(c, b)
    ensures !LexLess(c, a)
  {
    if a != [] && b != [] && c != [] && a[0] == b[0] == c[0] {
      LexTransitive(a[1..], b[1..], c[1..]);
    }
  }

  // ---------------------------------------------------------------- the stable sort of entries

  type Weight = string -> seq<nat>

  predicate Before(x: Entry, y: Entry, w: Weight) { LexLess(w(x.key), w(y.key)) }

  ghost predicate Sorted(es: seq<Entry>, w: Weight) {
    forall i, j :: 0 <= i < j < |es| ==> !Before(es[j], es[i], w)
  }

  /** Inserts after every entry that does not come later in the order. */
  function Insert(e: Entry, es: seq<Entry>, w: Weight): (r: seq<Entry>)
    ensures multiset(r) == multiset(es) + multiset{e}
  {
    if es == [] || Before(e, es[0], w) then [e] + es
    else
      var r := Insert(e, es[1..], w);
      assert es == [es[0]] + es[1..];
      [es[0]] + r
  }

  function Sort(es: seq<Entry>, w: Weight): (r: seq<Entry>)
    ensures multiset(r) == multiset(es)
  {
    if es == [] then []
    else
      var last := |es| - 1;
      assert es == es[..last] + [es[last]];
      Insert(es[last], Sort(es[..last], w), w)
  }

  lemma {:induction false} InsertSorted(e: Entry, es: seq<Entry>, w: Weight)
    requires Sorted(es, w)
    ensures Sorted(Insert(e, es, w), w)
  {
    var r := Insert(e, es, w);
    if es == [] {
    } else if Before(e, es[0], w) {
      forall i, j | 0 <= i < j < |r| ensures !Before(r[j], r[i], w) {
        LexTotal(w(e.key), w(es[0].key));
        LexTotal(w(es[0].key), w(es[0].key));
        if i == 0 { LexTransitive(w(e.key), w(es[0].key), w(es[j - 1].key)); }
      }
    } else {
      InsertSorted(e, es[1..], w);
      var tail := Insert(e, es[1..], w);
      forall j | 0 <= j < |tail| ensures !Before(tail[j], es[0], w) {
        assert tail[j] in multiset(tail);
        assert tail[j] == e || tail[j] in es[1..];
      }
    }
  }

  lemma {:induction false} SortSorted(es: seq<Entry>, w: Weight)
    ensures Sorted(Sort(es, w), w)
  {
    if es != [] {
      SortSorted(es[..|es| - 1], w);
      InsertSorted(es[|es| - 1], Sort(es[..|es| - 1], w), w);
    }
  }

  /** `x` stands somewhere before `y`. */
  ghost predicate Precedes(x: Entry, y: Entry, es: seq<Entry>) {
    exists i, j :: 0 <= i < j < |es| && es[i] == x && es[j] == y
  }

  lemma {:induction false} InsertKeepsOrder(x: Entry, y: Entry, e: Entry, es: seq<Entry>, w: Weight)
    requires Precedes(x, y, es)
    ensures Precedes(x, y, Insert(e, es, w))
  {
    var i, j :| 0 <= i < j < |es| && es[i] == x && es[j] == y;
    if Before(e, es[0], w) {
      PrecedesInTail(x, y, e, es);
    } else {
      var tail := Insert(e, es[1..], w);
      assert es[1..][j - 1] == y;
      if i == 0 {
        assert y in multiset(es[1..]) && y in multiset(tail);
      } else {
        assert es[1..][i - 1] == x;
        InsertKeepsOrder(x, y, e, es[1..], w);
      }
      PrecedesInTail(x, y, es[0], tail);
    }
  }

  lemma HeadNotAfter(x: Entry, e: Entry, es: seq<Entry>, w: Weight)
    requires Sorted(es, w) && x in es && w(x.key) == w(e.key)
    ensures !Before(e, es[0], w)
  {
    LexTotal(w(e.key), w(e.key));
    var i :| 0 <= i < |es| && es[i] == x;
    if i > 0 { assert !Before(es[i], es[0], w); }
  }

  lemma PrecedesInTail(x: Entry, y: Entry, h: Entry, tail: seq<Entry>)
    requires Precedes(x, y, tail) || (x == h && y in tail)
    ensures Precedes(x, y, [h] + tail)
  {
    var r := [h] + tail;
    if Precedes(x, y, tail) {
      var k, l :| 0 <= k < l < |tail| && tail[k] == x && tail[l] == y;
      assert r[k + 1] == x && r[l + 1] == y;
    } else {
      var k :| 0 <= k < |tail| && tail[k] == y;
      assert r[0] == x && r[k + 1] == y;
    }
  }

  lemma {:induction false} InsertAfterEqual(x: Entry, e: Entry, es: seq<Entry>, w: Weight)
    requires Sorted(es, w) && x in es && w(x.key) == w(e.key)
    ensures Precedes(x, e, Insert(e, es, w))
  {
    HeadNotAfter(x, e, es, w);
    var tail := Insert(e, es[1..], w);
    hide Sorted, Precedes;
    if x == es[0] {
      assert e in multiset(tail);
    } else {
      assert x in es[1..];
      assert Sorted(es[1..], w) by { TailSorted(es, w); }
      InsertAfterEqual(x, e, es[1..], w);
    }
    PrecedesInTail(x, e, es[0], tail);
  }

  lemma TailSorted(es: seq<Entry>, w: Weight)
    requires es != [] && Sorted(es, w)
    ensures Sorted(es[1..], w)
  {
  }

  lemma {:induction false} SortStable(es: seq<Entry>, i: nat, j: nat, w: Weight)
    requires i < j < |es| && w(es[i].key) == w(es[j].key)
    ensures Precedes(es[i], es[j], Sort(es, w))
  {
    var last := |es| - 1;
    var front := es[..last];
    SortSorted(front, w);
    if j == last {
      assert front[i] == es[i];
      assert es[i] in multiset(front) && es[i] in multiset(Sort(front, w));
      InsertAfterEqual(es[i], es[last], Sort(front, w), w);
    } else {
      assert front[i] == es[i] && front[j] == es[j];
      SortStable(front, i, j, w);
      InsertKeepsOrder(es[i], es[j], es[last], Sort(front, w), w);
    }
  }

  // ---------------------------------------------------------------- canonical values

  function Canonical(j: Json, w: Weight): Json
    decreases j
  {
    match j
    case Arr(items) => Arr(CanonicalItems(items, w))
    case Obj(entries) => Obj(Sort(CanonicalEntries(entries, w), w))
    case _ => j
  }

  function CanonicalItems(items: seq<Json>, w: Weight): (r: seq<Json>)
    ensures |r| == |items|
    ensures forall i :: 0 <= i < |items| ==> r[i] == Canonical(items[i], w)
    decreases items
  {
    if items == [] then [] else [Canonical(items[0], w)] + CanonicalItems(items[1..], w)
  }

  function CanonicalEntries(entries: seq<Entry>, w: Weight): (r: seq<Entry>)
    ensures |r| == |entries|
    ensures forall i :: 0 <= i < |entries| ==> r[i] == Entry(entries[i].key, Canonical(entries[i].value, w))
    decreases entries
  {
    if entries == [] then []
    else [Entry(entries[0].key, Canonical(entries[0].value, w))] + CanonicalEntries(entries[1..], w)
  }

  /** The text of `stableJson` under the collation `w`. */
  function StableJson(j: Json, w: Weight): string { Print(Canonical(j, w)) }

  // ---------------------------------------------------------------- objects and their keys

  ghost predicate KeysDistinct(es: seq<Entry>) {
    forall i, j :: 0 <= i < j < |es| ==> es[i].key != es[j].key
  }

  ghost predicate WeightsDistinct(es: seq<Entry>, w: Weight) {
    forall i, j :: 0 <= i < j < |es| ==> w(es[i].key) != w(es[j].key)
  }

  /** The values a program can hold: own keys of an object are distinct, numbers are number tokens. */
  ghost predicate IsValue(j: Json)
    decreases j
  {
    match j
    case Num(t) => IsNumberToken(t)
    case Arr(items) => forall i :: 0 <= i < |items| ==> IsValue(items[i])
    case Obj(entries) => KeysDistinct(entries) && forall i :: 0 <= i < |entries| ==> IsValue(entries[i].value)
    case _ => true
  }

  /** No object anywhere in the value has two keys that weigh the same. */
  ghost predicate Unambiguous(j: Json, w: Weight)
    decreases j
  {
    match j
    case Arr(items) => forall i :: 0 <= i < |items| ==> Unambiguous(items[i], w)
    case Obj(entries) => WeightsDistinct(entries, w) && forall i :: 0 <= i < |entries| ==> Unambiguous(entries[i].value, w)
    case _ => true
  }

  lemma {:induction false} FieldsOf(es: seq<Entry>)
    requires KeysDistinct(es)
    ensures forall i :: 0 <= i < |es| ==> es[i].key in Fields(es) && Fields(es)[es[i].key] == Meaning(es[i].value)
    ensures forall k :: k in Fields(es) ==> exists i :: 0 <= i < |es| && es[i].key == k
  {
    if es != [] {
      var tail := es[1..];
      FieldsOf(tail);
      forall i | 0 <= i < |es|
        ensures es[i].key in Fields(es) && Fields(es)[es[i].key] == Meaning(es[i].value)
      {
        assert forall k :: 0 <= k < |tail| ==> tail[k].key != es[0].key;
        if i > 0 { assert tail[i - 1] == es[i]; }
      }
      forall k | k in Fields(es) ensures exists i :: 0 <= i < |es| && es[i].key == k {
        if k in Fields(tail) {
          var i :| 0 <= i < |tail| && tail[i].key == k;
          assert es[i + 1].key == k;
        }
      }
    }
  }

  ghost predicate Covers(a: seq<Entry>, b: seq<Entry>) {
    forall i :: 0 <= i < |a| ==> HasPartner(a[i], b)
  }

  ghost predicate HasPartner(e: Entry, b: seq<Entry>) {
    exists j :: 0 <= j < |b| && b[j].key == e.key && Meaning(b[j].value) == Meaning(e.value)
  }

  lemma CoveredFields(a: seq<Entry>, b: seq<Entry>)
    requires KeysDistinct(a) && KeysDistinct(b) && Covers(a, b)
    ensures forall k :: k in Fields(a) ==> k in Fields(b) && Fields(a)[k] == Fields(b)[k]
  {
    FieldsOf(a);
    FieldsOf(b);
    hide Fields, Meaning;
    forall k | k in Fields(a) ensures k in Fields(b) && Fields(a)[k] == Fields(b)[k] {
      var i :| 0 <= i < |a| && a[i].key == k;
      var j :| 0 <= j < |b| && b[j].key == a[i].key && Meaning(b[j].value) == Meaning(a[i].value);
      assert b[j].key in Fields(b);
    }
  }

  lemma CoveringFieldsEqual(a: seq<Entry>, b: seq<Entry>)
    requires KeysDistinct(a) && KeysDistinct(b) && Covers(a, b) && Covers(b, a)
    ensures Fields(a) == Fields(b)
  {
    CoveredFields(a, b);
    CoveredFields(b, a);
  }

  lemma MeaningItemsAt(items: seq<Json>)
    ensures forall i :: 0 <= i < |items| ==> MeaningItems(items)[i] == Meaning(items[i])
  {
  }

  lemma PermutedKeysDistinct(a: seq<Entry>, b: seq<Entry>)
    requires KeysDistinct(a) && multiset(a) == multiset(b)
    ensures KeysDistinct(b)
  {
    forall i, j | 0 <= i < j < |b| ensures b[i].key != b[j].key {
      if b[i].key == b[j].key {
        assert b[i] in multiset(a) && b[j] in multiset(a);
        var k :| 0 <= k < |a| && a[k] == b[i];
        var l :| 0 <= l < |a| && a[l] == b[j];
        assert k == l;
        MultiplicityTwo(b, i, j);
        MultiplicityOne(a, k);
      }
    }
  }

  lemma MultiplicityTwo(b: seq<Entry>, i: nat, j: nat)
    requires i < j < |b| && b[i] == b[j]
    ensures multiset(b)[b[i]] >= 2
  {
    assert b == b[..j] + [b[j]] + b[j + 1..];
    assert b[..j][i] == b[i];
    assert b[i] in multiset(b[..j]);
  }

  lemma MultiplicityOne(a: seq<Entry>, k: nat)
    requires KeysDistinct(a) && k < |a|
    ensures multiset(a)[a[k]] == 1
  {
    assert a == a[..k] + [a[k]] + a[k + 1..];
    assert a[k] !in a[..k] && a[k] !in a[k + 1..];
    assert multiset(a) == multiset(a[..k]) + multiset{a[k]} + multiset(a[k + 1..]);
  }

  // ---------------------------------------------------------------- a canonical value means the same

  lemma {:induction false} CanonicalMeaning(j: Json, w: Weight)
    requires IsValue(j)
    ensures IsValue(Canonical(j, w)) && Meaning(Canonical(j, w)) == Meaning(j)
    decreases j
  {
    match j
    case Arr(items) =>
      forall i | 0 <= i < |items|
        ensures IsValue(Canonical(items[i], w)) && Meaning(Canonical(items[i], w)) == Meaning(items[i])
      {
        CanonicalMeaning(items[i], w);
      }
      MeaningItemsAt(items);
      MeaningItemsAt(CanonicalItems(items, w));
      assert MeaningItems(CanonicalItems(items, w)) == MeaningItems(items);
    case Obj(entries) =>
      forall i | 0 <= i < |entries|
        ensures IsValue(Canonical(entries[i].value, w)) && Meaning(Canonical(entries[i].value, w)) == Meaning(entries[i].value)
      {
        CanonicalMeaning(entries[i].value, w);
      }
      SortedEntriesMeaning(entries, w);
    case _ =>
  }

  lemma SortedEntriesMeaning(entries: seq<Entry>, w: Weight)
    requires KeysDistinct(entries)
    requires forall i :: 0 <= i < |entries| ==>
      IsValue(Canonical(entries[i].value, w)) && Meaning(Canonical(entries[i].value, w)) == Meaning(entries[i].value)
    ensures var sorted := Sort(CanonicalEntries(entries, w), w);
      IsValue(Obj(sorted)) && Fields(sorted) == Fields(entries)
  {
    hide Meaning, Fields, Canonical, Sort, IsValue, CanonicalEntries, Covers;
    var c := CanonicalEntries(entries, w);
    var sorted := Sort(c, w);
    assert KeysDistinct(c);
    PermutedKeysDistinct(c, sorted);
    PermutedCovers(entries, c, sorted);
    PermutedCovers(entries, c, c);
    CoveringFieldsEqual(sorted, entries);
    ValuesOfSorted(entries, c, sorted, w);
  }

  ghost predicate SameMeaning(x: Entry, y: Entry) { x.key == y.key && Meaning(x.value) == Meaning(y.value) }

  /** `c` holds the keys of `entries` with values of the same meaning, and `sorted` rearranges it. */
  lemma PermutedCovers(entries: seq<Entry>, c: seq<Entry>, sorted: seq<Entry>)
    requires |c| == |entries| && multiset(c) == multiset(sorted)
    requires forall i :: 0 <= i < |c| ==> SameMeaning(c[i], entries[i])
    ensures Covers(sorted, entries) && Covers(entries, sorted)
  {
    forall i | 0 <= i < |sorted| ensures HasPartner(sorted[i], entries) {
      assert sorted[i] in multiset(c);
      var k :| 0 <= k < |c| && c[k] == sorted[i];
      assert SameMeaning(c[k], entries[k]);
      assert entries[k].key == sorted[i].key && Meaning(entries[k].value) == Meaning(sorted[i].value);
    }
    forall k | 0 <= k < |entries| ensures HasPartner(entries[k], sorted) {
      assert c[k] in multiset(sorted) && SameMeaning(c[k], entries[k]);
      var i :| 0 <= i < |sorted| && sorted[i] == c[k];
    }
  }

  lemma ValuesOfSorted(entries: seq<Entry>, c: seq<Entry>, sorted: seq<Entry>, w: Weight)
    requires KeysDistinct(sorted) && |c| == |entries| && multiset(c) == multiset(sorted)
    requires forall k :: 0 <= k < |entries| ==> c[k].value == Canonical(entries[k].value, w) && IsValue(c[k].value)
    ensures IsValue(Obj(sorted))
  {
    hide Canonical, KeysDistinct;
    forall i | 0 <= i < |sorted| ensures IsValue(sorted[i].value) {
      assert sorted[i] in multiset(c);
      var k :| 0 <= k < |c| && c[k] == sorted[i];
    }
  }

  lemma {:induction false} ValueIsPrintable(j: Json)
    requires IsValue(j)
    ensures Printable(j)
    decreases j
  {
    match j
    case Arr(items) =>
      forall i | 0 <= i < |items| ensures Printable(items[i]) { ValueIsPrintable(items[i]); }
    case Obj(entries) =>
      forall i | 0 <= i < |entries| ensures Printable(entries[i].value) { ValueIsPrintable(entries[i].value); }
    case _ =>
  }

  // ---------------------------------------------------------------- equal meanings have one canonical value

  lemma {:induction false} SortedUnique(a: seq<Entry>, b: seq<Entry>, w: Weight)
    requires Sorted(a, w) && Sorted(b, w) && WeightsDistinct(a, w) && WeightsDistinct(b, w)
    requires forall e :: e in a <==> e in b
    ensures a == b
    decreases |a|
  {
    assert a != [] ==> a[0] in a;
    assert b != [] ==> b[0] in b;
    if a != [] && b != [] {
      LeastFirst(a, b[0], w);
      LeastFirst(b, a[0], w);
      LexTotal(w(a[0].key), w(b[0].key));
      SameWeightSameEntry(a, a[0], b[0], w);
      TailContained(a, b, w);
      TailContained(b, a, w);
      SortedUnique(a[1..], b[1..], w);
      assert a == [a[0]] + a[1..] && b == [b[0]] + b[1..];
    }
  }

  lemma TailContained(a: seq<Entry>, b: seq<Entry>, w: Weight)
    requires a != [] && b != [] && a[0] == b[0] && WeightsDistinct(a, w) && forall e :: e in a ==> e in b
    ensures forall e :: e in a[1..] ==> e in b[1..]
  {
    forall e | e in a[1..] ensures e in b[1..] {
      var i :| 0 <= i < |a| - 1 && a[1..][i] == e;
      assert a[i + 1] == e && e != a[0];
      assert e in a;
      var j :| 0 <= j < |b| && b[j] == e;
      assert b[1..][j - 1] == e;
    }
  }

  lemma LeastFirst(a: seq<Entry>, e: Entry, w: Weight)
    requires Sorted(a, w) && e in a
    ensures !Before(e, a[0], w)
  {
    LexTotal(w(e.key), w(e.key));
    var i :| 0 <= i < |a| && a[i] == e;
    if i > 0 { assert !Before(a[i], a[0], w); }
  }

  lemma SameWeightSameEntry(a: seq<Entry>, x: Entry, y: Entry, w: Weight)
    requires WeightsDistinct(a, w) && x in a && y in a && w(x.key) == w(y.key)
    ensures x == y
  {
    var i :| 0 <= i < |a| && a[i] == x;
    var j :| 0 <= j < |a| && a[j] == y;
    assert i == j;
  }

  lemma {:induction false} CanonicalUnique(a: Json, b: Json, w: Weight)
    requires IsValue(a) && IsValue(b) && Unambiguous(a, w) && Unambiguous(b, w)
    requires Meaning(a) == Meaning(b)
    ensures Canonical(a, w) == Canonical(b, w)
    decreases a
  {
    match a
    case Arr(items) =>
      MeaningItemsAt(items);
      MeaningItemsAt(b.items);
      assert |items| == |MeaningItems(items)| == |b.items|;
      forall i | 0 <= i < |items| ensures Canonical(items[i], w) == Canonical(b.items[i], w) {
        assert Meaning(items[i]) == MeaningItems(items)[i] == Meaning(b.items[i]);
        CanonicalUnique(items[i], b.items[i], w);
      }
      assert CanonicalItems(items, w) == CanonicalItems(b.items, w);
    case Obj(entries) =>
      forall i, j | 0 <= i < |entries| && 0 <= j < |b.entries| && entries[i].key == b.entries[j].key
        ensures Canonical(entries[i].value, w) == Canonical(b.entries[j].value, w)
      {
        FieldsOf(entries);
        FieldsOf(b.entries);
        CanonicalUnique(entries[i].value, b.entries[j].value, w);
      }
      SortedEntriesUnique(entries, b.entries, w);
    case _ =>
  }

  /** Two objects with the same fields, whose equal keys hold equal canonical values. */
  lemma SortedEntriesUnique(a: seq<Entry>, b: seq<Entry>, w: Weight)
    requires KeysDistinct(a) && KeysDistinct(b) && WeightsDistinct(a, w) && WeightsDistinct(b, w)
    requires Fields(a) == Fields(b)
    requires forall i, j :: 0 <= i < |a| && 0 <= j < |b| && a[i].key == b[j].key ==>
      Canonical(a[i].value, w) == Canonical(b[j].value, w)
    ensures Sort(CanonicalEntries(a, w), w) == Sort(CanonicalEntries(b, w), w)
  {
    var sa := SortedStrictly(a, w);
    var sb := SortedStrictly(b, w);
    EntriesContained(a, b, w);
    EntriesContained(b, a, w);
    hide Canonical, Sort, CanonicalEntries, Fields;
    SortedUnique(sa, sb, w);
  }

  /** The sorted canonical entries of `es`. */
  lemma SortedStrictly(es: seq<Entry>, w: Weight) returns (sorted: seq<Entry>)
    requires WeightsDistinct(es, w)
    ensures sorted == Sort(CanonicalEntries(es, w), w)
    ensures Sorted(sorted, w) && WeightsDistinct(sorted, w)
    ensures forall e :: e in sorted <==> e in CanonicalEntries(es, w)
  {
    hide Canonical, Sort;
    var c := CanonicalEntries(es, w);
    sorted := Sort(c, w);
    SortSorted(c, w);
    forall e ensures e in sorted <==> e in c {
      assert e in multiset(sorted) <==> e in multiset(c);
    }
    assert WeightsDistinct(c, w);
    PermutedWeightsDistinct(c, sorted, w);
  }

  lemma PermutedWeightsDistinct(a: seq<Entry>, b: seq<Entry>, w: Weight)
    requires WeightsDistinct(a, w) && multiset(a) == multiset(b)
    ensures WeightsDistinct(b, w)
  {
    forall i, j | 0 <= i < j < |b| ensures w(b[i].key) != w(b[j].key) {
      if w(b[i].key) == w(b[j].key) {
        assert b[i] in multiset(a) && b[j] in multiset(a);
        SameWeightSameEntry(a, b[i], b[j], w);
        MultiplicityTwo(b, i, j);
        var k :| 0 <= k < |a| && a[k] == b[i];
        MultiplicityOne(a, k);
      }
    }
  }

  lemma EntriesContained(a: seq<Entry>, b: seq<Entry>, w: Weight)
    requires KeysDistinct(a) && KeysDistinct(b) && Fields(a) == Fields(b)
    requires forall i, j :: 0 <= i < |a| && 0 <= j < |b| && a[i].key == b[j].key ==>
      Canonical(a[i].value, w) == Canonical(b[j].value, w)
    ensures forall e :: e in CanonicalEntries(a, w) ==> e in CanonicalEntries(b, w)
  {
    FieldsOf(a);
    FieldsOf(b);
    hide Fields, Canonical;
    var ca, cb := CanonicalEntries(a, w), CanonicalEntries(b, w);
    forall e | e in ca ensures e in cb {
      var i :| 0 <= i < |ca| && ca[i] == e;
      assert a[i].key in Fields(b);
      var j :| 0 <= j < |b| && b[j].key == a[i].key;
      assert cb[j] == e;
    }
  }

  // ---------------------------------------------------------------- equal texts exactly for equal values

  lemma SameTextSameMeaning(a: Json, b: Json, w: Weight)
    requires IsValue(a) && IsValue(b) && StableJson(a, w) == StableJson(b, w)
    ensures Meaning(a) == Meaning(b)
  {
    CanonicalMeaning(a, w);
    CanonicalMeaning(b, w);
    ValueIsPrintable(Canonical(a, w));
    ValueIsPrintable(Canonical(b, w));
    PrintRoundTrip(Canonical(a, w));
    PrintRoundTrip(Canonical(b, w));
  }

  /** Two values print the same exactly when they are equal up to the order of object keys. */
  lemma StableJsonDecides(a: Json, b: Json, w: Weight)
    requires IsValue(a) && IsValue(b) && Unambiguous(a, w) && Unambiguous(b, w)
    ensures StableJson(a, w) == StableJson(b, w) <==> Meaning(a) == Meaning(b)
  {
    if StableJson(a, w) == StableJson(b, w) {
      SameTextSameMeaning(a, b, w);
    } else if Meaning(a) == Meaning(b) {
      CanonicalUnique(a, b, w);
    }
  }

  // ---------------------------------------------------------------- when the order of keys does show

  function ReverseEntries(es: seq<Entry>): (r: seq<Entry>)
    ensures |r| == |es|
    ensures forall i :: 0 <= i < |es| ==> r[i] == es[|es| - 1 - i]
  {
    if es == [] then [] else ReverseEntries(es[1..]) + [es[0]]
  }

  /** The same value with the entries of every object in the opposite order. */
  function Reorder(j: Json): Json
    decreases j
  {
    match j
    case Arr(items) => Arr(ReorderItems(items))
    case Obj(entries) => Obj(ReverseEntries(ReorderValues(entries)))
    case _ => j
  }

  function ReorderItems(items: seq<Json>): (r: seq<Json>)
    ensures |r| == |items|
    ensures forall i :: 0 <= i < |items| ==> r[i] == Reorder(items[i])
    decreases items
  {
    if items == [] then [] else [Reorder(items[0])] + ReorderItems(items[1..])
  }

  function ReorderValues(entries: seq<Entry>): (r: seq<Entry>)
    ensures |r| == |entries|
    ensures forall i :: 0 <= i < |entries| ==> r[i] == Entry(entries[i].key, Reorder(entries[i].value))
    decreases entries
  {
    if entries == [] then []
    else [Entry(entries[0].key, Reorder(entries[0].value))] + ReorderValues(entries[1..])
  }

  lemma {:induction false} ReorderMeaning(j: Json)
    requires IsValue(j)
    ensures IsValue(Reorder(j)) && Meaning(Reorder(j)) == Meaning(j)
    decreases j
  {
    match j
    case Arr(items) =>
      forall i | 0 <= i < |items| ensures IsValue(Reorder(items[i])) && Meaning(Reorder(items[i])) == Meaning(items[i]) {
        ReorderMeaning(items[i]);
      }
      MeaningItemsAt(items);
      MeaningItemsAt(ReorderItems(items));
      assert MeaningItems(ReorderItems(items)) == MeaningItems(items);
    case Obj(entries) =>
      forall i | 0 <= i < |entries|
        ensures IsValue(Reorder(entries[i].value)) && Meaning(Reorder(entries[i].value)) == Meaning(entries[i].value)
      {
        ReorderMeaning(entries[i].value);
      }
      ReversedFields(entries);
    case _ =>
  }

  lemma ReversedFields(entries: seq<Entry>)
    requires KeysDistinct(entries)
    requires forall i :: 0 <= i < |entries| ==>
      IsValue(Reorder(entries[i].value)) && Meaning(Reorder(entries[i].value)) == Meaning(entries[i].value)
    ensures var r := ReverseEntries(ReorderValues(entries)); IsValue(Obj(r)) && Fields(r) == Fields(entries)
  {
    hide Meaning, Fields, Reorder, Covers, ReorderValues, ReverseEntries;
    var c := ReorderValues(entries);
    var r := ReverseEntries(c);
    var n := |entries|;
    assert forall i :: 0 <= i < n ==> SameMeaning(c[i], entries[i]);
    ReverseMultiset(c);
    PermutedCovers(entries, c, r);
    assert KeysDistinct(r);
    CoveringFieldsEqual(r, entries);
  }

  lemma {:induction false} ReverseMultiset(es: seq<Entry>)
    ensures multiset(ReverseEntries(es)) == multiset(es)
  {
    if es != [] {
      ReverseMultiset(es[1..]);
      assert es == [es[0]] + es[1..];
    }
  }

  /** An object with two keys of one weight, anywhere in the value, shows its order in the text. */
  lemma {:induction false} AmbiguityShows(j: Json, w: Weight)
    requires IsValue(j) && !Unambiguous(j, w)
    ensures Canonical(Reorder(j), w) != Canonical(j, w)
    decreases j
  {
    hide Canonical, Reorder;
    match j
    case Arr(items) =>
      var i :| 0 <= i < |items| && !Unambiguous(items[i], w);
      AmbiguityShows(items[i], w);
      NestedItemShows(items, i, w);
    case Obj(entries) =>
      if !WeightsDistinct(entries, w) {
        OrderShows(entries, w);
      } else {
        var i :| 0 <= i < |entries| && !Unambiguous(entries[i].value, w);
        AmbiguityShows(entries[i].value, w);
        NestedShows(entries, i, w);
      }
    case _ =>
  }

  lemma NestedItemShows(items: seq<Json>, i: nat, w: Weight)
    requires i < |items| && Canonical(Reorder(items[i]), w) != Canonical(items[i], w)
    ensures Canonical(Reorder(Arr(items)), w) != Canonical(Arr(items), w)
  {
    var r, c := CanonicalItems(ReorderItems(items), w), CanonicalItems(items, w);
    assert Canonical(Reorder(Arr(items)), w) == Arr(r);
    assert Canonical(Arr(items), w) == Arr(c);
    hide Canonical, Reorder, CanonicalItems, ReorderItems;
    assert r[i] != c[i];
  }

  /** The canonical entries of an object given in the opposite order. */
  function Mirrored(entries: seq<Entry>, w: Weight): seq<Entry> { CanonicalEntries(ReverseEntries(ReorderValues(entries)), w) }

  /** The sorted canonical entries of an object and of the same object reordered. */
  lemma CanonicalObjects(entries: seq<Entry>, w: Weight)
    ensures Canonical(Obj(entries), w) == Obj(Sort(CanonicalEntries(entries, w), w))
    ensures Canonical(Reorder(Obj(entries)), w) == Obj(Sort(Mirrored(entries, w), w))
    ensures |CanonicalEntries(entries, w)| == |Mirrored(entries, w)| == |entries|
  {
    hide CanonicalEntries, ReorderValues, ReverseEntries, Sort;
    assert Reorder(Obj(entries)) == Obj(ReverseEntries(ReorderValues(entries)));
    hide Reorder;
  }

  lemma MirroredAt(entries: seq<Entry>, w: Weight, i: nat)
    requires i < |entries| == |Mirrored(entries, w)| == |CanonicalEntries(entries, w)|
    ensures CanonicalEntries(entries, w)[i] == Entry(entries[i].key, Canonical(entries[i].value, w))
    ensures Mirrored(entries, w)[|entries| - 1 - i] == Entry(entries[i].key, Canonical(Reorder(entries[i].value), w))
  {
    var v := ReorderValues(entries);
    assert ReverseEntries(v)[|v| - 1 - i] == v[i];
    hide CanonicalEntries, ReorderValues, ReverseEntries, Reorder, Canonical;
  }

  lemma InSort(es: seq<Entry>, e: Entry, w: Weight)
    requires e in es
    ensures e in Sort(es, w)
  {
    assert e in multiset(es);
  }

  lemma SortKeysDistinct(es: seq<Entry>, w: Weight)
    requires KeysDistinct(es)
    ensures KeysDistinct(Sort(CanonicalEntries(es, w), w))
  {
    PermutedKeysDistinct(CanonicalEntries(es, w), Sort(CanonicalEntries(es, w), w));
  }

  lemma OneEntryPerKey(s: seq<Entry>, x: Entry, y: Entry)
    requires KeysDistinct(s) && x in s && y in s && x.key == y.key
    ensures x == y
  {
    var i :| 0 <= i < |s| && s[i] == x;
    var j :| 0 <= j < |s| && s[j] == y;
    assert i == j;
  }

  lemma NestedShows(entries: seq<Entry>, i: nat, w: Weight)
    requires KeysDistinct(entries) && i < |entries|
    requires Canonical(Reorder(entries[i].value), w) != Canonical(entries[i].value, w)
    ensures Canonical(Reorder(Obj(entries)), w) != Canonical(Obj(entries), w)
  {
    hide Canonical, CanonicalEntries, Mirrored, Reorder, Sort, KeysDistinct;
    CanonicalObjects(entries, w);
    MirroredAt(entries, w, i);
    SortKeysDistinct(entries, w);
    var c, f := CanonicalEntries(entries, w), Mirrored(entries, w);
    var x, y := c[i], f[|entries| - 1 - i];
    InSort(c, x, w);
    InSort(f, y, w);
    if y in Sort(c, w) { OneEntryPerKey(Sort(c, w), x, y); }
  }

  lemma OneOrder(s: seq<Entry>, x: Entry, y: Entry, x': Entry, y': Entry)
    requires KeysDistinct(s) && x.key == x'.key && y.key == y'.key
    requires Precedes(x, y, s)
    ensures !Precedes(y', x', s)
  {
    var a, b :| 0 <= a < b < |s| && s[a] == x && s[b] == y;
    forall p, q | 0 <= p < q < |s| && s[p] == y' ensures s[q] != x' {
      assert p == b;
      assert a < q;
    }
  }

  /** Two keys of one weight keep, through the stable sort, the order they were given in. */
  lemma StableSortsDiffer(c: seq<Entry>, f: seq<Entry>, i: nat, k: nat, i': nat, k': nat, w: Weight)
    requires i < k < |c| && k' < i' < |f| && c[i].key == f[i'].key && c[k].key == f[k'].key
    requires w(c[i].key) == w(c[k].key) && KeysDistinct(Sort(c, w))
    ensures Sort(c, w) != Sort(f, w)
  {
    SortStable(c, i, k, w);
    SortStable(f, k', i', w);
    hide Sort, KeysDistinct, Precedes;
    OneOrder(Sort(c, w), c[i], c[k], f[i'], f[k']);
  }

  lemma EqualWeights(entries: seq<Entry>, w: Weight) returns (i: nat, k: nat)
    requires !WeightsDistinct(entries, w)
    ensures i < k < |entries| && w(entries[i].key) == w(entries[k].key)
  {
    i, k :| 0 <= i < k < |entries| && w(entries[i].key) == w(entries[k].key);
  }

  lemma OrderShows(entries: seq<Entry>, w: Weight)
    requires KeysDistinct(entries) && !WeightsDistinct(entries, w)
    ensures Canonical(Reorder(Obj(entries)), w) != Canonical(Obj(entries), w)
  {
    hide KeysDistinct, Sort, WeightsDistinct, Canonical, Reorder, CanonicalEntries, Mirrored;
    var i, k := EqualWeights(entries, w);
    SortKeysDistinct(entries, w);
    CanonicalObjects(entries, w);
    MirroredAt(entries, w, i);
    MirroredAt(entries, w, k);
    var c, f := CanonicalEntries(entries, w), Mirrored(entries, w);
    StableSortsDiffer(c, f, i, k, |c| - 1 - i, |c| - 1 - k, w);
  }

  /** Every value equal to `j` up to key order. */
  ghost predicate OrderIndependent(j: Json, w: Weight) {
    forall u :: IsValue(u) && Meaning(u) == Meaning(j) ==> StableJson(u, w) == StableJson(j, w)
  }

  /** The text of a value is independent of key order exactly when no object in it has keys of one weight. */
  lemma OrderIndependentIff(j: Json, w: Weight)
    requires IsValue(j)
    ensures OrderIndependent(j, w) <==> Unambiguous(j, w)
  {
    if Unambiguous(j, w) {
      forall u | IsValue(u) && Meaning(u) == Meaning(j) ensures StableJson(u, w) == StableJson(j, w) {
        SameMeaningUnambiguous(j, u, w);
        CanonicalUnique(u, j, w);
      }
    } else {
      ReorderMeaning(j);
      AmbiguityShows(j, w);
      TextsDiffer(Reorder(j), j, w);
    }
  }

  const E_ACUTE := "\U{00E9}"
  const E_THEN_ACUTE := "e\U{0301}"

  /** Collations do not tell an accented letter from the letter with a combining accent: as keys of one object they show its order. */
  lemma EqualCollationShows(w: Weight)
    requires w(E_ACUTE) == w(E_THEN_ACUTE)
    ensures var x, y := Entry(E_ACUTE, Bool(true)), Entry(E_THEN_ACUTE, Bool(false));
      && IsValue(Obj([x, y])) && IsValue(Obj([y, x])) && Meaning(Obj([x, y])) == Meaning(Obj([y, x]))
      && StableJson(Obj([x, y]), w) != StableJson(Obj([y, x]), w)
  {
    var x, y := Entry(E_ACUTE, Bool(true)), Entry(E_THEN_ACUTE, Bool(false));
    var one := Obj([x, y]);
    assert |E_ACUTE| == 1 && |E_THEN_ACUTE| == 2;
    assert [x, y][0] == x && [x, y][1] == y && w(x.key) == w(y.key);
    assert KeysDistinct([x, y]) && !WeightsDistinct([x, y], w);
    assert ReorderValues([x, y]) == [x, y] && ReverseEntries([x, y]) == [y, x];
    assert Reorder(one) == Obj([y, x]);
    assert IsValue(one);
    hide Canonical, Reorder, IsValue, Meaning, KeysDistinct, WeightsDistinct, StableJson;
    ReorderMeaning(one);
    OrderShows([x, y], w);
    TextsDiffer(Obj([y, x]), one, w);
  }

  lemma TextsDiffer(u: Json, j: Json, w: Weight)
    requires IsValue(u) && IsValue(j) && Canonical(u, w) != Canonical(j, w)
    ensures StableJson(u, w) != StableJson(j, w)
  {
    CanonicalMeaning(u, w);
    CanonicalMeaning(j, w);
    ValueIsPrintable(Canonical(u, w));
    ValueIsPrintable(Canonical(j, w));
    PrintRoundTrip(Canonical(u, w));
    PrintRoundTrip(Canonical(j, w));
  }

  lemma {:induction false} SameMeaningUnambiguous(a: Json, b: Json, w: Weight)
    requires IsValue(a) && IsValue(b) && Unambiguous(a, w) && Meaning(a) == Meaning(b)
    ensures Unambiguous(b, w)
    decreases b
  {
    match b
    case Arr(items) =>
      MeaningItemsAt(items);
      MeaningItemsAt(a.items);
      assert |items| == |MeaningItems(items)| == |a.items|;
      forall i | 0 <= i < |items| ensures Unambiguous(items[i], w) {
        assert Meaning(items[i]) == MeaningItems(items)[i] == Meaning(a.items[i]);
        SameMeaningUnambiguous(a.items[i], items[i], w);
      }
    case Obj(entries) =>
      forall i | 0 <= i < |entries| ensures Unambiguous(entries[i].value, w) {
        var k := SameField(entries, a.entries, i);
        SameMeaningUnambiguous(a.entries[k].value, entries[i].value, w);
      }
      SameFieldsWeights(entries, a.entries, w);
    case _ =>
  }

  /** The entry of `b` with the key of `a[i]`. */
  lemma SameField(a: seq<Entry>, b: seq<Entry>, i: nat) returns (k: nat)
    requires KeysDistinct(a) && KeysDistinct(b) && Fields(a) == Fields(b) && i < |a|
    ensures k < |b| && b[k].key == a[i].key && Meaning(b[k].value) == Meaning(a[i].value)
  {
    FieldsOf(a);
    FieldsOf(b);
    hide Fields, Meaning;
    assert a[i].key in Fields(b);
    k :| 0 <= k < |b| && b[k].key == a[i].key;
  }

  lemma SameFieldsWeights(a: seq<Entry>, b: seq<Entry>, w: Weight)
    requires KeysDistinct(a) && KeysDistinct(b) && Fields(a) == Fields(b) && WeightsDistinct(b, w)
    ensures WeightsDistinct(a, w)
  {
    forall i, j | 0 <= i < j < |a| ensures w(a[i].key) != w(a[j].key) {
      var k := SameField(a, b, i);
      var l := SameField(a, b, j);
      assert k != l;
    }
  }

  // ---------------------------------------------------------------- the key order of JavaScript objects

  type Unit = n: nat | n < 0x10000

  /** The UTF-16 code units of a string, by which `Array.prototype.sort` compares. */
  function Units(s: string): seq<Unit> {
    if s == [] then [] else CharUnits(s[0]) + Units(s[1..])
  }

  function CharUnits(c: char): (u: seq<Unit>)
    ensures u != []
  {
    var n := c as int;
    if n < 0x10000 then [n] else [0xD800 + (n - 0x10000) / 1024, 0xDC00 + (n - 0x10000) % 1024]
  }

  lemma CharUnitsPrefix(c: char, d: char, s: seq<nat>, t: seq<nat>)
    requires CharUnits(c) + s == CharUnits(d) + t
    ensures c == d && s == t
  {
    var x, y := CharUnits(c), CharUnits(d);
    assert (x + s)[0] == x[0] && (y + t)[0] == y[0];
    assert |x| == |y|;
    if |x| == 2 { assert (x + s)[1] == x[1] && (y + t)[1] == y[1]; }
    assert (x + s)[|x|..] == s && (y + t)[|y|..] == t;
  }

  lemma {:induction false} UnitsInjective(s: string, t: string)
    requires Units(s) == Units(t)
    ensures s == t
  {
    if s != [] && t != [] {
      CharUnitsPrefix(s[0], t[0], Units(s[1..]), Units(t[1..]));
      UnitsInjective(s[1..], t[1..]);
      assert s == [s[0]] + s[1..] && t == [t[0]] + t[1..];
    } else {
      assert s != [] ==> Units(s) != [];
      assert t != [] ==> Units(t) != [];
    }
  }

  /** Keys that name array indices, 0 up to 2^32 - 2, in their canonical decimal form. */
  predicate IsIndexKey(k: string) {
    k != [] && AllDigits(k) && (|k| == 1 || k[0] != '0') && DigitsValue(k) < 0xFFFF_FFFF
  }

  /**
   An object enumerates index keys first, in numeric order, whatever order they were assigned in;
   the others follow in assignment order, which `canonicalJson` makes the order of code units.
   Canonical decimals compare numerically by length, then by digits.
   */
  function JsWeight(k: string): seq<nat> {
    if IsIndexKey(k) then [0, |k|] + Units(k) else [1] + Units(k)
  }

  lemma JsWeightInjective(k: string, l: string)
    requires JsWeight(k) == JsWeight(l)
    ensures k == l
  {
    hide IsIndexKey;
    assert JsWeight(k)[0] == JsWeight(l)[0];
    if IsIndexKey(k) {
      assert JsWeight(k)[2..] == Units(k) && JsWeight(l)[2..] == Units(l);
    } else {
      assert JsWeight(k)[1..] == Units(k) && JsWeight(l)[1..] == Units(l);
    }
    UnitsInjective(k, l);
  }

  lemma {:induction false} ValueUnambiguous(j: Json)
    requires IsValue(j)
    ensures Unambiguous(j, JsWeight)
    decreases j
  {
    match j
    case Arr(items) =>
      forall i | 0 <= i < |items| ensures Unambiguous(items[i], JsWeight) { ValueUnambiguous(items[i]); }
    case Obj(entries) =>
      forall i | 0 <= i < |entries| ensures Unambiguous(entries[i].value, JsWeight) { ValueUnambiguous(entries[i].value); }
      forall i, k | 0 <= i < k < |entries| ensures JsWeight(entries[i].key) != JsWeight(entries[k].key) {
        if JsWeight(entries[i].key) == JsWeight(entries[k].key) { JsWeightInjective(entries[i].key, entries[k].key); }
      }
    case _ =>
  }

  // ---------------------------------------------------------------- canonicalJson

  const PROTO := "__proto__"

  /** Assigning to `__proto__` of the sorted copy sets its prototype, so an own key of that name is lost. */
  function DropProto(j: Json): Json
    decreases j
  {
    match j
    case Arr(items) => Arr(DropProtoItems(items))
    case Obj(entries) => Obj(DropProtoEntries(entries))
    case _ => j
  }

  function DropProtoItems(items: seq<Json>): (r: seq<Json>)
    ensures |r| == |items|
    ensures forall i :: 0 <= i < |items| ==> r[i] == DropProto(items[i])
    decreases items
  {
    if items == [] then [] else [DropProto(items[0])] + DropProtoItems(items[1..])
  }

  function DropProtoEntries(entries: seq<Entry>): seq<Entry>
    decreases entries
  {
    if entries == [] then []
    else if entries[0].key == PROTO then DropProtoEntries(entries[1..])
    else [Entry(entries[0].key, DropProto(entries[0].value))] + DropProtoEntries(entries[1..])
  }

  function CanonicalJson(j: Json): string { StableJson(DropProto(j), JsWeight) }

  /** Some object in the value has an own key `__proto__`. */
  ghost predicate HasProtoKey(j: Json)
    decreases j
  {
    match j
    case Arr(items) => exists i :: 0 <= i < |items| && HasProtoKey(items[i])
    case Obj(entries) => exists i :: 0 <= i < |entries| && (entries[i].key == PROTO || HasProtoKey(entries[i].value))
    case _ => false
  }

  lemma {:induction false} DropProtoKeeps(entries: seq<Entry>)
    ensures forall e :: e in DropProtoEntries(entries) ==>
      exists i :: 0 <= i < |entries| && e.key == entries[i].key != PROTO && e.value == DropProto(entries[i].value)
    ensures forall i :: 0 <= i < |entries| && entries[i].key != PROTO ==>
      Entry(entries[i].key, DropProto(entries[i].value)) in DropProtoEntries(entries)
  {
    hide DropProto;
    if entries != [] {
      var tail := entries[1..];
      DropProtoKeeps(tail);
      forall e | e in DropProtoEntries(entries)
        ensures exists i :: 0 <= i < |entries| && e.key == entries[i].key != PROTO && e.value == DropProto(entries[i].value)
      {
        if e in DropProtoEntries(tail) {
          var i :| 0 <= i < |tail| && e.key == tail[i].key != PROTO && e.value == DropProto(tail[i].value);
          assert entries[i + 1] == tail[i];
        } else {
          assert e == Entry(entries[0].key, DropProto(entries[0].value));
        }
      }
    }
  }

  lemma {:induction false} DropProtoDistinct(entries: seq<Entry>)
    requires KeysDistinct(entries)
    ensures KeysDistinct(DropProtoEntries(entries))
  {
    if entries != [] {
      var tail := entries[1..];
      DropProtoDistinct(tail);
      DropProtoKeeps(tail);
      hide DropProto;
      var d := DropProtoEntries(tail);
      forall i | 0 <= i < |d| ensures d[i].key != entries[0].key {
        assert d[i] in d;
        var k :| 0 <= k < |tail| && d[i].key == tail[k].key != PROTO && d[i].value == DropProto(tail[k].value);
        assert entries[k + 1] == tail[k];
      }
    }
  }

  lemma {:induction false} DropProtoValue(j: Json)
    requires IsValue(j)
    ensures IsValue(DropProto(j))
    decreases j
  {
    match j
    case Arr(items) =>
      forall i | 0 <= i < |items| ensures IsValue(DropProto(items[i])) { DropProtoValue(items[i]); }
    case Obj(entries) =>
      forall i | 0 <= i < |entries| ensures IsValue(DropProto(entries[i].value)) { DropProtoValue(entries[i].value); }
      DropProtoDistinct(entries);
      DropProtoKeeps(entries);
      var d := DropProtoEntries(entries);
      forall i | 0 <= i < |d| ensures IsValue(d[i].value) {
        assert d[i] in d;
        var k :| 0 <= k < |entries| && d[i].key == entries[k].key != PROTO && d[i].value == DropProto(entries[k].value);
      }
    case _ =>
  }

  /** Texts are equal exactly when what is left without `__proto__` keys is equal up to key order. */
  lemma CanonicalJsonDecides(a: Json, b: Json)
    requires IsValue(a) && IsValue(b)
    ensures CanonicalJson(a) == CanonicalJson(b) <==> Meaning(DropProto(a)) == Meaning(DropProto(b))
  {
    DropProtoValue(a);
    DropProtoValue(b);
    ValueUnambiguous(DropProto(a));
    ValueUnambiguous(DropProto(b));
    StableJsonDecides(DropProto(a), DropProto(b), JsWeight);
  }

  lemma {:induction false} DropProtoIdentity(j: Json)
    requires !HasProtoKey(j)
    ensures DropProto(j) == j
    decreases j
  {
    match j
    case Arr(items) =>
      forall i | 0 <= i < |items| ensures DropProto(items[i]) == items[i] { DropProtoIdentity(items[i]); }
      assert DropProtoItems(items) == items;
    case Obj(entries) =>
      forall i | 0 <= i < |entries| ensures entries[i].key != PROTO && DropProto(entries[i].value) == entries[i].value {
        DropProtoIdentity(entries[i].value);
      }
      DropNothing(entries);
    case _ =>
  }

  lemma {:induction false} DropNothing(entries: seq<Entry>)
    requires forall i :: 0 <= i < |entries| ==> entries[i].key != PROTO && DropProto(entries[i].value) == entries[i].value
    ensures DropProtoEntries(entries) == entries
  {
    hide DropProto;
    if entries != [] {
      DropNothing(entries[1..]);
      assert entries == [entries[0]] + entries[1..];
    }
  }

  lemma {:induction false} DropProtoMeaning(j: Json)
    requires IsValue(j) && HasProtoKey(j)
    ensures Meaning(DropProto(j)) != Meaning(j)
    decreases j
  {
    match j
    case Arr(items) =>
      var i :| 0 <= i < |items| && HasProtoKey(items[i]);
      DropProtoMeaning(items[i]);
      MeaningItemsAt(items);
      MeaningItemsAt(DropProtoItems(items));
      assert MeaningItems(DropProtoItems(items))[i] != MeaningItems(items)[i];
    case Obj(entries) =>
      var i :| 0 <= i < |entries| && (entries[i].key == PROTO || HasProtoKey(entries[i].value));
      if entries[i].key != PROTO { DropProtoMeaning(entries[i].value); }
      DropProtoDistinct(entries);
      FieldsOf(entries);
      FieldsOf(DropProtoEntries(entries));
      DropProtoField(entries, i);
    case _ =>
  }

  /** The field of entry `i` after dropping: gone when it is `__proto__`, else the reduced value. */
  lemma DropProtoField(entries: seq<Entry>, i: nat)
    requires KeysDistinct(entries) && i < |entries|
    ensures var f := Fields(DropProtoEntries(entries));
      if entries[i].key == PROTO then PROTO !in f
      else entries[i].key in f && f[entries[i].key] == Meaning(DropProto(entries[i].value))
  {
    var d := DropProtoEntries(entries);
    DropProtoDistinct(entries);
    if entries[i].key == PROTO {
      NoProtoKept(entries);
      FieldsOf(d);
    } else {
      var e := Entry(entries[i].key, DropProto(entries[i].value));
      assert e in d by { DropProtoKeeps(entries); }
      FieldOfMember(d, e);
    }
  }

  lemma NoProtoKept(entries: seq<Entry>)
    ensures forall k :: 0 <= k < |DropProtoEntries(entries)| ==> DropProtoEntries(entries)[k].key != PROTO
  {
    DropProtoKeeps(entries);
    var d := DropProtoEntries(entries);
    hide DropProtoEntries, DropProto;
    assert forall k :: 0 <= k < |d| ==> d[k] in d && d[k].key != PROTO;
  }

  lemma FieldOfMember(es: seq<Entry>, e: Entry)
    requires KeysDistinct(es) && e in es
    ensures e.key in Fields(es) && Fields(es)[e.key] == Meaning(e.value)
  {
    FieldsOf(es);
    var k :| 0 <= k < |es| && es[k] == e;
  }

  /** What a reader gets back from the canonical text. */
  function Reread(text: string): Option<Value> {
    match Parse(text)
    case None => None
    case Some(j) => Some(Meaning(j))
  }

  /** The text determines the value, up to key order, exactly when no object in it has a `__proto__` key. */
  lemma CanonicalJsonFaithfulIff(j: Json)
    requires IsValue(j)
    ensures Reread(CanonicalJson(j)) == Some(Meaning(j)) <==> !HasProtoKey(j)
  {
    var d := DropProto(j);
    DropProtoValue(j);
    CanonicalMeaning(d, JsWeight);
    ValueIsPrintable(Canonical(d, JsWeight));
    PrintRoundTrip(Canonical(d, JsWeight));
    if HasProtoKey(j) { DropProtoMeaning(j); } else { DropProtoIdentity(j); }
  }

  /** For payloads without such a key, the ledger's text is equal exactly for equal values. */
  lemma CanonicalJsonDecidesPlain(a: Json, b: Json)
    requires IsValue(a) && IsValue(b) && !HasProtoKey(a) && !HasProtoKey(b)
    ensures CanonicalJson(a) == CanonicalJson(b) <==> Meaning(a) == Meaning(b)
  {
    CanonicalJsonDecides(a, b);
    DropProtoIdentity(a);
    DropProtoIdentity(b);
  }

  /** Two different payloads with one text: `{}` and `{"__proto__":true}`. */
  lemma CanonicalJsonCollision()
    ensures var a, b := Obj([]), Obj([Entry(PROTO, Bool(true))]);
      IsValue(a) && IsValue(b) && Meaning(a) != Meaning(b) && CanonicalJson(a) == CanonicalJson(b)
  {
    var es := [Entry(PROTO, Bool(true))];
    assert es[1..] == [];
    assert DropProtoEntries(es) == [];
    assert PROTO in Fields(es);
  }
}
