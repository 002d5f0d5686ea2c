/** The scope of a grant: a flat object of scalars, normalized and digested as stable JSON. */
module PermissionScope {
  import opened Wrappers
  import opened Json
  import opened CanonicalJson

  datatype ScopeError = InvalidScopeKey | ValueNotScalar | EmptyScope

  predicate IsLetter(c: char) { 'A' <= c <= 'Z' || 'a' <= c <= 'z' }

  predicate IsScopeKey(k: string) {
    1 <= |k| <= 64 && IsLetter(k[0]) && forall i :: 0 <= i < |k| ==> IsLetter(k[i]) || IsDigit(k[i]) || k[i] == '_'
  }

  predicate IsScalar(j: Json) { !j.Arr? && !j.Obj? }

  predicate ValidField(e: Entry) { IsScopeKey(e.key) && IsScalar(e.value) }

  ghost predicate IsScope(entries: seq<Entry>) { entries != [] && forall i :: 0 <= i < |entries| ==> ValidField(entries[i]) }

  function FieldError(e: Entry): ScopeError { if IsScopeKey(e.key) then ValueNotScalar else InvalidScopeKey }

  /** A key of at most 64 letters, digits and underscores that starts with a letter is refused only for its value, a list or an object. */
  lemma FieldMeaning(e: Entry)
    ensures var word := (forall c :: c in e.key ==> 'A' <= c <= 'Z' || 'a' <= c <= 'z' || '0' <= c <= '9' || c == '_');
      var named := 0 < |e.key| < 65 && word && !('0' <= e.key[0] <= '9') && e.key[0] != '_';
      && (ValidField(e) <==> named && !e.value.Arr? && !e.value.Obj?)
      && (FieldError(e) == InvalidScopeKey <==> !named) && (FieldError(e) == ValueNotScalar <==> named)
  {
    assert forall i :: 0 <= i < |e.key| ==> e.key[i] in e.key;
  }

  /**
   The fields in the order of their keys; or the error of the first that is not valid in that order.
   `w` is the collation that `localeCompare` orders keys by.
   */
  method NormalizeScope(scope: seq<Entry>, w: Weight) returns (r: Result<seq<Entry>, ScopeError>)
    ensures IsScope(scope) ==> r == Success(Sort(scope, w))
    ensures scope == [] ==> r == Failure(EmptyScope)
    ensures scope != [] && !IsScope(scope) ==>
              var sorted := Sort(scope, w);
              exists n :: 0 <= n < |sorted| && !ValidField(sorted[n]) && (forall i :: 0 <= i < n ==> ValidField(sorted[i])) && r == Failure(FieldError(sorted[n]))
  {
    hide ValidField;
    var sorted := Sort(scope, w);
    SortKeepsScope(scope, w);
    var safe: seq<Entry> := [];
    for n := 0 to |sorted|
      invariant safe == sorted[..n] && forall i :: 0 <= i < n ==> ValidField(sorted[i])
    {
      if !ValidField(sorted[n]) { return Failure(FieldError(sorted[n])); }
      safe := safe + [sorted[n]];
    }
    assert sorted[..|sorted|] == sorted;
    if safe == [] { return Failure(EmptyScope); }
    return Success(safe);
  }

  lemma SortKeepsScope(scope: seq<Entry>, w: Weight)
    ensures IsScope(Sort(scope, w)) <==> IsScope(scope)
    ensures |Sort(scope, w)| == |scope|
  {
    hide ValidField;
    SortSorted(scope, w);
    var sorted := Sort(scope, w);
    hide Sort;
    assert |multiset(sorted)| == |multiset(scope)|;
    SameMembers(sorted, scope);
  }

  /** The text a scope is digested from. */
  function ScopeText(scope: seq<Entry>, w: Weight): string { StableJson(Obj(Sort(scope, w)), w) }

  lemma SameMembers(a: seq<Entry>, b: seq<Entry>)
    requires multiset(a) == multiset(b)
    ensures (forall i :: 0 <= i < |a| ==> ValidField(a[i])) <==> (forall i :: 0 <= i < |b| ==> ValidField(b[i]))
  {
    hide ValidField;
    forall i | 0 <= i < |a| ensures a[i] in b { assert a[i] in multiset(b); }
    forall i | 0 <= i < |b| ensures b[i] in a { assert b[i] in multiset(a); }
  }

  /** The collation tells scope keys apart, as `localeCompare` does letters, digits and underscores. */
  ghost predicate TellsKeysApart(w: Weight) {
    forall k, l :: IsScopeKey(k) && IsScopeKey(l) && w(k) == w(l) ==> k == l
  }

  lemma {:induction false} ScalarsCanonical(scope: seq<Entry>, w: Weight)
    requires forall i :: 0 <= i < |scope| ==> IsScalar(scope[i].value)
    ensures CanonicalEntries(scope, w) == scope
  {
    assert forall i :: 0 <= i < |scope| ==> CanonicalEntries(scope, w)[i] == scope[i];
  }

  lemma ScopeUnambiguous(scope: seq<Entry>, w: Weight)
    requires IsScope(scope) && KeysDistinct(scope) && TellsKeysApart(w)
    ensures Unambiguous(Obj(scope), w)
  {
    assert forall i :: 0 <= i < |scope| ==> ValidField(scope[i]);
    hide IsScopeKey;
    assert forall i :: 0 <= i < |scope| ==> Unambiguous(scope[i].value, w);
  }

  lemma SortedScope(scope: seq<Entry>, w: Weight)
    requires IsScope(scope) && IsValue(Obj(scope))
    ensures var sorted := Obj(Sort(scope, w)); IsValue(sorted) && Meaning(sorted) == VObj(Fields(scope))
  {
    assert forall i :: 0 <= i < |scope| ==> ValidField(scope[i]);
    hide IsScopeKey;
    ScalarsCanonical(scope, w);
    CanonicalMeaning(Obj(scope), w);
    hide Sort, IsValue;
    assert Canonical(Obj(scope), w) == Obj(Sort(scope, w));
  }

  /** Two scopes are digested from the same text exactly when they have the same fields, in whatever order given. */
  lemma ScopeTextDecides(a: seq<Entry>, b: seq<Entry>, w: Weight)
    requires IsScope(a) && KeysDistinct(a) && IsValue(Obj(a)) && IsScope(b) && KeysDistinct(b) && IsValue(Obj(b)) && TellsKeysApart(w)
    ensures ScopeText(a, w) == ScopeText(b, w) <==> Fields(a) == Fields(b)
  {
    SortedScope(a, w);
    SortedScope(b, w);
    SortKeepsScope(a, w);
    SortKeepsScope(b, w);
    assert KeysDistinct(Sort(a, w)) && KeysDistinct(Sort(b, w)) by { hide Sort, IsScope, Meaning, Fields; }
    hide Sort, Fields, Meaning, StableJson, IsScope, IsValue, KeysDistinct;
    ScopeUnambiguous(Sort(a, w), w);
    ScopeUnambiguous(Sort(b, w), w);
    StableJsonDecides(Obj(Sort(a, w)), Obj(Sort(b, w)), w);
  }
}
