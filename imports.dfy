/** The two import lists of a block definition: `config['use']` for the
    entity class and `config['form']['use']` for the form type
    (`addUse`, `addFormUse`, `getUse`, `getFormUse`). Values are appended
    with nested arrays flattened, nothing is ever removed, and the lists
    are read back with duplicates dropped (`array_unique`, which compares
    the string forms and keeps the first occurrence). */
module Imports {
  import opened PhpValues

  /** What `addUse($v)` appends: `$v` itself unless it is an array, else the
      leaves of its elements, in order. */
  function Leaves(v: Value): (r: seq<Value>)
    ensures forall w :: w in r ==> !w.Arr?
    decreases v, 1
  {
    if v.Arr? then LeavesFrom(v.entries, 0) else [v]
  }

  /** The leaves of the elements `es[i..]`. */
  function LeavesFrom(es: seq<Entry>, i: nat): (r: seq<Value>)
    requires i <= |es|
    ensures forall w :: w in r ==> !w.Arr?
    decreases Arr(es), 0, |es| - i
  {
    if i == |es| then [] else Leaves(es[i].val) + LeavesFrom(es, i + 1)
  }

  /** The recursive append of `addUse` on one list: a loop over an array's
      elements that recurses into each, or one `$list[] = $v`. */
  method PushLeaves(list: seq<Entry>, v: Value) returns (r: seq<Entry>)
    ensures r == PushAll(list, Leaves(v))
    decreases v
  {
    if v.Arr? {
      r := list;
      var i := 0;
      while i < |v.entries|
        invariant 0 <= i <= |v.entries|
        invariant PushAll(r, LeavesFrom(v.entries, i)) == PushAll(list, Leaves(v))
      {
        var before := r;
        r := PushLeaves(r, v.entries[i].val);
        PushAllConcat(before, Leaves(v.entries[i].val), LeavesFrom(v.entries, i + 1));
        i := i + 1;
      }
    } else {
      r := Push(list, v);
    }
  }

  /** The string forms of some values. */
  function TextSet(vs: seq<Value>): set<string>
  {
    set v | v in vs :: ToText(v)
  }

  /** `array_unique`: the values whose string form has not occurred before,
      in order. */
  function Unique(vs: seq<Value>): (r: seq<Value>)
    ensures forall i, j :: 0 <= i < j < |r| ==> ToText(r[i]) != ToText(r[j])
    ensures TextSet(r) == TextSet(vs)
    ensures forall w :: w in r ==> w in vs
  {
    if vs == [] then []
    else
      var init, last := vs[..|vs| - 1], vs[|vs| - 1];
      assert vs == init + [last];
      var u := Unique(init);
      assert TextSet(u + [last]) == TextSet(u) + {ToText(last)} by {
        assert forall w :: w in u + [last] <==> w in u || w == last;
      }
      if ToText(last) in TextSet(init) then u else u + [last]
  }

  /** `vs[i]` is the first value of `vs` with its string form. */
  predicate FirstOccurrence(vs: seq<Value>, i: int)
  {
    0 <= i < |vs| && forall j :: 0 <= j < i ==> ToText(vs[j]) != ToText(vs[i])
  }

  /** The positions of the first occurrences in `vs`, in increasing order. */
  function FirstIndices(vs: seq<Value>): (f: seq<nat>)
    ensures forall k :: 0 <= k < |f| ==> f[k] < |vs|
    ensures forall k, l :: 0 <= k < l < |f| ==> f[k] < f[l]
  {
    if vs == [] then []
    else
      var n := |vs| - 1;
      FirstIndices(vs[..n]) + (if FirstOccurrence(vs, n) then [n] else [])
  }

  /** `array_unique` keeps exactly the first occurrences, each at the position
      of its index among the first-occurrence indices: the result is the
      subsequence of `vs` at those indices, in input order. */
  lemma UniqueKeepsFirsts(vs: seq<Value>)
    ensures var r, f := Unique(vs), FirstIndices(vs);
      && |r| == |f|
      && (forall k :: 0 <= k < |f| ==> r[k] == vs[f[k]])
      && (forall i :: 0 <= i < |vs| ==> (i in f <==> FirstOccurrence(vs, i)))
  {
    UniqueAtFirstIndices(vs);
    FirstIndicesComplete(vs);
  }

  /** The deduplicated list is `vs` read at the first-occurrence indices. */
  lemma {:induction false} UniqueAtFirstIndices(vs: seq<Value>)
    ensures var r, f := Unique(vs), FirstIndices(vs);
      |r| == |f| && forall k :: 0 <= k < |f| ==> r[k] == vs[f[k]]
  {
    if vs != [] {
      var n := |vs| - 1;
      UniqueAtFirstIndices(vs[..n]);
      UniqueStep(vs);
      var fi := FirstIndices(vs[..n]);
      var r, f := Unique(vs), FirstIndices(vs);
      forall k | 0 <= k < |f|
        ensures r[k] == vs[f[k]]
      {
        if k < |fi| {
          assert f[k] == fi[k] < n;
        }
      }
    }
  }

  /** Every first occurrence, and nothing else, has its index listed. */
  lemma {:induction false} FirstIndicesComplete(vs: seq<Value>)
    ensures forall i :: 0 <= i < |vs| ==> (i in FirstIndices(vs) <==> FirstOccurrence(vs, i))
  {
    if vs != [] {
      var n := |vs| - 1;
      FirstIndicesComplete(vs[..n]);
      FirstOccurrencePrefix(vs);
      var fi, f := FirstIndices(vs[..n]), FirstIndices(vs);
      assert f == fi + (if FirstOccurrence(vs, n) then [n] else []);
      forall i | 0 <= i < n
        ensures i in f <==> FirstOccurrence(vs, i)
      {
        assert i in f <==> i in fi;
      }
    }
  }

  /** One step of both definitions: the last value is kept exactly when it
      is a first occurrence. */
  lemma UniqueStep(vs: seq<Value>)
    requires vs != []
    ensures var n := |vs| - 1;
      && Unique(vs) == Unique(vs[..n]) + (if FirstOccurrence(vs, n) then [vs[n]] else [])
      && FirstIndices(vs) == FirstIndices(vs[..n]) + (if FirstOccurrence(vs, n) then [n] else [])
  {
    LastOccurrence(vs);
  }

  /** The last value is a first occurrence exactly when its string form is
      new. */
  lemma LastOccurrence(vs: seq<Value>)
    requires vs != []
    ensures ToText(vs[|vs| - 1]) in TextSet(vs[..|vs| - 1]) <==> !FirstOccurrence(vs, |vs| - 1)
  {
    var n := |vs| - 1;
    var init := vs[..n];
    if ToText(vs[n]) in TextSet(init) {
      var w :| w in init && ToText(w) == ToText(vs[n]);
      var j :| 0 <= j < n && init[j] == w;
      assert ToText(vs[j]) == ToText(vs[n]);
    }
    if !FirstOccurrence(vs, n) {
      var j :| 0 <= j < n && ToText(vs[j]) == ToText(vs[n]);
      assert init[j] in init;
    }
  }

  /** Whether a position holds a first occurrence depends only on the values
      up to it. */
  lemma FirstOccurrencePrefix(vs: seq<Value>)
    requires vs != []
    ensures forall i :: 0 <= i < |vs| - 1 ==> (FirstOccurrence(vs[..|vs| - 1], i) <==> FirstOccurrence(vs, i))
  {
  }

  /** A list without repeated string forms reads back unchanged. */
  lemma {:induction false} UniqueOfDistinct(vs: seq<Value>)
    requires forall i, j :: 0 <= i < j < |vs| ==> ToText(vs[i]) != ToText(vs[j])
    ensures Unique(vs) == vs
  {
    if vs != [] {
      var init, last := vs[..|vs| - 1], vs[|vs| - 1];
      assert vs == init + [last];
      UniqueOfDistinct(init);
      assert ToText(last) !in TextSet(init);
    }
  }

  /** `$c[$k] ?? []`, read as the array it is expected to be. */
  function Sub(c: seq<Entry>, k: string): seq<Entry>
  {
    AsEntries(GetOr(c, Name(k), Arr([])))
  }

  /** `$c[$k] = $es`. */
  function WithSub(c: seq<Entry>, k: string, es: seq<Entry>): seq<Entry>
  {
    Set(c, Name(k), Arr(es))
  }

  /** `$c[$k]` is absent, null or an array: the shapes the model lets
      `$c[$k][] = …` append to. PHP raises an error on a string, a number
      or `true`, and turns `false` into an array. */
  predicate ListSlot(c: seq<Entry>, k: string)
  {
    match Find(c, Name(k))
    case None => true
    case Some(v) => v == Null || v.Arr?
  }

  /** The configuration's `use`, `form` and `form.use` entries can take appends. */
  predicate UseListsWellFormed(c: seq<Entry>)
  {
    ListSlot(c, "use") && ListSlot(c, "form") && ListSlot(Sub(c, "form"), "use")
  }

  function UseList(c: seq<Entry>): seq<Entry>
  {
    Sub(c, "use")
  }

  function FormUseList(c: seq<Entry>): seq<Entry>
  {
    Sub(Sub(c, "form"), "use")
  }

  /** The configuration after `addUse($v)`. */
  function AddUseTo(c: seq<Entry>, v: Value): seq<Entry>
  {
    WithSub(c, "use", PushAll(UseList(c), Leaves(v)))
  }

  /** The configuration after `addFormUse($v)`. */
  function AddFormUseTo(c: seq<Entry>, v: Value): seq<Entry>
  {
    WithSub(c, "form", WithSub(Sub(c, "form"), "use", PushAll(FormUseList(c), Leaves(v))))
  }

  /** `getUse()`: the entity imports without repeated string forms, none
      while `use` is not set. */
  function UseImports(c: seq<Entry>): (r: seq<Value>)
    ensures forall i, j :: 0 <= i < j < |r| ==> ToText(r[i]) != ToText(r[j])
    ensures TextSet(r) == TextSet(Values(UseList(c)))
    ensures forall w :: w in r ==> w in Values(UseList(c))
    ensures !IsSet(c, Name("use")) ==> r == []
    ensures IsSet(c, Name("use")) ==>
      var vs, f := Values(UseList(c)), FirstIndices(Values(UseList(c)));
      |r| == |f| && forall k :: 0 <= k < |f| ==> r[k] == vs[f[k]]
  {
    if IsSet(c, Name("use")) then
      UniqueKeepsFirsts(Values(UseList(c)));
      Unique(Values(UseList(c)))
    else []
  }

  /** `getFormUse()`: the form imports without repeated string forms. */
  function FormUseImports(c: seq<Entry>): (r: seq<Value>)
    ensures forall i, j :: 0 <= i < j < |r| ==> ToText(r[i]) != ToText(r[j])
    ensures TextSet(r) == TextSet(Values(FormUseList(c)))
    ensures forall w :: w in r ==> w in Values(FormUseList(c))
    ensures var vs, f := Values(FormUseList(c)), FirstIndices(Values(FormUseList(c)));
      |r| == |f| && forall k :: 0 <= k < |f| ==> r[k] == vs[f[k]]
  {
    UniqueKeepsFirsts(Values(FormUseList(c)));
    Unique(Values(FormUseList(c)))
  }

  /** `addUse` appends the leaves of its argument to the entity imports and
      changes no other configuration key. */
  lemma AddUseAppends(c: seq<Entry>, v: Value)
    ensures Values(UseList(AddUseTo(c, v))) == Values(UseList(c)) + Leaves(v)
    ensures forall k :: k != Name("use") ==> Find(AddUseTo(c, v), k) == Find(c, k)
    ensures UseListsWellFormed(c) ==> UseListsWellFormed(AddUseTo(c, v))
  {
    PushAllValues(UseList(c), Leaves(v));
  }

  /** `addFormUse` appends the leaves of its argument to the form imports;
      outside `form.use` nothing changes. */
  lemma AddFormUseAppends(c: seq<Entry>, v: Value)
    ensures Values(FormUseList(AddFormUseTo(c, v))) == Values(FormUseList(c)) + Leaves(v)
    ensures forall k :: k != Name("form") ==> Find(AddFormUseTo(c, v), k) == Find(c, k)
    ensures forall k :: k != Name("use") ==> Find(Sub(AddFormUseTo(c, v), "form"), k) == Find(Sub(c, "form"), k)
    ensures UseListsWellFormed(c) ==> UseListsWellFormed(AddFormUseTo(c, v))
  {
    PushAllValues(FormUseList(c), Leaves(v));
  }

  /** After `addUse($v)`, `getUse()` has no two entries with the same string
      form and holds every leaf of `$v` and every earlier import. */
  lemma AddUseThenRead(c: seq<Entry>, v: Value)
    ensures var r := UseImports(AddUseTo(c, v));
      && (forall i, j :: 0 <= i < j < |r| ==> ToText(r[i]) != ToText(r[j]))
      && (forall w :: w in Leaves(v) ==> ToText(w) in TextSet(r))
      && TextSet(UseImports(c)) <= TextSet(r)
  {
    AddUseAppends(c, v);
    var before := Values(UseList(c));
    assert forall w :: w in Leaves(v) ==> w in before + Leaves(v);
    assert forall w :: w in before ==> w in before + Leaves(v);
  }
}
