/** The recursive merge of a property's configuration over the template it
    names (`BlockDefinition::deepMerge`). For each entry of the override,
    in order: an array value is merged into the base's entry under the same
    key (a missing or null base entry counts as an empty array); any other
    value replaces the base's entry. */
module ConfigMerge {
  import opened PhpValues

  /** The base that an array-valued override entry is merged into:
      `$array1[$key] ?? []`. */
  function BaseFor(base: seq<Entry>, k: Key): (r: seq<Entry>)
    ensures Find(base, k) == None || Find(base, k) == Some(Null) ==> r == []
    ensures Find(base, k).Some? && Find(base, k).value.Arr? ==> r == Find(base, k).value.entries
  {
    AsEntries(GetOr(base, k, Arr([])))
  }

  /** The value an override entry leaves under its key. */
  function Merged(base: seq<Entry>, e: Entry): Value
    decreases e.val, 1
  {
    if e.val.Arr? then Arr(MergeFrom(BaseFor(base, e.key), e.val.entries, 0)) else e.val
  }

  /** Merges `over[i..]` into `base`, one entry at a time. */
  function MergeFrom(base: seq<Entry>, over: seq<Entry>, i: nat): seq<Entry>
    requires i <= |over|
    decreases Arr(over), 0, |over| - i
  {
    if i == |over| then base
    else MergeFrom(Set(base, over[i].key, Merged(base, over[i])), over, i + 1)
  }

  /** `deepMerge($base, $over)`. */
  function Merge(base: seq<Entry>, over: seq<Entry>): seq<Entry>
  {
    MergeFrom(base, over, 0)
  }

  /** A PHP array never holds one key twice, nor does any array inside it. */
  predicate WellFormed(a: seq<Entry>)
    decreases Arr(a)
  {
    && (forall i, j :: 0 <= i < j < |a| ==> a[i].key != a[j].key)
    && (forall i :: 0 <= i < |a| && a[i].val.Arr? ==> WellFormed(a[i].val.entries))
  }

  /** The merge as the source runs it: a loop over the override that
      updates the base key by key, recursing into array values. */
  method DeepMerge(base: seq<Entry>, over: seq<Entry>) returns (r: seq<Entry>)
    ensures r == Merge(base, over)
    decreases Arr(over), 1
  {
    r := base;
    var i := 0;
    while i < |over|
      invariant 0 <= i <= |over|
      invariant MergeFrom(r, over, i) == Merge(base, over)
    {
      r := MergeEntry(r, over[i]);
      i := i + 1;
    }
  }

  /** One iteration of the merge loop: `$array1[$key]` becomes the entry's
      value, merged recursively when it is an array. */
  method MergeEntry(base: seq<Entry>, e: Entry) returns (r: seq<Entry>)
    ensures r == Set(base, e.key, Merged(base, e))
    decreases e.val, 2
  {
    var v := e.val;
    if v.Arr? {
      var sub := DeepMerge(BaseFor(base, e.key), v.entries);
      v := Arr(sub);
    }
    r := Set(base, e.key, v);
  }

  /** A key that the rest of the override does not name keeps its value. */
  lemma {:induction false} MergeFromKeeps(base: seq<Entry>, over: seq<Entry>, i: nat, k: Key)
    requires i <= |over|
    requires forall j :: i <= j < |over| ==> over[j].key != k
    ensures Find(MergeFrom(base, over, i), k) == Find(base, k)
    decreases |over| - i
  {
    if i < |over| {
      MergeFromKeeps(Set(base, over[i].key, Merged(base, over[i])), over, i + 1, k);
    }
  }

  /** Every base key the override does not name keeps its value. */
  lemma MergeKeepsUnnamed(base: seq<Entry>, over: seq<Entry>, k: Key)
    requires Find(over, k).None?
    ensures Find(Merge(base, over), k) == Find(base, k)
  {
    FindSpec(over, k);
    MergeFromKeeps(base, over, 0, k);
  }

  /** The entry `over[j]` decides the value of its key, from the base's
      original value under that key. */
  lemma {:induction false} MergeFromAt(base: seq<Entry>, over: seq<Entry>, i: nat, j: nat)
    requires i <= j < |over|
    requires forall a, b :: 0 <= a < b < |over| ==> over[a].key != over[b].key
    ensures Find(MergeFrom(base, over, i), over[j].key) == Some(Merged(base, over[j]))
    decreases |over| - i
  {
    var e := over[i];
    var next := Set(base, e.key, Merged(base, e));
    if i == j {
      MergeFromKeeps(next, over, i + 1, e.key);
    } else {
      assert BaseFor(next, over[j].key) == BaseFor(base, over[j].key);
      MergeFromAt(next, over, i + 1, j);
    }
  }

  /** What the override names: a non-array value replaces the base's value,
      whatever it is; an array value is merged recursively into the base's
      entry (an empty array when the base has none, holds null, or holds
      another scalar). */
  lemma MergeOverrides(base: seq<Entry>, over: seq<Entry>, k: Key, v: Value)
    requires WellFormed(over)
    requires Find(over, k) == Some(v)
    ensures !v.Arr? ==> Find(Merge(base, over), k) == Some(v)
    ensures v.Arr? && (Find(base, k) == None || Find(base, k) == Some(Null)) ==>
              Find(Merge(base, over), k) == Some(Arr(Merge([], v.entries)))
    ensures v.Arr? && Find(base, k).Some? && Find(base, k).value != Null && !Find(base, k).value.Arr? ==>
              Find(Merge(base, over), k) == Some(Arr(Merge([], v.entries)))
    ensures v.Arr? && Find(base, k).Some? && Find(base, k).value.Arr? ==>
              Find(Merge(base, over), k) == Some(Arr(Merge(Find(base, k).value.entries, v.entries)))
  {
    FindSpec(over, k);
    var j :| 0 <= j < |over| && over[j] == Entry(k, v);
    MergeFromAt(base, over, 0, j);
  }

  /** The merged array holds exactly the keys of the base and the override. */
  lemma {:induction false} MergeFromDomain(base: seq<Entry>, over: seq<Entry>, i: nat, k: Key)
    requires i <= |over|
    ensures Find(MergeFrom(base, over, i), k).Some? <==>
              Find(base, k).Some? || exists j :: i <= j < |over| && over[j].key == k
    decreases |over| - i
  {
    if i < |over| {
      var e := over[i];
      MergeFromDomain(Set(base, e.key, Merged(base, e)), over, i + 1, k);
      assert (exists j :: i <= j < |over| && over[j].key == k) <==>
             e.key == k || exists j :: i + 1 <= j < |over| && over[j].key == k;
    }
  }

  lemma MergeDomain(base: seq<Entry>, over: seq<Entry>, k: Key)
    ensures Find(Merge(base, over), k).Some? <==> Find(base, k).Some? || Find(over, k).Some?
  {
    FindSpec(over, k);
    MergeFromDomain(base, over, 0, k);
  }

  /** Merging the same override a second time changes nothing. */
  lemma {:induction false} MergeFromIdempotent(base: seq<Entry>, over: seq<Entry>, i: nat)
    requires WellFormed(over)
    requires i <= |over|
    ensures MergeFrom(Merge(base, over), over, i) == Merge(base, over)
    decreases Arr(over), |over| - i
  {
    if i < |over| {
      var m := Merge(base, over);
      var e := over[i];
      MergeFromAt(base, over, 0, i);
      assert Find(m, e.key) == Some(Merged(base, e));
      if e.val.Arr? {
        var b0 := BaseFor(base, e.key);
        assert BaseFor(m, e.key) == Merge(b0, e.val.entries);
        MergeFromIdempotent(b0, e.val.entries, 0);
      }
      assert Merged(m, e) == Merged(base, e);
      SetSame(m, e.key, Merged(m, e));
      MergeFromIdempotent(base, over, i + 1);
    }
  }

  lemma MergeIdempotent(base: seq<Entry>, over: seq<Entry>)
    requires WellFormed(over)
    ensures Merge(Merge(base, over), over) == Merge(base, over)
  {
    MergeFromIdempotent(base, over, 0);
  }

  /** A template `{type: text, options: {required: true}}` under a property
      `{options: {label: Title}}` gives
      `{type: text, options: {required: true, label: Title}}`. */
  lemma MergeExample()
    ensures
      var template := [Entry(Name("type"), Text("text")),
                       Entry(Name("options"), Arr([Entry(Name("required"), Flag(true))]))];
      var property := [Entry(Name("options"), Arr([Entry(Name("label"), Text("Title"))]))];
      Merge(template, property) ==
        [Entry(Name("type"), Text("text")),
         Entry(Name("options"), Arr([Entry(Name("required"), Flag(true)),
                                     Entry(Name("label"), Text("Title"))]))]
  {
    var required := [Entry(Name("required"), Flag(true))];
    var titled := [Entry(Name("label"), Text("Title"))];
    var template := [Entry(Name("type"), Text("text")), Entry(Name("options"), Arr(required))];
    var property := [Entry(Name("options"), Arr(titled))];
    assert Name("type") != Name("options");
    assert Name("required") != Name("label");
    assert Find(template, Name("options")) == Some(Arr(required));
    assert BaseFor(template, Name("options")) == required;
    assert Set(required, Name("label"), Text("Title")) == required + titled;
    assert MergeFrom(required + titled, titled, 1) == required + titled;
    assert MergeFrom(required, titled, 0) == required + titled;
    var merged := [Entry(Name("type"), Text("text")), Entry(Name("options"), Arr(required + titled))];
    assert Set(template, Name("options"), Arr(required + titled)) == merged;
    assert MergeFrom(merged, property, 1) == merged;
    assert MergeFrom(template, property, 0) == merged;
    assert Merge(template, property) == merged;
    assert required + titled == [Entry(Name("required"), Flag(true)), Entry(Name("label"), Text("Title"))];
  }
}
