/** PHP values as the block maker sees them: scalars and ordered arrays.

    A PHP array is an ordered dictionary whose keys are strings or integers.
    It is modelled as a sequence of entries in iteration order; a lookup
    finds the first entry with the key, an assignment `$a[$k] = $v`
    replaces that entry in place or appends a new one at the end, and
    `$a[] = $v` appends under the next free integer key. */
module PhpValues {

  datatype Option<T> = None | Some(value: T)

  datatype Result<T, E> = Ok(value: T) | Err(error: E) {
    predicate IsFailure() { Err? }
    function PropagateFailure<U>(): Result<U, E> requires Err? { Err(error) }
    function Extract(): T requires Ok? { value }
  }

  datatype Key = Name(s: string) | Index(i: int)

  datatype Value =
    | Null
    | Flag(b: bool)
    | Num(n: int)
    | Text(s: string)
    | Arr(entries: seq<Entry>)

  datatype Entry = Entry(key: Key, val: Value)

  /** The value stored under `k`, if any (`array_key_exists`). */
  function Find(a: seq<Entry>, k: Key): Option<Value>
  {
    if a == [] then None
    else if a[0].key == k then Some(a[0].val)
    else Find(a[1..], k)
  }

  /** A lookup finds a value exactly when some entry has the key, and then
      the value of such an entry. */
  lemma {:induction false} FindSpec(a: seq<Entry>, k: Key)
    ensures Find(a, k).Some? <==> exists i :: 0 <= i < |a| && a[i].key == k
    ensures Find(a, k).Some? ==> exists i :: 0 <= i < |a| && a[i] == Entry(k, Find(a, k).value)
  {
    if a != [] && a[0].key != k {
      FindSpec(a[1..], k);
      assert forall i :: 0 < i < |a| ==> a[i] == a[1..][i - 1];
      assert forall i :: 0 <= i < |a| - 1 ==> a[1..][i] == a[i + 1];
    }
  }

  /** `isset($a[$k])`: the key is present and its value is not null. */
  predicate IsSet(a: seq<Entry>, k: Key)
  {
    Find(a, k).Some? && Find(a, k).value != Null
  }

  /** `$a[$k] ?? $default`. */
  function GetOr(a: seq<Entry>, k: Key, default: Value): (r: Value)
    ensures IsSet(a, k) ==> Some(r) == Find(a, k)
    ensures !IsSet(a, k) ==> r == default
  {
    match Find(a, k)
    case Some(v) => if v == Null then default else v
    case None => default
  }

  /** The entries of an array value; anything else reads as no entries
      (how `foreach` and `?? []` treat a missing or null value). */
  function AsEntries(v: Value): seq<Entry>
  {
    if v.Arr? then v.entries else []
  }

  /** `$a[$k] = $v`: the entry keeps its position when the key exists,
      otherwise it is appended; no other key changes. */
  function Set(a: seq<Entry>, k: Key, v: Value): (r: seq<Entry>)
    ensures Find(r, k) == Some(v)
    ensures forall k' :: k' != k ==> Find(r, k') == Find(a, k')
    ensures Find(a, k).Some? ==> |r| == |a| && forall i :: 0 <= i < |a| ==> r[i].key == a[i].key
    ensures Find(a, k).None? ==> r == a + [Entry(k, v)]
  {
    if a == [] then [Entry(k, v)]
    else if a[0].key == k then [Entry(k, v)] + a[1..]
    else [a[0]] + Set(a[1..], k, v)
  }

  /** `unset($a[$k])`: the key is gone and every other entry stays, in order. */
  function Unset(a: seq<Entry>, k: Key): (r: seq<Entry>)
    ensures Find(r, k) == None
    ensures forall k' :: k' != k ==> Find(r, k') == Find(a, k')
    ensures forall e :: e in r <==> e in a && e.key != k
  {
    if a == [] then []
    else if a[0].key == k then Unset(a[1..], k)
    else [a[0]] + Unset(a[1..], k)
  }

  /** The largest integer key, or -1 when there is none. */
  function MaxIndex(a: seq<Entry>): (m: int)
    ensures m >= -1
    ensures forall i :: 0 <= i < |a| && a[i].key.Index? ==> a[i].key.i <= m
  {
    if a == [] then -1
    else
      var m := MaxIndex(a[1..]);
      assert forall i :: 0 < i < |a| ==> a[i] == a[1..][i - 1];
      if a[0].key.Index? && a[0].key.i > m then a[0].key.i else m
  }

  /** The key `$a[] = $v` uses: one past the largest integer key, at least 0. */
  function NextIndex(a: seq<Entry>): (n: nat)
    ensures Find(a, Index(n)).None?
  {
    FindSpec(a, Index(MaxIndex(a) + 1));
    MaxIndex(a) + 1
  }

  /** `$a[] = $v`. */
  function Push(a: seq<Entry>, v: Value): (r: seq<Entry>)
    ensures Values(r) == Values(a) + [v]
    ensures forall k :: Find(a, k).Some? ==> Find(r, k) == Find(a, k)
  {
    var r := a + [Entry(Index(NextIndex(a)), v)];
    assert forall i :: 0 <= i < |a| ==> r[i] == a[i];
    assert forall k :: Find(a, k).Some? ==> Find(r, k) == Find(a, k) by {
      forall k | Find(a, k).Some? ensures Find(r, k) == Find(a, k) {
        FindPrefix(a, [Entry(Index(NextIndex(a)), v)], k);
      }
    }
    ValuesAppend(a, [Entry(Index(NextIndex(a)), v)]);
    r
  }

  /** Appends each value in turn, as repeated `$a[] = $v` does. */
  function PushAll(a: seq<Entry>, vs: seq<Value>): (r: seq<Entry>)
    decreases |vs|
  {
    if vs == [] then a else PushAll(Push(a, vs[0]), vs[1..])
  }

  /** The values of an array, in order (`array_values`). */
  function Values(a: seq<Entry>): (vs: seq<Value>)
    ensures |vs| == |a|
    ensures forall i :: 0 <= i < |a| ==> vs[i] == a[i].val
  {
    if a == [] then [] else [a[0].val] + Values(a[1..])
  }

  lemma ValuesAppend(a: seq<Entry>, b: seq<Entry>)
    ensures Values(a + b) == Values(a) + Values(b)
  {
  }

  lemma FindPrefix(a: seq<Entry>, b: seq<Entry>, k: Key)
    requires Find(a, k).Some?
    ensures Find(a + b, k) == Find(a, k)
  {
    if a[0].key != k {
      assert (a + b)[1..] == a[1..] + b;
      FindPrefix(a[1..], b, k);
    }
  }

  /** Pushing a list of values appends exactly those values. */
  lemma {:induction false} PushAllValues(a: seq<Entry>, vs: seq<Value>)
    ensures Values(PushAll(a, vs)) == Values(a) + vs
    decreases |vs|
  {
    if vs != [] {
      PushAllValues(Push(a, vs[0]), vs[1..]);
      assert [vs[0]] + vs[1..] == vs;
    }
  }

  /** Pushing `xs` and then `ys` is pushing `xs + ys`. */
  lemma {:induction false} PushAllConcat(a: seq<Entry>, xs: seq<Value>, ys: seq<Value>)
    ensures PushAll(PushAll(a, xs), ys) == PushAll(a, xs + ys)
    decreases |xs|
  {
    if xs != [] {
      PushAllConcat(Push(a, xs[0]), xs[1..], ys);
      assert (xs + ys)[1..] == xs[1..] + ys;
    } else {
      assert xs + ys == ys;
    }
  }

  /** Assigning a key twice keeps only the second value. */
  lemma {:induction false} SetSet(a: seq<Entry>, k: Key, v: Value, w: Value)
    ensures Set(Set(a, k, v), k, w) == Set(a, k, w)
  {
    if a != [] && a[0].key != k {
      SetSet(a[1..], k, v, w);
    }
  }

  /** Assigning the value a key already holds changes nothing. */
  lemma {:induction false} SetSame(a: seq<Entry>, k: Key, v: Value)
    requires Find(a, k) == Some(v)
    ensures Set(a, k, v) == a
  {
    if a[0].key != k {
      SetSame(a[1..], k, v);
    }
  }

  /** PHP's truthiness of a value (`if ($v)`), floats left out. */
  predicate Truthy(v: Value)
  {
    match v
    case Null => false
    case Flag(b) => b
    case Num(n) => n != 0
    case Text(s) => s != "" && s != "0"
    case Arr(es) => es != []
  }

  /** Decimal digits of a natural number. */
  function NatToString(n: nat): (s: string)
    ensures |s| > 0 && forall c :: c in s ==> '0' <= c <= '9'
    decreases n
  {
    var d := ['0' + (n % 10) as char];
    if n < 10 then d else NatToString(n / 10) + d
  }

  /** PHP's string conversion of an integer. */
  function IntToString(n: int): (s: string)
    ensures |s| > 0
  {
    if n < 0 then "-" + NatToString(-n) else NatToString(n)
  }

  /** The string PHP makes of a value for `sprintf('%s')` and string
      comparison: null and false are empty, true is "1", an array is "Array". */
  function ToText(v: Value): string
  {
    match v
    case Null => ""
    case Flag(b) => if b then "1" else ""
    case Num(n) => IntToString(n)
    case Text(s) => s
    case Arr(_) => "Array"
  }

  /** An array key as the string it becomes in a `string` property. */
  function KeyText(k: Key): string
  {
    match k
    case Name(s) => s
    case Index(i) => IntToString(i)
  }
}
