/**
 * JavaScript objects as the controller uses them: a row returned by the database,
 * the `out` object built while renaming, and Date values. An object is its list of
 * own properties in the order they were created, each key at most once; the order in
 * which `Object.keys` lists them is `OwnKeys`.
 */
module JsObjects {
  import opened Wrappers
  import opened JsStrings

  /** A property value: SQL NULL, a float8 aggregate, a label or ISO string, or a Date. */
  datatype Value = Null | Number(x: real) | Text(s: string) | Time(date: Date)

  /** A Date: its time value in milliseconds since the epoch, or an Invalid Date. */
  datatype Date = InvalidDate | At(ms: int)

  /** The largest magnitude a Date's time value can have (8.64e15 ms). */
  const MaxTimeValue: int := 8_640_000_000_000_000

  predicate InTimeRange(t: int) {
    -MaxTimeValue <= t <= MaxTimeValue
  }

  /** `new Date(t)` for an integral time value t: Invalid Date outside the range. */
  function TimeClip(t: int): (d: Date)
    ensures d.At? <==> InTimeRange(t)
    ensures d.At? ==> d.ms == t
  {
    if InTimeRange(t) then At(t) else InvalidDate
  }

  /**
   * `d.toISOString()` with the ISO 8601 formatter as a parameter: a valid Date gives its
   * string, an Invalid Date throws a RangeError (None).
   */
  function IsoString(d: Date, iso: int -> string): (r: Option<string>)
    ensures r.Some? <==> d.At? && InTimeRange(d.ms)
    ensures r.Some? ==> r.value == iso(d.ms)
  {
    if d.At? && InTimeRange(d.ms) then Some(iso(d.ms)) else None
  }

  type Object = seq<(string, Value)>

  function Keys(o: Object): (ks: seq<string>)
    ensures |ks| == |o|
    ensures forall i :: 0 <= i < |o| ==> ks[i] == o[i].0
  {
    seq(|o|, i requires 0 <= i < |o| => o[i].0)
  }

  predicate DistinctKeys(o: Object) {
    forall i, j :: 0 <= i < j < |o| ==> o[i].0 != o[j].0
  }

  /** `o[k]`, with None for undefined. */
  function Lookup(o: Object, k: string): (r: Option<Value>)
    ensures r == None <==> k !in Keys(o)
    ensures r.Some? ==> exists i :: 0 <= i < |o| && o[i] == (k, r.value)
  {
    if o == [] then None
    else if o[0].0 == k then Some(o[0].1)
    else Lookup(o[1..], k)
  }

  /**
   * `o[k] = v`: an existing property keeps its place and takes the new value; a new
   * property is added at the end.
   */
  function Put(o: Object, k: string, v: Value): (r: Object)
    ensures k in Keys(o) && DistinctKeys(o) ==> |r| == |o| && forall i :: 0 <= i < |o| ==> r[i] == (if o[i].0 == k then (k, v) else o[i])
    ensures k !in Keys(o) ==> r == o + [(k, v)]
  {
    if o == [] then [(k, v)]
    else if o[0].0 == k then [(k, v)] + o[1..]
    else [o[0]] + Put(o[1..], k, v)
  }

  lemma PutLookup(o: Object, k: string, v: Value, k': string)
    ensures Lookup(Put(o, k, v), k') == if k' == k then Some(v) else Lookup(o, k')
  {
    if o != [] && o[0].0 != k {
      PutLookup(o[1..], k, v, k');
    }
  }

  lemma PutKeepsDistinctKeys(o: Object, k: string, v: Value)
    requires DistinctKeys(o)
    ensures DistinctKeys(Put(o, k, v))
    ensures Keys(Put(o, k, v)) == if k in Keys(o) then Keys(o) else Keys(o) + [k]
  {
    var r := Put(o, k, v);
    if k in Keys(o) {
      assert |r| == |o| && forall i :: 0 <= i < |o| ==> r[i].0 == o[i].0;
      assert Keys(r) == Keys(o);
    } else {
      assert r == o + [(k, v)];
      assert Keys(r) == Keys(o) + [k];
    }
  }

  // ---------------------------------------------------------------------------
  // The order of `Object.keys(o)` and `_.keys(o)`

  /** Keys below this value that are canonical decimal numerals are array indices. */
  const ArrayIndexBound: nat := 0xFFFF_FFFF

  /** A key listed before all others: an array index such as "0" or "17" (not "01", "-1" or "1.5"). */
  predicate IsIndexKey(k: string) {
    ArrayIndex(k).Some? && ArrayIndex(k).value < ArrayIndexBound
  }

  /** The number an index key denotes, or 0 for any other key. */
  function IndexValue(k: string): nat {
    if IsIndexKey(k) then ArrayIndex(k).value else 0
  }

  /** The keys of ks that are index keys (with `index` true) or that are not (with `index` false), in order. */
  function KeysWhere(ks: seq<string>, index: bool): (r: seq<string>)
    ensures |r| <= |ks|
  {
    if ks == [] then []
    else if IsIndexKey(ks[0]) == index then [ks[0]] + KeysWhere(ks[1..], index)
    else KeysWhere(ks[1..], index)
  }

  /** ks with k put before the first key of larger index. */
  function InsertIndexKey(k: string, ks: seq<string>): (r: seq<string>)
    ensures |r| == |ks| + 1
  {
    if ks == [] || IndexValue(k) <= IndexValue(ks[0]) then [k] + ks
    else [ks[0]] + InsertIndexKey(k, ks[1..])
  }

  /** The index keys of ks in ascending numeric order. */
  function SortIndexKeys(ks: seq<string>): (r: seq<string>)
    ensures |r| == |ks|
  {
    if ks == [] then [] else InsertIndexKey(ks[0], SortIndexKeys(ks[1..]))
  }

  lemma {:induction false} KeysWhereMembers(ks: seq<string>, index: bool)
    ensures forall x :: x in KeysWhere(ks, index) <==> x in ks && IsIndexKey(x) == index
  {
    if ks != [] {
      KeysWhereMembers(ks[1..], index);
    }
  }

  lemma {:induction false} InsertMembers(k: string, ks: seq<string>)
    ensures forall x :: x in InsertIndexKey(k, ks) <==> x == k || x in ks
  {
    if ks != [] && IndexValue(k) > IndexValue(ks[0]) {
      InsertMembers(k, ks[1..]);
    }
  }

  lemma {:induction false} SortMembers(ks: seq<string>)
    ensures forall x :: x in SortIndexKeys(ks) <==> x in ks
  {
    if ks != [] {
      SortMembers(ks[1..]);
      InsertMembers(ks[0], SortIndexKeys(ks[1..]));
    }
  }

  /**
   * `Object.keys(o)`, which `_.keys(o)` gives for a plain object: the array-index keys
   * in ascending numeric order, then the other keys in the order they were created.
   */
  function OwnKeys(o: Object): (ks: seq<string>)
    ensures forall k :: k in ks <==> k in Keys(o)
  {
    KeysWhereMembers(Keys(o), true);
    KeysWhereMembers(Keys(o), false);
    SortMembers(KeysWhere(Keys(o), true));
    SortIndexKeys(KeysWhere(Keys(o), true)) + KeysWhere(Keys(o), false)
  }

  /** The properties of o in the order `Object.keys(o)` lists them. */
  function Enumerate(o: Object): (e: Object)
    ensures |e| == |OwnKeys(o)| && Keys(e) == OwnKeys(o)
  {
    var ks := OwnKeys(o);
    seq(|ks|, i requires 0 <= i < |ks| => (ks[i], Lookup(o, ks[i]).value))
  }

  predicate Distinct(ks: seq<string>) {
    forall i, j :: 0 <= i < j < |ks| ==> ks[i] != ks[j]
  }

  predicate SortedByIndex(ks: seq<string>) {
    forall i, j :: 0 <= i < j < |ks| ==> IndexValue(ks[i]) <= IndexValue(ks[j])
  }

  lemma {:induction false} InsertKeepsSorted(k: string, ks: seq<string>)
    requires SortedByIndex(ks)
    ensures SortedByIndex(InsertIndexKey(k, ks))
  {
    if ks != [] && IndexValue(k) > IndexValue(ks[0]) {
      InsertKeepsSorted(k, ks[1..]);
      var r := InsertIndexKey(k, ks);
      assert r == [ks[0]] + InsertIndexKey(k, ks[1..]);
      InsertMembers(k, ks[1..]);
      forall j | 1 <= j < |r|
        ensures IndexValue(r[0]) <= IndexValue(r[j])
      {
        assert r[j] in InsertIndexKey(k, ks[1..]);
      }
    }
  }

  lemma {:induction false} InsertKeepsDistinct(k: string, ks: seq<string>)
    requires Distinct(ks) && k !in ks
    ensures Distinct(InsertIndexKey(k, ks))
  {
    if ks != [] && IndexValue(k) > IndexValue(ks[0]) {
      InsertKeepsDistinct(k, ks[1..]);
      var r := InsertIndexKey(k, ks);
      assert r == [ks[0]] + InsertIndexKey(k, ks[1..]);
      InsertMembers(k, ks[1..]);
      forall j | 1 <= j < |r|
        ensures r[0] != r[j]
      {
        assert r[j] in InsertIndexKey(k, ks[1..]);
      }
    }
  }

  /** Sorting lists the index keys in ascending order, each as often as before. */
  lemma {:induction false} SortIndexKeysSorted(ks: seq<string>)
    ensures SortedByIndex(SortIndexKeys(ks))
    ensures Distinct(ks) ==> Distinct(SortIndexKeys(ks))
  {
    if ks != [] {
      SortIndexKeysSorted(ks[1..]);
      InsertKeepsSorted(ks[0], SortIndexKeys(ks[1..]));
      if Distinct(ks) {
        assert Distinct(ks[1..]);
        SortMembers(ks[1..]);
        InsertKeepsDistinct(ks[0], SortIndexKeys(ks[1..]));
      }
    }
  }

  /** Keys that are already in ascending order stay where they are. */
  lemma {:induction false} SortedKeysUnchanged(ks: seq<string>)
    requires SortedByIndex(ks)
    ensures SortIndexKeys(ks) == ks
  {
    if ks != [] {
      SortedKeysUnchanged(ks[1..]);
    }
  }

  lemma {:induction false} KeysWhereSplit(ks: seq<string>)
    ensures |KeysWhere(ks, true)| + |KeysWhere(ks, false)| == |ks|
    ensures Distinct(ks) ==> Distinct(KeysWhere(ks, true)) && Distinct(KeysWhere(ks, false))
  {
    if ks != [] {
      KeysWhereSplit(ks[1..]);
      if Distinct(ks) {
        assert Distinct(ks[1..]);
        KeysWhereMembers(ks[1..], true);
        KeysWhereMembers(ks[1..], false);
      }
    }
  }

  lemma {:induction false} KeysWhereAppend(a: seq<string>, b: seq<string>, index: bool)
    ensures KeysWhere(a + b, index) == KeysWhere(a, index) + KeysWhere(b, index)
  {
    if a == [] {
      assert a + b == b;
    } else {
      assert (a + b)[0] == a[0] && (a + b)[1..] == a[1..] + b;
      KeysWhereAppend(a[1..], b, index);
    }
  }

  lemma {:induction false} KeysWhereAll(ks: seq<string>, index: bool)
    requires forall k :: k in ks ==> IsIndexKey(k) == index
    ensures KeysWhere(ks, index) == ks
    ensures KeysWhere(ks, !index) == []
  {
    if ks != [] {
      KeysWhereAll(ks[1..], index);
    }
  }

  lemma ConcatDistinct(a: seq<string>, b: seq<string>)
    requires Distinct(a) && Distinct(b) && forall x :: x in a ==> x !in b
    ensures Distinct(a + b)
  {
    var r := a + b;
    forall i, j | 0 <= i < j < |r|
      ensures r[i] != r[j]
    {
      if j < |a| {
        assert r[i] == a[i] && r[j] == a[j];
      } else if |a| <= i {
        assert r[i] == b[i - |a|] && r[j] == b[j - |a|];
      } else {
        assert r[i] == a[i] && r[j] == b[j - |a|] && a[i] in a;
      }
    }
  }

  /** `Object.keys(o)` lists every property of o exactly once. */
  lemma OwnKeysDistinct(o: Object)
    requires DistinctKeys(o)
    ensures |OwnKeys(o)| == |o| && Distinct(OwnKeys(o))
  {
    var ks := Keys(o);
    assert Distinct(ks);
    KeysWhereSplit(ks);
    SortIndexKeysSorted(KeysWhere(ks, true));
    KeysWhereMembers(ks, true);
    KeysWhereMembers(ks, false);
    SortMembers(KeysWhere(ks, true));
    ConcatDistinct(SortIndexKeys(KeysWhere(ks, true)), KeysWhere(ks, false));
  }

  /**
   * `Object.keys(o)` lists the index keys first, in ascending order, then the other
   * keys, among which the order of creation is kept.
   */
  lemma OwnKeysOrder(o: Object)
    ensures var n := |KeysWhere(Keys(o), true)|;
      && n <= |OwnKeys(o)|
      && (forall i :: 0 <= i < n ==> IsIndexKey(OwnKeys(o)[i]))
      && (forall i :: n <= i < |OwnKeys(o)| ==> !IsIndexKey(OwnKeys(o)[i]))
      && SortedByIndex(OwnKeys(o)[..n])
      && OwnKeys(o)[n..] == KeysWhere(Keys(o), false)
  {
    var ks := Keys(o);
    var front, back := SortIndexKeys(KeysWhere(ks, true)), KeysWhere(ks, false);
    SortIndexKeysSorted(KeysWhere(ks, true));
    KeysWhereMembers(ks, true);
    KeysWhereMembers(ks, false);
    SortMembers(KeysWhere(ks, true));
    var r := OwnKeys(o);
    assert r[..|front|] == front && r[|front|..] == back;
    forall i | 0 <= i < |r|
      ensures IsIndexKey(r[i]) <==> i < |front|
    {
      if i < |front| {
        assert r[i] in front;
      } else {
        assert r[i] == back[i - |front|];
      }
    }
  }

  /** In an object whose keys are distinct, the i-th property is what its key looks up. */
  lemma {:induction false} LookupDistinct(o: Object, i: nat)
    requires DistinctKeys(o) && i < |o|
    ensures Lookup(o, o[i].0) == Some(o[i].1)
  {
    if i > 0 {
      assert DistinctKeys(o[1..]) && o[1..][i - 1] == o[i];
      LookupDistinct(o[1..], i - 1);
    }
  }

  /** The enumeration lists the property whose key it lists. */
  lemma EnumerateAt(o: Object, j: nat, i: nat)
    requires DistinctKeys(o) && j < |Enumerate(o)| && i < |o| && OwnKeys(o)[j] == o[i].0
    ensures Enumerate(o)[j] == o[i]
  {
    LookupDistinct(o, i);
  }

  /** The enumeration reorders the properties of o: each one appears exactly once, with its value. */
  lemma EnumerateSpec(o: Object)
    requires DistinctKeys(o)
    ensures |Enumerate(o)| == |o| && DistinctKeys(Enumerate(o))
    ensures forall p :: p in Enumerate(o) <==> p in o
  {
    OwnKeysDistinct(o);
    var e := Enumerate(o);
    assert forall i :: 0 <= i < |e| ==> e[i].0 == OwnKeys(o)[i];
    forall p | p in o
      ensures p in e
    {
      var i :| 0 <= i < |o| && o[i] == p;
      LookupDistinct(o, i);
      assert p.0 in Keys(o);
      var j :| 0 <= j < |e| && OwnKeys(o)[j] == p.0;
      assert e[j] == p;
    }
    forall p | p in e
      ensures p in o
    {
      var j :| 0 <= j < |e| && e[j] == p;
      var v := Lookup(o, e[j].0).value;
      var i :| 0 <= i < |o| && o[i] == (e[j].0, v);
    }
  }
}
