/**
 * The rows the database returns name every field column by its ordinal ("0", "1",
 * ...). Before a row is sent, each ordinal column is renamed back to the field name
 * the request gave at that position; every other column keeps its name.
 */
module Renaming {
  import opened Wrappers
  import opened JsStrings
  import opened JsObjects

  /**
   * `fieldMap[key] || key`: the key is renamed when it indexes `fieldMap` (a
   * canonical array index below its length) and the field name there is truthy.
   */
  function NewKey(fieldMap: seq<string>, key: string): string {
    match ArrayIndex(key)
    case Some(i) => if i < |fieldMap| && fieldMap[i] != "" then fieldMap[i] else key
    case None => key
  }

  /**
   * The `out` object built for one row: for each of the row's properties in the
   * order `_.keys(item)` lists them, `out[newKey] = item[key]`.
   */
  function RenamedRow(fieldMap: seq<string>, item: Object): Object {
    RenameWith(key => NewKey(fieldMap, key), Enumerate(item))
  }

  /** The same loop for any choice of new keys: `out[rename(key)] = item[key]`, in order. */
  function RenameWith(rename: string -> string, item: Object): Object {
    if item == [] then []
    else
      var n := |item| - 1;
      Put(RenameWith(rename, item[..n]), rename(item[n].0), item[n].1)
  }

  /** `_(results).map(...)`: every row renamed, in order. */
  function RenamedRows(fieldMap: seq<string>, results: seq<Object>): (rows: seq<Object>)
    ensures |rows| == |results|
    ensures forall i :: 0 <= i < |results| ==> rows[i] == RenamedRow(fieldMap, results[i])
  {
    seq(|results|, i requires 0 <= i < |results| => RenamedRow(fieldMap, results[i]))
  }

  /** The loop over `_.keys(item)` that fills `out`. */
  method RenameRow(fieldMap: seq<string>, item: Object) returns (out: Object)
    ensures out == RenamedRow(fieldMap, item)
  {
    var keys := OwnKeys(item);
    ghost var e := Enumerate(item);
    ghost var rename := key => NewKey(fieldMap, key);
    assert |e| == |keys|;
    out := [];
    var i := 0;
    while i < |keys|
      invariant 0 <= i <= |keys|
      invariant out == RenameWith(rename, e[..i])
    {
      var key := keys[i];
      var value := Lookup(item, key).value;
      assert e[i] == (key, value);
      out := Put(out, NewKey(fieldMap, key), value);
      assert e[..i + 1][..i] == e[..i];
      i := i + 1;
    }
    assert e[..i] == e;
  }

  /** The map over the result rows. */
  method RenameRows(fieldMap: seq<string>, results: seq<Object>) returns (chained: seq<Object>)
    ensures chained == RenamedRows(fieldMap, results)
  {
    chained := [];
    var i := 0;
    while i < |results|
      invariant 0 <= i <= |results|
      invariant chained == RenamedRows(fieldMap, results[..i])
    {
      var out := RenameRow(fieldMap, results[i]);
      chained := chained + [out];
      i := i + 1;
    }
    assert results[..i] == results;
  }

  // ---------------------------------------------------------------------------
  // Properties of the renaming

  /** Ordinal i is renamed to the i-th requested field, unless that name is "". */
  lemma OrdinalRenamed(fields: seq<string>, i: nat)
    requires i < |fields|
    ensures NewKey(fields, Decimal(i)) == if fields[i] != "" then fields[i] else Decimal(i)
  {
    ArrayIndexOfDecimal(i);
  }

  /** A key that is not an index below |fieldMap| keeps its name, as do "timestamp", "source" and "city". */
  lemma OtherKeysKept(fieldMap: seq<string>, key: string)
    requires ArrayIndex(key).None? || ArrayIndex(key).value >= |fieldMap|
    ensures NewKey(fieldMap, key) == key
  {
  }

  lemma NamedColumnsKept(fieldMap: seq<string>)
    ensures NewKey(fieldMap, "timestamp") == "timestamp"
    ensures NewKey(fieldMap, "source") == "source"
    ensures NewKey(fieldMap, "city") == "city"
  {
    assert !IsDigit("timestamp"[0]) && !IsDigit("source"[0]) && !IsDigit("city"[0]);
  }

  /** Whatever the row, the renamed row has each key at most once. */
  lemma {:induction false} RenamedRowDistinct(rename: string -> string, item: Object)
    ensures DistinctKeys(RenameWith(rename, item))
  {
    if item != [] {
      var n := |item| - 1;
      RenamedRowDistinct(rename, item[..n]);
      PutKeepsDistinctKeys(RenameWith(rename, item[..n]), rename(item[n].0), item[n].1);
    }
  }

  /** No two of the row's columns are given the same key. */
  predicate RenamingInjective(rename: string -> string, item: Object) {
    forall i, j :: 0 <= i < j < |item| ==> rename(item[i].0) != rename(item[j].0)
  }

  /**
   * When no two columns collide, the renamed row holds exactly the renamed keys in
   * the row's order, and each renamed key holds the value of its original column.
   */
  lemma {:induction false} RenamedRowContents(rename: string -> string, item: Object)
    requires RenamingInjective(rename, item)
    ensures |RenameWith(rename, item)| == |item|
    ensures forall i :: 0 <= i < |item| ==> RenameWith(rename, item)[i] == (rename(item[i].0), item[i].1)
  {
    if item != [] {
      var n := |item| - 1;
      var prefix := item[..n];
      assert RenamingInjective(rename, prefix);
      RenamedRowContents(rename, prefix);
      var r := RenameWith(rename, prefix);
      var nk := rename(item[n].0);
      assert nk !in Keys(r);
      var full := RenameWith(rename, item);
      assert full == r + [(nk, item[n].1)];
      forall i | 0 <= i < |item|
        ensures full[i] == (rename(item[i].0), item[i].1)
      {
        if i < n {
          assert full[i] == r[i] && prefix[i] == item[i];
        }
      }
    }
  }

  /**
   * A row of two properties given the same key: `out` holds that key once, with the
   * second value. `LastRenamedWins` and `RenamedKeysKeepPlace` give the general case.
   */
  lemma CollisionLaterWins(rename: string -> string, a: (string, Value), b: (string, Value))
    requires rename(a.0) == rename(b.0)
    ensures RenameWith(rename, [a, b]) == [(rename(a.0), b.1)]
  {
    assert [a, b][..1] == [a] && [a][..0] == [];
    assert RenameWith(rename, [a]) == [(rename(a.0), a.1)];
    assert Put([(rename(a.0), a.1)], rename(a.0), b.1) == [(rename(a.0), b.1)];
  }

  /**
   * Whatever the row, the value a renamed key ends with is that of the last property
   * renamed to it: every later property is renamed to some other key.
   */
  lemma {:induction false} LastRenamedWins(rename: string -> string, item: Object, key: string, j: nat)
    requires j < |item| && rename(item[j].0) == key
    requires forall k :: j < k < |item| ==> rename(item[k].0) != key
    ensures Lookup(RenameWith(rename, item), key) == Some(item[j].1)
  {
    var n := |item| - 1;
    var prefix := item[..n];
    PutLookup(RenameWith(rename, prefix), rename(item[n].0), item[n].1, key);
    if j < n {
      assert prefix[j] == item[j];
      assert forall k :: j < k < |prefix| ==> prefix[k] == item[k];
      LastRenamedWins(rename, prefix, key, j);
    }
  }

  /**
   * Later assignments never move a key: the keys of `out` after the first m
   * properties are a prefix of its final keys, so a key stays where the first
   * property renamed to it put it.
   */
  lemma {:induction false} RenamedKeysKeepPlace(rename: string -> string, item: Object, m: nat)
    requires m <= |item|
    ensures Keys(RenameWith(rename, item[..m])) <= Keys(RenameWith(rename, item))
  {
    if m == |item| {
      assert item[..m] == item;
    } else {
      var n := |item| - 1;
      var prefix := item[..n];
      var a, b := Keys(RenameWith(rename, item[..m])), Keys(RenameWith(rename, prefix));
      var c := Keys(RenameWith(rename, item));
      assert a <= b by {
        assert prefix[..m] == item[..m];
        RenamedKeysKeepPlace(rename, prefix, m);
      }
      assert b <= c by {
        RenamedRowDistinct(rename, prefix);
        PutKeepsDistinctKeys(RenameWith(rename, prefix), rename(item[n].0), item[n].1);
      }
      assert a == c[..|a|] by {
        assert c[..|b|] == b;
        assert c[..|b|][..|a|] == c[..|a|];
      }
    }
  }

  /**
   * `fields=timestamp` on the row `{source: "s1", timestamp: <Date 0>, "0": 1}`:
   * `_.keys` lists "0" first, so `out.timestamp` is first set to the field's value and
   * then overwritten by the row's own Date, which the CSV can still stamp.
   */
  lemma TimestampFieldShadowed()
    ensures RenamedRow(["timestamp"], [("source", Text("s1")), ("timestamp", Time(At(0))), ("0", Number(1.0))])
            == [("timestamp", Time(At(0))), ("source", Text("s1"))]
  {
    ShadowingRowEnumerated();
    ShadowingRowRenamed();
  }

  /** `_.keys` visits that row's "0" before "source" and "timestamp". */
  lemma ShadowingRowEnumerated()
    ensures Enumerate([("source", Text("s1")), ("timestamp", Time(At(0))), ("0", Number(1.0))])
            == [("0", Number(1.0)), ("source", Text("s1")), ("timestamp", Time(At(0)))]
  {
    var item := [("source", Text("s1")), ("timestamp", Time(At(0))), ("0", Number(1.0))];
    assert Ordinals(1) == ["0"] by {
      assert Decimal(0) == "0";
    }
    assert Keys(item) == ["source", "timestamp"] + Ordinals(1);
    TypicalEnumerate(item, 1);
    assert item[2..] + item[..2] == [("0", Number(1.0)), ("source", Text("s1")), ("timestamp", Time(At(0)))];
  }

  /** Visited in that order, "0" and then "timestamp" both write `out.timestamp`; the later value stays. */
  lemma ShadowingRowRenamed()
    ensures RenameWith(key => NewKey(["timestamp"], key), [("0", Number(1.0)), ("source", Text("s1")), ("timestamp", Time(At(0)))])
            == [("timestamp", Time(At(0))), ("source", Text("s1"))]
  {
    var e := [("0", Number(1.0)), ("source", Text("s1")), ("timestamp", Time(At(0)))];
    var rename := key => NewKey(["timestamp"], key);
    assert rename("0") == "timestamp" by {
      ArrayIndexOfDecimal(0);
    }
    assert rename("source") == "source" && rename("timestamp") == "timestamp" by {
      NamedColumnsKept(["timestamp"]);
    }
    assert e[..2][..1] == e[..1] && e[..1][..0] == [] && e[..3] == e;
    assert RenameWith(rename, e[..1]) == [("timestamp", Number(1.0))];
    assert RenameWith(rename, e[..2]) == [("timestamp", Number(1.0)), ("source", Text("s1"))];
  }

  /** The ordinal column keys "0" to "n-1". */
  function Ordinals(n: nat): (ks: seq<string>)
    ensures |ks| == n && forall i :: 0 <= i < n ==> ks[i] == Decimal(i)
  {
    if n == 0 then [] else Ordinals(n - 1) + [Decimal(n - 1)]
  }

  /** "source" and "timestamp" are not array indices. */
  lemma NamedKeysNotIndices()
    ensures !IsIndexKey("source") && !IsIndexKey("timestamp")
  {
    assert !IsDigit("source"[0]) && !IsDigit("timestamp"[0]);
  }

  /** The ordinal "i" is the array index i. */
  lemma OrdinalsAreIndices(n: nat)
    requires n <= ArrayIndexBound
    ensures forall i :: 0 <= i < n ==> IsIndexKey(Ordinals(n)[i]) && IndexValue(Ordinals(n)[i]) == i
    ensures forall k :: k in Ordinals(n) ==> IsIndexKey(k)
  {
    var ords := Ordinals(n);
    forall i | 0 <= i < n
      ensures IsIndexKey(ords[i]) && IndexValue(ords[i]) == i
    {
      ArrayIndexOfDecimal(i);
    }
    forall k | k in ords
      ensures IsIndexKey(k)
    {
      var i :| 0 <= i < n && ords[i] == k;
    }
  }

  /** Of a typical row's keys, the ordinals are the array indices and "source", "timestamp" the others. */
  lemma TypicalKeysSplit(n: nat)
    requires n <= ArrayIndexBound
    ensures KeysWhere(["source", "timestamp"] + Ordinals(n), true) == Ordinals(n)
    ensures KeysWhere(["source", "timestamp"] + Ordinals(n), false) == ["source", "timestamp"]
  {
    var named, ords := ["source", "timestamp"], Ordinals(n);
    assert KeysWhere(named, true) == [] && KeysWhere(named, false) == named by {
      NamedKeysNotIndices();
      KeysWhereAll(named, false);
    }
    assert KeysWhere(ords, true) == ords && KeysWhere(ords, false) == [] by {
      OrdinalsAreIndices(n);
      KeysWhereAll(ords, true);
    }
    KeysWhereAppend(named, ords, true);
    KeysWhereAppend(named, ords, false);
    assert named + [] == named;
  }

  /** The ordinals are already in ascending index order. */
  lemma OrdinalsSorted(n: nat)
    requires n <= ArrayIndexBound
    ensures SortIndexKeys(Ordinals(n)) == Ordinals(n)
  {
    OrdinalsAreIndices(n);
    SortedKeysUnchanged(Ordinals(n));
  }

  /** A sources-branch row has keys `source`, `timestamp`, "0", ...; `_.keys` lists the ordinals first. */
  lemma OrdinalsListedFirst(item: Object, n: nat)
    requires n <= ArrayIndexBound && Keys(item) == ["source", "timestamp"] + Ordinals(n)
    ensures OwnKeys(item) == Ordinals(n) + ["source", "timestamp"]
  {
    TypicalKeysSplit(n);
    OrdinalsSorted(n);
  }

  /** `_.keys` visits a sources-branch row's ordinal columns first, then `source` and `timestamp`. */
  lemma TypicalEnumerate(item: Object, n: nat)
    requires |item| == n + 2 && n <= ArrayIndexBound
    requires Keys(item) == ["source", "timestamp"] + Ordinals(n)
    ensures Enumerate(item) == item[2..] + item[..2]
  {
    OrdinalsListedFirst(item, n);
    TypicalKeysDistinct(item, n);
    var e, expected := Enumerate(item), item[2..] + item[..2];
    assert |e| == n + 2;
    forall j | 0 <= j < n + 2
      ensures e[j] == expected[j]
    {
      var i := if j < n then j + 2 else j - n;
      assert OwnKeys(item)[j] == Keys(item)[i];
      EnumerateAt(item, j, i);
    }
  }

  /** The ordinals of a row come out of the renaming as the requested fields, and the named columns as themselves. */
  lemma OrdinalKeysRenamed(fields: seq<string>)
    requires forall i :: 0 <= i < |fields| ==> fields[i] != "" && fields[i] != "source" && fields[i] != "timestamp"
    ensures forall j :: 0 <= j < |fields| + 2 ==>
      NewKey(fields, (Ordinals(|fields|) + ["source", "timestamp"])[j]) == (fields + ["source", "timestamp"])[j]
  {
    var n := |fields|;
    var ks := Ordinals(n) + ["source", "timestamp"];
    var expected := fields + ["source", "timestamp"];
    forall j | 0 <= j < n + 2
      ensures NewKey(fields, ks[j]) == expected[j]
    {
      if j < n {
        assert ks[j] == Decimal(j);
        OrdinalRenamed(fields, j);
      } else {
        NamedColumnsKept(fields);
      }
    }
  }

  /** The renamed keys of a typical row do not collide. */
  lemma TypicalRenamingInjective(fields: seq<string>, e: Object)
    requires |e| == |fields| + 2
    requires forall i :: 0 <= i < |fields| ==> fields[i] != "" && fields[i] != "source" && fields[i] != "timestamp"
    requires forall i, j :: 0 <= i < j < |fields| ==> fields[i] != fields[j]
    requires Keys(e) == Ordinals(|fields|) + ["source", "timestamp"]
    ensures RenamingInjective(key => NewKey(fields, key), e)
  {
    var expected := fields + ["source", "timestamp"];
    var ks := Keys(e);
    OrdinalKeysRenamed(fields);
    forall i, j | 0 <= i < j < |e|
      ensures NewKey(fields, e[i].0) != NewKey(fields, e[j].0)
    {
      assert e[i].0 == ks[i] && e[j].0 == ks[j];
      assert NewKey(fields, ks[i]) == expected[i] && NewKey(fields, ks[j]) == expected[j];
      TypicalColumnsDistinct(fields, i, j);
    }
  }

  lemma TypicalColumnsDistinct(fields: seq<string>, i: nat, j: nat)
    requires i < j < |fields| + 2
    requires forall i :: 0 <= i < |fields| ==> fields[i] != "source" && fields[i] != "timestamp"
    requires forall i, j :: 0 <= i < j < |fields| ==> fields[i] != fields[j]
    ensures (fields + ["source", "timestamp"])[i] != (fields + ["source", "timestamp"])[j]
  {
    var n, expected := |fields|, fields + ["source", "timestamp"];
    if j < n {
      assert expected[i] == fields[i] && expected[j] == fields[j];
    } else if i < n {
      assert expected[i] == fields[i];
      assert expected[j] == "source" || expected[j] == "timestamp";
    } else {
      assert expected[i] == "source" && expected[j] == "timestamp";
      assert "source"[0] != "timestamp"[0];
    }
  }

  /** Renaming the enumerated typical row: the fields' names replace the ordinals, and every value stays in place. */
  lemma TypicalEnumerationRenamed(fields: seq<string>, e: Object)
    requires |e| == |fields| + 2
    requires forall i :: 0 <= i < |fields| ==> fields[i] != "" && fields[i] != "source" && fields[i] != "timestamp"
    requires forall i, j :: 0 <= i < j < |fields| ==> fields[i] != fields[j]
    requires Keys(e) == Ordinals(|fields|) + ["source", "timestamp"]
    ensures Keys(RenameWith(key => NewKey(fields, key), e)) == fields + ["source", "timestamp"]
    ensures forall i :: 0 <= i < |e| ==> RenameWith(key => NewKey(fields, key), e)[i].1 == e[i].1
  {
    var rename := key => NewKey(fields, key);
    TypicalRenamingInjective(fields, e);
    RenamedRowContents(rename, e);
    var r := RenameWith(rename, e);
    var expected := fields + ["source", "timestamp"];
    OrdinalKeysRenamed(fields);
    forall j | 0 <= j < |e|
      ensures Keys(r)[j] == expected[j]
    {
      assert Keys(r)[j] == r[j].0 == NewKey(fields, Keys(e)[j]);
    }
  }

  /**
   * A typical row holds "source", "timestamp" and the ordinals "0", "1", ... in that
   * order of creation. Its renamed row lists the requested fields first, holding the
   * ordinals' values, then "source" and "timestamp".
   */
  lemma TypicalRowRenamed(fields: seq<string>, item: Object)
    requires |item| == |fields| + 2 && |fields| <= ArrayIndexBound
    requires Keys(item) == ["source", "timestamp"] + Ordinals(|fields|)
    requires forall i :: 0 <= i < |fields| ==> fields[i] != "" && fields[i] != "source" && fields[i] != "timestamp"
    requires forall i, j :: 0 <= i < j < |fields| ==> fields[i] != fields[j]
    ensures Keys(RenamedRow(fields, item)) == fields + ["source", "timestamp"]
    ensures forall i :: 0 <= i < |fields| ==> RenamedRow(fields, item)[i].1 == item[i + 2].1
    ensures RenamedRow(fields, item)[|fields|].1 == item[0].1
    ensures RenamedRow(fields, item)[|fields| + 1].1 == item[1].1
  {
    var n := |fields|;
    var e := Enumerate(item);
    assert e == item[2..] + item[..2] by {
      TypicalEnumerate(item, n);
    }
    assert Keys(e) == Ordinals(n) + ["source", "timestamp"] by {
      OrdinalsListedFirst(item, n);
    }
    TypicalEnumerationRenamed(fields, e);
    var r := RenamedRow(fields, item);
    forall i | 0 <= i < n
      ensures r[i].1 == item[i + 2].1
    {
      assert r[i].1 == e[i].1;
    }
    assert r[n].1 == e[n].1 && r[n + 1].1 == e[n + 1].1;
  }

  lemma TypicalKeysDistinct(item: Object, n: nat)
    requires |item| == n + 2 && Keys(item) == ["source", "timestamp"] + Ordinals(n)
    ensures DistinctKeys(item)
  {
    forall i, j | 0 <= i < j < n + 2
      ensures item[i].0 != item[j].0
    {
      if i >= 2 {
        DecimalInjective(i - 2, j - 2);
      } else if j >= 2 {
        assert IsDigit(Decimal(j - 2)[0]);
        assert !IsDigit("source"[0]) && !IsDigit("timestamp"[0]);
      }
    }
  }
}
