/**
 * The CSV response: the header row is chosen from the first renamed row and the
 * requested fields, every row's `timestamp` Date is replaced by its ISO string, and
 * each row is written to the CSV writer as one line of values under those headers.
 */
module Csv {
  import opened Wrappers
  import opened JsObjects

  /** `_.difference(xs, ys)`: the elements of xs that are not in ys, in order. */
  function Difference(xs: seq<string>, ys: seq<string>): (d: seq<string>)
    ensures forall x :: x in d <==> x in xs && x !in ys
    ensures |d| <= |xs|
  {
    if xs == [] then []
    else if xs[0] in ys then Difference(xs[1..], ys)
    else [xs[0]] + Difference(xs[1..], ys)
  }

  /** Removing what is not there keeps the sequence. */
  lemma {:induction false} DifferenceOfDisjoint(xs: seq<string>, ys: seq<string>)
    requires forall x :: x in xs ==> x !in ys
    ensures Difference(xs, ys) == xs
  {
    if xs != [] {
      DifferenceOfDisjoint(xs[1..], ys);
    }
  }

  /** The difference of a concatenation is the concatenation of the differences. */
  lemma {:induction false} DifferenceAppend(xs: seq<string>, xs': seq<string>, ys: seq<string>)
    ensures Difference(xs + xs', ys) == Difference(xs, ys) + Difference(xs', ys)
  {
    if xs != [] {
      var all := xs + xs';
      assert all != [] && all[0] == xs[0] && all[1..] == xs[1..] + xs';
      DifferenceAppend(xs[1..], xs', ys);
      var a, b := Difference(xs[1..], ys), Difference(xs', ys);
      if xs[0] !in ys {
        assert Difference(all, ys) == [xs[0]] + (a + b);
        assert [xs[0]] + (a + b) == ([xs[0]] + a) + b;
      }
    } else {
      assert xs + xs' == xs';
    }
  }

  /** Every element of xs that is in ys is removed. */
  lemma {:induction false} DifferenceOfContained(xs: seq<string>, ys: seq<string>)
    requires forall x :: x in xs ==> x in ys
    ensures Difference(xs, ys) == []
  {
    if xs != [] {
      DifferenceOfContained(xs[1..], ys);
    }
  }

  /**
   * `_(keys).difference(['timestamp']).difference(fields).unshift('timestamp').concat(fields)`:
   * "timestamp" first, then the first row's other columns (a source id or a city),
   * then the requested fields in request order.
   */
  function CsvHeaders(keys: seq<string>, fields: seq<string>): (h: seq<string>)
    ensures |h| >= 1 + |fields| && h[0] == "timestamp" && h[|h| - |fields|..] == fields
    ensures forall x :: x in h[1..|h| - |fields|] <==> x in keys && x != "timestamp" && x !in fields
  {
    ["timestamp"] + Difference(Difference(keys, ["timestamp"]), fields) + fields
  }

  /** With no rows the header row is "timestamp" and the fields. */
  lemma EmptyResultHeaders(fields: seq<string>)
    ensures CsvHeaders([], fields) == ["timestamp"] + fields
  {
  }

  /**
   * For a first row listing the fields, then the column ("source" or "city"), then
   * "timestamp", where no field is named like the column or "timestamp", the headers
   * are "timestamp", the column, and the fields.
   */
  lemma TypicalHeaders(column: string, fields: seq<string>)
    requires column != "timestamp" && column !in fields && "timestamp" !in fields
    ensures CsvHeaders(fields + [column, "timestamp"], fields) == ["timestamp", column] + fields
  {
    TimestampDropped(column, fields);
    FieldsDropped(column, fields);
    assert CsvHeaders(fields + [column, "timestamp"], fields) == ["timestamp"] + [column] + fields;
  }

  /** Dropping "timestamp" from such a first row leaves the fields and the column. */
  lemma TimestampDropped(column: string, fields: seq<string>)
    requires column != "timestamp" && "timestamp" !in fields
    ensures Difference(fields + [column, "timestamp"], ["timestamp"]) == fields + [column]
  {
    DifferenceAppend(fields, [column, "timestamp"], ["timestamp"]);
    DifferenceOfDisjoint(fields, ["timestamp"]);
    assert [column, "timestamp"][1..] == ["timestamp"];
    assert Difference(["timestamp"], ["timestamp"]) == [];
    assert Difference([column, "timestamp"], ["timestamp"]) == [column];
  }

  /** Dropping the fields then leaves the column. */
  lemma FieldsDropped(column: string, fields: seq<string>)
    requires column !in fields
    ensures Difference(fields + [column], fields) == [column]
  {
    DifferenceAppend(fields, [column], fields);
    DifferenceOfContained(fields, fields);
    assert Difference([column], fields) == [column];
  }

  // ---------------------------------------------------------------------------
  // `item.timestamp = item.timestamp.toISOString()`

  /**
   * The row with its `timestamp` Date replaced by the ISO string in the same place.
   * A row whose `timestamp` is missing or not a Date throws a TypeError, an Invalid
   * Date a RangeError: None for both.
   */
  function StampRow(row: Object, iso: int -> string): Option<Object> {
    match Lookup(row, "timestamp")
    case Some(Time(d)) =>
      (match IsoString(d, iso)
       case Some(s) => Some(Put(row, "timestamp", Text(s)))
       case None => None)
    case _ => None
  }

  /** What the row stamps to: only `timestamp` changes, to its ISO string, and it keeps its place. */
  lemma StampRowSpec(row: Object, iso: int -> string)
    requires DistinctKeys(row)
    ensures StampRow(row, iso).Some? <==>
            exists ms :: Lookup(row, "timestamp") == Some(Time(At(ms))) && InTimeRange(ms)
    ensures StampRow(row, iso).Some? ==>
            var out := StampRow(row, iso).value;
            && Keys(out) == Keys(row) && DistinctKeys(out)
            && Lookup(out, "timestamp") == Some(Text(iso(Lookup(row, "timestamp").value.date.ms)))
            && forall k :: k != "timestamp" ==> Lookup(out, k) == Lookup(row, k)
  {
    if StampRow(row, iso).Some? {
      var out := StampRow(row, iso).value;
      var v := Text(iso(Lookup(row, "timestamp").value.date.ms));
      PutKeepsDistinctKeys(row, "timestamp", v);
      forall k | true
        ensures Lookup(out, k) == if k == "timestamp" then Some(v) else Lookup(row, k)
      {
        PutLookup(row, "timestamp", v, k);
      }
    }
  }

  /** The rows of `chained.forEach(...)`, all stamped, or None as soon as one throws. */
  function StampAll(rows: seq<Object>, iso: int -> string): (r: Option<seq<Object>>)
    ensures r.Some? ==> |r.value| == |rows|
  {
    TryMap(row => StampRow(row, iso), rows)
  }

  /** Apply f to every row in order, failing as soon as one application fails. */
  function TryMap(f: Object -> Option<Object>, rows: seq<Object>): (r: Option<seq<Object>>)
    ensures r.Some? ==> |r.value| == |rows|
  {
    if rows == [] then Some([])
    else
      var n := |rows| - 1;
      match TryMap(f, rows[..n])
      case None => None
      case Some(done) =>
        match f(rows[n])
        case None => None
        case Some(row) => Some(done + [row])
  }

  /** The rows map when each of them does, and then each is mapped on its own. */
  lemma {:induction false} TryMapSpec(f: Object -> Option<Object>, rows: seq<Object>)
    ensures TryMap(f, rows).Some? <==> forall i :: 0 <= i < |rows| ==> f(rows[i]).Some?
    ensures TryMap(f, rows).Some? ==>
            forall i :: 0 <= i < |rows| ==> TryMap(f, rows).value[i] == f(rows[i]).value
  {
    if rows != [] {
      var n := |rows| - 1;
      var prefix := rows[..n];
      TryMapSpec(f, prefix);
      assert forall i :: 0 <= i < n ==> prefix[i] == rows[i];
      if TryMap(f, rows).Some? {
        var done := TryMap(f, prefix).value;
        assert TryMap(f, rows).value == done + [f(rows[n]).value];
      }
    }
  }

  /** The rows stamp when each of them does, and then each is stamped on its own. */
  lemma StampAllSpec(rows: seq<Object>, iso: int -> string)
    ensures StampAll(rows, iso).Some? <==> forall i :: 0 <= i < |rows| ==> StampRow(rows[i], iso).Some?
    ensures StampAll(rows, iso).Some? ==>
            forall i :: 0 <= i < |rows| ==> StampAll(rows, iso).value[i] == StampRow(rows[i], iso).value
  {
    TryMapSpec(row => StampRow(row, iso), rows);
  }

  // ---------------------------------------------------------------------------
  // The CSV writer

  /**
   * One written line: the values of the row under each header, in header order
   * (None where the row has no such property, written as an empty cell).
   */
  function Line(headers: seq<string>, row: Object): (line: seq<Option<Value>>)
    ensures |line| == |headers| && forall i :: 0 <= i < |headers| ==> line[i] == Lookup(row, headers[i])
  {
    seq(|headers|, i requires 0 <= i < |headers| => Lookup(row, headers[i]))
  }

  function Lines(headers: seq<string>, rows: seq<Object>): (lines: seq<seq<Option<Value>>>)
    ensures |lines| == |rows| && forall i :: 0 <= i < |rows| ==> lines[i] == Line(headers, rows[i])
  {
    seq(|rows|, i requires 0 <= i < |rows| => Line(headers, rows[i]))
  }

  /** `csvWriter({headers})`: the lines written so far, and whether `end()` was called. */
  class CsvWriter {
    const headers: seq<string>
    var lines: seq<seq<Option<Value>>>
    var ended: bool

    constructor (headers: seq<string>)
      ensures this.headers == headers && lines == [] && !ended
    {
      this.headers := headers;
      lines := [];
      ended := false;
    }

    /** `writer.write(item)`. */
    method Write(row: Object)
      requires !ended
      modifies this
      ensures lines == old(lines) + [Line(headers, row)] && !ended
    {
      lines := lines + [Line(headers, row)];
    }

    /** `writer.end()`. */
    method End()
      modifies this
      ensures ended && lines == old(lines)
    {
      ended := true;
    }
  }

  /**
   * The loop over the renamed rows: each row is stamped and written. When every row
   * stamps, the writer holds one line per row and is ended; when row k throws, rows
   * before it have been written and the writer is left open.
   */
  method EmitCsv(writer: CsvWriter, rows: seq<Object>, iso: int -> string) returns (ok: bool)
    requires writer.lines == [] && !writer.ended
    modifies writer
    ensures ok <==> StampAll(rows, iso).Some?
    ensures ok ==> writer.lines == Lines(writer.headers, StampAll(rows, iso).value) && writer.ended
    ensures !ok ==> !writer.ended
    ensures !ok ==> exists k :: 0 <= k < |rows| && StampRow(rows[k], iso).None? && StampAll(rows[..k], iso).Some?
                               && writer.lines == Lines(writer.headers, StampAll(rows[..k], iso).value)
  {
    var i := 0;
    while i < |rows|
      invariant 0 <= i <= |rows|
      invariant StampAll(rows[..i], iso).Some?
      invariant writer.lines == Lines(writer.headers, StampAll(rows[..i], iso).value)
      invariant !writer.ended
    {
      match StampRow(rows[i], iso)
      case None =>
        assert rows[..i + 1][..i] == rows[..i];
        StampAllPrefix(rows, iso, i);
        assert StampRow(rows[i], iso).None? && StampAll(rows[..i], iso).Some?;
        return false;
      case Some(row) =>
        writer.Write(row);
        assert rows[..i + 1][..i] == rows[..i];
        i := i + 1;
    }
    assert rows[..i] == rows;
    writer.End();
    return true;
  }

  /** A row that throws makes the whole CSV fail. */
  lemma StampAllPrefix(rows: seq<Object>, iso: int -> string, i: nat)
    requires i < |rows| && StampRow(rows[i], iso).None?
    ensures StampAll(rows, iso).None?
  {
    StampAllSpec(rows, iso);
  }
}
