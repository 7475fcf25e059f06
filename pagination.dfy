/**
 * The `links` of a JSON response: the window of the same length just before the
 * requested one, and the one just after it, each written as a pair of ISO strings.
 */
module Pagination {
  import opened Wrappers
  import opened JsObjects

  /** A requested time window `[from, before)`. */
  datatype Window = Window(from: Date, before: Date)

  /** Both ends are valid Dates. */
  predicate Valid(w: Window) {
    w.from.At? && InTimeRange(w.from.ms) && w.before.At? && InTimeRange(w.before.ms)
  }

  /**
   * `new Date(2 * a.getTime() - b.getTime())`: a NaN time value (either Date
   * invalid) gives an Invalid Date.
   */
  function Reflect(a: Date, b: Date): (d: Date)
    ensures d.At? <==> a.At? && b.At? && InTimeRange(2 * a.ms - b.ms)
    ensures d.At? ==> d.ms - a.ms == a.ms - b.ms
  {
    if a.At? && b.At? then TimeClip(2 * a.ms - b.ms) else InvalidDate
  }

  /** The window the `prev` link names: it ends where the request starts. */
  function Prev(w: Window): Window {
    Window(Reflect(w.from, w.before), w.from)
  }

  /** The window the `next` link names: it starts where the request ends. */
  function Next(w: Window): Window {
    Window(w.before, Reflect(w.before, w.from))
  }

  /** The `{from, before}` pair of ISO strings a link is resolved from. */
  datatype LinkRange = LinkRange(from: string, before: string)

  /** `toISOString` of both ends, or None when either throws. */
  function RangeStrings(w: Window, iso: int -> string): (r: Option<LinkRange>)
    ensures r.Some? <==> Valid(w)
    ensures r.Some? ==> r.value == LinkRange(iso(w.from.ms), iso(w.before.ms))
  {
    match (IsoString(w.from, iso), IsoString(w.before, iso))
    case (Some(f), Some(b)) => Some(LinkRange(f, b))
    case _ => None
  }

  /** The ranges of the `prev` and `next` links, or None when a `toISOString` throws. */
  function Links(w: Window, iso: int -> string): Option<(LinkRange, LinkRange)> {
    match (RangeStrings(Prev(w), iso), RangeStrings(Next(w), iso))
    case (Some(p), Some(n)) => Some((p, n))
    case _ => None
  }

  // ---------------------------------------------------------------------------
  // Properties of the links

  /** The links exist exactly when the request and both neighbouring windows are valid. */
  lemma LinksDefined(w: Window, iso: int -> string)
    ensures Links(w, iso).Some? <==> Valid(w) && Valid(Prev(w)) && Valid(Next(w))
    ensures Links(w, iso).Some? <==>
            Valid(w) && InTimeRange(2 * w.from.ms - w.before.ms) && InTimeRange(2 * w.before.ms - w.from.ms)
  {
  }

  /**
   * The neighbours touch the request and have its length: `prev` is
   * `[2f - b, f)`, `next` is `[b, 2b - f)`.
   */
  lemma NeighboursAdjacent(w: Window)
    requires Valid(w) && Valid(Prev(w)) && Valid(Next(w))
    ensures Prev(w).before == w.from && Next(w).from == w.before
    ensures Prev(w).before.ms - Prev(w).from.ms == w.before.ms - w.from.ms
    ensures Next(w).before.ms - Next(w).from.ms == w.before.ms - w.from.ms
  {
  }

  /** Following `prev` and then `next` (or `next` and then `prev`) comes back to the request. */
  lemma PrevNextRoundTrip(w: Window)
    requires Valid(w)
    ensures Valid(Prev(w)) ==> Next(Prev(w)) == w
    ensures Valid(Next(w)) ==> Prev(Next(w)) == w
  {
  }

  /** The k-th window before the request: `prev` followed k times. */
  function PrevN(w: Window, k: nat): Window {
    if k == 0 then w else Prev(PrevN(w, k - 1))
  }

  /**
   * Following `prev` k times from a valid window of length d (while the
   * windows stay valid) reaches the window `[f - k*d, f - (k-1)*d)`.
   */
  lemma {:induction false} PrevNWindows(w: Window, k: nat)
    requires Valid(w)
    requires forall j :: 0 <= j <= k ==> Valid(PrevN(w, j))
    ensures PrevN(w, k).from == At(w.from.ms - k * (w.before.ms - w.from.ms))
    ensures PrevN(w, k).before == At(w.before.ms - k * (w.before.ms - w.from.ms))
  {
    if k > 0 {
      PrevNWindows(w, k - 1);
      var v := PrevN(w, k - 1);
      var d := w.before.ms - w.from.ms;
      assert Valid(v) && Valid(PrevN(w, k));
      assert PrevN(w, k) == Prev(v);
      assert k * d == (k - 1) * d + d;
    }
  }

  /** An hour from 2024-01-01T00:00:00Z: `prev` is the hour before, `next` the hour after. */
  lemma HourExample()
    ensures var w := Window(At(1704067200000), At(1704070800000));
      && Prev(w) == Window(At(1704063600000), At(1704067200000))
      && Next(w) == Window(At(1704070800000), At(1704074400000))
  {
  }

  /** A window with an invalid end has no links. */
  lemma InvalidWindowNoLinks(w: Window, iso: int -> string)
    requires w.from == InvalidDate || w.before == InvalidDate
    ensures Links(w, iso) == None
  {
  }
}
