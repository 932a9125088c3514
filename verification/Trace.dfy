// The trace of an endpoint: a ring of time-stamped values, and its dump over a window of time
// (core/trace.c).
module Trace {

  const DEFAULT_DEPTH: int := 500
  const MAX_DEPTH: int := 10000

  datatype Sample = Sample(t: nat, value: string)
  datatype Entry = Empty | Full(sample: Sample)

  // What a dump prints: dated values, and the value the trace still has, dated now.
  datatype Point = At(t: nat, value: string) | Still(t: nat, value: string)

  predicate Sorted(w: seq<Sample>) {
    forall i, j :: 0 <= i < j < |w| ==> w[i].t <= w[j].t
  }

  // ---------------------------------------------------------------- the window of time

  // How many samples come before t1; 0 bounds nothing.
  function Before(w: seq<Sample>, t1: nat): (n: nat)
    requires Sorted(w)
    ensures n <= |w| && forall i :: 0 <= i < |w| ==> (w[i].t < t1 <==> i < n)
  {
    if w == [] || w[|w| - 1].t < t1 then |w| else Before(w[..|w| - 1], t1)
  }

  // How many samples come no later than t2; 0 bounds nothing.
  function UpTo(w: seq<Sample>, t2: nat): (n: nat)
    requires Sorted(w)
    ensures n <= |w| && forall i :: 0 <= i < |w| ==> (t2 == 0 || w[i].t <= t2 <==> i < n)
  {
    if t2 == 0 then |w| else Before(w, t2 + 1)
  }

  predicate Inside(x: Sample, t1: nat, t2: nat) {
    t1 <= x.t && (t2 == 0 || x.t <= t2)
  }

  function Dated(w: seq<Sample>): (p: seq<Point>)
    ensures |p| == |w| && forall k :: 0 <= k < |w| ==> p[k] == At(w[k].t, w[k].value)
  {
    seq(|w|, k requires 0 <= k < |w| => At(w[k].t, w[k].value))
  }

  function Known(w: seq<Sample>, lo: nat, t1: nat): seq<Point>
    requires lo <= |w|
  {
    if lo > 0 then [At(t1, w[lo - 1].value)] else []
  }

  // The value held at t1, if it is known; the samples inside; the value held at the end.
  function Dump(w: seq<Sample>, t1: nat, t2: nat, now: nat): seq<Point>
    requires Sorted(w)
  {
    var lo, hi := Before(w, t1), UpTo(w, t2);
    if lo >= hi then []
    else
      Known(w, lo, t1) + Dated(w[lo..hi])
      + [if hi < |w| then At(t2, w[hi - 1].value) else Still(now, w[hi - 1].value)]
  }

  // ---------------------------------------------------------------- the signal

  // The value held at time t: that of the last sample no later than t.
  function Held(w: seq<Sample>, t: nat): seq<string> {
    if w == [] then [] else if w[|w| - 1].t <= t then [w[|w| - 1].value] else Held(w[..|w| - 1], t)
  }

  function Drawn(p: seq<Point>, t: nat): seq<string> {
    if p == [] then [] else if p[|p| - 1].t <= t then [p[|p| - 1].value] else Drawn(p[..|p| - 1], t)
  }

  lemma {:induction false} HeldIs(w: seq<Sample>, t: nat, n: nat)
    requires n <= |w| && Sorted(w) && forall i :: 0 <= i < |w| ==> (w[i].t <= t <==> i < n)
    ensures Held(w, t) == if n == 0 then [] else [w[n - 1].value]
    decreases |w|
  {
    if n < |w| {
      HeldIs(w[..|w| - 1], t, n);
    }
  }

  lemma {:induction false} DrawnIs(p: seq<Point>, t: nat, n: nat)
    requires n <= |p| && (n > 0 ==> p[n - 1].t <= t) && forall i :: n <= i < |p| ==> p[i].t > t
    ensures Drawn(p, t) == if n == 0 then [] else [p[n - 1].value]
    decreases |p|
  {
    if n < |p| {
      DrawnIs(p[..|p| - 1], t, n);
    }
  }

  // The points of a dump one by one: c comes before the samples inside.
  lemma DumpPoints(w: seq<Sample>, t1: nat, t2: nat, now: nat)
    requires Sorted(w)
    ensures var lo, hi, p := Before(w, t1), UpTo(w, t2), Dump(w, t1, t2, now);
            p != [] ==>
              var c := if lo > 0 then 1 else 0;
              && lo < hi && |p| == c + (hi - lo) + 1
              && (lo > 0 ==> p[0] == At(t1, w[lo - 1].value))
              && p[c..|p| - 1] == Dated(w[lo..hi])
              && p[|p| - 1] == if hi < |w| then At(t2, w[hi - 1].value) else Still(now, w[hi - 1].value)
  {
    hide Sorted, Before, UpTo, Dated, Known;
    var lo, hi, p := Before(w, t1), UpTo(w, t2), Dump(w, t1, t2, now);
    if lo < hi {
      var c := if lo > 0 then 1 else 0;
      var inside := Dated(w[lo..hi]);
      var end := if hi < |w| then At(t2, w[hi - 1].value) else Still(now, w[hi - 1].value);
      ThreeParts(Known(w, lo, t1), inside, end);
      KnownIs(w, lo, t1);
    }
  }

  lemma KnownIs(w: seq<Sample>, lo: nat, t1: nat)
    requires lo <= |w|
    ensures Known(w, lo, t1) == if lo > 0 then [At(t1, w[lo - 1].value)] else []
  {
  }

  lemma ThreeParts(a: seq<Point>, b: seq<Point>, e: Point)
    ensures var p := a + b + [e];
            && |p| == |a| + |b| + 1 && p[|p| - 1] == e
            && p[|a|..|p| - 1] == b && (a != [] ==> p[0] == a[0])
  {
  }

  // Before its last point, a dump draws its first point, then the samples inside.
  lemma DrawnInside(p: seq<Point>, c: nat, mid: seq<Point>, t: nat, m: nat)
    requires c + |mid| + 1 == |p| && p[c..|p| - 1] == mid && m <= |mid| && c + m > 0 && c <= 1
    requires p[0].t <= t < p[|p| - 1].t && forall i :: 0 <= i < |mid| ==> (mid[i].t <= t <==> i < m)
    ensures Drawn(p, t) == [if m == 0 then p[0].value else mid[m - 1].value]
  {
    hide Drawn;
    assert m > 0 ==> p[c + (m - 1)] == mid[m - 1];
    forall i | c + m <= i < |p| ensures p[i].t > t {
      assert i < |p| - 1 ==> p[i] == mid[i - c];
    }
    DrawnIs(p, t, c + m);
  }

  // The points of a dump, from the first to the last, draw the very signal of the trace.
  lemma DumpDrawsSignal(w: seq<Sample>, t1: nat, t2: nat, now: nat, t: nat)
    requires Sorted(w) && (w != [] ==> w[|w| - 1].t <= now)
    ensures var p := Dump(w, t1, t2, now);
            p != [] && p[0].t <= t <= p[|p| - 1].t ==> Drawn(p, t) == Held(w, t)
  {
    hide Dump, Drawn, Held, Dated, Sorted, Before, UpTo;
    var lo, hi, p := Before(w, t1), UpTo(w, t2), Dump(w, t1, t2, now);
    DumpPoints(w, t1, t2, now);
    if p != [] && p[0].t <= t <= p[|p| - 1].t {
      var n := Before(w, t + 1);
      var c := if lo > 0 then 1 else 0;
      var mid := Dated(w[lo..hi]);
      assert lo == 0 ==> p[0] == mid[0];
      HeldIs(w, t, n);
      if t == p[|p| - 1].t {
        DrawnIs(p, t, |p|);
        assert n == hi;
      } else {
        assert lo <= n <= hi;
        assert forall i :: 0 <= i < hi - lo ==> w[lo..hi][i] == w[lo + i];
        DrawnInside(p, c, mid, t, n - lo);
      }
    }
  }

  // Something is printed exactly when a sample lies inside.
  lemma DumpIsEmptyIff(w: seq<Sample>, t1: nat, t2: nat, now: nat)
    requires Sorted(w)
    ensures Dump(w, t1, t2, now) == [] <==> forall i :: 0 <= i < |w| ==> !Inside(w[i], t1, t2)
  {
    var lo, hi := Before(w, t1), UpTo(w, t2);
    if lo < hi {
      assert Inside(w[lo], t1, t2);
    }
  }

  // Where a dump starts: at t1 when the value held there is known, else at the first sample.
  lemma DumpStarts(w: seq<Sample>, t1: nat, t2: nat, now: nat)
    requires Sorted(w)
    ensures var p := Dump(w, t1, t2, now);
            p != [] ==> w != [] &&
                        if w[0].t < t1 then [p[0].value] == Held(w, t1 - 1) && p[0].t == t1
                        else p[0] == At(w[0].t, w[0].value)
  {
    hide Dump, Held;
    var lo := Before(w, t1);
    DumpPoints(w, t1, t2, now);
    var p := Dump(w, t1, t2, now);
    assert lo == 0 && p != [] ==> p[0] == p[0..|p| - 1][0] == At(w[0].t, w[0].value);
    if lo > 0 {
      assert w[0].t < t1;
      HeldIs(w, t1 - 1, lo);
    }
  }

  // ---------------------------------------------------------------- the ring

  // Position j of a ring of d entries that starts at g.
  function Slot(g: int, d: int, j: int): int {
    if g + j < d then g + j else g + j - d
  }

  predicate Holds(tab: seq<Entry>, g: nat, w: seq<Sample>) {
    && g < |tab| && |w| < |tab|
    && forall j {:trigger w[j]} :: 0 <= j < |w| ==> tab[Slot(g, |tab|, j)] == Full(w[j])
  }

  // Writing after the last entry, and moving the start when the ring is full.
  lemma HoldsOneMore(tab: seq<Entry>, g: nat, w: seq<Sample>, x: Sample)
    requires Holds(tab, g, w)
    ensures var next := tab[Slot(g, |tab|, |w|) := Full(x)];
            if |w| + 1 < |tab| then Holds(next, g, w + [x])
            else Holds(next, Slot(g, |tab|, 1), (w + [x])[1..])
  {
    var next := tab[Slot(g, |tab|, |w|) := Full(x)];
    forall j | 0 <= j < |w| ensures next[Slot(g, |tab|, j)] == Full((w + [x])[j]) {
      assert Full(w[j]) == tab[Slot(g, |tab|, j)];
    }
  }

  lemma RingRange(tab: seq<Entry>, g: nat, w: seq<Sample>)
    requires Holds(tab, g, w)
    ensures g < |tab| && |w| < |tab|
  {
  }

  // How far the scan of a sorted window has come after k samples.
  ghost predicate Scanned(w: seq<Sample>, t1: nat, t2: nat, k: nat, pre: Entry, last: Entry, out: seq<Point>) {
    && Sorted(w) && k <= |w|
    && var lo := Before(w, t1);
       if k <= lo then out == [] && last == Empty && pre == if k > 0 then Full(w[k - 1]) else Empty
       else
         && k <= UpTo(w, t2) && pre == Empty && last == Full(w[k - 1])
         && out == Known(w, lo, t1) + Dated(w[lo..k])
  }

  lemma ScanOne(w: seq<Sample>, t1: nat, t2: nat, k: nat, pre: Entry, last: Entry, out: seq<Point>)
    requires Scanned(w, t1, t2, k, pre, last, out) && k < |w| && Inside(w[k], t1, t2)
    ensures Scanned(w, t1, t2, k + 1, Empty, Full(w[k]),
                    out + (if pre == Empty then [] else [At(t1, pre.sample.value)]) + [At(w[k].t, w[k].value)])
  {
    var lo := Before(w, t1);
    if k > lo {
      assert Dated(w[lo..k + 1]) == Dated(w[lo..k]) + [At(w[k].t, w[k].value)];
    } else {
      assert Dated(w[lo..k + 1]) == [At(w[k].t, w[k].value)];
    }
  }

  // The scan stops at the end of the window or at the first sample past it.
  lemma ScanEnds(w: seq<Sample>, t1: nat, t2: nat, now: nat, k: nat, pre: Entry, last: Entry, out: seq<Point>)
    requires Scanned(w, t1, t2, k, pre, last, out)
    requires k == |w| || (w[k].t >= t1 && !Inside(w[k], t1, t2))
    ensures Dump(w, t1, t2, now)
            == if last == Empty then out
               else out + [if k < |w| then At(t2, last.sample.value) else Still(now, last.sample.value)]
  {
    hide Sorted, Before, UpTo, Dated, Known;
    var lo, hi := Before(w, t1), UpTo(w, t2);
    assert k < |w| ==> hi <= k && lo <= k;
    assert k > lo ==> hi == k;
  }

  // The last n samples, or all of them.
  function Last(all: seq<Sample>, n: nat): seq<Sample> {
    if |all| <= n then all else all[|all| - n..]
  }

  lemma LastOneMore(all: seq<Sample>, n: nat, x: Sample)
    ensures var w := Last(all, n); Last(all + [x], n) == if |w| < n then w + [x] else (w + [x])[1..]
  {
  }

  class Ring {
    var depth: nat
    var iput: nat
    var iget: nat
    var tab: array<Entry>
    ghost var all: seq<Sample>    // every sample pushed

    ghost function Window(): seq<Sample>
      requires depth > 0
      reads this
    {
      Last(all, depth - 1)
    }

    // The window lies between iget and iput, around the end of the table.
    ghost predicate Valid()
      reads this, tab
    {
      depth == tab.Length > 0 && Holds(tab[..], iget, Window()) && iput == Slot(iget, depth, |Window()|)
    }

    // hk_trace_init
    constructor (depth: int)
      ensures Valid() && all == []
      ensures this.depth == if depth > 10000 then 10000 else if depth <= 0 then 500 else depth
    {
      var d := if depth > MAX_DEPTH then MAX_DEPTH else if depth <= 0 then DEFAULT_DEPTH else depth;
      this.depth := d;
      tab := new Entry[d](_ => Empty);
      iput, iget, all := 0, 0, [];
    }

    // hk_trace_push at time t
    method Push(t: nat, value: string)
      requires Valid()
      modifies this`iput, this`iget, this`all, tab
      ensures Valid() && all == old(all) + [Sample(t, value)]
    {
      hide Holds, Last;
      RingRange(tab[..], iget, Window());
      var x := Sample(t, value);
      ghost var w, before := Window(), tab[..];
      tab[iput] := Full(x);
      assert tab[..] == before[iput := Full(x)];
      HoldsOneMore(before, iget, w, x);
      LastOneMore(all, depth - 1, x);
      all := all + [x];
      iput := iput + 1;
      if iput >= depth {
        iput := 0;
      }
      if iput == iget {
        iget := iget + 1;
        if iget >= depth {
          iget := 0;
        }
      }
    }

    // hk_trace_dump
    method DumpWindow(t1: nat, t2: nat, now: nat) returns (out: seq<Point>)
      requires Valid()
      ensures Sorted(Window()) ==> out == Dump(Window(), t1, t2, now)
    {
      hide Sorted, Dump, Scanned;
      var pre, last := Empty, Empty;
      out := [];
      var i := iget;
      ghost var w, k: nat := Window(), 0;
      ScanStarts(w, t1, t2);
      while i != iput
        invariant k <= |w| && i == Slot(iget, depth, k)
        invariant Sorted(w) ==> Scanned(w, t1, t2, k, pre, last, out)
        decreases |w| - k
      {
        var entry := tab[i];
        assert entry == Full(w[k]);
        i := i + 1;
        if i >= depth {
          i := 0;
        }
        if entry == Empty {
          break;
        }
        if t1 == 0 || entry.sample.t >= t1 {
          if t2 == 0 || entry.sample.t <= t2 {
            if Sorted(w) {
              ScanOne(w, t1, t2, k, pre, last, out);
            }
            if pre != Empty {
              out := out + [At(t1, pre.sample.value)];
              pre := Empty;
            } else {
              assert out + [] == out;
            }
            out := out + [At(entry.sample.t, entry.sample.value)];
            last := entry;
          } else {
            if Sorted(w) {
              ScanEnds(w, t1, t2, now, k, pre, last, out);
            }
            if last != Empty {
              out := out + [At(t2, last.sample.value)];
            }
            return;
          }
        } else {
          if Sorted(w) {
            ScanSkips(w, t1, t2, k, pre, last, out);
          }
          pre := entry;
        }
        k := k + 1;
      }
      if Sorted(w) {
        ScanEnds(w, t1, t2, now, k, pre, last, out);
      }
      if last != Empty {
        out := out + [Still(now, last.sample.value)];
      }
    }
  }

  lemma ScanStarts(w: seq<Sample>, t1: nat, t2: nat)
    ensures Sorted(w) ==> Scanned(w, t1, t2, 0, Empty, Empty, [])
  {
  }

  lemma ScanSkips(w: seq<Sample>, t1: nat, t2: nat, k: nat, pre: Entry, last: Entry, out: seq<Point>)
    requires Scanned(w, t1, t2, k, pre, last, out) && k < |w| && w[k].t < t1
    ensures Scanned(w, t1, t2, k + 1, Full(w[k]), last, out)
  {
  }
}
