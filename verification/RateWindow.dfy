/** The sliding-window rate estimator (internal/metrics/rate.go): a ring of 60
    one-second buckets, compared with the full history of credited bytes. */
module RateWindow {
  import opened Collections

  const DEPTH := 60

  datatype Window = Window(buckets: seq<int>, lastIdx: nat, lastTs: int)

  ghost predicate Shape(w: Window) {
    |w.buckets| == DEPTH && w.lastIdx < DEPTH && 0 <= w.lastTs
  }

  /** One second passes: the next slot is reused and cleared. */
  function Tick(w: Window): (r: Window)
    requires Shape(w)
    ensures Shape(r)
  {
    var idx := (w.lastIdx + 1) % DEPTH;
    Window(w.buckets[idx := 0], idx, w.lastTs + 1)
  }

  function Ticks(w: Window, ts: int): (r: Window)
    requires Shape(w)
    ensures Shape(r)
    decreases ts - w.lastTs
  {
    if ts <= w.lastTs then w else Ticks(Tick(w), ts)
  }

  /** A window never advanced yet starts at ts. */
  function AfterAdvance(w: Window, ts: int): (r: Window)
    requires Shape(w) && 0 < ts
    ensures Shape(r)
  {
    if w.lastTs == 0 then w.(lastTs := ts, lastIdx := 0) else Ticks(w, ts)
  }

  function AfterAdd(w: Window, n: int, ts: int): (r: Window)
    requires Shape(w) && 0 < ts
    ensures Shape(r)
  {
    var a := AfterAdvance(w, ts);
    a.(buckets := a.buckets[a.lastIdx := a.buckets[a.lastIdx] + n])
  }

  function AfterRead(w: Window, now: int): (r: Window)
    requires Shape(w) && 0 < now
    ensures Shape(r)
  {
    if now > w.lastTs then AfterAdvance(w, now) else w
  }

  function SumSeq(s: seq<int>): int {
    if s == [] then 0 else SumSeq(s[..|s| - 1]) + s[|s| - 1]
  }

  /** Go's integer division truncates toward zero. */
  function GoDiv(a: int, b: int): int
    requires 0 < b
  {
    if a >= 0 then a / b else -((-a) / b)
  }

  class Rates {
    const buckets: array<int>
    var lastIdx: nat
    var lastTs: int

    ghost predicate Valid()
      reads this, buckets
    {
      Shape(Abs())
    }

    ghost function Abs(): (w: Window)
      reads this, buckets
    {
      Window(buckets[..], lastIdx, lastTs)
    }

    constructor ()
      ensures Valid() && fresh(buckets)
      ensures Abs() == Window(Repeat(0, DEPTH), 0, 0)
    {
      buckets := new int[DEPTH](_ => 0);
      lastIdx, lastTs := 0, 0;
      new;
    }

    method Advance(ts: int)
      requires Valid() && 0 < ts
      modifies this, buckets
      ensures Valid() && Abs() == AfterAdvance(old(Abs()), ts)
    {
      if lastTs == 0 {
        lastTs := ts;
        lastIdx := 0;
        return;
      }
      while ts > lastTs
        invariant Valid()
        invariant Ticks(Abs(), ts) == Ticks(old(Abs()), ts)
        decreases ts - lastTs
      {
        ghost var w := Abs();
        lastTs := lastTs + 1;
        lastIdx := (lastIdx + 1) % DEPTH;
        buckets[lastIdx] := 0;
        assert Abs() == Tick(w);
      }
    }

    method Add(n: int, ts: int)
      requires Valid() && 0 < ts
      modifies this, buckets
      ensures Valid() && Abs() == AfterAdd(old(Abs()), n, ts)
    {
      Advance(ts);
      buckets[lastIdx] := buckets[lastIdx] + n;
    }

    method Rate(now: int) returns (perSec: int, avg60: int)
      requires Valid() && 0 < now
      modifies this, buckets
      ensures Valid() && Abs() == AfterRead(old(Abs()), now)
      ensures perSec == Abs().buckets[Abs().lastIdx]
      ensures avg60 == GoDiv(SumSeq(Abs().buckets), 60)
    {
      if now > lastTs {
        Advance(now);
      }
      perSec := buckets[lastIdx];
      var sum := 0;
      for i := 0 to buckets.Length
        invariant sum == SumSeq(buckets[..i])
      {
        assert buckets[..i + 1][..i] == buckets[..i];
        sum := sum + buckets[i];
      }
      assert buckets[..buckets.Length] == buckets[..];
      avg60 := GoDiv(sum, 60);
    }
  }

  // ---- the full history ------------------------------------------------------------

  /** n bytes credited to a second. */
  datatype Credit = Credit(sec: int, n: int)

  /** What the history credits to the seconds lo..hi. */
  function Credited(h: seq<Credit>, lo: int, hi: int): (sum: int)
  {
    if h == [] then 0
    else Credited(h[1..], lo, hi) + if lo <= h[0].sec <= hi then h[0].n else 0
  }

  /** The slot of the second `back` seconds before the newest one. */
  function Slot(w: Window, back: nat): (i: nat)
    requires Shape(w) && back < DEPTH
    ensures i < DEPTH
  {
    (w.lastIdx + DEPTH - back) % DEPTH
  }

  /** Every slot holds exactly what its second was credited. */
  ghost predicate Ring(w: Window, h: seq<Credit>) {
    && Shape(w)
    && (forall i :: 0 <= i < |h| ==> h[i].sec <= w.lastTs)
    && (w.lastTs == 0 ==> h == [])
    && (forall back :: 0 <= back < DEPTH ==> SlotRight(w, h, back))
  }

  ghost predicate SlotRight(w: Window, h: seq<Credit>, back: nat)
    requires Shape(w) && back < DEPTH
  {
    w.buckets[Slot(w, back)] == Credited(h, w.lastTs - back, w.lastTs - back)
  }

  lemma {:induction false} NothingCredited(h: seq<Credit>, lo: int, hi: int)
    requires forall i :: 0 <= i < |h| ==> !(lo <= h[i].sec <= hi)
    ensures Credited(h, lo, hi) == 0
  {
    if h != [] {
      NothingCredited(h[1..], lo, hi);
    }
  }

  lemma {:induction false} CreditedMore(h: seq<Credit>, c: Credit, lo: int, hi: int)
    ensures Credited(h + [c], lo, hi) == Credited(h, lo, hi) + if lo <= c.sec <= hi then c.n else 0
  {
    if h == [] {
      assert h + [c] == [c];
    } else {
      CreditedMore(h[1..], c, lo, hi);
      assert (h + [c])[1..] == h[1..] + [c];
    }
  }

  lemma {:induction false} CreditedSplit(h: seq<Credit>, lo: int, mid: int, hi: int)
    requires lo <= mid <= hi
    ensures Credited(h, lo, hi) == Credited(h, lo, mid) + Credited(h, mid + 1, hi)
  {
    if h != [] {
      CreditedSplit(h[1..], lo, mid, hi);
    }
  }

  // ---- the ring follows the history ----------------------------------------------

  lemma TickRing(w: Window, h: seq<Credit>)
    requires Ring(w, h) && 0 < w.lastTs
    ensures Ring(Tick(w), h)
  {
    var t := Tick(w);
    forall back | 0 <= back < DEPTH
      ensures SlotRight(t, h, back)
    {
      if back == 0 {
        NothingCredited(h, t.lastTs, t.lastTs);
      } else {
        assert SlotRight(w, h, back - 1);
        assert Slot(t, back) == Slot(w, back - 1);
        assert Slot(t, back) != t.lastIdx;
      }
    }
  }

  lemma {:induction false} TicksRing(w: Window, h: seq<Credit>, ts: int)
    requires Ring(w, h) && 0 < w.lastTs
    ensures Ring(Ticks(w, ts), h) && Ticks(w, ts).lastTs == if ts > w.lastTs then ts else w.lastTs
    decreases ts - w.lastTs
  {
    if ts > w.lastTs {
      TickRing(w, h);
      TicksRing(Tick(w), h, ts);
    }
  }

  lemma AdvanceRing(w: Window, h: seq<Credit>, ts: int)
    requires Ring(w, h) && 0 < ts
    ensures Ring(AfterAdvance(w, ts), h)
    ensures AfterAdvance(w, ts).lastTs == if ts > w.lastTs then ts else w.lastTs
  {
    if w.lastTs == 0 {
      var a := AfterAdvance(w, ts);
      AllZero(w);
      forall back | 0 <= back < DEPTH
        ensures SlotRight(a, h, back)
      {
      }
    } else {
      TicksRing(w, h, ts);
    }
  }

  /** With no history every bucket is empty. */
  lemma AllZero(w: Window)
    requires Ring(w, [])
    ensures forall i :: 0 <= i < DEPTH ==> w.buckets[i] == 0
  {
    forall i | 0 <= i < DEPTH
      ensures w.buckets[i] == 0
    {
      var back := (w.lastIdx + DEPTH - i) % DEPTH;
      assert SlotRight(w, [], back);
      assert Slot(w, back) == i;
    }
  }

  lemma AddRing(w: Window, h: seq<Credit>, n: int, ts: int)
    requires Ring(w, h) && 0 < ts
    ensures Ring(AfterAdd(w, n, ts), h + [Credit(AfterAdvance(w, ts).lastTs, n)])
  {
    AdvanceRing(w, h, ts);
    var a := AfterAdvance(w, ts);
    var r, h' := AfterAdd(w, n, ts), h + [Credit(a.lastTs, n)];
    forall back | 0 <= back < DEPTH
      ensures SlotRight(r, h', back)
    {
      CreditedMore(h, Credit(a.lastTs, n), a.lastTs - back, a.lastTs - back);
      assert SlotRight(a, h, back);
      assert back != 0 ==> Slot(a, back) != a.lastIdx;
    }
  }

  // ---- runs ---------------------------------------------------------------------------

  datatype Op = Add(n: int, at: int) | Read(at: int)

  /** Adds and reads at positive seconds. */
  function Run(w: Window, ops: seq<Op>): (r: Window)
    requires Shape(w) && forall i :: 0 <= i < |ops| ==> 0 < ops[i].at
    ensures Shape(r)
    decreases |ops|
  {
    if ops == [] then w
    else match ops[0]
         case Add(n, at) => Run(AfterAdd(w, n, at), ops[1..])
         case Read(at) => Run(AfterRead(w, at), ops[1..])
  }

  function Later(a: int, b: int): int {
    if a > b then a else b
  }

  /** The full history, by the operations alone: bytes are credited to the latest
      second that any operation so far has named, since the clock may step back. */
  function Credits(clock: int, ops: seq<Op>): (h: seq<Credit>)
    decreases |ops|
  {
    if ops == [] then []
    else
      var c := Later(clock, ops[0].at);
      (if ops[0].Add? then [Credit(c, ops[0].n)] else []) + Credits(c, ops[1..])
  }

  function Latest(clock: int, ops: seq<Op>): (t: int)
    decreases |ops|
  {
    if ops == [] then clock else Latest(Later(clock, ops[0].at), ops[1..])
  }

  function Empty(): (w: Window)
    ensures Shape(w)
  {
    Window(Repeat(0, DEPTH), 0, 0)
  }

  lemma EmptyRing()
    ensures Ring(Empty(), [])
  {
    assert forall back :: 0 <= back < DEPTH ==> SlotRight(Empty(), [], back);
  }

  lemma {:induction false} RunRing(w: Window, h: seq<Credit>, ops: seq<Op>)
    requires Ring(w, h) && forall i :: 0 <= i < |ops| ==> 0 < ops[i].at
    ensures Ring(Run(w, ops), h + Credits(w.lastTs, ops)) && Run(w, ops).lastTs == Latest(w.lastTs, ops)
    decreases |ops|
  {
    if ops == [] {
      assert h + [] == h;
    } else {
      AdvanceRing(w, h, ops[0].at);
      var c := Later(w.lastTs, ops[0].at);
      match ops[0] {
        case Add(n, at) =>
          AddRing(w, h, n, at);
          RunRing(AfterAdd(w, n, at), h + [Credit(c, n)], ops[1..]);
          assert h + Credits(w.lastTs, ops) == h + [Credit(c, n)] + Credits(c, ops[1..]);
        case Read(at) =>
          RunRing(AfterRead(w, at), h, ops[1..]);
          assert h + Credits(w.lastTs, ops) == h + Credits(c, ops[1..]);
      }
    }
  }

  lemma {:induction false} StartRing(ops: seq<Op>)
    requires forall i :: 0 <= i < |ops| ==> 0 < ops[i].at
    ensures Ring(Run(Empty(), ops), Credits(0, ops)) && Run(Empty(), ops).lastTs == Latest(0, ops)
  {
    EmptyRing();
    RunRing(Empty(), [], ops);
    assert [] + Credits(0, ops) == Credits(0, ops);
  }

  // ---- the two rates --------------------------------------------------------------------

  lemma {:induction false} SumConcat(a: seq<int>, b: seq<int>)
    ensures SumSeq(a + b) == SumSeq(a) + SumSeq(b)
    decreases |b|
  {
    if b == [] {
      assert a + b == a;
    } else {
      SumConcat(a, b[..|b| - 1]);
      assert (a + b)[..|a + b| - 1] == a + b[..|b| - 1];
    }
  }

  lemma {:induction false} SumOfSeconds(s: seq<int>, h: seq<Credit>, lo: int)
    requires forall i :: 0 <= i < |s| ==> s[i] == Credited(h, lo + i, lo + i)
    ensures SumSeq(s) == Credited(h, lo, lo + |s| - 1)
    decreases |s|
  {
    if s == [] {
      NothingCredited(h, lo, lo - 1);
    } else {
      SumOfSeconds(s[..|s| - 1], h, lo);
      if |s| > 1 {
        CreditedSplit(h, lo, lo + |s| - 2, lo + |s| - 1);
      }
    }
  }

  /** The ring read from its oldest slot to its newest. */
  lemma RotatedSlot(w: Window, h: seq<Credit>, i: nat)
    requires Ring(w, h) && i < DEPTH
    ensures var k := w.lastIdx + 1;
            (w.buckets[k..] + w.buckets[..k])[i] == Credited(h, w.lastTs - (DEPTH - 1) + i, w.lastTs - (DEPTH - 1) + i)
  {
    assert SlotRight(w, h, DEPTH - 1 - i);
  }

  lemma RingSum(w: Window, h: seq<Credit>)
    requires Ring(w, h)
    ensures SumSeq(w.buckets) == Credited(h, w.lastTs - (DEPTH - 1), w.lastTs)
  {
    var k := w.lastIdx + 1;
    var s := w.buckets[k..] + w.buckets[..k];
    SumConcat(w.buckets[k..], w.buckets[..k]);
    SumConcat(w.buckets[..k], w.buckets[k..]);
    assert w.buckets[..k] + w.buckets[k..] == w.buckets;
    forall i | 0 <= i < |s|
      ensures s[i] == Credited(h, w.lastTs - (DEPTH - 1) + i, w.lastTs - (DEPTH - 1) + i)
    {
      RotatedSlot(w, h, i);
    }
    SumOfSeconds(s, h, w.lastTs - (DEPTH - 1));
  }

  lemma ReadIsTrue(w: Window, h: seq<Credit>, now: int)
    requires Ring(w, h) && 0 < now
    ensures var r := AfterRead(w, now);
      var newest := Later(w.lastTs, now);
      && r.buckets[r.lastIdx] == Credited(h, newest, newest)
      && SumSeq(r.buckets) == Credited(h, newest - 59, newest)
  {
    AdvanceRing(w, h, now);
    var r := AfterRead(w, now);
    assert SlotRight(r, h, 0);
    RingSum(r, h);
  }

  /** After every run a read reports the bytes of the latest second, and sums up
      those of the sixty seconds up to it. */
  lemma {:induction false} RatesAreTrue(ops: seq<Op>, now: int)
    requires 0 < now && forall i :: 0 <= i < |ops| ==> 0 < ops[i].at
    ensures var r, h := AfterRead(Run(Empty(), ops), now), Credits(0, ops);
      var newest := Later(Latest(0, ops), now);
      && r.buckets[r.lastIdx] == Credited(h, newest, newest)
      && SumSeq(r.buckets) == Credited(h, newest - 59, newest)
  {
    StartRing(ops);
    var w := Run(Empty(), ops);
    assert w.lastTs == Latest(0, ops);
    ReadIsTrue(w, Credits(0, ops), now);
  }

  /** A gap of sixty seconds or more leaves nothing in the ring. */
  lemma {:induction false} LongGapClears(ops: seq<Op>, ts: int)
    requires forall i :: 0 <= i < |ops| ==> 0 < ops[i].at
    requires 0 < ts && ts >= Latest(0, ops) + 60
    ensures forall i :: 0 <= i < DEPTH ==> AfterAdvance(Run(Empty(), ops), ts).buckets[i] == 0
  {
    StartRing(ops);
    GapClears(Run(Empty(), ops), Credits(0, ops), ts);
  }

  lemma GapClears(w: Window, h: seq<Credit>, ts: int)
    requires Ring(w, h) && 0 < ts && ts >= w.lastTs + 60
    ensures forall i :: 0 <= i < DEPTH ==> AfterAdvance(w, ts).buckets[i] == 0
  {
    AdvanceRing(w, h, ts);
    var a := AfterAdvance(w, ts);
    forall i | 0 <= i < DEPTH
      ensures a.buckets[i] == 0
    {
      var back := (a.lastIdx + DEPTH - i) % DEPTH;
      assert SlotRight(a, h, back);
      assert Slot(a, back) == i;
      NothingCredited(h, a.lastTs - back, a.lastTs - back);
    }
  }

  /** Division truncates toward zero: what is left over is smaller than the
      divisor and has the sign of the dividend. */
  lemma GoDivTruncates(a: int, b: int)
    requires 0 < b
    ensures var left := a - b * GoDiv(a, b);
      -b < left < b && (0 < left ==> 0 < a) && (left < 0 ==> a < 0)
  {
    if a >= 0 {
      DivParts(a, b);
    } else {
      DivParts(-a, b);
      MulNeg(b, (-a) / b);
    }
  }

  lemma DivParts(x: nat, b: int)
    requires 0 < b
    ensures 0 <= x - b * (x / b) < b
  {
    assert x == b * (x / b) + x % b;
  }

  lemma MulNeg(b: int, q: int)
    ensures b * -q == -(b * q)
  {
  }
}
