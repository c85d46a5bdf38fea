/** The log flood guard (internal/logging/sample.go): repeated messages are
    suppressed beyond a maximum per window, with stale counts pruned lazily. */
module FloodGuard {
  import opened Collections

  datatype Message = Message(text: string)

  datatype Count = Count(first: int, count: nat)

  /** What happens to a record: logged, replaced by a summary line, or dropped. */
  datatype Verdict = Pass | Summary(suppressed: nat) | Drop

  datatype Guard = Guard(window: int, max: nat, dropEvery: int, seen: map<Message, Count>, lastPrune: int)

  function AfterPrune(g: Guard, now: int): (r: Guard)
  {
    if now - g.lastPrune < g.window then g
    else g.(seen := map k | k in g.seen && now - g.seen[k].first <= g.window :: g.seen[k], lastPrune := now)
  }

  function AfterHandle(g: Guard, key: Message, now: int): (r: (Guard, Verdict))
  {
    var p := AfterPrune(g, now);
    var st := if key in p.seen then p.seen[key] else Count(now, 0);
    var n := st.count + 1;
    (p.(seen := p.seen[key := Count(st.first, n)]),
     if n <= p.max then Pass
     else if p.dropEvery > 0 && (n - p.max) % p.dropEvery == 0 then Summary(n - p.max)
     else Drop)
  }

  class Sampler {
    const window: int
    const max: nat
    const dropEvery: int
    var seen: map<Message, Count>
    var lastPrune: int

    ghost function Abs(): (g: Guard)
      reads this
    {
      Guard(window, max, dropEvery, seen, lastPrune)
    }

    /** The zero time stands for 0; a non-positive maximum never gets here, the
        handler is then left unguarded. */
    constructor (window: int, max: nat, dropEvery: int)
      ensures Abs() == Guard(window, max, dropEvery, map[], 0)
    {
      this.window, this.max, this.dropEvery := window, max, dropEvery;
      seen, lastPrune := map[], 0;
    }

    method Prune(now: int)
      modifies this
      ensures Abs() == AfterPrune(old(Abs()), now)
    {
      if now - lastPrune < window {
        return;
      }
      var todo := seen.Keys;
      while todo != {}
        invariant todo <= old(seen).Keys && lastPrune == old(lastPrune)
        invariant seen == map k | k in old(seen) && (k in todo || now - old(seen)[k].first <= window) :: old(seen)[k]
        decreases todo
      {
        var k :| k in todo;
        if now - seen[k].first > window {
          seen := seen - {k};
        }
        todo := todo - {k};
      }
      lastPrune := now;
    }

    method Handle(key: Message, now: int) returns (v: Verdict)
      modifies this
      ensures (Abs(), v) == AfterHandle(old(Abs()), key, now)
    {
      Prune(now);
      var st := Count(now, 0);
      if key in seen {
        st := seen[key];
      }
      st := Count(st.first, st.count + 1);
      seen := seen[key := st];
      if st.count <= max {
        return Pass;
      }
      var dropped := st.count - max;
      if dropEvery > 0 && dropped > 0 && dropped % dropEvery == 0 {
        return Summary(dropped);
      }
      return Drop;
    }
  }

  // ---- runs -------------------------------------------------------------------

  datatype Event = Event(key: Message, at: int)

  ghost predicate Clocked(t: int, evs: seq<Event>)
    decreases |evs|
  {
    evs != [] ==> t <= evs[0].at && Clocked(evs[0].at, evs[1..])
  }

  function Run(g: Guard, evs: seq<Event>): (r: Guard)
    decreases |evs|
  {
    if evs == [] then g else Run(AfterHandle(g, evs[0].key, evs[0].at).0, evs[1..])
  }

  /** When records of message m were logged as such. */
  function Passes(g: Guard, evs: seq<Event>, m: Message): (times: seq<int>)
    decreases |evs|
  {
    if evs == [] then []
    else
      var (g', v) := AfterHandle(g, evs[0].key, evs[0].at);
      (if evs[0].key == m && v == Pass then [evs[0].at] else []) + Passes(g', evs[1..], m)
  }

  /** The passes of one record followed by those of the rest. */
  lemma PassesUnfold(g: Guard, evs: seq<Event>, m: Message)
    requires evs != []
    ensures var (g', v) := AfterHandle(g, evs[0].key, evs[0].at);
            var later := Passes(g', evs[1..], m);
            Passes(g, evs, m) == if evs[0].key == m && v == Pass then [evs[0].at] + later else later
  {
    var g' := AfterHandle(g, evs[0].key, evs[0].at).0;
    assert [] + Passes(g', evs[1..], m) == Passes(g', evs[1..], m);
  }

  // ---- at most 2*max - 1 per window -------------------------------------------

  ghost predicate Ordered(times: seq<int>) {
    forall a, b :: 0 <= a < b < |times| ==> times[a] <= times[b]
  }

  /** Different counts started more than a window apart, and the earlier one had
      finished logging when the later one started. */
  ghost predicate Gapped(times: seq<int>, firsts: seq<int>, window: int)
    requires |times| == |firsts|
  {
    forall a, b :: 0 <= a < b < |firsts| ==>
      firsts[a] == firsts[b] || (firsts[a] + window < firsts[b] && times[a] <= firsts[b])
  }

  /** No count lets through more than max records. */
  ghost predicate Capped(firsts: seq<int>, max: nat) {
    forall a, b :: 0 <= a < |firsts| && b == a + max && b < |firsts| ==> firsts[a] != firsts[b]
  }

  /** The first record of each count is logged when the count starts. */
  ghost predicate Headed(times: seq<int>, firsts: seq<int>)
    requires |times| == |firsts|
  {
    && (forall k :: 0 <= k < |times| ==> firsts[k] <= times[k])
    && (forall k :: 0 <= k < |times| ==> times[k] == firsts[k] || (0 < k && firsts[k - 1] == firsts[k]))
  }

  /** Logged times, each with the `first` of the count that let it through. */
  ghost predicate Shaped(times: seq<int>, firsts: seq<int>, window: int, max: nat) {
    |times| == |firsts| && Ordered(times) && Gapped(times, firsts, window) && Capped(firsts, max)
      && Headed(times, firsts)
  }

  /** The last `own` logged records belong to the count that started at first,
      the ones before to counts more than a window older. */
  ghost predicate Recently(times: seq<int>, firsts: seq<int>, own: nat, first: int, window: int) {
    && |times| == |firsts| && own <= |firsts|
    && (forall k :: |firsts| - own <= k < |firsts| ==> firsts[k] == first)
    && (forall k :: 0 <= k < |firsts| - own ==> firsts[k] + window < first && times[k] <= first)
  }

  /** How the current count of the message relates to what was logged. */
  ghost predicate Linked(times: seq<int>, firsts: seq<int>, st: Option<Count>, t: int, window: int, max: nat) {
    && |times| == |firsts|
    && (forall k :: 0 <= k < |times| ==> times[k] <= t)
    && match st
       case None => forall k :: 0 <= k < |firsts| ==> firsts[k] + window < t
       case Some(c) =>
         && 1 <= c.count && c.first <= t
         && Recently(times, firsts, if c.count < max then c.count else max, c.first, window)
  }

  function Lookup(g: Guard, m: Message): Option<Count> {
    if m in g.seen then Some(g.seen[m]) else None
  }

  lemma GappedSnoc(times: seq<int>, firsts: seq<int>, own: nat, first: int, now: int, window: int)
    requires Recently(times, firsts, own, first, window) && Gapped(times, firsts, window)
    ensures Gapped(times + [now], firsts + [first], window)
  {
  }

  lemma CappedSnoc(times: seq<int>, firsts: seq<int>, own: nat, first: int, window: int, max: nat)
    requires 0 <= window && own < max && Recently(times, firsts, own, first, window) && Capped(firsts, max)
    ensures Capped(firsts + [first], max)
  {
  }

  lemma RecentlySnoc(times: seq<int>, firsts: seq<int>, own: nat, first: int, now: int, window: int)
    requires Recently(times, firsts, own, first, window)
    ensures Recently(times + [now], firsts + [first], own + 1, first, window)
  {
  }

  lemma HeadedSnoc(times: seq<int>, firsts: seq<int>, own: nat, first: int, now: int, window: int)
    requires Recently(times, firsts, own, first, window) && Headed(times, firsts)
    requires first <= now && (own == 0 ==> first == now)
    ensures Headed(times + [now], firsts + [first])
  {
    if own > 0 {
      assert firsts[|firsts| - 1] == first;
    }
  }

  lemma OrderedSnoc(times: seq<int>, now: int)
    requires Ordered(times) && forall k :: 0 <= k < |times| ==> times[k] <= now
    ensures Ordered(times + [now]) && forall k :: 0 <= k < |times + [now]| ==> (times + [now])[k] <= now
  {
  }

  /** One more record is logged by the count st (or by a new one). */
  lemma PassShaped(times: seq<int>, firsts: seq<int>, st: Option<Count>, now: int, window: int, max: nat)
    requires 0 <= window && 0 < max
    requires Shaped(times, firsts, window, max) && Linked(times, firsts, st, now, window, max)
    requires st.Some? ==> st.value.count < max
    ensures var c := if st.Some? then Count(st.value.first, st.value.count + 1) else Count(now, 1);
      && Shaped(times + [now], firsts + [c.first], window, max)
      && Linked(times + [now], firsts + [c.first], Some(c), now, window, max)
  {
    var own, first := if st.Some? then st.value.count else 0, if st.Some? then st.value.first else now;
    assert Recently(times, firsts, own, first, window);
    GappedSnoc(times, firsts, own, first, now, window);
    CappedSnoc(times, firsts, own, first, window, max);
    RecentlySnoc(times, firsts, own, first, now, window);
    HeadedSnoc(times, firsts, own, first, now, window);
    OrderedSnoc(times, now);
  }

  lemma PruneLinked(times: seq<int>, firsts: seq<int>, g: Guard, m: Message, t: int, now: int)
    requires 0 <= g.window && t <= now
    requires Linked(times, firsts, Lookup(g, m), t, g.window, g.max)
    ensures Linked(times, firsts, Lookup(AfterPrune(g, now), m), now, g.window, g.max)
  {
  }

  /** One record, whatever its message and fate, keeps the shape. */
  lemma HandleShaped(times: seq<int>, firsts: seq<int>, g: Guard, ev: Event, m: Message, t: int)
    returns (times': seq<int>, firsts': seq<int>)
    requires 0 <= g.window && 0 < g.max && t <= ev.at
    requires Shaped(times, firsts, g.window, g.max) && Linked(times, firsts, Lookup(g, m), t, g.window, g.max)
    ensures var (g', v) := AfterHandle(g, ev.key, ev.at);
      && times' == (if ev.key == m && v == Pass then times + [ev.at] else times)
      && g'.window == g.window && g'.max == g.max
      && Shaped(times', firsts', g.window, g.max)
      && Linked(times', firsts', Lookup(g', m), ev.at, g.window, g.max)
  {
    var p := AfterPrune(g, ev.at);
    PruneLinked(times, firsts, g, m, t, ev.at);
    times', firsts' := times, firsts;
    if ev.key == m && AfterHandle(g, ev.key, ev.at).1 == Pass {
      PassShaped(times, firsts, Lookup(p, m), ev.at, g.window, g.max);
      times', firsts' := times + [ev.at], firsts + [if m in p.seen then p.seen[m].first else ev.at];
    }
  }

  lemma {:induction false} RunShaped(times: seq<int>, firsts: seq<int>, g: Guard, evs: seq<Event>, m: Message, t: int)
    returns (all: seq<int>)
    requires 0 <= g.window && 0 < g.max && Clocked(t, evs)
    requires Shaped(times, firsts, g.window, g.max) && Linked(times, firsts, Lookup(g, m), t, g.window, g.max)
    ensures Shaped(times + Passes(g, evs, m), all, g.window, g.max)
    decreases |evs|
  {
    if evs == [] {
      assert times + [] == times;
      all := firsts;
    } else {
      var g' := AfterHandle(g, evs[0].key, evs[0].at).0;
      var times', firsts' := HandleShaped(times, firsts, g, evs[0], m, t);
      all := RunShaped(times', firsts', g', evs[1..], m, evs[0].at);
      PassesUnfold(g, evs, m);
      Reassociate(times, evs[0].at, Passes(g', evs[1..], m));
    }
  }

  lemma Reassociate(a: seq<int>, x: int, b: seq<int>)
    ensures a + [x] + b == a + ([x] + b)
  {
  }

  /** Logged times of one message: any 2*max of them in a row span more than
      the window. */
  lemma ShapedBound(times: seq<int>, firsts: seq<int>, window: int, max: nat, i: nat)
    requires 0 <= window && 0 < max && Shaped(times, firsts, window, max)
    requires i + 2 * max - 1 < |times|
    ensures times[i + 2 * max - 1] - times[i] > window
  {
    var j := i + 2 * max - 1;
    if times[i] == firsts[i] {
      var p := i + max;
      assert firsts[i] != firsts[p];
      assert times[p] <= times[j] || p == j;
    } else {
      assert 0 < i && firsts[i - 1] == firsts[i];
      var p := i - 1 + max;
      assert firsts[i - 1] != firsts[p];
      assert firsts[p] != firsts[p + max];
      assert i < p;
    }
  }

  ghost predicate Starting(g: Guard) {
    g.seen == map[] && g.lastPrune == 0 && 0 < g.max
  }

  /** In every run on a clock that does not go back, an interval no longer than
      the window sees at most 2*max - 1 ordinary records of one message. */
  lemma AtMostTwiceMaxPerWindow(g: Guard, evs: seq<Event>, m: Message, i: nat)
    requires Starting(g) && Clocked(0, evs)
    requires i + 2 * g.max - 1 < |Passes(g, evs, m)|
    ensures Passes(g, evs, m)[i + 2 * g.max - 1] - Passes(g, evs, m)[i] > g.window
  {
    if g.window >= 0 {
      var firsts := StartShaped(g, evs, m);
      ShapedBound(Passes(g, evs, m), firsts, g.window, g.max, i);
    } else {
      PassesOrdered(g, evs, m, 0);
    }
  }

  lemma StartShaped(g: Guard, evs: seq<Event>, m: Message) returns (firsts: seq<int>)
    requires Starting(g) && Clocked(0, evs) && 0 <= g.window
    ensures Shaped(Passes(g, evs, m), firsts, g.window, g.max)
  {
    firsts := RunShaped([], [], g, evs, m, 0);
    assert [] + Passes(g, evs, m) == Passes(g, evs, m);
  }

  lemma {:induction false} PassesOrdered(g: Guard, evs: seq<Event>, m: Message, t: int)
    requires Clocked(t, evs)
    ensures Ordered(Passes(g, evs, m))
    ensures forall k :: 0 <= k < |Passes(g, evs, m)| ==> t <= Passes(g, evs, m)[k]
    decreases |evs|
  {
    if evs != [] {
      PassesOrdered(AfterHandle(g, evs[0].key, evs[0].at).0, evs[1..], m, evs[0].at);
      PassesUnfold(g, evs, m);
    }
  }

  // ---- and the bound is met ------------------------------------------------------

  function Burst(key: Message, at: int, n: nat): (evs: seq<Event>)
    ensures |evs| == n
  {
    if n == 0 then [] else [Event(key, at)] + Burst(key, at, n - 1)
  }

  ghost function Counted(g: Guard, m: Message, first: int, n: nat): Guard {
    g.(seen := g.seen[m := Count(first, n)])
  }

  /** One record counted within the maximum, no prune due. */
  lemma CountOne(g: Guard, m: Message, first: int, c: nat, at: int, rest: seq<Event>)
    requires at - g.lastPrune < g.window
    requires m in g.seen && g.seen[m] == Count(first, c) && c < g.max
    ensures Passes(g, [Event(m, at)] + rest, m) == [at] + Passes(Counted(g, m, first, c + 1), rest, m)
  {
    var evs := [Event(m, at)] + rest;
    assert AfterHandle(g, m, at) == (Counted(g, m, first, c + 1), Pass);
    assert evs[1..] == rest;
    PassesUnfold(g, evs, m);
  }

  /** n records at one instant, no prune due: the count grows by n, and they are
      logged while it stays within the maximum. */
  lemma {:induction false} BurstPasses(g: Guard, m: Message, first: int, c: nat, n: nat, top: nat, at: int,
                                       rest: seq<Event>)
    requires at - g.lastPrune < g.window && c + n == top <= g.max
    ensures Passes(Counted(g, m, first, c), Burst(m, at, n) + rest, m)
         == Repeat(at, n) + Passes(Counted(g, m, first, top), rest, m)
    decreases n
  {
    if n == 0 {
      assert Burst(m, at, n) + rest == rest;
      assert Repeat(at, n) == [];
    } else {
      BurstPasses(g, m, first, c + 1, n - 1, top, at, rest);
      BurstMore(g, m, first, c, at, n, rest, Passes(Counted(g, m, first, top), rest, m));
    }
  }

  /** One more record in front of a burst. */
  lemma BurstMore(g: Guard, m: Message, first: int, c: nat, at: int, n: nat, rest: seq<Event>, later: seq<int>)
    requires 0 < n && at - g.lastPrune < g.window && c < g.max
    requires Passes(Counted(g, m, first, c + 1), Burst(m, at, n - 1) + rest, m) == Repeat(at, n - 1) + later
    ensures Passes(Counted(g, m, first, c), Burst(m, at, n) + rest, m) == Repeat(at, n) + later
  {
    BurstTail(m, at, n, rest);
    CountOne(Counted(g, m, first, c), m, first, c, at, Burst(m, at, n - 1) + rest);
    CountedTwice(g, m, first, c, c + 1);
    RepeatHead(at, n, later);
  }

  lemma CountedTwice(g: Guard, m: Message, first: int, a: nat, b: nat)
    ensures Counted(Counted(g, m, first, a), m, first, b) == Counted(g, m, first, b)
  {
  }

  lemma RepeatHead(at: int, n: nat, rest: seq<int>)
    requires 0 < n
    ensures Repeat(at, n) + rest == [at] + (Repeat(at, n - 1) + rest)
  {
  }

  lemma BurstTail(m: Message, at: int, n: nat, rest: seq<Event>)
    requires 0 < n
    ensures Burst(m, at, n) + rest == [Event(m, at)] + (Burst(m, at, n - 1) + rest)
    ensures (Burst(m, at, n) + rest)[1..] == Burst(m, at, n - 1) + rest
  {
  }

  lemma {:induction false} BurstClocked(m: Message, at: int, n: nat, t: int, rest: seq<Event>)
    requires t <= at && Clocked(at, rest)
    ensures Clocked(t, Burst(m, at, n) + rest)
  {
    var evs := Burst(m, at, n) + rest;
    if n == 0 {
      assert evs == rest;
      assert rest != [] ==> t <= rest[0].at;
    } else {
      assert evs[1..] == Burst(m, at, n - 1) + rest;
      BurstClocked(m, at, n - 1, at, rest);
    }
  }

  /** One record; another message, a window later, triggers a prune that keeps its
      count; max - 1 more just before the second window ends, and max more when
      it ends: all are logged, so 2*max - 1 pass within one tick. */
  function Worst(m: Message, other: Message, window: int, max: nat): seq<Event>
    requires 0 < max
  {
    [Event(m, 0)] + ([Event(other, window)]
    + (Burst(m, 2 * window - 1, max - 1) + ([Event(m, 2 * window)] + Burst(m, 2 * window, max - 1))))
  }

  lemma {:induction false} WorstCaseOccurs(g: Guard, m: Message, other: Message)
    requires Starting(g) && 0 < g.window && 1 < g.max && other != m
    ensures Clocked(0, Worst(m, other, g.window, g.max))
    ensures var times := Passes(g, Worst(m, other, g.window, g.max), m);
            |times| == 2 * g.max && times[2 * g.max - 1] - times[1] == 1
  {
    var w, max := g.window, g.max;
    WorstClocked(m, other, w, max);
    var tail := [Event(m, 2 * w)] + Burst(m, 2 * w, max - 1);
    var middle := Burst(m, 2 * w - 1, max - 1) + tail;
    var g1 := g.(seen := map[m := Count(0, 1)]);
    var g2 := g1.(seen := map[m := Count(0, 1), other := Count(w, 1)], lastPrune := w);
    OpeningRecord(g, m, [Event(other, w)] + middle);
    OtherRecord(g1, m, other, middle);
    assert Counted(g2, m, 0, 1) == g2;
    BurstPasses(g2, m, 0, 1, max - 1, max, 2 * w - 1, tail);
    FinalBurst(Counted(g2, m, 0, max), m, other, w);
    WorstTimes(w, max, Passes(g, Worst(m, other, w, max), m));
  }

  // ---- when the documented bound holds -------------------------------------------

  /** More than max records of the message never fall into one window. */
  ghost predicate AtMost(times: seq<int>, max: nat, window: int) {
    forall i, j :: 0 <= i && j == i + max && j < |times| ==> times[j] - times[i] > window
  }

  /** The comment on the sampler promises at most max identical messages within
      the window. It holds of every run if and only if the maximum is one, or
      the window is not positive. */
  lemma DocumentedBoundIff(g: Guard, m: Message)
    requires Starting(g)
    ensures (forall evs :: Clocked(0, evs) ==> AtMost(Passes(g, evs, m), g.max, g.window))
       <==> g.max == 1 || g.window <= 0
  {
    if g.window > 0 && g.max > 1 {
      var other := Message(m.text + "'");
      assert |other.text| == |m.text| + 1;
      WorstExceeds(g, m, other);
    } else {
      forall evs | Clocked(0, evs)
        ensures AtMost(Passes(g, evs, m), g.max, g.window)
      {
        BoundHolds(g, evs, m);
      }
    }
  }

  lemma WorstExceeds(g: Guard, m: Message, other: Message)
    requires Starting(g) && 0 < g.window && 1 < g.max && other != m
    ensures Clocked(0, Worst(m, other, g.window, g.max))
    ensures !AtMost(Passes(g, Worst(m, other, g.window, g.max), m), g.max, g.window)
  {
    WorstCaseOccurs(g, m, other);
    PassesOrdered(g, Worst(m, other, g.window, g.max), m, 0);
    var times := Passes(g, Worst(m, other, g.window, g.max), m);
    assert times[1 + g.max] <= times[2 * g.max - 1];
  }

  lemma BoundHolds(g: Guard, evs: seq<Event>, m: Message)
    requires Starting(g) && Clocked(0, evs) && (g.max == 1 || g.window <= 0)
    ensures AtMost(Passes(g, evs, m), g.max, g.window)
  {
    if g.window < 0 {
      PassesOrdered(g, evs, m, 0);
    } else if g.window == 0 {
      InstantBound(g, evs, m, 0);
    } else {
      forall i, j | 0 <= i && j == i + g.max && j < |Passes(g, evs, m)|
        ensures Passes(g, evs, m)[j] - Passes(g, evs, m)[i] > g.window
      {
        AtMostTwiceMaxPerWindow(g, evs, m, i);
      }
    }
  }

  /** How many more records of m can be logged at instant t. */
  ghost function Room(g: Guard, m: Message, t: int): nat {
    if m in g.seen && g.seen[m].first == t
    then if g.seen[m].count < g.max then g.max - g.seen[m].count else 0
    else g.max
  }

  /** Logged times from t on, of which at most `room` at t itself. */
  ghost predicate Instants(times: seq<int>, t: int, room: nat, max: nat) {
    && Ordered(times)
    && (forall k :: 0 <= k < |times| ==> t <= times[k])
    && AtMost(times, max, 0)
    && (room < |times| ==> t < times[room])
  }

  /** With a window of zero every call prunes, and only a count started at this
      very instant survives. */
  lemma HandleAtInstant(g: Guard, ev: Event, m: Message, t: int)
    requires g.window == 0 && 0 < g.max && g.lastPrune <= t <= ev.at
    requires m in g.seen ==> g.seen[m].first <= t
    ensures var (g', v) := AfterHandle(g, ev.key, ev.at);
            var room := if ev.at == t then Room(g, m, t) else g.max;
      && g'.window == 0 && g'.max == g.max && g'.lastPrune == ev.at && (m in g'.seen ==> g'.seen[m].first <= ev.at)
      && (ev.key != m ==> Room(g', m, ev.at) == room)
      && (ev.key == m ==> (v == Pass <==> 0 < room) && Room(g', m, ev.at) == if 0 < room then room - 1 else 0)
  {
    var p := AfterPrune(g, ev.at);
    assert m in p.seen ==> p.seen[m] == g.seen[m] && p.seen[m].first == ev.at == t;
    assert Room(p, m, ev.at) == if ev.at == t then Room(g, m, t) else g.max;
  }

  lemma InstantsLater(times: seq<int>, t: int, room: nat, later: nat, max: nat, at: int)
    requires t <= at && Instants(times, at, later, max) && (at == t ==> later == room)
    ensures Instants(times, t, room, max)
  {
  }

  lemma InstantsMore(times: seq<int>, at: int, room: nat, max: nat)
    requires 0 < room <= max && Instants(times, at, room - 1, max)
    ensures Instants([at] + times, at, room, max)
  {
    var all := [at] + times;
    forall i, j | 0 <= i && j == i + max && j < |all|
      ensures all[j] - all[i] > 0
    {
      if i == 0 {
        assert times[room - 1] <= times[j - 1];
      } else {
        assert times[j - 1] - times[i - 1] > 0;
      }
    }
  }

  lemma {:induction false} InstantBound(g: Guard, evs: seq<Event>, m: Message, t: int)
    requires g.window == 0 && 0 < g.max && g.lastPrune <= t && Clocked(t, evs)
    requires m in g.seen ==> g.seen[m].first <= t
    ensures Instants(Passes(g, evs, m), t, Room(g, m, t), g.max)
    decreases |evs|
  {
    if evs != [] {
      var at := evs[0].at;
      var (g', v) := AfterHandle(g, evs[0].key, at);
      var room := if at == t then Room(g, m, t) else g.max;
      HandleAtInstant(g, evs[0], m, t);
      InstantBound(g', evs[1..], m, at);
      PassesUnfold(g, evs, m);
      var later := Passes(g', evs[1..], m);
      if evs[0].key == m && v == Pass {
        InstantsMore(later, at, room, g.max);
      }
      InstantsLater(Passes(g, evs, m), t, Room(g, m, t), room, g.max, at);
    }
  }

  lemma OpeningRecord(g: Guard, m: Message, rest: seq<Event>)
    requires Starting(g) && 0 < g.window
    ensures Passes(g, [Event(m, 0)] + rest, m) == [0] + Passes(g.(seen := map[m := Count(0, 1)]), rest, m)
  {
    var evs := [Event(m, 0)] + rest;
    assert AfterPrune(g, 0) == g;
    assert AfterHandle(g, m, 0) == (g.(seen := map[m := Count(0, 1)]), Pass);
    assert evs[1..] == rest;
    PassesUnfold(g, evs, m);
  }

  /** A record of another message, a window later, prunes nothing. */
  lemma OtherRecord(g: Guard, m: Message, other: Message, rest: seq<Event>)
    requires 0 < g.window && 0 < g.max && g.lastPrune == 0 && other != m && g.seen == map[m := Count(0, 1)]
    ensures Passes(g, [Event(other, g.window)] + rest, m)
         == Passes(g.(seen := map[m := Count(0, 1), other := Count(g.window, 1)], lastPrune := g.window), rest, m)
  {
    var evs := [Event(other, g.window)] + rest;
    var g' := g.(seen := map[m := Count(0, 1), other := Count(g.window, 1)], lastPrune := g.window);
    assert AfterPrune(g, g.window) == g.(lastPrune := g.window);
    assert AfterHandle(g, other, g.window).0 == g';
    assert evs[1..] == rest;
    PassesUnfold(g, evs, m);
  }

  lemma WorstTimes(w: int, max: nat, times: seq<int>)
    requires 1 < max && times == [0] + (Repeat(2 * w - 1, max - 1) + ([2 * w] + Repeat(2 * w, max - 1)))
    ensures |times| == 2 * max && times[2 * max - 1] == 2 * w && times[1] == 2 * w - 1
  {
  }

  lemma WorstClocked(m: Message, other: Message, w: int, max: nat)
    requires 0 < w && 1 < max
    ensures Clocked(0, Worst(m, other, w, max))
  {
    var burst := Burst(m, 2 * w, max - 1);
    var tail := [Event(m, 2 * w)] + burst;
    var middle := Burst(m, 2 * w - 1, max - 1) + tail;
    assert burst + [] == burst;
    BurstClocked(m, 2 * w, max - 1, 2 * w, []);
    assert tail[1..] == burst;
    BurstClocked(m, 2 * w - 1, max - 1, w, tail);
    assert ([Event(other, w)] + middle)[1..] == middle;
    assert Worst(m, other, w, max)[1..] == [Event(other, w)] + middle;
  }

  /** The burst whose first record prunes the old count. */
  lemma FinalBurst(g: Guard, m: Message, other: Message, w: int)
    requires g.window == w && 0 < w && g.lastPrune == w && 1 < g.max && other != m
    requires g.seen == map[m := Count(0, g.max), other := Count(w, 1)]
    ensures Passes(g, [Event(m, 2 * w)] + Burst(m, 2 * w, g.max - 1), m) == [2 * w] + Repeat(2 * w, g.max - 1)
  {
    var n := g.max - 1;
    var evs := [Event(m, 2 * w)] + Burst(m, 2 * w, n);
    var g' := g.(seen := map[other := Count(w, 1)][m := Count(2 * w, 1)], lastPrune := 2 * w);
    assert AfterPrune(g, 2 * w) == g.(seen := map[other := Count(w, 1)], lastPrune := 2 * w);
    assert AfterHandle(g, m, 2 * w) == (g', Pass);
    PassesUnfold(g, evs, m);
    assert evs[1..] == Burst(m, 2 * w, n) + [];
    assert Counted(g', m, 2 * w, 1) == g';
    BurstPasses(g', m, 2 * w, 1, n, 1 + n, 2 * w, []);
    assert Repeat(2 * w, n) + [] == Repeat(2 * w, n);
  }

  // ---- counts never rest on old history ----------------------------------------

  ghost predicate Recent(g: Guard, t: int) {
    && g.lastPrune <= t
    && (forall k :: k in g.seen ==> g.lastPrune - g.seen[k].first <= g.window && g.seen[k].first <= t)
  }

  lemma {:induction false} RunsStayRecent(g: Guard, evs: seq<Event>, t: int) returns (end: int)
    requires 0 < g.window && Recent(g, t) && Clocked(t, evs)
    ensures Recent(Run(g, evs), end) && t <= end
    ensures forall i :: 0 <= i < |evs| ==> evs[i].at <= end
    decreases |evs|
  {
    if evs == [] {
      end := t;
    } else {
      var g' := AfterHandle(g, evs[0].key, evs[0].at).0;
      end := RunsStayRecent(g', evs[1..], evs[0].at);
    }
  }

  /** After every run, once the guard has pruned at a later time every count it
      keeps started less than two windows ago. */
  lemma SurvivorsAreYoung(g: Guard, evs: seq<Event>, now: int, k: Message)
    requires Starting(g) && 0 < g.window && Clocked(0, evs)
    requires 0 <= now && forall i :: 0 <= i < |evs| ==> evs[i].at <= now
    requires k in AfterPrune(Run(g, evs), now).seen
    ensures now - AfterPrune(Run(g, evs), now).seen[k].first < 2 * g.window
  {
    var end := RunsStayRecent(g, evs, 0);
    RunKeepsWindow(g, evs);
  }

  lemma {:induction false} RunKeepsWindow(g: Guard, evs: seq<Event>)
    ensures Run(g, evs).window == g.window && Run(g, evs).max == g.max
    decreases |evs|
  {
    if evs != [] {
      RunKeepsWindow(AfterHandle(g, evs[0].key, evs[0].at).0, evs[1..]);
    }
  }

  // ---- what happens to each record -------------------------------------------------------

  /** How many of the records are of message m. */
  function CountOf(evs: seq<Event>, m: Message): nat {
    if evs == [] then 0 else CountOf(evs[..|evs| - 1], m) + if evs[|evs| - 1].key == m then 1 else 0
  }

  /** The n-th record of a count: the first max pass, and of those after them the
      k-th is reported as k suppressed ones if the summary is on and its interval
      divides k, and dropped otherwise. */
  ghost predicate Rightly(v: Verdict, n: nat, max: nat, dropEvery: int) {
    && (v == Pass <==> n <= max)
    && (n > max && dropEvery > 0 && (n - max) % dropEvery == 0 ==> v == Summary(n - max))
    && (n > max && !(dropEvery > 0 && (n - max) % dropEvery == 0) ==> v == Drop)
  }

  ghost predicate NoPruneDue(g: Guard, evs: seq<Event>) {
    forall i :: 0 <= i < |evs| ==> evs[i].at - g.lastPrune < g.window
  }

  ghost function Counts(g: Guard, m: Message): nat {
    if m in g.seen then g.seen[m].count else 0
  }

  lemma {:induction false} RunSnoc(g: Guard, evs: seq<Event>, ev: Event)
    ensures Run(g, evs + [ev]) == AfterHandle(Run(g, evs), ev.key, ev.at).0
    decreases |evs|
  {
    if evs == [] {
      assert [] + [ev] == [ev] && [ev][1..] == [];
    } else {
      assert (evs + [ev])[1..] == evs[1..] + [ev];
      RunSnoc(AfterHandle(g, evs[0].key, evs[0].at).0, evs[1..], ev);
    }
  }

  /** Between prunes every message is counted by itself. */
  lemma {:induction false} CountsAdd(g: Guard, evs: seq<Event>, m: Message)
    requires NoPruneDue(g, evs)
    ensures var r := Run(g, evs);
      && r.window == g.window && r.max == g.max && r.dropEvery == g.dropEvery && r.lastPrune == g.lastPrune
      && Counts(r, m) == Counts(g, m) + CountOf(evs, m)
    decreases |evs|
  {
    if evs != [] {
      var n := |evs| - 1;
      assert NoPruneDue(g, evs[..n]);
      CountsAdd(g, evs[..n], m);
      RunSnoc(g, evs[..n], evs[n]);
      assert evs[..n] + [evs[n]] == evs;
    }
  }

  lemma HandledRightly(g: Guard, m: Message, at: int)
    requires at - g.lastPrune < g.window
    ensures Rightly(AfterHandle(g, m, at).1, Counts(g, m) + 1, g.max, g.dropEvery)
  {
    assert AfterPrune(g, at) == g;
  }

  /** Between prunes, the fate of every record is decided by how many records of
      its own message went before it. */
  lemma EachRecordRightly(g: Guard, evs: seq<Event>, i: nat)
    requires i < |evs| && NoPruneDue(g, evs)
    ensures var m := evs[i].key;
      Rightly(AfterHandle(Run(g, evs[..i]), m, evs[i].at).1,
              Counts(g, m) + CountOf(evs[..i], m) + 1, g.max, g.dropEvery)
  {
    var m, r := evs[i].key, Run(g, evs[..i]);
    CountsAdd(g, evs[..i], m);
    HandledRightly(r, m, evs[i].at);
    assert Counts(r, m) + 1 == Counts(g, m) + CountOf(evs[..i], m) + 1;
  }

  /** A prune within a window of the last does nothing; any other forgets exactly
      the messages whose count started more than a window ago. */
  lemma PruneOutcome(g: Guard, now: int, m: Message)
    ensures var r := AfterPrune(g, now);
      var due := now - g.lastPrune >= g.window;
      && r.lastPrune == (if due then now else g.lastPrune)
      && (m in r.seen <==> m in g.seen && !(due && now - g.seen[m].first > g.window))
      && (m in r.seen ==> r.seen[m] == g.seen[m])
  {
  }

  /** A message not counted yet starts its count with this record. */
  lemma FirstRecordStartsCount(g: Guard, m: Message, now: int)
    requires m !in AfterPrune(g, now).seen
    ensures var r := AfterHandle(g, m, now).0; m in r.seen && r.seen[m] == Count(now, 1)
  {
  }
}
