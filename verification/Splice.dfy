/** Splice (internal/tunnel/splice.go) as interleaved steps: one copier per
    direction, and a finisher that waits for both, closes both ends and
    publishes the byte counts. */
module Splice {
  import opened Collections

  /** Where a copier goroutine is. `clean` means it stopped at end of stream,
      `fatal` that its error was neither EOF nor a closed connection. */
  datatype Copier =
    | Copying
    | Writing(buf: seq<byte>)
    | Ended(clean: bool, fatal: bool)
    | Halved(clean: bool, fatal: bool)
    | Tearing
    | Finished(clean: bool)

  /** One direction: what the source's peer has sent, whether it has finished,
      how much was read, and what reached the destination's peer. */
  datatype Pipe = Pipe(
    sent: seq<byte>, eof: bool, taken: nat,
    got: seq<byte>, writeClosed: bool, canHalfClose: bool,
    copier: Copier, counter: nat)

  datatype Finisher = Waiting | ClosingB | Publishing | Over

  datatype State = State(
    toA: Pipe, toB: Pipe, aClosed: bool, bClosed: bool,
    finisher: Finisher, results: seq<(nat, nat)>)

  datatype Dir = ToA | ToB

  datatype Event =
    | Send(d: Dir, bytes: seq<byte>)
    | SendEof(d: Dir)
    | Read(d: Dir, n: nat)
    | ReadEof(d: Dir)
    | ReadFail(d: Dir, fatal: bool)
    | Write(d: Dir)
    | WriteFail(d: Dir, n: nat, fatal: bool)
    | HalfClose(d: Dir)
    | Wind(d: Dir)
    | Finish
    | CloseFromOutside(a: bool)

  const FreshPipe: Pipe := Pipe([], false, 0, [], false, true, Copying, 0)

  function Start(halfA: bool, halfB: bool): State {
    State(FreshPipe.(canHalfClose := halfA), FreshPipe.(canHalfClose := halfB), false, false, Waiting, [])
  }

  // ---- one direction ------------------------------------------------------------

  /** io.CopyBuffer and what follows it, for the direction whose source and
      destination are closed as given; n bounds a read or a partial write. */
  function PipeStep(p: Pipe, ev: Event, bufSize: nat, srcClosed: bool, dstClosed: bool): (q: Pipe)
  {
    match ev
    case Send(_, bytes) => if p.eof then p else p.(sent := p.sent + bytes)
    case SendEof(_) => p.(eof := true)
    case Read(_, n) =>
      if p.copier == Copying && !srcClosed && 0 < n <= bufSize && p.taken + n <= |p.sent|
      then p.(taken := p.taken + n, copier := Writing(p.sent[p.taken..p.taken + n])) else p
    case ReadEof(_) =>
      if p.copier == Copying && !srcClosed && p.eof && p.taken == |p.sent|
      then p.(copier := Ended(true, false), counter := |p.got|) else p
    case ReadFail(_, fatal) =>
      if p.copier == Copying then p.(copier := Ended(false, fatal), counter := |p.got|) else p
    case Write(_) =>
      if p.copier.Writing? && !dstClosed && !p.writeClosed
      then p.(got := p.got + p.copier.buf, copier := Copying) else p
    case WriteFail(_, n, fatal) =>
      if p.copier.Writing? && n <= |p.copier.buf| && (dstClosed ==> n == 0)
      then
        var got := p.got + p.copier.buf[..n];
        p.(got := got, copier := Ended(false, fatal), counter := |got|)
      else p
    case HalfClose(_) =>
      if p.copier.Ended?
      then p.(writeClosed := p.writeClosed || p.canHalfClose, copier := Halved(p.copier.clean, p.copier.fatal)) else p
    case Wind(_) =>
      if p.copier.Halved? then p.(copier := if p.copier.fatal then Tearing else Finished(p.copier.clean))
      else if p.copier.Tearing? then p.(copier := Finished(false))
      else p
    case _ => p
  }

  // ---- both directions and the finisher -----------------------------------------

  predicate Touches(ev: Event, d: Dir) {
    !ev.Finish? && !ev.CloseFromOutside? && ev.d == d
  }

  /** A fatal copier closes A, then B. */
  predicate ClosesA(s: State, ev: Event) {
    || (ev.Wind? && (var c := if ev.d == ToA then s.toA.copier else s.toB.copier; c.Halved? && c.fatal))
    || (ev == Finish && s.finisher == Waiting && s.toA.copier.Finished? && s.toB.copier.Finished?)
    || ev == CloseFromOutside(true)
  }

  predicate ClosesB(s: State, ev: Event) {
    || (ev.Wind? && (if ev.d == ToA then s.toA.copier else s.toB.copier).Tearing?)
    || (ev == Finish && s.finisher == ClosingB)
    || ev == CloseFromOutside(false)
  }

  function Step(s: State, ev: Event, bufSize: nat): (t: State)
  {
    State(
      if Touches(ev, ToA) then PipeStep(s.toA, ev, bufSize, s.bClosed, s.aClosed) else s.toA,
      if Touches(ev, ToB) then PipeStep(s.toB, ev, bufSize, s.aClosed, s.bClosed) else s.toB,
      s.aClosed || ClosesA(s, ev),
      s.bClosed || ClosesB(s, ev),
      if ev != Finish then s.finisher
      else match s.finisher
           case Waiting => if s.toA.copier.Finished? && s.toB.copier.Finished? then ClosingB else Waiting
           case ClosingB => Publishing
           case _ => Over,
      if ev == Finish && s.finisher == Publishing then s.results + [(s.toA.counter, s.toB.counter)] else s.results)
  }

  function Run(s: State, evs: seq<Event>, bufSize: nat): (t: State)
    decreases |evs|
  {
    if evs == [] then s else Run(Step(s, evs[0], bufSize), evs[1..], bufSize)
  }

  // ---- the invariant ---------------------------------------------------------------

  /** Nothing is lost or reordered between the source and the destination. */
  ghost predicate Flows(p: Pipe) {
    && p.taken <= |p.sent|
    && match p.copier
       case Copying => p.got == p.sent[..p.taken] && !p.writeClosed
       case Writing(buf) => p.got + buf == p.sent[..p.taken] && !p.writeClosed
       case Ended(clean, fatal) => Stopped(p, clean) && !p.writeClosed && !(clean && fatal)
       case Halved(clean, fatal) => Stopped(p, clean) && !(clean && fatal)
       case Tearing => Stopped(p, false)
       case Finished(clean) => Stopped(p, clean)
  }

  ghost predicate Stopped(p: Pipe, clean: bool) {
    && p.got <= p.sent
    && p.counter == |p.got|
    && (clean ==> p.eof && p.got == p.sent)
  }

  ghost predicate Orderly(s: State) {
    && (s.finisher != Waiting ==> s.toA.copier.Finished? && s.toB.copier.Finished? && s.aClosed)
    && (s.finisher == Publishing || s.finisher == Over ==> s.bClosed)
    && s.results == if s.finisher == Over then [(|s.toA.got|, |s.toB.got|)] else []
  }

  ghost predicate Inv(s: State) {
    Flows(s.toA) && Flows(s.toB) && Orderly(s)
  }

  lemma PipeKeeps(p: Pipe, ev: Event, bufSize: nat, srcClosed: bool, dstClosed: bool)
    requires Flows(p)
    ensures Flows(PipeStep(p, ev, bufSize, srcClosed, dstClosed))
    ensures p.copier.Finished? ==>
      var q := PipeStep(p, ev, bufSize, srcClosed, dstClosed);
      q.copier == p.copier && q.got == p.got && q.counter == p.counter
  {
    match ev
    case Send(_, bytes) => assert (p.sent + bytes)[..p.taken] == p.sent[..p.taken];
    case Read(d, n) => ReadFlows(p, d, n, bufSize, srcClosed, dstClosed);
    case WriteFail(d, n, fatal) => FailFlows(p, d, n, fatal, bufSize, srcClosed, dstClosed);
    case ReadEof(_) => assert p.sent[..|p.sent|] == p.sent;
    case _ =>
  }

  lemma ReadFlows(p: Pipe, d: Dir, n: nat, bufSize: nat, srcClosed: bool, dstClosed: bool)
    requires Flows(p)
    ensures Flows(PipeStep(p, Read(d, n), bufSize, srcClosed, dstClosed))
  {
    if p.taken + n <= |p.sent| {
      assert p.sent[..p.taken + n] == p.sent[..p.taken] + p.sent[p.taken..p.taken + n];
    }
  }

  lemma FailFlows(p: Pipe, d: Dir, n: nat, fatal: bool, bufSize: nat, srcClosed: bool, dstClosed: bool)
    requires Flows(p)
    ensures Flows(PipeStep(p, WriteFail(d, n, fatal), bufSize, srcClosed, dstClosed))
  {
    if p.copier.Writing? && n <= |p.copier.buf| {
      assert p.got + p.copier.buf[..n] <= p.got + p.copier.buf;
    }
  }

  lemma StepKeeps(s: State, ev: Event, bufSize: nat)
    requires Inv(s)
    ensures Inv(Step(s, ev, bufSize))
  {
    PipeKeeps(s.toA, ev, bufSize, s.bClosed, s.aClosed);
    PipeKeeps(s.toB, ev, bufSize, s.aClosed, s.bClosed);
    assert Orderly(Step(s, ev, bufSize));
  }

  lemma {:induction false} RunKeeps(s: State, evs: seq<Event>, bufSize: nat)
    requires Inv(s)
    ensures Inv(Run(s, evs, bufSize))
    decreases |evs|
  {
    if evs != [] {
      StepKeeps(s, evs[0], bufSize);
      RunKeeps(Step(s, evs[0], bufSize), evs[1..], bufSize);
    }
  }

  // ---- what it gives ------------------------------------------------------------------

  /** Under every interleaving, error and close, each peer has received a prefix
      of what the other sent. */
  lemma DeliversPrefixes(halfA: bool, halfB: bool, evs: seq<Event>, bufSize: nat)
    ensures var s := Run(Start(halfA, halfB), evs, bufSize);
            s.toA.got <= s.toA.sent && s.toB.got <= s.toB.sent
  {
    var s := Run(Start(halfA, halfB), evs, bufSize);
    RunKeeps(Start(halfA, halfB), evs, bufSize);
    PrefixOf(s.toA);
    PrefixOf(s.toB);
  }

  lemma PrefixOf(p: Pipe)
    requires Flows(p)
    ensures p.got <= p.sent
  {
    assert p.sent[..p.taken] <= p.sent;
    if p.copier.Writing? {
      assert p.got <= p.got + p.copier.buf;
    }
  }

  /** At most one result is published, only after both copiers have finished and
      both ends are closed, and it counts exactly what was delivered. */
  lemma PublishesOnceAtTheEnd(halfA: bool, halfB: bool, evs: seq<Event>, bufSize: nat)
    ensures var s := Run(Start(halfA, halfB), evs, bufSize);
      && |s.results| <= 1
      && (s.results != [] ==>
            && s.toA.copier.Finished? && s.toB.copier.Finished?
            && s.aClosed && s.bClosed
            && s.results[0] == (|s.toA.got|, |s.toB.got|))
  {
    RunKeeps(Start(halfA, halfB), evs, bufSize);
  }

  /** Once published, nothing that happens later changes what was delivered. */
  lemma {:induction false} DeliveryIsFinal(s: State, evs: seq<Event>, bufSize: nat)
    requires Inv(s) && s.results != []
    ensures var t := Run(s, evs, bufSize);
            t.toA.got == s.toA.got && t.toB.got == s.toB.got && t.results == s.results
    decreases |evs|
  {
    if evs != [] {
      StepKeeps(s, evs[0], bufSize);
      PipeKeeps(s.toA, evs[0], bufSize, s.bClosed, s.aClosed);
      PipeKeeps(s.toB, evs[0], bufSize, s.aClosed, s.bClosed);
      DeliveryIsFinal(Step(s, evs[0], bufSize), evs[1..], bufSize);
    }
  }

  ghost predicate Undisturbed(evs: seq<Event>) {
    forall i :: 0 <= i < |evs| ==> !evs[i].ReadFail? && !evs[i].WriteFail? && !evs[i].CloseFromOutside?
  }

  /** Without errors and outside closes, copiers stop only at end of stream and
      nothing is closed before both have. */
  ghost predicate Calm(s: State) {
    && CalmPipe(s.toA) && CalmPipe(s.toB)
    && (s.aClosed || s.bClosed ==> s.toA.copier.Finished? && s.toB.copier.Finished?)
  }

  ghost predicate CalmPipe(p: Pipe) {
    match p.copier
    case Ended(clean, fatal) => clean && !fatal
    case Halved(clean, fatal) => clean && !fatal
    case Tearing => false
    case Finished(clean) => clean
    case _ => true
  }

  lemma {:induction false} StaysCalm(s: State, evs: seq<Event>, bufSize: nat)
    requires Inv(s) && Calm(s) && Undisturbed(evs)
    ensures Inv(Run(s, evs, bufSize)) && Calm(Run(s, evs, bufSize))
    decreases |evs|
  {
    if evs != [] {
      var ev := evs[0];
      assert !ev.ReadFail? && !ev.WriteFail? && !ev.CloseFromOutside?;
      StepKeeps(s, ev, bufSize);
      CalmStep(s, ev, bufSize);
      StaysCalm(Step(s, ev, bufSize), evs[1..], bufSize);
    }
  }

  lemma CalmStep(s: State, ev: Event, bufSize: nat)
    requires Inv(s) && Calm(s)
    requires !ev.ReadFail? && !ev.WriteFail? && !ev.CloseFromOutside?
    ensures Calm(Step(s, ev, bufSize))
  {
    PipeKeeps(s.toA, ev, bufSize, s.bClosed, s.aClosed);
    PipeKeeps(s.toB, ev, bufSize, s.aClosed, s.bClosed);
  }

  /** Undisturbed, a peer sees its connection half-closed or closed only after
      it has received everything the other peer sent. */
  lemma WholeStreamBeforeHalfClose(halfA: bool, halfB: bool, evs: seq<Event>, bufSize: nat)
    requires Undisturbed(evs)
    ensures var s := Run(Start(halfA, halfB), evs, bufSize);
      && (s.toA.writeClosed || s.aClosed ==> s.toA.eof && s.toA.got == s.toA.sent)
      && (s.toB.writeClosed || s.bClosed ==> s.toB.eof && s.toB.got == s.toB.sent)
  {
    StaysCalm(Start(halfA, halfB), evs, bufSize);
  }

  /** Whatever happens in the other direction, a copier that stopped at end of
      stream has delivered everything that was sent its way. */
  lemma CleanDirectionIsWhole(halfA: bool, halfB: bool, evs: seq<Event>, bufSize: nat)
    ensures var s := Run(Start(halfA, halfB), evs, bufSize);
      && (Clean(s.toA) ==> s.toA.eof && s.toA.got == s.toA.sent && s.toA.counter == |s.toA.sent|)
      && (Clean(s.toB) ==> s.toB.eof && s.toB.got == s.toB.sent && s.toB.counter == |s.toB.sent|)
  {
    RunKeeps(Start(halfA, halfB), evs, bufSize);
  }

  predicate Clean(p: Pipe) {
    (p.copier.Ended? || p.copier.Halved? || p.copier.Finished?) && p.copier.clean
  }

  // ---- an undisturbed splice never gets stuck ------------------------------------------

  /** The steps a copier has left, if its source sends nothing more. */
  ghost function Work(p: Pipe): nat
    requires Flows(p)
  {
    match p.copier
    case Copying => 3 * (|p.sent| - p.taken) + (if p.eof then 4 else 5)
    case Writing(_) => 3 * (|p.sent| - p.taken) + (if p.eof then 5 else 6)
    case Ended(_, _) => 3
    case Halved(_, _) => 2
    case Tearing => 1
    case Finished(_) => 0
  }

  ghost function Rank(s: State): nat
    requires Inv(s)
  {
    Work(s.toA) + Work(s.toB) +
    match s.finisher
    case Waiting => 3
    case ClosingB => 2
    case Publishing => 1
    case Over => 0
  }

  /** What the copier of direction d does next. */
  ghost function NextOf(d: Dir, p: Pipe): Event {
    match p.copier
    case Copying => if p.taken < |p.sent| then Read(d, 1) else if p.eof then ReadEof(d) else SendEof(d)
    case Writing(_) => Write(d)
    case Ended(_, _) => HalfClose(d)
    case _ => Wind(d)
  }

  ghost function NextEvent(s: State): Event {
    if !s.toA.copier.Finished? then NextOf(ToA, s.toA)
    else if !s.toB.copier.Finished? then NextOf(ToB, s.toB)
    else Finish
  }

  lemma PipeProgress(p: Pipe, d: Dir, bufSize: nat)
    requires Flows(p) && !p.copier.Finished? && 0 < bufSize
    ensures var q := PipeStep(p, NextOf(d, p), bufSize, false, false);
      Flows(q) && Work(q) < Work(p) && q.sent == p.sent
  {
    PipeKeeps(p, NextOf(d, p), bufSize, false, false);
  }

  lemma Progress(s: State, bufSize: nat)
    requires Inv(s) && Calm(s) && s.finisher != Over && 0 < bufSize
    ensures var t := Step(s, NextEvent(s), bufSize);
      Inv(t) && Calm(t) && Rank(t) < Rank(s) && t.toA.sent == s.toA.sent && t.toB.sent == s.toB.sent
  {
    var t := Step(s, NextEvent(s), bufSize);
    StepKeeps(s, NextEvent(s), bufSize);
    CalmStep(s, NextEvent(s), bufSize);
    if !s.toA.copier.Finished? {
      PipeProgress(s.toA, ToA, bufSize);
      assert t.toB == s.toB && t.finisher == s.finisher;
    } else if !s.toB.copier.Finished? {
      PipeProgress(s.toB, ToB, bufSize);
      assert t.toA == s.toA && t.finisher == s.finisher;
    } else {
      assert t.toA == s.toA && t.toB == s.toB;
    }
  }

  lemma {:induction false} RunsToTheEnd(s: State, bufSize: nat) returns (more: seq<Event>)
    requires Inv(s) && Calm(s) && 0 < bufSize
    ensures Undisturbed(more) && Run(s, more, bufSize).finisher == Over
    ensures Run(s, more, bufSize).toA.sent == s.toA.sent && Run(s, more, bufSize).toB.sent == s.toB.sent
    decreases Rank(s)
  {
    if s.finisher == Over {
      more := [];
    } else {
      Progress(s, bufSize);
      var rest := RunsToTheEnd(Step(s, NextEvent(s), bufSize), bufSize);
      more := [NextEvent(s)] + rest;
      assert more[1..] == rest;
    }
  }

  lemma {:induction false} RunConcat(s: State, a: seq<Event>, b: seq<Event>, bufSize: nat)
    ensures Run(s, a + b, bufSize) == Run(Run(s, a, bufSize), b, bufSize)
    decreases |a|
  {
    if a == [] {
      assert a + b == b;
    } else {
      assert (a + b)[1..] == a[1..] + b;
      RunConcat(Step(s, a[0], bufSize), a[1..], b, bufSize);
    }
  }

  /** Whatever happened so far without errors or outside closes, the splice can
      still run to its end: both sides get all that was sent to them, and the
      result with the two lengths is published. */
  lemma CanAlwaysComplete(halfA: bool, halfB: bool, evs: seq<Event>, bufSize: nat) returns (more: seq<Event>)
    requires Undisturbed(evs) && 0 < bufSize
    ensures var s := Run(Start(halfA, halfB), evs, bufSize);
            var t := Run(Start(halfA, halfB), evs + more, bufSize);
      && Undisturbed(evs + more)
      && t.toA.got == s.toA.sent && t.toB.got == s.toB.sent
      && t.results == [(|s.toA.sent|, |s.toB.sent|)]
  {
    var s := Run(Start(halfA, halfB), evs, bufSize);
    StaysCalm(Start(halfA, halfB), evs, bufSize);
    more := RunsToTheEnd(s, bufSize);
    RunConcat(Start(halfA, halfB), evs, more, bufSize);
    StaysCalm(s, more, bufSize);
  }

  // ---- and every schedule ends ---------------------------------------------------------

  /** How many steps of a run change anything. */
  ghost function Moves(s: State, evs: seq<Event>, bufSize: nat): nat
    decreases |evs|
  {
    if evs == [] then 0
    else (if Step(s, evs[0], bufSize) != s then 1 else 0) + Moves(Step(s, evs[0], bufSize), evs[1..], bufSize)
  }

  /** With nothing more to come, every step of a copier shortens its work. */
  lemma PipeShrinks(p: Pipe, ev: Event, bufSize: nat, srcClosed: bool, dstClosed: bool)
    requires Flows(p) && CalmPipe(p) && p.eof && !ev.ReadFail? && !ev.WriteFail?
    ensures var q := PipeStep(p, ev, bufSize, srcClosed, dstClosed);
      Flows(q) && q.eof && q.sent == p.sent && (q == p || Work(q) < Work(p))
  {
    PipeKeeps(p, ev, bufSize, srcClosed, dstClosed);
  }

  lemma StepShrinks(s: State, ev: Event, bufSize: nat)
    requires Inv(s) && Calm(s) && s.toA.eof && s.toB.eof
    requires !ev.ReadFail? && !ev.WriteFail? && !ev.CloseFromOutside?
    ensures var t := Step(s, ev, bufSize);
      && Inv(t) && Calm(t) && t.toA.eof && t.toB.eof && t.toA.sent == s.toA.sent && t.toB.sent == s.toB.sent
      && (t == s || Rank(t) < Rank(s))
  {
    StepKeeps(s, ev, bufSize);
    CalmStep(s, ev, bufSize);
    PipeShrinks(s.toA, ev, bufSize, s.bClosed, s.aClosed);
    PipeShrinks(s.toB, ev, bufSize, s.aClosed, s.bClosed);
    StepParts(s, ev, bufSize);
  }

  /** A step moves one direction or the finisher, and closes only what it says. */
  lemma StepParts(s: State, ev: Event, bufSize: nat)
    requires Calm(s) && Orderly(s) && !ev.CloseFromOutside?
    ensures var t := Step(s, ev, bufSize);
      && (t.toA == s.toA || t.toA == PipeStep(s.toA, ev, bufSize, s.bClosed, s.aClosed))
      && (t.toB == s.toB || t.toB == PipeStep(s.toB, ev, bufSize, s.aClosed, s.bClosed))
      && (ev != Finish ==> t.aClosed == s.aClosed && t.bClosed == s.bClosed
                           && t.finisher == s.finisher && t.results == s.results)
      && (ev == Finish ==> t.toA == s.toA && t.toB == s.toB && (t == s || s.finisher != t.finisher))
  {
  }

  lemma {:induction false} MovesBounded(s: State, evs: seq<Event>, bufSize: nat)
    requires Inv(s) && Calm(s) && s.toA.eof && s.toB.eof && Undisturbed(evs)
    ensures var t := Run(s, evs, bufSize);
      && Inv(t) && Calm(t) && t.toA.sent == s.toA.sent && t.toB.sent == s.toB.sent
      && Moves(s, evs, bufSize) + Rank(t) <= Rank(s)
    decreases |evs|
  {
    if evs != [] {
      assert !evs[0].ReadFail? && !evs[0].WriteFail? && !evs[0].CloseFromOutside?;
      StepShrinks(s, evs[0], bufSize);
      MovesBounded(Step(s, evs[0], bufSize), evs[1..], bufSize);
    }
  }

  /** Nothing but errors and outside closes can move the state. */
  ghost predicate AtRest(s: State, bufSize: nat) {
    forall ev: Event :: !ev.ReadFail? && !ev.WriteFail? && !ev.CloseFromOutside? ==> Step(s, ev, bufSize) == s
  }

  lemma UnfinishedMoves(s: State, bufSize: nat)
    requires Inv(s) && Calm(s) && s.finisher != Over && 0 < bufSize
    ensures !AtRest(s, bufSize)
  {
    Progress(s, bufSize);
    assert Step(s, NextEvent(s), bufSize) != s;
  }

  /** Once both peers have ended their streams, an undisturbed splice takes a
      bounded number of effective steps under any schedule, 3 for each byte not
      read yet and at most 13 more; and where no step has any effect left, it has
      delivered everything and published both lengths. */
  lemma EveryScheduleEnds(halfA: bool, halfB: bool, evs: seq<Event>, more: seq<Event>, bufSize: nat)
    requires Undisturbed(evs) && Undisturbed(more) && 0 < bufSize
    requires var s := Run(Start(halfA, halfB), evs, bufSize); s.toA.eof && s.toB.eof
    ensures var s := Run(Start(halfA, halfB), evs, bufSize);
            var t := Run(s, more, bufSize);
      && s.toA.taken <= |s.toA.sent| && s.toB.taken <= |s.toB.sent|
      && Moves(s, more, bufSize) <= 3 * (|s.toA.sent| - s.toA.taken + |s.toB.sent| - s.toB.taken) + 13
      && (AtRest(t, bufSize) ==>
            && t.toA.got == s.toA.sent && t.toB.got == s.toB.sent
            && t.results == [(|s.toA.sent|, |s.toB.sent|)])
  {
    var s := Run(Start(halfA, halfB), evs, bufSize);
    StaysCalm(Start(halfA, halfB), evs, bufSize);
    MovesBounded(s, more, bufSize);
    var t := Run(s, more, bufSize);
    if t.finisher != Over {
      UnfinishedMoves(t, bufSize);
    }
  }

  // ---- what failures and ends lead to ---------------------------------------------------

  function PipeOf(s: State, d: Dir): Pipe {
    if d == ToA then s.toA else s.toB
  }

  /** A copier that is past its half-close has made it, if its connection can. */
  ghost predicate HalvedIfAble(p: Pipe) {
    p.copier.Halved? || p.copier.Tearing? || p.copier.Finished? ==> p.canHalfClose ==> p.writeClosed
  }

  lemma PipeHalves(p: Pipe, ev: Event, bufSize: nat, srcClosed: bool, dstClosed: bool)
    requires HalvedIfAble(p)
    ensures var q := PipeStep(p, ev, bufSize, srcClosed, dstClosed);
      HalvedIfAble(q) && q.canHalfClose == p.canHalfClose
  {
  }

  lemma {:induction false} HalvingHolds(s: State, evs: seq<Event>, bufSize: nat)
    requires HalvedIfAble(s.toA) && HalvedIfAble(s.toB)
    ensures var t := Run(s, evs, bufSize);
      && HalvedIfAble(t.toA) && HalvedIfAble(t.toB)
      && t.toA.canHalfClose == s.toA.canHalfClose && t.toB.canHalfClose == s.toB.canHalfClose
    decreases |evs|
  {
    if evs != [] {
      PipeHalves(s.toA, evs[0], bufSize, s.bClosed, s.aClosed);
      PipeHalves(s.toB, evs[0], bufSize, s.aClosed, s.bClosed);
      HalvingHolds(Step(s, evs[0], bufSize), evs[1..], bufSize);
    }
  }

  /** In every run, a copier that has finished has half-closed its destination,
      wherever the connection supports it. */
  lemma FinishedHasHalfClosed(halfA: bool, halfB: bool, evs: seq<Event>, bufSize: nat)
    ensures var s := Run(Start(halfA, halfB), evs, bufSize);
      && (s.toA.copier.Finished? && halfA ==> s.toA.writeClosed)
      && (s.toB.copier.Finished? && halfB ==> s.toB.writeClosed)
  {
    HalvingHolds(Start(halfA, halfB), evs, bufSize);
  }

  /** A copier failed with an error that is neither end of stream nor a closed
      connection, and closes A and then B. */
  ghost predicate TearsDown(p: Pipe, s: State) {
    match p.copier
    case Ended(_, fatal) => fatal
    case Halved(_, fatal) => fatal
    case Tearing => s.aClosed
    case Finished(_) => s.aClosed && s.bClosed
    case _ => false
  }

  lemma TearsOn(s: State, ev: Event, d: Dir, bufSize: nat)
    requires TearsDown(PipeOf(s, d), s)
    ensures TearsDown(PipeOf(Step(s, ev, bufSize), d), Step(s, ev, bufSize))
  {
  }

  lemma {:induction false} TearsToTheEnd(s: State, evs: seq<Event>, d: Dir, bufSize: nat)
    requires TearsDown(PipeOf(s, d), s)
    ensures TearsDown(PipeOf(Run(s, evs, bufSize), d), Run(s, evs, bufSize))
    decreases |evs|
  {
    if evs != [] {
      TearsOn(s, evs[0], d, bufSize);
      TearsToTheEnd(Step(s, evs[0], bufSize), evs[1..], d, bufSize);
    }
  }

  /** A fatal failure of a read, or of a write that got part of its bytes out. */
  ghost predicate FailsFatally(p: Pipe, ev: Event, d: Dir, dstClosed: bool) {
    || (ev == ReadFail(d, true) && p.copier == Copying)
    || (ev.WriteFail? && ev.d == d && ev.fatal && p.copier.Writing?
        && ev.n <= |p.copier.buf| && (dstClosed ==> ev.n == 0))
  }

  /** It closes both connections before its copier is through, whatever else
      happens. */
  lemma FatalClosesBoth(s: State, ev: Event, d: Dir, evs: seq<Event>, bufSize: nat)
    requires FailsFatally(PipeOf(s, d), ev, d, if d == ToA then s.aClosed else s.bClosed)
    ensures var t := Run(Step(s, ev, bufSize), evs, bufSize);
      PipeOf(t, d).copier.Finished? ==> t.aClosed && t.bClosed
  {
    var t := Step(s, ev, bufSize);
    if d == ToA {
      assert t.toA == PipeStep(s.toA, ev, bufSize, s.bClosed, s.aClosed);
    } else {
      assert t.toB == PipeStep(s.toB, ev, bufSize, s.aClosed, s.bClosed);
    }
    TearsToTheEnd(t, evs, d, bufSize);
  }

  /** A write that fails has delivered the bytes it reports, and no others; the
      copier stops there. */
  lemma PartialWrite(p: Pipe, d: Dir, n: nat, fatal: bool, bufSize: nat)
    requires p.copier.Writing? && n <= |p.copier.buf|
    ensures var q := PipeStep(p, WriteFail(d, n, fatal), bufSize, false, false);
      q.got == p.got + p.copier.buf[..n] && q.counter == |p.got| + n && q.copier == Ended(false, fatal)
  {
  }

  ghost predicate NothingFatal(evs: seq<Event>) {
    forall i :: 0 <= i < |evs| ==>
      !evs[i].CloseFromOutside? && (evs[i].ReadFail? || evs[i].WriteFail? ==> !evs[i].fatal)
  }

  ghost predicate Unhurt(s: State) {
    && Harmless(s.toA) && Harmless(s.toB)
    && (s.aClosed || s.bClosed || s.finisher != Waiting ==> s.toA.copier.Finished? && s.toB.copier.Finished?)
  }

  ghost predicate Harmless(p: Pipe) {
    match p.copier
    case Ended(_, fatal) => !fatal
    case Halved(_, fatal) => !fatal
    case Tearing => false
    case _ => true
  }

  lemma PipeStaysHarmless(p: Pipe, ev: Event, bufSize: nat, srcClosed: bool, dstClosed: bool)
    requires Harmless(p) && (ev.ReadFail? || ev.WriteFail? ==> !ev.fatal)
    ensures var q := PipeStep(p, ev, bufSize, srcClosed, dstClosed);
      Harmless(q) && (p.copier.Finished? ==> q.copier.Finished?)
  {
  }

  lemma UnhurtStep(s: State, ev: Event, bufSize: nat)
    requires Unhurt(s) && !ev.CloseFromOutside? && (ev.ReadFail? || ev.WriteFail? ==> !ev.fatal)
    ensures Unhurt(Step(s, ev, bufSize))
  {
    PipeStaysHarmless(s.toA, ev, bufSize, s.bClosed, s.aClosed);
    PipeStaysHarmless(s.toB, ev, bufSize, s.aClosed, s.bClosed);
  }

  lemma {:induction false} StaysUnhurt(s: State, evs: seq<Event>, bufSize: nat)
    requires Unhurt(s) && NothingFatal(evs)
    ensures Unhurt(Run(s, evs, bufSize))
    decreases |evs|
  {
    if evs != [] {
      UnhurtStep(s, evs[0], bufSize);
      StaysUnhurt(Step(s, evs[0], bufSize), evs[1..], bufSize);
    }
  }

  /** And nothing else does: without a fatal failure or an outside close, both
      connections stay open until both copiers are through, so one direction may
      end or fail while the other goes on. */
  lemma OpenUntilBothFinished(halfA: bool, halfB: bool, evs: seq<Event>, bufSize: nat)
    requires NothingFatal(evs)
    ensures var s := Run(Start(halfA, halfB), evs, bufSize);
      s.aClosed || s.bClosed ==> s.toA.copier.Finished? && s.toB.copier.Finished?
  {
    StaysUnhurt(Start(halfA, halfB), evs, bufSize);
  }

  // ---- what the peers sent ---------------------------------------------------------------

  /** The bytes sent in a direction, by the events alone: none after the end of
      the stream. */
  ghost function Sent(d: Dir, evs: seq<Event>, eof: bool): seq<byte>
    decreases |evs|
  {
    if evs == [] then []
    else if evs[0] == SendEof(d) then Sent(d, evs[1..], true)
    else (if evs[0].Send? && evs[0].d == d && !eof then evs[0].bytes else []) + Sent(d, evs[1..], eof)
  }

  lemma SendStep(s: State, ev: Event, d: Dir, bufSize: nat)
    ensures var p, q := PipeOf(s, d), PipeOf(Step(s, ev, bufSize), d);
      && q.eof == (p.eof || ev == SendEof(d))
      && q.sent == p.sent + if ev.Send? && ev.d == d && !p.eof then ev.bytes else []
  {
    var p := PipeOf(s, d);
    assert p.sent + [] == p.sent;
  }

  lemma {:induction false} SentByEvents(s: State, evs: seq<Event>, d: Dir, bufSize: nat)
    ensures PipeOf(Run(s, evs, bufSize), d).sent == PipeOf(s, d).sent + Sent(d, evs, PipeOf(s, d).eof)
    decreases |evs|
  {
    var p := PipeOf(s, d);
    if evs == [] {
      assert p.sent + [] == p.sent;
    } else {
      SendStep(s, evs[0], d, bufSize);
      SentByEvents(Step(s, evs[0], bufSize), evs[1..], d, bufSize);
      var bytes := if evs[0].Send? && evs[0].d == d && !p.eof then evs[0].bytes else [];
      assert p.sent + bytes + Sent(d, evs[1..], p.eof || evs[0] == SendEof(d)) == p.sent + Sent(d, evs, p.eof);
    }
  }

  /** Under every interleaving, error and close, what reached a peer is a prefix of
      the bytes the other peer's events sent. */
  lemma DeliversWhatWasSent(halfA: bool, halfB: bool, evs: seq<Event>, bufSize: nat)
    ensures var s := Run(Start(halfA, halfB), evs, bufSize);
            s.toA.got <= Sent(ToA, evs, false) && s.toB.got <= Sent(ToB, evs, false)
  {
    DeliversPrefixes(halfA, halfB, evs, bufSize);
    SentByEvents(Start(halfA, halfB), evs, ToA, bufSize);
    SentByEvents(Start(halfA, halfB), evs, ToB, bufSize);
  }
}
