/** One UDP tunnel end to end (internal/tunnel/server.go): public packets go
    out as channel frames, frames from the client come back to public peers,
    channels are replaced and read loops exit, sessions are evicted, expired
    and re-created, in any order. */
module UdpReturnPath {
  import opened Collections
  import opened UdpSessions
  import opened Framing
  import Runs = UdpSessionRuns

  datatype Limits = Limits(maxSessions: nat, maxPacket: nat, idle: int)

  /** A frame written to a channel on behalf of a peer. */
  datatype Forward = Forward(ch: nat, peer: Peer, frame: seq<byte>)
  /** A datagram written back to a peer for a frame carrying `id`. */
  datatype Reply = Reply(id: seq<byte>, payload: seq<byte>, peer: Peer)

  /** Where the loop over public packets is with its current packet: none, framed
      but no channel read yet, or about to write on the channel it read. */
  datatype Outgoing = Idle | Framed(peer: Peer, frame: seq<byte>) | Writing(peer: Peer, frame: seq<byte>, ch: nat)

  /** `answers` holds, for each read loop, the datagram it looked a peer up for
      and has not written yet; `forwards` and `replies` are what was written. */
  datatype Path = Path(
    table: seq<Entry>,
    ch: Option<nat>,
    loops: set<nat>,
    inbox: map<nat, seq<byte>>,
    out: Outgoing,
    answers: map<nat, Reply>,
    forwards: seq<Forward>,
    replies: seq<Reply>)

  const Fresh: Path := Path([], None, {}, map[], Idle, map[], [], [])

  datatype Event =
    | Packet(peer: Peer, payload: seq<byte>, id: Option<seq<byte>>, now: int, rateOk: bool)
    | Pick
    | Write(ok: bool)
    | Bind(c: nat)
    | Arrive(c: nat, bytes: seq<byte>)
    | ReadOne(c: nat)
    | Deliver(c: nat, ok: bool)
    | LoopEnd(c: nat)
    | Sweep(now: int)
    | Shut

  /** HandleUDPPacket up to the frame; one loop takes the packets in turn. */
  function HandlePacket(p: Path, lim: Limits, ev: Event): (q: Path)
    requires ev.Packet?
  {
    if p.out != Idle || |ev.payload| > lim.maxPacket || !ev.rateOk then p
    else
      var table := Admit(p.table, lim.maxSessions, ev.peer, ev.id, ev.now);
      var q := p.(table := table);
      match Find(table, ev.peer)
      case None => q
      case Some(s) =>
        var frame := UdpFrame(Datagram(s.id, ev.payload));
        if frame.None? then q else q.(out := Framed(ev.peer, frame.value))
  }

  /** The channel is read under its own lock; without one the packet is lost. */
  function PickChannel(p: Path): (q: Path)
  {
    if !p.out.Framed? then p
    else if p.ch.None? then p.(out := Idle)
    else p.(out := Writing(p.out.peer, p.out.frame, p.ch.value))
  }

  /** The write may fail, on a channel that was replaced meanwhile for example. */
  function WriteFrame(p: Path, ok: bool): (q: Path)
  {
    if !p.out.Writing? then p
    else if !ok then p.(out := Idle)
    else p.(out := Idle, forwards := p.forwards + [Forward(p.out.ch, p.out.peer, p.out.frame)])
  }

  /** The read loop of channel c stops: the tunnel forgets c, and only c. */
  function StopLoop(p: Path, c: nat): (q: Path)
  {
    p.(loops := p.loops - {c}, ch := if p.ch == Some(c) then None else p.ch)
  }

  /** The read loop of channel c reads a frame and looks its session up. */
  function Turn(p: Path, lim: Limits, c: nat): (q: Path)
  {
    if c !in p.loops || c in p.answers || c !in p.inbox then p
    else
      match ParseUdp(p.inbox[c], lim.maxPacket)
      case Short => p
      case Bad => StopLoop(p, c)
      case Got(d, used) =>
        var q := p.(inbox := p.inbox[c := p.inbox[c][used..]]);
        match FindId(p.table, d.id)
        case None => q
        case Some(s) => q.(answers := q.answers[c := Reply(d.id, d.payload, s.peer)])
  }

  /** And then writes the datagram, whatever became of the session. */
  function WriteReply(p: Path, c: nat, ok: bool): (q: Path)
  {
    if c !in p.answers then p
    else
      p.(answers := p.answers - {c}, replies := if ok then p.replies + [p.answers[c]] else p.replies)
  }

  function Step(p: Path, lim: Limits, ev: Event): (q: Path)
  {
    match ev
    case Packet(_, _, _, _, _) => HandlePacket(p, lim, ev)
    case Pick => PickChannel(p)
    case Write(ok) => WriteFrame(p, ok)
    case Bind(c) => p.(ch := Some(c), loops := p.loops + {c},
                       inbox := if c in p.inbox then p.inbox else p.inbox[c := []])
    case Arrive(c, bytes) => p.(inbox := p.inbox[c := (if c in p.inbox then p.inbox[c] else []) + bytes])
    case ReadOne(c) => Turn(p, lim, c)
    case Deliver(c, ok) => WriteReply(p, c, ok)
    case LoopEnd(c) => if c in p.loops && c !in p.answers then StopLoop(p, c) else p
    case Sweep(now) => p.(table := Expire(p.table, now, lim.idle))
    case Shut => p.(table := [])
  }

  function Run(p: Path, lim: Limits, evs: seq<Event>): (q: Path)
    decreases |evs|
  {
    if evs == [] then p else Run(Step(p, lim, evs[0]), lim, evs[1..])
  }

  // ---- what the events alone say ---------------------------------------------------

  /** The peer each session id was drawn for, on top of `issued`. */
  ghost function Drawn(issued: map<seq<byte>, Peer>, evs: seq<Event>): map<seq<byte>, Peer>
    decreases |evs|
  {
    if evs == [] then issued
    else Drawn(if evs[0].Packet? && evs[0].id.Some? then issued[evs[0].id.value := evs[0].peer] else issued, evs[1..])
  }

  /** The channels bound, in order. */
  ghost function Binds(evs: seq<Event>): seq<nat>
    decreases |evs|
  {
    if evs == [] then [] else (if evs[0].Bind? then [evs[0].c] else []) + Binds(evs[1..])
  }

  /** Session ids come from a source that does not repeat; every bound channel
      is a new connection. */
  ghost predicate Possible(issued: map<seq<byte>, Peer>, bound: seq<nat>, evs: seq<Event>)
    decreases |evs|
  {
    evs != [] ==>
      && (evs[0].Packet? && evs[0].id.Some? ==> evs[0].id.value !in issued)
      && (evs[0].Bind? ==> evs[0].c !in bound)
      && Possible(Drawn(issued, [evs[0]]), bound + Binds([evs[0]]), evs[1..])
  }

  /** The read loop of channel c stops here: reading fails, or the next frame is
      malformed. */
  ghost predicate Stops(p: Path, lim: Limits, ev: Event, c: nat) {
    && c !in p.answers
    && (ev == LoopEnd(c) || (ev == ReadOne(c) && c in p.inbox && ParseUdp(p.inbox[c], lim.maxPacket) == Bad))
  }

  /** Whether channel c was bound, and its read loop has not stopped since. */
  ghost function Running(p: Path, lim: Limits, evs: seq<Event>, c: nat, was: bool): bool
    decreases |evs|
  {
    if evs == [] then was
    else Running(Step(p, lim, evs[0]), lim, evs[1..], c, evs[0] == Bind(c) || (was && !Stops(p, lim, evs[0], c)))
  }

  // ---- the invariant ----------------------------------------------------------

  ghost predicate TableOwned(table: seq<Entry>, issued: map<seq<byte>, Peer>) {
    forall i :: 0 <= i < |table| ==> table[i].id in issued && issued[table[i].id] == table[i].peer
  }

  ghost predicate Owned(r: Reply, issued: map<seq<byte>, Peer>) {
    r.id in issued && issued[r.id] == r.peer
  }

  ghost predicate RepliesOwned(replies: seq<Reply>, answers: map<nat, Reply>, issued: map<seq<byte>, Peer>) {
    && (forall i :: 0 <= i < |replies| ==> Owned(replies[i], issued))
    && (forall c :: c in answers ==> Owned(answers[c], issued))
  }

  /** The frame decodes, and to an id made for the peer it was sent for. */
  ghost predicate Carries(frame: seq<byte>, peer: Peer, issued: map<seq<byte>, Peer>, maxPacket: nat) {
    match ParseUdp(frame, maxPacket)
    case Got(d, used) => used == |frame| && |d.id| == SESSION_ID_LEN && d.id in issued && issued[d.id] == peer
    case _ => false
  }

  ghost predicate ForwardsOwned(forwards: seq<Forward>, out: Outgoing, issued: map<seq<byte>, Peer>, maxPacket: nat) {
    && (forall i :: 0 <= i < |forwards| ==> Carries(forwards[i].frame, forwards[i].peer, issued, maxPacket))
    && (out != Idle ==> Carries(out.frame, out.peer, issued, maxPacket))
  }

  /** Frames are written only on channels that were bound. */
  ghost predicate ForwardsBound(forwards: seq<Forward>, out: Outgoing, bound: seq<nat>) {
    && (forall i :: 0 <= i < |forwards| ==> forwards[i].ch in bound)
    && (out.Writing? ==> out.ch in bound)
  }

  /** The channel last bound, for as long as its own read loop runs. */
  ghost function Newest(bound: seq<nat>, loops: set<nat>): Option<nat> {
    if bound != [] && bound[|bound| - 1] in loops then Some(bound[|bound| - 1]) else None
  }

  ghost predicate Inv(p: Path, lim: Limits, issued: map<seq<byte>, Peer>, bound: seq<nat>) {
    && Runs.Sound(p.table, lim.maxSessions, issued.Keys)
    && TableOwned(p.table, issued)
    && RepliesOwned(p.replies, p.answers, issued)
    && ForwardsOwned(p.forwards, p.out, issued, lim.maxPacket)
    && ForwardsBound(p.forwards, p.out, bound)
    && p.ch == Newest(bound, p.loops)
  }

  lemma KeepOwned(table: seq<Entry>, gone: set<Peer>, issued: map<seq<byte>, Peer>)
    requires TableOwned(table, issued)
    ensures TableOwned(Keep(table, gone), issued)
  {
    Runs.KeepMembers(table, gone);
  }

  lemma AdmitOwned(table: seq<Entry>, cap: nat, peer: Peer, id: Option<seq<byte>>, now: int,
                   issued: map<seq<byte>, Peer>)
    requires TableOwned(table, issued) && (id.Some? ==> id.value !in issued)
    ensures TableOwned(Admit(table, cap, peer, id, now), if id.Some? then issued[id.value := peer] else issued)
  {
    KeepOwned(table, {peer}, issued);
  }

  lemma PacketKeeps(p: Path, lim: Limits, ev: Event, issued: map<seq<byte>, Peer>, bound: seq<nat>)
    requires 0 < lim.maxSessions && Inv(p, lim, issued, bound)
    requires ev.Packet? && (ev.id.Some? ==> ev.id.value !in issued)
    ensures Inv(HandlePacket(p, lim, ev), lim, if ev.id.Some? then issued[ev.id.value := ev.peer] else issued, bound)
  {
    var issued' := if ev.id.Some? then issued[ev.id.value := ev.peer] else issued;
    OwnedMonotone(p, lim, issued, issued', bound);
    if p.out == Idle && |ev.payload| <= lim.maxPacket && ev.rateOk {
      var q := HandlePacket(p, lim, ev);
      Runs.StepSound(p.table, Runs.Packet(ev.peer, ev.id, ev.now), lim.maxSessions, lim.idle, issued.Keys);
      assert issued'.Keys == if ev.id.Some? then issued.Keys + {ev.id.value} else issued.Keys;
      AdmitOwned(p.table, lim.maxSessions, ev.peer, ev.id, ev.now, issued);
      if q.out != Idle {
        FramedCarries(q.table, ev.peer, ev.payload, issued', lim.maxPacket);
      }
    }
  }

  /** More ids drawn do not disturb what is owned. */
  lemma OwnedMonotone(p: Path, lim: Limits, issued: map<seq<byte>, Peer>, more: map<seq<byte>, Peer>, bound: seq<nat>)
    requires Inv(p, lim, issued, bound)
    requires forall id :: id in issued ==> id in more && more[id] == issued[id]
    ensures Inv(p, lim, more, bound)
  {
    ForwardsMonotone(p.forwards, issued, more, lim.maxPacket);
    RepliesMonotone(p.replies, p.answers, issued, more);
  }

  lemma FramedCarries(table: seq<Entry>, peer: Peer, payload: seq<byte>, issued: map<seq<byte>, Peer>, maxPacket: nat)
    requires TableOwned(table, issued) && Find(table, peer).Some? && |payload| <= maxPacket
    requires UdpFrame(Datagram(Find(table, peer).value.id, payload)).Some?
    ensures Carries(UdpFrame(Datagram(Find(table, peer).value.id, payload)).value, peer, issued, maxPacket)
  {
    var d := Datagram(Find(table, peer).value.id, payload);
    UdpReadsBack(d, [], maxPacket);
    assert UdpFrame(d).value + [] == UdpFrame(d).value;
    var i :| 0 <= i < |table| && table[i] == Find(table, peer).value;
  }

  lemma RepliesMonotone(rs: seq<Reply>, answers: map<nat, Reply>, issued: map<seq<byte>, Peer>,
                        more: map<seq<byte>, Peer>)
    requires RepliesOwned(rs, answers, issued)
    requires forall id :: id in issued ==> id in more && more[id] == issued[id]
    ensures RepliesOwned(rs, answers, more)
  {
  }

  lemma ForwardsMonotone(fs: seq<Forward>, issued: map<seq<byte>, Peer>, more: map<seq<byte>, Peer>, maxPacket: nat)
    requires ForwardsOwned(fs, Idle, issued, maxPacket)
    requires forall id :: id in issued ==> id in more && more[id] == issued[id]
    ensures ForwardsOwned(fs, Idle, more, maxPacket)
  {
    forall i | 0 <= i < |fs|
      ensures Carries(fs[i].frame, fs[i].peer, more, maxPacket)
    {
      assert Carries(fs[i].frame, fs[i].peer, issued, maxPacket);
    }
  }

  lemma StepKeeps(p: Path, lim: Limits, ev: Event, issued: map<seq<byte>, Peer>, bound: seq<nat>)
    requires 0 < lim.maxSessions && Inv(p, lim, issued, bound)
    requires ev.Packet? && ev.id.Some? ==> ev.id.value !in issued
    requires ev.Bind? ==> ev.c !in bound
    ensures Inv(Step(p, lim, ev), lim, Drawn(issued, [ev]), bound + Binds([ev]))
  {
    DrawnOne(issued, bound, ev);
    match ev
    case Packet(_, _, _, _, _) => PacketKeeps(p, lim, ev, issued, bound);
    case ReadOne(c) => TurnKeeps(p, lim, c, issued, bound);
    case Sweep(now) =>
      Runs.ExpireByPeers(p.table, now, lim.idle);
      Runs.StepSound(p.table, Runs.Sweep(now), lim.maxSessions, lim.idle, issued.Keys);
      KeepOwned(p.table, Runs.IdleAt(p.table, now, lim.idle), issued);
    case Bind(c) => assert (bound + [c])[|bound|] == c;
    case _ =>
  }

  lemma DrawnOne(issued: map<seq<byte>, Peer>, bound: seq<nat>, ev: Event)
    ensures Drawn(issued, [ev]) == if ev.Packet? && ev.id.Some? then issued[ev.id.value := ev.peer] else issued
    ensures bound + Binds([ev]) == if ev.Bind? then bound + [ev.c] else bound
  {
    assert [ev][1..] == [] && Binds([]) == [];
  }

  lemma TurnKeeps(p: Path, lim: Limits, c: nat, issued: map<seq<byte>, Peer>, bound: seq<nat>)
    requires Inv(p, lim, issued, bound)
    ensures Inv(Turn(p, lim, c), lim, issued, bound)
  {
    var q := Turn(p, lim, c);
    if q.answers != p.answers {
      var d := ParseUdp(p.inbox[c], lim.maxPacket).value;
      var s := FindId(p.table, d.id).value;
      var i :| 0 <= i < |p.table| && p.table[i] == s;
    }
  }

  lemma {:induction false} RunKeeps(p: Path, lim: Limits, evs: seq<Event>, issued: map<seq<byte>, Peer>,
                                    bound: seq<nat>)
    requires 0 < lim.maxSessions && Inv(p, lim, issued, bound) && Possible(issued, bound, evs)
    ensures Inv(Run(p, lim, evs), lim, Drawn(issued, evs), bound + Binds(evs))
    decreases |evs|
  {
    if evs == [] {
      assert bound + [] == bound;
    } else {
      var issued1, bound1 := Drawn(issued, [evs[0]]), bound + Binds([evs[0]]);
      HistoryHead(issued, bound, evs);
      StepKeeps(p, lim, evs[0], issued, bound);
      RunKeeps(Step(p, lim, evs[0]), lim, evs[1..], issued1, bound1);
    }
  }

  lemma HistoryHead(issued: map<seq<byte>, Peer>, bound: seq<nat>, evs: seq<Event>)
    requires evs != []
    ensures Drawn(issued, evs) == Drawn(Drawn(issued, [evs[0]]), evs[1..])
    ensures bound + Binds(evs) == bound + Binds([evs[0]]) + Binds(evs[1..])
    ensures Possible(issued, bound, evs) ==>
      && (evs[0].Packet? && evs[0].id.Some? ==> evs[0].id.value !in issued)
      && (evs[0].Bind? ==> evs[0].c !in bound)
      && Possible(Drawn(issued, [evs[0]]), bound + Binds([evs[0]]), evs[1..])
  {
    DrawnOne(issued, bound, evs[0]);
    assert [evs[0]][1..] == [] && Binds([]) == [];
  }

  lemma FreshKeeps(lim: Limits, evs: seq<Event>)
    requires 0 < lim.maxSessions && Possible(map[], [], evs)
    ensures Inv(Run(Fresh, lim, evs), lim, Drawn(map[], evs), Binds(evs))
  {
    RunKeeps(Fresh, lim, evs, map[], []);
    assert [] + Binds(evs) == Binds(evs);
  }

  // ---- the read loops ------------------------------------------------------------

  lemma LoopStep(p: Path, lim: Limits, ev: Event, c: nat)
    ensures c in Step(p, lim, ev).loops <==> ev == Bind(c) || (c in p.loops && !Stops(p, lim, ev, c))
  {
  }

  /** A read loop runs from its channel's binding until it stops, whatever else
      happens. */
  lemma {:induction false} LoopsRunUntilStopped(p: Path, lim: Limits, evs: seq<Event>, c: nat)
    ensures c in Run(p, lim, evs).loops <==> Running(p, lim, evs, c, c in p.loops)
    decreases |evs|
  {
    if evs != [] {
      LoopStep(p, lim, evs[0], c);
      LoopsRunUntilStopped(Step(p, lim, evs[0]), lim, evs[1..], c);
    }
  }

  /** Bytes that arrive on a channel queue up behind those not read yet; a frame
      is taken off the front once it is whole, a part of one waits for the rest;
      and no other channel's bytes are touched. */
  lemma BytesQueue(p: Path, lim: Limits, ev: Event, c: nat)
    requires c in p.loops && c in p.inbox
    ensures var q := Step(p, lim, ev);
      && c in q.inbox
      && (ev.Arrive? && ev.c == c ==> q.inbox[c] == p.inbox[c] + ev.bytes)
      && (ev == ReadOne(c) && c !in p.answers && ParseUdp(p.inbox[c], lim.maxPacket).Got? ==>
            q.inbox[c] == p.inbox[c][ParseUdp(p.inbox[c], lim.maxPacket).used..])
      && (ev == ReadOne(c) && !ParseUdp(p.inbox[c], lim.maxPacket).Got? ==> q.inbox[c] == p.inbox[c])
      && (ev != ReadOne(c) && !(ev.Arrive? && ev.c == c) ==> q.inbox[c] == p.inbox[c])
  {
  }

  /** The session table goes through the states of the list: a packet that is
      taken, within the size and the rate, is admitted, a sweep and a shut-down
      do what they do to the list, and nothing else touches it. */
  lemma TableFollowsList(p: Path, lim: Limits, ev: Event)
    ensures Step(p, lim, ev).table ==
      if ev.Packet? && p.out == Idle && |ev.payload| <= lim.maxPacket && ev.rateOk then
        Runs.Step(p.table, Runs.Packet(ev.peer, ev.id, ev.now), lim.maxSessions, lim.idle)
      else if ev.Sweep? then Runs.Step(p.table, Runs.Sweep(ev.now), lim.maxSessions, lim.idle)
      else if ev.Shut? then []
      else p.table
  {
  }

  // ---- what it gives -------------------------------------------------------------

  /** Over every run, by its events alone: each datagram written back went to the
      peer its session id was drawn for; frames are written only on channels that
      were bound; and the tunnel's channel is the one bound last, exactly until
      that one's own read loop stops, so that no other loop ever clears it. */
  lemma ReturnPathSafety(lim: Limits, evs: seq<Event>)
    requires 0 < lim.maxSessions && Possible(map[], [], evs)
    ensures var p, issued, bound := Run(Fresh, lim, evs), Drawn(map[], evs), Binds(evs);
      && (forall i :: 0 <= i < |p.replies| ==>
            p.replies[i].id in issued && issued[p.replies[i].id] == p.replies[i].peer)
      && (forall i :: 0 <= i < |p.forwards| ==> p.forwards[i].ch in bound)
      && p.ch == (if bound != [] && Running(Fresh, lim, evs, bound[|bound| - 1], false)
                  then Some(bound[|bound| - 1]) else None)
      && |p.table| <= lim.maxSessions
  {
    FreshKeeps(lim, evs);
    var p, bound := Run(Fresh, lim, evs), Binds(evs);
    assert forall i :: 0 <= i < |p.replies| ==> Owned(p.replies[i], Drawn(map[], evs));
    if bound != [] {
      LoopsRunUntilStopped(Fresh, lim, evs, bound[|bound| - 1]);
    }
  }

  /** Steps of the other goroutines while a packet is handled. */
  ghost predicate ByOthers(evs: seq<Event>) {
    forall i :: 0 <= i < |evs| ==> !evs[i].Packet? && !evs[i].Pick? && !evs[i].Write?
  }

  lemma {:induction false} OthersLeaveOut(p: Path, lim: Limits, evs: seq<Event>)
    requires ByOthers(evs)
    ensures Run(p, lim, evs).out == p.out && Run(p, lim, evs).forwards == p.forwards
    decreases |evs|
  {
    if evs != [] {
      OthersLeaveOut(Step(p, lim, evs[0]), lim, evs[1..]);
    }
  }

  ghost predicate ForwardsOne(was: seq<Forward>, now: seq<Forward>, ch: nat, peer: Peer, d: Datagram, maxPacket: nat) {
    && |now| == |was| + 1
    && now[..|was|] == was
    && now[|was|].ch == ch
    && now[|was|].peer == peer
    && ParseUdp(now[|was|].frame, maxPacket) == Got(d, |now[|was|].frame|)
  }

  /** When and how a public packet is forwarded, with any steps of the other
      goroutines between the look-up of its session, the choice of the channel
      and the write: exactly when it is small enough, within the rate, the peer
      has or gets a session with a well-formed id, a channel is bound when it is
      chosen, and the write succeeds; and then as one frame on that channel that
      decodes to that session's id and the payload. */
  lemma PacketForwardedIff(p: Path, lim: Limits, ev: Event, before: seq<Event>, after: seq<Event>, ok: bool)
    requires ev.Packet? && p.out == Idle && lim.maxPacket <= UDP_MAX_PACKET
    requires ByOthers(before) && ByOthers(after)
    ensures var s := Find(Step(p, lim, ev).table, ev.peer);
            var q := Run(Step(p, lim, ev), lim, before);
            var r := Run(Step(q, lim, Pick), lim, after);
            var t := Step(r, lim, Write(ok));
            var sent := |ev.payload| <= lim.maxPacket && ev.rateOk && s.Some? && |s.value.id| == SESSION_ID_LEN
              && q.ch.Some? && ok;
      && t.out == Idle && r.forwards == p.forwards
      && (sent ==>
            ForwardsOne(p.forwards, t.forwards, q.ch.value, ev.peer, Datagram(s.value.id, ev.payload), lim.maxPacket))
      && (!sent ==> t.forwards == p.forwards)
  {
    var first := Step(p, lim, ev);
    var q := Run(first, lim, before);
    OthersLeaveOut(first, lim, before);
    OthersLeaveOut(Step(q, lim, Pick), lim, after);
    PacketFramed(p, lim, ev);
  }

  lemma PacketFramed(p: Path, lim: Limits, ev: Event)
    requires ev.Packet? && p.out == Idle && lim.maxPacket <= UDP_MAX_PACKET
    ensures var q := Step(p, lim, ev);
            var s := Find(q.table, ev.peer);
      && q.forwards == p.forwards && !q.out.Writing?
      && (q.out.Framed? <==> |ev.payload| <= lim.maxPacket && ev.rateOk && s.Some? && |s.value.id| == SESSION_ID_LEN)
      && (q.out.Framed? ==>
            && q.out.peer == ev.peer
            && ParseUdp(q.out.frame, lim.maxPacket) == Got(Datagram(s.value.id, ev.payload), |q.out.frame|))
  {
    var s := Find(Step(p, lim, ev).table, ev.peer);
    if s.Some? && UdpFrame(Datagram(s.value.id, ev.payload)).Some? {
      var d := Datagram(s.value.id, ev.payload);
      UdpReadsBack(d, [], lim.maxPacket);
      assert UdpFrame(d).value + [] == UdpFrame(d).value;
    }
  }

  /** The session id a client reads in a forwarded frame. */
  ghost function SessionOf(f: Forward, maxPacket: nat): seq<byte> {
    match ParseUdp(f.frame, maxPacket)
    case Got(d, _) => d.id
    case _ => []
  }

  /** Steps other than those of the read loop of channel c. */
  ghost predicate NotByLoop(c: nat, evs: seq<Event>) {
    forall i :: 0 <= i < |evs| ==> evs[i] != ReadOne(c) && evs[i] != LoopEnd(c) && !(evs[i].Deliver? && evs[i].c == c)
  }

  lemma {:induction false} AnswerWaits(p: Path, lim: Limits, c: nat, evs: seq<Event>)
    requires NotByLoop(c, evs)
    ensures var q := Run(p, lim, evs);
            (c in q.answers <==> c in p.answers) && (c in p.answers ==> q.answers[c] == p.answers[c])
    decreases |evs|
  {
    if evs != [] {
      AnswerWaits(Step(p, lim, evs[0]), lim, c, evs[1..]);
    }
  }

  /** A client that answers a forwarded frame, quoting its session id, is heard
      by exactly the peer that frame came from if the session lives when the
      answer is read, even if it ends before the answer is written; otherwise
      the answer is dropped. */
  lemma AnswerReachesSender(lim: Limits, evs: seq<Event>, k: nat, c: nat, answer: seq<byte>, more: seq<byte>,
                            between: seq<Event>, ok: bool)
    requires 0 < lim.maxSessions && Possible(map[], [], evs)
    requires k < |Run(Fresh, lim, evs).forwards|
    requires c in Run(Fresh, lim, evs).loops && c !in Run(Fresh, lim, evs).answers
    requires |answer| <= lim.maxPacket <= UDP_MAX_PACKET && NotByLoop(c, between)
    ensures var p := Run(Fresh, lim, evs);
            UdpFrame(Datagram(SessionOf(p.forwards[k], lim.maxPacket), answer)).Some?
    ensures var p := Run(Fresh, lim, evs);
            var id := SessionOf(p.forwards[k], lim.maxPacket);
            var p' := p.(inbox := p.inbox[c := UdpFrame(Datagram(id, answer)).value + more]);
            var q := Step(p', lim, ReadOne(c));
            var r := Run(q, lim, between);
            && q.inbox[c] == more
            && Step(r, lim, Deliver(c, ok)).replies
               == r.replies + if FindId(p.table, id).Some? && ok then [Reply(id, answer, p.forwards[k].peer)] else []
  {
    var p := Run(Fresh, lim, evs);
    FreshKeeps(lim, evs);
    var id := SessionOf(p.forwards[k], lim.maxPacket);
    assert Carries(p.forwards[k].frame, p.forwards[k].peer, Drawn(map[], evs), lim.maxPacket);
    ReadAnswer(p, lim, c, Datagram(id, answer), more, p.forwards[k].peer, Drawn(map[], evs));
    var p' := p.(inbox := p.inbox[c := UdpFrame(Datagram(id, answer)).value + more]);
    AnswerWaits(Step(p', lim, ReadOne(c)), lim, c, between);
  }

  lemma ReadAnswer(p: Path, lim: Limits, c: nat, d: Datagram, more: seq<byte>, peer: Peer, issued: map<seq<byte>, Peer>)
    requires TableOwned(p.table, issued) && d.id in issued && issued[d.id] == peer
    requires c in p.loops && c !in p.answers && |d.payload| <= lim.maxPacket <= UDP_MAX_PACKET
      && |d.id| == SESSION_ID_LEN
    ensures UdpFrame(d).Some?
    ensures var q := Step(p.(inbox := p.inbox[c := UdpFrame(d).value + more]), lim, ReadOne(c));
      && c in q.inbox && q.inbox[c] == more
      && (if FindId(p.table, d.id).Some?
          then c in q.answers && q.answers[c] == Reply(d.id, d.payload, peer)
          else c !in q.answers)
  {
    var frame := UdpFrame(d).value;
    UdpReadsBack(d, more, lim.maxPacket);
    assert (frame + more)[|frame|..] == more;
    if FindId(p.table, d.id).Some? {
      var i :| 0 <= i < |p.table| && p.table[i] == FindId(p.table, d.id).value;
    }
  }
}
