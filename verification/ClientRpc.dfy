/** One client control session as interleaved steps: the synchronous calls and
    the read loop of internal/clientcore/client.go, and the order in which
    internal/control/server.go writes its frames. */
module ClientRpc {
  import opened Collections

  datatype TunnelName = TunnelName(text: string)

  /** What a call asks for. `udp` tells a UDP tunnel from a TCP or HTTP one. */
  datatype Spec = Register(name: TunnelName, udp: bool) | Stop(id: TunnelID)

  /** Frames from the server that matter here; any other frame is Other. */
  datatype Frame =
    | Response(seqNo: nat, ok: bool, id: TunnelID)
    | OpenConnection(id: TunnelID)
    | Other

  datatype Request = Request(seqNo: nat, spec: Spec)

  /** Where a call is: numbered, entered in the pending table, waiting on its
      channel, on its way out after a timeout or a failed write, or over. */
  datatype Phase = Numbered | Enlisted | Waiting | Leaving | Answered(reply: Frame) | GaveUp

  /** `mail` is the call's one-place channel; `received` counts what the read
      loop put there. A stray call entered the pending table of the session
      before, which this one replaced. */
  datatype Call = Call(spec: Spec, phase: Phase, mail: Option<Frame>, received: nat, stray: bool)

  /** The client side. `local` is None until a tunnel client exists. */
  datatype Client = Client(
    lastSeq: nat,
    calls: map<nat, Call>,
    pending: map<nat, Spec>,
    local: Option<map<TunnelID, TunnelName>>)

  /** Frames in flight, and history. The request at the head of `toServer` is
      under way once its tunnel exists, under the id in `making`. `grants` says
      which call each id was assigned for, `udps` which ids are UDP tunnels',
      `unread` whose response the client has not read yet, `asked` for which ids
      it has read an open_connection; and the other four why a tunnel whose
      response was read may be missing locally. */
  datatype Session = Session(
    client: Client,
    toServer: seq<Request>,
    toClient: seq<Frame>,
    making: Option<TunnelID>,
    grants: map<TunnelID, nat>,
    udps: set<TunnelID>,
    unread: set<TunnelID>,
    abandoned: set<TunnelID>,
    stopped: set<TunnelID>,
    wiped: set<TunnelID>,
    orphaned: set<TunnelID>,
    asked: set<TunnelID>)

  datatype Event =
    | Begin(spec: Spec)
    | Enlist(n: nat)
    | Send(n: nat)
    | SendFails(n: nat, reachesServer: bool)
    | Timeout(n: nat)
    | Leave(n: nat)
    | Take(n: nat)
    | ForgetLocal(n: nat)
    | Setup
    | ServerMakes(id: TunnelID)
    | ServerGrants
    | ServerStops
    | ServerRefuses
    | ServerOpens(id: TunnelID)
    | Arrives(f: Frame)
    | ReadLoop

  function InPhase(c: Client, n: nat, p: Phase): bool {
    n in c.calls && c.calls[n].phase == p
  }

  function Move(c: Client, n: nat, p: Phase): Client
    requires n in c.calls
  {
    c.(calls := c.calls[n := c.calls[n].(phase := p)])
  }

  /** takePending and the dispatch of a response to its waiter. */
  function Dispatch(c: Client, f: Frame): (d: Client)
    requires f.Response?
  {
    if f.seqNo !in c.pending then c
    else
      var spec := c.pending[f.seqNo];
      var local :=
        if spec.Register? && spec.name.text != "" && f.ok && c.local.Some?
        then Some(c.local.value[f.id := spec.name]) else c.local;
      var calls :=
        if f.seqNo in c.calls && c.calls[f.seqNo].mail.None?
        then c.calls[f.seqNo := c.calls[f.seqNo].(mail := Some(f), received := c.calls[f.seqNo].received + 1)]
        else c.calls;
      c.(pending := c.pending - {f.seqNo}, local := local, calls := calls)
  }

  /** The steps of rpcSpec and of the calls around it. */
  function ClientStep(c: Client, ev: Event): (d: Client)
  {
    match ev
    case Begin(spec) =>
      if c.local.None? then c
      else c.(lastSeq := c.lastSeq + 1, calls := c.calls[c.lastSeq + 1 := Call(spec, Numbered, None, 0, false)])
    case Enlist(n) =>
      if InPhase(c, n, Numbered) then Move(c, n, Enlisted).(pending := c.pending[n := c.calls[n].spec]) else c
    case Send(n) => if InPhase(c, n, Enlisted) then Move(c, n, Waiting) else c
    case SendFails(n, _) => if InPhase(c, n, Enlisted) then Move(c, n, Leaving) else c
    case Timeout(n) => if InPhase(c, n, Waiting) then Move(c, n, Leaving) else c
    case Leave(n) => if InPhase(c, n, Leaving) then Move(c, n, GaveUp).(pending := c.pending - {n}) else c
    case Take(n) =>
      if InPhase(c, n, Waiting) && c.calls[n].mail.Some? then Move(c, n, Answered(c.calls[n].mail.value)) else c
    case ForgetLocal(n) =>
      if n in c.calls && c.calls[n].spec.Stop? && c.calls[n].phase.Answered? && c.local.Some?
      then c.(local := Some(c.local.value - {c.calls[n].spec.id})) else c
    case Setup => c.(local := Some(map[]))
    case _ => c
  }

  predicate Known(c: Client, id: TunnelID) {
    c.local.Some? && id in c.local.value
  }

  /** The call for it had given up, it was stopped, its registry was replaced,
      or the pending table its call had entered was. */
  predicate Excused(s: Session, id: TunnelID) {
    id in s.abandoned || id in s.stopped || id in s.wiped || id in s.orphaned
  }

  predicate Stray(c: Client, n: nat) {
    n in c.calls && c.calls[n].stray
  }

  /** What the read loop does with the frame at the head. An open_connection is
      left to a goroutine that looks its tunnel up at any later time. */
  function AfterRead(s: Session): (t: Session)
    requires s.toClient != []
  {
    var f, rest := s.toClient[0], s.toClient[1..];
    match f
    case Response(n, ok, id) =>
      var own := ok && id in s.unread && id in s.grants && s.grants[id] == n;
      s.(client := Dispatch(s.client, f), toClient := rest,
         unread := if own then s.unread - {id} else s.unread,
         abandoned := if own && n !in s.client.pending && !Stray(s.client, n) then s.abandoned + {id} else s.abandoned,
         orphaned := if own && Stray(s.client, n) then s.orphaned + {id} else s.orphaned)
    case OpenConnection(id) => s.(toClient := rest, asked := s.asked + {id})
    case Other => s.(toClient := rest)
  }

  /** The tunnel exists, and its accept loop runs, before its response is
      written. A blank name is refused, an id is never used twice. */
  function AfterMake(s: Session, id: TunnelID): (t: Session)
  {
    if s.toServer == [] || s.making.Some? || id in s.grants then s
    else
      var q := s.toServer[0];
      if q.spec.Stop? || q.spec.name.text == "" then s
      else s.(making := Some(id), grants := s.grants[id := q.seqNo], unread := s.unread + {id},
              udps := if q.spec.udp then s.udps + {id} else s.udps)
  }

  /** A TCP tunnel may be opened as soon as it exists, a UDP tunnel only after its
      response was written. */
  predicate MayOpen(s: Session, id: TunnelID) {
    id in s.grants && (id in s.udps ==> s.making != Some(id))
  }

  function Step(s: Session, ev: Event): (t: Session)
  {
    var t := s.(client := ClientStep(s.client, ev));
    match ev
    case Send(n) =>
      if InPhase(s.client, n, Enlisted) then t.(toServer := s.toServer + [Request(n, s.client.calls[n].spec)]) else t
    case SendFails(n, reaches) =>
      if InPhase(s.client, n, Enlisted) && reaches
      then t.(toServer := s.toServer + [Request(n, s.client.calls[n].spec)]) else t
    case ForgetLocal(n) =>
      if n in s.client.calls && s.client.calls[n].spec.Stop? && s.client.calls[n].phase.Answered?
         && Known(s.client, s.client.calls[n].spec.id)
      then t.(stopped := s.stopped + {s.client.calls[n].spec.id}) else t
    case Setup => if s.client.local.Some? then t.(wiped := s.wiped + s.client.local.value.Keys) else t
    case ServerMakes(id) => AfterMake(s, id)
    case ServerGrants =>
      if s.toServer == [] || s.making.None? then s
      else s.(toServer := s.toServer[1..], making := None,
              toClient := s.toClient + [Response(s.toServer[0].seqNo, true, s.making.value)])
    case ServerStops =>
      if s.toServer == [] || s.making.Some? || !s.toServer[0].spec.Stop? then s
      else s.(toServer := s.toServer[1..],
              toClient := s.toClient + [Response(s.toServer[0].seqNo, true, s.toServer[0].spec.id)])
    case ServerRefuses =>
      if s.toServer == [] || s.making.Some? then s
      else s.(toServer := s.toServer[1..],
              toClient := s.toClient + [Response(s.toServer[0].seqNo, false, TunnelID(""))])
    case ServerOpens(id) => if MayOpen(s, id) then s.(toClient := s.toClient + [OpenConnection(id)]) else s
    case Arrives(f) => s.(toClient := s.toClient + [f])
    case ReadLoop => if s.toClient == [] then s else AfterRead(s)
    case _ => t
  }

  function Run(s: Session, evs: seq<Event>): (t: Session)
    decreases |evs|
  {
    if evs == [] then s else Run(Step(s, evs[0]), evs[1..])
  }

  /** What a session starts from. `local` is None in a first session; a
      reconnecting client still has the tunnel client of the session before, and
      may have calls under way. */
  datatype Before = Before(local: Option<map<TunnelID, TunnelName>>, lastSeq: nat, calls: map<nat, Call>)

  /** Every call but one that is only numbered is stray. It may go on to write
      on the new connection, but nothing waits for the answer any more; a call
      may also have its answer already. */
  ghost predicate Possible(b: Before) {
    && (b.local.None? ==> b.calls == map[])
    && (forall n :: n in b.calls ==>
          && n <= b.lastSeq && CallSound(n, b.calls[n], map[])
          && (b.calls[n].stray <==> b.calls[n].phase != Numbered)
          && (b.calls[n].phase == Enlisted ==> b.calls[n].mail.None?))
  }

  function Start(b: Before): Session {
    Session(Client(b.lastSeq, b.calls, map[], b.local), [], [], None, map[], {}, {}, {}, {}, {}, {}, {})
  }

  // ---- one reply per call, whatever the server sends ---------------------------------

  /** A call is in the pending table exactly while it can still be answered; a
      waiter that is not has its reply already, or is stray. */
  ghost predicate CallSound(n: nat, call: Call, pending: map<nat, Spec>) {
    && (call.mail.Some? ==> call.mail.value.Response? && call.mail.value.seqNo == n)
    && call.received == (if call.mail.Some? then 1 else 0)
    && (n in pending ==> call.mail.None? && (call.phase == Enlisted || call.phase == Waiting || call.phase == Leaving))
    && (call.phase == Numbered ==> call.mail.None?)
    && (call.phase == Enlisted || call.phase == Waiting ==> n in pending || call.mail.Some? || call.stray)
    && (call.stray ==> n !in pending && call.phase != Numbered)
    && (call.phase.Answered? ==> call.mail == Some(call.phase.reply))
  }

  ghost predicate Sound(c: Client) {
    && (forall n :: n in c.calls ==> n <= c.lastSeq && CallSound(n, c.calls[n], c.pending))
    && (forall n :: n in c.pending ==> n in c.calls && c.pending[n] == c.calls[n].spec)
  }

  lemma CallStepSound(c: Client, ev: Event, n: nat)
    requires Sound(c) && n in ClientStep(c, ev).calls
    ensures n <= ClientStep(c, ev).lastSeq && CallSound(n, ClientStep(c, ev).calls[n], ClientStep(c, ev).pending)
  {
    assert n in c.calls ==> CallSound(n, c.calls[n], c.pending);
  }

  lemma ClientStepSound(c: Client, ev: Event)
    requires Sound(c)
    ensures Sound(ClientStep(c, ev))
  {
    var d := ClientStep(c, ev);
    forall n | n in d.calls
      ensures n <= d.lastSeq && CallSound(n, d.calls[n], d.pending)
    {
      CallStepSound(c, ev, n);
    }
  }

  lemma DispatchSound(c: Client, f: Frame)
    requires Sound(c) && f.Response?
    ensures Sound(Dispatch(c, f))
  {
    var d := Dispatch(c, f);
    forall n | n in d.calls
      ensures n <= d.lastSeq && CallSound(n, d.calls[n], d.pending)
    {
      assert n in c.calls && CallSound(n, c.calls[n], c.pending);
    }
  }

  lemma StepSound(s: Session, ev: Event)
    requires Sound(s.client)
    ensures Sound(Step(s, ev).client)
  {
    ClientStepSound(s.client, ev);
    if ev == ReadLoop && s.toClient != [] && s.toClient[0].Response? {
      DispatchSound(s.client, s.toClient[0]);
    }
  }

  lemma {:induction false} RunSound(s: Session, evs: seq<Event>)
    requires Sound(s.client)
    ensures Sound(Run(s, evs).client)
    decreases |evs|
  {
    if evs != [] {
      StepSound(s, evs[0]);
      RunSound(Step(s, evs[0]), evs[1..]);
    }
  }

  /** In every interleaving, and even if the server sends arbitrary, repeated or
      unsolicited frames: a call gets at most one reply, with its own number,
      and once over it leaves nothing in the pending table; a waiter whose entry
      is gone has its reply, unless the table it had entered was replaced. */
  lemma EachCallAnsweredOnce(b: Before, evs: seq<Event>, n: nat)
    requires Possible(b) && n in Run(Start(b), evs).client.calls
    ensures var c := Run(Start(b), evs).client;
            var call := c.calls[n];
      && call.received <= 1
      && (call.phase.Answered? ==> call.phase.reply.Response? && call.phase.reply.seqNo == n)
      && (call.phase.Answered? || call.phase == GaveUp ==> n !in c.pending)
      && (call.phase == Waiting && n !in c.pending ==> call.mail.Some? || call.stray)
  {
    RunSound(Start(b), evs);
  }

  /** Stray calls are those of the session before that were in its pending
      table, and nothing is ever delivered to them. */
  lemma StraysGetNothing(b: Before, evs: seq<Event>, n: nat)
    requires Possible(b)
    ensures Stray(Run(Start(b), evs).client, n) <==> n in b.calls && b.calls[n].phase != Numbered
    ensures Stray(Run(Start(b), evs).client, n) ==> Run(Start(b), evs).client.calls[n].mail == b.calls[n].mail
  {
    RunStrays(Start(b), evs, n);
  }

  lemma {:induction false} RunStrays(s: Session, evs: seq<Event>, n: nat)
    requires Sound(s.client)
    ensures Stray(Run(s, evs).client, n) <==> Stray(s.client, n)
    ensures Stray(s.client, n) ==> Run(s, evs).client.calls[n].mail == s.client.calls[n].mail
    decreases |evs|
  {
    if evs != [] {
      StepSound(s, evs[0]);
      StepStrays(s, evs[0], n);
      RunStrays(Step(s, evs[0]), evs[1..], n);
    }
  }

  lemma StepStrays(s: Session, ev: Event, n: nat)
    requires Sound(s.client)
    ensures var t := Step(s, ev).client;
      && (Stray(t, n) <==> Stray(s.client, n))
      && (Stray(t, n) ==> t.calls[n].mail == s.client.calls[n].mail)
  {
    if ev == ReadLoop && s.toClient != [] && s.toClient[0].Response? {
      assert Step(s, ev).client == Dispatch(s.client, s.toClient[0]);
    } else {
      ClientStrays(s.client, ev, n);
    }
  }

  lemma ClientStrays(c: Client, ev: Event, n: nat)
    requires Sound(c)
    ensures Stray(ClientStep(c, ev), n) <==> Stray(c, n)
    ensures Stray(c, n) ==> ClientStep(c, ev).calls[n].mail == c.calls[n].mail
  {
    assert n in c.calls ==> n <= c.lastSeq;
  }

  // ---- the tunnel is known when its open_connection is handled -----------------------------

  /** Frames come from the server as it is written. */
  ghost predicate Honest(evs: seq<Event>) {
    forall i :: 0 <= i < |evs| ==> evs[i].Arrives? ==> evs[i].f == Other
  }

  /** A call whose request or response is under way has no reply yet. */
  ghost predicate Open(n: nat, calls: map<nat, Call>) {
    && n in calls && calls[n].mail.None?
    && (calls[n].phase == Waiting || calls[n].phase == Leaving || calls[n].phase == GaveUp)
  }

  ghost predicate InFlight(toServer: seq<Request>, toClient: seq<Frame>, calls: map<nat, Call>) {
    && (forall i :: 0 <= i < |toServer| ==>
          Open(toServer[i].seqNo, calls) && toServer[i].spec == calls[toServer[i].seqNo].spec)
    && (forall i :: 0 <= i < |toClient| && toClient[i].Response? ==> Open(toClient[i].seqNo, calls))
    && (forall i, j :: 0 <= i < j < |toServer| ==> toServer[i].seqNo != toServer[j].seqNo)
    && (forall i, j :: 0 <= i < j < |toClient| && toClient[i].Response? && toClient[j].Response? ==>
          toClient[i].seqNo != toClient[j].seqNo)
    && (forall i, j :: 0 <= i < |toServer| && 0 <= j < |toClient| && toClient[j].Response? ==>
          toServer[i].seqNo != toClient[j].seqNo)
  }

  /** Nothing answers a request that was not sent. */
  ghost predicate Quiet(calls: map<nat, Call>) {
    forall n :: n in calls && calls[n].phase == Enlisted ==> calls[n].mail.None?
  }

  ghost predicate Announced(toClient: seq<Frame>, i: nat, id: TunnelID, n: nat) {
    exists j :: 0 <= j < i <= |toClient| && toClient[j] == Response(n, true, id)
  }

  /** The response that announces a UDP tunnel precedes every open_connection for
      it, and every tunnel whose response is unread has one, but for the tunnel
      being made. */
  ghost predicate Ordered(toClient: seq<Frame>, making: Option<TunnelID>, grants: map<TunnelID, nat>,
                          udps: set<TunnelID>, unread: set<TunnelID>) {
    && (forall i :: 0 <= i < |toClient| && toClient[i].OpenConnection? ==> toClient[i].id in grants)
    && (forall i :: 0 <= i < |toClient| && toClient[i].OpenConnection?
                    && toClient[i].id in udps && toClient[i].id in unread ==>
          Announced(toClient, i, toClient[i].id, grants[toClient[i].id]))
    && (forall id :: id in unread ==> id in grants)
    && (forall id :: id in unread && making != Some(id) ==> Announced(toClient, |toClient|, id, grants[id]))
  }

  /** The tunnel being made is the one the request at the head asked for. */
  ghost predicate Making(toServer: seq<Request>, making: Option<TunnelID>, grants: map<TunnelID, nat>,
                         unread: set<TunnelID>) {
    making.Some? ==>
      && toServer != [] && toServer[0].spec.Register?
      && making.value in grants && grants[making.value] == toServer[0].seqNo && making.value in unread
  }

  /** Every tunnel whose response was read is in the local registry, or there is
      another reason. */
  ghost predicate Accounted(s: Session) {
    forall id :: id in s.grants && id !in s.unread ==>
      Known(s.client, id) || Excused(s, id)
  }

  /** Assigned ids belong to register calls with a proper name; an id counts as
      abandoned only if its call timed out or failed to send, and as orphaned
      only if its call is stray and was not answered before. */
  ghost predicate Reasons(grants: map<TunnelID, nat>, abandoned: set<TunnelID>, orphaned: set<TunnelID>,
                          calls: map<nat, Call>) {
    && (forall id :: id in grants ==>
          && grants[id] in calls && calls[grants[id]].spec.Register? && calls[grants[id]].spec.name.text != "")
    && (forall id :: id in abandoned ==>
          id in grants && (calls[grants[id]].phase == Leaving || calls[grants[id]].phase == GaveUp))
    && (forall id :: id in orphaned ==>
          id in grants && calls[grants[id]].stray && calls[grants[id]].mail.None?)
  }

  /** The response of a UDP tunnel was read before any open_connection for it. */
  ghost predicate AskedKnown(asked: set<TunnelID>, grants: map<TunnelID, nat>, udps: set<TunnelID>,
                             unread: set<TunnelID>) {
    forall id :: id in asked ==> id in grants && (id in udps ==> id !in unread)
  }

  ghost predicate Inv(s: Session) {
    && Sound(s.client) && Quiet(s.client.calls)
    && (s.client.local.None? ==> s.client.calls == map[])
    && InFlight(s.toServer, s.toClient, s.client.calls)
    && Making(s.toServer, s.making, s.grants, s.unread)
    && Ordered(s.toClient, s.making, s.grants, s.udps, s.unread)
    && Accounted(s)
    && Reasons(s.grants, s.abandoned, s.orphaned, s.client.calls)
    && AskedKnown(s.asked, s.grants, s.udps, s.unread)
  }

  // ---- each part of the invariant, step by step ---------------------------------------

  lemma OpenStays(c: Client, ev: Event, n: nat)
    requires Sound(c) && Open(n, c.calls)
    ensures Open(n, ClientStep(c, ev).calls) && ClientStep(c, ev).calls[n].spec == c.calls[n].spec
  {
    assert n <= c.lastSeq;
  }

  lemma ClientInFlight(s: Session, ev: Event)
    requires Sound(s.client) && InFlight(s.toServer, s.toClient, s.client.calls)
    ensures InFlight(s.toServer, s.toClient, ClientStep(s.client, ev).calls)
  {
    forall i | 0 <= i < |s.toServer|
      ensures Open(s.toServer[i].seqNo, ClientStep(s.client, ev).calls)
      ensures s.toServer[i].spec == ClientStep(s.client, ev).calls[s.toServer[i].seqNo].spec
    {
      OpenStays(s.client, ev, s.toServer[i].seqNo);
    }
    forall i | 0 <= i < |s.toClient| && s.toClient[i].Response?
      ensures Open(s.toClient[i].seqNo, ClientStep(s.client, ev).calls)
    {
      OpenStays(s.client, ev, s.toClient[i].seqNo);
    }
  }

  lemma SendInFlight(s: Session, ev: Event, n: nat)
    requires ev == Send(n) || (ev.SendFails? && ev.n == n)
    requires Sound(s.client) && Quiet(s.client.calls) && InFlight(s.toServer, s.toClient, s.client.calls)
    requires InPhase(s.client, n, Enlisted)
    ensures InFlight(s.toServer + [Request(n, s.client.calls[n].spec)], s.toClient, ClientStep(s.client, ev).calls)
  {
    ClientInFlight(s, ev);
  }

  lemma AnswerInFlight(toServer: seq<Request>, toClient: seq<Frame>, calls: map<nat, Call>, ok: bool, id: TunnelID)
    requires toServer != [] && InFlight(toServer, toClient, calls)
    ensures InFlight(toServer[1..], toClient + [Response(toServer[0].seqNo, ok, id)], calls)
  {
  }

  lemma NoteInFlight(toServer: seq<Request>, toClient: seq<Frame>, calls: map<nat, Call>, f: Frame)
    requires !f.Response? && InFlight(toServer, toClient, calls)
    ensures InFlight(toServer, toClient + [f], calls)
  {
  }

  lemma TailInFlight(toServer: seq<Request>, toClient: seq<Frame>, c: Client)
    requires toClient != [] && InFlight(toServer, toClient, c.calls)
    ensures InFlight(toServer, toClient[1..], if toClient[0].Response? then Dispatch(c, toClient[0]).calls else c.calls)
  {
    if toClient[0].Response? {
      var n, calls := toClient[0].seqNo, Dispatch(c, toClient[0]).calls;
      forall m | m != n && Open(m, c.calls)
        ensures Open(m, calls) && calls[m].spec == c.calls[m].spec
      {
      }
      assert InFlight(toServer, toClient[1..], calls);
    }
  }

  lemma AnnouncedMore(toClient: seq<Frame>, f: Frame, i: nat, id: TunnelID, n: nat)
    requires Announced(toClient, i, id, n)
    ensures Announced(toClient + [f], i, id, n)
  {
    var j :| 0 <= j < i <= |toClient| && toClient[j] == Response(n, true, id);
    assert (toClient + [f])[j] == Response(n, true, id);
  }

  lemma AnnouncedTail(toClient: seq<Frame>, i: nat, id: TunnelID, n: nat)
    requires 0 < i && Announced(toClient, i, id, n) && toClient[0] != Response(n, true, id)
    ensures Announced(toClient[1..], i - 1, id, n)
  {
    var j :| 0 <= j < i <= |toClient| && toClient[j] == Response(n, true, id);
    assert toClient[1..][j - 1] == Response(n, true, id);
  }

  /** Appending a frame: an open_connection for a UDP tunnel only once it was
      announced. */
  lemma OrderedMore(toClient: seq<Frame>, making: Option<TunnelID>, grants: map<TunnelID, nat>,
                    udps: set<TunnelID>, unread: set<TunnelID>, f: Frame)
    requires Ordered(toClient, making, grants, udps, unread)
    requires f.OpenConnection? ==> f.id in grants && (f.id in udps ==> making != Some(f.id))
    ensures Ordered(toClient + [f], making, grants, udps, unread)
  {
    var q := toClient + [f];
    forall i | 0 <= i < |q| && q[i].OpenConnection? && q[i].id in udps && q[i].id in unread
      ensures Announced(q, i, q[i].id, grants[q[i].id])
    {
      AnnouncedMore(toClient, f, if i < |toClient| then i else |toClient|, q[i].id, grants[q[i].id]);
    }
    forall id | id in unread && making != Some(id)
      ensures Announced(q, |q|, id, grants[id])
    {
      AnnouncedMore(toClient, f, |toClient|, id, grants[id]);
      var j :| 0 <= j < |toClient| && q[j] == Response(grants[id], true, id);
    }
  }

  /** Making a tunnel under a new id. */
  lemma OrderedMake(toClient: seq<Frame>, grants: map<TunnelID, nat>, udps: set<TunnelID>, unread: set<TunnelID>,
                    id: TunnelID, n: nat, udp: bool)
    requires Ordered(toClient, None, grants, udps, unread) && id !in grants
    ensures Ordered(toClient, Some(id), grants[id := n], if udp then udps + {id} else udps, unread + {id})
  {
  }

  /** The response for the tunnel being made. */
  lemma OrderedGrant(toClient: seq<Frame>, grants: map<TunnelID, nat>, udps: set<TunnelID>, unread: set<TunnelID>,
                     id: TunnelID)
    requires Ordered(toClient, Some(id), grants, udps, unread) && id in grants
    ensures Ordered(toClient + [Response(grants[id], true, id)], None, grants, udps, unread)
  {
    var f := Response(grants[id], true, id);
    OrderedMore(toClient, Some(id), grants, udps, unread, f);
    assert (toClient + [f])[|toClient|] == f;
    assert Announced(toClient + [f], |toClient| + 1, id, grants[id]);
  }

  /** Reading the head; a response that announces a tunnel marks it read. */
  lemma OrderedTail(toClient: seq<Frame>, making: Option<TunnelID>, grants: map<TunnelID, nat>,
                    udps: set<TunnelID>, unread: set<TunnelID>, own: set<TunnelID>)
    requires toClient != [] && Ordered(toClient, making, grants, udps, unread)
    requires forall id :: id in unread - own && making != Some(id) ==> toClient[0] != Response(grants[id], true, id)
    requires forall id :: id in udps && id in unread - own ==> toClient[0] != Response(grants[id], true, id)
    ensures Ordered(toClient[1..], making, grants, udps, unread - own)
    ensures toClient[0].OpenConnection? ==>
      toClient[0].id in grants && (toClient[0].id in udps ==> toClient[0].id !in unread)
  {
    var q := toClient[1..];
    forall i | 0 <= i < |q| && q[i].OpenConnection? && q[i].id in udps && q[i].id in unread - own
      ensures Announced(q, i, q[i].id, grants[q[i].id])
    {
      assert q[i] == toClient[i + 1];
      AnnouncedTail(toClient, i + 1, q[i].id, grants[q[i].id]);
    }
    forall id | id in unread - own && making != Some(id)
      ensures Announced(q, |q|, id, grants[id])
    {
      AnnouncedTail(toClient, |toClient|, id, grants[id]);
    }
  }

  // ---- the invariant, event by event -----------------------------------------------------

  /** Steps of the callers, not of the server or the read loop. */
  predicate ByCaller(ev: Event) {
    ev.Begin? || ev.Enlist? || ev.Send? || ev.SendFails? || ev.Timeout? || ev.Leave? || ev.Take?
      || ev.ForgetLocal? || ev.Setup?
  }

  /** What no step of a caller changes about a call. */
  lemma CallKept(c: Client, ev: Event, n: nat)
    requires Sound(c) && n in c.calls
    ensures var calls := ClientStep(c, ev).calls;
      && n in calls && calls[n].spec == c.calls[n].spec && calls[n].stray == c.calls[n].stray
      && calls[n].mail == c.calls[n].mail
      && (c.calls[n].phase == Leaving || c.calls[n].phase == GaveUp ==>
        calls[n].phase == Leaving || calls[n].phase == GaveUp)
  {
    assert n <= c.lastSeq;
  }

  lemma ReasonsKept(c: Client, ev: Event, grants: map<TunnelID, nat>, abandoned: set<TunnelID>, orphaned: set<TunnelID>)
    requires Sound(c) && Reasons(grants, abandoned, orphaned, c.calls)
    ensures Reasons(grants, abandoned, orphaned, ClientStep(c, ev).calls)
  {
    var calls := ClientStep(c, ev).calls;
    forall id | id in grants
      ensures grants[id] in calls && calls[grants[id]].spec == c.calls[grants[id]].spec
    {
      CallKept(c, ev, grants[id]);
    }
    forall id | id in abandoned
      ensures calls[grants[id]].phase == Leaving || calls[grants[id]].phase == GaveUp
    {
      CallKept(c, ev, grants[id]);
    }
    forall id | id in orphaned
      ensures calls[grants[id]].stray && calls[grants[id]].mail.None?
    {
      CallKept(c, ev, grants[id]);
    }
  }

  lemma CallerKeeps(s: Session, ev: Event)
    requires Inv(s) && ByCaller(ev)
    ensures Inv(Step(s, ev))
  {
    var t := Step(s, ev);
    ClientStepSound(s.client, ev);
    ReasonsKept(s.client, ev, s.grants, s.abandoned, s.orphaned);
    ClientInFlight(s, ev);
    if (ev.Send? || ev.SendFails?) && InPhase(s.client, ev.n, Enlisted) {
      SendInFlight(s, ev, ev.n);
    }
    CallerAccounted(s, ev);
    CallerQuiet(s.client, ev);
    CallerOnly(s, ev);
  }

  /** Callers only add requests, and leave the rest of the connection alone. */
  lemma CallerOnly(s: Session, ev: Event)
    requires ByCaller(ev)
    ensures var t := Step(s, ev);
      && s.toServer <= t.toServer && t.toClient == s.toClient && t.making == s.making
      && t.grants == s.grants && t.udps == s.udps && t.unread == s.unread && t.asked == s.asked
      && t.abandoned == s.abandoned && t.orphaned == s.orphaned && t.client == ClientStep(s.client, ev)
      && (t.toServer == s.toServer
          || ((ev.Send? || ev.SendFails?) && InPhase(s.client, ev.n, Enlisted)
              && t.toServer == s.toServer + [Request(ev.n, s.client.calls[ev.n].spec)]))
  {
  }

  lemma CallerQuiet(c: Client, ev: Event)
    requires Quiet(c.calls) && Sound(c) && (c.local.None? ==> c.calls == map[])
    ensures Quiet(ClientStep(c, ev).calls)
    ensures ClientStep(c, ev).local.None? ==> ClientStep(c, ev).calls == map[]
  {
    var d := ClientStep(c, ev);
    forall n | n in d.calls && d.calls[n].phase == Enlisted
      ensures d.calls[n].mail.None?
    {
      if n in c.calls {
        assert CallSound(n, c.calls[n], c.pending);
      }
    }
  }

  lemma CallerAccounted(s: Session, ev: Event)
    requires Accounted(s) && ByCaller(ev)
    requires s.client.local.None? ==> s.client.calls == map[]
    requires Reasons(s.grants, s.abandoned, s.orphaned, s.client.calls)
    ensures Accounted(Step(s, ev))
  {
  }

  /** Steps of the server. */
  predicate ByServer(ev: Event) {
    ev.ServerMakes? || ev.ServerGrants? || ev.ServerStops? || ev.ServerRefuses? || ev.ServerOpens?
      || ev == Arrives(Other)
  }

  lemma ServerKeeps(s: Session, ev: Event)
    requires Inv(s) && ByServer(ev)
    ensures Inv(Step(s, ev))
  {
    match ev
    case ServerMakes(id) => MakeKeeps(s, id);
    case ServerGrants => GrantKeeps(s);
    case ServerStops =>
      if s.toServer != [] && s.toServer[0].spec.Stop? {
        AnswerKeeps(s, ev, true, s.toServer[0].spec.id);
      }
    case ServerRefuses =>
      if s.toServer != [] {
        AnswerKeeps(s, ev, false, TunnelID(""));
      }
    case ServerOpens(id) =>
      if MayOpen(s, id) {
        NoteInFlight(s.toServer, s.toClient, s.client.calls, OpenConnection(id));
        OrderedMore(s.toClient, s.making, s.grants, s.udps, s.unread, OpenConnection(id));
      }
    case Arrives(f) =>
      NoteInFlight(s.toServer, s.toClient, s.client.calls, f);
      OrderedMore(s.toClient, s.making, s.grants, s.udps, s.unread, f);
  }

  lemma AnswerKeeps(s: Session, ev: Event, ok: bool, id: TunnelID)
    requires Inv(s) && s.toServer != []
    requires ev == ServerStops || ev == ServerRefuses
    requires s.making.None? ==>
      Step(s, ev).toClient == s.toClient + [Response(s.toServer[0].seqNo, ok, id)]
    ensures Inv(Step(s, ev))
  {
    if s.making.None? {
      AnswerInFlight(s.toServer, s.toClient, s.client.calls, ok, id);
      OrderedMore(s.toClient, None, s.grants, s.udps, s.unread, Response(s.toServer[0].seqNo, ok, id));
    }
  }

  lemma MakeKeeps(s: Session, id: TunnelID)
    requires Inv(s)
    ensures Inv(Step(s, ServerMakes(id)))
  {
    var t := AfterMake(s, id);
    if t != s {
      var q := s.toServer[0];
      OrderedMake(s.toClient, s.grants, s.udps, s.unread, id, q.seqNo, q.spec.udp);
      assert Open(q.seqNo, s.client.calls);
      assert Reasons(t.grants, s.abandoned, s.orphaned, s.client.calls);
      assert Accounted(t);
    }
  }

  lemma GrantKeeps(s: Session)
    requires Inv(s)
    ensures Inv(Step(s, ServerGrants))
  {
    if s.making.Some? {
      AnswerInFlight(s.toServer, s.toClient, s.client.calls, true, s.making.value);
      OrderedGrant(s.toClient, s.grants, s.udps, s.unread, s.making.value);
      assert Accounted(Step(s, ServerGrants));
    }
  }

  lemma ReadKeeps(s: Session)
    requires Inv(s) && s.toClient != []
    ensures Inv(AfterRead(s))
  {
    var f := s.toClient[0];
    TailInFlight(s.toServer, s.toClient, s.client);
    if f.Response? {
      ReadResponseKeeps(s);
    } else {
      OrderedTail(s.toClient, s.making, s.grants, s.udps, s.unread, {});
      assert s.unread - {} == s.unread;
      assert Accounted(AfterRead(s));
    }
  }

  lemma ReadResponseKeeps(s: Session)
    requires Inv(s) && s.toClient != [] && s.toClient[0].Response?
    ensures Inv(AfterRead(s))
  {
    var f, t := s.toClient[0], AfterRead(s);
    var own := f.ok && f.id in s.unread && f.id in s.grants && s.grants[f.id] == f.seqNo;
    TailInFlight(s.toServer, s.toClient, s.client);
    DispatchSound(s.client, f);
    assert Open(f.seqNo, s.client.calls);
    if s.making.Some? {
      assert s.toServer[0].seqNo != f.seqNo;
    }
    OrderedTail(s.toClient, s.making, s.grants, s.udps, s.unread, if own then {f.id} else {});
    assert s.unread - {} == s.unread;
    ReadAccounted(s, f);
    ReadReasons(s, f);
  }

  lemma ReadAccounted(s: Session, f: Frame)
    requires Sound(s.client) && Accounted(s) && Reasons(s.grants, s.abandoned, s.orphaned, s.client.calls)
    requires s.client.local.None? ==> s.client.calls == map[]
    requires s.toClient != [] && f == s.toClient[0] && f.Response?
    ensures Accounted(AfterRead(s))
  {
  }

  lemma ReadReasons(s: Session, f: Frame)
    requires s.toClient != [] && f == s.toClient[0] && f.Response?
    requires Sound(s.client) && Open(f.seqNo, s.client.calls)
    requires Reasons(s.grants, s.abandoned, s.orphaned, s.client.calls)
    ensures Reasons(s.grants, AfterRead(s).abandoned, AfterRead(s).orphaned, AfterRead(s).client.calls)
  {
    assert CallSound(f.seqNo, s.client.calls[f.seqNo], s.client.pending);
  }

  lemma StepKeeps(s: Session, ev: Event)
    requires Inv(s) && (ev.Arrives? ==> ev.f == Other)
    ensures Inv(Step(s, ev))
  {
    if ByCaller(ev) {
      CallerKeeps(s, ev);
    } else if ev == ReadLoop {
      if s.toClient != [] {
        ReadKeeps(s);
      }
    } else {
      ServerKeeps(s, ev);
    }
  }

  lemma {:induction false} RunKeeps(s: Session, evs: seq<Event>)
    requires Inv(s) && Honest(evs)
    ensures Inv(Run(s, evs))
    decreases |evs|
  {
    if evs != [] {
      StepKeeps(s, evs[0]);
      RunKeeps(Step(s, evs[0]), evs[1..]);
    }
  }

  /** What a session starts from meets the invariant. */
  lemma StartKeeps(b: Before, evs: seq<Event>)
    requires Possible(b) && Honest(evs)
    ensures Inv(Run(Start(b), evs))
  {
    RunKeeps(Start(b), evs);
  }

  /** With the server as written, at any time after the read loop has read an
      open_connection: its tunnel is in the local registry, unless its register
      call timed out or failed to send, it was stopped, the registry it was in
      has been replaced, its register call had entered the pending table of the
      session before, or it is no UDP tunnel and its response is not read yet. */
  lemma TunnelKnownWhenOpened(b: Before, evs: seq<Event>, id: TunnelID)
    requires Possible(b) && Honest(evs) && id in Run(Start(b), evs).asked
    ensures var s := Run(Start(b), evs);
            id in s.grants && (Known(s.client, id) || Excused(s, id) || (id in s.unread && id !in s.udps))
  {
    StartKeeps(b, evs);
  }

  /** An abandoned tunnel is one whose register call timed out or failed to
      send. */
  lemma AbandonedByItsCall(b: Before, evs: seq<Event>, id: TunnelID)
    requires Possible(b) && Honest(evs) && id in Run(Start(b), evs).abandoned
    ensures var s := Run(Start(b), evs);
      && id in s.grants && s.grants[id] in s.client.calls
      && (s.client.calls[s.grants[id]].phase == Leaving || s.client.calls[s.grants[id]].phase == GaveUp)
  {
    StartKeeps(b, evs);
  }

  /** An orphaned tunnel is one that a call from before the session asked for,
      and that call never gets the answer. */
  lemma OrphanedByReplacement(b: Before, evs: seq<Event>, id: TunnelID)
    requires Possible(b) && Honest(evs) && id in Run(Start(b), evs).orphaned
    ensures var s := Run(Start(b), evs);
      && id in s.grants && s.grants[id] in b.calls && s.grants[id] in s.client.calls
      && b.calls[s.grants[id]].phase != Numbered
      && s.client.calls[s.grants[id]].spec.Register? && s.client.calls[s.grants[id]].mail.None?
  {
    StartKeeps(b, evs);
    StraysGetNothing(b, evs, Run(Start(b), evs).grants[id]);
  }

  /** In every run, a response at the head of the connection belongs to a call
      not answered yet; if that is waiting and not stray, the read loop hands it
      over and the call returns it, and a granted tunnel is in the registry by
      then. */
  lemma ResponseIsDelivered(b: Before, evs: seq<Event>, n: nat, ok: bool, id: TunnelID)
    requires Possible(b) && Honest(evs)
    requires Run(Start(b), evs).toClient != [] && Run(Start(b), evs).toClient[0] == Response(n, ok, id)
    ensures var s := Run(Start(b), evs);
            Open(n, s.client.calls)
    ensures var s := Run(Start(b), evs);
            s.client.calls[n].phase == Waiting && !s.client.calls[n].stray ==> Delivered(s, n, ok, id)
  {
    StartKeeps(b, evs);
    var s := Run(Start(b), evs);
    assert s.toClient[0].Response?;
    assert Open(n, s.client.calls);
    if s.client.calls[n].phase == Waiting && !s.client.calls[n].stray {
      WaiterServed(s, n, ok, id);
    }
  }

  lemma WaiterServed(s: Session, n: nat, ok: bool, id: TunnelID)
    requires Sound(s.client) && s.client.local.Some? && s.toClient != [] && s.toClient[0] == Response(n, ok, id)
    requires Open(n, s.client.calls) && s.client.calls[n].phase == Waiting && !s.client.calls[n].stray
    ensures Delivered(s, n, ok, id)
  {
    assert CallSound(n, s.client.calls[n], s.client.pending);
    var t := Step(s, ReadLoop);
    assert t.client == Dispatch(s.client, s.toClient[0]);
    assert Step(t, Take(n)).client == ClientStep(t.client, Take(n));
  }

  ghost predicate Delivered(s: Session, n: nat, ok: bool, id: TunnelID)
    requires n in s.client.calls
  {
    var spec, c := s.client.calls[n].spec, Step(Step(s, ReadLoop), Take(n)).client;
    && InPhase(c, n, Answered(Response(n, ok, id)))
    && n !in c.pending
    && (ok && spec.Register? && spec.name.text != "" ==> Known(c, id) && c.local.value[id] == spec.name)
  }

  // ---- and the reasons are exact ---------------------------------------------------------

  /** Apart from the ids in `kept`, which no grant repeats, the registry holds only
      tunnels granted in this session and announced. */
  ghost predicate LocalGranted(c: Client, grants: map<TunnelID, nat>, unread: set<TunnelID>, kept: set<TunnelID>) {
    && (forall id :: id in grants ==> id !in kept)
    && (forall id :: Known(c, id) && id !in kept ==> id in grants && id !in unread)
  }

  ghost predicate ExcusedGone(s: Session, kept: set<TunnelID>) {
    forall id :: Excused(s, id) && id !in kept ==> id in s.grants && id !in s.unread && !Known(s.client, id)
  }

  /** A granting response on its way is the only one for its tunnel. */
  ghost predicate GrantsUnread(toClient: seq<Frame>, calls: map<nat, Call>, grants: map<TunnelID, nat>,
                               unread: set<TunnelID>) {
    forall i :: 0 <= i < |toClient| ==> GrantUnread(toClient[i], calls, grants, unread)
  }

  ghost predicate GrantUnread(f: Frame, calls: map<nat, Call>, grants: map<TunnelID, nat>, unread: set<TunnelID>) {
    f.Response? && f.ok && f.seqNo in calls && calls[f.seqNo].spec.Register? ==>
      f.id in unread && f.id in grants && grants[f.id] == f.seqNo
  }

  ghost predicate Exact(s: Session, kept: set<TunnelID>) {
    && LocalGranted(s.client, s.grants, s.unread, kept)
    && ExcusedGone(s, kept)
    && GrantsUnread(s.toClient, s.client.calls, s.grants, s.unread)
  }

  lemma CallerExact(s: Session, ev: Event, kept: set<TunnelID>)
    requires Inv(s) && Exact(s, kept) && ByCaller(ev)
    ensures Exact(Step(s, ev), kept)
  {
    CallerGrants(s, ev);
    CallerGone(s, ev, kept);
  }

  lemma CallerGrants(s: Session, ev: Event)
    requires Sound(s.client) && InFlight(s.toServer, s.toClient, s.client.calls)
    requires GrantsUnread(s.toClient, s.client.calls, s.grants, s.unread)
    ensures GrantsUnread(s.toClient, ClientStep(s.client, ev).calls, s.grants, s.unread)
  {
    forall i | 0 <= i < |s.toClient|
      ensures GrantUnread(s.toClient[i], ClientStep(s.client, ev).calls, s.grants, s.unread)
    {
      assert GrantUnread(s.toClient[i], s.client.calls, s.grants, s.unread);
      if s.toClient[i].Response? {
        OpenStays(s.client, ev, s.toClient[i].seqNo);
      }
    }
  }

  lemma CallerGone(s: Session, ev: Event, kept: set<TunnelID>)
    requires LocalGranted(s.client, s.grants, s.unread, kept) && ExcusedGone(s, kept) && ByCaller(ev)
    ensures LocalGranted(Step(s, ev).client, s.grants, s.unread, kept) && ExcusedGone(Step(s, ev), kept)
  {
    var t := Step(s, ev);
    forall id | Excused(t, id) && id !in kept
      ensures id in t.grants && id !in t.unread && !Known(t.client, id)
    {
      assert Excused(s, id) || Known(s.client, id);
    }
  }

  lemma ServerExact(s: Session, ev: Event, kept: set<TunnelID>)
    requires Inv(s) && Exact(s, kept) && ByServer(ev) && (ev.ServerMakes? ==> ev.id !in kept)
    ensures Exact(Step(s, ev), kept)
  {
    ServerGrantsUnread(s, ev);
    ServerGone(s, ev, kept);
  }

  lemma ServerGrantsUnread(s: Session, ev: Event)
    requires InFlight(s.toServer, s.toClient, s.client.calls) && Making(s.toServer, s.making, s.grants, s.unread)
    requires GrantsUnread(s.toClient, s.client.calls, s.grants, s.unread) && ByServer(ev)
    ensures var t := Step(s, ev); GrantsUnread(t.toClient, t.client.calls, t.grants, t.unread)
  {
    var t := Step(s, ev);
    forall i | 0 <= i < |t.toClient|
      ensures GrantUnread(t.toClient[i], t.client.calls, t.grants, t.unread)
    {
      if i < |s.toClient| {
        assert GrantUnread(s.toClient[i], s.client.calls, s.grants, s.unread);
      } else if s.toServer != [] {
        assert Open(s.toServer[0].seqNo, s.client.calls);
      }
    }
  }

  lemma ServerGone(s: Session, ev: Event, kept: set<TunnelID>)
    requires LocalGranted(s.client, s.grants, s.unread, kept) && ExcusedGone(s, kept)
    requires ByServer(ev) && (ev.ServerMakes? ==> ev.id !in kept)
    ensures var t := Step(s, ev); LocalGranted(t.client, t.grants, t.unread, kept) && ExcusedGone(t, kept)
  {
    var t := Step(s, ev);
    assert t.client == s.client;
    assert forall id :: Excused(t, id) ==> Excused(s, id);
  }

  lemma ReadExact(s: Session, kept: set<TunnelID>)
    requires Inv(s) && Exact(s, kept) && s.toClient != []
    ensures Exact(AfterRead(s), kept)
  {
    var f, t := s.toClient[0], AfterRead(s);
    assert GrantUnread(f, s.client.calls, s.grants, s.unread);
    forall i | 0 <= i < |t.toClient|
      ensures GrantUnread(t.toClient[i], t.client.calls, t.grants, t.unread)
    {
      assert t.toClient[i] == s.toClient[i + 1];
      assert GrantUnread(s.toClient[i + 1], s.client.calls, s.grants, s.unread);
    }
    if f.Response? {
      assert Open(f.seqNo, s.client.calls);
      DispatchLocal(s.client, f);
    } else {
      OrderedTail(s.toClient, s.making, s.grants, s.udps, s.unread, {});
    }
  }

  /** Dispatch adds the response's own tunnel to the registry, for a pending
      register call, and nothing else. */
  lemma DispatchLocal(c: Client, f: Frame)
    requires f.Response? && Sound(c)
    ensures forall id :: Known(Dispatch(c, f), id) ==>
      Known(c, id) || (id == f.id && f.ok && f.seqNo in c.pending && c.pending[f.seqNo].Register?)
    ensures forall id :: Known(c, id) ==> Known(Dispatch(c, f), id)
  {
  }

  lemma {:induction false} RunExact(s: Session, evs: seq<Event>, kept: set<TunnelID>)
    requires Inv(s) && Exact(s, kept) && Honest(evs) && NewIds(kept, evs)
    ensures Exact(Run(s, evs), kept)
    decreases |evs|
  {
    if evs != [] {
      var ev := evs[0];
      StepKeeps(s, ev);
      if ByCaller(ev) {
        CallerExact(s, ev, kept);
      } else if ev == ReadLoop {
        if s.toClient != [] {
          ReadExact(s, kept);
        }
      } else {
        ServerExact(s, ev, kept);
      }
      RunExact(Step(s, ev), evs[1..], kept);
    }
  }

  /** The server issues no id in `kept`. */
  ghost predicate NewIds(kept: set<TunnelID>, evs: seq<Event>) {
    forall i :: 0 <= i < |evs| && evs[i].ServerMakes? ==> evs[i].id !in kept
  }

  function Kept(local: Option<map<TunnelID, TunnelName>>): set<TunnelID> {
    if local.Some? then local.value.Keys else {}
  }

  /** In every session, first or not, whose tunnels have ids that the registry
      it starts with does not hold, and at every moment: a tunnel the server made
      is in the local registry if and only if its response was read and none of
      the four other reasons applies. For a UDP tunnel whose open_connection was
      read, the response was read too. */
  lemma KnownIffNotExcused(b: Before, evs: seq<Event>, id: TunnelID)
    requires Possible(b) && Honest(evs) && NewIds(Kept(b.local), evs) && id in Run(Start(b), evs).grants
    ensures var s := Run(Start(b), evs);
      && (Known(s.client, id) <==> id !in s.unread && !Excused(s, id))
      && (id in s.asked && id in s.udps ==> id !in s.unread)
  {
    StartKeeps(b, evs);
    RunExact(Start(b), evs, Kept(b.local));
  }

  /** A first session needs no condition on the ids. */
  lemma FirstSessionKnownIff(lastSeq: nat, evs: seq<Event>, id: TunnelID)
    requires Honest(evs) && id in Run(Start(Before(None, lastSeq, map[])), evs).grants
    ensures var s := Run(Start(Before(None, lastSeq, map[])), evs);
      && (Known(s.client, id) <==> id !in s.unread && !Excused(s, id))
      && (id in s.asked && id in s.udps ==> id !in s.unread)
  {
    KnownIffNotExcused(Before(None, lastSeq, map[]), evs, id);
  }

  /** Callers that neither give up nor stop tunnels, and a registry set up once,
      before any call. */
  ghost predicate Undisturbed(s: Session, evs: seq<Event>)
    decreases |evs|
  {
    evs != [] ==>
      && !evs[0].Timeout? && !evs[0].SendFails? && !evs[0].ForgetLocal?
      && (evs[0].Setup? ==> s.client.local.None?)
      && Undisturbed(Step(s, evs[0]), evs[1..])
  }

  ghost predicate Untroubled(s: Session) {
    && s.abandoned == {} && s.stopped == {} && s.wiped == {} && s.orphaned == {}
    && NoLeavers(s.client.calls)
  }

  lemma {:induction false} StaysUntroubled(s: Session, evs: seq<Event>)
    requires Inv(s) && Untroubled(s) && Honest(evs) && Undisturbed(s, evs)
    ensures Untroubled(Run(s, evs))
    decreases |evs|
  {
    if evs != [] {
      StepKeeps(s, evs[0]);
      UntroubledStep(s, evs[0]);
      StaysUntroubled(Step(s, evs[0]), evs[1..]);
    }
  }

  ghost predicate NoLeavers(calls: map<nat, Call>) {
    forall n :: n in calls ==> calls[n].phase != Leaving && calls[n].phase != GaveUp && !calls[n].stray
  }

  lemma NoLeaversStep(c: Client, ev: Event)
    requires NoLeavers(c.calls) && !ev.Timeout? && !ev.SendFails?
    ensures NoLeavers(ClientStep(c, ev).calls)
  {
  }

  lemma UntroubledStep(s: Session, ev: Event)
    requires Untroubled(s)
    requires var t := Step(s, ev); Reasons(t.grants, t.abandoned, t.orphaned, t.client.calls)
    requires !ev.Timeout? && !ev.SendFails? && !ev.ForgetLocal? && (ev.Setup? ==> s.client.local.None?)
    ensures Untroubled(Step(s, ev))
  {
    var t := Step(s, ev);
    NoLeaversStep(s.client, ev);
    assert NoLeavers(t.client.calls);
    assert forall id :: id !in t.abandoned && id !in t.orphaned;
  }

  /** In a first session without timeouts, failed writes or stops, a tunnel is
      registered from the moment its response is read; a UDP tunnel, whenever an
      open_connection for it was read. */
  lemma FirstSessionAlwaysKnown(lastSeq: nat, evs: seq<Event>, id: TunnelID)
    requires Honest(evs) && Undisturbed(Start(Before(None, lastSeq, map[])), evs)
    requires id in Run(Start(Before(None, lastSeq, map[])), evs).grants
    ensures var s := Run(Start(Before(None, lastSeq, map[])), evs);
      && (Known(s.client, id) <==> id !in s.unread)
      && (id in s.asked && id in s.udps ==> Known(s.client, id))
  {
    var b := Before(None, lastSeq, map[]);
    StartKeeps(b, evs);
    StaysUntroubled(Start(b), evs);
    KnownIffNotExcused(b, evs, id);
  }

  // ---- how calls go -------------------------------------------------------------------------

  /** From s to t the call n went out asking for spec: its number was never used,
      it is in the table and waiting, and its request is on the way. */
  ghost predicate WentOut(s: Session, t: Session, n: nat, spec: Spec) {
    && n !in s.client.calls
    && n in t.client.calls && t.client.calls[n] == Call(spec, Waiting, None, 0, false)
    && n in t.client.pending && t.client.pending[n] == spec
    && t.toServer == s.toServer + [Request(n, spec)]
  }

  lemma GoesOut(s: Session, n: nat, spec: Spec) returns (t: Session)
    requires Sound(s.client) && s.client.local.Some? && n == s.client.lastSeq + 1
    ensures t == Step(Step(Step(s, Begin(spec)), Enlist(n)), Send(n))
    ensures WentOut(s, t, n, spec)
  {
    var u := Step(s, Begin(spec));
    assert u.client.calls == s.client.calls[n := Call(spec, Numbered, None, 0, false)] && u.toServer == s.toServer;
    var v := Step(u, Enlist(n));
    assert v.client.calls[n] == Call(spec, Enlisted, None, 0, false) && v.toServer == s.toServer;
    t := Step(v, Send(n));
  }

  /** In every session a call takes a number no call ever had, enters the table
      with what it asks for, and its request goes out with that number. */
  lemma CallGoesOut(b: Before, evs: seq<Event>, spec: Spec) returns (t: Session)
    requires Possible(b) && Run(Start(b), evs).client.local.Some?
    ensures var s := Run(Start(b), evs);
      var n := s.client.lastSeq + 1;
      t == Step(Step(Step(s, Begin(spec)), Enlist(n)), Send(n)) && WentOut(s, t, n, spec)
  {
    RunSound(Start(b), evs);
    t := GoesOut(Run(Start(b), evs), Run(Start(b), evs).client.lastSeq + 1, spec);
  }

  /** A call that times out, and one whose request cannot be written, gives up and
      takes its entry along. */
  lemma GivingUp(s: Session, n: nat, reaches: bool)
    requires n in s.client.calls
    ensures s.client.calls[n].phase == Waiting ==>
      var t := Step(Step(s, Timeout(n)), Leave(n)).client;
      InPhase(t, n, GaveUp) && n !in t.pending
    ensures s.client.calls[n].phase == Enlisted ==>
      var t := Step(Step(s, SendFails(n, reaches)), Leave(n)).client;
      InPhase(t, n, GaveUp) && n !in t.pending
  {
  }

  /** Once a stop was answered its caller removes the tunnel from the registry,
      and only that one. */
  lemma StoppedIsForgotten(s: Session, n: nat, other: TunnelID)
    requires n in s.client.calls && s.client.calls[n].phase.Answered? && s.client.calls[n].spec.Stop?
    ensures var t := Step(s, ForgetLocal(n)).client;
      && !Known(t, s.client.calls[n].spec.id)
      && (other != s.client.calls[n].spec.id ==> (Known(t, other) <==> Known(s.client, other)))
  {
  }

  /** A response concerns nobody but the call with its number. */
  lemma OnlyItsCall(c: Client, f: Frame, m: nat)
    requires f.Response? && m != f.seqNo
    ensures var d := Dispatch(c, f);
      && (m in d.calls <==> m in c.calls) && (m in c.calls ==> d.calls[m] == c.calls[m])
      && (m in d.pending <==> m in c.pending) && (m in c.pending ==> d.pending[m] == c.pending[m])
  {
  }
}
