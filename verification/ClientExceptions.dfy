/** Concrete sessions in which the client does not know a tunnel when it is asked
    to open a connection for it, one for each reason that needs neither a timeout
    nor a stop. */
module ClientExceptions {
  import opened Collections
  import opened ClientRpc

  /** The client read an open_connection for a tunnel it does not know. */
  ghost predicate Missed(t: Session, id: TunnelID) {
    id in t.asked && id in t.grants && !Known(t.client, id)
  }

  /** Nothing was given up, stopped or replaced. */
  ghost predicate NoExcuses(t: Session) {
    t.abandoned == {} && t.stopped == {} && t.wiped == {} && t.orphaned == {}
  }

  /** A TCP tunnel's accept loop runs before its response is written: in a first
      session, with nothing replaced, stopped or timed out, an early public
      connection asks for a tunnel the client has not heard of. */
  lemma EarlyOpenIsUnknown(name: TunnelName, id: TunnelID)
    requires name.text != ""
    ensures var spec := Register(name, false);
            var evs := [Setup] + ([Begin(spec), Enlist(1)]
                       + ([Send(1), ServerMakes(id)] + [ServerOpens(id), ReadLoop]));
            var t := Run(Start(Before(None, 0, map[])), evs);
      && Honest(evs) && Undisturbed(Start(Before(None, 0, map[])), evs)
      && Missed(t, id) && NoExcuses(t) && InPhase(t.client, 1, Waiting)
  {
    var spec := Register(name, false);
    EarlyRunIsCalm(spec, id);
    var s, last := Start(Before(None, 0, map[])), [ServerOpens(id), ReadLoop];
    var rest := [Send(1), ServerMakes(id)] + last;
    RunOne(s, Setup, [Begin(spec), Enlist(1)] + rest);
    assert Step(s, Setup) == Start(Before(Some(map[]), 0, map[]));
    var s2 := EnlistedCall(map[], spec, rest);
    var s4 := MadeCall(s2, Send(1), spec, id, last);
    OpenedNext(s4, id);
  }

  lemma EarlyRunIsCalm(spec: Spec, id: TunnelID)
    ensures var evs := [Setup] + ([Begin(spec), Enlist(1)]
                       + ([Send(1), ServerMakes(id)] + [ServerOpens(id), ReadLoop]));
            Honest(evs) && Undisturbed(Start(Before(None, 0, map[])), evs)
  {
    var evs := [Setup] + ([Begin(spec), Enlist(1)] + ([Send(1), ServerMakes(id)] + [ServerOpens(id), ReadLoop]));
    CalmIsUndisturbed(Start(Before(None, 0, map[])), evs);
  }

  /** A run that sets the registry up once, first, and has no other trouble. */
  lemma CalmIsUndisturbed(s: Session, evs: seq<Event>)
    requires evs != [] && (evs[0] == Setup ==> s.client.local.None?)
    requires forall i :: 0 <= i < |evs| ==> !evs[i].Timeout? && !evs[i].SendFails? && !evs[i].ForgetLocal?
    requires forall i :: 1 <= i < |evs| ==> !evs[i].Setup?
    ensures Undisturbed(s, evs)
    decreases |evs|
  {
    if |evs| > 1 {
      CalmIsUndisturbed(Step(s, evs[0]), evs[1..]);
    }
  }

  /** A reconnecting client accepts calls before its tunnel client is replaced;
      a tunnel registered in that gap is lost although nothing timed out. */
  lemma SetupCanLoseTunnel(spec: Spec, id: TunnelID)
    requires spec.Register? && spec.name.text != ""
    ensures var evs := [Begin(spec), Enlist(1)] + ([Send(1), ServerMakes(id)]
                       + ([ServerGrants] + ([ReadLoop, Setup] + [ServerOpens(id), ReadLoop])));
            var t := Run(Start(Before(Some(map[]), 0, map[])), evs);
      && Honest(evs) && Missed(t, id)
      && t.abandoned == {} && t.stopped == {} && t.orphaned == {} && InPhase(t.client, 1, Waiting)
  {
    HonestRun(spec, Send(1), id, [ReadLoop, Setup]);
    var last := [ServerOpens(id), ReadLoop];
    var s4 := GrantedCall(map[], Send(1), spec, id, [ReadLoop, Setup] + last);
    var s6 := ReadAndSetUp(s4, 1, spec, id, last);
    OpenedNext(s6, id);
  }

  lemma ReadAndSetUp(s: Session, n: nat, spec: Spec, id: TunnelID, rest: seq<Event>) returns (t: Session)
    requires Announces(s, n, spec, id)
    requires n in s.client.pending && s.client.pending[n] == spec && !Stray(s.client, n)
    ensures Run(s, [ReadLoop, Setup] + rest) == Run(t, rest)
    ensures t.toClient == [] && t.making.None? && id in t.grants && !Known(t.client, id)
    ensures t.abandoned == s.abandoned && t.stopped == s.stopped && t.orphaned == s.orphaned
    ensures n in t.client.calls && t.client.calls[n].phase == s.client.calls[n].phase
  {
    var u := ReadGrant(s, n, spec, id);
    t := Step(u, Setup);
    RunTwo(s, ReadLoop, Setup, rest);
  }

  /** A call that enters the pending table just before a new session replaces it,
      and writes on the new connection, is granted a tunnel that the client
      never learns of; it is still waiting, and nothing timed out. */
  lemma ReplacementCanOrphan(spec: Spec, id: TunnelID)
    requires spec.Register? && spec.name.text != ""
    ensures var b := Before(Some(map[]), 1, map[1 := Call(spec, Enlisted, None, 0, true)]);
            var evs := [Send(1), ServerMakes(id)] + ([ServerGrants]
                       + ([ReadLoop, Setup] + [ServerOpens(id), ReadLoop]));
            var t := Run(Start(b), evs);
      && Possible(b) && Honest(evs) && Missed(t, id)
      && t.abandoned == {} && t.stopped == {} && t.wiped == {} && InPhase(t.client, 1, Waiting)
  {
    StrayPossible(1, spec);
    var s := Start(Before(Some(map[]), 1, map[1 := Call(spec, Enlisted, None, 0, true)]));
    var last := [ServerOpens(id), ReadLoop];
    var s2 := GrantedSend(s, Send(1), spec, id, [ReadLoop, Setup] + last);
    var s4 := StrayRead(s2, 1, spec, id, last);
    OpenedNext(s4, id);
  }

  /** The response to a stray call changes nothing but the history. */
  lemma StrayRead(s: Session, n: nat, spec: Spec, id: TunnelID, rest: seq<Event>) returns (t: Session)
    requires Announces(s, n, spec, id)
    requires s.client.local == Some(map[]) && Stray(s.client, n) && n !in s.client.pending
    ensures Run(s, [ReadLoop, Setup] + rest) == Run(t, rest)
    ensures t.client == s.client && t.toClient == [] && t.making.None? && id in t.grants
    ensures t.abandoned == s.abandoned && t.stopped == s.stopped && t.wiped == s.wiped
  {
    t := ReadGrant(s, n, spec, id);
    RunTwo(s, ReadLoop, Setup, rest);
    assert Step(t, Setup) == t;
  }

  lemma StrayPossible(n: nat, spec: Spec)
    ensures Possible(Before(Some(map[]), n, map[n := Call(spec, Enlisted, None, 0, true)]))
  {
  }

  /** The condition on ids is needed: a server that was restarted may issue an id
      that the kept registry still holds, and the old entry answers for the
      tunnel of a call that gave up. */
  lemma ReissuedIdIsKnown(spec: Spec, was: TunnelName, id: TunnelID)
    requires spec.Register? && spec.name.text != ""
    ensures var b := Before(Some(map[id := was]), 0, map[]);
            var evs := [Begin(spec), Enlist(1)] + ([SendFails(1, true), ServerMakes(id)]
                       + ([ServerGrants] + ([Leave(1), ReadLoop] + [ServerOpens(id), ReadLoop])));
            var t := Run(Start(b), evs);
      && Possible(b) && Honest(evs)
      && id in t.asked && Known(t.client, id) && Excused(t, id)
  {
    HonestRun(spec, SendFails(1, true), id, [Leave(1), ReadLoop]);
    var last := [ServerOpens(id), ReadLoop];
    var s4 := GrantedCall(map[id := was], SendFails(1, true), spec, id, [Leave(1), ReadLoop] + last);
    var s6 := LeaveAndRead(s4, 1, spec, id, last);
    OpenedNext(s6, id);
  }

  lemma LeaveAndRead(s: Session, n: nat, spec: Spec, id: TunnelID, rest: seq<Event>) returns (t: Session)
    requires Announces(s, n, spec, id)
    requires InPhase(s.client, n, Leaving) && !Stray(s.client, n)
    ensures Run(s, [Leave(n), ReadLoop] + rest) == Run(t, rest)
    ensures t.toClient == [] && t.making.None? && id in t.grants
    ensures t.client.local == s.client.local && id in t.abandoned
  {
    var u := Step(s, Leave(n));
    assert u == s.(client := ClientStep(s.client, Leave(n)));
    t := ReadGrant(u, n, spec, id);
    RunTwo(s, Leave(n), ReadLoop, rest);
  }

  lemma HonestRun(spec: Spec, send: Event, id: TunnelID, pair: seq<Event>)
    requires !send.Arrives? && Honest(pair)
    ensures Honest([Begin(spec), Enlist(1)] + ([send, ServerMakes(id)]
                   + ([ServerGrants] + (pair + [ServerOpens(id), ReadLoop]))))
  {
  }

  // ---- the pieces of these runs -----------------------------------------------------------

  /** A first call, up to its tunnel being granted. */
  lemma GrantedCall(local: map<TunnelID, TunnelName>, send: Event, spec: Spec, id: TunnelID, rest: seq<Event>)
    returns (t: Session)
    requires spec.Register? && spec.name.text != "" && (send == Send(1) || send == SendFails(1, true))
    ensures Run(Start(Before(Some(local), 0, map[])),
                [Begin(spec), Enlist(1)] + ([send, ServerMakes(id)] + ([ServerGrants] + rest))) == Run(t, rest)
    ensures Announces(t, 1, spec, id) && NoExcuses(t)
    ensures var call := Call(spec, if send.Send? then Waiting else Leaving, None, 0, false);
            t.client == Client(1, map[1 := call], map[1 := spec], Some(local))
  {
    var s := EnlistedCall(local, spec, [send, ServerMakes(id)] + ([ServerGrants] + rest));
    t := GrantedSend(s, send, spec, id, rest);
  }

  lemma EnlistedCall(local: map<TunnelID, TunnelName>, spec: Spec, rest: seq<Event>) returns (t: Session)
    ensures Run(Start(Before(Some(local), 0, map[])), [Begin(spec), Enlist(1)] + rest) == Run(t, rest)
    ensures t == Session(Client(1, map[1 := Call(spec, Enlisted, None, 0, false)], map[1 := spec], Some(local)),
                         [], [], None, map[], {}, {}, {}, {}, {}, {}, {})
  {
    var s := Start(Before(Some(local), 0, map[]));
    RunTwo(s, Begin(spec), Enlist(1), rest);
    var s1 := Step(s, Begin(spec));
    assert s1.client == Client(1, map[1 := Call(spec, Numbered, None, 0, false)], map[], Some(local));
    t := Step(s1, Enlist(1));
  }

  /** An enlisted call is sent and its tunnel made. */
  lemma MadeCall(s: Session, send: Event, spec: Spec, id: TunnelID, rest: seq<Event>) returns (t: Session)
    requires spec.Register? && spec.name.text != "" && (send == Send(1) || send == SendFails(1, true))
    requires InPhase(s.client, 1, Enlisted) && s.client.calls[1].spec == spec
    requires s.toServer == [] && s.making.None? && s.grants == map[]
    ensures Run(s, [send, ServerMakes(id)] + rest) == Run(t, rest)
    ensures t == s.(client := Move(s.client, 1, if send.Send? then Waiting else Leaving),
                    toServer := [Request(1, spec)], making := Some(id), grants := map[id := 1],
                    unread := s.unread + {id}, udps := if spec.udp then s.udps + {id} else s.udps)
  {
    var u := Step(s, send);
    assert u.toServer == [Request(1, spec)];
    t := Step(u, ServerMakes(id));
    RunTwo(s, send, ServerMakes(id), rest);
  }

  /** And its response is written. */
  lemma GrantedSend(s: Session, send: Event, spec: Spec, id: TunnelID, rest: seq<Event>) returns (t: Session)
    requires spec.Register? && spec.name.text != "" && (send == Send(1) || send == SendFails(1, true))
    requires InPhase(s.client, 1, Enlisted) && s.client.calls[1].spec == spec && s.client.local.Some?
    requires s == Start(Before(None, 0, map[])).(client := s.client)
    ensures Run(s, [send, ServerMakes(id)] + ([ServerGrants] + rest)) == Run(t, rest)
    ensures Announces(t, 1, spec, id) && NoExcuses(t)
    ensures t.client == Move(s.client, 1, if send.Send? then Waiting else Leaving)
  {
    var u := MadeCall(s, send, spec, id, [ServerGrants] + rest);
    t := Step(u, ServerGrants);
    RunOne(u, ServerGrants, rest);
  }

  /** Only the granting response is under way. */
  ghost predicate Announces(s: Session, n: nat, spec: Spec, id: TunnelID) {
    && s.toClient == [Response(n, true, id)] && s.making.None? && s.grants == map[id := n] && s.unread == {id}
    && spec.Register? && spec.name.text != "" && s.client.local.Some? && n in s.client.calls
  }

  /** Reading a granting response, with and without a call still pending. */
  lemma ReadGrant(s: Session, n: nat, spec: Spec, id: TunnelID) returns (t: Session)
    requires Announces(s, n, spec, id)
    requires n in s.client.pending ==> s.client.pending[n] == spec && !Stray(s.client, n)
    ensures t == Step(s, ReadLoop)
    ensures t.toClient == [] && t.making.None? && t.grants == s.grants && t.stopped == s.stopped && t.wiped == s.wiped
    ensures n in s.client.pending ==>
      && t.client.local == Some(s.client.local.value[id := spec.name])
      && t.abandoned == s.abandoned && t.orphaned == s.orphaned
      && n in t.client.calls && t.client.calls[n].phase == s.client.calls[n].phase
    ensures n !in s.client.pending ==>
      && t.client == s.client
      && t.abandoned == (if Stray(s.client, n) then s.abandoned else s.abandoned + {id})
      && t.orphaned == (if Stray(s.client, n) then s.orphaned + {id} else s.orphaned)
  {
    t := Step(s, ReadLoop);
  }

  lemma OpenedNext(s: Session, id: TunnelID)
    requires s.toClient == [] && MayOpen(s, id)
    ensures Run(s, [ServerOpens(id), ReadLoop]) == s.(asked := s.asked + {id})
  {
    var t := Step(s, ServerOpens(id));
    assert t == s.(toClient := [OpenConnection(id)]);
    assert t.toClient[1..] == [];
    RunTwo(s, ServerOpens(id), ReadLoop, []);
    assert [ServerOpens(id), ReadLoop] + [] == [ServerOpens(id), ReadLoop];
  }

  lemma RunOne(s: Session, a: Event, rest: seq<Event>)
    ensures Run(s, [a] + rest) == Run(Step(s, a), rest)
  {
    assert ([a] + rest)[1..] == rest;
  }

  lemma RunTwo(s: Session, a: Event, b: Event, rest: seq<Event>)
    ensures Run(s, [a, b] + rest) == Run(Step(Step(s, a), b), rest)
  {
    assert ([a, b] + rest)[1..] == [b] + rest && ([b] + rest)[1..] == rest;
  }
}
