/** Error classification (internal/clientcore/errors.go) and the reconnect loop
    with its backoff (internal/clientcore/manager.go). */
module Reconnect {
  import opened Collections
  import opened GoStrings

  // ---- errors and their wrap chains ---------------------------------------------

  /** A wrapped error prefixes the message of the error it wraps. */
  datatype Err =
    | Plain(msg: string)
    | GracefulShutdown
    | Wrapped(prefix: string, inner: Err)
    | Permanent(inner: Err)
    | Temporary(inner: Err)

  function Message(e: Err): (m: string)
  {
    match e
    case Plain(msg) => msg
    case GracefulShutdown => "graceful shutdown"
    case Wrapped(prefix, inner) => prefix + Message(inner)
    case Permanent(inner) => "permanent error: " + Message(inner)
    case Temporary(inner) => "temporary error: " + Message(inner)
  }

  /** errors.As and errors.Is walk the chain from the outside in. */
  predicate IsPermanent(e: Err) {
    match e
    case Permanent(_) => true
    case Wrapped(_, inner) => IsPermanent(inner)
    case Temporary(inner) => IsPermanent(inner)
    case _ => false
  }

  predicate IsTemporary(e: Err) {
    match e
    case Temporary(_) => true
    case Wrapped(_, inner) => IsTemporary(inner)
    case Permanent(inner) => IsTemporary(inner)
    case _ => false
  }

  predicate IsGraceful(e: Err) {
    match e
    case GracefulShutdown => true
    case Wrapped(_, inner) => IsGraceful(inner)
    case Permanent(inner) => IsGraceful(inner)
    case Temporary(inner) => IsGraceful(inner)
    case _ => false
  }

  predicate Contains(s: string, sub: string) {
    (|sub| <= |s| && s[..|sub|] == sub) || (s != "" && Contains(s[1..], sub))
  }

  const MARKERS := [
    "certificate", "x509", "unknown authority", "bad certificate",
    "permanent", "server rejected", "server fatal error",
    "not allowed", "revoked", "expired", "unsupported protocol version"]

  const FATAL_CODES := ["ERR_AUTH_FAILED", "ERR_CERT_REVOKED", "ERR_CERT_EXPIRED", "ERR_VERSION_UNSUPPORTED"]

  predicate ContainsAny(s: string, subs: seq<string>) {
    subs != [] && (Contains(s, subs[0]) || ContainsAny(s, subs[1..]))
  }

  predicate LooksPermanent(msg: string) {
    ContainsAny(ToLower(msg), MARKERS) || ContainsAny(msg, FATAL_CODES)
  }

  function Classify(e: Err): (r: Err)
  {
    Settle(e, LooksPermanent(Message(e)))
  }

  /** An explicit marker in the chain decides before the text does. */
  function Settle(e: Err, permanentText: bool): (r: Err)
  {
    if IsPermanent(e) || IsTemporary(e) then e
    else if permanentText then Permanent(e)
    else Temporary(e)
  }

  /** Classifying settles every error, keeps a graceful shutdown wherever it sits
      in the chain, and is decided by an explicit marker before any text. */
  lemma SettleMeans(e: Err, permanentText: bool)
    ensures var r := Settle(e, permanentText);
      && (IsPermanent(r) || IsTemporary(r))
      && (IsGraceful(r) <==> IsGraceful(e))
      && (IsPermanent(r) <==> IsPermanent(e) || (!IsTemporary(e) && permanentText))
  {
    var r := Settle(e, permanentText);
    assert r == e || r == Permanent(e) || r == Temporary(e);
  }

  lemma ClassifySettles(e: Err)
    ensures IsPermanent(Classify(e)) || IsTemporary(Classify(e))
    ensures IsGraceful(Classify(e)) <==> IsGraceful(e)
    ensures IsPermanent(Classify(e)) <==> IsPermanent(e) || (!IsTemporary(e) && LooksPermanent(Message(e)))
  {
    SettleMeans(e, LooksPermanent(Message(e)));
  }

  /** Classifying twice is classifying once. */
  lemma ClassifyIdempotent(e: Err)
    ensures Classify(Classify(e)) == Classify(e)
  {
    SettleMeans(e, LooksPermanent(Message(e)));
  }

  // ---- the loop -----------------------------------------------------------------------

  datatype Phase = Connecting | Disconnected | Stopped

  /** What the world does during one turn: whether a stop was requested when the
      loop checks, how the session ends (None is nil), and whether a stop is
      seen during the wait. */
  datatype Turn = Turn(stopBefore: bool, outcome: Option<Err>, stopInWait: bool)

  /** Running means the script ended first; Returned carries Run's result. */
  datatype Ending = Running | Returned(err: Option<Err>)

  predicate EndsCleanly(outcome: Option<Err>) {
    outcome.None? || IsGraceful(Classify(outcome.value))
  }

  /** The states entered, the sessions started and how the loop ends. */
  datatype Trace = Trace(phases: seq<Phase>, sessions: nat, ending: Ending)

  /** One turn: states entered, sessions started, and the result if it is the
      last turn. */
  datatype Taken = Taken(phases: seq<Phase>, sessions: nat, result: Option<Option<Err>>)

  function Take(turn: Turn): (t: Taken)
  {
    if turn.stopBefore then Taken([Stopped], 0, Some(None))
    else if EndsCleanly(turn.outcome) then Taken([Connecting, Stopped], 1, Some(None))
    else
      var err := Classify(turn.outcome.value);
      if IsPermanent(err) then Taken([Connecting, Stopped], 1, Some(Some(err)))
      else if turn.stopInWait then Taken([Connecting, Disconnected, Stopped], 1, Some(None))
      else Taken([Connecting, Disconnected], 1, None)
  }

  function Follow(script: seq<Turn>): (t: Trace)
  {
    if script == [] then Trace([], 0, Running)
    else
      var turn := Take(script[0]);
      if turn.result.Some? then Trace(turn.phases, turn.sessions, Returned(turn.result.value))
      else
        var t := Follow(script[1..]);
        Trace(turn.phases + t.phases, turn.sessions + t.sessions, t.ending)
  }

  class Manager {
    var phases: seq<Phase>
    var attempts: nat

    constructor ()
      ensures phases == [] && attempts == 0
    {
      phases, attempts := [], 0;
    }

    method SetState(p: Phase)
      modifies this`phases
      ensures phases == old(phases) + [p]
    {
      phases := phases + [p];
    }

    /** One pass through the loop body; a result means Run returns it. */
    method OneTurn(turn: Turn) returns (result: Option<Option<Err>>)
      modifies this
      ensures phases == old(phases) + Take(turn).phases
      ensures attempts == old(attempts) + Take(turn).sessions
      ensures result == Take(turn).result
    {
      if turn.stopBefore {
        SetState(Stopped);
        return Some(None);
      }
      attempts := attempts + 1;
      SetState(Connecting);
      if EndsCleanly(turn.outcome) {
        SetState(Stopped);
        return Some(None);
      }
      var err := Classify(turn.outcome.value);
      if IsPermanent(err) {
        SetState(Stopped);
        return Some(Some(err));
      }
      SetState(Disconnected);
      if turn.stopInWait {
        SetState(Stopped);
        return Some(None);
      }
      return None;
    }

    /** Run, driven by a script of what happens; the number of turns is the only
        bound. */
    method Run(script: seq<Turn>) returns (ending: Ending)
      requires phases == [] && attempts == 0
      modifies this
      ensures Trace(phases, attempts, ending) == Follow(script)
    {
      assert script[0..] == script;
      for i := 0 to |script|
        invariant FollowFrom(phases, attempts, script[i..]) == Follow(script)
      {
        FollowStep(phases, attempts, script, i);
        var result := OneTurn(script[i]);
        if result.Some? {
          return Returned(result.value);
        }
      }
      FollowNothing(phases, attempts, script[|script|..]);
      return Running;
    }
  }

  /** What is already recorded, followed by what the rest of the script adds. */
  ghost function FollowFrom(phases: seq<Phase>, sessions: nat, rest: seq<Turn>): Trace {
    var t := Follow(rest);
    Trace(phases + t.phases, sessions + t.sessions, t.ending)
  }

  lemma FollowNothing(phases: seq<Phase>, sessions: nat, rest: seq<Turn>)
    requires rest == []
    ensures FollowFrom(phases, sessions, rest) == Trace(phases, sessions, Running)
  {
    assert Follow(rest).phases == [];
    assert phases + [] == phases;
  }

  lemma FollowStep(phases: seq<Phase>, sessions: nat, script: seq<Turn>, i: nat)
    requires i < |script|
    ensures var turn := Take(script[i]);
            var p, n := phases + turn.phases, sessions + turn.sessions;
            FollowFrom(phases, sessions, script[i..]) ==
            if turn.result.Some? then Trace(p, n, Returned(turn.result.value)) else FollowFrom(p, n, script[i + 1..])
  {
    assert script[i..][1..] == script[i + 1..];
    var later := Follow(script[i + 1..]).phases;
    assert phases + Take(script[i]).phases + later == phases + (Take(script[i]).phases + later);
  }

  /** (Connecting Disconnected)* Connecting? Stopped. */
  ghost predicate Lifecycle(phases: seq<Phase>)
    decreases |phases|
  {
    || phases == [Stopped]
    || phases == [Connecting, Stopped]
    || (|phases| >= 2 && phases[..2] == [Connecting, Disconnected] && Lifecycle(phases[2..]))
  }

  ghost predicate StillTrying(phases: seq<Phase>)
    decreases |phases|
  {
    phases == [] || (|phases| >= 2 && phases[..2] == [Connecting, Disconnected] && StillTrying(phases[2..]))
  }

  /** The session ended with a temporary error and nobody asked to stop. */
  predicate Retried(turn: Turn) {
    && !turn.stopBefore && !turn.stopInWait
    && turn.outcome.Some? && !IsGraceful(turn.outcome.value)
    && !IsPermanent(Classify(turn.outcome.value))
  }

  /** Every trace follows the life cycle; a session is started only when all
      earlier ones ended with a temporary error and no stop was seen; and what
      Run returns is decided by the last turn taken. */
  lemma {:induction false} TraceShape(script: seq<Turn>)
    ensures var t := Follow(script);
      && (if t.ending == Running then StillTrying(t.phases) else Lifecycle(t.phases))
      && t.sessions <= |script|
      && (forall i :: 0 <= i < t.sessions - 1 ==> Retried(script[i]))
  {
    if script != [] {
      TraceShape(script[1..]);
      var t, u := Follow(script), Follow(script[1..]);
      if script[0].outcome.Some? {
        ClassifySettles(script[0].outcome.value);
      }
      if Retried(script[0]) {
        assert t.phases[2..] == u.phases && t.phases[..2] == [Connecting, Disconnected];
        forall i | 0 <= i < t.sessions - 1
          ensures Retried(script[i])
        {
          assert i > 0 ==> script[i] == script[1..][i - 1];
        }
      } else {
        assert [Connecting, Disconnected, Stopped][2..] == [Stopped];
        assert [Connecting, Disconnected, Stopped][..2] == [Connecting, Disconnected];
      }
    }
  }

  /** Run keeps going exactly as long as every turn is retried. */
  lemma {:induction false} RunsWhileRetried(script: seq<Turn>)
    ensures Follow(script).ending == Running <==> forall i :: 0 <= i < |script| ==> Retried(script[i])
    ensures Follow(script).ending == Running ==> Follow(script).sessions == |script|
  {
    if script != [] {
      RunsWhileRetried(script[1..]);
      TakeRetried(script[0]);
      assert forall i :: 1 <= i < |script| ==> script[i] == script[1..][i - 1];
    }
  }

  lemma TakeRetried(turn: Turn)
    ensures Take(turn).result.None? <==> Retried(turn)
  {
    if turn.outcome.Some? {
      ClassifySettles(turn.outcome.value);
    }
  }

  /** An error comes back only from the last session started, classified
      permanent, and never when a graceful shutdown is anywhere in its chain. */
  lemma {:induction false} ErrorIsFromLastSession(script: seq<Turn>)
    requires Follow(script).ending.Returned? && Follow(script).ending.err.Some?
    ensures var t := Follow(script);
      && 0 < t.sessions <= |script|
      && FailsWith(script[t.sessions - 1], t.ending.err.value)
  {
    TakeRetried(script[0]);
    if Retried(script[0]) {
      ErrorIsFromLastSession(script[1..]);
    } else if script[0].outcome.Some? {
      ClassifySettles(script[0].outcome.value);
    }
  }

  predicate FailsWith(turn: Turn, err: Err) {
    && turn.outcome.Some?
    && !IsGraceful(turn.outcome.value)
    && err == Classify(turn.outcome.value)
    && IsPermanent(err)
  }

  // ---- backoff -------------------------------------------------------------------------

  const MILLISECOND := 1_000_000

  /** The initial delay doubled n times. */
  function Doubled(initial: int, n: nat): (d: int)
    ensures 0 < initial ==> initial <= d
  {
    if n == 0 then initial else 2 * Doubled(initial, n - 1)
  }

  function Power2(n: nat): (p: nat) {
    if n == 0 then 1 else 2 * Power2(n - 1)
  }

  lemma {:induction false} DoubledIsPower(initial: int, n: nat)
    ensures Doubled(initial, n) == initial * Power2(n)
  {
    if n > 0 {
      DoubledIsPower(initial, n - 1);
    }
  }

  function Min(a: int, b: int): int {
    if a < b then a else b
  }

  /** initial * 2^(attempt-1), capped. */
  function Base(initial: int, max: int, attempt: nat): int
    requires 0 < attempt
  {
    Min(Doubled(initial, attempt - 1), max)
  }

  /** Jitter either way, then the floor of one millisecond, then the cap. */
  function Jittered(base: int, delta: int, add: bool, max: int): (d: int)
  {
    var b := if add then base + delta else base - delta;
    Min(if b < MILLISECOND then MILLISECOND else b, max)
  }

  /** The delay never exceeds the maximum, whatever the jitter; it is at least a
      millisecond if the maximum is; and it stays within the jitter of the
      undisturbed schedule. */
  method BackoffFor(initial: int, max: int, attempt: nat, delta: int, add: bool) returns (d: int)
    requires 0 < initial && 0 < attempt
    ensures d == Jittered(Base(initial, max, attempt), delta, add, max)
    ensures d <= max && (MILLISECOND <= max ==> MILLISECOND <= d)
    ensures var base := Base(initial, max, attempt);
            0 <= delta && MILLISECOND <= base ==> base - delta <= d <= base + delta
  {
    var base := initial;
    var i := 1;
    while i < attempt && base < max
      invariant 1 <= i <= attempt
      invariant base == initial || base <= max
      invariant if base < max then base == Doubled(initial, i - 1) else Doubled(initial, i - 1) >= max
    {
      base := base * 2;
      if base > max {
        base := max;
      }
      i := i + 1;
    }
    DoublingGrows(initial, i - 1, attempt - 1);
    if base > max {
      base := max;
    }
    if add {
      base := base + delta;
    } else {
      base := base - delta;
    }
    if base < MILLISECOND {
      base := MILLISECOND;
    }
    if base > max {
      base := max;
    }
    d := base;
  }

  lemma {:induction false} DoublingGrows(initial: int, m: nat, n: nat)
    requires 0 < initial && m <= n
    ensures Doubled(initial, m) <= Doubled(initial, n)
  {
    if m < n {
      DoublingGrows(initial, m, n - 1);
    }
  }

  /** The undisturbed schedule never shrinks, doubles up to half the maximum, and
      sits at the maximum from some attempt on. */
  lemma {:induction false} ScheduleGrows(initial: int, max: int, attempt: nat)
    requires 0 < initial && 0 < attempt
    ensures Base(initial, max, attempt) <= Base(initial, max, attempt + 1)
    ensures 0 < max && 2 * Base(initial, max, attempt) <= max ==>
      Base(initial, max, attempt + 1) == 2 * Base(initial, max, attempt)
    ensures attempt >= max ==> Base(initial, max, attempt) == max
    ensures Base(initial, max, 1) == if initial < max then initial else max
  {
    DoublingGrows(initial, attempt - 1, attempt);
    DoublingOutruns(initial, attempt - 1);
  }

  lemma {:induction false} DoublingOutruns(initial: int, n: nat)
    requires 0 < initial
    ensures Doubled(initial, n) > n
  {
    if n > 0 {
      DoublingOutruns(initial, n - 1);
    }
  }

  // ---- what ends the loop, and with what ------------------------------------------------

  /** core is somewhere in the wrap chain of e. */
  ghost predicate Wraps(e: Err, core: Err) {
    || e == core
    || match e
       case Wrapped(_, inner) => Wraps(inner, core)
       case Permanent(inner) => Wraps(inner, core)
       case Temporary(inner) => Wraps(inner, core)
       case _ => false
  }

  /** Graceful, permanent and temporary mean that such an error is somewhere in the
      chain. */
  lemma {:induction false} ChainMeans(e: Err)
    ensures IsGraceful(e) <==> Wraps(e, GracefulShutdown)
    ensures IsPermanent(e) <==> exists inner :: Wraps(e, Permanent(inner))
    ensures IsTemporary(e) <==> exists inner :: Wraps(e, Temporary(inner))
  {
    match e
    case Wrapped(_, inner) => ChainMeans(inner);
    case Permanent(inner) =>
      ChainMeans(inner);
      assert Wraps(e, Permanent(inner));
    case Temporary(inner) =>
      ChainMeans(inner);
      assert Wraps(e, Temporary(inner));
    case _ =>
  }

  /** A wrapping error's message ends with the message of what it wraps. */
  lemma {:induction false} MessageEndsWith(e: Err, core: Err) returns (before: string)
    requires Wraps(e, core)
    ensures Message(e) == before + Message(core)
  {
    if e == core {
      before := "";
    } else {
      var inner := if e.Wrapped? || e.Permanent? || e.Temporary? then e.inner else e;
      var b := MessageEndsWith(inner, core);
      var prefix := if e.Wrapped? then e.prefix else if e.Permanent? then "permanent error: " else "temporary error: ";
      assert Message(e) == prefix + Message(inner);
      before := prefix + b;
    }
  }

  lemma {:induction false} ContainsWithin(before: string, sub: string, after: string)
    ensures Contains(before + sub + after, sub)
  {
    var s := before + sub + after;
    if before == "" {
      assert s[..|sub|] == sub;
    } else {
      assert s[1..] == before[1..] + sub + after;
      ContainsWithin(before[1..], sub, after);
    }
  }

  lemma {:induction false} ContainsMeans(s: string, sub: string)
    ensures Contains(s, sub) <==> exists before: string, after: string :: s == before + sub + after
  {
    if |sub| <= |s| && s[..|sub|] == sub {
      assert s == "" + sub + s[|sub|..];
    } else if s != "" {
      ContainsMeans(s[1..], sub);
      if Contains(s[1..], sub) {
        var b: string, a: string :| s[1..] == b + sub + a;
        assert s == ([s[0]] + b) + sub + a;
      }
    }
    forall b: string, a: string | s == b + sub + a
      ensures Contains(s, sub)
    {
      ContainsWithin(b, sub, a);
    }
  }

  ghost predicate MentionsOneOf(s: string, subs: seq<string>) {
    exists i :: 0 <= i < |subs| && Contains(s, subs[i])
  }

  lemma {:induction false} ContainsAnyMeans(s: string, subs: seq<string>)
    ensures ContainsAny(s, subs) <==> MentionsOneOf(s, subs)
  {
    if subs != [] {
      ContainsAnyMeans(s, subs[1..]);
      if ContainsAny(s, subs[1..]) {
        var i :| 0 <= i < |subs[1..]| && Contains(s, subs[1..][i]);
        assert Contains(s, subs[i + 1]);
      }
      if i :| 0 <= i < |subs| && Contains(s, subs[i]) && i > 0 {
        assert Contains(s, subs[1..][i - 1]);
      }
    }
  }

  /** An error that no wrapper marks is permanent exactly if its text contains one
      of the permanent markers in any case, or one of the fatal codes as it is. */
  lemma UnmarkedErrorByText(e: Err)
    requires !IsPermanent(e) && !IsTemporary(e)
    ensures IsPermanent(Classify(e)) <==>
      MentionsOneOf(ToLower(Message(e)), MARKERS) || MentionsOneOf(Message(e), FATAL_CODES)
    ensures IsTemporary(Classify(e)) <==> !IsPermanent(Classify(e))
  {
    ContainsAnyMeans(ToLower(Message(e)), MARKERS);
    ContainsAnyMeans(Message(e), FATAL_CODES);
    ClassifySettles(e);
  }

  /** So is one that mentions a certificate anywhere in its chain, in any case. */
  lemma CertificateErrorIsPermanent(e: Err, core: Err, before: string, word: string, after: string)
    requires !IsPermanent(e) && !IsTemporary(e) && Wraps(e, core)
    requires Message(core) == before + word + after && ToLower(word) == "certificate"
    ensures IsPermanent(Classify(e))
  {
    var b := MessageEndsWith(e, core);
    assert Message(e) == (b + before) + word + after;
    TextMentions(Message(e), b + before, word, after);
    UnmarkedErrorByText(e);
  }

  lemma TextMentions(text: string, before: string, word: string, after: string)
    requires text == before + word + after && ToLower(word) == "certificate"
    ensures MentionsOneOf(ToLower(text), MARKERS)
  {
    LowerAround(before, word, after);
    ContainsWithin(ToLower(before), "certificate", ToLower(after));
    MentionsCertificate(ToLower(text));
  }

  lemma MentionsCertificate(s: string)
    requires Contains(s, "certificate")
    ensures MentionsOneOf(s, MARKERS)
  {
    assert Contains(s, MARKERS[0]);
  }

  lemma LowerAround(a: string, word: string, b: string)
    ensures ToLower(a + word + b) == ToLower(a) + ToLower(word) + ToLower(b)
  {
    LowerJoin(a + word, b);
    LowerJoin(a, word);
  }

  lemma {:induction false} LowerJoin(a: string, b: string)
    ensures ToLower(a + b) == ToLower(a) + ToLower(b)
  {
    if a == "" {
      assert a + b == b;
    } else {
      assert (a + b)[1..] == a[1..] + b;
      LowerJoin(a[1..], b);
    }
  }

  /** k sessions that were tried and lost. */
  ghost function Tried(k: nat): (ps: seq<Phase>)
    ensures |ps| == 2 * k
  {
    if k == 0 then [] else [Connecting, Disconnected] + Tried(k - 1)
  }

  /** How the loop ends at a turn that is not retried: at once if a stop was
      requested before it; with the session's error if that is permanent and not
      graceful; without an error otherwise. */
  ghost function Final(turn: Turn): (r: (seq<Phase>, nat, Option<Err>))
  {
    if turn.stopBefore then ([Stopped], 0, None)
    else if turn.outcome.None? || Wraps(turn.outcome.value, GracefulShutdown) then ([Connecting, Stopped], 1, None)
    else if IsPermanent(Classify(turn.outcome.value)) then
      ([Connecting, Stopped], 1, Some(Classify(turn.outcome.value)))
    else ([Connecting, Disconnected, Stopped], 1, None)
  }

  /** The first turn that is not retried decides: after k retried turns the loop
      has gone k times through connecting and disconnected, and then ends as that
      turn says, whatever the script holds after it. */
  lemma {:induction false} FirstEndingDecides(script: seq<Turn>, k: nat)
    requires k < |script| && !Retried(script[k]) && forall i :: 0 <= i < k ==> Retried(script[i])
    ensures var (phases, n, err) := Final(script[k]);
      Follow(script) == Trace(Tried(k) + phases, k + n, Returned(err))
  {
    if k == 0 {
      EndingTurn(script[0]);
      assert Tried(0) + Final(script[0]).0 == Final(script[0]).0;
    } else {
      RetriedTurn(script[0]);
      FirstEndingDecides(script[1..], k - 1);
      assert script[1..][k - 1] == script[k];
      assert [Connecting, Disconnected] + (Tried(k - 1) + Final(script[k]).0) == Tried(k) + Final(script[k]).0;
    }
  }

  lemma EndingTurn(turn: Turn)
    requires !Retried(turn)
    ensures var (phases, n, err) := Final(turn); Take(turn) == Taken(phases, n, Some(err))
  {
    TakeRetried(turn);
    if turn.outcome.Some? {
      ClassifySettles(turn.outcome.value);
      ChainMeans(turn.outcome.value);
    }
  }

  lemma RetriedTurn(turn: Turn)
    requires Retried(turn)
    ensures Take(turn) == Taken([Connecting, Disconnected], 1, None)
  {
    TakeRetried(turn);
    ClassifySettles(turn.outcome.value);
  }

  /** A graceful shutdown, however wrapped, makes the loop return without an
      error. */
  lemma GracefulReturnsNil(script: seq<Turn>, k: nat)
    requires k < |script| && forall i :: 0 <= i < k ==> Retried(script[i])
    requires script[k].outcome.Some? && Wraps(script[k].outcome.value, GracefulShutdown)
    ensures Follow(script).ending == Returned(None)
  {
    ChainMeans(script[k].outcome.value);
    FirstEndingDecides(script, k);
  }
}
