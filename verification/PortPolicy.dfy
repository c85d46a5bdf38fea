/** Which public ports a client may claim: the policy check at start-up
    (internal/config/validate.go) and the check at registration
    (internal/tunnel/server.go) parse the same strings differently. */
module PortPolicy {
  import opened Collections
  import opened GoStrings

  /** Does one allowed_ports entry admit a port at registration? */
  predicate EntryAllows(e: string, port: int) {
    if e == "*" then true
    else
      var i := IndexByte(e, '-');
      if i < |e| then
        var lo, hi := Atoi(e[..i]), Atoi(e[i + 1..]);
        lo.Some? && hi.Some? && lo.value <= port <= hi.value
      else
        Atoi(e) == Some(port)
  }

  /** portAllowed: the scan over the entries. */
  method PortAllowed(entries: seq<string>, port: int) returns (ok: bool)
    ensures ok <==> Admitted(entries, port)
  {
    for k := 0 to |entries|
      invariant forall i :: 0 <= i < k ==> !EntryAllows(entries[i], port)
    {
      var e := entries[k];
      if e == "*" {
        assert EntryAllows(entries[k], port);
        return true;
      }
      var i := IndexByte(e, '-');
      if i < |e| {
        var lo, hi := Atoi(e[..i]), Atoi(e[i + 1..]);
        if lo.Some? && hi.Some? && port >= lo.value && port <= hi.value {
          assert EntryAllows(entries[k], port);
          return true;
        }
      } else if Atoi(e) == Some(port) {
        assert EntryAllows(entries[k], port);
        return true;
      }
      assert !EntryAllows(entries[k], port);
    }
    return false;
  }

  /** parsePortRange: surrounding space is dropped, "N" or "N-M" within
      1..65535. */
  function ParsePortRange(entry: string): (r: Option<(int, int)>)
    ensures r.Some? ==> 1 <= r.value.0 <= r.value.1 <= 65535
  {
    var s := TrimSpace(entry);
    var i := IndexByte(s, '-');
    if i < |s| && (IndexByte(s[i + 1..], '-') < |s[i + 1..]| || i == 0 || i + 1 == |s|) then None
    else
      var lo, hi := if i < |s| then Atoi(s[..i]) else Atoi(s), if i < |s| then Atoi(s[i + 1..]) else Atoi(s);
      if lo.None? || hi.None? || lo.value < 1 || hi.value > 65535 || lo.value > hi.value then None
      else Some((lo.value, hi.value))
  }

  /** The port part of ValidateServer: every range must parse and avoid the
      control port and the enroll port (0 when enrolment is not configured). */
  method RangesAvoidListeners(entries: seq<string>, ctlPort: int, enrollPort: int) returns (ok: bool)
    ensures ok <==> AcceptedPorts(entries, ctlPort, enrollPort)
  {
    for k := 0 to |entries|
      invariant forall i :: 0 <= i < k ==> EntryAccepted(entries[i], ctlPort, enrollPort)
    {
      var range := ParsePortRange(entries[k]);
      if !Avoids(range, ctlPort, enrollPort) {
        assert !EntryAccepted(entries[k], ctlPort, enrollPort);
        return false;
      }
    }
    return true;
  }

  /** The range parsed, and contains neither listener port. */
  predicate Avoids(range: Option<(int, int)>, ctlPort: int, enrollPort: int) {
    && range.Some?
    && !(range.value.0 <= ctlPort <= range.value.1)
    && (enrollPort != 0 ==> !(range.value.0 <= enrollPort <= range.value.1))
  }

  /** A missing list is filled in before it is checked. */
  function EffectivePorts(configured: seq<string>): seq<string> {
    if configured == [] then ["20000-29999"] else configured
  }

  ghost predicate EntryAccepted(e: string, ctlPort: int, enrollPort: int) {
    Avoids(ParsePortRange(e), ctlPort, enrollPort)
  }

  ghost predicate AcceptedPorts(entries: seq<string>, ctlPort: int, enrollPort: int) {
    forall i :: 0 <= i < |entries| ==> EntryAccepted(entries[i], ctlPort, enrollPort)
  }

  // ---- the two parsers agree where it matters ---------------------------------

  lemma AtoiNoSpace(s: string)
    requires Atoi(s).Some?
    ensures !IsSpace(s[0]) && !IsSpace(s[|s| - 1])
  {
  }

  /** An entry without surrounding space that start-up accepts admits, at
      registration, exactly its range. */
  lemma SameRange(e: string, port: int)
    requires ParsePortRange(e).Some? && TrimSpace(e) == e
    ensures EntryAllows(e, port) <==> ParsePortRange(e).value.0 <= port <= ParsePortRange(e).value.1
  {
    if e == "*" {
      assert false;
    }
  }

  /** An entry with surrounding space that start-up accepts admits nothing. */
  lemma SpacedAdmitsNothing(e: string, port: int)
    requires ParsePortRange(e).Some? && TrimSpace(e) != e
    ensures !EntryAllows(e, port)
  {
    if EntryAllows(e, port) {
      var i := IndexByte(e, '-');
      if e == "*" {
        TrimNothing(e);
      } else if i < |e| {
        AtoiNoSpace(e[..i]);
        AtoiNoSpace(e[i + 1..]);
        TrimNothing(e);
      } else {
        AtoiNoSpace(e);
        TrimNothing(e);
      }
    }
  }

  /** Exactly which ports an accepted entry opens. */
  lemma AcceptedEntryAdmits(e: string, port: int)
    requires ParsePortRange(e).Some?
    ensures EntryAllows(e, port) <==>
      TrimSpace(e) == e && ParsePortRange(e).value.0 <= port <= ParsePortRange(e).value.1
  {
    if TrimSpace(e) == e {
      SameRange(e, port);
    } else {
      SpacedAdmitsNothing(e, port);
    }
  }

  /** A space before a port is accepted at start-up, and then opens nothing. */
  lemma SpacedEntryOpensNothing(port: int)
    ensures ParsePortRange(" 80") == Some((80, 80)) && !EntryAllows(" 80", port)
  {
    assert " 80"[1..] == "80" && "80"[..1] == "8";
    assert TrimLeft(" 80") == "80";
    assert TrimSpace(" 80") == "80";
    assert Value("8") == 8 && Value("80") == 80;
    SpacedAdmitsNothing(" 80", port);
  }

  /** What the scan over the entries reports. */
  ghost predicate Admitted(entries: seq<string>, port: int) {
    exists i :: 0 <= i < |entries| && EntryAllows(entries[i], port)
  }

  /** No accepted configuration lets a client claim the control port or the
      configured enroll port. */
  lemma ListenersNeverAdmitted(configured: seq<string>, ctlPort: int, enrollPort: int)
    requires AcceptedPorts(EffectivePorts(configured), ctlPort, enrollPort)
    ensures !Admitted(EffectivePorts(configured), ctlPort)
    ensures enrollPort != 0 ==> !Admitted(EffectivePorts(configured), enrollPort)
  {
    var entries := EffectivePorts(configured);
    forall i | 0 <= i < |entries|
      ensures !EntryAllows(entries[i], ctlPort) && (enrollPort != 0 ==> !EntryAllows(entries[i], enrollPort))
    {
      assert EntryAccepted(entries[i], ctlPort, enrollPort);
      AcceptedEntryAdmits(entries[i], ctlPort);
      AcceptedEntryAdmits(entries[i], enrollPort);
    }
  }

  // ---- the texts an operator writes ---------------------------------------------------

  lemma DigitsOnly(n: nat)
    ensures '-' !in Decimal(n) && Decimal(n) != "*" && Tight(Decimal(n))
  {
    var s := Decimal(n);
    assert IsDigit(s[0]) && IsDigit(s[|s| - 1]);
  }

  /** "N" is accepted exactly for a port number, and opens that port. */
  lemma SinglePort(n: nat, port: int)
    requires n <= MAX_INT
    ensures ParsePortRange(Decimal(n)) == if 1 <= n <= 65535 then Some((n, n)) else None
    ensures EntryAllows(Decimal(n), port) <==> port == n
  {
    DigitsOnly(n);
    TrimNothing(Decimal(n));
    IndexOfNone(Decimal(n), '-');
    AtoiOfDecimal(n);
  }

  /** "LO-HI" is accepted exactly for a range of port numbers, and opens that
      range. */
  lemma PortRange(lo: nat, hi: nat, port: int)
    requires lo <= MAX_INT && hi <= MAX_INT
    ensures var e := Decimal(lo) + "-" + Decimal(hi);
      && ParsePortRange(e) == (if 1 <= lo <= hi <= 65535 then Some((lo, hi)) else None)
      && (EntryAllows(e, port) <==> lo <= port <= hi)
  {
    var a, b := Decimal(lo), Decimal(hi);
    var e := a + "-" + b;
    DigitsOnly(lo);
    DigitsOnly(hi);
    TrimNothing(e);
    PartsOfJoin(a, '-', b);
    IndexOfNone(b, '-');
    AtoiOfDecimal(lo);
    AtoiOfDecimal(hi);
  }

  /** "*" opens every port at registration, and is refused at start-up. */
  lemma StarEntry(port: int)
    ensures EntryAllows("*", port) && ParsePortRange("*").None?
  {
    TrimNothing("*");
    IndexOfNone("*", '-');
  }

  /** A range is accepted at start-up exactly if it is one and avoids the control
      port and a configured enroll port. */
  lemma AcceptedRange(lo: nat, hi: nat, ctlPort: int, enrollPort: int)
    requires lo <= MAX_INT && hi <= MAX_INT
    ensures EntryAccepted(Decimal(lo) + "-" + Decimal(hi), ctlPort, enrollPort) <==>
      && 1 <= lo <= hi <= 65535
      && !(lo <= ctlPort <= hi) && (enrollPort != 0 ==> !(lo <= enrollPort <= hi))
  {
    PortRange(lo, hi, ctlPort);
  }

  /** Without a configured list, clients may claim 20000 to 29999. */
  lemma DefaultPorts(port: int)
    ensures Admitted(EffectivePorts([]), port) <==> 20000 <= port <= 29999
  {
    var entries := EffectivePorts([]);
    DecimalOf(2000, 0);
    DecimalOf(200, 0);
    DecimalOf(20, 0);
    DecimalOf(2, 0);
    DecimalOf(2999, 9);
    DecimalOf(299, 9);
    DecimalOf(29, 9);
    DecimalOf(2, 9);
    assert entries[0] == Decimal(20000) + "-" + Decimal(29999);
    PortRange(20000, 29999, port);
  }

  lemma DecimalOf(n: nat, d: nat)
    requires 0 < n && d < 10
    ensures Decimal(10 * n + d) == Decimal(n) + [DigitChar(d)]
  {
  }
}
