/** Host routing for shared-port HTTP tunnels (internal/tunnel/vhost.go): exact
    match first, then the longest rule that is a suffix at a dot. */
module Vhost {
  import opened Collections

  datatype Name = Name(text: string)
  datatype Entry = Entry(tunnelID: string, clientID: string)

  predicate HasSuffix(s: string, suffix: string) {
    |suffix| <= |s| && s[|s| - |suffix|..] == suffix
  }

  /** A rule covers the hosts below it. */
  predicate Covers(rule: Name, host: Name) {
    HasSuffix(host.text, "." + rule.text)
  }

  // ---- the reference answer ---------------------------------------------------------

  /** The longest non-empty rule covering the host. */
  ghost predicate Longest(hosts: map<Name, Entry>, host: Name, rule: Name) {
    && rule in hosts && rule.text != "" && Covers(rule, host)
    && forall r :: r in hosts && Covers(r, host) ==> |r.text| <= |rule.text|
  }

  ghost predicate Routes(hosts: map<Name, Entry>, host: Name, r: Option<Entry>) {
    if host in hosts then r == Some(hosts[host])
    else match r
         case Some(e) => exists rule :: Longest(hosts, host, rule) && hosts[rule] == e
         case None => forall rule :: rule in hosts && rule.text != "" ==> !Covers(rule, host)
  }

  /** Two rules of one length covering one host are the same rule. */
  lemma SameLengthSameRule(a: Name, b: Name, host: Name)
    requires Covers(a, host) && Covers(b, host) && |a.text| == |b.text|
    ensures a == b
  {
    assert a.text == ("." + a.text)[1..] && b.text == ("." + b.text)[1..];
  }

  /** So the answer does not depend on the order the map is visited in. */
  lemma RouteUnique(hosts: map<Name, Entry>, host: Name, r: Option<Entry>, s: Option<Entry>)
    requires Routes(hosts, host, r) && Routes(hosts, host, s)
    ensures r == s
  {
    if host !in hosts && r.Some? && s.Some? {
      var a :| Longest(hosts, host, a) && hosts[a] == r.value;
      var b :| Longest(hosts, host, b) && hosts[b] == s.value;
      SameLengthSameRule(a, b, host);
    }
  }

  /** A rule covers exactly its proper subdomains: whole labels, then the rule. */
  lemma CoversIffSubdomain(rule: Name, host: Name)
    ensures Covers(rule, host) <==> exists prefix :: host.text == prefix + "." + rule.text
  {
    if Covers(rule, host) {
      var prefix := host.text[..|host.text| - |rule.text| - 1];
      assert host.text == prefix + ("." + rule.text);
      assert host.text == prefix + "." + rule.text;
    }
    forall prefix: string | host.text == prefix + "." + rule.text
      ensures Covers(rule, host)
    {
      assert host.text == prefix + ("." + rule.text);
    }
  }

  // ---- the table as implemented --------------------------------------------------------

  class VhostTable {
    var hosts: map<Name, Entry>

    constructor ()
      ensures hosts == map[]
    {
      hosts := map[];
    }

    /** False is ErrNameConflict: the later registration loses. */
    method Register(host: Name, tunnelID: string, clientID: string) returns (ok: bool)
      modifies this
      ensures ok <==> host !in old(hosts)
      ensures hosts == if ok then old(hosts)[host := Entry(tunnelID, clientID)] else old(hosts)
    {
      if host in hosts {
        return false;
      }
      hosts := hosts[host := Entry(tunnelID, clientID)];
      return true;
    }

    method UnregisterTunnel(tunnelID: string)
      modifies this
      ensures hosts == map h | h in old(hosts) && old(hosts)[h].tunnelID != tunnelID :: old(hosts)[h]
    {
      var todo := hosts.Keys;
      while todo != {}
        invariant todo <= old(hosts).Keys
        invariant hosts == map h | h in old(hosts) && (h in todo || old(hosts)[h].tunnelID != tunnelID) :: old(hosts)[h]
        decreases todo
      {
        var h :| h in todo;
        if hosts[h].tunnelID == tunnelID {
          hosts := hosts - {h};
        }
        todo := todo - {h};
      }
    }

    /** One pass over the rules in any order, keeping the longest so far. */
    method Lookup(host: Name) returns (r: Option<Entry>)
      ensures Routes(hosts, host, r)
    {
      if host in hosts {
        return Some(hosts[host]);
      }
      var bestLen := 0;
      r := None;
      ghost var best := Name("");
      var todo := hosts.Keys;
      while todo != {}
        invariant todo <= hosts.Keys
        invariant forall h :: h in hosts && h !in todo && Covers(h, host) ==> |h.text| <= bestLen
        invariant bestLen == |best.text|
        invariant r.None? ==> bestLen == 0
        invariant r.Some? ==> 0 < bestLen && best in hosts && Covers(best, host) && hosts[best] == r.value
        decreases todo
      {
        var rule :| rule in todo;
        if |rule.text| > bestLen && HasSuffix(host.text, "." + rule.text) {
          bestLen, r := |rule.text|, Some(hosts[rule]);
          best := rule;
        }
        todo := todo - {rule};
      }
      if r.Some? {
        assert Longest(hosts, host, best);
      }
    }
  }

  /** After a tunnel is unregistered no host routes to it. */
  lemma UnregisteredNeverRoutes(hosts: map<Name, Entry>, tunnelID: string, host: Name, r: Option<Entry>)
    requires Routes(map h | h in hosts && hosts[h].tunnelID != tunnelID :: hosts[h], host, r)
    ensures r.Some? ==> r.value.tunnelID != tunnelID
  {
  }

  /** A more specific rule takes its subdomains from a less specific one, and
      leaves every other host as it was. */
  lemma NewRuleTakesItsSubdomains(hosts: map<Name, Entry>, rule: Name, e: Entry, host: Name, r: Option<Entry>,
                                  s: Option<Entry>)
    requires rule !in hosts && rule.text != "" && host != rule
    requires Routes(hosts, host, r) && Routes(hosts[rule := e], host, s)
    ensures s == if host !in hosts && Covers(rule, host)
                    && !exists h :: h in hosts && Covers(h, host) && |h.text| > |rule.text|
                 then Some(e) else r
  {
    var more := hosts[rule := e];
    if host !in hosts {
      if Covers(rule, host) && !exists h :: h in hosts && Covers(h, host) && |h.text| > |rule.text| {
        assert Longest(more, host, rule);
        RouteUnique(more, host, s, Some(e));
      } else {
        KeepsRoute(hosts, rule, e, host, r);
        RouteUnique(more, host, s, r);
      }
    }
  }

  lemma KeepsRoute(hosts: map<Name, Entry>, rule: Name, e: Entry, host: Name, r: Option<Entry>)
    requires rule !in hosts && host !in hosts && host != rule && Routes(hosts, host, r)
    requires !Covers(rule, host) || exists h :: h in hosts && Covers(h, host) && |h.text| > |rule.text|
    ensures Routes(hosts[rule := e], host, r)
  {
    var more := hosts[rule := e];
    if r.Some? {
      var best :| Longest(hosts, host, best) && hosts[best] == r.value;
      assert Longest(more, host, best);
    }
  }
}
