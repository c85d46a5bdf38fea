/** The per-tunnel UDP session table (internal/tunnel/udp_server.go): two maps
    and a recency list, shown to behave as one least-recently-used list. */
module UdpSessions {
  import opened Collections
  import Framing

  // ---- hexID -------------------------------------------------------------

  const HEX_DIGITS := "0123456789abcdef"

  function Hex(id: seq<byte>): (s: string)
    ensures |s| == 2 * |id|
  {
    if id == [] then []
    else [HEX_DIGITS[id[0] / 16], HEX_DIGITS[id[0] % 16]] + Hex(id[1..])
  }

  lemma {:induction false} HexSnoc(id: seq<byte>, c: byte)
    ensures Hex(id + [c]) == Hex(id) + [HEX_DIGITS[c / 16], HEX_DIGITS[c % 16]]
  {
    if id == [] {
      assert id + [c] == [c];
    } else {
      var t, pair := id[1..], [HEX_DIGITS[id[0] / 16], HEX_DIGITS[id[0] % 16]];
      HexSnoc(t, c);
      assert (id + [c])[0] == id[0] && (id + [c])[1..] == t + [c];
      var last := [HEX_DIGITS[c / 16], HEX_DIGITS[c % 16]];
      assert pair + (Hex(t) + last) == pair + Hex(t) + last;
    }
  }

  /** A buffer of twice the length, filled pair by pair. */
  method HexID(id: seq<byte>) returns (s: string)
    ensures s == Hex(id)
  {
    var b := new char[2 * |id|];
    for i := 0 to |id|
      invariant b[..2 * i] == Hex(id[..i])
    {
      b[2 * i] := HEX_DIGITS[id[i] / 16];
      b[2 * i + 1] := HEX_DIGITS[id[i] % 16];
      HexSnoc(id[..i], id[i]);
      assert id[..i + 1] == id[..i] + [id[i]];
      assert b[..2 * (i + 1)] == b[..2 * i] + [b[2 * i], b[2 * i + 1]];
    }
    assert id[..|id|] == id;
    s := b[..];
  }

  lemma HexDigitInjective(a: int, b: int)
    requires 0 <= a < 16 && 0 <= b < 16 && HEX_DIGITS[a] == HEX_DIGITS[b]
    ensures a == b
  {
  }

  /** Distinct session ids have distinct byID keys. */
  lemma {:induction false} HexInjective(a: seq<byte>, b: seq<byte>)
    requires Hex(a) == Hex(b)
    ensures a == b
  {
    assert |a| == |b|;
    if a != [] {
      var ha, hb := Hex(a), Hex(b);
      assert ha[0] == hb[0] && ha[1] == hb[1];
      HexDigitInjective(a[0] / 16, b[0] / 16);
      HexDigitInjective(a[0] % 16, b[0] % 16);
      assert ha[2..] == Hex(a[1..]) && hb[2..] == Hex(b[1..]);
      HexInjective(a[1..], b[1..]);
      assert a == [a[0]] + a[1..] && b == [b[0]] + b[1..];
    }
  }

  // ---- the reference list: least recently active first --------------------

  /** A public-side address, in the textual form peerKey gives it. */
  datatype Peer = Peer(addr: string)

  datatype Entry = Entry(peer: Peer, id: seq<byte>, lastActive: int)

  function Find(l: seq<Entry>, peer: Peer): (r: Option<Entry>)
    ensures r.Some? ==> r.value in l && r.value.peer == peer
    ensures r.None? ==> forall e :: e in l ==> e.peer != peer
  {
    if l == [] then None else if l[0].peer == peer then Some(l[0]) else Find(l[1..], peer)
  }

  function FindId(l: seq<Entry>, id: seq<byte>): (r: Option<Entry>)
    ensures r.Some? ==> r.value in l && r.value.id == id
    ensures r.None? ==> forall e :: e in l ==> e.id != id
  {
    if l == [] then None else if l[0].id == id then Some(l[0]) else FindId(l[1..], id)
  }

  function Keep(l: seq<Entry>, gone: set<Peer>): (r: seq<Entry>)
  {
    if l == [] then []
    else if l[0].peer in gone then Keep(l[1..], gone)
    else [l[0]] + Keep(l[1..], gone)
  }

  function Evict(l: seq<Entry>, cap: nat): (r: seq<Entry>)
  {
    if |l| >= cap && l != [] then l[1..] else l
  }

  /** sessionFor: touch the peer's entry, or make room and append a new one;
      `id` is None when the random source fails. */
  function Admit(l: seq<Entry>, cap: nat, peer: Peer, id: Option<seq<byte>>, now: int): (r: seq<Entry>)
  {
    match Find(l, peer)
    case Some(e) => Keep(l, {peer}) + [e.(lastActive := now)]
    case None =>
      if id.None? then Evict(l, cap) else Evict(l, cap) + [Entry(peer, id.value, now)]
  }

  /** expireIdle: the entries idle for longer than the timeout are dropped. */
  function Expire(l: seq<Entry>, now: int, idle: int): (r: seq<Entry>)
  {
    if l == [] then []
    else if now - l[0].lastActive > idle then Expire(l[1..], now, idle)
    else [l[0]] + Expire(l[1..], now, idle)
  }

  // ---- the table as implemented -------------------------------------------

  ghost function Look(m: map<Peer, Entry>, k: Peer): Entry {
    if k in m then m[k] else Entry(k, [], 0)
  }

  /** The recency list with each key replaced by its session. */
  ghost function View(order: seq<Peer>, m: map<Peer, Entry>): (r: seq<Entry>)
    ensures |r| == |order| && forall i :: 0 <= i < |r| ==> r[i] == Look(m, order[i])
  {
    seq(|order|, i requires 0 <= i < |order| => Look(m, order[i]))
  }

  lemma {:induction false} ViewWithout(order: seq<Peer>, m: map<Peer, Entry>, gone: set<Peer>)
    requires forall i :: 0 <= i < |order| ==> Look(m, order[i]).peer == order[i]
    ensures View(Without(order, gone), m) == Keep(View(order, m), gone)
  {
    if order != [] {
      ViewWithout(order[1..], m, gone);
      assert View(order, m)[1..] == View(order[1..], m);
      var w := Without(order[1..], gone);
      assert View([order[0]] + w, m) == [Look(m, order[0])] + View(w, m);
    }
  }

  lemma ViewFrame(order: seq<Peer>, m: map<Peer, Entry>, m': map<Peer, Entry>)
    requires forall i :: 0 <= i < |order| ==> Look(m, order[i]) == Look(m', order[i])
    ensures View(order, m) == View(order, m')
  {
  }

  lemma ViewSnoc(order: seq<Peer>, m: map<Peer, Entry>, k: Peer)
    ensures View(order + [k], m) == View(order, m) + [Look(m, k)]
  {
  }

  lemma {:induction false} KeepTwice(l: seq<Entry>, a: set<Peer>, b: set<Peer>)
    ensures Keep(Keep(l, a), b) == Keep(l, a + b)
  {
    if l != [] {
      KeepTwice(l[1..], a, b);
      if l[0].peer !in a {
        var t := Keep(l[1..], a);
        assert ([l[0]] + t)[1..] == t;
      }
    }
  }

  lemma {:induction false} KeepNone(l: seq<Entry>)
    ensures Keep(l, {}) == l
  {
    if l != [] {
      KeepNone(l[1..]);
    }
  }

  /** Dropping the peers found idle is dropping the idle entries. */
  lemma {:induction false} ExpireIsKeep(l: seq<Entry>, now: int, idle: int, gone: set<Peer>)
    requires forall e :: e in l ==> (e.peer in gone <==> now - e.lastActive > idle)
    ensures Expire(l, now, idle) == Keep(l, gone)
  {
    if l != [] {
      ExpireIsKeep(l[1..], now, idle, gone);
    }
  }

  lemma FindInView(order: seq<Peer>, m: map<Peer, Entry>, k: Peer)
    requires forall i :: 0 <= i < |order| ==> Look(m, order[i]).peer == order[i]
    ensures Find(View(order, m), k) == if k in order then Some(Look(m, k)) else None
  {
    var l := View(order, m);
    if k in order {
      var i :| 0 <= i < |order| && order[i] == k;
      assert l[i].peer == k;
    }
  }

  // ---- agreement of the two maps and the recency list ----------------------

  /** `order` lists the keys of byPeer once each, and byID is byPeer keyed by
      the hex form of the session id. */
  ghost predicate Agree(order: seq<Peer>, byPeer: map<Peer, Entry>, byID: map<string, Entry>)
  {
    && NoDup(order)
    && Elements(order) == byPeer.Keys
    && (forall k :: k in byPeer ==> Indexed(byPeer[k], k, byID))
    && (forall h :: h in byID ==> byID[h].peer in byPeer && byPeer[byID[h].peer] == byID[h] && Hex(byID[h].id) == h)
  }

  ghost predicate Indexed(s: Entry, k: Peer, byID: map<string, Entry>)
  {
    s.peer == k && Hex(s.id) in byID && byID[Hex(s.id)] == s
  }

  /** In a table in agreement every entry is filed under its peer. */
  lemma Keyed(order: seq<Peer>, byPeer: map<Peer, Entry>, byID: map<string, Entry>)
    requires Agree(order, byPeer, byID)
    ensures forall k :: k in order <==> k in byPeer
    ensures forall i :: 0 <= i < |order| ==> order[i] in byPeer && Look(byPeer, order[i]).peer == order[i]
  {
    assert forall k :: k in order <==> k in Elements(order);
    assert forall k :: k in byPeer ==> Indexed(byPeer[k], k, byID);
    assert forall i :: 0 <= i < |order| ==> order[i] in order;
  }

  lemma AgreeRemove(order: seq<Peer>, byPeer: map<Peer, Entry>, byID: map<string, Entry>, key: Peer)
    requires Agree(order, byPeer, byID) && key in byPeer
    ensures Agree(Without(order, {key}), byPeer - {key}, byID - {Hex(byPeer[key].id)})
    ensures |Without(order, {key})| == |order| - 1
  {
    var h := Hex(byPeer[key].id);
    WithoutKeepsNoDup(order, {key});
    forall k | k in byPeer - {key}
      ensures Indexed(byPeer[k], k, byID - {h})
    {
      assert Indexed(byPeer[k], k, byID) && Indexed(byPeer[key], key, byID);
    }
    NoDupCardinality(order);
    NoDupCardinality(Without(order, {key}));
    WithoutElements(order, {key});
  }

  lemma ViewRemove(order: seq<Peer>, byPeer: map<Peer, Entry>, byID: map<string, Entry>, key: Peer)
    requires Agree(order, byPeer, byID)
    ensures View(Without(order, {key}), byPeer - {key}) == Keep(View(order, byPeer), {key})
  {
    Keyed(order, byPeer, byID);
    ViewWithout(order, byPeer, {key});
    var rest := Without(order, {key});
    WithoutElements(order, {key});
    assert forall i :: 0 <= i < |rest| ==> rest[i] in Elements(rest);
    ViewFrame(rest, byPeer, byPeer - {key});
  }

  lemma AgreeAdd(order: seq<Peer>, byPeer: map<Peer, Entry>, byID: map<string, Entry>, s: Entry)
    requires Agree(order, byPeer, byID) && s.peer !in byPeer && Hex(s.id) !in byID
    ensures Agree(order + [s.peer], byPeer[s.peer := s], byID[Hex(s.id) := s])
    ensures View(order + [s.peer], byPeer[s.peer := s]) == View(order, byPeer) + [s]
  {
    assert s.peer !in Elements(order);
    assert Elements(order + [s.peer]) == Elements(order) + {s.peer};
    var byPeer', byID' := byPeer[s.peer := s], byID[Hex(s.id) := s];
    forall k | k in byPeer'
      ensures Indexed(byPeer'[k], k, byID')
    {
      if k != s.peer {
        assert Indexed(byPeer[k], k, byID);
      }
    }
    ViewSnoc(order, byPeer', s.peer);
    Keyed(order, byPeer, byID);
    ViewFrame(order, byPeer, byPeer');
  }

  lemma PutBack<K, V>(m: map<K, V>, k: K, v: V)
    ensures (m - {k})[k := v] == m[k := v]
  {
  }

  /** A touch is a removal followed by an insertion under the same keys. */
  lemma AgreeTouch(order: seq<Peer>, byPeer: map<Peer, Entry>, byID: map<string, Entry>, s: Entry)
    requires Agree(order, byPeer, byID)
    requires s.peer in byPeer && byPeer[s.peer].id == s.id
    ensures Agree(Without(order, {s.peer}) + [s.peer], byPeer[s.peer := s], byID[Hex(s.id) := s])
    ensures |Without(order, {s.peer})| == |order| - 1
    ensures View(Without(order, {s.peer}) + [s.peer], byPeer[s.peer := s]) == Keep(View(order, byPeer), {s.peer}) + [s]
  {
    var h := Hex(s.id);
    AgreeRemove(order, byPeer, byID, s.peer);
    ViewRemove(order, byPeer, byID, s.peer);
    AgreeAdd(Without(order, {s.peer}), byPeer - {s.peer}, byID - {h}, s);
    PutBack(byPeer, s.peer, s);
    PutBack(byID, h, s);
  }

  /** byID, keyed by hex strings, answers exactly the question FindId asks. */
  lemma KeyOfId(order: seq<Peer>, byPeer: map<Peer, Entry>, byID: map<string, Entry>, id: seq<byte>)
    requires Agree(order, byPeer, byID)
    ensures FindId(View(order, byPeer), id)
         == if Hex(id) in byID then Some(byID[Hex(id)]) else None
  {
    Keyed(order, byPeer, byID);
    var l, h := View(order, byPeer), Hex(id);
    if FindId(l, id).Some? {
      var j :| 0 <= j < |l| && l[j] == FindId(l, id).value;
      assert order[j] in order;
      assert Indexed(byPeer[order[j]], order[j], byID);
    }
    if h in byID {
      var s := byID[h];
      HexInjective(s.id, id);
      var i :| 0 <= i < |order| && order[i] == s.peer;
      assert l[i] == s;
    }
  }

  lemma FirstIsOldest(order: seq<Peer>)
    requires NoDup(order) && order != []
    ensures order[1..] == Without(order, {order[0]})
  {
    SpliceIsWithout(order, 0);
  }

  lemma ViewTail(order: seq<Peer>, m: map<Peer, Entry>)
    requires NoDup(order) && order != []
    ensures View(order[1..], m - {order[0]}) == View(order, m)[1..]
  {
  }

  lemma IdlePeers(order: seq<Peer>, byPeer: map<Peer, Entry>, byID: map<string, Entry>,
                  expired: seq<Peer>, now: int, idle: int)
    requires Agree(order, byPeer, byID)
    requires forall k :: k in expired <==> k in byPeer && now - byPeer[k].lastActive > idle
    ensures forall e :: e in View(order, byPeer) ==> (e.peer in Elements(expired) <==> now - e.lastActive > idle)
  {
    var l := View(order, byPeer);
    Keyed(order, byPeer, byID);
    forall e | e in l
      ensures e.peer in Elements(expired) <==> now - e.lastActive > idle
    {
      var i :| 0 <= i < |l| && l[i] == e;
    }
  }

  /** The loop over the map that finds the idle sessions. */
  method IdleKeys(byPeer: map<Peer, Entry>, now: int, idle: int) returns (expired: seq<Peer>)
    ensures NoDup(expired)
    ensures forall k :: k in expired <==> k in byPeer && now - byPeer[k].lastActive > idle
  {
    expired := [];
    var todo := byPeer.Keys;
    while todo != {}
      invariant todo <= byPeer.Keys && NoDup(expired)
      invariant forall k :: k in expired <==> k in byPeer && k !in todo && now - byPeer[k].lastActive > idle
      decreases todo
    {
      var key :| key in todo;
      if now - byPeer[key].lastActive > idle {
        expired := expired + [key];
      }
      todo := todo - {key};
    }
  }

  class UdpTable {
    var byPeer: map<Peer, Entry>
    var byID: map<string, Entry>
    var order: seq<Peer>
    const maxSessions: nat
    const maxPacket: nat
    const sessionIdle: int

    ghost predicate Valid()
      reads this
    {
      && 0 < maxSessions
      && |order| <= maxSessions
      && Agree(order, byPeer, byID)
    }

    ghost function Contents(): (l: seq<Entry>)
      reads this
    {
      View(order, byPeer)
    }

    /** Limits out of range are replaced by the defaults (256 sessions, 1500 bytes,
        60 s, here in nanoseconds). */
    constructor (maxSessions: int, maxPacket: int, idle: int)
      ensures Valid() && Contents() == []
      ensures this.maxSessions == if maxSessions <= 0 then 256 else maxSessions
      ensures this.maxPacket == if 0 < maxPacket <= Framing.UDP_MAX_PACKET then maxPacket else 1500
      ensures sessionIdle == if idle <= 0 then 60_000_000_000 else idle
    {
      this.maxSessions := if maxSessions <= 0 then 256 else maxSessions;
      this.maxPacket := if maxPacket <= 0 || maxPacket > Framing.UDP_MAX_PACKET then 1500 else maxPacket;
      sessionIdle := if idle <= 0 then 60_000_000_000 else idle;
      byPeer, byID, order := map[], map[], [];
    }

    /** touchLocked and removeOrderLocked share this scan and splice. */
    method SpliceOut(key: Peer)
      requires NoDup(order)
      modifies this`order
      ensures order == Without(old(order), {key})
    {
      var i := 0;
      while i < |order|
        invariant 0 <= i <= |order| && order == old(order)
        invariant key !in order[..i]
      {
        if order[i] == key {
          SpliceIsWithout(order, i);
          order := order[..i] + order[i + 1..];
          return;
        }
        i := i + 1;
      }
      assert order[..i] == order;
      WithoutNothing(order, {key});
    }

    method EvictLRU()
      requires Valid() && order != []
      modifies this
      ensures Valid() && |order| < maxSessions
      ensures Contents() == old(Contents())[1..]
      ensures byPeer.Keys <= old(byPeer).Keys
    {
      var oldestKey := order[0];
      Keyed(order, byPeer, byID);
      FirstIsOldest(order);
      ViewTail(order, byPeer);
      AgreeRemove(order, byPeer, byID, oldestKey);
      order := order[1..];
      var h := HexID(byPeer[oldestKey].id);
      byPeer := byPeer - {oldestKey};
      byID := byID - {h};
    }

    /** The session for a peer; None means the packet is dropped. `id` is what
        NewSessionID yields, with no live session already using it. */
    method SessionFor(peer: Peer, id: Option<seq<byte>>, now: int) returns (s: Option<Entry>)
      requires Valid()
      requires id.Some? ==> FindId(Contents(), id.value).None?
      modifies this
      ensures Valid()
      ensures Contents() == Admit(old(Contents()), maxSessions, peer, id, now)
      ensures s == Find(Contents(), peer)
      ensures s == None <==> id.None? && Find(old(Contents()), peer).None?
    {
      Keyed(order, byPeer, byID);
      FindInView(order, byPeer, peer);
      if peer in byPeer {
        Touch(peer, now);
        Keyed(order, byPeer, byID);
        FindInView(order, byPeer, peer);
        return Some(byPeer[peer]);
      }
      NoDupCardinality(order);
      if |byPeer| >= maxSessions {
        EvictLRU();
      }
      if id.None? {
        return None;
      }
      Insert(peer, id.value, now);
      Keyed(order, byPeer, byID);
      FindInView(order, byPeer, peer);
      return Some(byPeer[peer]);
    }

    /** The session object is shared by both maps, so both see the new time. */
    method Touch(peer: Peer, now: int)
      requires Valid() && peer in byPeer
      modifies this
      ensures Valid() && byPeer.Keys == old(byPeer.Keys)
      ensures Contents() == Keep(old(Contents()), {peer}) + [old(byPeer[peer]).(lastActive := now)]
    {
      var s := byPeer[peer].(lastActive := now);
      Keyed(order, byPeer, byID);
      AgreeTouch(order, byPeer, byID, s);
      var h := HexID(s.id);
      byPeer, byID := byPeer[peer := s], byID[h := s];
      SpliceOut(peer);
      order := order + [peer];
    }

    method Insert(peer: Peer, id: seq<byte>, now: int)
      requires Valid() && |order| < maxSessions
      requires peer !in byPeer && FindId(Contents(), id).None?
      modifies this
      ensures Valid()
      ensures Contents() == old(Contents()) + [Entry(peer, id, now)]
      ensures peer in byPeer
    {
      var h := HexID(id);
      KeyOfId(order, byPeer, byID, id);
      Keyed(order, byPeer, byID);
      var s := Entry(peer, id, now);
      AgreeAdd(order, byPeer, byID, s);
      byPeer := byPeer[peer := s];
      byID := byID[h := s];
      order := order + [peer];
    }

    /** The session a return packet belongs to. */
    method SessionByID(id: seq<byte>) returns (s: Option<Entry>)
      requires Valid()
      ensures s == FindId(Contents(), id)
    {
      var h := HexID(id);
      KeyOfId(order, byPeer, byID, id);
      s := if h in byID then Some(byID[h]) else None;
    }

    /** Sweep: keys are collected and then deleted in whatever order the map
        yields them. */
    method ExpireIdle(now: int) returns (n: nat)
      requires Valid()
      modifies this
      ensures Valid()
      ensures Contents() == Expire(old(Contents()), now, sessionIdle)
      ensures n == |old(Contents())| - |Contents()|
    {
      ghost var l := Contents();
      var expired := CollectIdle(now);
      for i := 0 to |expired|
        invariant Valid()
        invariant Contents() == Keep(l, Elements(expired[..i]))
        invariant |order| == |l| - i
        invariant forall j :: i <= j < |expired| ==> expired[j] in byPeer
      {
        RemoveSession(expired[i]);
        KeepTwice(l, Elements(expired[..i]), {expired[i]});
        ElementsTake(expired, i);
      }
      assert expired[..|expired|] == expired;
      ExpireIsKeep(l, now, sessionIdle, Elements(expired));
      return |expired|;
    }

    method CollectIdle(now: int) returns (expired: seq<Peer>)
      requires Valid()
      ensures NoDup(expired) && forall j :: 0 <= j < |expired| ==> expired[j] in byPeer
      ensures forall e :: e in Contents() ==> (e.peer in Elements(expired) <==> now - e.lastActive > sessionIdle)
      ensures Keep(Contents(), Elements(expired[..0])) == Contents()
    {
      expired := IdleKeys(byPeer, now, sessionIdle);
      IdlePeers(order, byPeer, byID, expired, now, sessionIdle);
      KeepNone(Contents());
      assert Elements(expired[..0]) == {};
    }

    method RemoveSession(key: Peer)
      requires Valid() && key in byPeer
      modifies this
      ensures Valid()
      ensures byPeer == old(byPeer) - {key} && |order| == |old(order)| - 1
      ensures Contents() == Keep(old(Contents()), {key})
    {
      var s := byPeer[key];
      var h := HexID(s.id);
      Keyed(order, byPeer, byID);
      AgreeRemove(order, byPeer, byID, key);
      ViewRemove(order, byPeer, byID, key);
      byPeer := byPeer - {key};
      byID := byID - {h};
      SpliceOut(key);
    }

    method Close()
      requires Valid()
      modifies this
      ensures Valid() && Contents() == [] && byID == map[]
    {
      byPeer, byID, order := map[], map[], [];
    }
  }

  /** The text of an id is lower-case hexadecimal, high digit first. */
  lemma HexOfByte(b: byte)
    ensures var h := Hex([b]);
      && |h| == 2 && HexValue(h[0]) * 16 + HexValue(h[1]) == b
  {
    DigitValue(b / 16);
    DigitValue(b % 16);
  }

  function HexValue(c: char): int {
    if '0' <= c <= '9' then c as int - '0' as int
    else if 'a' <= c <= 'f' then 10 + (c as int - 'a' as int)
    else -1
  }

  lemma DigitValue(d: nat)
    requires d < 16
    ensures HexValue(HEX_DIGITS[d]) == d
  {
  }
}
