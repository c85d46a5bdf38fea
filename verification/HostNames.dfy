/** Host names in three places: normalisation for vhost routing
    (internal/tunnel/http_sniff.go), the protocol check
    (internal/protocol/validate.go) and the configuration check
    (internal/config/validate.go). ASCII only. */
module HostNames {
  import opened GoStrings

  predicate IsLower(c: char) {
    'a' <= c <= 'z'
  }

  predicate IsAlnum(c: char) {
    'a' <= c <= 'z' || 'A' <= c <= 'Z' || '0' <= c <= '9'
  }

  // ---- the three label rules ---------------------------------------------------

  /** tunnel.validHostname: lower case, no hyphen at either end. */
  predicate RoutingLabel(l: string) {
    && 0 < |l| <= 63
    && l[0] != '-' && l[|l| - 1] != '-'
    && forall i :: 0 <= i < |l| ==> IsLower(l[i]) || IsDigit(l[i]) || l[i] == '-'
  }

  /** protocol.validHostname: either case, hyphens strictly inside. */
  predicate ProtocolLabel(l: string) {
    && 0 < |l| <= 63
    && forall i :: 0 <= i < |l| ==> IsAlnum(l[i]) || (l[i] == '-' && 0 < i < |l| - 1)
  }

  /** One label of the RFC 1123 pattern in the configuration check: an
      alphanumeric, then optionally up to 61 alphanumerics or hyphens and a final
      alphanumeric. */
  predicate ConfigLabel(l: string) {
    && 0 < |l|
    && IsAlnum(l[0])
    && (|l| > 1 ==>
          && |l| - 2 <= 61
          && IsAlnum(l[|l| - 1])
          && forall i :: 1 <= i < |l| - 1 ==> IsAlnum(l[i]) || l[i] == '-')
  }

  datatype Rule = Routing | Protocol | Config

  predicate LabelOk(rule: Rule, l: string) {
    match rule
    case Routing => RoutingLabel(l)
    case Protocol => ProtocolLabel(l)
    case Config => ConfigLabel(l)
  }

  /** Every label between dots obeys the rule. */
  predicate LabelsOk(rule: Rule, h: string)
    decreases |h|
  {
    var i := IndexByte(h, '.');
    if i == |h| then LabelOk(rule, h)
    else LabelOk(rule, h[..i]) && LabelsOk(rule, h[i + 1..])
  }

  predicate ValidHostname(rule: Rule, h: string) {
    |h| <= 253 && LabelsOk(rule, h)
  }

  // ---- normalizeHost ---------------------------------------------------------------

  datatype Normalized = Host(name: string) | NoHost | BadHost

  /** The last position of c, or -1. */
  function LastIndexByte(s: string, c: char): (i: int)
    ensures -1 <= i < |s|
  {
    if s == "" then -1
    else if s[|s| - 1] == c then |s| - 1
    else LastIndexByte(s[..|s| - 1], c)
  }

  function StripPort(h: string): (r: string)
  {
    var i := LastIndexByte(h, ':');
    if i >= 0 && Atoi(h[i + 1..]).Some? then h[..i] else h
  }

  function StripDot(h: string): (r: string)
  {
    if h != "" && h[|h| - 1] == '.' then h[..|h| - 1] else h
  }

  function NormalizeHost(host: string): (r: Normalized)
  {
    var h := TrimSpace(host);
    if h == "" then NoHost
    else
      var n := StripDot(ToLower(StripPort(h)));
      if ValidHostname(Routing, n) then Host(n) else BadHost
  }

  // ---- what valid names look like ----------------------------------------------------

  predicate NameChar(c: char) {
    IsAlnum(c) || c == '-' || c == '.'
  }

  ghost predicate NameChars(h: string) {
    forall i :: 0 <= i < |h| ==> NameChar(h[i])
  }

  lemma LabelChars(rule: Rule, l: string)
    requires LabelOk(rule, l)
    ensures NameChars(l) && l != "" && IsAlnum(l[0]) && IsAlnum(l[|l| - 1])
  {
    if rule == Routing {
      assert IsLower(l[0]) || IsDigit(l[0]);
      assert IsLower(l[|l| - 1]) || IsDigit(l[|l| - 1]);
    } else if rule == Protocol {
      assert IsAlnum(l[0]) && IsAlnum(l[|l| - 1]);
    }
  }

  lemma {:induction false} ValidChars(rule: Rule, h: string)
    requires LabelsOk(rule, h)
    ensures NameChars(h) && h != "" && IsAlnum(h[0]) && IsAlnum(h[|h| - 1])
    decreases |h|
  {
    var i := IndexByte(h, '.');
    if i == |h| {
      LabelChars(rule, h);
    } else {
      LabelChars(rule, h[..i]);
      ValidChars(rule, h[i + 1..]);
      assert h == h[..i] + ['.'] + h[i + 1..];
    }
  }

  lemma {:induction false} NoColon(h: string)
    requires NameChars(h)
    ensures LastIndexByte(h, ':') == -1
  {
    if h != "" {
      assert NameChar(h[|h| - 1]);
      NoColon(h[..|h| - 1]);
    }
  }

  /** A name that obeys any of the rules passes trimming, port and dot removal
      unchanged. */
  lemma NothingToStrip(rule: Rule, h: string)
    requires LabelsOk(rule, h)
    ensures TrimSpace(h) == h && h != "" && StripPort(h) == h
    ensures StripDot(ToLower(h)) == ToLower(h)
  {
    ValidChars(rule, h);
    CharsStay(h);
    NoFinalDot(h);
  }

  lemma CharsStay(h: string)
    requires NameChars(h) && h != "" && IsAlnum(h[0]) && IsAlnum(h[|h| - 1])
    ensures TrimSpace(h) == h && StripPort(h) == h
  {
    TrimNothing(h);
    NoColon(h);
  }

  lemma NoFinalDot(h: string)
    requires h != "" && IsAlnum(h[|h| - 1])
    ensures StripDot(ToLower(h)) == ToLower(h)
  {
    LowerAt(h, |h| - 1);
  }

  lemma {:induction false} LowerFixed(h: string)
    requires LabelsOk(Routing, h)
    ensures ToLower(h) == h
  {
    RoutingIsLower(h);
    forall i | 0 <= i < |h|
      ensures ToLower(h)[i] == h[i]
    {
      LowerAt(h, i);
    }
  }

  lemma {:induction false} LowerAt(s: string, i: nat)
    requires i < |s|
    ensures ToLower(s)[i] == LowerChar(s[i])
  {
    if i > 0 {
      LowerAt(s[1..], i - 1);
    }
  }

  lemma {:induction false} RoutingIsLower(h: string)
    requires LabelsOk(Routing, h)
    ensures forall i :: 0 <= i < |h| ==> LowerChar(h[i]) == h[i]
    decreases |h|
  {
    var i := IndexByte(h, '.');
    if i < |h| {
      RoutingIsLower(h[i + 1..]);
      assert h == h[..i] + ['.'] + h[i + 1..];
      assert RoutingLabel(h[..i]);
      forall k | 0 <= k < |h|
        ensures LowerChar(h[k]) == h[k]
      {
        if k < i {
          assert h[k] == h[..i][k];
        } else if k > i {
          assert h[k] == h[i + 1..][k - i - 1];
        }
      }
    }
  }

  // ---- the three rules compared ---------------------------------------------------

  lemma LabelsSame(l: string)
    ensures ConfigLabel(l) <==> ProtocolLabel(l)
  {
    if ProtocolLabel(l) {
      assert IsAlnum(l[0]) && IsAlnum(l[|l| - 1]);
    }
  }

  /** The configuration check and the protocol check accept the same names. */
  lemma {:induction false} ConfigIsProtocol(h: string)
    ensures LabelsOk(Config, h) <==> LabelsOk(Protocol, h)
    decreases |h|
  {
    var i := IndexByte(h, '.');
    LabelsSame(if i == |h| then h else h[..i]);
    if i < |h| {
      ConfigIsProtocol(h[i + 1..]);
    }
  }

  lemma LowerLabel(l: string)
    ensures ProtocolLabel(l) ==> RoutingLabel(ToLower(l))
  {
    if ProtocolLabel(l) {
      var t := ToLower(l);
      forall i | 0 <= i < |t|
        ensures IsLower(t[i]) || IsDigit(t[i]) || t[i] == '-'
        ensures t[i] == '-' ==> 0 < i < |l| - 1
      {
        LowerAt(l, i);
        assert IsAlnum(l[i]) || (l[i] == '-' && 0 < i < |l| - 1);
      }
    }
  }

  lemma {:induction false} LowerConcat(s: string, t: string)
    ensures ToLower(s + t) == ToLower(s) + ToLower(t)
  {
    if s == "" {
      assert s + t == t;
    } else {
      LowerConcat(s[1..], t);
      assert (s + t)[1..] == s[1..] + t;
    }
  }

  lemma {:induction false} LowerLabels(h: string)
    requires LabelsOk(Protocol, h)
    ensures LabelsOk(Routing, ToLower(h))
    decreases |h|
  {
    var i := IndexByte(h, '.');
    if i == |h| {
      LowerLabel(h);
      NoDotLabel(ToLower(h));
    } else {
      var a, b := h[..i], h[i + 1..];
      LowerLabel(a);
      LowerLabels(b);
      assert h == a + ['.'] + b;
      LowerAcrossDot(a, b);
      LabelThenRest(ToLower(a), ToLower(b));
    }
  }

  lemma LowerAcrossDot(a: string, b: string)
    ensures ToLower(a + ['.'] + b) == ToLower(a) + ['.'] + ToLower(b)
  {
    LowerConcat(a + ['.'], b);
    LowerConcat(a, ['.']);
    assert ToLower(['.']) == ['.'];
  }

  lemma LabelThenRest(l: string, rest: string)
    requires RoutingLabel(l) && LabelsOk(Routing, rest)
    ensures LabelsOk(Routing, l + ['.'] + rest)
  {
    assert '.' !in l;
    PartsOfJoin(l, '.', rest);
  }

  lemma {:induction false} NoDotLabel(l: string)
    requires RoutingLabel(l)
    ensures LabelsOk(Routing, l)
  {
    IndexOfNone(l, '.');
  }

  /** Every name the configuration or the protocol check accepts normalises to
      its lower-case form. */
  lemma AcceptedNormalisesToLower(rule: Rule, h: string)
    requires ValidHostname(rule, h)
    ensures NormalizeHost(h) == Host(ToLower(h))
  {
    NothingToStrip(rule, h);
    assert NormalizeHost(h) == if ValidHostname(Routing, ToLower(h)) then Host(ToLower(h)) else BadHost;
    match rule
    case Routing => LowerFixed(h);
    case Protocol => LowerLabels(h);
    case Config =>
      ConfigIsProtocol(h);
      LowerLabels(h);
  }

  /** Normalising twice is normalising once. */
  lemma NormalizeIdempotent(h: string)
    requires NormalizeHost(h).Host?
    ensures NormalizeHost(NormalizeHost(h).name) == NormalizeHost(h)
  {
    var n := NormalizeHost(h).name;
    NothingToStrip(Routing, n);
    LowerFixed(n);
  }

  // ---- what a client may write for a name ---------------------------------------------

  lemma {:induction false} LastIndexIs(s: string, c: char, t: string)
    requires c !in t
    ensures LastIndexByte(s + [c] + t, c) == |s|
  {
    var u := s + [c] + t;
    if t != "" {
      assert u[..|u| - 1] == s + [c] + t[..|t| - 1];
      LastIndexIs(s, c, t[..|t| - 1]);
    }
  }

  lemma {:induction false} NoLastIndex(s: string, c: char)
    requires c !in s
    ensures LastIndexByte(s, c) == -1
  {
    if s != "" {
      NoLastIndex(s[..|s| - 1], c);
    }
  }

  /** How a request may spell a valid name: as it is, with a final dot, with a
      port, or with both. */
  ghost predicate Spells(raw: string, h: string) {
    || raw == h
    || raw == h + "."
    || exists n: nat :: n <= MAX_INT && (raw == h + ":" + Decimal(n) || raw == h + "." + ":" + Decimal(n))
  }

  lemma NameIsTight(rule: Rule, h: string)
    requires LabelsOk(rule, h)
    ensures h != "" && Tight(h) && ':' !in h && ' ' !in h && h[|h| - 1] != '.'
  {
    ValidChars(rule, h);
    forall i | 0 <= i < |h|
      ensures h[i] != ':' && h[i] != ' '
    {
      assert NameChar(h[i]);
    }
  }

  lemma PortIsStripped(h: string, n: nat)
    requires n <= MAX_INT && h != "" && Tight(h)
    ensures TrimSpace(h + ":" + Decimal(n)) == h + ":" + Decimal(n) && StripPort(h + ":" + Decimal(n)) == h
  {
    var d := Decimal(n);
    var raw := h + ":" + d;
    assert IsDigit(d[|d| - 1]);
    assert ':' !in d;
    TrimNothing(raw);
    LastIndexIs(h, ':', d);
    AtoiOfDecimal(n);
    assert raw[|h| + 1..] == d && raw[..|h|] == h;
  }

  lemma NoPortToStrip(h: string)
    requires h != "" && Tight(h) && ':' !in h
    ensures TrimSpace(h) == h && StripPort(h) == h
  {
    TrimNothing(h);
    NoLastIndex(h, ':');
  }

  lemma DotIsStripped(h: string)
    requires h != "" && h[|h| - 1] != '.'
    ensures StripDot(ToLower(h + ".")) == ToLower(h)
    ensures StripDot(ToLower(h)) == ToLower(h)
  {
    LowerConcat(h, ".");
    assert ToLower(".") == ".";
    LowerAt(h, |h| - 1);
  }

  /** Every spelling of an acceptable name, in either case, with or without a port
      and a final dot, is normalised to the lower-case name. */
  lemma SpellingsNormalise(rule: Rule, h: string, raw: string)
    requires ValidHostname(rule, h) && Spells(raw, h)
    ensures NormalizeHost(raw) == Host(ToLower(h))
  {
    AcceptedNormalisesToLower(rule, h);
    NameIsTight(rule, h);
    DotIsStripped(h);
    NoPortToStrip(h);
    NoPortToStrip(h + ".");
    LowerIsValid(rule, h);
    if raw != h && raw != h + "." {
      var n: nat :| n <= MAX_INT && (raw == h + ":" + Decimal(n) || raw == h + "." + ":" + Decimal(n));
      PortIsStripped(h, n);
      PortIsStripped(h + ".", n);
    }
  }

  lemma LowerIsValid(rule: Rule, h: string)
    requires ValidHostname(rule, h)
    ensures ValidHostname(Routing, ToLower(h))
  {
    NothingToStrip(rule, h);
    AcceptedNormalisesToLower(rule, h);
    assert NormalizeHost(h) == if ValidHostname(Routing, ToLower(h)) then Host(ToLower(h)) else BadHost;
  }

  /** A dotted name is acceptable exactly when each label is. */
  lemma JoinedLabels(rule: Rule, l: string, rest: string)
    requires '.' !in l
    ensures LabelsOk(rule, l) <==> LabelOk(rule, l)
    ensures LabelsOk(rule, l + "." + rest) <==> LabelOk(rule, l) && LabelsOk(rule, rest)
  {
    IndexOfNone(l, '.');
    PartsOfJoin(l, '.', rest);
  }

  const LETTERS_LOW := "abcdefghijklmnopqrstuvwxyz"
  const LETTERS_HIGH := "ABCDEFGHIJKLMNOPQRSTUVWXYZ"
  const NUMERALS := "0123456789"

  lemma LowLetter(i: nat)
    requires i < 26
    ensures LETTERS_LOW[i] == ('a' as int + i) as char && LETTERS_HIGH[i] == ('A' as int + i) as char
  {
  }

  lemma Numeral(i: nat)
    requires i < 10
    ensures NUMERALS[i] == ('0' as int + i) as char
  {
  }

  lemma LettersAre(c: char)
    ensures 'a' <= c <= 'z' <==> c in LETTERS_LOW
    ensures 'A' <= c <= 'Z' <==> c in LETTERS_HIGH
  {
    forall i | 0 <= i < 26
      ensures LETTERS_LOW[i] == ('a' as int + i) as char && LETTERS_HIGH[i] == ('A' as int + i) as char
    {
      LowLetter(i);
    }
    InAlphabet(LETTERS_LOW, 'a', c);
    InAlphabet(LETTERS_HIGH, 'A', c);
  }

  lemma InAlphabet(letters: string, first: char, c: char)
    requires first as int + |letters| < 128
    requires forall i :: 0 <= i < |letters| ==> letters[i] == (first as int + i) as char
    ensures c in letters <==> first as int <= c as int < first as int + |letters|
  {
    if first as int <= c as int < first as int + |letters| {
      assert letters[c as int - first as int] == c;
    }
  }

  lemma AlnumIs(c: char)
    ensures IsAlnum(c) <==> c in LETTERS_LOW || c in LETTERS_HIGH || c in NUMERALS
  {
    LettersAre(c);
    forall i | 0 <= i < 10
      ensures NUMERALS[i] == ('0' as int + i) as char
    {
      Numeral(i);
    }
    InAlphabet(NUMERALS, '0', c);
  }

  /** Section 2.1 of RFC 1123: 1 to 63 letters, digits and hyphens, no hyphen at
      either end. */
  lemma AcceptedLabel(rule: Rule, l: string)
    requires rule != Routing
    ensures LabelOk(rule, l) <==>
      && 1 <= |l| <= 63 && l[0] != '-' && l[|l| - 1] != '-'
      && forall i :: 0 <= i < |l| ==> l[i] in LETTERS_LOW || l[i] in LETTERS_HIGH || l[i] in NUMERALS || l[i] == '-'
  {
    LabelsSame(l);
    forall i | 0 <= i < |l|
      ensures IsAlnum(l[i]) <==> l[i] in LETTERS_LOW || l[i] in LETTERS_HIGH || l[i] in NUMERALS
    {
      AlnumIs(l[i]);
    }
  }

  function Join(labels: seq<string>): string
    requires labels != []
  {
    if |labels| == 1 then labels[0] else labels[0] + "." + Join(labels[1..])
  }

  /** A name is acceptable exactly if it is at most 253 characters long and each of
      its labels is acceptable. */
  lemma {:induction false} NameOfLabels(rule: Rule, labels: seq<string>)
    requires labels != [] && forall i :: 0 <= i < |labels| ==> '.' !in labels[i]
    ensures LabelsOk(rule, Join(labels)) <==> forall i :: 0 <= i < |labels| ==> LabelOk(rule, labels[i])
    ensures ValidHostname(rule, Join(labels)) <==>
      |Join(labels)| <= 253 && forall i :: 0 <= i < |labels| ==> LabelOk(rule, labels[i])
  {
    if |labels| == 1 {
      JoinedLabels(rule, labels[0], "");
    } else {
      NameOfLabels(rule, labels[1..]);
      JoinedLabels(rule, labels[0], Join(labels[1..]));
      assert forall i :: 1 <= i < |labels| ==> labels[i] == labels[1..][i - 1];
    }
  }
}
