/** What the sniffer makes of requests as clients write them: statements about
    text, with no reference to how a line is judged. */
module HttpRequests {
  import opened GoStrings
  import opened HostNames
  import opened HttpSniff

  // ---- header lines -----------------------------------------------------------------

  /** "Host" in either case. */
  ghost predicate HostKey(key: string) {
    && |key| == 4
    && (key[0] == 'h' || key[0] == 'H') && (key[1] == 'o' || key[1] == 'O')
    && (key[2] == 's' || key[2] == 'S') && (key[3] == 't' || key[3] == 'T')
  }

  ghost predicate FieldName(key: string) {
    key != "" && ':' !in key && '\n' !in key && key[0] != ' ' && key[0] != '\t'
  }

  ghost predicate LineEnding(e: string) {
    e == "\n" || e == "\r\n"
  }

  /** A field line: name, colon, optional space, value, optional space. */
  ghost function FieldLine(key: string, before: string, value: string, after: string, ending: string): string {
    key + ":" + (before + value + after) + ending
  }

  ghost predicate FieldValue(before: string, value: string, after: string) {
    && AllSpace(before) && AllSpace(after) && Tight(value)
    && '\n' !in before && '\n' !in value && '\n' !in after
  }

  lemma EqualFold(key: string)
    ensures ToLower(key) == "host" <==> HostKey(key)
  {
    if |key| == 4 {
      forall i | 0 <= i < 4
        ensures ToLower(key)[i] == LowerChar(key[i])
      {
        LowerAt(key, i);
      }
      var t := ToLower(key);
      assert t == [t[0], t[1], t[2], t[3]];
    }
  }

  /** What is left of a line without its ending: all of it, but for a carriage
      return. */
  lemma EndingDropped(text: string, ending: string)
    requires LineEnding(ending) && text != ""
    ensures Trimmed(text + ending) == text
         || (text[|text| - 1] == '\r' && Trimmed(text + ending) == text[..|text| - 1])
  {
    var line := text + ending;
    if ending == "\n" {
      assert line[..|line| - 1] == text;
    } else {
      assert line[..|line| - 1] == text + "\r";
      assert (text + "\r")[..|text|] == text;
    }
  }

  /** A carriage return that is not part of the line ending counts as space. */
  lemma ValueOfLine(before: string, value: string, after: string, rest: string)
    requires FieldValue(before, value, after)
    requires var v := before + value + after;
      rest == v || (v != "" && v[|v| - 1] == '\r' && rest == v[..|v| - 1])
    ensures TrimSpace(rest) == value
  {
    var v := before + value + after;
    TrimSpaceDrops(before, value, after);
    if rest != v {
      if after != "" {
        assert rest == before + value + after[..|after| - 1];
        TrimSpaceDrops(before, value, after[..|after| - 1]);
      } else {
        assert value == "" by {
          LastIsLast(before, value);
        }
        assert rest == before[..|before| - 1] + value + after;
        TrimSpaceDrops(before[..|before| - 1], value, after);
      }
    }
  }

  lemma LastIsLast(a: string, b: string)
    ensures b != "" ==> (a + b + "")[|a + b + ""| - 1] == b[|b| - 1]
  {
  }

  /** A field line names the host if and only if its name is "Host" in either
      case, and then by its value without the surrounding space. */
  lemma FieldIsJudged(key: string, before: string, value: string, after: string, ending: string)
    requires FieldName(key) && FieldValue(before, value, after) && LineEnding(ending)
    ensures IsLine(FieldLine(key, before, value, after, ending))
    ensures Judge(FieldLine(key, before, value, after, ending))
         == if HostKey(key) then HostHeader(value) else OtherHeader
  {
    var v := before + value + after;
    var text := key + ":" + v;
    FieldIsLine(text, ending);
    EndingDropped(text, ending);
    var t := Trimmed(text + ending);
    var rest := if t == text then v else v[..|v| - 1];
    assert t == key + ":" + rest;
    PartsOfJoin(key, ':', rest);
    ValueOfLine(before, value, after, rest);
    EqualFold(key);
    assert t[0] == key[0];
  }

  lemma FieldIsLine(text: string, ending: string)
    requires '\n' !in text && LineEnding(ending)
    ensures IsLine(text + ending)
  {
    var line := text + ending;
    forall i | 0 <= i < |line| - 1
      ensures line[i] != '\n'
    {
      assert i < |text| ==> line[i] == text[i];
    }
  }

  lemma BlankIsJudged(ending: string)
    requires LineEnding(ending)
    ensures IsLine(ending) && Judge(ending) == EndOfHead
  {
    assert "\r\n"[..1] == "\r" && "\r"[..0] == "";
  }

  // ---- whole requests ------------------------------------------------------------------

  /** A field line that is no Host line. */
  ghost predicate OtherField(line: string) {
    exists key, before, value, after, ending ::
      && FieldName(key) && !HostKey(key) && FieldValue(before, value, after) && LineEnding(ending)
      && line == FieldLine(key, before, value, after, ending)
  }

  ghost predicate OtherFields(lines: Lines) {
    lines.Cons? ==> OtherField(lines.line) && OtherFields(lines.rest)
  }

  function Then(lines: Lines, last: string): Lines {
    match lines
    case Nil => Cons(last, Nil)
    case Cons(line, rest) => Cons(line, Then(rest, last))
  }

  lemma {:induction false} ConcatThen(lines: Lines, last: string)
    ensures Concat(Then(lines, last)) == Concat(lines) + last
  {
    match lines
    case Nil => assert Concat(Cons(last, Nil)) == last;
    case Cons(line, rest) =>
      ConcatThen(rest, last);
      Regroup(line, Concat(rest), last);
  }

  lemma {:induction false} OthersThenLast(others: Lines, last: string, fallback: string, raw: string)
    requires OtherFields(others) && IsLine(last)
    requires Judge(last) == HostHeader(raw) || (Judge(last) == EndOfHead && raw == fallback)
    ensures Settles(Then(others, last), fallback, raw)
  {
    if others.Cons? {
      var key, before, value, after, ending :|
        && FieldName(key) && !HostKey(key) && FieldValue(before, value, after) && LineEnding(ending)
        && others.line == FieldLine(key, before, value, after, ending);
      FieldIsJudged(key, before, value, after, ending);
      OthersThenLast(others.rest, last, fallback, raw);
    }
  }

  /** A request whose first Host line holds a spelling of an acceptable name is
      routed by that name in lower case, whatever its request line, its other
      fields, and what follows. */
  lemma HostFieldRoutes(request: string, others: Lines, key: string, before: string, raw: string, after: string,
                        ending: string, rule: Rule, h: string, rest: string, size: nat, end: End, maxBytes: nat)
    requires IsLine(request) && OtherFields(others) && FieldName(key) && HostKey(key)
    requires ValidHostname(rule, h) && Spells(raw, h) && FieldValue(before, raw, after) && LineEnding(ending)
    requires |request + Concat(others) + FieldLine(key, before, raw, after, ending)| <= maxBytes <= size
    ensures var head := request + Concat(others) + FieldLine(key, before, raw, after, ending);
      Sniff(head + rest, size, end, maxBytes) == Accepted(ToLower(h), head)
  {
    var last := FieldLine(key, before, raw, after, ending);
    FieldIsJudged(key, before, raw, after, ending);
    SpellingsNormalise(rule, h, raw);
    LastLineDecides(request, others, last, raw, ToLower(h), rest, size, end, maxBytes);
  }

  lemma LastLineDecides(request: string, others: Lines, last: string, raw: string, host: string, rest: string,
                        size: nat, end: End, maxBytes: nat)
    requires IsLine(request) && OtherFields(others) && IsLine(last) && NormalizeHost(raw) == Host(host)
    requires Judge(last) == HostHeader(raw)
          || (Judge(last) == EndOfHead && raw == HostFromRequestLine(Trimmed(request)))
    requires |request + Concat(others) + last| <= maxBytes <= size
    ensures Sniff(request + Concat(others) + last + rest, size, end, maxBytes)
         == Accepted(host, request + Concat(others) + last)
  {
    var lines := Cons(request, Then(others, last));
    OthersThenLast(others, last, HostFromRequestLine(Trimmed(request)), raw);
    ConcatThen(others, last);
    Regroup(request, Concat(others), last);
    assert Concat(lines) == request + Concat(others) + last;
    AcceptanceIsComplete(lines, raw, host, rest, size, end, maxBytes);
  }

  // ---- absolute-form targets ---------------------------------------------------------------

  ghost predicate Word(s: string) {
    s != "" && forall i :: 0 <= i < |s| ==> !IsSpace(s[i])
  }

  lemma {:induction false} SkipsWord(w: string, rest: string)
    requires (forall i :: 0 <= i < |w| ==> !IsSpace(w[i])) && (rest == "" || IsSpace(rest[0]))
    ensures SkipWord(w + rest) == |w|
  {
    if w == "" {
      assert w + rest == rest;
    } else {
      assert (w + rest)[1..] == w[1..] + rest;
      SkipsWord(w[1..], rest);
    }
  }

  lemma FieldsStep(w: string, rest: string)
    requires Word(w) && (rest == "" || IsSpace(rest[0]))
    ensures Fields(w + rest) == [w] + Fields(rest)
  {
    SkipsWord(w, rest);
    assert (w + rest)[..|w|] == w && (w + rest)[|w|..] == rest;
  }

  lemma ThreeFields(a: string, b: string, c: string)
    requires Word(a) && Word(b) && Word(c)
    ensures Fields(a + " " + b + " " + c) == [a, b, c]
  {
    assert a + " " + b + " " + c == a + (" " + (b + (" " + c)));
    FieldsStep(a, " " + (b + (" " + c)));
    assert (" " + (b + (" " + c)))[1..] == b + (" " + c);
    FieldsStep(b, " " + c);
    assert (" " + c)[1..] == c && c + "" == c;
    FieldsStep(c, "");
  }

  /** Method, target and version, with single spaces. */
  ghost predicate RequestLine(line: string, target: string) {
    exists verb, version, ending ::
      && Word(verb) && Word(version) && LineEnding(ending)
      && line == verb + " " + target + " " + version + ending
  }

  lemma RequestIsParsed(line: string, target: string)
    requires RequestLine(line, target) && Word(target)
    ensures IsLine(line)
    ensures HostFromRequestLine(Trimmed(line)) == TargetHost(target)
  {
    var verb, version, ending :| Word(verb) && Word(version) && LineEnding(ending)
      && line == verb + " " + target + " " + version + ending;
    TextHasNoBreak(verb, target, version);
    FieldIsLine(verb + " " + target + " " + version, ending);
    EndingDropped(verb + " " + target + " " + version, ending);
    ThreeFields(verb, target, version);
  }

  lemma TextHasNoBreak(verb: string, target: string, version: string)
    requires Word(verb) && Word(target) && Word(version)
    ensures var text := verb + " " + target + " " + version;
      text != "" && '\n' !in text && text[|text| - 1] != '\r'
  {
    var text := verb + " " + target + " " + version;
    assert text[|text| - 1] == version[|version| - 1];
  }

  ghost function TargetHost(target: string): string {
    if |target| < 7 || ToLower(target)[..7] != "http://" then "" else Authority(target[7..])
  }

  /** "http://" in any case. */
  ghost predicate HttpScheme(s: string) {
    |s| == 7 && ToLower(s) == "http://"
  }

  /** Where the authority of a target ends. */
  ghost predicate PathStart(path: string) {
    path == "" || path[0] == '/' || path[0] == '?' || path[0] == '#'
  }

  lemma {:induction false} AuthorityIs(a: string, path: string)
    requires (forall i :: 0 <= i < |a| ==> a[i] != '/' && a[i] != '?' && a[i] != '#') && PathStart(path)
    ensures Authority(a + path) == a
  {
    if a == "" {
      assert a + path == path;
    } else {
      assert (a + path)[1..] == a[1..] + path;
      AuthorityIs(a[1..], path);
    }
  }

  lemma SpellingChars(rule: Rule, h: string, raw: string)
    requires LabelsOk(rule, h) && Spells(raw, h)
    ensures Word(raw) && forall i :: 0 <= i < |raw| ==> raw[i] != '/' && raw[i] != '?' && raw[i] != '#'
  {
    ValidChars(rule, h);
    assert forall i :: 0 <= i < |h| ==> NameChar(h[i]);
    forall i | 0 <= i < |raw|
      ensures NameChar(raw[i]) || raw[i] == ':'
    {
      if raw != h && raw != h + "." {
        var n: nat :| n <= MAX_INT && (raw == h + ":" + Decimal(n) || raw == h + "." + ":" + Decimal(n));
        assert forall k :: 0 <= k < |Decimal(n)| ==> IsDigit(Decimal(n)[k]);
      }
    }
  }

  /** A request with an absolute-form target and no Host line is routed by the
      authority of the target. */
  lemma AbsoluteTargetRoutes(request: string, scheme: string, raw: string, path: string, others: Lines, ending: string,
                             rule: Rule, h: string, rest: string, size: nat, end: End, maxBytes: nat)
    requires HttpScheme(scheme) && PathStart(path) && (path == "" || Word(path))
    requires RequestLine(request, scheme + raw + path) && OtherFields(others) && LineEnding(ending)
    requires ValidHostname(rule, h) && Spells(raw, h)
    requires |request + Concat(others) + ending| <= maxBytes <= size
    ensures Sniff(request + Concat(others) + ending + rest, size, end, maxBytes)
         == Accepted(ToLower(h), request + Concat(others) + ending)
  {
    TargetAuthority(request, scheme, raw, path, rule, h);
    SpellingsNormalise(rule, h, raw);
    BlankIsJudged(ending);
    LastLineDecides(request, others, ending, raw, ToLower(h), rest, size, end, maxBytes);
  }

  lemma TargetAuthority(request: string, scheme: string, raw: string, path: string, rule: Rule, h: string)
    requires HttpScheme(scheme) && PathStart(path) && (path == "" || Word(path))
    requires RequestLine(request, scheme + raw + path) && ValidHostname(rule, h) && Spells(raw, h)
    ensures IsLine(request) && HostFromRequestLine(Trimmed(request)) == raw
  {
    SpellingChars(rule, h, raw);
    SchemeChars(scheme);
    assert Word(scheme + raw + path);
    RequestIsParsed(request, scheme + raw + path);
    TargetIs(scheme, raw, path);
  }

  lemma TargetIs(scheme: string, raw: string, path: string)
    requires HttpScheme(scheme) && PathStart(path)
    requires forall i :: 0 <= i < |raw| ==> raw[i] != '/' && raw[i] != '?' && raw[i] != '#'
    ensures TargetHost(scheme + raw + path) == raw
  {
    var target := scheme + raw + path;
    assert target == scheme + (raw + path) && target[7..] == raw + path;
    LowerConcat(scheme, raw + path);
    assert ToLower(target)[..7] == ToLower(scheme);
    AuthorityIs(raw, path);
  }

  lemma SchemeChars(scheme: string)
    requires HttpScheme(scheme)
    ensures forall i :: 0 <= i < |scheme| ==> !IsSpace(scheme[i])
  {
    forall i | 0 <= i < |scheme|
      ensures !IsSpace(scheme[i])
    {
      LowerAt(scheme, i);
    }
  }

  // ---- refusals -----------------------------------------------------------------------------

  /** A request without a Host line, whose target is not absolute, has no host. */
  lemma NoHostIsRefused(request: string, target: string, others: Lines, ending: string, rest: string,
                        size: nat, end: End, maxBytes: nat)
    requires RequestLine(request, target) && Word(target) && target[0] == '/'
    requires OtherFields(others) && LineEnding(ending)
    requires |request + Concat(others) + ending| <= maxBytes <= size
    ensures Sniff(request + Concat(others) + ending + rest, size, end, maxBytes) == Rejected(NoUsableHost)
  {
    RequestIsParsed(request, target);
    OriginFormHasNoHost(target);
    BlankIsJudged(ending);
    OthersThenRest(request, others, ending, rest, size, end, maxBytes);
    assert Conclude("", request + Concat(others) + ending) == Rejected(NoUsableHost);
  }

  lemma OriginFormHasNoHost(target: string)
    requires target != "" && target[0] == '/'
    ensures TargetHost(target) == ""
  {
    LowerAt(target, 0);
    assert |target| >= 7 ==> ToLower(target)[..7][0] == '/';
  }

  /** A folded field line, or one without a field name or a colon, makes the head
      malformed. */
  lemma BadLineIsRefused(request: string, others: Lines, text: string, ending: string, rest: string,
                         size: nat, end: End, maxBytes: nat)
    requires IsLine(request) && OtherFields(others) && LineEnding(ending) && text != "" && '\n' !in text && text != "\r"
    requires text[0] == ' ' || text[0] == '\t' || text[0] == ':' || ':' !in text
    requires |request + Concat(others) + (text + ending)| <= maxBytes <= size
    ensures Sniff(request + Concat(others) + (text + ending) + rest, size, end, maxBytes) == Rejected(Malformed)
  {
    FieldIsLine(text, ending);
    EndingDropped(text, ending);
    var t := Trimmed(text + ending);
    assert t != "" && t[0] == text[0];
    if text[0] != ':' && ':' !in text {
      IndexOfNone(t, ':');
    }
    OthersThenRest(request, others, text + ending, rest, size, end, maxBytes);
  }

  /** What a line that is no other field leads to. */
  ghost function Decided(v: Verdict, fallback: string, prefix: string): Sniffed {
    match v
    case EndOfHead => Conclude(fallback, prefix)
    case HostHeader(value) => Conclude(value, prefix)
    case _ => Rejected(Malformed)
  }

  /** After a request line and other fields, the next line decides. */
  lemma OthersThenRest(request: string, others: Lines, last: string, rest: string, size: nat, end: End, maxBytes: nat)
    requires IsLine(request) && OtherFields(others) && IsLine(last) && Judge(last) != OtherHeader
    requires |request + Concat(others) + last| <= maxBytes <= size
    ensures Sniff(request + Concat(others) + last + rest, size, end, maxBytes)
         == Decided(Judge(last), HostFromRequestLine(Trimmed(request)), request + Concat(others) + last)
  {
    var fallback := HostFromRequestLine(Trimmed(request));
    ToTheLine(request, others, last + rest, size, end, maxBytes);
    LastStep(last, rest, size, end, request + Concat(others), maxBytes, fallback);
    Regroup(request + Concat(others), last, rest);
  }

  /** The request line and the other fields are read, and the fallback is that of
      the request line. */
  lemma ToTheLine(request: string, others: Lines, tail: string, size: nat, end: End, maxBytes: nat)
    requires IsLine(request) && OtherFields(others) && |request + Concat(others)| <= maxBytes <= size
    ensures Sniff(request + Concat(others) + tail, size, end, maxBytes)
         == ScanHeaders(tail, size, end, request + Concat(others), maxBytes, HostFromRequestLine(Trimmed(request)))
  {
    LineIsRead(request, Concat(others) + tail, size, end, 0, maxBytes);
    SniffStep(request, Concat(others) + tail, size, end, maxBytes);
    ScanOthers(others, tail, size, end, request, maxBytes, HostFromRequestLine(Trimmed(request)));
    Regroup(request, Concat(others), tail);
  }

  lemma SniffStep(line: string, rest: string, size: nat, end: End, maxBytes: nat)
    requires ReadLine(line + rest, size, end, 0, maxBytes) == Got(line) && |line| <= maxBytes
    ensures Sniff(line + rest, size, end, maxBytes)
         == ScanHeaders(rest, size, end, line, maxBytes, HostFromRequestLine(Trimmed(line)))
  {
    assert (line + rest)[|line|..] == rest;
  }

  lemma OtherStep(line: string, rest: string, size: nat, end: End, prefix: string, maxBytes: nat, fallback: string)
    requires OtherField(line) && |prefix| + |line| <= maxBytes <= size
    ensures ScanHeaders(line + rest, size, end, prefix, maxBytes, fallback)
         == ScanHeaders(rest, size, end, prefix + line, maxBytes, fallback)
  {
    var key, before, value, after, ending :|
      && FieldName(key) && !HostKey(key) && FieldValue(before, value, after) && LineEnding(ending)
      && line == FieldLine(key, before, value, after, ending);
    FieldIsJudged(key, before, value, after, ending);
    LineIsRead(line, rest, size, end, |prefix|, maxBytes);
    ScanStep(line, rest, size, end, prefix, maxBytes, fallback);
  }

  lemma LastStep(line: string, rest: string, size: nat, end: End, prefix: string, maxBytes: nat, fallback: string)
    requires IsLine(line) && Judge(line) != OtherHeader && |prefix| + |line| <= maxBytes <= size
    ensures ScanHeaders(line + rest, size, end, prefix, maxBytes, fallback)
         == Decided(Judge(line), fallback, prefix + line)
  {
    LineIsRead(line, rest, size, end, |prefix|, maxBytes);
    ScanStep(line, rest, size, end, prefix, maxBytes, fallback);
  }

  /** Other fields are passed over. */
  lemma {:induction false} ScanOthers(others: Lines, tail: string, size: nat, end: End, prefix: string,
                                      maxBytes: nat, fallback: string)
    requires OtherFields(others) && |prefix + Concat(others)| <= maxBytes <= size
    ensures ScanHeaders(Concat(others) + tail, size, end, prefix, maxBytes, fallback)
         == ScanHeaders(tail, size, end, prefix + Concat(others), maxBytes, fallback)
  {
    match others
    case Nil => assert Concat(others) + tail == tail && prefix + Concat(others) == prefix;
    case Cons(line, more) =>
      Regroup(line, Concat(more), tail);
      Regroup(prefix, line, Concat(more));
      OtherStep(line, Concat(more) + tail, size, end, prefix, maxBytes, fallback);
      ScanOthers(more, tail, size, end, prefix + line, maxBytes, fallback);
  }

  /** A head that outgrows the budget is refused, however it would go on. */
  lemma LongHeadIsRefused(request: string, others: Lines, line: string, rest: string, size: nat, end: End,
                          maxBytes: nat)
    requires IsLine(request) && OtherFields(others) && |request + Concat(others)| <= maxBytes < size
    requires IsLine(line) && maxBytes < |request + Concat(others)| + |line|
    ensures Sniff(request + Concat(others) + (line + rest), size, end, maxBytes) == Rejected(TooLarge)
  {
    ToTheLine(request, others, line + rest, size, end, maxBytes);
    TooLongToRead(line, rest, size, end, request + Concat(others), maxBytes, HostFromRequestLine(Trimmed(request)));
  }

  lemma TooLongToRead(line: string, rest: string, size: nat, end: End, prefix: string, maxBytes: nat, fallback: string)
    requires IsLine(line) && |prefix| <= maxBytes < size && maxBytes < |prefix| + |line|
    ensures ScanHeaders(line + rest, size, end, prefix, maxBytes, fallback) == Rejected(TooLarge)
  {
    IndexIsFirst(line + rest, '\n', |line| - 1);
  }

  lemma LongRequestLineIsRefused(line: string, rest: string, size: nat, end: End, maxBytes: nat)
    requires IsLine(line) && maxBytes < |line| && maxBytes < size
    ensures Sniff(line + rest, size, end, maxBytes) == Rejected(TooLarge)
  {
    IndexIsFirst(line + rest, '\n', |line| - 1);
  }

  /** A stream that ends before its first line does. */
  lemma CutShortIsRefused(stream: string, size: nat, end: End, maxBytes: nat)
    requires '\n' !in stream && |stream| < size
    ensures Sniff(stream, size, end, maxBytes)
         == Rejected(if end == Failure then ReadFailed else if stream == "" then Closed else Malformed)
  {
    IndexOfNone(stream, '\n');
  }

  /** An empty Host value, and one that starts like an IPv6 literal. */
  lemma BadHostValuesAreRefused(request: string, others: Lines, key: string, before: string, raw: string, after: string,
                                ending: string, rest: string, size: nat, end: End, maxBytes: nat)
    requires IsLine(request) && OtherFields(others) && FieldName(key) && HostKey(key)
    requires FieldValue(before, raw, after) && LineEnding(ending) && (raw == "" || raw[0] == '[')
    requires |request + Concat(others) + FieldLine(key, before, raw, after, ending)| <= maxBytes <= size
    ensures Sniff(request + Concat(others) + FieldLine(key, before, raw, after, ending) + rest, size, end, maxBytes)
         == Rejected(if raw == "" then NoUsableHost else BadHostValue)
  {
    var last := FieldLine(key, before, raw, after, ending);
    FieldIsJudged(key, before, raw, after, ending);
    OthersThenRest(request, others, last, rest, size, end, maxBytes);
    ConcludeBad(raw, request + Concat(others) + last);
  }

  lemma ConcludeBad(raw: string, prefix: string)
    requires Tight(raw) && (raw == "" || raw[0] == '[')
    ensures Conclude(raw, prefix) == Rejected(if raw == "" then NoUsableHost else BadHostValue)
  {
    if raw != "" {
      TrimNothing(raw);
      BracketStays(raw);
      NotAName(StripDot(ToLower(StripPort(raw))));
    }
  }

  lemma BracketStays(raw: string)
    requires raw != "" && raw[0] == '['
    ensures var n := StripDot(ToLower(StripPort(raw))); n != "" && n[0] == '['
  {
    var n := StripPort(raw);
    LastIndexFound(raw, ':');
    assert n != "" && n[0] == '[';
    LowerAt(n, 0);
  }

  lemma {:induction false} LastIndexFound(s: string, c: char)
    ensures LastIndexByte(s, c) >= 0 ==> s[LastIndexByte(s, c)] == c
  {
    if s != "" && s[|s| - 1] != c {
      LastIndexFound(s[..|s| - 1], c);
    }
  }

  lemma NotAName(h: string)
    requires h != "" && h[0] == '['
    ensures !ValidHostname(Routing, h)
  {
    if LabelsOk(Routing, h) {
      ValidChars(Routing, h);
    }
  }
}
