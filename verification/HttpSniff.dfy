/** The HTTP head sniffer (internal/tunnel/http_sniff.go): it reads lines until
    it knows the host, keeps the bytes it consumed for replay, and refuses
    anything unusual. Bytes are modelled as characters. */
module HttpSniff {
  import opened Collections
  import opened GoStrings
  import opened HostNames

  const MAX_SNIFF_BYTES := 8192

  datatype SniffError = TooLarge | NoUsableHost | BadHostValue | Malformed | Closed | ReadFailed

  // ---- the buffered reader ------------------------------------------------------

  /** How a stream ends once its bytes run out. */
  datatype End = Eof | Failure

  /** ReadSlice('\n') with a buffer of the given size. */
  datatype Slice = Line(text: string) | BufferFull | Ended(partial: string)

  function ReadSlice(rest: string, size: nat): (s: Slice)
    ensures s.Line? ==> 0 < |s.text| <= |rest| && s.text == rest[..|s.text|]
  {
    var i := IndexByte(rest, '\n');
    if i < |rest| && i < size then Line(rest[..i + 1])
    else if |rest| >= size then BufferFull
    else Ended(rest)
  }

  class BufReader {
    var rest: string
    const size: nat
    const end: End

    constructor (stream: string, size: nat, end: End)
      ensures rest == stream && this.size == size && this.end == end
    {
      rest, this.size, this.end := stream, size, end;
    }

    method ReadUntilNewline() returns (s: Slice)
      modifies this
      ensures s == ReadSlice(old(rest), size)
      ensures rest == if s.Line? then old(rest)[|s.text|..] else old(rest)
    {
      s := ReadSlice(rest, size);
      if s.Line? {
        rest := rest[|s.text|..];
      }
    }
  }

  // ---- one line ---------------------------------------------------------------------

  datatype LineRead = Got(line: string) | Bad(why: SniffError)

  /** readSniffLine: a terminated line, within what is left of the budget. */
  function ReadLine(rest: string, size: nat, end: End, used: nat, maxBytes: nat): (r: LineRead)
    ensures r.Got? ==> 0 < |r.line| <= |rest| && r.line == rest[..|r.line|] && used + |r.line| <= maxBytes
  {
    match ReadSlice(rest, size)
    case BufferFull => Bad(TooLarge)
    case Ended(partial) =>
      if end == Failure then Bad(ReadFailed) else if partial == "" then Bad(Closed) else Bad(Malformed)
    case Line(text) => if used + |text| > maxBytes then Bad(TooLarge) else Got(text)
  }

  function TrimSuffixChar(s: string, c: char): (t: string) {
    if s != "" && s[|s| - 1] == c then s[..|s| - 1] else s
  }

  /** The line without its line ending. */
  function Trimmed(line: string): (t: string) {
    TrimSuffixChar(TrimSuffixChar(line, '\n'), '\r')
  }

  // ---- parsing a line ------------------------------------------------------------------

  /** Key and value around the first colon; None for a malformed line. */
  function SplitHeader(line: string): (r: Option<(string, string)>)
  {
    var i := IndexByte(line, ':');
    if i == 0 || i == |line| then None else Some((line[..i], TrimSpace(line[i + 1..])))
  }

  function SkipWord(s: string): (n: nat)
    ensures n <= |s|
  {
    if s == "" || IsSpace(s[0]) then 0 else 1 + SkipWord(s[1..])
  }

  function Fields(s: string): (parts: seq<string>)
    decreases |s|
  {
    if s == "" then []
    else if IsSpace(s[0]) then Fields(s[1..])
    else
      var n := SkipWord(s);
      [s[..n]] + Fields(s[n..])
  }

  /** Up to the first '/', '?' or '#'. */
  function Authority(s: string): (a: string)
  {
    if s == "" || s[0] == '/' || s[0] == '?' || s[0] == '#' then "" else [s[0]] + Authority(s[1..])
  }

  const SCHEME := "http://"

  function HostFromRequestLine(line: string): (h: string)
  {
    var parts := Fields(line);
    if |parts| < 3 then ""
    else
      var target := parts[1];
      if |target| < |SCHEME| || ToLower(target)[..|SCHEME|] != SCHEME then "" else Authority(target[|SCHEME|..])
  }

  /** What the loop makes of a header line. */
  datatype Verdict = EndOfHead | Refuse | HostHeader(value: string) | OtherHeader

  function Judge(line: string): (v: Verdict)
  {
    var t := Trimmed(line);
    if t == "" then EndOfHead
    else if t[0] == ' ' || t[0] == '\t' then Refuse
    else match SplitHeader(t)
         case None => Refuse
         case Some((key, value)) => if ToLower(key) == "host" then HostHeader(value) else OtherHeader
  }

  // ---- the sniffer ------------------------------------------------------------------------

  datatype Sniffed = Accepted(host: string, prefix: string) | Rejected(why: SniffError)

  function Conclude(raw: string, prefix: string): (r: Sniffed)
  {
    if raw == "" then Rejected(NoUsableHost)
    else match NormalizeHost(raw)
         case Host(name) => Accepted(name, prefix)
         case NoHost => Rejected(NoUsableHost)
         case BadHost => Rejected(BadHostValue)
  }

  /** The header loop from some point on. */
  function ScanHeaders(rest: string, size: nat, end: End, prefix: string, maxBytes: nat, raw: string): (r: Sniffed)
    requires |prefix| <= maxBytes
    decreases maxBytes - |prefix|
  {
    match ReadLine(rest, size, end, |prefix|, maxBytes)
    case Bad(why) => Rejected(why)
    case Got(line) =>
      match Judge(line)
      case EndOfHead => Conclude(raw, prefix + line)
      case Refuse => Rejected(Malformed)
      case HostHeader(value) => Conclude(value, prefix + line)
      case OtherHeader => ScanHeaders(rest[|line|..], size, end, prefix + line, maxBytes, raw)
  }

  function Sniff(stream: string, size: nat, end: End, maxBytes: nat): (r: Sniffed)
  {
    match ReadLine(stream, size, end, 0, maxBytes)
    case Bad(why) => Rejected(why)
    case Got(line) => ScanHeaders(stream[|line|..], size, end, line, maxBytes, HostFromRequestLine(Trimmed(line)))
  }

  function Budget(maxBytes: int): nat {
    if maxBytes <= 0 then MAX_SNIFF_BYTES else maxBytes
  }

  /** SniffHost, with the bytes consumed so far in `prefix`: whatever it decides,
      nothing is lost, and it stops because every line uses up budget. */
  method SniffHost(br: BufReader, maxBytes: int) returns (r: Sniffed)
    modifies br
    ensures r == Sniff(old(br.rest), br.size, br.end, Budget(maxBytes))
    ensures r.Accepted? ==> r.prefix + br.rest == old(br.rest) && |r.prefix| <= Budget(maxBytes)
  {
    var max := Budget(maxBytes);
    ghost var stream := br.rest;
    var line, err := ReadSniffLine(br, "", max);
    if err.Some? {
      return Rejected(err.value);
    }
    var prefix := line;
    var host := HostFromRequestLine(Trimmed(line));
    while true
      invariant |prefix| <= max && prefix + br.rest == stream
      invariant Sniff(stream, br.size, br.end, max) == ScanHeaders(br.rest, br.size, br.end, prefix, max, host)
      decreases max - |prefix|
    {
      var outcome;
      line, outcome := OneHeader(br, prefix, max, host);
      if outcome.Some? {
        return outcome.value;
      }
      prefix := prefix + line;
    }
  }

  /** The loop body: read a line, and either settle the outcome or go on. */
  method OneHeader(br: BufReader, prefix: string, max: nat, host: string)
    returns (line: string, outcome: Option<Sniffed>)
    requires |prefix| <= max
    modifies br
    ensures var was := ScanHeaders(old(br.rest), br.size, br.end, prefix, max, host);
      if outcome.Some? then was == outcome.value
      else
        line != "" && |prefix| + |line| <= max
        && was == ScanHeaders(br.rest, br.size, br.end, prefix + line, max, host)
    ensures outcome.None? || outcome.value.Accepted? ==> prefix + old(br.rest) == prefix + line + br.rest
    ensures outcome.Some? && outcome.value.Accepted? ==>
      outcome.value.prefix == prefix + line && |prefix| + |line| <= max
  {
    var err;
    line, err := ReadSniffLine(br, prefix, max);
    if err.Some? {
      return line, Some(Rejected(err.value));
    }
    Regroup(prefix, line, br.rest);
    var verdict := JudgeLine(line);
    match verdict {
      case EndOfHead =>
        var r := ConcludeSniff(host, prefix + line);
        return line, Some(r);
      case Refuse => return line, Some(Rejected(Malformed));
      case HostHeader(value) =>
        var r := ConcludeSniff(value, prefix + line);
        return line, Some(r);
      case OtherHeader => return line, None;
    }
  }

  method ConcludeSniff(host: string, prefix: string) returns (r: Sniffed)
    ensures r == Conclude(host, prefix)
    ensures r.Accepted? ==> r.prefix == prefix
  {
    if host == "" {
      return Rejected(NoUsableHost);
    }
    var norm := NormalizeHost(host);
    r := match norm
         case Host(name) => Accepted(name, prefix)
         case NoHost => Rejected(NoUsableHost)
         case BadHost => Rejected(BadHostValue);
  }

  method JudgeLine(line: string) returns (v: Verdict)
    ensures v == Judge(line)
  {
    var t := Trimmed(line);
    if t == "" {
      return EndOfHead;
    }
    if t[0] == ' ' || t[0] == '\t' {
      return Refuse;
    }
    var kv := SplitHeader(t);
    if kv.None? {
      return Refuse;
    }
    if ToLower(kv.value.0) == "host" {
      return HostHeader(kv.value.1);
    }
    return OtherHeader;
  }

  method ReadSniffLine(br: BufReader, prefix: string, max: nat) returns (line: string, err: Option<SniffError>)
    requires |prefix| <= max
    modifies br
    ensures var r := ReadLine(old(br.rest), br.size, br.end, |prefix|, max);
            if err.Some? then r == Bad(err.value) else r == Got(line) && br.rest == old(br.rest)[|line|..]
    ensures err.None? ==> old(br.rest) == line + br.rest
  {
    var s := br.ReadUntilNewline();
    match s {
      case BufferFull => return "", Some(TooLarge);
      case Ended(partial) =>
        return "", Some(if br.end == Failure then ReadFailed else if partial == "" then Closed else Malformed);
      case Line(text) =>
        if |prefix| + |text| > max {
          return "", Some(TooLarge);
        }
        return text, None;
    }
  }

  // ---- what acceptance means ------------------------------------------------------------

  /** One line of a head: a single newline, at the end. */
  ghost predicate IsLine(line: string) {
    && line != "" && line[|line| - 1] == '\n'
    && forall i :: 0 <= i < |line| - 1 ==> line[i] != '\n'
  }

  datatype Lines = Nil | Cons(line: string, rest: Lines)

  function Concat(lines: Lines): (s: string) {
    match lines
    case Nil => ""
    case Cons(line, rest) => line + Concat(rest)
  }

  /** Header lines that settle the host: ordinary headers, none of them folded,
      malformed or a Host header, and then either the blank line (the fallback
      stands) or the first Host header. */
  ghost predicate Settles(headers: Lines, fallback: string, raw: string) {
    && headers.Cons? && IsLine(headers.line)
    && match Judge(headers.line)
       case OtherHeader => Settles(headers.rest, fallback, raw)
       case EndOfHead => headers.rest == Nil && raw == fallback
       case HostHeader(value) => headers.rest == Nil && raw == value
       case Refuse => false
  }

  /** A request line and the header lines that settle the host name. */
  ghost predicate Head(lines: Lines, raw: string) {
    && lines.Cons? && IsLine(lines.line)
    && Settles(lines.rest, HostFromRequestLine(Trimmed(lines.line)), raw)
  }

  /** A line at the front of the stream is read if buffer and budget allow. */
  lemma LineIsRead(line: string, rest: string, size: nat, end: End, used: nat, maxBytes: nat)
    requires IsLine(line) && |line| <= size && used + |line| <= maxBytes
    ensures ReadLine(line + rest, size, end, used, maxBytes) == Got(line)
    ensures (line + rest)[|line|..] == rest
  {
    IndexIsFirst(line + rest, '\n', |line| - 1);
  }

  lemma ReadIsLine(rest: string, size: nat, end: End, used: nat, maxBytes: nat)
    requires ReadLine(rest, size, end, used, maxBytes).Got?
    ensures IsLine(ReadLine(rest, size, end, used, maxBytes).line)
  {
  }

  /** A settled head concludes with its host value, and with nothing else. */
  lemma ConcludeAccepts(raw: string, prefix: string, host: string)
    ensures Conclude(raw, prefix) == Accepted(host, prefix) <==> NormalizeHost(raw) == Host(host)
  {
    if raw == "" {
      assert NormalizeHost("") == NoHost;
    }
  }

  lemma Regroup(a: string, b: string, c: string)
    ensures a + b + c == a + (b + c)
  {
  }

  /** One step of the header loop. */
  lemma ScanStep(line: string, rest: string, size: nat, end: End, prefix: string, maxBytes: nat, fallback: string)
    requires |prefix| + |line| <= maxBytes
    requires ReadLine(line + rest, size, end, |prefix|, maxBytes) == Got(line)
    ensures ScanHeaders(line + rest, size, end, prefix, maxBytes, fallback)
         == match Judge(line)
            case EndOfHead => Conclude(fallback, prefix + line)
            case Refuse => Rejected(Malformed)
            case HostHeader(value) => Conclude(value, prefix + line)
            case OtherHeader => ScanHeaders(rest, size, end, prefix + line, maxBytes, fallback)
  {
    assert (line + rest)[|line|..] == rest;
  }

  lemma {:induction false} ScanSound(rest: string, size: nat, end: End, prefix: string, maxBytes: nat, fallback: string)
    returns (headers: Lines, raw: string, left: string)
    requires |prefix| <= maxBytes && ScanHeaders(rest, size, end, prefix, maxBytes, fallback).Accepted?
    ensures Settles(headers, fallback, raw)
    ensures rest == Concat(headers) + left && |prefix| + |Concat(headers)| <= maxBytes
    ensures ScanHeaders(rest, size, end, prefix, maxBytes, fallback) == Conclude(raw, prefix + Concat(headers))
    decreases maxBytes - |prefix|
  {
    var line := ReadLine(rest, size, end, |prefix|, maxBytes).line;
    left := rest[|line|..];
    assert rest == line + left;
    ReadIsLine(rest, size, end, |prefix|, maxBytes);
    ScanStep(line, left, size, end, prefix, maxBytes, fallback);
    if Judge(line) == OtherHeader {
      var later;
      later, raw, left := ScanSound(left, size, end, prefix + line, maxBytes, fallback);
      headers := Cons(line, later);
      Regroup(prefix, line, Concat(later));
      Regroup(line, Concat(later), left);
    } else {
      headers := Cons(line, Nil);
      assert Concat(headers) == line;
      raw := if Judge(line) == EndOfHead then fallback else Judge(line).value;
    }
  }

  /** Every acceptance comes from a head at the start of the stream: the prefix
      is exactly its lines, within the budget, and the host is its host value,
      normalised. */
  lemma AcceptanceIsSound(stream: string, size: nat, end: End, maxBytes: nat)
    returns (lines: Lines, raw: string, left: string)
    requires Sniff(stream, size, end, maxBytes).Accepted?
    ensures var r := Sniff(stream, size, end, maxBytes);
      && Head(lines, raw) && NormalizeHost(raw) == Host(r.host)
      && r.prefix == Concat(lines) && stream == r.prefix + left && |r.prefix| <= maxBytes
  {
    var line := ReadLine(stream, size, end, 0, maxBytes).line;
    var tail := stream[|line|..];
    assert stream == line + tail;
    ReadIsLine(stream, size, end, 0, maxBytes);
    var headers;
    headers, raw, left := ScanSound(tail, size, end, line, maxBytes, HostFromRequestLine(Trimmed(line)));
    lines := Cons(line, headers);
    Regroup(line, Concat(headers), left);
    ConcludeAccepts(raw, Concat(lines), Sniff(stream, size, end, maxBytes).host);
  }

  lemma {:induction false} ScanComplete(headers: Lines, rest: string, size: nat, end: End, prefix: string,
                                        maxBytes: nat, fallback: string, raw: string)
    requires Settles(headers, fallback, raw)
    requires |prefix| + |Concat(headers)| <= maxBytes <= size
    ensures ScanHeaders(Concat(headers) + rest, size, end, prefix, maxBytes, fallback)
         == Conclude(raw, prefix + Concat(headers))
  {
    var line, later := headers.line, Concat(headers.rest);
    Regroup(line, later, rest);
    LineIsRead(line, later + rest, size, end, |prefix|, maxBytes);
    ScanStep(line, later + rest, size, end, prefix, maxBytes, fallback);
    if Judge(line) == OtherHeader {
      ScanComplete(headers.rest, rest, size, end, prefix + line, maxBytes, fallback, raw);
      Regroup(prefix, line, later);
    } else {
      assert Concat(headers) == line;
    }
  }

  /** Conversely every stream that starts with a head within the budget is
      decided by that head, whatever follows it. */
  lemma AcceptanceIsComplete(lines: Lines, raw: string, host: string, rest: string, size: nat, end: End, maxBytes: nat)
    requires Head(lines, raw) && NormalizeHost(raw) == Host(host)
    requires |Concat(lines)| <= maxBytes <= size
    ensures Sniff(Concat(lines) + rest, size, end, maxBytes) == Accepted(host, Concat(lines))
  {
    var line, later := lines.line, Concat(lines.rest);
    Regroup(line, later, rest);
    LineIsRead(line, later + rest, size, end, 0, maxBytes);
    ScanComplete(lines.rest, rest, size, end, line, maxBytes, HostFromRequestLine(Trimmed(line)), raw);
    ConcludeAccepts(raw, Concat(lines), host);
  }

  ghost predicate NoneFolded(headers: Lines) {
    headers.Cons? ==>
      headers.line != "" && headers.line[0] != ' ' && headers.line[0] != '\t' && NoneFolded(headers.rest)
  }

  /** No accepted head holds a folded line. */
  lemma {:induction false} SettledHasNoFolds(headers: Lines, fallback: string, raw: string)
    requires Settles(headers, fallback, raw)
    ensures NoneFolded(headers)
  {
    FoldedIsRefused(headers.line);
    if Judge(headers.line) == OtherHeader {
      SettledHasNoFolds(headers.rest, fallback, raw);
    }
  }

  lemma FoldedIsRefused(line: string)
    requires IsLine(line)
    ensures line[0] == ' ' || line[0] == '\t' ==> Judge(line) == Refuse
  {
    var once := TrimSuffixChar(line, '\n');
    if once != "" {
      assert once[0] == line[0];
    }
  }
}
