/**
 * The CONNECT front end: request line, target, header block, allow list, dial
 * and answer. CONNECT is section 9.3.6 of RFC 9110 and the target form section
 * 3.2.3 of RFC 9112.
 */
module Connect {
  import opened Common
  import opened Text
  import opened Wire
  import Relay

  /** Byte decoding and `int()` belong to the language runtime: any functions will do. */
  datatype Runtime = Runtime(decode: Bytes -> string, toInt: string -> Option<int>)

  /** What opening the connection to the target leads to. `Raised` stands for an
      exception the handler does not catch. */
  datatype Dial = Opened | TimedOut | Unreachable | Raised

  const ESTABLISHED: Bytes := "HTTP/1.1 200 Connection Established\r\n\r\n"

  /** Length of the run of non-space characters at the start. */
  function WordLength(s: string): (n: nat)
    ensures n <= |s|
    ensures forall i :: 0 <= i < n ==> !IsSpace(s[i])
    ensures n < |s| ==> IsSpace(s[n])
  {
    if s == "" || IsSpace(s[0]) then 0 else 1 + WordLength(s[1..])
  }

  /** `line.strip().split()`: the maximal space-free pieces. */
  function Fields(s: string): (fs: seq<string>)
    ensures forall f :: f in fs ==> f != "" && forall c :: c in f ==> !IsSpace(c)
    decreases |s|
  {
    if s == "" then []
    else if IsSpace(s[0]) then Fields(s[1..])
    else [s[..WordLength(s)]] + Fields(s[WordLength(s)..])
  }

  function Upper(c: char): char {
    if 'a' <= c <= 'z' then (c as int - 32) as char else c
  }

  /** `s.upper() == "CONNECT"`; only ASCII letters upper-case into that word. */
  predicate IsConnect(s: string) {
    |s| == 7 && forall i :: 0 <= i < 7 ==> Upper(s[i]) == "CONNECT"[i]
  }

  /** `target.partition(":")` without the separator: cut at the first colon. */
  function HostPort(target: string): (string, string) {
    if target == "" then ("", "")
    else if target[0] == ':' then ("", target[1..])
    else (target[..1] + HostPort(target[1..]).0, HostPort(target[1..]).1)
  }

  /** An error status with its body, or the target asked for. */
  datatype Parsed = Bad(body: Bytes) | Target(host: string, port: int)

  function ParseRequest(rt: Runtime, line: Bytes): Parsed {
    var parts := Fields(rt.decode(line));
    if |parts| < 2 || !IsConnect(parts[0]) then Bad("Bad Request: expected CONNECT")
    else
      var (host, portText) := HostPort(parts[1]);
      var port := if portText == "" then Some(443) else rt.toInt(portText);
      if port.None? then Bad("Bad Request: invalid port")
      else if port.value < 1 || port.value > 65535 then Bad("Bad Request: port out of range")
      else Target(host, port.value)
  }

  predicate Blank(line: Bytes) {
    line == "\r\n" || line == "\n" || line == ""
  }

  /** Consumes header lines up to and including the blank one. */
  function SkipHeaders(s: Bytes): Option<Bytes>
    decreases |s|
  {
    match ReadLine(s)
    case Overrun => None
    case Line(line, rest) => if Blank(line) then Some(rest) else SkipHeaders(rest)
  }

  /** How the handling of one connection ends: closed without a word, one error
      response, a tunnel with the client bytes behind the header, or an
      exception that leaves the client unanswered. */
  datatype Outcome =
    | Silent
    | Refused(status: int, body: Bytes)
    | Tunnel(host: string, port: int, early: Bytes)
    | Aborted

  /** A parsed request, with the stream behind the request line. */
  function Serve(allowed: seq<string>, dial: (string, int) -> Dial, host: string, port: int, rest: Bytes): Outcome {
    match SkipHeaders(rest)
    case None => Aborted
    case Some(early) =>
      if allowed != [] && host !in allowed then Refused(403, "Forbidden: target not allowed")
      else
        match dial(host, port)
        case TimedOut => Refused(504, "Gateway Timeout")
        case Unreachable => Refused(502, "Bad Gateway")
        case Raised => Aborted
        case Opened => Tunnel(host, port, early)
  }

  function Decide(rt: Runtime, allowed: seq<string>, dial: (string, int) -> Dial, input: Bytes): Outcome {
    match ReadLine(input)
    case Overrun => Aborted
    case Line(line, rest) =>
      if line == "" then Silent
      else
        match ParseRequest(rt, line)
        case Bad(body) => Refused(400, body)
        case Target(host, port) => Serve(allowed, dial, host, port, rest)
  }

  // ---- Responses ----

  predicate AllDigits(s: string) {
    forall i :: 0 <= i < |s| ==> '0' <= s[i] <= '9'
  }

  function Digits(n: nat): (s: string)
    ensures s != "" && AllDigits(s)
  {
    if n < 10 then [('0' as int + n) as char] else Digits(n / 10) + [('0' as int + n % 10) as char]
  }

  function Value(s: string): nat
    requires AllDigits(s)
  {
    if s == "" then 0 else 10 * Value(s[..|s| - 1]) + (s[|s| - 1] as int - '0' as int)
  }

  lemma {:induction false} DigitsValue(n: nat)
    ensures Value(Digits(n)) == n
  {
    if n < 10 {
      assert Digits(n)[..0] == "";
    } else {
      DigitsValue(n / 10);
      assert Digits(n)[..|Digits(n)| - 1] == Digits(n / 10);
    }
  }

  function ReasonPhrase(status: int): (r: Bytes)
    ensures |r| <= 15 && '\n' !in r
  {
    match status
    case 400 => "Bad Request"
    case 403 => "Forbidden"
    case 502 => "Bad Gateway"
    case 504 => "Gateway Timeout"
    case 501 => "Not Implemented"
    case _ => "Unknown"
  }

  function StatusLine(status: nat): Bytes {
    "HTTP/1.1 " + Digits(status) + " " + ReasonPhrase(status) + "\r"
  }

  const LENGTH_NAME: Bytes := "Content-Length: "

  function LengthLine(length: nat): Bytes {
    LENGTH_NAME + Digits(length) + "\r"
  }

  const CLOSE_LINES: Bytes := "Connection: close\r\n\r\n"

  /** Everything behind the status line. */
  function Remainder(body: Bytes): Bytes {
    LengthLine(|body|) + "\n" + (CLOSE_LINES + body)
  }

  function Response(status: nat, body: Bytes): Bytes {
    StatusLine(status) + "\n" + Remainder(body)
  }

  /** What a client makes of a response: the length it announces and the bytes
      behind its header block. */
  datatype Received = Received(statusLine: Bytes, length: Option<nat>, content: Bytes)

  /** The value of a Content-Length line, if it is one. */
  function LengthOf(line: Bytes): Option<nat> {
    if LENGTH_NAME <= line && "\r\n" == line[if |line| < 2 then 0 else |line| - 2..]
       && |line| > |LENGTH_NAME| + 2
       && AllDigits(line[|LENGTH_NAME|..|line| - 2])
    then Some(Value(line[|LENGTH_NAME|..|line| - 2]))
    else None
  }

  /** The first announced length of a header block and what follows the block. */
  function ReadHeaders(s: Bytes): (Option<nat>, Bytes)
    decreases |s|
  {
    match ReadLine(s)
    case Overrun => (None, s)
    case Line(line, rest) =>
      if Blank(line) then (None, rest)
      else
        var (later, content) := ReadHeaders(rest);
        (if LengthOf(line).Some? then LengthOf(line) else later, content)
  }

  function Receive(s: Bytes): Option<Received> {
    match ReadLine(s)
    case Overrun => None
    case Line(line, rest) => Some(Received(line, ReadHeaders(rest).0, ReadHeaders(rest).1))
  }

  lemma {:induction false} DigitsShort(n: nat, k: nat)
    requires n < Pow10(k) && k > 0
    ensures |Digits(n)| <= k
  {
    if n >= 10 {
      DigitsShort(n / 10, k - 1);
    }
  }

  function Pow10(k: nat): nat { if k == 0 then 1 else 10 * Pow10(k - 1) }

  lemma LengthLineReads(n: nat)
    ensures '\n' !in LengthLine(n)
    ensures LengthOf(LengthLine(n) + "\n") == Some(n)
  {
    var line := LengthLine(n) + "\n";
    assert line == LENGTH_NAME + Digits(n) + "\r\n";
    assert line[|LENGTH_NAME|..|line| - 2] == Digits(n);
    assert line[|line| - 2..] == "\r\n";
    DigitsValue(n);
  }

  lemma CloseReads(body: Bytes)
    ensures ReadHeaders(CLOSE_LINES + body) == (None, body)
  {
    var close := "Connection: close\r";
    ReadLineOf(close, "\r\n" + body);
    assert close + "\n" + ("\r\n" + body) == CLOSE_LINES + body;
    ReadLineOf("\r", body);
    assert "\r" + "\n" + body == "\r\n" + body;
    assert "\r" + "\n" == "\r\n";
    assert (close + "\n")[0] == 'C';
    assert LENGTH_NAME[2] == 'n' && LENGTH_NAME[3] == 't' && (close + "\n")[3] == 'n';
  }

  lemma StatusLineShort(status: nat)
    requires status <= 999
    ensures '\n' !in StatusLine(status) && |StatusLine(status)| <= LIMIT
  {
    DigitsShort(status, 3);
    var reason := " " + ReasonPhrase(status) + "\r";
    assert StatusLine(status) == ("HTTP/1.1 " + Digits(status)) + reason;
  }

  lemma LengthLineFirst(n: nat, close: Bytes)
    requires n < Pow10(9)
    ensures ReadHeaders(LengthLine(n) + "\n" + close) == (Some(n), ReadHeaders(close).1)
  {
    DigitsShort(n, 9);
    LengthLineReads(n);
    ReadLineOf(LengthLine(n), close);
    assert (LengthLine(n) + "\n")[0] == 'C';
  }

  lemma RemainderReads(body: Bytes)
    requires |body| < Pow10(9)
    ensures ReadHeaders(Remainder(body)) == (Some(|body|), body)
  {
    CloseReads(body);
    LengthLineFirst(|body|, CLOSE_LINES + body);
  }

  lemma ResponseIsWellFramed(status: nat, body: Bytes)
    requires status <= 999 && |body| < Pow10(9)
    ensures Receive(Response(status, body)) == Some(Received(StatusLine(status) + "\n", Some(|body|), body))
  {
    RemainderReads(body);
    StatusLineShort(status);
    ReadLineOf(StatusLine(status), Remainder(body));
  }

  /** A client reading any refusal of the handler finds the announced length equal
      to the number of bytes that follow the header block, which are the body. */
  lemma RefusalsAreWellFramed(rt: Runtime, allowed: seq<string>, dial: (string, int) -> Dial, input: Bytes)
    requires Decide(rt, allowed, dial, input).Refused?
    ensures var r := Decide(rt, allowed, dial, input);
            r.status in {400, 403, 502, 504} &&
            Receive(Response(r.status, r.body))
              == Some(Received(StatusLine(r.status) + "\n", Some(|r.body|), r.body))
  {
    var r := Decide(rt, allowed, dial, input);
    assert r.status in {400, 403, 502, 504} && |r.body| <= 100;
    assert Pow10(9) == 1000000000;
    ResponseIsWellFramed(r.status, r.body);
  }

  // ---- What the header block is ----

  /** The first `n` lines are a complete, readable header block: it ends with the
      first blank line, or with the stream. */
  ghost predicate HeaderBlock(ls: seq<Bytes>, n: nat) {
    && n <= |ls|
    && (forall j :: 0 <= j < n ==> !TooLong(ls[j]))
    && (forall j :: 0 <= j < n - 1 ==> ls[j] !in ["\r\n", "\n", ""])
    && (n == |ls| || (n > 0 && ls[n - 1] in ["\r\n", "\n", ""]))
  }

  /** A line longer than the limit comes before any blank line. */
  ghost predicate HeadersOverrun(ls: seq<Bytes>) {
    exists i :: 0 <= i < |ls| && TooLong(ls[i]) && forall j :: 0 <= j < i ==> ls[j] !in ["\r\n", "\n", ""]
  }

  lemma {:induction false} SkipHeadersMeaning(s: Bytes)
    ensures SkipHeaders(s).None? <==> HeadersOverrun(Lines(s))
    ensures SkipHeaders(s).Some? ==>
              exists n: nat :: HeaderBlock(Lines(s), n) && SkipHeaders(s).value == Concat(Lines(s)[n..])
    decreases |s|
  {
    ReadLineIsFirst(s);
    var ls := Lines(s);
    if s == [] {
      assert HeaderBlock(ls, 0) && SkipHeaders(s).value == Concat(ls[0..]);
    } else if TooLong(ls[0]) {
      assert HeadersOverrun(ls);
    } else if Blank(ls[0]) {
      LinesConcat(ReadLine(s).rest);
      assert HeaderBlock(ls, 1) && SkipHeaders(s).value == Concat(ls[1..]);
    } else {
      var rest := ReadLine(s).rest;
      SkipHeadersMeaning(rest);
      OverrunShift(ls);
      if SkipHeaders(rest).Some? {
        var n: nat :| HeaderBlock(ls[1..], n) && SkipHeaders(rest).value == Concat(ls[1..][n..]);
        assert ls[1..][n..] == ls[n + 1..];
        BlockShift(ls, n);
        assert SkipHeaders(s).value == Concat(ls[n + 1..]);
      }
    }
  }

  lemma BlockShift(ls: seq<Bytes>, n: nat)
    requires ls != [] && !TooLong(ls[0]) && !Blank(ls[0]) && HeaderBlock(ls[1..], n)
    ensures HeaderBlock(ls, n + 1)
  {
    forall j | 0 <= j < n + 1 ensures !TooLong(ls[j]) && (j < n ==> !Blank(ls[j])) {
      if j > 0 {
        assert ls[j] == ls[1..][j - 1];
      }
    }
  }

  lemma OverrunShift(ls: seq<Bytes>)
    requires ls != [] && !TooLong(ls[0]) && !Blank(ls[0])
    ensures HeadersOverrun(ls) <==> HeadersOverrun(ls[1..])
  {
    if HeadersOverrun(ls) {
      var i :| 0 <= i < |ls| && TooLong(ls[i]) && forall j :: 0 <= j < i ==> !Blank(ls[j]);
      assert TooLong(ls[1..][i - 1]);
      assert forall j :: 0 <= j < i - 1 ==> ls[1..][j] == ls[j + 1];
    }
    if HeadersOverrun(ls[1..]) {
      var i :| 0 <= i < |ls[1..]| && TooLong(ls[1..][i]) && forall j :: 0 <= j < i ==> !Blank(ls[1..][j]);
      assert TooLong(ls[i + 1]);
      forall j | 0 <= j < i + 1 ensures !Blank(ls[j]) {
        if j > 0 {
          assert ls[j] == ls[1..][j - 1];
        }
      }
    }
  }

  lemma BlockTail(ls: seq<Bytes>, n: nat)
    requires ls != [] && HeaderBlock(ls, n) && !Blank(ls[0])
    ensures n > 0 && HeaderBlock(ls[1..], n - 1)
  {
    forall j | 0 <= j < n - 1 ensures !TooLong(ls[1..][j]) && (j < n - 2 ==> !Blank(ls[1..][j])) {
      assert ls[1..][j] == ls[j + 1];
    }
  }

  lemma {:induction false} BlockIsSkipped(s: Bytes, n: nat)
    requires HeaderBlock(Lines(s), n)
    ensures SkipHeaders(s) == Some(Concat(Lines(s)[n..]))
    decreases |s|
  {
    ReadLineIsFirst(s);
    var ls := Lines(s);
    if s != [] {
      assert n > 0 && !TooLong(ls[0]);
      var rest := ReadLine(s).rest;
      assert ls[1..][n - 1..] == ls[n..];
      if Blank(ls[0]) {
        assert n == 1;
        LinesConcat(rest);
      } else {
        BlockTail(ls, n);
        BlockIsSkipped(rest, n - 1);
      }
    }
  }

  // ---- The target ----

  /** Host and port text of a target: cut at the first colon, if there is one. */
  ghost predicate Splits(target: string, host: string, text: string) {
    && ':' !in host
    && (target == host + ":" + text || (target == host && text == ""))
  }

  lemma {:induction false} HostPortSplits(target: string, host: string, text: string)
    ensures HostPort(target) == (host, text) <==> Splits(target, host, text)
  {
    if target != "" && target[0] != ':' {
      assert target == target[..1] + target[1..];
      if host != "" {
        assert host == host[..1] + host[1..];
        HostPortSplits(target[1..], host[1..], text);
        SplitsTail(target, host, text);
        var (tail, rest) := HostPort(target[1..]);
        assert HostPort(target) == (target[..1] + tail, rest);
        assert (target[..1] + tail)[0] == target[0] && (target[..1] + tail)[1..] == tail;
        assert target[..1] + tail == host <==> target[0] == host[0] && tail == host[1..];
      }
    } else if target != "" {
      assert target == "" + ":" + target[1..];
      if Splits(target, host, text) {
        assert target[0] == (host + ":" + text)[0] || target == host;
        assert host == "";
        assert target[1..] == text;
      }
    }
  }

  lemma SplitsTail(target: string, host: string, text: string)
    requires target != "" && host != "" && target[0] != ':'
    ensures Splits(target, host, text) <==> target[0] == host[0] && Splits(target[1..], host[1..], text)
  {
    assert host == [host[0]] + host[1..];
    assert target == [target[0]] + target[1..];
    assert (host + ":" + text)[1..] == host[1..] + ":" + text;
    assert (host + ":" + text)[0] == host[0];
  }

  // ---- The request line ----

  ghost predicate IsWord(w: string) {
    w != "" && forall i :: 0 <= i < |w| ==> !IsSpace(w[i])
  }

  /** White space, a first word, white space, a second word, and whatever follows it. */
  ghost predicate Reads(line: string, pre: string, w1: string, gap: string, w2: string, tail: string) {
    && line == pre + w1 + gap + w2 + tail
    && AllSpace(pre) && AllSpace(gap) && gap != ""
    && IsWord(w1) && IsWord(w2)
    && (tail == "" || IsSpace(tail[0]))
  }

  lemma {:induction false} WordLengthOf(w: string, s: string)
    requires IsWord(w) && (s == "" || IsSpace(s[0]))
    ensures WordLength(w + s) == |w|
    decreases |w|
  {
    assert (w + s)[1..] == w[1..] + s;
    if |w| > 1 {
      WordLengthOf(w[1..], s);
    } else {
      assert w[1..] + s == s;
    }
  }

  lemma {:induction false} FieldsSkip(pre: string, s: string)
    requires AllSpace(pre)
    ensures Fields(pre + s) == Fields(s)
  {
    if pre == "" {
      assert pre + s == s;
    } else {
      assert (pre + s)[1..] == pre[1..] + s;
      FieldsSkip(pre[1..], s);
    }
  }

  lemma FieldsTake(w: string, s: string)
    requires IsWord(w) && (s == "" || IsSpace(s[0]))
    ensures Fields(w + s) == [w] + Fields(s)
  {
    WordLengthOf(w, s);
    assert (w + s)[..|w|] == w && (w + s)[|w|..] == s;
  }

  /** The first two pieces of a line are its first two words. */
  lemma FieldsOf(line: string, pre: string, w1: string, gap: string, w2: string, tail: string)
    requires Reads(line, pre, w1, gap, w2, tail)
    ensures |Fields(line)| >= 2 && Fields(line)[0] == w1 && Fields(line)[1] == w2
  {
    assert line == pre + (w1 + (gap + (w2 + tail)));
    FieldsSkip(pre, w1 + (gap + (w2 + tail)));
    FieldsTake(w1, gap + (w2 + tail));
    FieldsSkip(gap, w2 + tail);
    FieldsTake(w2, tail);
  }

  /** A non-empty list of pieces starts with the first word of the line. */
  lemma {:induction false} FieldsHead(s: string) returns (pre: string, rest: string)
    requires Fields(s) != []
    ensures AllSpace(pre) && IsWord(Fields(s)[0]) && s == pre + Fields(s)[0] + rest
    ensures rest == "" || IsSpace(rest[0])
    ensures Fields(rest) == Fields(s)[1..]
    decreases |s|
  {
    if IsSpace(s[0]) {
      pre, rest := FieldsHead(s[1..]);
      pre := PrependSpace(s, pre, Fields(s)[0], rest);
    } else {
      var n := WordLength(s);
      pre, rest := "", s[n..];
      assert Fields(s) == [s[..n]] + Fields(rest);
      assert s == "" + s[..n] + rest;
    }
  }

  lemma PrependSpace(s: string, pre: string, word: string, rest: string) returns (longer: string)
    requires s != "" && IsSpace(s[0]) && AllSpace(pre) && s[1..] == pre + word + rest
    ensures AllSpace(longer) && s == longer + word + rest
  {
    longer := [s[0]] + pre;
    assert s == [s[0]] + s[1..];
  }

  /** A line with two pieces has two words. */
  lemma ReadsFields(line: string) returns (pre: string, gap: string, tail: string)
    requires |Fields(line)| >= 2
    ensures Reads(line, pre, Fields(line)[0], gap, Fields(line)[1], tail)
  {
    var rest;
    pre, rest := FieldsHead(line);
    gap, tail := FieldsHead(rest);
    assert line == pre + Fields(line)[0] + (gap + Fields(line)[1] + tail);
  }

  /** The word CONNECT in any mix of cases. */
  ghost predicate SpellsConnect(w: string) {
    |w| == 7 && forall i :: 0 <= i < 7 ==> w[i] == "CONNECT"[i] || w[i] == "connect"[i]
  }

  lemma IsConnectMeans(w: string)
    ensures IsConnect(w) <==> SpellsConnect(w)
  {
    var upper, lower := "CONNECT", "connect";
    forall i | 0 <= i < 7 ensures lower[i] as int == upper[i] as int + 32 && 'A' <= upper[i] <= 'Z' {
    }
  }

  /** The decoded line reads as a method, CONNECT in any case, and a target. */
  ghost predicate Addresses(line: string, target: string) {
    exists pre, method_, gap, tail :: Reads(line, pre, method_, gap, target, tail) && SpellsConnect(method_)
  }

  lemma AddressesIff(line: string, target: string)
    ensures Addresses(line, target) <==>
            |Fields(line)| >= 2 && IsConnect(Fields(line)[0]) && Fields(line)[1] == target
  {
    if Addresses(line, target) {
      var pre, method_, gap, tail :| Reads(line, pre, method_, gap, target, tail) && SpellsConnect(method_);
      FieldsOf(line, pre, method_, gap, target, tail);
      IsConnectMeans(method_);
    }
    if |Fields(line)| >= 2 && IsConnect(Fields(line)[0]) && Fields(line)[1] == target {
      var pre, gap, tail := ReadsFields(line);
      IsConnectMeans(Fields(line)[0]);
      assert Reads(line, pre, Fields(line)[0], gap, target, tail) && SpellsConnect(Fields(line)[0]);
    }
  }

  /** The request line asks for a tunnel to `host`:`port`: the decoded line is CONNECT
      in any case and a target, and a target without port text means port 443. */
  ghost predicate AsksFor(rt: Runtime, line: Bytes, host: string, port: int) {
    && 1 <= port <= 65535
    && exists target, text ::
         && Addresses(rt.decode(line), target)
         && Splits(target, host, text)
         && (if text == "" then port == 443 else rt.toInt(text) == Some(port))
  }

  lemma ParseRequestMeans(rt: Runtime, line: Bytes, host: string, port: int)
    ensures ParseRequest(rt, line) == Target(host, port) <==> AsksFor(rt, line, host, port)
  {
    var parts := Fields(rt.decode(line));
    if AsksFor(rt, line, host, port) {
      var target, text :| Addresses(rt.decode(line), target) && Splits(target, host, text)
                          && (if text == "" then port == 443 else rt.toInt(text) == Some(port));
      AddressesIff(rt.decode(line), target);
      HostPortSplits(target, host, text);
    }
    if ParseRequest(rt, line) == Target(host, port) {
      var (h, text) := HostPort(parts[1]);
      AddressesIff(rt.decode(line), parts[1]);
      HostPortSplits(parts[1], h, text);
      assert Addresses(rt.decode(line), parts[1]) && Splits(parts[1], host, text);
    }
  }

  /** Why a request line is refused, in the words of the response. */
  lemma BadRequestSays(rt: Runtime, line: Bytes, target: string, host: string, text: string)
    requires Addresses(rt.decode(line), target) && Splits(target, host, text)
    ensures text != "" && rt.toInt(text).None? ==> ParseRequest(rt, line) == Bad("Bad Request: invalid port")
    ensures text != "" && rt.toInt(text).Some? && !(1 <= rt.toInt(text).value <= 65535) ==>
              ParseRequest(rt, line) == Bad("Bad Request: port out of range")
  {
    AddressesIff(rt.decode(line), target);
    HostPortSplits(target, host, text);
  }

  lemma NotConnectSays(rt: Runtime, line: Bytes)
    requires forall target :: !Addresses(rt.decode(line), target)
    ensures ParseRequest(rt, line) == Bad("Bad Request: expected CONNECT")
  {
    var parts := Fields(rt.decode(line));
    if |parts| >= 2 {
      AddressesIff(rt.decode(line), parts[1]);
    }
  }

  // ---- What every connection leads to ----

  ghost predicate Permitted(allowed: seq<string>, host: string) {
    allowed == [] || host in allowed
  }

  /** The stream is a readable CONNECT request for a permitted host that could be
      reached; its first `n` lines behind the request line are the header block. */
  ghost predicate Opens(rt: Runtime, allowed: seq<string>, dial: (string, int) -> Dial,
                        input: Bytes, host: string, port: int, n: nat)
  {
    var ls := Lines(input);
    && ls != [] && !TooLong(ls[0])
    && AsksFor(rt, ls[0], host, port)
    && HeaderBlock(ls[1..], n)
    && Permitted(allowed, host)
    && dial(host, port) == Opened
  }

  lemma ServeTunnelIff(allowed: seq<string>, dial: (string, int) -> Dial, host: string, port: int, rest: Bytes, early: Bytes)
    ensures Serve(allowed, dial, host, port, rest) == Tunnel(host, port, early) <==>
              && Permitted(allowed, host) && dial(host, port) == Opened
              && exists n: nat :: HeaderBlock(Lines(rest), n) && early == Concat(Lines(rest)[n..])
  {
    SkipHeadersMeaning(rest);
    forall n: nat | HeaderBlock(Lines(rest), n) ensures SkipHeaders(rest) == Some(Concat(Lines(rest)[n..])) {
      BlockIsSkipped(rest, n);
    }
  }

  /** A request that asks for a target is served for that target and no other. */
  lemma DecideServes(rt: Runtime, allowed: seq<string>, dial: (string, int) -> Dial, input: Bytes, host: string, port: int)
    requires input != [] && !TooLong(Lines(input)[0]) && AsksFor(rt, Lines(input)[0], host, port)
    ensures ReadLine(input).Line? && Lines(ReadLine(input).rest) == Lines(input)[1..]
    ensures Decide(rt, allowed, dial, input) == Serve(allowed, dial, host, port, ReadLine(input).rest)
  {
    ReadLineIsFirst(input);
    ParseRequestMeans(rt, Lines(input)[0], host, port);
  }

  /** Only a request that asks for a target gets past the request line. */
  lemma DecideRejects(rt: Runtime, allowed: seq<string>, dial: (string, int) -> Dial, input: Bytes)
    requires input != [] && !TooLong(Lines(input)[0])
    requires forall host, port :: !AsksFor(rt, Lines(input)[0], host, port)
    ensures Decide(rt, allowed, dial, input).Refused?
  {
    ReadLineIsFirst(input);
    var parsed := ParseRequest(rt, Lines(input)[0]);
    if parsed.Target? {
      ParseRequestMeans(rt, Lines(input)[0], parsed.host, parsed.port);
    }
  }

  /** A tunnel opens for exactly these streams, and the bytes handed to the relay
      are those behind the header block. */
  lemma TunnelIff(rt: Runtime, allowed: seq<string>, dial: (string, int) -> Dial,
                  input: Bytes, host: string, port: int, early: Bytes)
    ensures Decide(rt, allowed, dial, input) == Tunnel(host, port, early) <==>
            exists n: nat :: Opens(rt, allowed, dial, input, host, port, n) && early == Concat(Lines(input)[n + 1..])
  {
    ReadLineIsFirst(input);
    var ls := Lines(input);
    if input != [] && !TooLong(ls[0]) {
      if AsksFor(rt, ls[0], host, port) {
        DecideServes(rt, allowed, dial, input, host, port);
        ServeTunnelIff(allowed, dial, host, port, ReadLine(input).rest, early);
        assert forall n: nat :: n <= |ls[1..]| ==> ls[1..][n..] == ls[n + 1..];
        if n: nat :| HeaderBlock(ls[1..], n) && early == Concat(ls[1..][n..]) && Permitted(allowed, host) && dial(host, port) == Opened {
          assert Opens(rt, allowed, dial, input, host, port, n);
        }
      } else if h, p :| AsksFor(rt, ls[0], h, p) {
        DecideServes(rt, allowed, dial, input, h, p);
      } else {
        DecideRejects(rt, allowed, dial, input);
      }
    }
  }

  /** Header and relayed bytes make up the stream: nothing of the header is relayed
      and nothing behind it is lost. */
  lemma TunnelSplitsInput(rt: Runtime, allowed: seq<string>, dial: (string, int) -> Dial,
                          input: Bytes, host: string, port: int, early: Bytes)
    requires Decide(rt, allowed, dial, input) == Tunnel(host, port, early)
    ensures exists n: nat :: n < |Lines(input)| && HeaderBlock(Lines(input)[1..], n) &&
              input == Concat(Lines(input)[..n + 1]) + early
  {
    TunnelIff(rt, allowed, dial, input, host, port, early);
    var n: nat :| Opens(rt, allowed, dial, input, host, port, n) && early == Concat(Lines(input)[n + 1..]);
    CutAt(input, n + 1);
  }

  lemma CutAt(s: Bytes, k: nat)
    requires k <= |Lines(s)|
    ensures s == Concat(Lines(s)[..k]) + Concat(Lines(s)[k..])
  {
    ConcatAppend(Lines(s)[..k], Lines(s)[k..]);
    assert Lines(s)[..k] + Lines(s)[k..] == Lines(s);
    LinesConcat(s);
  }

  /** The client is left without an answer exactly when a line longer than the
      reader's limit is met before the request is judged, or the dial raises
      something the handler does not expect. Every other stream is closed in
      silence, refused with one response, or given its tunnel. */
  lemma AbortedIff(rt: Runtime, allowed: seq<string>, dial: (string, int) -> Dial, input: Bytes)
    ensures var ls := Lines(input);
            Decide(rt, allowed, dial, input) == Aborted <==>
              && ls != []
              && (|| TooLong(ls[0])
                  || exists host, port ::
                       && AsksFor(rt, ls[0], host, port)
                       && (|| HeadersOverrun(ls[1..])
                           || (Permitted(allowed, host) && dial(host, port) == Raised)))
  {
    ReadLineIsFirst(input);
    var ls := Lines(input);
    if input != [] && !TooLong(ls[0]) {
      if host, port :| AsksFor(rt, ls[0], host, port) {
        forall h, p | AsksFor(rt, ls[0], h, p)
          ensures Decide(rt, allowed, dial, input) == Aborted <==>
                  HeadersOverrun(ls[1..]) || (Permitted(allowed, h) && dial(h, p) == Raised)
        {
          DecideServes(rt, allowed, dial, input, h, p);
          SkipHeadersMeaning(ReadLine(input).rest);
        }
      } else {
        DecideRejects(rt, allowed, dial, input);
      }
    }
  }

  /** 70000 characters without a line end, and the client gets no answer. */
  lemma UnansweredExample(rt: Runtime, allowed: seq<string>, dial: (string, int) -> Dial)
    ensures Decide(rt, allowed, dial, seq(70000, _ => 'a')) == Aborted
  {
    var input := seq(70000, _ => 'a');
    assert forall i :: 0 <= i < |input| ==> input[i] != '\n';
    assert NewlineAt(input) == |input|;
  }

  /** What each refusal says about the stream: 400 that its first line asks for no
      target, 403 that the host asked for is not permitted, 504 and 502 that it
      was permitted and the dial timed out or failed. */
  lemma RefusalMeans(rt: Runtime, allowed: seq<string>, dial: (string, int) -> Dial, input: Bytes,
                     host: string, port: int)
    requires input != [] && !TooLong(Lines(input)[0])
    ensures var ls, r := Lines(input), Decide(rt, allowed, dial, input);
            && (r.Refused? && r.status == 400 <==> forall h, p :: !AsksFor(rt, ls[0], h, p))
            && (AsksFor(rt, ls[0], host, port) && !HeadersOverrun(ls[1..]) ==>
                  && (r.Refused? && r.status == 403 <==> !Permitted(allowed, host))
                  && (r.Refused? && r.status == 504 <==> Permitted(allowed, host) && dial(host, port) == TimedOut)
                  && (r.Refused? && r.status == 502 <==> Permitted(allowed, host) && dial(host, port) == Unreachable))
  {
    ReadLineIsFirst(input);
    var parsed := ParseRequest(rt, Lines(input)[0]);
    if parsed.Target? {
      ParseRequestMeans(rt, Lines(input)[0], parsed.host, parsed.port);
    }
    if AsksFor(rt, Lines(input)[0], host, port) {
      DecideServes(rt, allowed, dial, input, host, port);
      SkipHeadersMeaning(ReadLine(input).rest);
    } else {
      forall h, p | AsksFor(rt, Lines(input)[0], h, p) ensures parsed == Target(h, p) {
        ParseRequestMeans(rt, Lines(input)[0], h, p);
      }
    }
  }

  /** What the refusals behind the request line say. */
  lemma RefusalSays(rt: Runtime, allowed: seq<string>, dial: (string, int) -> Dial, input: Bytes)
    ensures var r := Decide(rt, allowed, dial, input);
            && (r.Refused? && r.status == 403 ==> r.body == "Forbidden: target not allowed")
            && (r.Refused? && r.status == 504 ==> r.body == "Gateway Timeout")
            && (r.Refused? && r.status == 502 ==> r.body == "Bad Gateway")
  {
  }

  /** A response, byte for byte. */
  lemma ResponseText(status: nat, body: Bytes)
    ensures Response(status, body) ==
              "HTTP/1.1 " + Digits(status) + " " + ReasonPhrase(status) + "\r\n"
              + "Content-Length: " + Digits(|body|) + "\r\n" + "Connection: close\r\n\r\n" + body
  {
    assert "\r" + "\n" == "\r\n";
  }

  lemma ReasonPhrases()
    ensures ReasonPhrase(400) == "Bad Request" && ReasonPhrase(403) == "Forbidden"
    ensures ReasonPhrase(502) == "Bad Gateway" && ReasonPhrase(504) == "Gateway Timeout"
  {
  }

  /** Numbers are written in decimal without leading zeros. */
  lemma {:induction false} DigitsMean(n: nat)
    ensures AllDigits(Digits(n)) && Value(Digits(n)) == n
    ensures Digits(n)[0] == '0' ==> n == 0
  {
    DigitsValue(n);
    if n >= 10 {
      DigitsMean(n / 10);
    }
  }

  /** To a client the established line is a status line and the end of an empty header. */
  lemma EstablishedReads(line: Bytes)
    requires line == "HTTP/1.1 200 Connection Established\r"
    ensures ReadLine(ESTABLISHED) == Line(line + "\n", "\r\n")
  {
    assert '\n' !in line && |line| <= LIMIT;
    assert ESTABLISHED == line + "\n" + "\r\n" by {
      assert "\n" + "\r\n" == "\n\r\n";
    }
    ReadLineOf(line, "\r\n");
  }

  const EXAMPLE: Bytes := "CONNECT h.org:443 HTTP/1.1\r\n"

  /** A request that opens its tunnel, with five bytes behind the header. */
  lemma TunnelExample(rt: Runtime, allowed: seq<string>, dial: (string, int) -> Dial)
    requires rt.decode(EXAMPLE) == EXAMPLE && rt.toInt("443") == Some(443)
    requires dial("h.org", 443) == Opened && (allowed == [] || "h.org" in allowed)
    ensures Decide(rt, allowed, dial, EXAMPLE + "\r\nhello") == Tunnel("h.org", 443, "hello")
  {
    ExampleLine();
    ExampleHeader();
    ExampleAsks(rt);
    ParseRequestMeans(rt, EXAMPLE, "h.org", 443);
    ServesExample(allowed, dial);
  }

  lemma ServesExample(allowed: seq<string>, dial: (string, int) -> Dial)
    requires dial("h.org", 443) == Opened && (allowed == [] || "h.org" in allowed)
    ensures Serve(allowed, dial, "h.org", 443, "\r\nhello") == Tunnel("h.org", 443, "hello")
  {
    ExampleHeader();
  }

  lemma ExampleLine()
    ensures ReadLine(EXAMPLE + "\r\nhello") == Line(EXAMPLE, "\r\nhello")
  {
    var line := "CONNECT h.org:443 HTTP/1.1\r";
    assert line + "\n" == EXAMPLE && line + "\n" + "\r\nhello" == EXAMPLE + "\r\nhello";
    ReadLineOf(line, "\r\nhello");
  }

  lemma ExampleAsks(rt: Runtime)
    requires rt.decode(EXAMPLE) == EXAMPLE && rt.toInt("443") == Some(443)
    ensures AsksFor(rt, EXAMPLE, "h.org", 443)
  {
    ExampleTarget();
    assert Splits("h.org:443", "h.org", "443");
  }

  lemma ExampleTarget()
    ensures Addresses(EXAMPLE, "h.org:443")
  {
    assert EXAMPLE == "" + "CONNECT" + " " + "h.org:443" + " HTTP/1.1\r\n";
    assert Reads(EXAMPLE, "", "CONNECT", " ", "h.org:443", " HTTP/1.1\r\n");
    assert SpellsConnect("CONNECT");
  }

  lemma ExampleHeader()
    ensures SkipHeaders("\r\nhello") == Some("hello")
  {
    ReadLineOf("\r", "hello");
    assert "\r" + "\n" + "hello" == "\r\nhello" && "\r" + "\n" == "\r\n";
  }

  /** Only the empty stream is closed in silence. */
  lemma SilentIff(rt: Runtime, allowed: seq<string>, dial: (string, int) -> Dial, input: Bytes)
    ensures Decide(rt, allowed, dial, input) == Silent <==> input == []
  {
    ReadLineIsFirst(input);
  }

  // ---- The handler itself ----

  class StreamReader {
    var rest: Bytes

    constructor (input: Bytes)
      ensures rest == input
    {
      rest := input;
    }

    /** Next line of the stream; the exception of an overlong line is `Overrun`. */
    method Readline() returns (r: LineRead)
      modifies this
      ensures r == ReadLine(old(rest))
      ensures r.Line? ==> rest == r.rest
    {
      r := ReadLine(rest);
      if r.Line? {
        rest := r.rest;
      }
    }
  }

  class StreamWriter {
    var sent: Bytes
    var closed: bool

    constructor ()
      ensures sent == [] && !closed
    {
      sent := [];
      closed := false;
    }

    method Write(data: Bytes)
      modifies this
      ensures sent == old(sent) + data && closed == old(closed)
    {
      sent := sent + data;
    }

    method Close()
      modifies this
      ensures closed && sent == old(sent)
    {
      closed := true;
    }
  }

  /** One error response, then the connection is closed. */
  method Respond(writer: StreamWriter, status: nat, body: Bytes)
    modifies writer
    ensures writer.sent == old(writer.sent) + Response(status, body) && writer.closed
  {
    var head := StatusLine(status) + "\n" + (LengthLine(|body|) + "\n" + CLOSE_LINES);
    writer.Write(head);
    if body != [] {
      writer.Write(body);
    }
    assert Response(status, body) == head + body;
    writer.Close();
  }

  class ConnectProxy {
    const allowedUpstreams: seq<string>
    var tasks: set<nat>

    constructor (upstreams: seq<string>)
      ensures allowedUpstreams == upstreams && tasks == {}
    {
      allowedUpstreams := upstreams;
      tasks := {};
    }

    /** The task of a connection is registered while it is handled and gone
        afterwards, whatever the outcome. */
    method OnConnect(task: nat, rt: Runtime, dial: (string, int) -> Dial, reader: StreamReader, writer: StreamWriter)
      returns (outcome: Outcome)
      modifies this, reader, writer
      ensures tasks == old(tasks) - {task}
      ensures outcome == Decide(rt, allowedUpstreams, dial, old(reader.rest))
    {
      tasks := tasks + {task};
      outcome := HandleConnect(rt, dial, reader, writer);
      tasks := tasks - {task};
    }

    /** Parses and answers one request. What has been written and whether the
        connection is closed is fixed by the outcome. */
    method HandleConnect(rt: Runtime, dial: (string, int) -> Dial, reader: StreamReader, writer: StreamWriter)
      returns (outcome: Outcome)
      modifies reader, writer
      ensures outcome == Decide(rt, allowedUpstreams, dial, old(reader.rest))
      ensures outcome.Silent? ==> writer.sent == old(writer.sent) && writer.closed
      ensures outcome.Refused? ==>
                && outcome.status >= 0
                && writer.sent == old(writer.sent) + Response(outcome.status, outcome.body)
                && writer.closed
      ensures outcome.Tunnel? ==>
                && writer.sent == old(writer.sent) + ESTABLISHED
                && writer.closed == old(writer.closed)
                && reader.rest == outcome.early
      ensures outcome.Aborted? ==> writer.sent == old(writer.sent) && writer.closed == old(writer.closed)
    {
      var request := reader.Readline();
      if request.Overrun? {
        return Aborted;
      }
      if request.line == "" {
        writer.Close();
        return Silent;
      }
      var parsed := ParseRequest(rt, request.line);
      if parsed.Bad? {
        Respond(writer, 400, parsed.body);
        return Refused(400, parsed.body);
      }
      ghost var headers := reader.rest;
      var header := reader.Readline();
      while header.Line? && !Blank(header.line)
        invariant unchanged(writer)
        invariant header.Line? ==> header.rest == reader.rest
        invariant SkipHeaders(headers) ==
                    match header
                    case Overrun => None
                    case Line(line, rest) => if Blank(line) then Some(rest) else SkipHeaders(rest)
        decreases header.Line? && !Blank(header.line), |reader.rest|
      {
        header := reader.Readline();
      }
      if header.Overrun? {
        return Aborted;
      }
      if allowedUpstreams != [] && parsed.host !in allowedUpstreams {
        Respond(writer, 403, "Forbidden: target not allowed");
        return Refused(403, "Forbidden: target not allowed");
      }
      var answer := dial(parsed.host, parsed.port);
      match answer
      case TimedOut =>
        Respond(writer, 504, "Gateway Timeout");
        return Refused(504, "Gateway Timeout");
      case Unreachable =>
        Respond(writer, 502, "Bad Gateway");
        return Refused(502, "Bad Gateway");
      case Raised =>
        return Aborted;
      case Opened =>
        writer.Write(ESTABLISHED);
        return Tunnel(parsed.host, parsed.port, reader.rest);
    }
  }

  // ---- Handler and relay together ----

  /** Whatever the interleaving of the relay that follows: the client has been sent
      the established line and then a prefix of the remote's bytes; and the header
      block with what the remote has been sent behind it either is a prefix of the
      client stream read so far or continues it with bytes that arrived later. */
  lemma TunnelIsTransparent(rt: Runtime, allowed: seq<string>, dial: (string, int) -> Dial,
                            input: Bytes, host: string, port: int, early: Bytes,
                            tr: nat -> Relay.State, who: nat -> Relay.Actor, i: nat)
    requires Decide(rt, allowed, dial, input) == Tunnel(host, port, early)
    requires Relay.IsRun(tr, who) && tr(0) == Relay.Opened(ESTABLISHED, early)
    ensures ESTABLISHED <= tr(i).down.written
    ensures tr(i).down.written[|ESTABLISHED|..] <= tr(i).down.arrived
    ensures exists n: nat :: n < |Lines(input)| && HeaderBlock(Lines(input)[1..], n) &&
              var header, up := Concat(Lines(input)[..n + 1]), tr(i).up;
              && input <= header + up.arrived
              && (if |header + up.written| <= |input| then header + up.written <= input
                  else input <= header + up.written <= header + up.arrived)
  {
    Relay.RelayedIsPrefix(tr, who, ESTABLISHED, early, i);
    Relay.EarlyBytesFirst(tr, who, ESTABLISHED, early, i);
    TunnelSplitsInput(rt, allowed, dial, input, host, port, early);
    var n: nat :| n < |Lines(input)| && HeaderBlock(Lines(input)[1..], n) &&
                  input == Concat(Lines(input)[..n + 1]) + early;
    var header, up := Concat(Lines(input)[..n + 1]), tr(i).up;
    assert input <= header + up.arrived;
    assert header + up.written <= header + up.arrived;
    PrefixesOfOne(header + up.written, input, header + up.arrived);
  }

  lemma PrefixesOfOne<T>(a: seq<T>, b: seq<T>, whole: seq<T>)
    requires a <= whole && b <= whole
    ensures if |a| <= |b| then a <= b else b <= a
  {
  }
}
