/** Line reading over a byte stream, as asyncio's StreamReader does it with a length limit. */
module Wire {
  import opened Common

  /** One character per octet. */
  type Bytes = seq<char>

  /** The `limit=65536` of the listening socket's stream readers. */
  const LIMIT: nat := 65536

  /** Index of the first newline, or the length when there is none. */
  function NewlineAt(s: Bytes): (n: nat)
    ensures n <= |s|
    ensures n < |s| ==> s[n] == '\n'
    ensures forall i :: 0 <= i < n ==> s[i] != '\n'
  {
    if s == [] || s[0] == '\n' then 0 else 1 + NewlineAt(s[1..])
  }

  /** A read of one line: the line with its newline (or what is left before the
      end of the stream), or the failure of a line longer than the limit. */
  datatype LineRead = Line(line: Bytes, rest: Bytes) | Overrun

  function ReadLine(s: Bytes): (r: LineRead)
    ensures r.Line? && r.line != [] ==> |r.rest| < |s|
  {
    var n := NewlineAt(s);
    if n > LIMIT then Overrun
    else if n < |s| then Line(s[..n + 1], s[n + 1..])
    else Line(s, [])
  }

  /** The whole stream cut behind every newline. */
  function Lines(s: Bytes): (ls: seq<Bytes>)
    ensures forall l :: l in ls ==> l != []
    decreases |s|
  {
    var n := NewlineAt(s);
    if s == [] then []
    else if n == |s| then [s]
    else [s[..n + 1]] + Lines(s[n + 1..])
  }

  function Concat(ls: seq<Bytes>): Bytes {
    FlatMap((l: Bytes) => l, ls)
  }

  lemma {:induction false} LinesConcat(s: Bytes)
    ensures Concat(Lines(s)) == s
    decreases |s|
  {
    var n := NewlineAt(s);
    if s != [] && n < |s| {
      LinesConcat(s[n + 1..]);
      FlatMapAppend((l: Bytes) => l, [s[..n + 1]], Lines(s[n + 1..]));
      FlatMapSingle((l: Bytes) => l, s[..n + 1]);
    } else if s != [] {
      FlatMapSingle((l: Bytes) => l, s);
    }
  }

  lemma ConcatAppend(xs: seq<Bytes>, ys: seq<Bytes>)
    ensures Concat(xs + ys) == Concat(xs) + Concat(ys)
  {
    FlatMapAppend((l: Bytes) => l, xs, ys);
  }

  /** Longer than a read accepts, not counting the newline. */
  predicate TooLong(line: Bytes) {
    NewlineAt(line) > LIMIT
  }

  /** Reading one line is taking the first of `Lines`. */
  lemma ReadLineIsFirst(s: Bytes)
    ensures s == [] ==> ReadLine(s) == Line([], [])
    ensures s != [] ==> Lines(s) != [] && (ReadLine(s).Overrun? <==> TooLong(Lines(s)[0]))
    ensures s != [] && ReadLine(s).Line? ==>
              ReadLine(s).line == Lines(s)[0] && Lines(ReadLine(s).rest) == Lines(s)[1..]
  {
    var n := NewlineAt(s);
    if s != [] && n < |s| {
      var l := s[..n + 1];
      NewlineUnique(l, n);
    }
  }

  lemma {:induction false} NewlineUnique(s: Bytes, n: nat)
    requires n < |s| && s[n] == '\n' && forall i :: 0 <= i < n ==> s[i] != '\n'
    ensures NewlineAt(s) == n
  {
  }

  lemma ReadLineOf(line: Bytes, rest: Bytes)
    requires |line| <= LIMIT && '\n' !in line
    ensures ReadLine(line + "\n" + rest) == Line(line + "\n", rest)
  {
    var s := line + "\n" + rest;
    NewlineUnique(s, |line|);
    assert s[..|line| + 1] == line + "\n";
    assert s[|line| + 1..] == rest;
  }

  /** A line is read if it has at most 65536 bytes before its newline. */
  lemma ReadLineLimit(line: Bytes, rest: Bytes)
    requires '\n' !in line
    ensures ReadLine(line + "\n" + rest) == if |line| <= 65536 then Line(line + "\n", rest) else Overrun
  {
    if |line| <= 65536 {
      ReadLineOf(line, rest);
    } else {
      NewlineUnique(line + "\n" + rest, |line|);
    }
  }

  /** Every line ends with the only newline in it; the last one may have none. */
  lemma {:induction false} LinesMeans(s: Bytes, k: nat)
    requires k < |Lines(s)|
    ensures var l := Lines(s)[k];
            && l != []
            && (forall i :: 0 <= i < |l| - 1 ==> l[i] != '\n')
            && (k < |Lines(s)| - 1 ==> l[|l| - 1] == '\n')
    decreases |s|
  {
    var n := NewlineAt(s);
    if n < |s| && k > 0 {
      assert Lines(s)[1..] == Lines(s[n + 1..]);
      LinesMeans(s[n + 1..], k - 1);
    }
  }
}
