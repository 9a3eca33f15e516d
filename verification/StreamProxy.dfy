/**
The delayed-commit stream proxy. Nothing reaches the client before the first semantic line; from then on every chunk
is forwarded as it was read. The upstream body is cut into chunks as a 64 KiB buffered reader cuts it at newlines.
*/
module StreamProxy {
  import opened Wrappers
  import opened Accounting
  import Failover

  const LINE_LIMIT: nat := 65536
  const HOLD_LIMIT: nat := 262144

  type Bytes = seq<byte>

  /** The whole upstream body; `faulty` when it ends in a read error, `early` when the end is reported together with
      the last bytes rather than by a read of its own. */
  datatype Body = Body(bytes: Bytes, faulty: bool, early: bool)

  /** The uninterpreted parts: which lines are semantic output, and the model and usage a line reports. */
  datatype Lines = Lines(semantic: Bytes -> bool, model: Bytes -> string, usage: Bytes -> Reported)

  datatype Failure = LineTooLong | TooMuchKeepalive | DownstreamWrite | EndedEarly | ReadFault

  // ----- the chunks of a body

  /** The index of the first newline within the reader's buffer, or the length searched. */
  function Newline(b: Bytes): (i: nat)
    ensures i <= |b| && i <= LINE_LIMIT
    ensures i < |b| && i < LINE_LIMIT ==> b[i] == 10
    ensures forall j :: 0 <= j < i ==> b[j] != 10
  {
    NewlineFrom(b, 0)
  }

  function NewlineFrom(b: Bytes, from: nat): (i: nat)
    requires from <= |b| && from <= LINE_LIMIT
    ensures from <= i <= |b| && i <= LINE_LIMIT
    ensures i < |b| && i < LINE_LIMIT ==> b[i] == 10
    ensures forall j :: from <= j < i ==> b[j] != 10
    decreases |b| - from
  {
    if from == |b| || from == LINE_LIMIT || b[from] == 10 then from else NewlineFrom(b, from + 1)
  }

  datatype Slice = Line(n: nat) | Overflow | End

  /** What the next read returns when `rest` is still unread. */
  function ReadSlice(rest: Bytes, early: bool): (s: Slice)
    ensures s.Line? ==> 0 < s.n <= |rest| && s.n <= LINE_LIMIT
    ensures !s.Overflow? && !s.Line? ==> |rest| <= LINE_LIMIT
  {
    var i := Newline(rest);
    if i < |rest| && i < LINE_LIMIT then Line(i + 1)
    else if |rest| > LINE_LIMIT || (|rest| == LINE_LIMIT && !early) then Overflow
    else End
  }

  /** The chunks handed to the proxy's loop body; an overlong line is refused before it becomes one. */
  function Chunks(rest: Bytes, early: bool): seq<Bytes>
    decreases |rest|
  {
    match ReadSlice(rest, early)
    case Line(n) => [rest[..n]] + Chunks(rest[n..], early)
    case Overflow => []
    case End => if rest == [] then [] else [rest]
  }

  /** What is never handed over: the overlong line that stops the reader and all that follows it. */
  function Unread(rest: Bytes, early: bool): Bytes
    decreases |rest|
  {
    match ReadSlice(rest, early)
    case Line(n) => Unread(rest[n..], early)
    case Overflow => rest
    case End => []
  }

  predicate Overlong(rest: Bytes, early: bool) { Unread(rest, early) != [] }

  function Concat(chunks: seq<Bytes>): Bytes {
    if chunks == [] then [] else Concat(chunks[..|chunks| - 1]) + chunks[|chunks| - 1]
  }

  function FirstSemantic(lines: Lines, chunks: seq<Bytes>): (i: nat)
    ensures i <= |chunks|
    ensures i < |chunks| ==> lines.semantic(chunks[i])
    ensures forall j :: 0 <= j < i ==> !lines.semantic(chunks[j])
  {
    if chunks == [] || lines.semantic(chunks[0]) then 0 else 1 + FirstSemantic(lines, chunks[1..])
  }

  /** The stream is committed exactly when it has a semantic chunk and everything up to and including the first one
      fits the hold buffer. */
  predicate Commits(lines: Lines, chunks: seq<Bytes>) {
    var i := FirstSemantic(lines, chunks);
    i < |chunks| && |Concat(chunks[..i + 1])| <= HOLD_LIMIT
  }

  function LastModel(lines: Lines, chunks: seq<Bytes>): string {
    if chunks == [] then ""
    else
      var m := lines.model(chunks[|chunks| - 1]);
      if m != "" then m else LastModel(lines, chunks[..|chunks| - 1])
  }

  /** The last complete usage of the chunks, or no usage at all. */
  function LastUsage(lines: Lines, chunks: seq<Bytes>): Reported {
    if chunks == [] then Failover.NO_TOKENS
    else
      var u := lines.usage(chunks[|chunks| - 1]);
      if Complete(u) then u else LastUsage(lines, chunks[..|chunks| - 1])
  }

  // ----- lemmas about chunks

  lemma {:induction false} ConcatAppend(chunks: seq<Bytes>, more: seq<Bytes>)
    ensures Concat(chunks + more) == Concat(chunks) + Concat(more)
  {
    if more == [] {
      assert chunks + more == chunks;
    } else {
      var n := |more| - 1;
      assert (chunks + more)[..|chunks| + n] == chunks + more[..n];
      ConcatAppend(chunks, more[..n]);
    }
  }

  lemma ConcatOne(c: Bytes)
    ensures Concat([c]) == c
  {
    assert Concat([c][..0]) == [];
  }

  lemma ConcatFirst(c: Bytes, more: seq<Bytes>)
    ensures Concat([c] + more) == c + Concat(more)
  {
    ConcatAppend([c], more);
    ConcatOne(c);
  }

  lemma Regroup(head: Bytes, a: Bytes, b: Bytes, whole: Bytes)
    requires whole == head + (a + b)
    ensures (head + a) + b == whole
  {
  }

  /** Cutting into chunks loses nothing: together they are the body, up to an overlong line. */
  lemma {:induction false} ChunksCover(rest: Bytes, early: bool)
    ensures Concat(Chunks(rest, early)) + Unread(rest, early) == rest
    decreases |rest|
  {
    if ReadSlice(rest, early).Overflow? || rest == [] {
      assert Chunks(rest, early) == [];
    } else {
      var slice := ReadSlice(rest, early);
      var head := if slice.Line? then rest[..slice.n] else rest;
      var tail := rest[|head|..];
      FirstChunk(rest, early);
      ChunksCover(tail, early);
      ConcatFirst(head, Chunks(tail, early));
      assert rest == head + tail;
      Regroup(head, Concat(Chunks(tail, early)), Unread(tail, early), rest);
    }
  }

  /** Chunks are never empty and never longer than the reader's buffer. */
  lemma {:induction false} ChunkSizes(rest: Bytes, early: bool)
    ensures forall c :: c in Chunks(rest, early) ==> 0 < |c| <= LINE_LIMIT
    decreases |rest|
  {
    match ReadSlice(rest, early)
    case Line(n) => ChunkSizes(rest[n..], early);
    case Overflow =>
    case End =>
  }

  lemma FirstSemanticIs(lines: Lines, chunks: seq<Bytes>, i: nat)
    requires i <= |chunks| && (i < |chunks| ==> lines.semantic(chunks[i]))
    requires forall j :: 0 <= j < i ==> !lines.semantic(chunks[j])
    ensures FirstSemantic(lines, chunks) == i
  {
  }

  lemma PrefixShorter(chunks: seq<Bytes>, i: nat, j: nat)
    requires i <= j <= |chunks|
    ensures |Concat(chunks[..i])| <= |Concat(chunks[..j])|
  {
    ConcatAppend(chunks[..i], chunks[i..j]);
    assert chunks[..i] + chunks[i..j] == chunks[..j];
  }

  // ----- the proxy

  /** How the client's connection takes the k-th write: None for all of it, Some(n) for a failure after n bytes. */
  type Sink = nat -> Option<nat>

  function Accepted(sink: Sink, k: nat, data: Bytes): Bytes {
    match sink(k)
    case None => data
    case Some(n) => if n <= |data| then data[..n] else data
  }

  /** The proxy's variables. */
  datatype Proxy = Proxy(committed: bool, model: string, observed: Reported, buffered: Bytes, written: Bytes,
      writes: nat)

  /** One round of the loop for a chunk that was read: usage first, then hold or forward. */
  function TakeLine(lines: Lines, sink: Sink, p: Proxy, line: Bytes): (Proxy, Option<Failure>) {
    var q := p.(model := if lines.model(line) != "" then lines.model(line) else p.model,
                observed := if Complete(lines.usage(line)) then lines.usage(line) else p.observed,
                buffered := if p.committed then p.buffered else p.buffered + line);
    if !p.committed && |q.buffered| > HOLD_LIMIT then (q, Some(TooMuchKeepalive))
    else if !p.committed && !lines.semantic(line) then (q, None)
    else
      var data := if p.committed then line else q.buffered;
      (q.(committed := true, written := p.written + Accepted(sink, p.writes, data), writes := p.writes + 1),
       if sink(p.writes).Some? then Some(DownstreamWrite) else None)
  }

  function Pump(b: Body, lines: Lines, sink: Sink, p: Proxy, rest: Bytes): (Proxy, Option<Failure>)
    decreases |rest|
  {
    var slice := ReadSlice(rest, b.early);
    if slice == Overflow then (p, Some(LineTooLong))
    else
      var line := if slice.Line? then rest[..slice.n] else rest;
      var (q, failure) := if line == [] then (p, None) else TakeLine(lines, sink, p, line);
      if failure.Some? then (q, failure)
      else if slice.Line? then Pump(b, lines, sink, q, rest[|line|..])
      else (q, if b.faulty then Some(ReadFault) else if q.committed then None else Some(EndedEarly))
  }

  const FRESH := Proxy(false, "", Failover.NO_TOKENS, [], [], 0)

  /** The proxy's loop as the gateway runs it. */
  method ProxyDelayedStream(b: Body, lines: Lines, sink: Sink) returns (p: Proxy, failure: Option<Failure>)
    ensures (p, failure) == Pump(b, lines, sink, FRESH, b.bytes)
  {
    p, failure := FRESH, None;
    var rest := b.bytes;
    while true
      invariant Pump(b, lines, sink, FRESH, b.bytes) == Pump(b, lines, sink, p, rest)
      decreases |rest|
    {
      var slice := ReadSlice(rest, b.early);
      if slice == Overflow {
        return p, Some(LineTooLong);
      }
      var line := if slice.Line? then rest[..slice.n] else rest;
      if line != [] {
        p, failure := HoldOrForward(lines, sink, p, line);
        if failure.Some? {
          return;
        }
      }
      if slice == End {
        return p, if b.faulty then Some(ReadFault) else if p.committed then None else Some(EndedEarly);
      }
      rest := rest[|line|..];
    }
  }

  /** The body of that loop for a chunk that was read. */
  method HoldOrForward(lines: Lines, sink: Sink, p: Proxy, line: Bytes) returns (q: Proxy, failure: Option<Failure>)
    ensures (q, failure) == TakeLine(lines, sink, p, line)
  {
    q, failure := p, None;
    if lines.model(line) != "" {
      q := q.(model := lines.model(line));
    }
    if Complete(lines.usage(line)) {
      q := q.(observed := lines.usage(line));
    }
    if !q.committed {
      q := q.(buffered := q.buffered + line);
      if |q.buffered| > HOLD_LIMIT {
        return q, Some(TooMuchKeepalive);
      }
    }
    if !q.committed && lines.semantic(line) {
      var taken := sink(q.writes);
      q := q.(committed := true, written := q.written + Accepted(sink, q.writes, q.buffered), writes := q.writes + 1);
      if taken.Some? {
        return q, Some(DownstreamWrite);
      }
    } else if q.committed {
      var taken := sink(q.writes);
      q := q.(written := q.written + Accepted(sink, q.writes, line), writes := q.writes + 1);
      if taken.Some? {
        return q, Some(DownstreamWrite);
      }
    }
  }

  // ----- what the proxy guarantees

  /** The model and usage are the last ones reported by the chunks taken so far. */
  predicate Faithful(b: Body, lines: Lines, p: Proxy, taken: nat) {
    && taken <= |ChunksOf(b)|
    && p.model == LastModel(lines, ChunksOf(b)[..taken])
    && p.observed == LastUsage(lines, ChunksOf(b)[..taken])
  }

  /** What the client holds: nothing at all or, from the first semantic chunk on, an initial part of the body; and
      unless the client itself failed, exactly the chunks that were read, all of the body if there was no error. */
  predicate AllOrNothing(b: Body, lines: Lines, p: Proxy, failure: Option<Failure>, taken: nat) {
    && (p.committed <==> Commits(lines, ChunksOf(b)))
    && (!p.committed ==> p.written == [] && failure != None && failure != Some(DownstreamWrite))
    && p.written <= b.bytes
    && (p.committed && failure != Some(DownstreamWrite) ==>
         p.written == Concat(ChunksOf(b)) && taken == |ChunksOf(b)|)
    && (failure == None ==> p.written == b.bytes)
  }

  function ChunksOf(b: Body): seq<Bytes> { Chunks(b.bytes, b.early) }

  /** The error of a stream whose client takes every write. */
  function Verdict(b: Body, lines: Lines): Option<Failure> {
    if !Commits(lines, ChunksOf(b)) && |Concat(ChunksOf(b))| > HOLD_LIMIT then Some(TooMuchKeepalive)
    else if Overlong(b.bytes, b.early) then Some(LineTooLong)
    else if b.faulty then Some(ReadFault)
    else if Commits(lines, ChunksOf(b)) then None
    else Some(EndedEarly)
  }

  /** `read` is what the first chunks took from the body, and the other chunks come from what is left. */
  ghost predicate Progress(b: Body, all: seq<Bytes>, taken: nat, read: Bytes, rest: Bytes)
    requires taken <= |all|
  {
    && b.bytes == read + rest
    && all[taken..] == Chunks(rest, b.early)
    && Overlong(b.bytes, b.early) == Overlong(rest, b.early)
    && Concat(all[..taken]) == read
  }

  /** Committed: what was read is written. Not yet: it is held, fits, and has no semantic chunk. */
  ghost predicate Holding(lines: Lines, all: seq<Bytes>, taken: nat, read: Bytes, p: Proxy)
    requires taken <= |all|
  {
    if p.committed then Commits(lines, all) && p.written == read
    else
      && p.written == [] && p.buffered == read && |read| <= HOLD_LIMIT
      && forall j :: 0 <= j < taken ==> !lines.semantic(all[j])
  }

  /** Taking one chunk off the remaining ones. */
  lemma TakeOne(b: Body, all: seq<Bytes>, taken: nat, read: Bytes, rest: Bytes)
    requires taken <= |all| && Progress(b, all, taken, read, rest)
    requires !ReadSlice(rest, b.early).Overflow? && rest != []
    ensures var slice := ReadSlice(rest, b.early);
      var line := if slice.Line? then rest[..slice.n] else rest;
      && taken < |all| && all[taken] == line
      && Progress(b, all, taken + 1, read + line, rest[|line|..])
      && read + line <= b.bytes
  {
    var slice := ReadSlice(rest, b.early);
    var line := if slice.Line? then rest[..slice.n] else rest;
    assert rest == line + rest[|line|..];
    FirstChunk(rest, b.early);
    assert all[taken..][0] == line;
    assert all[taken + 1..] == all[taken..][1..];
    NextPrefix(all, taken);
  }

  /** The next read yields the first of the remaining chunks. */
  lemma FirstChunk(rest: Bytes, early: bool)
    requires !ReadSlice(rest, early).Overflow? && rest != []
    ensures var slice := ReadSlice(rest, early);
      var line := if slice.Line? then rest[..slice.n] else rest;
      && Chunks(rest, early) == [line] + Chunks(rest[|line|..], early)
      && Unread(rest, early) == Unread(rest[|line|..], early)
  {
    if ReadSlice(rest, early) == End { assert rest[|rest|..] == []; }
  }

  lemma NextPrefix(all: seq<Bytes>, taken: nat)
    requires taken < |all|
    ensures Concat(all[..taken + 1]) == Concat(all[..taken]) + all[taken]
  {
    assert all[..taken + 1][..taken] == all[..taken];
  }

  /** One round keeps the invariant or ends with the verdict. */
  lemma LineTaken(b: Body, lines: Lines, sink: Sink, all: seq<Bytes>, taken: nat, read: Bytes, rest: Bytes, p: Proxy)
    requires taken < |all| && all == ChunksOf(b)
    requires Progress(b, all, taken + 1, read + all[taken], rest)
    requires Holding(lines, all, taken, read, p)
    ensures var (q, failure) := TakeLine(lines, sink, p, all[taken]);
      && (failure == None ==> Holding(lines, all, taken + 1, read + all[taken], q))
      && (failure != None ==> AllOrNothing(b, lines, q, failure, taken + 1))
      && (failure != None && failure != Some(DownstreamWrite) ==> failure == Verdict(b, lines))
      && (failure == Some(DownstreamWrite) ==> exists k :: sink(k).Some?)
  {
    var (q, failure) := TakeLine(lines, sink, p, all[taken]);
    if failure == Some(TooMuchKeepalive) {
      NoCommit(lines, all, taken + 1);
    } else if q.committed {
      if !p.committed { FirstSemanticIs(lines, all, taken); }
      ForwardedPrefix(b, sink, p.writes, p.written, if p.committed then all[taken] else read + all[taken], rest);
    }
  }

  lemma ForwardedPrefix(b: Body, sink: Sink, k: nat, written: Bytes, line: Bytes, rest: Bytes)
    requires b.bytes == written + line + rest
    ensures written + Accepted(sink, k, line) <= b.bytes
  {
    var n := |written + Accepted(sink, k, line)|;
    assert (written + line + rest)[..n] == written + Accepted(sink, k, line);
  }

  lemma LastOfOne(lines: Lines, all: seq<Bytes>, taken: nat)
    requires taken < |all|
    ensures var m, u := lines.model(all[taken]), lines.usage(all[taken]);
      && LastModel(lines, all[..taken + 1]) == (if m != "" then m else LastModel(lines, all[..taken]))
      && LastUsage(lines, all[..taken + 1]) == (if Complete(u) then u else LastUsage(lines, all[..taken]))
  {
    assert all[..taken + 1][..taken] == all[..taken];
  }

  /** No chunk is left: all of them were taken. */
  lemma AtEnd(b: Body, lines: Lines, all: seq<Bytes>, taken: nat, read: Bytes, rest: Bytes, p: Proxy)
    requires taken <= |all| && all == ChunksOf(b) && Progress(b, all, taken, read, rest)
    requires Holding(lines, all, taken, read, p)
    requires ReadSlice(rest, b.early).Overflow? || rest == []
    ensures var failure := if ReadSlice(rest, b.early).Overflow? then Some(LineTooLong)
                           else if b.faulty then Some(ReadFault) else if p.committed then None else Some(EndedEarly);
      AllOrNothing(b, lines, p, failure, taken) && failure == Verdict(b, lines)
  {
    assert all[taken..] == [];
    assert all[..taken] == all;
    if !p.committed { FirstSemanticIs(lines, all, taken); }
  }

  /** What holds at the end of a run, when `n` chunks have been taken in all. */
  ghost predicate Ends(b: Body, lines: Lines, sink: Sink, q: Proxy, failure: Option<Failure>, n: nat) {
    && Faithful(b, lines, q, n) && AllOrNothing(b, lines, q, failure, n)
    && (failure != Some(DownstreamWrite) ==> failure == Verdict(b, lines))
    && (failure == Some(DownstreamWrite) ==> exists k :: sink(k).Some?)
  }

  /** The state of the loop between two rounds. */
  ghost predicate Between(b: Body, lines: Lines, taken: nat, read: Bytes, rest: Bytes, p: Proxy) {
    && taken <= |ChunksOf(b)| && Progress(b, ChunksOf(b), taken, read, rest)
    && Holding(lines, ChunksOf(b), taken, read, p) && Faithful(b, lines, p, taken)
  }

  lemma LastRound(b: Body, lines: Lines, sink: Sink, taken: nat, read: Bytes, rest: Bytes, p: Proxy)
    requires Between(b, lines, taken, read, rest, p)
    requires ReadSlice(rest, b.early).Overflow? || rest == []
    ensures var failure := if ReadSlice(rest, b.early).Overflow? then Some(LineTooLong)
                           else if b.faulty then Some(ReadFault) else if p.committed then None else Some(EndedEarly);
      Ends(b, lines, sink, p, failure, taken)
  {
    AtEnd(b, lines, ChunksOf(b), taken, read, rest, p);
  }

  lemma OneRound(b: Body, lines: Lines, sink: Sink, taken: nat, read: Bytes, rest: Bytes, p: Proxy)
    requires Between(b, lines, taken, read, rest, p)
    requires !ReadSlice(rest, b.early).Overflow? && rest != []
    ensures var slice := ReadSlice(rest, b.early);
      var line := if slice.Line? then rest[..slice.n] else rest;
      var (q, failure) := TakeLine(lines, sink, p, line);
      && (failure.None? ==> Between(b, lines, taken + 1, read + line, rest[|line|..], q))
      && (failure.Some? ==> Ends(b, lines, sink, q, failure, taken + 1))
  {
    var all := ChunksOf(b);
    var slice := ReadSlice(rest, b.early);
    var line := if slice.Line? then rest[..slice.n] else rest;
    TakeOne(b, all, taken, read, rest);
    LastOfOne(lines, all, taken);
    LineTaken(b, lines, sink, all, taken, read, rest[|line|..], p);
  }

  /** The rest of a run from any state that meets the invariant. */
  lemma {:induction false} PumpDelivers(b: Body, lines: Lines, sink: Sink, taken: nat, read: Bytes, rest: Bytes,
      p: Proxy)
    returns (n: nat)
    requires Between(b, lines, taken, read, rest, p)
    ensures var (q, failure) := Pump(b, lines, sink, p, rest);
      Ends(b, lines, sink, q, failure, n)
    decreases |rest|
  {
    var slice := ReadSlice(rest, b.early);
    if slice == Overflow || rest == [] {
      LastRound(b, lines, sink, taken, read, rest, p);
      n := taken;
    } else {
      var line := if slice.Line? then rest[..slice.n] else rest;
      OneRound(b, lines, sink, taken, read, rest, p);
      var (q, failure) := TakeLine(lines, sink, p, line);
      if failure.Some? {
        n := taken + 1;
      } else if slice.Line? {
        n := PumpDelivers(b, lines, sink, taken + 1, read + line, rest[|line|..], q);
      } else {
        assert rest[|line|..] == [];
        LastRound(b, lines, sink, taken + 1, read + line, [], q);
        n := taken + 1;
      }
    }
  }

  /** The delayed stream proxy is transparent and all-or-nothing, for every body, every reading of its lines and every
      client: see `AllOrNothing`, `Verdict` and `Faithful`. */
  lemma ProxyIsTransparent(b: Body, lines: Lines, sink: Sink) returns (taken: nat)
    ensures var (p, failure) := Pump(b, lines, sink, FRESH, b.bytes);
      Ends(b, lines, sink, p, failure, taken)
  {
    assert ChunksOf(b)[..0] == [];
    assert b.bytes == [] + b.bytes;
    taken := PumpDelivers(b, lines, sink, 0, [], b.bytes, FRESH);
  }

  // ----- when the client fails

  /** The first write is everything up to the first semantic chunk, and each later one is one chunk; so far the client
      has taken all of them. */
  ghost predicate Sending(lines: Lines, sink: Sink, all: seq<Bytes>, taken: nat, p: Proxy)
    requires taken <= |all|
  {
    if p.committed then
      && FirstSemantic(lines, all) < taken && p.writes == taken - FirstSemantic(lines, all)
      && forall k :: 0 <= k < p.writes ==> sink(k).None?
    else p.writes == 0
  }

  function Cut(s: Bytes, n: nat): Bytes { if n <= |s| then s[..n] else s }

  /** The client took every write but the last, and of that one as much as it says. */
  ghost predicate Broken(lines: Lines, sink: Sink, all: seq<Bytes>, q: Proxy, n: nat) {
    && 0 < n <= |all| && FirstSemantic(lines, all) < n && q.writes == n - FirstSemantic(lines, all)
    && (forall k :: 0 <= k < q.writes - 1 ==> sink(k).None?) && sink(q.writes - 1).Some?
    && var sent := if q.writes == 1 then 0 else n - 1;
    && q.written == Cut(Concat(all[..n]), |Concat(all[..sent])| + sink(q.writes - 1).value)
  }

  lemma CutAfter(a: Bytes, s: Bytes, n: nat)
    ensures a + Cut(s, n) == Cut(a + s, |a| + n)
  {
    if n <= |s| { assert (a + s)[..|a| + n] == a + s[..n]; }
  }

  /** The write that commits the stream: everything so far. */
  lemma FirstWrite(lines: Lines, sink: Sink, all: seq<Bytes>, taken: nat, p: Proxy)
    requires taken < |all| && !p.committed && p.writes == 0 && p.written == [] && lines.semantic(all[taken])
    requires p.buffered == Concat(all[..taken]) && forall j :: 0 <= j < taken ==> !lines.semantic(all[j])
    requires TakeLine(lines, sink, p, all[taken]).0.committed
    ensures var (q, failure) := TakeLine(lines, sink, p, all[taken]);
      if failure == None then Sending(lines, sink, all, taken + 1, q) else Broken(lines, sink, all, q, taken + 1)
  {
    NextPrefix(all, taken);
    FirstSemanticIs(lines, all, taken);
    assert all[..0] == [] && Concat(all[..0]) == [];
    var data := Concat(all[..taken + 1]);
    assert [] + Accepted(sink, 0, data) == Accepted(sink, 0, data);
  }

  lemma CutShort(lines: Lines, sink: Sink, all: seq<Bytes>, taken: nat, p: Proxy, q: Proxy)
    requires taken < |all| && p.committed && p.written == Concat(all[..taken]) && Sending(lines, sink, all, taken, p)
    requires sink(p.writes).Some? && q.writes == p.writes + 1
    requires q.written == p.written + Cut(all[taken], sink(p.writes).value)
    ensures Broken(lines, sink, all, q, taken + 1)
  {
    NextPrefix(all, taken);
    CutAfter(p.written, all[taken], sink(p.writes).value);
  }

  /** Every later write: one chunk. */
  lemma LaterWrite(lines: Lines, sink: Sink, all: seq<Bytes>, taken: nat, p: Proxy)
    requires taken < |all| && p.committed && p.written == Concat(all[..taken]) && Sending(lines, sink, all, taken, p)
    ensures var (q, failure) := TakeLine(lines, sink, p, all[taken]);
      if failure == None then Sending(lines, sink, all, taken + 1, q) else Broken(lines, sink, all, q, taken + 1)
  {
    if sink(p.writes).Some? { CutShort(lines, sink, all, taken, p, TakeLine(lines, sink, p, all[taken]).0); }
  }

  lemma OneWrite(lines: Lines, sink: Sink, all: seq<Bytes>, taken: nat, read: Bytes, p: Proxy)
    requires taken < |all| && Holding(lines, all, taken, read, p) && Concat(all[..taken]) == read
    requires Sending(lines, sink, all, taken, p)
    ensures var (q, failure) := TakeLine(lines, sink, p, all[taken]);
      && (failure == None ==> Sending(lines, sink, all, taken + 1, q))
      && (failure == Some(DownstreamWrite) ==> Broken(lines, sink, all, q, taken + 1))
  {
    if p.committed {
      LaterWrite(lines, sink, all, taken, p);
    } else if TakeLine(lines, sink, p, all[taken]).0.committed {
      FirstWrite(lines, sink, all, taken, p);
    }
  }

  lemma WriteRound(b: Body, lines: Lines, sink: Sink, taken: nat, read: Bytes, rest: Bytes, p: Proxy)
    requires Between(b, lines, taken, read, rest, p) && Sending(lines, sink, ChunksOf(b), taken, p)
    requires !ReadSlice(rest, b.early).Overflow? && rest != []
    ensures var slice := ReadSlice(rest, b.early);
      var line := if slice.Line? then rest[..slice.n] else rest;
      var (q, failure) := TakeLine(lines, sink, p, line);
      && (failure.None? ==>
           Between(b, lines, taken + 1, read + line, rest[|line|..], q) &&
           Sending(lines, sink, ChunksOf(b), taken + 1, q))
      && (failure == Some(DownstreamWrite) ==> Broken(lines, sink, ChunksOf(b), q, taken + 1))
  {
    TakeOne(b, ChunksOf(b), taken, read, rest);
    OneRound(b, lines, sink, taken, read, rest, p);
    OneWrite(lines, sink, ChunksOf(b), taken, read, p);
  }

  lemma {:induction false} PumpWrites(b: Body, lines: Lines, sink: Sink, taken: nat, read: Bytes, rest: Bytes, p: Proxy)
    returns (n: nat)
    requires Between(b, lines, taken, read, rest, p) && Sending(lines, sink, ChunksOf(b), taken, p)
    ensures var (q, failure) := Pump(b, lines, sink, p, rest);
      failure == Some(DownstreamWrite) ==> Broken(lines, sink, ChunksOf(b), q, n)
    decreases |rest|
  {
    n := taken + 1;
    var slice := ReadSlice(rest, b.early);
    if slice != Overflow && rest != [] {
      var line := if slice.Line? then rest[..slice.n] else rest;
      WriteRound(b, lines, sink, taken, read, rest, p);
      var (q, failure) := TakeLine(lines, sink, p, line);
      if failure.None? && slice.Line? {
        n := PumpWrites(b, lines, sink, taken + 1, read + line, rest[|line|..], q);
      }
    }
  }

  /** What a failing client holds: every write before the one that failed, and of that one as much as it took. */
  lemma BrokenClientHolds(b: Body, lines: Lines, sink: Sink) returns (n: nat)
    ensures var (p, failure) := Pump(b, lines, sink, FRESH, b.bytes);
      failure == Some(DownstreamWrite) ==> Broken(lines, sink, ChunksOf(b), p, n)
  {
    assert ChunksOf(b)[..0] == [];
    assert b.bytes == [] + b.bytes;
    n := PumpWrites(b, lines, sink, 0, [], b.bytes, FRESH);
  }

  /** Once the buffered prefix is too long without a commit, no later chunk commits either. */
  lemma NoCommit(lines: Lines, chunks: seq<Bytes>, taken: nat)
    requires 0 < taken <= |chunks| && |Concat(chunks[..taken])| > HOLD_LIMIT
    requires forall j :: 0 <= j < taken - 1 ==> !lines.semantic(chunks[j])
    ensures !Commits(lines, chunks) && |Concat(chunks)| > HOLD_LIMIT
  {
    var i := FirstSemantic(lines, chunks);
    if i < |chunks| {
      assert i >= taken - 1;
      PrefixShorter(chunks, taken, i + 1);
    }
    PrefixShorter(chunks, taken, |chunks|);
    assert chunks[..|chunks|] == chunks;
  }

  // ----- the proxy and the failover loop

  /** The outcome the failover loop sees: a cancelled client or a failed write wins over the stream's own error,
      and a watchdog timeout turns a clean end into a failure. */
  function OutcomeOf(status: int, committed: bool, observed: Reported, failure: Option<Failure>,
                     timedOut: bool, cancelled: bool): Failover.Outcome {
    if failure.None? && !timedOut then Failover.StreamDone(status, observed)
    else if cancelled || (failure == Some(DownstreamWrite) && !timedOut)
    then Failover.StreamCancelled(status, committed, observed)
    else Failover.StreamFailed(status, committed, observed)
  }

  /** Serves one stream attempt and hands its outcome to the failover loop. What the loop makes of it depends on what
      the client holds: with not a single byte sent another site is tried, unless the client itself went away; otherwise
      the request stops, is charged with the last usage the stream reported, and is a success exactly when all of the
      body arrived in time. */
  method StreamAttempt(b: Body, lines: Lines, sink: Sink, status: int, timedOut: bool, cancelled: bool)
    returns (outcome: Failover.Outcome, written: Bytes)
    ensures var flow := Failover.FlowOf(outcome);
      if Commits(lines, ChunksOf(b)) then
        && flow.Stop? && flow.streamed && flow.finish.charge && flow.finish.httpStatus == status
        && (exists n :: 0 <= n <= |ChunksOf(b)| && flow.finish.tokens == LastUsage(lines, ChunksOf(b)[..n]))
        && written <= b.bytes && (flow.finish.success ==> written == b.bytes && !b.faulty && !timedOut)
      else written == [] && flow == if cancelled then Failover.GiveUp else Failover.NextSite
    ensures var flow := Failover.FlowOf(outcome);
      flow.Stop? && (forall k :: sink(k).None?) ==>
        && flow.finish.tokens == LastUsage(lines, ChunksOf(b))
        && (flow.finish.success <==> !b.faulty && !Overlong(b.bytes, b.early) && !timedOut)
  {
    var p, failure := ProxyDelayedStream(b, lines, sink);
    ghost var taken := ProxyIsTransparent(b, lines, sink);
    outcome, written := OutcomeOf(status, p.committed, p.observed, failure, timedOut, cancelled), p.written;
    assert AllOrNothing(b, lines, p, failure, taken);
    assert ChunksOf(b)[..|ChunksOf(b)|] == ChunksOf(b);
    FaultyBodyFails(b, lines, failure);
    FlowOfStream(status, p.committed, p.observed, failure, timedOut, cancelled);
  }

  lemma FaultyBodyFails(b: Body, lines: Lines, failure: Option<Failure>)
    requires failure != Some(DownstreamWrite) ==> failure == Verdict(b, lines)
    ensures failure.None? ==> !b.faulty
  {
  }

  /** What the loop makes of a stream attempt: a committed one ends the request, charged with the observed usage and
      successful exactly when it ended cleanly in time; an uncommitted one leads to the next site, unless the client
      went away. */
  lemma FlowOfStream(status: int, committed: bool, observed: Reported, failure: Option<Failure>, timedOut: bool,
      cancelled: bool)
    requires failure.None? ==> committed
    requires failure == Some(DownstreamWrite) ==> committed
    ensures Failover.FlowOf(OutcomeOf(status, committed, observed, failure, timedOut, cancelled)) ==
      if committed then
        Failover.Stop(Failover.Finish(failure.None? && !timedOut, true, observed, status), true)
      else if cancelled then Failover.GiveUp
      else Failover.NextSite
  {
  }

  // ----- what a chunk is

  /** A chunk ends with the first newline in it. */
  predicate IsLine(c: Bytes) {
    c != [] && c[|c| - 1] == 10 && forall i :: 0 <= i < |c| - 1 ==> c[i] != 10
  }

  /** Every chunk is one line of the body; only the last may lack its newline, when the body does. */
  lemma {:induction false} ChunksAreLines(rest: Bytes, early: bool)
    ensures forall k :: 0 <= k < |Chunks(rest, early)| - 1 ==> IsLine(Chunks(rest, early)[k])
    ensures var chunks := Chunks(rest, early);
      chunks != [] ==>
        IsLine(chunks[|chunks| - 1]) || (Unread(rest, early) == [] && 10 !in chunks[|chunks| - 1])
    ensures Unread(rest, early) != [] ==>
      && |Unread(rest, early)| >= LINE_LIMIT && (|Unread(rest, early)| == LINE_LIMIT ==> !early)
      && forall i :: 0 <= i < LINE_LIMIT ==> Unread(rest, early)[i] != 10
    ensures Overlong(rest, early) ==> forall c :: c in Chunks(rest, early) ==> IsLine(c)
    decreases |rest|
  {
    match ReadSlice(rest, early)
    case Line(n) =>
      ChunksAreLines(rest[n..], early);
      assert IsLine(rest[..n]);
    case Overflow =>
    case End =>
  }
}
