/** The stream node of lib/dataflow.js.  A Dataflow is an object-mode
    transform stream; the Node.js stream machinery is made explicit as state:
    `input` holds chunks written to the stream and not yet transformed,
    `output` the chunks pushed and not yet read, `pipes` the ids of the
    streams this one pipes into, and `awaitingData` a completion that waits
    for the next `'data'` event. */
module Dataflows {
  import opened Wrappers
  import opened Values
  import opened Pulses

  const DEFAULT_HIGH_WATERMARK: nat := 100

  /** What travels through a stream: a pulse, raw text (the byte side of
      the io adapter), or `null`, which ends the readable side. */
  datatype Chunk = PulseChunk(pulse: Pulse) | Text(text: string) | End

  /** An Error object: its message, `err.origin` and `err.method` (here `methodName`). */
  datatype Failure = Failure(message: string, origin: NodeId, methodName: Option<string>)

  /** An Error as it travels in the payload of an `'error'` pulse. */
  function FailureValue(f: Failure): Value {
    Obj(map["message" := Str(f.message), "origin" := Str(f.origin)]
        + (if f.methodName.Some? then map["method" := Str(f.methodName.value)] else map[]))
  }

  /** The error `push` throws when the readable buffer refuses a chunk. */
  function PushFailure(origin: NodeId): (f: Failure)
    ensures f.origin == origin && f.methodName == Some("push")
  {
    Failure("unable to push chunk", origin, Some("push"))
  }

  /** The `'error'` pulse that `error(err)` sends from node `origin`. */
  function ErrorPulse(origin: NodeId, f: Failure): Pulse {
    NewPulse("error", Some(origin)).Add([FailureValue(f)])
  }

  /** What a filter decides about a pulse: whether to push it, the pulse as
      the filter leaves it (a filter may tag it), and the events the filter
      emits on the way. */
  datatype Verdict<E> = Verdict(pass: bool, pulse: Pulse, events: seq<E>)

  /** How a call of `_transform` ends: `done()` or `done(err)`, deferred
      until the next `'data'` event, or an exception escaping it. */
  datatype Completion = Done(err: Option<Failure>) | Deferred | Escaped(thrown: Failure)

  /** The default filter: every pulse passes. */
  function AcceptAll(p: Pulse): bool {
    true
  }

  /** The readable buffer after the underlying `Readable.push(chunk)`: a
      non-null chunk is buffered unless the stream has ended. */
  function Buffered(output: seq<Chunk>, ended: bool, chunk: Chunk): seq<Chunk> {
    if chunk.End? || ended then output else output + [chunk]
  }

  /** The underlying push returns false: always for `null` and after the
      end of the stream, otherwise when the buffer has reached the
      high-water mark. */
  predicate Refused(output: seq<Chunk>, ended: bool, chunk: Chunk, highWaterMark: nat) {
    chunk.End? || ended || |output| + 1 >= highWaterMark
  }

  /** Remove the first occurrence of `x`, as `unpipe` drops one pipe. */
  function RemoveFirst(s: seq<NodeId>, x: NodeId): (r: seq<NodeId>)
    ensures x !in s ==> r == s
    ensures x in s ==> |r| == |s| - 1 && multiset(r) == multiset(s) - multiset{x}
  {
    if s == [] then []
    else if s[0] == x then (assert s == [s[0]] + s[1..]; s[1..])
    else (assert s == [s[0]] + s[1..]; [s[0]] + RemoveFirst(s[1..], x))
  }

  class Dataflow {
    const id: NodeId
    const highWaterMark: nat
    var filter: Pulse -> bool
    var input: seq<Chunk>
    var output: seq<Chunk>
    var ended: bool
    var awaitingData: bool
    var pipes: seq<NodeId>

    /** `new Dataflow({ id, filter, highWaterMark })`.  A filter is kept only
        when given and when the props object is not itself a Dataflow.  A
        `transform` prop, handed to the Transform base where it replaces
        `_transform`, is not taken here: only the io adapter passes one, and
        IoAdapter models that transform on its own. */
    constructor (id: NodeId, filter: Option<Pulse -> bool>, propsIsDataflow: bool,
                 highWaterMark: Option<nat>)
      ensures this.id == id
      ensures this.highWaterMark == if highWaterMark.Some? then highWaterMark.value
                                    else DEFAULT_HIGH_WATERMARK
      ensures filter.Some? && !propsIsDataflow ==> forall p :: this.filter(p) == filter.value(p)
      ensures filter.None? || propsIsDataflow ==> forall p :: this.filter(p)
      ensures input == [] && output == [] && pipes == []
      ensures !ended && !awaitingData
    {
      this.id := id;
      this.highWaterMark := if highWaterMark.Some? then highWaterMark.value
                            else DEFAULT_HIGH_WATERMARK;
      var chosen: Pulse -> bool := AcceptAll;
      if filter.Some? && !propsIsDataflow {
        chosen := filter.value;
      }
      this.filter := chosen;
      input, output, pipes := [], [], [];
      ended, awaitingData := false, false;
    }

    /** `seen(pulse)`: the pulse already carries this node's id. */
    predicate Seen(p: Pulse) {
      p.Has(id)
    }

    /** `mark(pulse, status)`: tag the pulse with this node's id. */
    function Mark(p: Pulse, status: Status): (q: Pulse)
      ensures Seen(q)
    {
      p.Tag(id, status)
    }

    /** `push(chunk)`: the underlying push, which throws an error tagged
        `method = 'push'` exactly when the underlying push refuses a
        non-null chunk.  A refused chunk has still been buffered. */
    method Push(chunk: Chunk) returns (r: Result<bool, Failure>)
      modifies this`output, this`ended
      ensures output == Buffered(old(output), old(ended), chunk)
      ensures ended == (old(ended) || chunk.End?)
      ensures r == if Refused(old(output), old(ended), chunk, highWaterMark) && !chunk.End?
                   then Throw(PushFailure(id)) else Ok(true)
    {
      var accepted := !Refused(output, ended, chunk, highWaterMark);
      output := Buffered(output, ended, chunk);
      ended := ended || chunk.End?;
      if !accepted && !chunk.End? {
        r := Throw(PushFailure(id));
      } else {
        r := Ok(true);
      }
    }

    /** `send(topic, ...values)`: push a new pulse whose origin is this node. */
    method Send(topic: Key, values: seq<Value>) returns (r: Result<bool, Failure>)
      modifies this`output, this`ended
      ensures var c := PulseChunk(NewPulse(topic, Some(id)).Add(values));
        output == Buffered(old(output), old(ended), c) &&
        r == if Refused(old(output), old(ended), c, highWaterMark)
             then Throw(PushFailure(id)) else Ok(true)
      ensures ended == old(ended)
    {
      r := Push(PulseChunk(NewPulse(topic, None).(origin := Some(id)).Add(values)));
    }

    /** `write(chunk)`: the chunk joins the writable side's queue. */
    method Write(chunk: Chunk)
      modifies this`input
      ensures input == old(input) + [chunk]
    {
      input := input + [chunk];
    }

    /** `feed(topic, ...values)`: write a new pulse with no origin. */
    method Feed(topic: Key, values: seq<Value>)
      modifies this`input
      ensures input == old(input) + [PulseChunk(NewPulse(topic, None).Add(values))]
    {
      Write(PulseChunk(NewPulse(topic, None).Add(values)));
    }

    /** `error(err)`: the error's origin becomes this node and an `'error'`
        pulse carrying it is sent; the error is returned, unless the push of
        that pulse throws. */
    method Error(e: Failure) returns (r: Result<Failure, Failure>)
      modifies this`output, this`ended
      ensures var err := e.(origin := id);
        output == Buffered(old(output), old(ended), PulseChunk(ErrorPulse(id, err))) &&
        r == if Refused(old(output), old(ended), PulseChunk(ErrorPulse(id, err)), highWaterMark)
             then Throw(PushFailure(id)) else Ok(err)
      ensures ended == old(ended)
    {
      var err := e.(origin := id);
      var sent := Send("error", [FailureValue(err)]);
      if sent.Throw? {
        r := Throw(sent.error);
      } else {
        r := Ok(err);
      }
    }

    /** `_transform(chunk, enc, done)` with the given filter.
        - A pulse this node has seen is dropped: `done()`, nothing pushed.
        - An unseen pulse is tagged with this node's id before the filter
          runs, and the pulse the filter leaves is pushed iff the filter
          passes it.  When that push throws, completion is deferred until
          the next `'data'` event.
        - Any other chunk is never forwarded: an `'error'` pulse from this
          node is sent and `done` receives the error. */
    method Transform<E>(chunk: Chunk, f: Pulse -> Verdict<E>) returns (c: Completion, events: seq<E>)
      requires !awaitingData
      modifies this`output, this`ended, this`awaitingData
      ensures ended == old(ended)
      ensures chunk.PulseChunk? && Seen(chunk.pulse) ==>
        c == Done(None) && events == [] && output == old(output) && !awaitingData
      ensures chunk.PulseChunk? && !Seen(chunk.pulse) ==>
        var v := f(Mark(chunk.pulse, Unset));
        events == v.events &&
        (!v.pass ==> c == Done(None) && output == old(output) && !awaitingData) &&
        (v.pass ==>
          output == Buffered(old(output), old(ended), PulseChunk(v.pulse)) &&
          var refused := Refused(old(output), old(ended), PulseChunk(v.pulse), highWaterMark);
          awaitingData == refused &&
          c == if refused then Deferred else Done(None))
      ensures !chunk.PulseChunk? ==>
        var err := Failure("incompatible Pulse received in Dataflow", id, None);
        var sent := PulseChunk(ErrorPulse(id, err));
        events == [] && !awaitingData &&
        output == Buffered(old(output), old(ended), sent) &&
        c == if Refused(old(output), old(ended), sent, highWaterMark)
             then Escaped(PushFailure(id)) else Done(Some(err))
    {
      events := [];
      if chunk.PulseChunk? {
        var p := chunk.pulse;
        if Seen(p) {
          c := Done(None);
          return;
        }
        var v := f(Mark(p, Unset));
        events := v.events;
        if v.pass {
          var pushed := Push(PulseChunk(v.pulse));
          if pushed.Throw? {
            // the stream asks for a read and completes on the next 'data'
            awaitingData := true;
            c := Deferred;
          } else {
            c := Done(None);
          }
        } else {
          c := Done(None);
        }
      } else {
        var r := Error(Failure("incompatible Pulse received in Dataflow", id, None));
        c := if r.Ok? then Done(Some(r.value)) else Escaped(r.error);
      }
    }

    /** The stream machinery: the next written chunk goes through
        `_transform` with this node's filter, unless a deferred completion
        is still waiting, so that at most one chunk is in flight. */
    method Step() returns (c: Option<Completion>)
      modifies this`input, this`output, this`ended, this`awaitingData
      ensures old(awaitingData) || old(input) == [] ==>
        c.None? && input == old(input) && output == old(output) && awaitingData == old(awaitingData)
      ensures !old(awaitingData) && old(input) != [] ==> c.Some? && input == old(input)[1..]
      ensures ended == old(ended)
      ensures !old(awaitingData) && old(input) != [] && old(input)[0].PulseChunk? &&
              Seen(old(input)[0].pulse) ==>
        c == Some(Done(None)) && output == old(output) && !awaitingData
      ensures !old(awaitingData) && old(input) != [] && old(input)[0].PulseChunk? &&
              !Seen(old(input)[0].pulse) ==>
        var q := Mark(old(input)[0].pulse, Unset);
        (!filter(q) ==> c == Some(Done(None)) && output == old(output) && !awaitingData) &&
        (filter(q) ==>
          output == Buffered(old(output), old(ended), PulseChunk(q)) &&
          var refused := Refused(old(output), old(ended), PulseChunk(q), highWaterMark);
          awaitingData == refused && c == Some(if refused then Deferred else Done(None)))
      ensures !old(awaitingData) && old(input) != [] && !old(input)[0].PulseChunk? ==>
        var err := Failure("incompatible Pulse received in Dataflow", id, None);
        var sent := PulseChunk(ErrorPulse(id, err));
        !awaitingData && output == Buffered(old(output), old(ended), sent) &&
        c == Some(if Refused(old(output), old(ended), sent, highWaterMark)
                  then Escaped(PushFailure(id)) else Done(Some(err)))
    {
      if awaitingData || input == [] {
        return None;
      }
      var chunk := input[0];
      input := input[1..];
      var keep := filter;
      var lifted: Pulse -> Verdict<()> := (p: Pulse) => Verdict(keep(p), p, []);
      if chunk.PulseChunk? {
        ghost var q := Mark(chunk.pulse, Unset);
        assert lifted(q) == Verdict(filter(q), q, []);
      }
      var done, _ := Transform(chunk, lifted);
      c := Some(done);
    }

    /** A consumer reads one chunk, firing `'data'`: a completion deferred
        by a refused push finishes with `done(null, e.chunk)`, and since
        `e.chunk` is never set nothing is pushed again. */
    method Read() returns (chunk: Option<Chunk>, resumed: Option<Completion>)
      modifies this`output, this`awaitingData
      ensures old(output) == [] ==>
        chunk.None? && resumed.None? && output == [] && awaitingData == old(awaitingData)
      ensures old(output) != [] ==>
        chunk == Some(old(output)[0]) && output == old(output)[1..] && !awaitingData &&
        resumed == if old(awaitingData) then Some(Done(None)) else None
    {
      if output == [] {
        return None, None;
      }
      chunk := Some(output[0]);
      output := output[1..];
      resumed := if awaitingData then Some(Done(None)) else None;
      awaitingData := false;
    }

    /** `pipe(dest)`: returns the destination. */
    method Pipe(dest: Dataflow) returns (d: Dataflow)
      modifies this`pipes
      ensures pipes == old(pipes) + [dest.id] && d == dest
    {
      pipes := pipes + [dest.id];
      d := dest;
    }

    /** `unpipe(dest)`: an absent destination is ignored. */
    method Unpipe(dest: Dataflow)
      modifies this`pipes
      ensures pipes == RemoveFirst(old(pipes), dest.id)
    {
      pipes := RemoveFirst(pipes, dest.id);
    }

    /** `link(flow)`: pipes both ways. */
    method Link(flow: Dataflow)
      modifies this`pipes, flow`pipes
      ensures flow != this ==> pipes == old(pipes) + [flow.id] && flow.pipes == old(flow.pipes) + [id]
      ensures flow == this ==> pipes == old(pipes) + [id, id]
    {
      var _ := Pipe(flow);
      var _ := flow.Pipe(this);
    }

    /** `unlink(flow)`: unpipes both ways. */
    method Unlink(flow: Dataflow)
      modifies this`pipes, flow`pipes
      ensures flow != this ==>
        pipes == RemoveFirst(old(pipes), flow.id) && flow.pipes == RemoveFirst(old(flow.pipes), id)
      ensures flow == this ==> pipes == RemoveFirst(RemoveFirst(old(pipes), id), id)
    {
      Unpipe(flow);
      flow.Unpipe(this);
    }

    /** `chain(f1, …, fn)`: each stream of `this, f1, …, fn` pipes into the
        next and `fn` pipes back into this, so every stream of the ring gains
        exactly the pipes to its successors on it.  With no flows this pipes
        into itself. */
    method Chain(flows: seq<Dataflow>)
      modifies this`pipes, (set f | f in flows)`pipes
      ensures forall o :: o in [this] + flows + [this] ==>
        o.pipes == old(o.pipes) + Successors([this] + flows + [this], o)
    {
      ghost var ring := [this] + flows + [this];
      var tail := PipeThrough(flows, ring);
      SuccessorsStep(ring, |flows|);
      var _ := tail.Pipe(this);
      assert ring[..|flows| + 2] == ring;
    }

    /** The loop of `chain`: every pipe along the ring but the closing one. */
    method PipeThrough(flows: seq<Dataflow>, ghost ring: seq<Dataflow>) returns (tail: Dataflow)
      requires ring == [this] + flows + [this]
      modifies this`pipes, (set f | f in flows)`pipes
      ensures tail == ring[|flows|] && (tail == this || tail in flows)
      ensures forall o :: o in ring ==> o.pipes == old(o.pipes) + Successors(ring[..|flows| + 1], o)
    {
      tail := this;
      var i := 0;
      while i < |flows|
        invariant 0 <= i <= |flows|
        invariant tail == ring[i] && (tail == this || tail in flows)
        invariant forall o :: o in ring ==> o.pipes == old(o.pipes) + Successors(ring[..i + 1], o)
      {
        SuccessorsStep(ring, i);
        assert flows[i] == ring[i + 1];
        tail := tail.Pipe(flows[i]);
        i := i + 1;
      }
    }
  }

  // -----------------------------------------------------------------------
  // The ring that chain builds
  // -----------------------------------------------------------------------

  /** The ids `o` pipes into along `path`: the id of the element after each
      occurrence of `o`, in order. */
  ghost function Successors(path: seq<Dataflow>, o: Dataflow): seq<NodeId>
    decreases |path|
  {
    if |path| < 2 then []
    else Successors(path[..|path| - 1], o)
         + (if path[|path| - 2] == o then [path[|path| - 1].id] else [])
  }

  lemma SuccessorsExtend(path: seq<Dataflow>, i: nat, o: Dataflow)
    requires i + 2 <= |path|
    ensures Successors(path[..i + 2], o)
            == Successors(path[..i + 1], o) + (if path[i] == o then [path[i + 1].id] else [])
  {
    assert path[..i + 2][..i + 1] == path[..i + 1];
  }

  /** One more pipe along the path: only the stream at `i` gains a
      successor. */
  lemma SuccessorsStep(path: seq<Dataflow>, i: nat)
    requires i + 2 <= |path|
    ensures Successors(path[..i + 2], path[i]) == Successors(path[..i + 1], path[i]) + [path[i + 1].id]
    ensures forall o :: o in path && o != path[i] ==> Successors(path[..i + 2], o) == Successors(path[..i + 1], o)
  {
    SuccessorsExtend(path, i, path[i]);
    forall o | o in path && o != path[i]
      ensures Successors(path[..i + 2], o) == Successors(path[..i + 1], o)
    {
      SuccessorsExtend(path, i, o);
    }
  }

  lemma {:induction false} SuccessorsOfAbsent(path: seq<Dataflow>, o: Dataflow)
    requires o !in path
    ensures Successors(path, o) == []
    decreases |path|
  {
    if |path| >= 2 {
      SuccessorsOfAbsent(path[..|path| - 1], o);
    }
  }

  /** When no stream occurs twice before the end of the path, the stream at
      position k pipes into exactly the one at k + 1. */
  lemma {:induction false} SuccessorsOfDistinct(path: seq<Dataflow>, k: nat)
    requires k + 1 < |path|
    requires forall i, j :: 0 <= i < j < |path| - 1 ==> path[i] != path[j]
    ensures Successors(path, path[k]) == [path[k + 1].id]
    decreases |path|
  {
    var n := |path|;
    var front := path[..n - 1];
    if k == n - 2 {
      assert path[k] !in path[..n - 2];
      assert front[..|front| - 1] == path[..n - 2];
      SuccessorsOfAbsent(path[..n - 2], path[k]);
      assert Successors(front, path[k]) == [] by {
        if |front| >= 2 {
          assert front[|front| - 2] != path[k];
        }
      }
    } else {
      assert front[k] == path[k] && front[k + 1] == path[k + 1];
      SuccessorsOfDistinct(front, k);
      assert path[n - 2] != path[k];
    }
  }

  /** `chain(f1, …, fn)` over distinct streams, none of them this one,
      closes the ring this → f1 → … → fn → this. */
  lemma ChainClosesRing(self: Dataflow, flows: seq<Dataflow>, k: nat)
    requires self !in flows
    requires forall i, j :: 0 <= i < j < |flows| ==> flows[i] != flows[j]
    requires k <= |flows|
    ensures var ring := [self] + flows + [self];
      Successors(ring, ring[k]) == [ring[k + 1].id]
  {
    var ring := [self] + flows + [self];
    forall i, j | 0 <= i < j < |ring| - 1 ensures ring[i] != ring[j] {
      if i == 0 {
        assert ring[j] == flows[j - 1];
      } else {
        assert ring[i] == flows[i - 1] && ring[j] == flows[j - 1];
      }
    }
    SuccessorsOfDistinct(ring, k);
  }

  // -----------------------------------------------------------------------
  // Once-only delivery around a ring
  // -----------------------------------------------------------------------

  predicate NoDuplicates(s: seq<NodeId>) {
    forall i, j :: 0 <= i < j < |s| ==> s[i] != s[j]
  }

  /** The members of the ring that have not yet seen the pulse. */
  function Unvisited(ring: seq<NodeId>, p: Pulse): set<NodeId> {
    set n | n in ring && !p.Has(n)
  }

  lemma TagShrinksUnvisited(ring: seq<NodeId>, p: Pulse, n: NodeId)
    requires n in ring && !p.Has(n)
    ensures Unvisited(ring, p.Tag(n, Unset)) == Unvisited(ring, p) - {n}
    ensures |Unvisited(ring, p.Tag(n, Unset))| < |Unvisited(ring, p)|
  {
    var before, after := Unvisited(ring, p), Unvisited(ring, p.Tag(n, Unset));
    assert after == before - {n};
    assert before == after + {n};
  }

  /** One pulse sent round a ring of streams wired by `chain`, starting at
      position `pos`: each stream runs `_transform` on it, dropping it if it
      has seen it, and otherwise tagging it and forwarding it to the next
      stream when its filter (`accepts`) passes it.  The result lists the
      streams that handled the pulse, in order. */
  function Circulate(ring: seq<NodeId>, pos: nat, p: Pulse, accepts: (NodeId, Pulse) -> bool)
    : (handled: seq<NodeId>)
    requires |ring| > 0
    ensures NoDuplicates(handled)
    ensures forall n :: n in handled ==> n in Unvisited(ring, p)
    ensures |handled| <= |Unvisited(ring, p)|
    decreases |Unvisited(ring, p)|
  {
    var n := ring[pos % |ring|];
    if p.Has(n) then []
    else
      var q := p.Tag(n, Unset);
      TagShrinksUnvisited(ring, p, n);
      if !accepts(n, q) then [n]
      else
        var rest := Circulate(ring, pos + 1, q, accepts);
        assert n !in rest;
        assert forall m :: m in rest ==> m in Unvisited(ring, p) - {n};
        SubsetSize((set m | m in rest), Unvisited(ring, p) - {n}, rest);
        [n] + rest
  }

  lemma SubsetSize(a: set<NodeId>, b: set<NodeId>, s: seq<NodeId>)
    requires a <= b && a == set m | m in s
    requires NoDuplicates(s)
    ensures |s| <= |b|
  {
    DistinctCardinality(s);
    assert |a| <= |b| by { SubsetCardinality(a, b); }
  }

  lemma SubsetCardinality(a: set<NodeId>, b: set<NodeId>)
    requires a <= b
    ensures |a| <= |b|
  {
    assert b == a + (b - a);
  }

  lemma {:induction false} DistinctCardinality(s: seq<NodeId>)
    requires NoDuplicates(s)
    ensures |set m | m in s| == |s|
  {
    if s != [] {
      var front := s[..|s| - 1];
      DistinctCardinality(front);
      assert (set m | m in s) == (set m | m in front) + {s[|s| - 1]};
      assert s[|s| - 1] !in front;
    }
  }

  // -----------------------------------------------------------------------
  // The io adapter: a pulse side and a newline-delimited text side
  // -----------------------------------------------------------------------

  /** `buffer.split(/\r?\n/)`: the pieces between line feeds, each but the
      last losing one carriage return just before its line feed. */
  function SplitLines(s: string): (lines: seq<string>)
    ensures |lines| == |Split(s, '\n')| >= 1
    ensures lines[|lines| - 1] == Split(s, '\n')[|lines| - 1]
  {
    var parts := Split(s, '\n');
    seq(|parts|, i requires 0 <= i < |parts| =>
      if i < |parts| - 1 && parts[i] != [] && parts[i][|parts[i]| - 1] == '\r'
      then parts[i][..|parts[i]| - 1] else parts[i])
  }

  /** The last piece of a split is the text after the last line feed, or
      all of it when there is none. */
  lemma {:induction false} LastPieceIsTail(s: string)
    ensures var last := Split(s, '\n')[|Split(s, '\n')| - 1];
      '\n' !in last && |last| <= |s| && last == s[|s| - |last|..] &&
      (last != s ==> s[|s| - |last| - 1] == '\n')
    decreases |s|
  {
    if '\n' in s {
      var i := IndexOf(s, '\n');
      LastPieceIsTail(s[i + 1..]);
    }
  }

  /** The complete lines a chunk finishes, and the text kept for the next
      chunk. */
  function CompleteLines(buffer: string): seq<string> {
    SplitLines(buffer)[..|SplitLines(buffer)| - 1]
  }

  function Remainder(buffer: string): string {
    SplitLines(buffer)[|SplitLines(buffer)| - 1]
  }

  /** `lines.filter(Boolean)` followed by decoding each trimmed line. */
  function DecodeLines(lines: seq<string>, decode: string -> Result<Pulse, string>)
    : (results: seq<Result<Pulse, string>>)
    ensures |results| <= |lines|
    ensures (forall i :: 0 <= i < |lines| ==> lines[i] != "") ==>
      |results| == |lines| && forall i :: 0 <= i < |lines| ==> results[i] == decode(Trim(lines[i]))
    ensures (forall i :: 0 <= i < |lines| ==> lines[i] == "") ==> results == []
  {
    if lines == [] then []
    else if lines[0] == "" then DecodeLines(lines[1..], decode)
    else [decode(Trim(lines[0]))] + DecodeLines(lines[1..], decode)
  }

  /** Decoding distributes over the lines: the lines of `a` are decoded
      before those of `b`. */
  lemma {:induction false} DecodeLinesAppend(a: seq<string>, b: seq<string>,
                                             decode: string -> Result<Pulse, string>)
    ensures DecodeLines(a + b, decode) == DecodeLines(a, decode) + DecodeLines(b, decode)
    decreases |a|
  {
    if a == [] {
      assert a + b == b;
    } else {
      assert (a + b)[0] == a[0];
      assert (a + b)[1..] == a[1..] + b;
      DecodeLinesAppend(a[1..], b, decode);
    }
  }

  /** `lines.filter(Boolean)`, as an independent reference. */
  function NonEmptyLines(lines: seq<string>): (kept: seq<string>)
    ensures forall l :: l in kept <==> l in lines && l != ""
  {
    if lines == [] then []
    else (if lines[0] == "" then [] else [lines[0]]) + NonEmptyLines(lines[1..])
  }

  /** Decoding is filter-then-map: the i-th result is the decoding of the
      i-th non-empty line, trimmed. */
  lemma {:induction false} DecodeLinesIsFilterThenMap(lines: seq<string>,
                                                      decode: string -> Result<Pulse, string>)
    ensures DecodeLines(lines, decode) == DecodeEach(NonEmptyLines(lines), decode)
    decreases |lines|
  {
    if lines != [] {
      DecodeLinesIsFilterThenMap(lines[1..], decode);
      var kept := NonEmptyLines(lines[1..]);
      if lines[0] != "" {
        assert NonEmptyLines(lines) == [lines[0]] + kept;
        assert ([lines[0]] + kept)[1..] == kept;
        assert DecodeEach([lines[0]] + kept, decode) == [decode(Trim(lines[0]))] + DecodeEach(kept, decode);
      } else {
        assert NonEmptyLines(lines) == [] + kept == kept;
      }
    }
  }

  /** Trimming and decoding each of the given lines, in order. */
  function DecodeEach(ls: seq<string>, decode: string -> Result<Pulse, string>)
    : (results: seq<Result<Pulse, string>>)
    ensures |results| == |ls|
  {
    if ls == [] then [] else [decode(Trim(ls[0]))] + DecodeEach(ls[1..], decode)
  }

  /** The i-th result of `DecodeEach` is the i-th line, trimmed and
      decoded. */
  lemma {:induction false} DecodeEachAt(ls: seq<string>, decode: string -> Result<Pulse, string>, i: nat)
    requires i < |ls|
    ensures DecodeEach(ls, decode)[i] == decode(Trim(ls[i]))
    decreases i
  {
    var rest := DecodeEach(ls[1..], decode);
    if i > 0 {
      DecodeEachAt(ls[1..], decode, i - 1);
      assert ls[1..][i - 1] == ls[i];
      assert DecodeEach(ls, decode)[i] == rest[i - 1];
    }
  }

  /** The pulses the text side writes into the wrapped stream: each decoded
      pulse, marked with the adapter's id. */
  function Written(results: seq<Result<Pulse, string>>, wrapperId: NodeId): seq<Chunk> {
    if results == [] then []
    else (if results[0].Ok? then [PulseChunk(results[0].value.Tag(wrapperId, Unset))] else [])
         + Written(results[1..], wrapperId)
  }

  /** The `'error'` pulses the wrapped stream sends for the lines that fail
      to decode. */
  function Reported(results: seq<Result<Pulse, string>>, origin: NodeId): seq<Chunk> {
    if results == [] then []
    else (if results[0].Throw?
          then [PulseChunk(ErrorPulse(origin, Failure(results[0].error, origin, None)))] else [])
         + Reported(results[1..], origin)
  }

  lemma WrittenSnoc(results: seq<Result<Pulse, string>>, r: Result<Pulse, string>, w: NodeId, o: NodeId)
    ensures Written(results + [r], w) == Written(results, w)
              + (if r.Ok? then [PulseChunk(r.value.Tag(w, Unset))] else [])
    ensures Reported(results + [r], o) == Reported(results, o)
              + (if r.Throw? then [PulseChunk(ErrorPulse(o, Failure(r.error, o, None)))] else [])
  {
    if results != [] {
      assert (results + [r])[1..] == results[1..] + [r];
      WrittenSnoc(results[1..], r, w, o);
    }
  }

  /** The pulses written and the errors reported for one more line. */
  lemma WrittenStep(results: seq<Result<Pulse, string>>, i: nat, w: NodeId, o: NodeId)
    requires i < |results|
    ensures Written(results[..i + 1], w) == Written(results[..i], w)
              + (if results[i].Ok? then [PulseChunk(results[i].value.Tag(w, Unset))] else [])
    ensures Reported(results[..i + 1], o) == Reported(results[..i], o)
              + (if results[i].Throw? then [PulseChunk(ErrorPulse(o, Failure(results[i].error, o, None)))] else [])
  {
    assert results[..i + 1] == results[..i] + [results[i]];
    WrittenSnoc(results[..i], results[i], w, o);
  }

  /** Every pulse the text side writes carries the adapter's id, so when it
      comes back out of the wrapped stream the adapter does not encode it
      again. */
  lemma {:induction false} WrittenAreSeen(results: seq<Result<Pulse, string>>, w: NodeId, k: nat)
    requires k < |Written(results, w)|
    ensures Written(results, w)[k].PulseChunk? && Written(results, w)[k].pulse.Has(w)
  {
    if results != [] {
      var head := if results[0].Ok? then [PulseChunk(results[0].value.Tag(w, Unset))] else [];
      if k >= |head| {
        WrittenAreSeen(results[1..], w, k - |head|);
      }
    }
  }

  /** The `io` getter: a wrapper Dataflow around `wrapped`, which pipes into
      it.  Its transform turns unseen pulses into text lines and text into
      pulses, keeping a partial line in `buffer`. */
  class IoAdapter {
    const wrapped: Dataflow
    const wrapper: Dataflow
    var buffer: string

    constructor (wrapped: Dataflow, wrapperId: NodeId)
      modifies wrapped`pipes
      ensures this.wrapped == wrapped && fresh(wrapper) && wrapper.id == wrapperId
      ensures wrapped.pipes == old(wrapped.pipes) + [wrapperId]
      ensures buffer == "" && wrapper.output == [] && !wrapper.ended
    {
      this.wrapped := wrapped;
      var w := new Dataflow(wrapperId, None, false, None);
      this.wrapper := w;
      buffer := "";
      new;
      var _ := wrapped.Pipe(w);
    }

    /** The wrapper's transform.
        - A pulse the wrapper has not seen is encoded, and a non-empty
          encoding is pushed; a seen pulse is ignored.
        - Text is appended to the buffer; the text after the last line feed
          stays in the buffer; each non-empty complete line is trimmed and
          decoded, and the pulse is marked by the wrapper and written into
          the wrapped stream, while a line that fails to decode makes the
          wrapped stream report an error and processing goes on with the
          next line.  An exception from a refused push escapes. */
    method Transform(chunk: Chunk, decode: string -> Result<Pulse, string>,
                     encode: Pulse -> Option<string>)
      returns (c: Completion, ghost handled: nat)
      requires !chunk.End?
      requires wrapped != wrapper
      modifies this`buffer, wrapper`output, wrapper`ended, wrapped`input, wrapped`output, wrapped`ended
      ensures chunk.PulseChunk? ==>
        buffer == old(buffer) && wrapped.input == old(wrapped.input) &&
        wrapped.output == old(wrapped.output) &&
        var kson := encode(chunk.pulse);
        if wrapper.Seen(chunk.pulse) || kson.None? || kson.value == "" then
          c == Done(None) && wrapper.output == old(wrapper.output)
        else
          wrapper.output == Buffered(old(wrapper.output), old(wrapper.ended), Text(kson.value)) &&
          c == if Refused(old(wrapper.output), old(wrapper.ended), Text(kson.value), wrapper.highWaterMark)
               then Escaped(PushFailure(wrapper.id)) else Done(None)
      ensures chunk.Text? ==>
        var all := old(buffer) + chunk.text;
        var results := DecodeLines(CompleteLines(all), decode);
        buffer == Remainder(all) && handled <= |results| &&
        wrapper.output == old(wrapper.output) &&
        wrapped.input == old(wrapped.input) + Written(results[..handled], wrapper.id) &&
        (c.Escaped? || (c == Done(None) && handled == |results| &&
                        wrapped.output == old(wrapped.output) + Reported(results, wrapped.id)))
    {
      if chunk.PulseChunk? {
        c := EncodePulse(chunk.pulse, encode);
        handled := 0;
      } else {
        var all := buffer + chunk.text;
        buffer := Remainder(all);
        c, handled := DecodeText(DecodeLines(CompleteLines(all), decode));
      }
    }

    /** The pulse side: an unseen pulse with a non-empty encoding is pushed
        as a line of text. */
    method EncodePulse(p: Pulse, encode: Pulse -> Option<string>) returns (c: Completion)
      modifies wrapper`output, wrapper`ended
      ensures wrapper.ended == old(wrapper.ended)
      ensures var kson := encode(p);
        if wrapper.Seen(p) || kson.None? || kson.value == "" then
          c == Done(None) && wrapper.output == old(wrapper.output)
        else
          wrapper.output == Buffered(old(wrapper.output), old(wrapper.ended), Text(kson.value)) &&
          c == if Refused(old(wrapper.output), old(wrapper.ended), Text(kson.value), wrapper.highWaterMark)
               then Escaped(PushFailure(wrapper.id)) else Done(None)
    {
      c := Done(None);
      if !wrapper.Seen(p) {
        var kson := encode(p);
        if kson.Some? && kson.value != "" {
          var r := wrapper.Push(Text(kson.value));
          if r.Throw? {
            c := Escaped(r.error);
          }
        }
      }
    }

    /** The text side, once the lines are decoded: each pulse, marked by the
        wrapper, is written into the wrapped stream; each failure makes the
        wrapped stream report an error, and the loop goes on, unless that
        report's push throws. */
    method DecodeText(results: seq<Result<Pulse, string>>) returns (c: Completion, ghost handled: nat)
      requires wrapped != wrapper
      modifies wrapped`input, wrapped`output, wrapped`ended
      ensures handled <= |results|
      ensures wrapped.input == old(wrapped.input) + Written(results[..handled], wrapper.id)
      ensures c.Escaped? || (c == Done(None) && handled == |results| &&
                             wrapped.output == old(wrapped.output) + Reported(results, wrapped.id))
    {
      var i := 0;
      ghost var written, reported := [], [];
      while i < |results|
        invariant i <= |results|
        invariant written == Written(results[..i], wrapper.id)
        invariant reported == Reported(results[..i], wrapped.id)
        invariant wrapped.input == old(wrapped.input) + written
        invariant wrapped.output == old(wrapped.output) + reported
      {
        var r := results[i];
        WrittenStep(results, i, wrapper.id, wrapped.id);
        written := written + (if r.Ok? then [PulseChunk(r.value.Tag(wrapper.id, Unset))] else []);
        reported := reported
          + (if r.Throw? then [PulseChunk(ErrorPulse(wrapped.id, Failure(r.error, wrapped.id, None)))] else []);
        var thrown := DecodeOne(r);
        if thrown.Some? {
          handled := i + 1;
          c := Escaped(thrown.value);
          return;
        }
        i := i + 1;
      }
      handled := i;
      assert results[..i] == results;
      c := Done(None);
    }

    /** One decoded line: a pulse is written into the wrapped stream, a
        failure is reported by it, and the failure of that report's push is
        returned. */
    method DecodeOne(r: Result<Pulse, string>) returns (thrown: Option<Failure>)
      requires wrapped != wrapper
      modifies wrapped`input, wrapped`output, wrapped`ended
      ensures wrapped.input == old(wrapped.input)
                + (if r.Ok? then [PulseChunk(r.value.Tag(wrapper.id, Unset))] else [])
      ensures thrown.None? ==>
        wrapped.output == old(wrapped.output)
          + (if r.Throw? then [PulseChunk(ErrorPulse(wrapped.id, Failure(r.error, wrapped.id, None)))] else [])
    {
      thrown := None;
      if r.Ok? {
        wrapped.Write(PulseChunk(wrapper.Mark(r.value, Unset)));
      } else {
        var e := wrapped.Error(Failure(r.error, wrapped.id, None));
        if e.Throw? {
          thrown := Some(e.error);
        }
      }
    }
  }
}
