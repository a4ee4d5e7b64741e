/**
 * The connection to the manager: it keeps the unframed tail of the stream,
 * the table of pending requests and whether it was closed. Reads are framed,
 * parsed and routed (`DataReceived`), requests are filed and written
 * (`Send`), and the transport is closed at most once (`Close`,
 * `ConnectionLost`).
 *
 * The transport and the dispatcher are seen only through ghost logs: the
 * texts written, the number of times the transport was closed, and the
 * messages dispatched and delivered to requests.
 */
module Protocol {
  import opened Wrappers
  import opened Framing
  import opened Routing

  /** What the one-slot queue holds in front of a new read: its item, or nothing. */
  function Pending(queue: Option<string>): string
  {
    if queue.Some? then queue.value else ""
  }

  /** The remainder put back in the queue and what the read's frames did. */
  datatype FeedResult = FeedResult(remainder: string, progress: Progress)

  /**
   * One read: the queued remainder and the chunk are joined, cut into
   * frames, the last piece goes back into the queue and the frames are
   * routed in order, stopping at the first that raises.
   */
  function Feed(queue: Option<string>, st: EngineState, chunk: string, parse: Parser, complete: Completion): FeedResult
  {
    var data := Pending(queue) + chunk;
    FeedResult(Remainder(data), Run(st, Frames(data), parse, complete))
  }

  /**
   * What one read promises: the remainder holds no delimiter; the frames,
   * each followed by the delimiter, and then the remainder give back exactly
   * the queued text and the chunk; the engine state only evolves.
   */
  lemma FeedSound(queue: Option<string>, st: EngineState, chunk: string, parse: Parser, complete: Completion)
    ensures var r := Feed(queue, st, chunk, parse, complete);
            !HasDelimiter(r.remainder)
            && Terminated(Frames(Pending(queue) + chunk)) + r.remainder == Pending(queue) + chunk
            && Evolves(st, r.progress.state)
  {
    var data := Pending(queue) + chunk;
    SplitSound(data);
    RunEvolves(st, Frames(data), parse, complete);
  }

  /**
   * Chunk boundaries do not matter: reading `a` and then `b` routes the same
   * frames and leaves the same remainder as reading `a + b` at once, as long
   * as no frame of `a` raised (an exception drops the rest of its read).
   */
  lemma FeedTwice(queue: Option<string>, st: EngineState, a: string, b: string, parse: Parser, complete: Completion)
    requires Feed(queue, st, a, parse, complete).progress.Continue?
    ensures var first := Feed(queue, st, a, parse, complete);
            Feed(Some(first.remainder), first.progress.state, b, parse, complete) == Feed(queue, st, a + b, parse, complete)
  {
    var data := Pending(queue) + a;
    var rest := Remainder(data) + b;
    FeedUnfold(queue, st, a, parse, complete);
    var mid := Run(st, Frames(data), parse, complete);
    FeedUnfold(Some(Remainder(data)), mid.state, b, parse, complete);
    FeedUnfold(queue, st, a + b, parse, complete);
    JoinedFrames(queue, a, b);
    RunsJoin(st, Frames(data), Frames(rest), Frames(Pending(queue) + (a + b)), parse, complete);
  }

  /** Routing two lists of frames one after the other is routing their concatenation, unless the first raises. */
  lemma RunsJoin(st: EngineState, first: seq<string>, second: seq<string>, both: seq<string>, parse: Parser, complete: Completion)
    requires both == first + second
    ensures Run(st, first, parse, complete).Continue? ==>
              Run(st, both, parse, complete) == Run(Run(st, first, parse, complete).state, second, parse, complete)
    ensures Run(st, first, parse, complete).Raised? ==> Run(st, both, parse, complete) == Run(st, first, parse, complete)
  {
    RunAppend(st, first, second, parse, complete);
  }

  /** Feed, written out. */
  lemma FeedUnfold(queue: Option<string>, st: EngineState, chunk: string, parse: Parser, complete: Completion)
    ensures Feed(queue, st, chunk, parse, complete)
            == FeedResult(Remainder(Pending(queue) + chunk), Run(st, Frames(Pending(queue) + chunk), parse, complete))
  {
  }

  /**
   * An exception in the first read is not undone by the second: the frames
   * of `a` after the failing one are lost, whereas one read of `a + b` stops
   * at the same frame and never routes `b` at all.
   */
  lemma FeedRaisedStopsTheJoinedRead(queue: Option<string>, st: EngineState, a: string, b: string, parse: Parser, complete: Completion)
    requires Feed(queue, st, a, parse, complete).progress.Raised?
    ensures Feed(queue, st, a + b, parse, complete).progress == Feed(queue, st, a, parse, complete).progress
  {
    var data := Pending(queue) + a;
    FeedUnfold(queue, st, a, parse, complete);
    FeedUnfold(queue, st, a + b, parse, complete);
    JoinedFrames(queue, a, b);
    RunsJoin(st, Frames(data), Frames(Remainder(data) + b), Frames(Pending(queue) + (a + b)), parse, complete);
  }

  /** The frames of a joined read are the first read's frames and then those of its remainder and the second chunk. */
  lemma JoinedFrames(queue: Option<string>, a: string, b: string)
    ensures var data := Pending(queue) + a;
            Frames(Pending(queue) + (a + b)) == Frames(data) + Frames(Remainder(data) + b)
            && Remainder(Pending(queue) + (a + b)) == Remainder(Remainder(data) + b)
  {
    assert Pending(queue) + (a + b) == (Pending(queue) + a) + b;
    ChunkBoundary(Pending(queue) + a, b);
  }

  /**
   * A read of nothing routes nothing: the queued text holds no delimiter, so
   * it goes back into the queue whole and the table and logs stay as they
   * were.
   */
  lemma FeedEmpty(queue: Option<string>, st: EngineState, parse: Parser, complete: Completion)
    requires queue.Some? ==> !HasDelimiter(queue.value)
    ensures Feed(queue, st, "", parse, complete) == FeedResult(Pending(queue), Continue(st))
  {
    assert Pending(queue) + "" == Pending(queue);
    assert !HasDelimiter(Pending(queue));
    NoDelimiter(Pending(queue));
    FeedUnfold(queue, st, "", parse, complete);
  }

  /**
   * A response read in one piece completes the request it answers: after a
   * request with identifier "42" is filed, the text
   * "Response: Success\r\nActionID: 42" followed by a blank line is
   * delivered to that request, which leaves the table, and nothing is left
   * over.
   */
  lemma ResponseRoundTrip(chunk: string, req: Request, m: Message, parse: Parser, complete: Completion)
    requires chunk == "Response: Success\r\nActionID: 42\r\n\r\n"
    requires req.id == "42"
    requires parse("Response: Success" + EOL + "ActionID: 42") == Some(m)
    requires m.id == Some("42") && !HasCommandId(m) && complete(req, m)
    ensures Feed(Some(""), EngineState(map["42" := req], [], []), chunk, parse, complete)
            == FeedResult("", Continue(EngineState(map[], [], [Delivery(req, m, true)])))
  {
    OneEolNoDelimiter("Response: Success", "ActionID: 42");
    ResponseStep("Response: Success" + EOL + "ActionID: 42", chunk, req, m, parse, complete);
  }

  lemma ResponseStep(frame: string, chunk: string, req: Request, m: Message, parse: Parser, complete: Completion)
    requires !HasDelimiter(frame) && |frame| > 0 && frame[|frame| - 1] != '\n'
    requires !IsSpace(frame[0]) && !IsSpace(frame[|frame| - 1])
    requires "" + chunk == frame + Delimiter
    requires req.id == "42" && parse(frame) == Some(m)
    requires m.id == Some("42") && !HasCommandId(m) && complete(req, m)
    ensures Feed(Some(""), EngineState(map["42" := req], [], []), chunk, parse, complete)
            == FeedResult("", Continue(EngineState(map[], [], [Delivery(req, m, true)])))
  {
    var st := EngineState(map["42" := req], [], []);
    var done := EngineState(map[], [], [Delivery(req, m, true)]);
    OneFrame(frame, chunk, "");
    assert Frames(chunk) == [frame] && Remainder(chunk) == "" by {
      assert "" + chunk == chunk;
    }
    FeedUnfold(Some(""), st, chunk, parse, complete);
    assert Feed(Some(""), st, chunk, parse, complete) == FeedResult("", Run(st, [frame], parse, complete));
    StepCompletesOnce(st, frame, parse, complete, m);
    StepRoutesToRequest(st, frame, parse, complete, m, "42");
    assert st.responses - {"42"} == map[];
    assert Step(st, frame, parse, complete) == Continue(done);
    assert Run(st, [frame], parse, complete) == Step(st, frame, parse, complete);
  }

  /**
   * A text that is one delimiter-free frame not ending in an end of line,
   * its blank line and nothing more is that one frame, stripped to itself.
   */
  lemma OneFrame(frame: string, chunk: string, queued: string)
    requires !HasDelimiter(frame) && |frame| > 0 && frame[|frame| - 1] != '\n'
    requires !IsSpace(frame[0]) && !IsSpace(frame[|frame| - 1])
    requires queued + chunk == frame + Delimiter
    ensures Frames(queued + chunk) == [frame] && Remainder(queued + chunk) == ""
    ensures Strip(frame) == frame
    ensures forall st: EngineState, parse: Parser, complete: Completion ::
              Run(st, [frame], parse, complete) == Step(st, frame, parse, complete)
  {
    ClosedByIff(frame);
    assert frame + Delimiter == Terminated([frame]) + "";
    SplitUnique([frame], "");
    forall st: EngineState, parse: Parser, complete: Completion
      ensures Run(st, [frame], parse, complete) == Step(st, frame, parse, complete)
    {
      assert [frame][..0] == [];
    }
  }

  /**
   * An event split across two reads is dispatched once, when its blank line
   * arrives: "Event: FullyBoo" is only kept, and "ted" plus the blank line
   * completes the frame "Event: FullyBooted".
   */
  lemma FragmentedEvent(a: string, b: string, st: EngineState, m: Message, parse: Parser, complete: Completion)
    requires a == "Event: FullyBoo" && b == "ted\r\n\r\n"
    requires parse("Event: FullyBooted") == Some(m) && IsEvent(m)
    requires !HasCommandId(m) && (m.id.None? || m.id.value !in st.responses)
    ensures Feed(None, st, a, parse, complete) == FeedResult(a, Continue(st))
    ensures Feed(Some(a), st, b, parse, complete) == FeedResult("", Continue(st.(dispatched := st.dispatched + [m])))
  {
    NoCarriageReturn(a);
    NoCarriageReturn("Event: FullyBooted");
    EventStep(a, b, "Event: FullyBooted", st, m, parse, complete);
  }

  lemma EventStep(a: string, b: string, frame: string, st: EngineState, m: Message, parse: Parser, complete: Completion)
    requires !HasDelimiter(a) && !HasDelimiter(frame) && |frame| > 0 && frame[|frame| - 1] != '\n'
    requires !IsSpace(frame[0]) && !IsSpace(frame[|frame| - 1])
    requires a + b == frame + Delimiter
    requires parse(frame) == Some(m) && IsEvent(m)
    requires !HasCommandId(m) && (m.id.None? || m.id.value !in st.responses)
    ensures Feed(None, st, a, parse, complete) == FeedResult(a, Continue(st))
    ensures Feed(Some(a), st, b, parse, complete) == FeedResult("", Continue(st.(dispatched := st.dispatched + [m])))
  {
    assert Pending(None) + a == a;
    NoDelimiter(a);
    FeedUnfold(None, st, a, parse, complete);
    OneFrame(frame, b, a);
    FeedUnfold(Some(a), st, b, parse, complete);
    StepUnclaimed(st, frame, parse, complete, m);
  }

  /**
   * The connection (`connection_made` to `close`). `queue` is the one-slot
   * queue of the unframed remainder, `responses` the pending-request table.
   */
  class Connection {
    var closed: bool
    var queue: Option<string>
    var responses: map<string, Request>
    /** Messages handed to the dispatcher, in order. */
    ghost var dispatched: seq<Message>
    /** Calls of a request's `add_message`, in order. */
    ghost var delivered: seq<Delivery>
    /** Texts written to the transport, in order. */
    ghost var written: seq<string>
    /** How many times the transport was closed. */
    ghost var transportCloses: nat

    /**
     * What holds between calls: the queued remainder holds no delimiter
     * (it is always the last piece of a split) and every pending request is
     * filed under its own identifier.
     */
    ghost predicate Valid()
      reads this
    {
      (queue.Some? ==> !HasDelimiter(queue.value)) && WellKeyed(responses)
    }

    /** The part of the state that frames change. */
    ghost function State(): EngineState
      reads this
    {
      EngineState(responses, dispatched, delivered)
    }

    /** The part of the state that frames leave alone. */
    ghost function Surroundings(): (Option<string>, bool, seq<string>, nat)
      reads this
    {
      (queue, closed, written, transportCloses)
    }

    /** `connection_made`: open, nothing queued, nothing pending. */
    constructor ()
      ensures Valid()
      ensures !closed && queue == None && responses == map[]
      ensures dispatched == [] && delivered == [] && written == [] && transportCloses == 0
    {
      closed := false;
      queue := None;
      responses := map[];
      dispatched := [];
      delivered := [];
      written := [];
      transportCloses := 0;
    }

    /**
     * `send`: file the request under its identifier, replacing any request
     * filed there before and leaving every other entry alone, write its text
     * and hand back its completion handle.
     */
    method Send(data: Request) returns (future: nat)
      requires Valid()
      modifies this
      ensures Valid()
      ensures responses == old(responses)[data.id := data]
      ensures forall k :: k in old(responses) && k != data.id ==> k in responses && responses[k] == old(responses)[k]
      ensures written == old(written) + [data.serialized]
      ensures future == data.future
      ensures closed == old(closed) && queue == old(queue)
      ensures dispatched == old(dispatched) && delivered == old(delivered) && transportCloses == old(transportCloses)
    {
      responses := responses[data.id := data];
      written := written + [data.serialized];
      future := data.future;
    }

    /**
     * `data_received`: exactly what Feed describes. The queue ends up
     * holding one item, the remainder; the pending table and the logs are
     * what routing the read's frames in order made of them; an exception
     * raised by a frame is returned, and the frames after it are dropped.
     * Since the table is filed by identifier, a read whose frames carry no
     * `commandid` raises nothing.
     */
    method DataReceived(chunk: string, parse: Parser, complete: Completion) returns (raised: Option<Error>)
      requires Valid()
      modifies this`queue, this`responses, this`dispatched, this`delivered
      ensures Valid()
      ensures var f := Feed(old(queue), old(State()), chunk, parse, complete);
              queue == Some(f.remainder) && State() == f.progress.state
              && raised == (if f.progress.Raised? then Some(f.progress.error) else None)
      ensures chunk == "" ==> queue == Some(Pending(old(queue))) && State() == old(State()) && raised.None?
      ensures NoCommandIds(Frames(Pending(old(queue)) + chunk), parse) ==> raised.None?
      ensures closed == old(closed) && written == old(written) && transportCloses == old(transportCloses)
    {
      ghost var start := State();
      ghost var queued := queue;
      var lines := Reframe(chunk);
      FeedUnfold(queued, start, chunk, parse, complete);
      FeedKeepsValid(queued, start, chunk, parse, complete);
      if chunk == "" {
        FeedEmpty(queued, start, parse, complete);
      }
      if NoCommandIds(lines, parse) {
        RunCompletesAtMostOnce(start, lines, parse, complete);
      }
      raised := RouteFrames(lines, parse, complete);
    }

    /**
     * Lines 40-43 of `data_received`: the queued remainder and the chunk are
     * joined and split; the last piece goes back into the queue and the
     * other pieces are returned in order.
     */
    method Reframe(chunk: string) returns (lines: seq<string>)
      modifies this`queue
      ensures lines == Frames(Pending(old(queue)) + chunk)
      ensures queue == Some(Remainder(Pending(old(queue)) + chunk))
    {
      ghost var queued := queue;
      var data := chunk;
      if queue.Some? {
        data := queue.value + chunk;
        queue := None;
      }
      assert data == Pending(queued) + chunk;
      var pieces := Split(data);
      queue := Some(pieces[|pieces| - 1]);
      lines := pieces[..|pieces| - 1];
    }

    /**
     * The loop of `data_received` (lines 44-68): the frames in order, each
     * routed as Route does, until one raises.
     */
    method RouteFrames(lines: seq<string>, parse: Parser, complete: Completion) returns (raised: Option<Error>)
      modifies this`responses, this`dispatched, this`delivered
      ensures var p := Run(old(State()), lines, parse, complete);
              State() == p.state && raised == (if p.Raised? then Some(p.error) else None)
    {
      ghost var start := State();
      var i := 0;
      RunWhole(start, lines, parse, complete);
      while i < |lines|
        invariant 0 <= i <= |lines|
        invariant Run(start, lines[..i], parse, complete) == Continue(State())
      {
        var r := RouteNext(start, lines, i, parse, complete);
        if r.Some? {
          return r;
        }
        i := i + 1;
      }
      raised := None;
    }

    /**
     * One turn of the loop of `data_received`: frame `i` is routed; when it
     * raises, the whole loop ends with that outcome.
     */
    method RouteNext(ghost start: EngineState, lines: seq<string>, i: nat, parse: Parser, complete: Completion)
      returns (raised: Option<Error>)
      requires i < |lines|
      requires Run(start, lines[..i], parse, complete) == Continue(State())
      modifies this`responses, this`dispatched, this`delivered
      ensures raised.None? ==> Run(start, lines[..i + 1], parse, complete) == Continue(State())
      ensures raised.Some? ==> Run(start, lines, parse, complete) == Raised(State(), raised.value)
    {
      ghost var before := State();
      raised := Route(lines[i], parse, complete);
      RunAfterRoute(start, lines, i, before, State(), raised, parse, complete);
    }

    /** The loop of `data_received` starts on no frames and ends on all of them. */
    static lemma RunWhole(start: EngineState, lines: seq<string>, parse: Parser, complete: Completion)
      ensures Run(start, lines[..0], parse, complete) == Continue(start)
      ensures Run(start, lines[..|lines|], parse, complete) == Run(start, lines, parse, complete)
    {
      assert lines[..0] == [];
      assert lines[..|lines|] == lines;
    }

    /** What a read leaves behind satisfies Valid again. */
    static lemma FeedKeepsValid(queue: Option<string>, st: EngineState, chunk: string, parse: Parser, complete: Completion)
      requires WellKeyed(st.responses)
      ensures !HasDelimiter(Feed(queue, st, chunk, parse, complete).remainder)
      ensures WellKeyed(Feed(queue, st, chunk, parse, complete).progress.state.responses)
    {
      FeedSound(queue, st, chunk, parse, complete);
    }

    /**
     * One turn of the loop of `data_received`: a frame that does not raise
     * moves the loop on, one that raises ends it with the outcome of the
     * whole read.
     */
    static lemma RunAfterRoute(start: EngineState, lines: seq<string>, i: nat, before: EngineState, after: EngineState,
                               raised: Option<Error>, parse: Parser, complete: Completion)
      requires i < |lines|
      requires Run(start, lines[..i], parse, complete) == Continue(before)
      requires Step(before, lines[i], parse, complete)
               == if raised.None? then Continue(after) else Raised(after, raised.value)
      ensures raised.None? ==> Run(start, lines[..i + 1], parse, complete) == Continue(after)
      ensures raised.Some? ==> Run(start, lines, parse, complete) == Raised(after, raised.value)
    {
      RunNext(start, lines, i, parse, complete);
      if raised.Some? {
        RunStops(start, lines, i + 1, parse, complete);
      }
    }

    /**
     * Lines 45-68 of `data_received` for one frame: exactly what Step
     * describes, on the fields themselves.
     */
    method Route(frame: string, parse: Parser, complete: Completion) returns (raised: Option<Error>)
      modifies this`responses, this`dispatched, this`delivered
      ensures Step(old(State()), frame, parse, complete)
              == if raised.None? then Continue(State()) else Raised(State(), raised.value)
      ensures Surroundings() == old(Surroundings())
    {
      raised := None;
      var message := parse(Strip(frame));
      if message.None? {
        return;
      }
      var m := message.value;
      var response: Option<Request> := None;
      if "commandid" in m.fields {
        response := Get(responses, m.fields["commandid"]);
      }
      if response.None? && m.id.Some? {
        response := Get(responses, m.id.value);
      }
      assert response == Lookup(responses, m);
      if response.Some? {
        var req := response.value;
        var done := complete(req, m);
        delivered := delivered + [Delivery(req, m, done)];
        if done {
          var key: string;
          if "commandid" in m.fields {
            if req.commandId.None? {
              raised := Some(NoCommandId(req));
              return;
            }
            key := req.commandId.value;
          } else {
            key := req.id;
          }
          if key !in responses {
            raised := Some(NotPending(key));
            return;
          }
          responses := responses - {key};
        }
      } else if "Event" in m.fields {
        dispatched := dispatched + [m];
      }
    }

    /** `close`: the transport is closed on the first call only; afterwards the connection is closed. */
    method Close()
      modifies this
      ensures Valid() == old(Valid())
      ensures closed
      ensures transportCloses == old(transportCloses) + (if old(closed) then 0 else 1)
      ensures queue == old(queue) && responses == old(responses)
      ensures dispatched == old(dispatched) && delivered == old(delivered) && written == old(written)
    {
      if !closed {
        transportCloses := transportCloses + 1;
        closed := true;
      }
    }

    /**
     * `connection_lost`: when the connection was not closed yet it is
     * closed and a reconnect is asked for; otherwise nothing happens. Pending
     * requests stay in the table.
     */
    method ConnectionLost() returns (reconnect: bool)
      modifies this
      ensures Valid() == old(Valid())
      ensures reconnect == !old(closed)
      ensures closed
      ensures transportCloses == old(transportCloses) + (if old(closed) then 0 else 1)
      ensures queue == old(queue) && responses == old(responses)
      ensures dispatched == old(dispatched) && delivered == old(delivered) && written == old(written)
    {
      reconnect := !closed;
      if reconnect {
        Close();
      }
    }
  }

  /** Closing twice closes the transport once. */
  method CloseTwice(c: Connection)
    modifies c
    ensures c.closed
    ensures c.transportCloses == old(c.transportCloses) + (if old(c.closed) then 0 else 1)
  {
    c.Close();
    c.Close();
  }

  /**
   * Two reads on one connection leave it as one read of the joined text
   * leaves another in the same state, when the first read raised nothing.
   */
  method TwoReadsAsOne(c: Connection, d: Connection, a: string, b: string, parse: Parser, complete: Completion)
    requires c != d && c.Valid() && d.Valid()
    requires c.queue == d.queue && c.State() == d.State()
    modifies c, d
    ensures Feed(old(c.queue), old(c.State()), a, parse, complete).progress.Continue? ==>
              c.queue == d.queue && c.State() == d.State()
  {
    ghost var q, st := c.queue, c.State();
    var r1 := c.DataReceived(a, parse, complete);
    var r2 := c.DataReceived(b, parse, complete);
    var r := d.DataReceived(a + b, parse, complete);
    if Feed(q, st, a, parse, complete).progress.Continue? {
      FeedTwice(q, st, a, b, parse, complete);
    }
  }
}
