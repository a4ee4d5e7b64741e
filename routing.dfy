/**
 * What the connection does with one complete frame: strip it, parse it, look
 * up the pending request it answers (by its command identifier first, then by
 * its action identifier), tell that request about it and drop the request from
 * the table once it reports completion; a message no request claims is handed
 * to the event dispatcher when it is an event and dropped otherwise.
 *
 * The message parser, the request's `add_message` and the dispatcher live
 * outside the connection; they enter here as a parser function, a completion
 * function and an append to a log of dispatched messages.
 */
module Routing {
  import opened Wrappers
  import opened Framing

  /**
   * A parsed message as the connection reads it: its fields, and the value
   * of its `id` property (the request identifier it carries, if any).
   */
  datatype Message = Message(fields: map<string, string>, id: Option<string>)

  /** `'commandid' in message`. */
  predicate HasCommandId(m: Message)
  {
    "commandid" in m.fields
  }

  /** `'Event' in message`. */
  predicate IsEvent(m: Message)
  {
    "Event" in m.fields
  }

  /**
   * An outgoing request (an action, or a command that also carries a
   * command identifier), with its wire text and its completion handle.
   */
  datatype Request = Request(id: string, commandId: Option<string>, serialized: string, future: nat)

  /** One call of a request's `add_message`, with what it answered. */
  datatype Delivery = Delivery(request: Request, message: Message, completed: bool)

  /**
   * The exceptions the removal step can raise: the matched request has no
   * command identifier to remove by, or the key it names is not pending.
   */
  datatype Error = NoCommandId(request: Request) | NotPending(key: string)

  /**
   * What frames change: the pending-request table, the messages given to the
   * dispatcher and the messages given to requests, in order.
   */
  datatype EngineState = EngineState(responses: map<string, Request>, dispatched: seq<Message>, delivered: seq<Delivery>)

  /** After a frame: go on with the next one, or stop on an exception. */
  datatype Progress = Continue(state: EngineState) | Raised(state: EngineState, error: Error)

  /** `Message.from_line`. */
  type Parser = string -> Option<Message>

  /** A request's `add_message`: true when the request is complete. */
  type Completion = (Request, Message) -> bool

  /** Every entry is filed under its own identifier, as `send` files it. */
  predicate WellKeyed(responses: map<string, Request>)
  {
    forall k {:trigger responses[k]} :: k in responses ==> responses[k].id == k
  }

  /**
   * The pending request a message answers. The command identifier is tried
   * first and wins when it is pending; otherwise the action identifier.
   */
  function Lookup(responses: map<string, Request>, m: Message): (r: Option<Request>)
    ensures r.Some? <==>
      (HasCommandId(m) && m.fields["commandid"] in responses) || (m.id.Some? && m.id.value in responses)
    ensures r.Some? ==> r.value in responses.Values
    ensures HasCommandId(m) && m.fields["commandid"] in responses ==> r == Some(responses[m.fields["commandid"]])
    ensures !(HasCommandId(m) && m.fields["commandid"] in responses) && m.id.Some? && m.id.value in responses
            ==> r == Some(responses[m.id.value])
  {
    var byCommand := if HasCommandId(m) then Get(responses, m.fields["commandid"]) else None;
    if byCommand.Some? then byCommand
    else if m.id.Some? then Get(responses, m.id.value)
    else None
  }

  /**
   * The key popped once the request completes: the request's command
   * identifier when the message carries one, its identifier otherwise. It
   * need not be the key the request was found under.
   */
  function RemovalKey(m: Message, req: Request): Option<string>
  {
    if HasCommandId(m) then req.commandId else Some(req.id)
  }

  /** Everything one frame does. */
  function Step(st: EngineState, frame: string, parse: Parser, complete: Completion): Progress
  {
    match parse(Strip(frame))
    case None => Continue(st)
    case Some(m) =>
      match Lookup(st.responses, m)
      case Some(req) =>
        var done := complete(req, m);
        var told := st.(delivered := st.delivered + [Delivery(req, m, done)]);
        if !done then Continue(told)
        else (
          match RemovalKey(m, req)
          case None => Raised(told, NoCommandId(req))
          case Some(k) =>
            if k in told.responses then Continue(told.(responses := told.responses - {k}))
            else Raised(told, NotPending(k)))
      case None =>
        if IsEvent(m) then Continue(st.(dispatched := st.dispatched + [m])) else Continue(st)
  }

  /** The frames in order, up to the first exception. */
  function Run(st: EngineState, frames: seq<string>, parse: Parser, complete: Completion): Progress
    decreases |frames|
  {
    if frames == [] then Continue(st)
    else
      match Run(st, frames[..|frames| - 1], parse, complete)
      case Raised(s, e) => Raised(s, e)
      case Continue(s) => Step(s, frames[|frames| - 1], parse, complete)
  }

  // ---------------------------------------------------------------------
  // One frame

  /** A frame the parser rejects changes nothing. */
  lemma StepUnparsed(st: EngineState, frame: string, parse: Parser, complete: Completion)
    requires parse(Strip(frame)).None?
    ensures Step(st, frame, parse, complete) == Continue(st)
  {
  }

  /** Whitespace around a frame does not change what it does. */
  lemma StepPadded(st: EngineState, a: string, frame: string, b: string, parse: Parser, complete: Completion)
    requires AllSpace(a) && AllSpace(b)
    ensures Step(st, a + frame + b, parse, complete) == Step(st, frame, parse, complete)
  {
    StripPadded(a, frame, b);
  }

  /**
   * A message that a pending request claims goes to that request, the
   * command identifier taking precedence, and never to the dispatcher.
   */
  lemma StepRoutesToRequest(st: EngineState, frame: string, parse: Parser, complete: Completion, m: Message, key: string)
    requires parse(Strip(frame)) == Some(m)
    requires key in st.responses
    requires (HasCommandId(m) && key == m.fields["commandid"])
             || (m.id == Some(key) && !(HasCommandId(m) && m.fields["commandid"] in st.responses))
    ensures var after := Step(st, frame, parse, complete).state;
            after.delivered == st.delivered + [Delivery(st.responses[key], m, complete(st.responses[key], m))]
            && after.dispatched == st.dispatched
  {
    var req := st.responses[key];
    assert Lookup(st.responses, m) == Some(req);
    var told := st.(delivered := st.delivered + [Delivery(req, m, complete(req, m))]);
    assert Step(st, frame, parse, complete).state.delivered == told.delivered;
  }

  /**
   * A message no pending request claims is dispatched exactly once when it
   * is an event and dropped otherwise; the table is untouched either way.
   */
  lemma StepUnclaimed(st: EngineState, frame: string, parse: Parser, complete: Completion, m: Message)
    requires parse(Strip(frame)) == Some(m)
    requires !(HasCommandId(m) && m.fields["commandid"] in st.responses)
    requires !(m.id.Some? && m.id.value in st.responses)
    ensures Step(st, frame, parse, complete) ==
            Continue(if IsEvent(m) then st.(dispatched := st.dispatched + [m]) else st)
  {
  }

  /**
   * Entries leave the table only on completion, at most one per frame, and
   * only under the removal key; every other entry stays as it was. A request
   * that is not complete leaves the table exactly as it was.
   */
  lemma StepRemovesOnlyOnCompletion(st: EngineState, frame: string, parse: Parser, complete: Completion)
    ensures var after := Step(st, frame, parse, complete).state;
            after.responses == st.responses
            || exists k :: k in st.responses && after.responses == st.responses - {k}
                 && |after.delivered| == |st.delivered| + 1
                 && after.delivered[|st.delivered|].completed
                 && RemovalKey(after.delivered[|st.delivered|].message, after.delivered[|st.delivered|].request) == Some(k)
  {
    match parse(Strip(frame))
    case None =>
    case Some(m) =>
      match Lookup(st.responses, m)
      case None =>
      case Some(req) =>
        if complete(req, m) && RemovalKey(m, req).Some? && RemovalKey(m, req).value in st.responses {
          var k := RemovalKey(m, req).value;
          assert Step(st, frame, parse, complete).state.responses == st.responses - {k};
        }
  }

  /** Every frame keeps entries filed under their own identifiers. */
  lemma StepKeepsWellKeyed(st: EngineState, frame: string, parse: Parser, complete: Completion)
    requires WellKeyed(st.responses)
    ensures WellKeyed(Step(st, frame, parse, complete).state.responses)
  {
    StepRemovesOnlyOnCompletion(st, frame, parse, complete);
  }

  /**
   * With a table filed by identifier, a message that carries no command
   * identifier and completes the request it names removes exactly that
   * request, raises nothing, and leaves every other entry alone: a later
   * message with the same identifier can no longer reach it.
   */
  lemma StepCompletesOnce(st: EngineState, frame: string, parse: Parser, complete: Completion, m: Message)
    requires WellKeyed(st.responses)
    requires parse(Strip(frame)) == Some(m) && !HasCommandId(m)
    requires m.id.Some? && m.id.value in st.responses
    requires complete(st.responses[m.id.value], m)
    ensures Step(st, frame, parse, complete).Continue?
    ensures Step(st, frame, parse, complete).state.responses == st.responses - {m.id.value}
  {
  }

  /**
   * A message carrying `commandid` that completes the request it found pops
   * the request's own command identifier, when that is pending, and raises
   * nothing.
   */
  lemma StepCompletesByCommandId(st: EngineState, frame: string, parse: Parser, complete: Completion,
                                 m: Message, req: Request, k: string)
    requires parse(Strip(frame)) == Some(m) && HasCommandId(m)
    requires Lookup(st.responses, m) == Some(req) && complete(req, m)
    requires req.commandId == Some(k) && k in st.responses
    ensures Step(st, frame, parse, complete)
            == Continue(EngineState(st.responses - {k}, st.dispatched, st.delivered + [Delivery(req, m, true)]))
  {
  }

  /**
   * The removal step raises when it has no key to pop: the message carries
   * `commandid` but the request has no command identifier, or the key it
   * would pop is not pending. The delivery has happened by then, and the
   * table is left as it was.
   */
  lemma StepCompletionRaises(st: EngineState, frame: string, parse: Parser, complete: Completion, m: Message, req: Request)
    requires parse(Strip(frame)) == Some(m)
    requires Lookup(st.responses, m) == Some(req) && complete(req, m)
    ensures var told := st.(delivered := st.delivered + [Delivery(req, m, true)]);
            (HasCommandId(m) && req.commandId.None? ==> Step(st, frame, parse, complete) == Raised(told, NoCommandId(req)))
            && (HasCommandId(m) && req.commandId.Some? && req.commandId.value !in st.responses
                ==> Step(st, frame, parse, complete) == Raised(told, NotPending(req.commandId.value)))
            && (!HasCommandId(m) && req.id !in st.responses
                ==> Step(st, frame, parse, complete) == Raised(told, NotPending(req.id)))
  {
  }

  /**
   * The lookup key and the removal key can differ: a command filed under
   * "c1" whose own command identifier is "x" is found by a message carrying
   * command identifier "c1", yet completing it removes the entry "x" and
   * leaves "c1" pending.
   */
  lemma LookupAndRemovalKeysDiffer()
    ensures var cmd := Request("c1", Some("x"), "", 0);
            var other := Request("x", None, "", 1);
            var st := EngineState(map["c1" := cmd, "x" := other], [], []);
            var m := Message(map["commandid" := "c1"], None);
            var always: Completion := (r, msg) => true;
            var parse: Parser := (line: string) => Some(m);
            Step(st, "", parse, always) == Continue(EngineState(map["c1" := cmd], [], [Delivery(cmd, m, true)]))
  {
    var cmd := Request("c1", Some("x"), "", 0);
    var other := Request("x", None, "", 1);
    var responses := map["c1" := cmd, "x" := other];
    var m := Message(map["commandid" := "c1"], None);
    assert Lookup(responses, m) == Some(cmd);
    assert responses - {"x"} == map["c1" := cmd];
  }

  /**
   * A message that carries a command identifier but finds its request by the
   * action identifier raises once that request, a plain action with no
   * command identifier, completes: the removal step has no key to pop.
   */
  lemma FallbackMatchRaises()
    ensures var act := Request("a1", None, "", 0);
            var st := EngineState(map["a1" := act], [], []);
            var m := Message(map["commandid" := "c9"], Some("a1"));
            var always: Completion := (r, msg) => true;
            var parse: Parser := (line: string) => Some(m);
            Step(st, "", parse, always) == Raised(EngineState(map["a1" := act], [], [Delivery(act, m, true)]), NoCommandId(act))
  {
    var act := Request("a1", None, "", 0);
    var m := Message(map["commandid" := "c9"], Some("a1"));
    assert Lookup(map["a1" := act], m) == Some(act);
  }

  /**
   * The lookup and removal keys differing lets one request complete twice:
   * two messages carrying command identifier "c1" both reach the command
   * filed under "c1", since completing it pops "x" instead; the second pop
   * then raises.
   */
  lemma CompletedTwice()
    ensures var cmd := Request("c1", Some("x"), "", 0);
            var other := Request("x", None, "", 1);
            var st := EngineState(map["c1" := cmd, "x" := other], [], []);
            var m := Message(map["commandid" := "c1"], None);
            var always: Completion := (r, msg) => true;
            var parse: Parser := (line: string) => Some(m);
            Run(st, ["", ""], parse, always)
            == Raised(EngineState(map["c1" := cmd], [], [Delivery(cmd, m, true), Delivery(cmd, m, true)]), NotPending("x"))
  {
    var cmd := Request("c1", Some("x"), "", 0);
    var other := Request("x", None, "", 1);
    var st := EngineState(map["c1" := cmd, "x" := other], [], []);
    var m := Message(map["commandid" := "c1"], None);
    var always: Completion := (r, msg) => true;
    var parse: Parser := (line: string) => Some(m);
    var once := EngineState(map["c1" := cmd], [], [Delivery(cmd, m, true)]);
    var twice := EngineState(map["c1" := cmd], [], [Delivery(cmd, m, true), Delivery(cmd, m, true)]);
    LookupAndRemovalKeysDiffer();
    assert [""][..0] == [];
    assert Run(st, [""], parse, always) == Continue(once);
    assert Lookup(once.responses, m) == Some(cmd);
    StepCompletionRaises(once, "", parse, always, m, cmd);
    assert once.delivered + [Delivery(cmd, m, true)] == twice.delivered;
    assert Step(once, "", parse, always) == Raised(twice, NotPending("x"));
    assert ["", ""][..1] == [""] && ["", ""][1] == "";
  }

  // ---------------------------------------------------------------------
  // A sequence of frames

  /** Running `a` and then `b` is running `a + b`; an exception in `a` ends the run. */
  lemma {:induction false} RunAppend(st: EngineState, a: seq<string>, b: seq<string>, parse: Parser, complete: Completion)
    ensures Run(st, a + b, parse, complete) ==
            match Run(st, a, parse, complete)
            case Raised(s, e) => Raised(s, e)
            case Continue(s) => Run(s, b, parse, complete)
    decreases |b|
  {
    if b == [] {
      assert a + b == a;
    } else {
      var b' := b[..|b| - 1];
      assert (a + b)[..|a + b| - 1] == a + b';
      assert (a + b)[|a + b| - 1] == b[|b| - 1];
      RunAppend(st, a, b', parse, complete);
    }
  }

  /** The run over a prefix of the frames, advanced by the next frame. */
  lemma RunNext(st: EngineState, frames: seq<string>, i: nat, parse: Parser, complete: Completion)
    requires i < |frames|
    ensures Run(st, frames[..i + 1], parse, complete) ==
            match Run(st, frames[..i], parse, complete)
            case Raised(s, e) => Raised(s, e)
            case Continue(s) => Step(s, frames[i], parse, complete)
  {
    assert frames[..i + 1][..i] == frames[..i];
  }

  /** An exception ends the run: the frames after it are never looked at. */
  lemma RunStops(st: EngineState, frames: seq<string>, i: nat, parse: Parser, complete: Completion)
    requires i <= |frames|
    requires Run(st, frames[..i], parse, complete).Raised?
    ensures Run(st, frames, parse, complete) == Run(st, frames[..i], parse, complete)
  {
    var before, after := frames[..i], frames[i..];
    assert before + after == frames;
    RunRaisedPrefix(st, before, after, parse, complete);
  }

  lemma RunRaisedPrefix(st: EngineState, a: seq<string>, b: seq<string>, parse: Parser, complete: Completion)
    requires Run(st, a, parse, complete).Raised?
    ensures Run(st, a + b, parse, complete) == Run(st, a, parse, complete)
  {
    RunAppend(st, a, b, parse, complete);
  }

  /**
   * `after` can follow `before`: the table only lost entries, every entry it
   * kept is unchanged, filing by identifier is kept, and the dispatch and
   * delivery logs only grew at their ends.
   */
  predicate Evolves(before: EngineState, after: EngineState)
  {
    && after.responses.Keys <= before.responses.Keys
    && (forall k :: k in after.responses ==> after.responses[k] == before.responses[k])
    && (WellKeyed(before.responses) ==> WellKeyed(after.responses))
    && before.dispatched <= after.dispatched
    && before.delivered <= after.delivered
  }

  lemma StepEvolves(st: EngineState, frame: string, parse: Parser, complete: Completion)
    ensures Evolves(st, Step(st, frame, parse, complete).state)
  {
    StepRemovesOnlyOnCompletion(st, frame, parse, complete);
  }

  lemma EvolvesTransitive(a: EngineState, b: EngineState, c: EngineState)
    requires Evolves(a, b) && Evolves(b, c)
    ensures Evolves(a, c)
  {
  }

  /** Over any number of frames the engine state only evolves. */
  lemma {:induction false} RunEvolves(st: EngineState, frames: seq<string>, parse: Parser, complete: Completion)
    ensures Evolves(st, Run(st, frames, parse, complete).state)
    decreases |frames|
  {
    if frames != [] {
      var init := frames[..|frames| - 1];
      RunEvolves(st, init, parse, complete);
      match Run(st, init, parse, complete)
      case Raised(s, e) =>
      case Continue(s) =>
        StepEvolves(s, frames[|frames| - 1], parse, complete);
        EvolvesTransitive(st, s, Run(st, frames, parse, complete).state);
    }
  }

  /** Some frame of `frames` parses to `m`. */
  ghost predicate ParsedFrom(m: Message, frames: seq<string>, parse: Parser)
  {
    exists k :: 0 <= k < |frames| && parse(Strip(frames[k])) == Some(m)
  }

  /** The entries of `log` from `lo` on are events parsed from `frames`. */
  ghost predicate EventsFrom(log: seq<Message>, lo: nat, frames: seq<string>, parse: Parser)
  {
    lo <= |log| && forall n :: lo <= n < |log| ==> IsEvent(log[n]) && ParsedFrom(log[n], frames, parse)
  }

  /** One frame dispatches nothing, or one event it parsed to. */
  lemma StepDispatch(st: EngineState, frame: string, parse: Parser, complete: Completion)
    ensures var d := Step(st, frame, parse, complete).state.dispatched;
            d == st.dispatched
            || (exists m :: d == st.dispatched + [m] && IsEvent(m) && parse(Strip(frame)) == Some(m))
  {
  }

  lemma EventsFromExtend(log: seq<Message>, lo: nat, init: seq<string>, frame: string, parse: Parser)
    requires EventsFrom(log, lo, init, parse)
    ensures EventsFrom(log, lo, init + [frame], parse)
  {
    forall n | lo <= n < |log| ensures ParsedFrom(log[n], init + [frame], parse) {
      var k :| 0 <= k < |init| && parse(Strip(init[k])) == Some(log[n]);
      assert (init + [frame])[k] == init[k];
    }
  }

  /**
   * Every message handed to the dispatcher is an event that one of the
   * frames parsed to: dispatch never invents a message.
   */
  lemma {:induction false} RunDispatchesParsedEvents(st: EngineState, frames: seq<string>, parse: Parser, complete: Completion)
    ensures EventsFrom(Run(st, frames, parse, complete).state.dispatched, |st.dispatched|, frames, parse)
    decreases |frames|
  {
    if frames != [] {
      var init, last := frames[..|frames| - 1], frames[|frames| - 1];
      assert frames == init + [last];
      RunDispatchesParsedEvents(st, init, parse, complete);
      var mid := Run(st, init, parse, complete);
      if mid.Raised? {
        EventsFromExtend(mid.state.dispatched, |st.dispatched|, init, last, parse);
      } else {
        StepKeepsEventsFrom(mid.state, |st.dispatched|, init, last, frames, parse, complete);
      }
    }
  }

  /** One more frame keeps the dispatch log made of events parsed from the frames so far. */
  lemma StepKeepsEventsFrom(s: EngineState, lo: nat, init: seq<string>, last: string, frames: seq<string>, parse: Parser, complete: Completion)
    requires frames == init + [last]
    requires EventsFrom(s.dispatched, lo, init, parse)
    ensures EventsFrom(Step(s, last, parse, complete).state.dispatched, lo, frames, parse)
  {
    EventsFromExtend(s.dispatched, lo, init, last, parse);
    var after := Step(s, last, parse, complete).state.dispatched;
    StepDispatch(s, last, parse, complete);
    if after != s.dispatched {
      var m :| after == s.dispatched + [m] && IsEvent(m) && parse(Strip(last)) == Some(m);
      assert ParsedFrom(m, frames, parse) by {
        assert frames[|frames| - 1] == last;
      }
      EventsFromAppend(s.dispatched, lo, frames, m, parse);
    }
  }

  /** Appending an event parsed from the frames keeps the log made of such events. */
  lemma EventsFromAppend(log: seq<Message>, lo: nat, frames: seq<string>, m: Message, parse: Parser)
    requires EventsFrom(log, lo, frames, parse) && IsEvent(m) && ParsedFrom(m, frames, parse)
    ensures EventsFrom(log + [m], lo, frames, parse)
  {
    forall n | lo <= n < |log + [m]| ensures IsEvent((log + [m])[n]) && ParsedFrom((log + [m])[n], frames, parse) {
      if n < |log| {
        assert (log + [m])[n] == log[n];
      } else {
        assert (log + [m])[n] == m;
      }
    }
  }

  // ---------------------------------------------------------------------
  // At most one completion per request

  /** Every command is filed under its own command identifier as well. */
  predicate CommandsKeyed(responses: map<string, Request>)
  {
    forall k {:trigger responses[k]} :: k in responses && responses[k].commandId.Some? ==> responses[k].commandId.value == k
  }

  /** No frame parses to a message carrying `commandid`. */
  predicate NoCommandIds(frames: seq<string>, parse: Parser)
  {
    forall k :: 0 <= k < |frames| && parse(Strip(frames[k])).Some? ==> !HasCommandId(parse(Strip(frames[k])).value)
  }

  /** From position `from` of the delivery log on, no request completed twice. */
  predicate CompletedDistinct(from: nat, s: EngineState)
  {
    forall p, q ::
      from <= p < q < |s.delivered| && s.delivered[p].completed && s.delivered[q].completed ==>
        s.delivered[p].request != s.delivered[q].request
  }

  /**
   * From position `from` of the delivery log on, every request that
   * completed has left the table, and no request completed twice.
   */
  predicate CompletedOnce(from: nat, s: EngineState)
  {
    && from <= |s.delivered|
    && (forall p :: from <= p < |s.delivered| && s.delivered[p].completed ==> s.delivered[p].request.id !in s.responses)
    && CompletedDistinct(from, s)
  }

  lemma EvolvesKeepsCommandsKeyed(before: EngineState, after: EngineState)
    requires Evolves(before, after) && CommandsKeyed(before.responses)
    ensures CommandsKeyed(after.responses)
  {
  }

  /**
   * One frame completes no request a second time, even when it raises; it
   * keeps CompletedOnce when it raises nothing, and it raises nothing when
   * it carries no `commandid`.
   */
  lemma StepCompletesAtMostOnce(from: nat, s: EngineState, frame: string, parse: Parser, complete: Completion)
    requires WellKeyed(s.responses) && CompletedOnce(from, s)
    requires CommandsKeyed(s.responses) || NoCommandIds([frame], parse)
    ensures NoCommandIds([frame], parse) ==> Step(s, frame, parse, complete).Continue?
    ensures CompletedDistinct(from, Step(s, frame, parse, complete).state)
    ensures Step(s, frame, parse, complete).Continue? ==> CompletedOnce(from, Step(s, frame, parse, complete).state)
  {
    assert [frame][0] == frame;
    match parse(Strip(frame))
    case None =>
    case Some(m) =>
      match Lookup(s.responses, m)
      case None =>
      case Some(req) =>
        var key := if HasCommandId(m) && m.fields["commandid"] in s.responses then m.fields["commandid"] else m.id.value;
        assert key in s.responses && req == s.responses[key];
        assert req.id == key;
        var after := Step(s, frame, parse, complete).state;
        assert after.delivered == s.delivered + [Delivery(req, m, complete(req, m))];
        if complete(req, m) && Step(s, frame, parse, complete).Continue? {
          assert after.responses == s.responses - {req.id};
        }
  }

  /**
   * With every request filed under its identifier, and either no frame
   * carrying `commandid` or every command filed under its own command
   * identifier, a read completes each request at most once, even when it
   * raises. When it raises nothing it has also popped every request it
   * completed. Without `commandid` nothing raises at all.
   */
  lemma {:induction false} RunCompletesAtMostOnce(st: EngineState, frames: seq<string>, parse: Parser, complete: Completion)
    requires WellKeyed(st.responses)
    requires CommandsKeyed(st.responses) || NoCommandIds(frames, parse)
    ensures NoCommandIds(frames, parse) ==> Run(st, frames, parse, complete).Continue?
    ensures CompletedDistinct(|st.delivered|, Run(st, frames, parse, complete).state)
    ensures Run(st, frames, parse, complete).Continue? ==> CompletedOnce(|st.delivered|, Run(st, frames, parse, complete).state)
    decreases |frames|
  {
    if frames != [] {
      var init, last := frames[..|frames| - 1], frames[|frames| - 1];
      assert NoCommandIds(frames, parse) ==> NoCommandIds(init, parse) && NoCommandIds([last], parse) by {
        assert forall k :: 0 <= k < |init| ==> init[k] == frames[k];
        assert [last][0] == frames[|frames| - 1];
      }
      RunCompletesAtMostOnce(st, init, parse, complete);
      RunEvolves(st, init, parse, complete);
      var mid := Run(st, init, parse, complete);
      if mid.Continue? {
        if CommandsKeyed(st.responses) {
          EvolvesKeepsCommandsKeyed(st, mid.state);
        }
        StepCompletesAtMostOnce(|st.delivered|, mid.state, last, parse, complete);
      }
    }
  }

  /**
   * Why "popped" needs a read that raised nothing: on a table that is both
   * well keyed and keyed by command identifier, the plain action "a1"
   * completes, the removal raises, and "a1" stays filed.
   */
  lemma RaisedReadKeepsCompleted()
    ensures var act := Request("a1", None, "", 0);
            var st := EngineState(map["a1" := act], [], []);
            var m := Message(map["commandid" := "c9"], Some("a1"));
            var always: Completion := (r, msg) => true;
            var parse: Parser := (line: string) => Some(m);
            && WellKeyed(st.responses) && CommandsKeyed(st.responses)
            && Run(st, [""], parse, always) == Raised(EngineState(map["a1" := act], [], [Delivery(act, m, true)]), NoCommandId(act))
  {
    FallbackMatchRaises();
    assert [""][..0] == [];
  }

  /**
   * A completed request left filed by a raising read is found again by the
   * next read: routing the same frame over the state the first read left
   * completes "a1" a second time and raises again.
   */
  lemma CompletedAgainAfterRaise()
    ensures var act := Request("a1", None, "", 0);
            var st := EngineState(map["a1" := act], [], []);
            var m := Message(map["commandid" := "c9"], Some("a1"));
            var always: Completion := (r, msg) => true;
            var parse: Parser := (line: string) => Some(m);
            var first := Run(st, [""], parse, always);
            && first.Raised?
            && Run(first.state, [""], parse, always)
               == Raised(EngineState(map["a1" := act], [], [Delivery(act, m, true), Delivery(act, m, true)]), NoCommandId(act))
  {
    var act := Request("a1", None, "", 0);
    var m := Message(map["commandid" := "c9"], Some("a1"));
    var always: Completion := (r, msg) => true;
    var parse: Parser := (line: string) => Some(m);
    var once := EngineState(map["a1" := act], [], [Delivery(act, m, true)]);
    var twice := EngineState(map["a1" := act], [], [Delivery(act, m, true), Delivery(act, m, true)]);
    RaisedReadKeepsCompleted();
    assert Lookup(once.responses, m) == Some(act);
    StepCompletionRaises(once, "", parse, always, m, act);
    assert once.delivered + [Delivery(act, m, true)] == twice.delivered;
    assert Step(once, "", parse, always) == Raised(twice, NoCommandId(act));
    assert [""][..0] == [];
  }
}
