# panoramisk connection engine, in Dafny

This project models the inbound protocol engine of panoramisk's
`Connection`, the asyncio protocol that talks to an Asterisk manager. Its
behaviour is then proved.

- **Framing.** A read is joined to the unframed tail kept from the previous
  read. The joined text is cut on the blank line `"\r\n\r\n"`. Every piece but
  the last is a frame, and the last piece goes back into the one-slot queue.
- **Routing.** Each frame is stripped of whitespace and parsed. A message is
  matched to a pending request, first by its `commandid` and then by its
  action identifier. The request is told about the message. When the request
  reports that it is complete, its entry is popped from the table.
- **Dispatch.** An event that no request claims goes to the dispatcher. Any
  other unclaimed message is dropped.
- **Bookkeeping.** `send` files a request and writes it. `close` closes the
  transport once. `connection_lost` asks for a reconnect only when the
  connection was not closed yet.

The project has four modules:

- `Wrappers` (`wrappers.dfy`) holds `Option` and dictionary `get`.
- `Framing` (`framing.dfy`) holds the split on the delimiter as Python's
  `str.split` does it (leftmost, non-overlapping) and `str.strip` with
  Python's whitespace set.
- `Routing` (`routing.dfy`) holds what one frame does to the pending table
  and the logs (`Step`), and what a list of frames does (`Run`).
- `Protocol` (`connection.dfy`) holds what one read does (`Feed`) and the
  `Connection` class. The class has the fields `closed`, `queue` and
  `responses`, and methods that change them in place. `DataReceived` and its
  loop `RouteFrames` are proved against `Feed` and `Run`. Everything proved
  about those functions holds for the class as well.

The class's collaborators appear as parameters or ghost logs:

- `Message.from_line` is a `Parser` parameter, a function from the stripped
  frame to an optional message. A message is its fields and its abstract
  `id`.
- A request's `add_message` is a `Completion` parameter, a function of the
  request and the message.
- `factory.dispatch` is an append to the ghost log `dispatched`.
- `transport.write` is an append to the ghost log `written`.
- `transport.close` is a counter, `transportCloses`.
- The outcome of `add_message` is recorded in the ghost log `delivered`.

The removal step does not always pop the key it looked the request up
under. When the message carries `commandid`, the code pops the request's own
`commandid`. Otherwise it pops the request's `id`. A missing attribute or key
there is an exception in Python, and the model has an explicit error outcome
for each (`NoCommandId`, `NotPending`). In either case the rest of the read's
frames are not routed, while the new remainder is already queued.
`LookupAndRemovalKeysDiffer` and `FallbackMatchRaises` show both cases on
concrete tables. Chunk-boundary invariance (`FeedTwice`) therefore holds only
when the first read raised nothing. `FeedRaisedStopsTheJoinedRead` covers the
other case.

One might expect the remainder to be the text after the last delimiter.
`str.split` at connection.py:42 keeps the last piece of a left-to-right split
instead, and the two can differ: `"a\r\n\r\n\r\n"` leaves `"\r\n"`.
`RemainderIsLastPiece` proves that example.

`connection_lost` (connection.py:70-76) leaves `self.responses` alone, so
pending requests are never failed when the connection goes away.
`ConnectionLost` leaves `responses` as it was.

Because the removal key can differ from the lookup key, a command whose
own `commandid` differs from the key it is filed under is found again
after it completes. `CompletedTwice` shows one request completed twice by
two frames. `RunCompletesAtMostOnce` gives the conditions under which each
request completes at most once within a read, whether or not the read
raises:
- every request is filed under its own identifier;
- and either no frame carries `commandid`, or every command is also filed
  under its own command identifier.

Under the same conditions, a read that raises nothing has also removed
every request it completed. A read that raises may leave its last completed
request filed: `RaisedReadKeepsCompleted` shows a plain action found
through its `id` by a message carrying `commandid`, which completes, makes
the removal raise, and stays in the table.

The guarantee is per read. A request that a raising read left filed can be
completed again by the next read: `CompletedAgainAfterRaise` routes the same
frame twice over that table and records two completions of "a1". The model
allows that next read because it leaves out what asyncio does after
`data_received` raises (see "## Left out"); it simply delivers the next chunk.

## Model

| member | source | states |
|---|---|---|
| Wrappers.Get | panoramisk/connection.py:56-58 | `dict.get`: a value exactly when the key is present, and then the stored value |
| Framing.Find | panoramisk/connection.py:42 | the position of the first delimiter: a delimiter is there and none starts earlier; no position exactly when the text holds no delimiter |
| Framing.Split | panoramisk/connection.py:42 | the definition of `str.split` on the frame delimiter, cutting at the leftmost delimiter each time; its meaning is stated by `SplitSound` and `SplitUnique`, and by `SplitAppend` across a chunk boundary |
| Framing.Frames | panoramisk/connection.py:42-44 | the definition of the frames the loop walks: every piece of the split but the last; characterised by `SplitSound`, `SplitUnique`, `NoDelimiter` and `ClosedByIff` |
| Framing.Remainder | panoramisk/connection.py:42-43 | the definition of the text put back on the queue: the last piece of the split; characterised by `SplitSound`, `SplitUnique` and `RemainderIsLastPiece` |
| Framing.SplitSound | panoramisk/connection.py:42-43 | the frames, each followed by the delimiter, and then the remainder give back exactly the split text; no delimiter starts inside any frame; the remainder holds no delimiter |
| Framing.SplitUnique | panoramisk/connection.py:42-43 | any list of frames with no delimiter starting inside them, followed by a delimiter-free remainder, is split back into exactly those frames and that remainder |
| Framing.NoDelimiter | panoramisk/connection.py:42-43 | there are no frames exactly when the text holds no delimiter, and then the remainder is the whole text |
| Framing.ClosedByIff | panoramisk/connection.py:42 | a piece can be emitted as a frame exactly when it holds no delimiter and does not end in an end of line |
| Framing.FrameNeverEndsWithEol | panoramisk/connection.py:42 | no frame holds a delimiter or ends in an end of line |
| Framing.SplitAppend | panoramisk/connection.py:40-42 | splitting `s + b` gives the frames of `s` and then the split of `s`'s remainder joined with `b` |
| Framing.ChunkBoundary | panoramisk/connection.py:40-43 | the frames of `s + b` are the frames of `s` followed by those of its remainder plus `b`, and the remainders agree |
| Framing.RemainderIsLastPiece | panoramisk/connection.py:42-43 | `"a\r\n\r\n\r\n"` has the single frame `"a"` and keeps `"\r\n"`, although a delimiter ends the text |
| Framing.TrimStart | panoramisk/connection.py:46 | `lstrip`: a suffix of the text after whitespace only, which is empty or starts with a non-space |
| Framing.TrimEnd | panoramisk/connection.py:46 | `rstrip`: a prefix of the text before whitespace only, which is empty or ends with a non-space |
| Framing.IsSpace | panoramisk/connection.py:46 | the definition of the whitespace `strip()` removes: the characters CPython's `str.isspace` accepts; `TrimStart`, `TrimEnd` and `StripTrims` are stated over it |
| Framing.Strip | panoramisk/connection.py:46 | the definition of `line.strip()`, as `rstrip` after `lstrip`; its meaning is stated by `StripTrims` and `StripPadded` |
| Framing.StripTrims | panoramisk/connection.py:46 | `strip` gives a slice of the text with only whitespace on either side, which is empty or starts and ends with a non-space |
| Framing.StripPadded | panoramisk/connection.py:45-46 | whitespace added on either side of a frame, such as a stray end of line, strips away |
| Routing.Lookup | panoramisk/connection.py:54-58 | a request is found exactly when the message's `commandid` or its `id` is pending; the found request is pending; the `commandid` entry wins; otherwise the `id` entry is used |
| Routing.HasCommandId | panoramisk/connection.py:55-63 | the definition of the test `'commandid' in message` used both when looking up (line 55) and when choosing the key to pop (line 63); `Lookup` and `RemovalKey` are stated over it |
| Routing.IsEvent | panoramisk/connection.py:67 | the definition of the test `'Event' in message` that decides whether an unclaimed message is dispatched; `StepUnclaimed` and `RunDispatchesParsedEvents` are stated over it |
| Routing.RemovalKey | panoramisk/connection.py:63-66 | the definition of the key popped on completion: the request's own `commandid` when the message carries `commandid`, otherwise the request's `id`; its consequences are stated by `StepCompletesOnce`, `StepCompletesByCommandId`, `StepCompletionRaises` and `LookupAndRemovalKeysDiffer` |
| Routing.Step | panoramisk/connection.py:45-68 | the definition of one turn of the loop: strip, parse, look up, deliver, pop on completion or dispatch an event; what it means is stated by `StepUnparsed`, `StepPadded`, `StepRoutesToRequest`, `StepUnclaimed`, `StepRemovesOnlyOnCompletion`, `StepCompletesOnce`, `StepCompletesByCommandId`, `StepCompletionRaises` and `StepEvolves` |
| Routing.StepUnparsed | panoramisk/connection.py:49-52 | a frame the parser rejects changes neither the table nor the logs and raises nothing |
| Routing.StepPadded | panoramisk/connection.py:45-46 | whitespace around a frame does not change what routing it does |
| Routing.StepRoutesToRequest | panoramisk/connection.py:54-66 | a message that a pending request claims is delivered to the request found by the lookup rule and is not dispatched |
| Routing.StepUnclaimed | panoramisk/connection.py:60-68 | an unclaimed message leaves the table alone; it is appended to the dispatch log once when it has an `Event` field, and dropped otherwise |
| Routing.StepRemovesOnlyOnCompletion | panoramisk/connection.py:60-66 | after one frame the table is unchanged, or it lost exactly one pending key; that key is the removal key of a request that reported completion; an incomplete request leaves the table as it was |
| Routing.StepKeepsWellKeyed | panoramisk/connection.py:60-66 | a table whose entries are filed under their own identifiers stays so |
| Routing.StepCompletesOnce | panoramisk/connection.py:60-66 | a completing message without `commandid` removes exactly the request it names, raises nothing and keeps every other entry |
| Routing.LookupAndRemovalKeysDiffer | panoramisk/connection.py:55-64 | a request found under `"c1"` whose own `commandid` is `"x"` pops `"x"` and stays pending under `"c1"` |
| Routing.StepCompletesByCommandId | panoramisk/connection.py:60-64 | a message with `commandid` that completes the request it found pops the request's own command identifier when that is pending, raises nothing, and records one completed delivery |
| Routing.StepCompletionRaises | panoramisk/connection.py:60-66 | on completion the removal raises in three cases: the message has `commandid` and the request has none; the request's command identifier is not pending; without `commandid`, the request's `id` is not pending. In each case the delivery is recorded and the table is unchanged |
| Routing.CompletedTwice | panoramisk/connection.py:55-64 | on the table `{"c1": command with commandid "x", "x": other}`, two frames carrying `commandid` "c1" deliver a completion to the same command twice, pop "x", and then raise |
| Routing.RunCompletesAtMostOnce | panoramisk/connection.py:44-66 | with every request filed under its identifier, and either no frame carrying `commandid` or every command filed under its command identifier: no request completes twice in a read, even one that raises; when the read raises nothing, every completed request has left the table; without `commandid` the read never raises |
| Routing.RaisedReadKeepsCompleted | panoramisk/connection.py:55-66 | on a table filed both by identifier and by command identifier, a read can complete the action `"a1"`, raise on its removal, and leave it filed |
| Routing.CompletedAgainAfterRaise | panoramisk/connection.py:55-66 | after a read that raised with the completed action "a1" still filed, the next read of the same frame completes "a1" again and raises again |
| Routing.FallbackMatchRaises | panoramisk/connection.py:55-64 | a message with `commandid` that finds a plain action by its `id` raises on completion, because the action has no `commandid` to pop |
| Routing.Run | panoramisk/connection.py:44-68 | the definition of the `for` loop over the frames: one `Step` per frame in order, ending at the first exception; what it means is stated by `RunAppend`, `RunNext`, `RunStops`, `RunEvolves`, `RunDispatchesParsedEvents` and `RunCompletesAtMostOnce` |
| Routing.RunAppend | panoramisk/connection.py:44-68 | routing `a + b` is routing `a` and then `b`, unless a frame of `a` raised, which ends the run |
| Routing.RunNext | panoramisk/connection.py:44-68 | one more frame of the loop is one more `Step`, unless the loop already raised |
| Routing.RunStops | panoramisk/connection.py:44-68 | once a frame raises, the frames after it change nothing |
| Routing.StepEvolves | panoramisk/connection.py:44-68 | one frame only removes entries and keeps the rest unchanged and filed by identifier; the two logs only grow at their ends |
| Routing.RunEvolves | panoramisk/connection.py:44-68 | the same over any number of frames |
| Routing.RunDispatchesParsedEvents | panoramisk/connection.py:67-68 | every message added to the dispatch log is an event that one of the frames parsed to |
| Protocol.Pending | panoramisk/connection.py:40-41 | the definition of the queued text: the queued item when the queue is not empty, otherwise nothing; `Feed`, `FeedSound` and `FeedEmpty` are stated over it |
| Protocol.Feed | panoramisk/connection.py:40-68 | the definition of one read: the queued text plus the chunk is split, the remainder is queued and the frames are routed with `Run`; what it means is stated by `FeedSound`, `FeedEmpty`, `FeedTwice` and `FeedRaisedStopsTheJoinedRead`, and `DataReceived` is proved equal to it |
| Protocol.FeedSound | panoramisk/connection.py:40-44 | after a read the remainder holds no delimiter; the frames, each followed by the delimiter, and then the remainder are the old remainder plus the chunk; the table and logs only evolve |
| Protocol.JoinedFrames | panoramisk/connection.py:40-43 | the frames of the queued text plus `a + b` are those of the queued text plus `a`, then those of that remainder plus `b`; the remainders agree |
| Protocol.FeedTwice | panoramisk/connection.py:40-43 | reading `a` and then `b` routes the same frames and keeps the same remainder as reading `a + b`, when no frame of `a` raised |
| Protocol.FeedEmpty | panoramisk/connection.py:40-44 | with a queued text holding no delimiter, an empty read routes nothing, puts the queued text back whole, and changes neither the table nor the logs |
| Protocol.FeedRaisedStopsTheJoinedRead | panoramisk/connection.py:40-68 | when a frame of `a` raises, one read of `a + b` ends with the same outcome and never routes `b` |
| Protocol.ResponseRoundTrip | panoramisk/connection.py:40-66 | a filed request `"42"` and the text `"Response: Success\r\nActionID: 42\r\n\r\n"` give one delivery, an empty table and an empty remainder |
| Protocol.FragmentedEvent | panoramisk/connection.py:40-68 | `"Event: FullyBoo"` is only queued; `"ted\r\n\r\n"` then dispatches `"Event: FullyBooted"` once and leaves nothing queued |
| Protocol.Connection.constructor | panoramisk/connection.py:13-18 | open, nothing queued, an empty table and empty logs |
| Protocol.Connection.Send | panoramisk/connection.py:28-30 | the request is filed under its identifier, replacing any earlier entry there and keeping every other entry; its text is appended to the write log; its future is returned |
| Protocol.Connection.DataReceived | panoramisk/connection.py:32-68 | the queue holds exactly the remainder `Feed` computes; the table and logs are what its frames made of them; an exception is returned; an empty read changes nothing and keeps the queued text; a read whose frames carry no `commandid` raises nothing; the invariant holds again |
| Protocol.Connection.Reframe | panoramisk/connection.py:40-43 | the returned frames are the frames of the queued text followed by the chunk, and the queue then holds exactly its remainder |
| Protocol.Connection.RouteFrames | panoramisk/connection.py:44-68 | the loop leaves the table and logs as `Run` says and returns its exception, if any; its frame lets it change only the table and the two logs |
| Protocol.Connection.RouteNext | panoramisk/connection.py:44-68 | one more frame either keeps the loop in step with `Run` over the frames so far, or raises and leaves the fields as `Run` over all the frames does |
| Protocol.Connection.Route | panoramisk/connection.py:45-68 | one turn of the loop changes the fields exactly as `Step` says |
| Protocol.Connection.Close | panoramisk/connection.py:78-83 | afterwards closed; the transport is closed only when the connection was open; nothing else changes, so the invariant holds exactly when it held before |
| Protocol.Connection.ConnectionLost | panoramisk/connection.py:70-76 | a reconnect is asked for exactly when the connection was not closed; afterwards closed; the pending table is untouched and the invariant holds exactly when it held before |
| Protocol.CloseTwice | panoramisk/connection.py:78-83 | closing twice closes the transport at most once |
| Protocol.TwoReadsAsOne | panoramisk/connection.py:32-68 | two reads on one connection leave it as one read of the joined text leaves another, when the first read raised nothing |

## Left out

- Byte decoding with the connection's encoding and `'ignore'` (lines 33-34): reads arrive as already decoded text. Each chunk is decoded on its own (line 34) before it is joined to the queued text (line 41), so under a multi-byte encoding a character split across two chunks is dropped. `FeedTwice` and `TwoReadsAsOne` therefore state chunk-boundary invariance over decoded text; it carries over to the received bytes only for a single-byte encoding such as the default `'ascii'` (line 33).
- Copying the raw stream to the `save_stream` file (lines 35-37): file I/O.
- Logging (lines 19 and 50).
- The pause and the new connection in `connection_lost` (lines 74 and 76): a reconnect is only a returned flag, and no time or network is modelled.
- The asyncio protocol, the transport object and the queue object (lines 11-18): the queue is an optional string, and the transport is seen only through the write log and the close counter.
- `Message.from_line`, the `Message` class and its case-insensitive field access: the parser is a parameter, and field names are matched exactly as written (`"commandid"`, `"Event"`).
- `Action`, `Command`, `add_message` and `str(data)`: `add_message` is a pure function of the request and the message, so a request that collects messages in its own state is not modelled; a request's serialized text and its future are plain fields.
- Re-entry: `add_message` also receives the connection itself (line 61), and the callbacks of `factory.dispatch` (line 68) run in the middle of the loop. Either may call `send` or touch the connection; such calls during routing are not modelled.
- Wrapping a dictionary into an `Action` or a `Command`, and `as_list` (lines 22-27): `Send` takes the request already built.
- An exception from `transport.close` (`try`/`finally`, lines 80-83): the close always succeeds.
- The factory set to `None` when an event arrives (line 68): dispatch always succeeds.
- What asyncio does with an exception raised from `data_received`: the model returns the exception and stops routing the read's frames; in the model the connection stays open and a later read is routed as usual.
- Protocol.Connection.ConnectionLost: does not fail the pending requests, because `connection_lost` (lines 70-76) does not touch `self.responses`.

## Findings

| source | as written | input that shows it | evidently intended | confidence | as-written member | corrected member |
|---|---|---|---|---|---|---|
| panoramisk/connection.py:55-64 | the entry is looked up by the message's `commandid`, but on completion the request's own `commandid` is popped | a command filed under "c1" whose `commandid` is "x", an entry "x", and two messages carrying `commandid` "c1" that complete it | a request completes at most once within one read; this holds when requests are filed under their identifiers and either messages carry no `commandid` or commands are filed under their command identifiers; when the read also raises nothing, every completed request has left the table, but a request that a raising read left filed can be completed again by a later read (`CompletedAgainAfterRaise`) | low: depends on how `Command` sets `commandid`, which is outside this model; not executed | Routing.CompletedTwice | Routing.RunCompletesAtMostOnce |
