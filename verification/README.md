# Verified model of the Yummi LCU relay and Agent

A Dafny 4.11 project that models the parts of the repository whose correctness
rests on invariants over many steps, and proves them. `dafny verify
dfyconfig.toml` checks all of it.

**Live-delta streams.** The Agent turns each new game state into a numbered
frame, full or a list of tree edits, and keeps it until it is acknowledged
(`DeltaSender`, `AgentStream`). The relay validates frames, rebuilds the state,
delivers it to the API and commits it (`LiveRelay`). What its operations mean is
`DeltaReceiver`; `JsonHeap` and `DeltaInPlace` are the lists and dictionaries it
edits in place, as objects, and its loops over them; `DeltaLimits` says of every
operation on the wire when it is taken, in figures. `Json` and `DeltaWire` are
what Agent and relay share. `DeltaLaws` states what single edits do;
`DeltaItems`, `DeltaEffect` and `DeltaRoundTrip` state exactly when the Agent's
diff, applied by the relay, reproduces the Agent's state; `LiveRelayProofs`
follows the relay over every run, for any sender; `RelayAnswers` gives its answer
to every message; `AgentRuns` states exactly when
every run of the Agent's frames leaves the relay with the Agent's states only, and
`LiveSystem` takes the Agent, the network, the API and key expiry together.

**Connection ownership.** `Connections` is the relay's table of sockets,
sessions, Discord ids and awaited results, with its methods proved against pure
step functions; `ConnectionProofs` and `ConnectionRuns` prove which maps are
each other's inverse, when a Discord id changes hands, and what becomes of
every awaited result. `BotEog` and `BotEogProofs` are the bot's half of the same
manager (`_bot_ws` and `_pending_bot_eog` share no field with the rest) and the
concurrent handlers of end-of-game messages; `BotEogRuns` says what their runs
amount to.

**The book model.** `GlbWriter` and `GlbReader` are the generator and the
independent parser of a binary glTF 2.0 file (sections 4.4.2 and 4.4.3, aligned
buffer views as in section 3.6.2.4); `GlbRoundTrip` proves that the book survives,
`GlbFigures` where each of its faces then stands, and `GlbReading` what the parser
takes from any file.
`GridMesh` is the flat grid that the other effects are drawn on.

**Smaller protocols.** `HudGeometry` (two bounded searches against the Game Bar
host), `LineReader` (a line from a pipe, however it is cut into chunks),
`Redaction`, `RedactionProofs`, `LogSanitizer` and `RedactedText` (masking
secrets in the log; the last says what becomes of a text, character by character),
`FlightRecorder` (bounded memory and queue), and `IoGates` (the single-permit
gate for blocking operations and the widget's generation-guarded sync).

How it is put together: where the source changes state step by step, a class
has the source's fields and each method is proved equal to a pure function of
the old state; the laws are lemmas about those functions. Network, API, Redis
expiry, clocks and timeouts are steps or parameters. Futures and sockets are
numbers that are never reused.

What turned out false, and what holds instead:

- A delta of the Agent can be accepted and leave the relay with a wrong state.
  `ReproducesIffLands` has the exact condition for every pair of states, and
  `EveryRunFaithfulIff` and `SentRunsFaithfulIff` for every run. Three inputs show it:
  - Two item names that are not strings pass for the same name, so that a
    recount keeps the old one (`RenamedItemKeepsName`). The Agent copies names
    whatever their type, so this one is within its reach; for states of its shape
    it is the only one (`AcceptedRightIffKept`), and with string names there is
    none (`NamedKept`).
  - An inventory diff can give up after it has already pushed operations and then
    falls back to the diff of the state before them (`HalfwayFallbackIsWrong`).
    The Agent's own inventories never get there (`ShapedUnmixed`).
  - An item loses fields other than id, name and count when it is added
    (`ExtraFieldIsLost`).
- The comment on `FitLargestUpwardAsync` says that it never shrinks below the
  accepted size. It does so along one axis exactly when that axis is above its
  target and the other is not (`FitLargestUpward`, `AcceptedWidthIsLost`).
- `FitLargestAsync` can end below its minimum, exactly when the first middle of
  its search is below it and accepted; a whole minimum or a whole target
  excludes that (`SearchFromMinimum`, `WholeBoundStaysAbove`).
- One redaction pass masks every assignment to its key in every text exactly
  when the key does not overlap itself (`MaskedIffUnbordered`); none of the
  fifteen keys does, and what is logged is masked, or cut inside the mask
  (`LoggedTextIsMasked`).
- By the right-hand rule of glTF every triangle of the generated book turns into
  the book, not outwards; all eight faces agree, and their materials are
  double-sided (`IsBook`, agent-tauri/scripts/blender/generate_book_return_v2_glb.py:217).
- In `bind_discord` the test for the owner having the same session never
  decides: in reachable tables no other socket can have it (`BindCases`).

## Model

| member | source | states |
|---|---|---|
| DeltaReceiver.LiveDeltaPath | relay/app.py:2733-2750 | the parsing loop returns a path exactly when the raw value is a list of at most 24 segments, each a short non-empty key or an index up to 4096 |
| DeltaReceiver.CrashIsNoResult | relay/app.py:2804-2807 | an operation whose kind is a list or an object raises a TypeError, and then there is no new state |
| DeltaLimits.AddIsTaken | relay/app.py:2804-2830 | [ia, p, slot, id, name, count] is accepted if and only if p is an integer 0..9 whose seven-slot inventory exists, slot 0..6, id 1..1000000, name a string of at most 256 characters and count 1..999; then the slot is exactly that record and nothing else changes |
| DeltaLimits.CountIsTaken | relay/app.py:2832-2856 | [ic, p, slot, delta] is accepted if and only if delta is -999..999, not 0, and the slot holds an item whose integer count stays in 1..999; then only that count changes |
| DeltaLimits.SwapIsTaken | relay/app.py:2858-2868 | [is, p, l, r] is accepted if and only if l and r are different slots 0..6 of an inventory; then exactly those two change places |
| DeltaLimits.ClearIsTaken | relay/app.py:2870-2876 | [ir, p, slot] is accepted if and only if the slot is one of an inventory; then it is null and nothing else changes |
| DeltaLimits.SetIsTaken | relay/app.py:2890-2908 | [s, path, v] is accepted if and only if the path has at most 24 parts, each an index 0..4096 or a key of 1..128 characters, and its container can hold the last part (at the root: v is an object); what the container then is |
| DeltaLimits.DeleteIsTaken | relay/app.py:2910-2922 | [d, path] is accepted if and only if the path is within those limits, not empty and leads to something; then the container is without it, later elements moved down |
| DeltaLimits.AppendIsTaken | relay/app.py:2924-2931 | [a, path, list] is accepted if and only if the path leads to an array; then the list stands behind its elements |
| DeltaLimits.TruncateIsTaken | relay/app.py:2933-2945 | [t, path, n] is accepted if and only if the path leads to an array of at least n elements, n >= 0; then its first n are left |
| DeltaLimits.OtherIsRefused | relay/app.py:2881-2947 | anything but a list of at least two whose first is one of the eight kinds is refused |
| DeltaLimits.CrashesWhere | relay/app.py:2804-2807 | a list of operations ends in a TypeError exactly when it gets as far as an operation whose kind is a list or an object |
| JsonHeap.Load | relay/app.py:2880 | a parsed value is built of new objects, none of which hangs in two places, and stands for exactly that value |
| JsonHeap.Dump | relay/app.py:2880 | writing an object tree gives the value it stands for, whether or not objects in it are shared |
| JsonHeap.ValueReplace | relay/app.py:2753-2766 | redrawing the part at a path changes the value a tree stands for exactly at that path |
| JsonHeap.ReplaceFits | relay/app.py:2753-2766 | when only the object at a path was overwritten, the tree with that part redrawn is how the objects now are |
| JsonHeap.ReplaceApart | relay/app.py:2753-2766 | a part made of its old and of new objects leaves no object hanging in two places |
| DeltaInPlace.LiveDeltaTarget | relay/app.py:2769-2780 | the walk over the segments reaches exactly the object at the path, or fails exactly when there is none |
| DeltaInPlace.EditContainer | relay/app.py:2753-2766 | the container of the last segment is reached by walking the other segments, and writing or deleting in it is what the path-update semantics says, refusals included |
| DeltaInPlace.LiveItemSlots | relay/app.py:2789-2801 | the inventory of a participant is found exactly when it is the seven-slot list at participants, index, items |
| DeltaInPlace.CountItem | relay/app.py:2832-2856 | overwriting the count in the item's own dictionary is the recount of that slot, refused when the item has no integer count or the sum leaves 1..999 |
| DeltaInPlace.ApplyLiveItemOp | relay/app.py:2804-2876 | an item operation, done to the objects of one inventory, is what decoding it says, errors included; DeltaLimits has that for every operation in figures |
| DeltaInPlace.ApplyTreeOp | relay/app.py:2888-2947 | a set, delete, append or truncate, done in place to the object at its path, is what decoding it says, errors included |
| DeltaInPlace.ApplyLiveDeltaOps | relay/app.py:2879-2951 | the edit loop on copied objects refines the pure path-update semantics of the whole list; the base and everything else that existed is untouched, and the result is an object made of new ones only |
| DeltaLaws.ApplyJoin | relay/app.py:2879-2951 | applying xs + ys is applying xs and then ys, and fails exactly when one of them fails |
| DeltaLaws.RootStaysObject | relay/app.py:2879-2951 | the root is an object after every prefix of an accepted list |
| DeltaLaws.SetReadsBack | relay/app.py:2753-2766 | after a set, its path reads the value and every path that is neither a prefix nor an extension reads as before |
| DeltaLaws.SetSucceeds | relay/app.py:2753-2766 | a set is accepted exactly when its path is within limits and the container can hold its last segment |
| DeltaLaws.DeleteKeyRemoves | relay/app.py:2890-2945 | after deleting a key it is gone and diverging paths read as before |
| DeltaLaws.DeleteIndexShifts | relay/app.py:2890-2945 | after deleting an array index later elements move down by one and nothing else changes |
| DeltaLaws.TruncateUndoesAppend | relay/app.py:2890-2945 | truncating to the old length after an append restores the tree exactly |
| DeltaLaws.ItemStep | relay/app.py:2804-2876 | an accepted item operation keeps the addressed inventory valid and leaves every diverging path alone |
| DeltaLaws.ItemOpsKeepInventories | relay/app.py:2804-2876 | any accepted list of item operations keeps every inventory at seven slots, each empty or with a count in 1..999, and changes only addressed participants |
| DeltaLaws.SwapUndoesItself | relay/app.py:2858-2868 | a swap keeps the multiset of items and undoes itself on the whole state |
| DeltaWire.SegsRoundTrip | relay/app.py:2733-2750 | segments written by the Agent are read back as the same path exactly when each is within the relay's limits |
| DeltaWire.PathRoundTrip | relay/app.py:2733-2750 | a path written by the Agent is read back as itself exactly when it is within the relay's limits |
| DeltaSender.ChooseAction | agent-tauri/src-tauri/src/lcu/events.rs:2106-2165 | the search for a swap, then a recount, then a removal or addition picks the first that applies |
| DeltaSender.PushLiveItemDeltaOps | agent-tauri/src-tauri/src/lcu/events.rs:2095-2170 | the slot loop pushes exactly the operations of the specification and says whether it reached the last slot; what it pushed before giving up stays |
| DeltaSender.JsonDeltaOps | agent-tauri/src-tauri/src/lcu/events.rs:1834-1884 | the recursive diff equals its specification on every pair of values |
| DeltaSender.ObjectDeltaOps | agent-tauri/src-tauri/src/lcu/events.rs:1840-1859 | the loop over the sorted, deduplicated keys equals the specification |
| DeltaSender.ArrayDeltaOps | agent-tauri/src-tauri/src/lcu/events.rs:1860-1881 | the item phase, the loop over common indices and the tail equal the specification, also when the item phase gives up halfway |
| DeltaItems.ActionReads | agent-tauri/src-tauri/src/lcu/events.rs:2095-2170 | for every pair of inventories and slot: kept, swapped with the first slot that can supply it, recounted by the 64-bit difference exactly when id and name are the same and the counts differ, cleared, added with null and 1 for a missing name and count, or given up |
| DeltaItems.ActionEffect | relay/app.py:2804-2876 | one slot's operations, sent by the Agent, change the relay's inventory as the action says or are refused |
| DeltaItems.SlotExact | agent-tauri/src-tauri/src/lcu/events.rs:2106-2165 | from agreement, one slot action keeps relay and Agent agreed exactly when the slot fits; otherwise the slot is wrong or the operation is refused; an accepted operation fits exactly when it keeps the item |
| DeltaItems.ItemsEffect | agent-tauri/src-tauri/src/lcu/events.rs:2095-2170 | the operations of a whole inventory diff leave the relay with the simulated inventory, also when the Agent gives up on the way |
| DeltaItems.RelayedExact | agent-tauri/src-tauri/src/lcu/events.rs:2095-2170 | an inventory diff that reaches the last slot reproduces the new inventory if and only if every slot fits, and one that keeps every item is never reproduced wrongly |
| DeltaItems.ShapedHandled | agent-tauri/src-tauri/src/lcu/events.rs:2095-2170 | with empty slots and id/name/count records only, whatever the names are, the slot loop never gives up |
| DeltaEffect.DiffEffect | agent-tauri/src-tauri/src/lcu/events.rs:1834-1884 | what the operations for a change at any path do to the relay's whole state: refused, or one subtree replaced, and the new subtree exactly when the change lands |
| DeltaEffect.AbsentEffect | relay/app.py:2753-2780 | a change inside something the relay does not have is refused |
| DeltaEffect.OtherKindEffect | relay/app.py:2753-2780 | a change inside an object or array is refused where the relay has a value of another kind |
| DeltaEffect.MixedInventoryEffect | agent-tauri/src-tauri/src/lcu/events.rs:1860-1881 | the effect of an inventory diff that gave up followed by the plain array diff of the stale pair, with the exact condition for it to be right |
| DeltaEffect.ReproducesIffLands | agent-tauri/src-tauri/src/lcu/events.rs:1834-1884 | for any two objects, applying the diff to the old one gives the new one if and only if the change lands |
| DeltaEffect.KeptDeltaNeverWrong | agent-tauri/src-tauri/src/lcu/events.rs:1834-1884 | for any two states between which every inventory is dealt with to its last slot and every item is kept, the relay refuses the delta or reproduces the new state exactly |
| DeltaEffect.NamedKept | agent-tauri/src-tauri/src/lcu/events.rs:2086-2089 | with records whose names are strings, every item is kept: a recount needs the same id and the same name |
| DeltaRoundTrip.LandsIffFits | agent-tauri/src-tauri/src/lcu/events.rs:1834-1884 | a change lands exactly when its paths are within limits and its inventories fit; only for an inventory diff that gives up halfway its operations have to be followed |
| DeltaRoundTrip.ReproducesIffFits | agent-tauri/src-tauri/src/lcu/events.rs:1834-1884 | for any two objects, the delta reproduces the new state if and only if the change fits, which a caller can read off the two states |
| DeltaRoundTrip.AcceptedRightIffKept | agent-tauri/src-tauri/src/lcu/events.rs:2086-2165 | for states of the shape the Agent builds, with names of any type, an accepted delta is right if and only if every item is kept, that is, no recounted item has changed its name |
| DeltaRoundTrip.ShapedUnmixed | agent-tauri/src-tauri/src/lcu/events.rs:1860-1865 | states of the Agent's shape never take the halfway fallback |
| DeltaRoundTrip.DiffNamed | agent-tauri/src-tauri/src/lcu/events.rs:1834-1884 | every operation the Agent builds begins with a string |
| DeltaRoundTrip.NamedNeverCrashes | relay/app.py:2804-2807 | operations that begin with strings never raise a TypeError, on any base |
| DeltaCounterexamples.HalfwayFallbackIsWrong | agent-tauri/src-tauri/src/lcu/events.rs:2156-2161 | giving up after a swap leaves the relay with an accepted but wrong inventory |
| DeltaCounterexamples.ExtraFieldIsLost | agent-tauri/src-tauri/src/lcu/events.rs:2162-2165 | an item field other than id, name and count is silently lost |
| DeltaCounterexamples.RenamedItemKeepsName | agent-tauri/src-tauri/src/lcu/events.rs:2086-2089 | two names that are not strings pass for the same name: the recount is accepted and the relay keeps the old name |
| DeltaCounterexamples.EmptyKeyIsRefused | relay/app.py:2733-2750 | a state with an empty object key cannot be sent as a delta |
| AgentStream.LiveGameSource.PushLiveGameChanged | agent-tauri/src-tauri/src/lcu/events.rs:1929-1963 | the new fingerprint, state, stream id and sequence number, and the frame sent, as a function of the old ones |
| AgentStream.LiveGameSource.ForceLiveGameResync | agent-tauri/src-tauri/src/lcu/events.rs:217-224 | everything the stream remembers is forgotten |
| AgentStream.LiveGameSource.SetLiveGameDeltaEnabled | agent-tauri/src-tauri/src/lcu/events.rs:226-231 | switching the format, and only that, starts afresh |
| AgentStream.DurableReplayBuffer.TrackEvent | agent-tauri/src-tauri/src/relay/supervisor.rs:705-725 | a new event is appended, the oldest being given up at 4096; a known event id changes nothing |
| AgentStream.DurableReplayBuffer.AckEvent | agent-tauri/src-tauri/src/relay/supervisor.rs:727-738 | exactly the events with that id leave the buffer |
| AgentStream.DurableReplayBuffer.DropStream | agent-tauri/src-tauri/src/relay/supervisor.rs:792-801 | exactly the events of that stream leave the buffer, and their number is returned |
| AgentStream.DurableReplayBuffer.ReplayLiveDeltaRange | agent-tauri/src-tauri/src/relay/supervisor.rs:3859-3884 | what is resent is the specification's whole range or nothing |
| AgentStream.ReplayIsWholeRange | agent-tauri/src-tauri/src/relay/supervisor.rs:3870-3883 | if anything is resent for a gap request, it is every requested frame, in order |
| AgentStream.RangeIsResentIff | agent-tauri/src-tauri/src/relay/supervisor.rs:3859-3884 | a requested range is resent if and only if the buffer still holds every frame of it |
| AgentStream.TrackReads | agent-tauri/src-tauri/src/relay/supervisor.rs:705-725 | a known event changes nothing, and otherwise at most 4096 events are kept, the newest last |
| AgentStream.ChangedIsSent | agent-tauri/src-tauri/src/lcu/events.rs:1929-1963 | a state is sent exactly when its fingerprint is new: whole without deltas; with them as number 1 in full for a fresh stream, and then as the difference under the next number with the base before it |
| AgentStream.FrameIsNamed | agent-tauri/src-tauri/src/lcu/events.rs:1886-1926 | every frame carries the id of its game and the capture time as far as the state has them |
| LiveRelay.RelaySession.PrepareLiveGameFrame | relay/app.py:2994-3060 | the branches equal the decision of the specification for every payload and stored state; what that decision is, is said in figures by RelayAnswers |
| LiveRelay.RelaySession.RequestLiveDeltaResend | relay/app.py:2655-2676 | a resend is requested exactly when no API-block marker is present |
| LiveRelay.RelaySession.LiveGameUpdate | relay/app.py:4293-4430 | the handler changes stored states, block markers and sent messages exactly as the step specification says, which RelayAnswers gives for every payload in figures |
| LiveRelayProofs.FrameRoundTrip | relay/app.py:2679-2730 | the relay validates the Agent's frame as exactly the frame that was meant, and refuses it only outside its limits |
| LiveRelayProofs.StoredIsSenderState | relay/app.py:2994-3060 | for any sender, with full(k) = S_k and delta(k) any operations that take S_(k-1) to S_k or are refused: over any run with frames lost, repeated, reordered or refused by the API and with key expiry, a stored (seq, state) is S_seq exactly |
| AgentRuns.StoredIsAgentState | agent-tauri/src-tauri/src/lcu/events.rs:1834-1884 | the same for the Agent's own deltas, when each change lands or its delta is refused |
| AgentRuns.EveryRunFaithfulIff | relay/app.py:2994-3060 | every run that delivers full frames of any states and the Agent's deltas stores only the Agent's states if and only if each change of each stream lands or its delta is refused |
| AgentRuns.SentRunsFaithfulIff | agent-tauri/src-tauri/src/lcu/events.rs:1886-1963 | for exactly the frames the Agent sends, every run stores only its states if and only if in each stream the first change that does not land, if there is one, is refused |
| AgentRuns.ShapedHarmlessIff | agent-tauri/src-tauri/src/lcu/events.rs:2737-2758 | for the inventories the Agent builds, a change lands or is refused if and only if its items are kept or it is refused |
| AgentRuns.NamedHarmless | agent-tauri/src-tauri/src/lcu/events.rs:2737-2758 | when all item names are strings, every change lands or is refused |
| LiveRelayProofs.ReadyIsObject | relay/app.py:2994-3060 | a ready frame has a positive number above the stored one and an object as its state |
| LiveRelayProofs.CommitsIncrease | relay/app.py:3007-3042 | between expiries the stored number never goes back and each number is committed at most once |
| LiveRelayProofs.AckMeansStored | relay/app.py:4317-4422 | a delta-protocol frame is acknowledged only if its number is at most the stored one |
| LiveRelayProofs.RefusedIsRetried | relay/app.py:4366-4395 | a frame the API refuses is neither committed nor acknowledged and is ready again; accepted then, exactly its state is committed |
| LiveRelayProofs.GapRequestRange | relay/app.py:3022-3060 | a gap request asks for a non-empty range from the stored number + 1 (or 1) to the frame that revealed it, and never while the stream is blocked |
| LiveRelayProofs.BlockStaysAhead | relay/app.py:4372-4395 | in every interleaving an API-block marker is above the stored number |
| LiveRelayProofs.NextFrameCommits | relay/app.py:4328-4395 | with the frame before it stored and the API accepting, the next frame commits S_n if and only if it is short enough and lands; then it clears the block and is acknowledged |
| LiveRelayProofs.FrameIsAnswered | relay/app.py:4301-4423 | whatever is stored, a frame the Agent built is answered by exactly one message: an acknowledgement, a resync request or the resend request for the right range, and by none only while its gap is blocked |
| RelayAnswers.DeltaAnswer | relay/app.py:3022-3060 | for any payload that is a delta within the limits (64-character stream id, at most 4096 operations): a resend from the stored number + 1 (or 1, up to frame 1024), a resync, an acknowledgement, or the commit, by the stored and the frame number alone |
| RelayAnswers.FullAnswer | relay/app.py:3007-3020 | a full frame is acknowledged when its number is stored already, otherwise committed and acknowledged, or blocked when the API refuses |
| RelayAnswers.MalformedAnswer | relay/app.py:2679-2730 | every other payload of the format is answered by a resync of the stream it names, except for the TypeError of an unhashable kind |
| RelayAnswers.LegacyAnswer | relay/app.py:2994-3001 | a payload of another format is acknowledged exactly when the API took it |
| RelayAnswers.AgentFrameAnswer | relay/app.py:4301-4423 | for the n-th frame of the Agent, by n and the number stored: resend from stored + 1 exactly when something is stored and n is beyond the next; with nothing stored resend from 1 for n up to 1024 and resync above; acknowledged up to the stored number; and what the next frame does |
| RelayAnswers.ExpiryForgets | relay/app.py:2954-2991 | an expired state counts as nothing stored, an expired marker blocks nothing, and other streams keep theirs |
| LiveRelayProofs.EachCommitsIff | relay/app.py:4328-4395 | replaying a requested range in order with the API accepting commits every state of it if and only if every frame is deliverable |
| LiveRelayProofs.ReplayCatchesUp | relay/app.py:4328-4395 | replaying a deliverable range in order with the API accepting ends with the stored number equal to the range end, the block cleared and every frame acknowledged |
| LiveSystem.StepKeeps | relay/app.py:4293-4430 | every step of Agent, network, API and expiry, whatever states are observed and whatever other events share the buffer, keeps the joint invariant |
| LiveSystem.EveryRunIsSafe | relay/app.py:4293-4430 | over every run of the whole system acknowledged frames are covered by a commit and no published frame is forgotten; and stored states are the Agent's as long as the stream's first change that does not land is refused |
| LiveSystem.OtherTrackKeeps | agent-tauri/src-tauri/src/relay/supervisor.rs:3832-3837 | an end-of-game event takes a place in the same buffer; the frame it pushes out counts as given up, and all else stays true |
| LiveSystem.GapIsRepaired | agent-tauri/src-tauri/src/relay/supervisor.rs:3859-3884 | what the Agent resends for a gap, delivered with the API accepting, ends the gap and is acknowledged frame by frame |
| Connections.ConnectionManager.AttachSession | relay/connections.py:102-150 | the session's old socket is dropped, the new one waits to be bound, and the socket to close is returned |
| Connections.ConnectionManager.BindDiscord | relay/connections.py:152-245 | a waiting socket is bound, turned away or replaces the owner exactly as the table specification says |
| Connections.ConnectionManager.UnregisterWs | relay/connections.py:247-260 | the socket is dropped, and its Discord id is reported offline exactly when it was the owner |
| Connections.ConnectionManager.DropWsLocked | relay/connections.py:262-291 | the new table is the specification's drop: routing, caches, tokens and awaited results |
| Connections.ConnectionManager.CancelPendingForDiscordLocked | relay/connections.py:359-363 | the loop removes exactly the user's entries and cancels those of their futures that are not done |
| Connections.ConnectionManager.MarkAgentActivity | relay/connections.py:365-375 | only a socket with a session or an owner gets a new heartbeat time |
| Connections.ConnectionManager.SetAgentInfoForWs | relay/connections.py:393-410 | a hello before binding is kept per socket, a later one per user with the known name and avatar kept |
| Connections.ConnectionManager.IsCurrentWs | relay/connections.py:437-446 | the nested checks equal the table predicate |
| Connections.ConnectionManager.RegisterPendingResult | relay/connections.py:509-512 | the request id leads to the new future |
| Connections.ConnectionManager.CompletePendingResult | relay/connections.py:514-519 | the entry is removed and its future gets the result exactly when it was not done |
| Connections.ConnectionManager.CancelPendingResult | relay/connections.py:521-524 | the entry is removed and its future cancelled unless done |
| ConnectionProofs.DropKeepsTable | relay/connections.py:262-291 | dropping any socket keeps the routing maps mutually inverse and the waiting/bound split |
| ConnectionProofs.AttachKeepsTable | relay/connections.py:102-150 | attaching a new socket keeps them, and makes live exactly that socket instead of the session's old one |
| ConnectionProofs.BindKeepsTable | relay/connections.py:168-224 | every outcome of a bind request keeps them |
| ConnectionProofs.BindCases | relay/connections.py:174-182 | without takeover a bind is turned away exactly when the owner's heartbeat is at most 180 seconds old; in reachable tables the same-session test never decides |
| ConnectionProofs.LateCleanup | relay/connections.py:247-291 | cleaning up a socket that is not live changes only its own unread hello |
| ConnectionProofs.AttachKeepsHashes | relay/connections.py:132-139 | attaching keeps a non-empty refresh token hash of the session, forgets it otherwise, and leaves other sessions' alone |
| ConnectionProofs.BoundInfoReads | relay/connections.py:200-210 | field by field, a bound Agent is known by the hello it sent before, under the name and avatar of the profile when they are not empty |
| ConnectionProofs.BindTakesHello | relay/connections.py:198-210 | binding takes the socket's unread hello; when there is neither hello nor profile what was known stays |
| ConnectionProofs.HelloReads | relay/connections.py:393-410 | field by field, a later hello replaces what was known except a name and an avatar it does not bring; before binding it waits with its socket |
| ConnectionRuns.EveryRunKeepsRouting | relay/connections.py:102-291 | in every run _by_discord and _ws_discord, and _active_session_ws and _ws_session_id, are mutually inverse, live sockets split into waiting and bound, and no awaited result is lost |
| ConnectionRuns.CurrentIffRouted | relay/connections.py:437-446 | a socket is current exactly when it is live, exactly when a waiting session or a Discord id leads to it, never both |
| ConnectionProofs.DisplacedIsNotCurrent | relay/connections.py:437-446 | in any table a socket that nothing knows, or whose Discord id or session leads to another, is not current |
| ConnectionRuns.OwnerLeavesIff | relay/connections.py:174-200 | a Discord id leaves its owner exactly on disconnection or failed send, re-attachment of the owner's session, takeover, or a bind while the owner's heartbeat is more than 180 seconds old |
| ConnectionRuns.OwnershipOverRuns | relay/connections.py:174-200 | over any run the owner keeps the Discord id throughout if and only if none of those events happens |
| ConnectionRuns.HeartbeatIsLastSeen | relay/connections.py:365-375 | in every run the heartbeat of a live socket is the time of its attachment or latest activity |
| ConnectionRuns.SilentOwnerOnly | relay/connections.py:174-200 | over every run, without takeover an owner that attached or was active within the last 180 seconds keeps the Discord id and the other socket is turned away; an owner silent for longer, or any on takeover, is replaced |
| ConnectionRuns.GoneStaysGone | relay/connections.py:262-291 | a socket that is no longer live never becomes live again |
| ConnectionRuns.ReplacedIsGone | relay/connections.py:121-134 | after a re-attachment the new socket is live and the replaced one is not |
| ConnectionRuns.BindDecidesLive | relay/connections.py:168-224 | after a bind the bound socket is live and owns the Discord id, and the replaced or turned away one is not live |
| ConnectionRuns.BindTakesReports | relay/connections.py:168-224 | the bound socket has the trust given and is no longer waiting, and its Discord id is known by its hello and profile after everything known by a replaced owner is forgotten |
| ConnectionRuns.LateCleanupIsHarmless | relay/connections.py:247-291 | the cleanup of a displaced socket, at any later time, reports nobody offline and leaves routing, caches and awaited results alone |
| ConnectionRuns.OutcomeIsFinal | relay/connections.py:509-524 | a future's outcome never changes, and a result only comes from an arrival for the request it was registered under |
| ConnectionRuns.ResolvedOnce | relay/connections.py:509-524 | over any run a resolved future keeps its outcome |
| ConnectionRuns.ArrivalCompletes | relay/connections.py:514-524 | an arrival completes the open future of its request with that result, a cancellation cancels it, and nothing else changes |
| ConnectionRuns.AwaitedGetsResult | relay/connections.py:509-524 | however long and whatever the run, as long as a registered result is open it is still registered, and the first arrival completes it |
| ConnectionRuns.DropResolvesAwaited | relay/connections.py:359-363 | dropping a bound socket leaves nothing awaited from its user and resolves all of it |
| ConnectionRuns.DropForgets | relay/connections.py:262-291 | after dropping a socket nothing known by it is left: info and all five caches of its Discord id, its hello, and the token and hash of the session it waited with |
| ConnectionRuns.DropLeavesOthers | relay/connections.py:262-291 | dropping a socket leaves every other user's owner, caches and awaited results alone |
| BotEog.BotLink.RegisterPendingBotEog | relay/connections.py:526-532 | an earlier future of the event is answered no, and the event leads to the new one |
| BotEog.BotLink.CompletePendingBotEog | relay/connections.py:534-539 | the event's future gets the bot's answer exactly when it was not done |
| BotEog.BotLink.CancelPendingBotEog | relay/connections.py:541-544 | the event's future is answered no unless done |
| BotEog.BotLink.UnregisterBotWs | relay/connections.py:584-592 | only the current bot socket's loss empties the table, answering no to every future not done |
| BotEogProofs.UnregisterEffect | relay/connections.py:584-592 | after the bot disconnects nothing waits, and every future that waited was told no |
| BotEogProofs.CompleteReads | relay/connections.py:534-539 | an answer takes the event's entry away and resolves the future waiting under it, if open, with that answer; nothing else changes |
| BotEogProofs.StepKeeps | relay/app.py:3719-3812 | every step of every handler, the bot and its connection keeps the invariant |
| BotEogProofs.AckMeansStored | relay/app.py:3754-3812 | an acknowledged game was taken by the web, confirmed by the bot for that event id after this handler registered, or archived |
| BotEogProofs.WithheldIffNobodyStored | relay/app.py:3754-3812 | the acknowledgement is withheld exactly when web and archive refused and the bot, if reached by this handler, did not say yes |
| BotEogProofs.NoFutureIsLost | relay/connections.py:526-544 | under any, also repeated, event ids every future ever registered is waiting or done |
| BotEogProofs.ResolvedOnce | relay/connections.py:526-544 | no such future is ever resolved twice |
| BotEogProofs.BotAnswerIsHeard | relay/connections.py:534-539 | the bot's answer reaches the handler that waits for it: a yes lets it acknowledge, a no sends it to the archive |
| BotEogRuns.AckedIffTaken | relay/app.py:3754-3812 | over every run a finished handler has acknowledged if and only if in that run the web said yes to it, the archive did, or it forwarded and its future was answered yes; and then the bot said yes to that event while the handler was there |
| BotEogRuns.StaysOpenIff | relay/app.py:3719-3812 | an open future stays open over a step exactly if the step is none of those that close its event |
| BotEogRuns.OpenOverRuns | relay/app.py:3719-3812 | over any run it stays open if and only if nothing in the run closes its event |
| GlbFormat.PackedU32At | agent-tauri/scripts/blender/generate_book_return_v2_glb.py:125-127 | word k of a packed run stands at 4k, little-endian |
| GlbFormat.PackedU16At | agent-tauri/scripts/blender/generate_book_return_v2_glb.py:130-132 | short k of a packed run stands at 2k, little-endian |
| GlbFormat.Pad4 | agent-tauri/scripts/blender/generate_book_return_v2_glb.py:121-122 | the padded data begins with the data, is a multiple of four and less than four longer, and the rest is padding |
| GlbWriter.SubdividedPlane | agent-tauri/scripts/blender/generate_book_return_v2_glb.py:37-59 | each of the 832 cells has, in figures, its own four corners over x and y from -1 to 1 and its two triangles, which turn to the side asked for |
| GlbWriter.BuildPrimitives | agent-tauri/scripts/blender/generate_book_return_v2_glb.py:69-118 | eight shapes in figures: sheets at z = -0.135 and z = 0.135, edges at x = -1 and x = 1 and, in two halves each, at y = 1 and y = -1, each with its four corners, and every triangle turned into the book |
| GlbWriter.Writer.AddBlob | agent-tauri/scripts/blender/generate_book_return_v2_glb.py:135-140 | the payload goes to the next multiple of four after what is already there, which stays |
| GlbWriter.Writer.MakeView | agent-tauri/scripts/blender/generate_book_return_v2_glb.py:157-166 | the new view says where the payload went, and its number is returned |
| GlbWriter.Generate | agent-tauri/scripts/blender/generate_book_return_v2_glb.py:148-251 | the loops over the shapes and the container assembly equal the specification, errors included |
| GlbWriter.GenerateBook | agent-tauri/scripts/blender/generate_book_return_v2_glb.py:148-251 | the generator builds those eight shapes and writes the file the specification says for them |
| GlbReader.ReadGlbAccessor | agent-tauri/src/htmlCanvasEffects.ts:1198-1251 | the nested loops give all numbers of the accessor by its stride and offsets, or nothing when it is malformed or reaches outside |
| GlbReader.ReadIndices | agent-tauri/src/htmlCanvasEffects.ts:1327-1338 | indices are counted or read and rebased, and one out of range gives nothing |
| GlbReader.ReadPrimitive | agent-tauri/src/htmlCanvasEffects.ts:1293-1338 | one primitive's six numbers a vertex and its indices, as the specification says |
| GlbReader.FindChunks | agent-tauri/src/htmlCanvasEffects.ts:1262-1282 | the chunk loop finds the last JSON and binary chunks, or nothing when one overruns the file |
| GlbReader.ParseBookModelGlb | agent-tauri/src/htmlCanvasEffects.ts:1252-1350 | the whole parse equals the specification on every byte sequence |
| GlbReading.AccessorIsRead | agent-tauri/src/htmlCanvasEffects.ts:1198-1251 | an accessor is read exactly if it is there with the type asked for, unsparse, of a known size (5121, 5123, 5125, 5126), strided wide enough, and each of its numbers stands inside the binary chunk; and then they are those, least byte first |
| GlbReading.PrimitiveIsTaken | agent-tauri/src/htmlCanvasEffects.ts:1293-1338 | when a primitive is passed over, ends the parse, or is taken; and then which six numbers each of its vertices and which indices it adds |
| GlbReading.ChunkIsRead | agent-tauri/src/htmlCanvasEffects.ts:1262-1282 | the next chunk, by its length and the letters JSON or BIN: it becomes the document or the binary chunk, is skipped, or ends the parse |
| GlbReading.TrimReads | agent-tauri/src/htmlCanvasEffects.ts:1273 | of the text of the document exactly the NULs and spaces at its end are left out |
| GlbReading.MeshIsChosen | agent-tauri/src/htmlCanvasEffects.ts:1285-1288 | the mesh is the first named YummiBook, or else the first |
| GlbReading.ParsedIsWellFormed | agent-tauri/src/htmlCanvasEffects.ts:1252-1350 | whatever bytes are parsed, a model comes out only of a file that begins as binary glTF 2, with vertices of six numbers on faces 0 to 7 and indices of those vertices only, wide exactly if one is above 65535 |
| GlbRoundTrip.PutViewEffect | agent-tauri/scripts/blender/generate_book_return_v2_glb.py:135-166 | a new payload stands aligned where its view says, after all earlier ones, which stay where they are |
| GlbRoundTrip.PayloadsApart | agent-tauri/scripts/blender/generate_book_return_v2_glb.py:168-176 | in the finished file all payloads stand aligned, disjoint and where their views say |
| GlbRoundTrip.WrittenIff | agent-tauri/scripts/blender/generate_book_return_v2_glb.py:237-246 | a file comes out exactly when every shape has 16-bit indices and vertices and the file stays under 4 GiB |
| GlbReading.WrittenBegins | agent-tauri/scripts/blender/generate_book_return_v2_glb.py:237-251 | a written file byte by byte: the glTF header with its own length, the JSON chunk filled up with spaces, the binary chunk filled up with NULs |
| GlbRoundTrip.ReadsShape | agent-tauri/src/htmlCanvasEffects.ts:1198-1251 | the accessors of a written shape are read back as exactly its words and shorts |
| GlbRoundTrip.BookSurvives | agent-tauri/src/htmlCanvasEffects.ts:1252-1350 | parsing the generated file gives the concatenated vertices tagged with their faces and the indices rebased by the vertices before them |
| GlbRoundTrip.GeneratedBookSurvives | agent-tauri/src/htmlCanvasEffects.ts:1252-1350 | the generator's own eight shapes: a file comes out exactly when it stays under 4 GiB, and it is parsed as exactly their book, with 16-bit indices |
| GlbFigures.ParsedBookInFigures | agent-tauri/src/htmlCanvasEffects.ts:1252-1350 | the generated file is parsed as 6680 vertices and 10020 narrow indices; every vertex stands, in the words of the file, on the plane of the face it is tagged with, every face has its own corners in order, and every edge is two triangles over its four |
| GlbFigures.SheetEnds | agent-tauri/scripts/blender/generate_book_return_v2_glb.py:37-59 | the corners of the two sheets are corners of the box, where the edges begin and end |
| GlbRoundTrip.IndicesInside | agent-tauri/src/htmlCanvasEffects.ts:1327-1338 | every index of the book is one of its vertices |
| GlbRoundTrip.SmallBookIsNarrow | agent-tauri/src/htmlCanvasEffects.ts:1342-1349 | up to 65536 vertices the indices stay 16-bit |
| GlbRoundTrip.NamesRecoverFaces | agent-tauri/src/htmlCanvasEffects.ts:1303-1311 | a primitive without its face tag is recognised by its material name wherever it stands |
| GridMesh.CreateMesh | agent-tauri/src/htmlCanvasEffects.ts:927-963 | the mesh has all cells of the grid in row order; there is one exactly when the buffers are there and 4 * columns * rows is at most 65535 |
| GridMesh.CellsTile | agent-tauri/src/htmlCanvasEffects.ts:932-939 | every point of the picture is inside exactly one cell |
| GridMesh.CellsInside | agent-tauri/src/htmlCanvasEffects.ts:932-935 | the grid has exactly the cells within its rows and columns |
| GridMesh.CellsOnce | agent-tauri/src/htmlCanvasEffects.ts:932-935 | no cell comes twice |
| GridMesh.IndicesFit | agent-tauri/src/htmlCanvasEffects.ts:949-961 | every triangle corner is one of its own cell's vertices and fits 16 bits |
| GridMesh.MeshInFigures | agent-tauri/src/htmlCanvasEffects.ts:932-961 | what stands in the buffers for the cell in any row and column: the position, texture coordinates and centre of its four corners, and its two triangles |
| GridMesh.CentreIsInside | agent-tauri/src/htmlCanvasEffects.ts:938-948 | all four corners of a cell carry the same centre, and it is inside that cell |
| HudGeometry.MidHalves | agent-tauri/gamebar-widget/HudGeometry.cs:54-57 | whichever bound moves to the rounded middle, the gap in whole pixels is halved, rounding up |
| HudGeometry.SearchUpward | agent-tauri/gamebar-widget/HudGeometry.cs:51-58 | within 14 probes the fitted value is accepted and less than two (for a whole target at most one) below a rejected one |
| HudGeometry.SearchFromMinimum | agent-tauri/gamebar-widget/HudGeometry.cs:88-94 | the same, and it ends below its start exactly when the first middle is below it and accepted |
| HudGeometry.FitAxisUpward | agent-tauri/gamebar-widget/HudGeometry.cs:44-59 | no accepted size along the axis is a pixel (two for a fractional target) above the fitted one |
| HudGeometry.FitLargestUpward | agent-tauri/gamebar-widget/HudGeometry.cs:28-80 | at most 32 probes, accepted from an accepted start, at least min(current, target) and largest along each axis; narrower than the current size exactly when only the other axis is below its target |
| HudGeometry.FitLargest | agent-tauri/gamebar-widget/HudGeometry.cs:82-106 | at most 33 probes, accepted exactly when the whole size or the minimum is, largest along each axis, and below the minimum exactly when the search goes below it |
| HudGeometry.StartsAt | agent-tauri/gamebar-widget/HudGeometry.cs:31-32 | where growing starts: at the target, the current size or one |
| HudGeometry.LargestMeans | agent-tauri/gamebar-widget/HudGeometry.cs:52-58 | what largest along an axis means: nothing accepted is two pixels above, and for a whole target nothing is one above |
| HudGeometry.WholeBoundStaysAbove | agent-tauri/gamebar-widget/HudGeometry.cs:89-94 | with a whole minimum or target the search never goes below its minimum |
| HudGeometry.FractionalMinimumIsLost | agent-tauri/gamebar-widget/HudGeometry.cs:89-94 | between 2.3 and 3.5 it does |
| HudGeometry.AcceptedWidthIsLost | agent-tauri/gamebar-widget/HudGeometry.cs:25-32 | with 100 by 50 accepted and nothing higher, growing towards 80 by 60 ends at 80 by 50 |
| HudGeometry.SpanIsReached | agent-tauri/gamebar-widget/HudGeometry.cs:52-58 | the spans that 14 halvings reach |
| LineReader.ReadLine | agent-tauri/gamebar-widget/NativePipeClient.cs:45-67 | for every cutting into chunks the result is the line before the first newline without trailing carriage returns, too large, or incomplete, by the joined bytes alone |
| LineReader.TrimmedReturns | agent-tauri/gamebar-widget/NativePipeClient.cs:64 | trimming removes exactly the trailing carriage returns |
| LineReader.LineReads | agent-tauri/gamebar-widget/NativePipeClient.cs:58-64 | when the first newline (10) is within 65536 bytes the line is exactly what stands before it without the carriage returns (13) at its end |
| LineReader.LineCases | agent-tauri/gamebar-widget/NativePipeClient.cs:58-64 | a line exactly when a newline comes within 65536 bytes, too large exactly when the first 65537 have none, incomplete otherwise |
| Redaction.RedactPersistentKeyValue | agent-tauri/src-tauri/src/diagnostics.rs:171-221 | the cursor loop stays in range, ends, and equals the specification of one pass, which RedactedText says for every text in its characters |
| LogSanitizer.SanitizeDetail | agent-tauri/src-tauri/src/diagnostics.rs:132-169 | the output is the text with control characters blanked, every key masked in turn and cut to 2048; in it every assignment to every one of the fifteen keys has a masked value, or one that ends inside its mask |
| RedactionProofs.RedactTwice | agent-tauri/src-tauri/src/diagnostics.rs:171-221 | a second pass for the same key changes nothing |
| RedactionProofs.PassMasks | agent-tauri/src-tauri/src/diagnostics.rs:171-221 | after a pass, in any text, every occurrence of the key followed by blanks and a sign of assignment has a masked value |
| RedactionProofs.MaskedIffUnbordered | agent-tauri/src-tauri/src/diagnostics.rs:171-221 | that holds for every text exactly when no end of the key is also a beginning of it |
| RedactionProofs.BorderLeaks | agent-tauri/src-tauri/src/diagnostics.rs:171-221 | for a key that overlaps itself, a text whose value survives the pass |
| RedactionProofs.PassKeepsMasked | agent-tauri/src-tauri/src/diagnostics.rs:161-164 | a pass for one key leaves the values of another masked |
| RedactionProofs.CutTextIsMasked | agent-tauri/src-tauri/src/diagnostics.rs:165-168 | cutting to length leaves every value masked or ending inside its mask |
| RedactedText.BareValueIsMasked | agent-tauri/src-tauri/src/diagnostics.rs:171-221 | for a key first read at a place and followed by blanks, = or :, blanks and a bare value: exactly the characters up to the first white space, &, comma, ] or } become ***, and the rest is passed on |
| RedactedText.QuotedValueIsMasked | agent-tauri/src-tauri/src/diagnostics.rs:171-221 | the same for a quoted value, up to the same quote, both quotes kept |
| RedactedText.OpenValueIsMasked | agent-tauri/src-tauri/src/diagnostics.rs:171-221 | a value whose quote does not close becomes *** up to the end of the text |
| RedactedText.UnassignedIsKept | agent-tauri/src-tauri/src/diagnostics.rs:171-221 | a key that nothing is assigned to is passed over unchanged |
| RedactedText.NothingToMask | agent-tauri/src-tauri/src/diagnostics.rs:171-221 | a text in which the key is nowhere read, in either case of its letters, is unchanged |
| RedactedText.SecretIsLogged | agent-tauri/src-tauri/src/diagnostics.rs:132-169 | a detail with one secret, bare or quoted, is logged with exactly that value replaced: nothing of it is left and nothing else is lost |
| RedactedText.HarmlessIsLogged | agent-tauri/src-tauri/src/diagnostics.rs:132-169 | a detail without any of the names is logged as it is, control characters as blanks, up to its 2048th character |
| RedactedText.SecretNames | agent-tauri/src-tauri/src/diagnostics.rs:132-149 | the fifteen names |
| LogSanitizer.LoggedTextIsMasked | agent-tauri/src-tauri/src/diagnostics.rs:132-169 | after all passes every assignment to every one of the fifteen keys is masked; after the cut to 2048 it is masked or ends inside its mask |
| FlightRecorder.Recorder.RecordWithWriter | agent-tauri/src-tauri/src/diagnostics.rs:39-61 | the record is handed to the writer and memory keeps the last 2048 |
| FlightRecorder.PersistentFlightWriter.Enqueue | agent-tauri/src-tauri/src/diagnostics.rs:246-252 | a record is queued when there is room and a thread, counted as dropped otherwise |
| FlightRecorder.StepKeeps | agent-tauri/src-tauri/src/diagnostics.rs:39-61 | every step of producer and writer keeps the accounting |
| FlightRecorder.NothingIsUnaccounted | agent-tauri/src-tauri/src/diagnostics.rs:223-253 | in every run made = written + being written + queued + dropped, what passed is an in-order subsequence, and memory is exactly the last 2048 |
| FlightRecorder.NothingDroppedIffRoom | agent-tauri/src-tauri/src/diagnostics.rs:246-252 | in every run nothing is dropped if and only if the queue has room whenever a record is made, and then everything made is passed in order |
| BlockingIoGate.BlockingIo.Run | agent-tauri/src-tauri/src/blocking_io.rs:17-34 | a call starts its operation exactly when the permit is free, and is told busy otherwise |
| BlockingIoGate.PermitsAndOperations | agent-tauri/src-tauri/src/blocking_io.rs:17-34 | under every interleaving of calls, ends, timeouts and cancellations free permits + outstanding operations = 1, no two operations overlap, and nobody waits for one that is not running |
| BlockingIoGate.BusyIffOutstanding | agent-tauri/src-tauri/src/blocking_io.rs:22-25 | a call is turned away exactly while an operation is outstanding, and only its end lets the next one in |
| BlockingIoGate.ToldOnce | agent-tauri/src-tauri/src/blocking_io.rs:17-34 | what each caller is told, once: busy at once, the end or the failure of its operation while it still waits, or that its time is up |
| BlockingIoGate.CallerWaits | agent-tauri/src-tauri/src/blocking_io.rs:17-34 | a started call waits and runs until its operation ends; a caller timed out or cancelled waits no longer while its operation goes on |
| NativeInputSync.Widget.BeginSync | agent-tauri/gamebar-widget/Widget.xaml.cs:2905-2927 | the flag, time and generation after the watchdog and the start, as a function of those before |
| NativeInputSync.Widget.EndSync | agent-tauri/gamebar-widget/Widget.xaml.cs:3154-3163 | only an operation of the stored generation clears the flag |
| NativeInputSync.FlagMeansInFlight | agent-tauri/gamebar-widget/Widget.xaml.cs:2905-3163 | in every run the flag is set exactly while an operation of the stored generation is in flight, and there is at most one |
| NativeInputSync.CompleteKeeps | agent-tauri/gamebar-widget/Widget.xaml.cs:3154-3163 | the stored generation matches exactly for the current operation, as long as none in flight is 2^32 increments old |
| NativeInputSync.CompletionClears | agent-tauri/gamebar-widget/Widget.xaml.cs:3154-3163 | the completion of the stored generation clears the flag and its time, any other leaves them |
| NativeInputSync.AbandonedUnlocksNothing | agent-tauri/gamebar-widget/Widget.xaml.cs:3154-3163 | an abandoned completion changes nothing but its own being in flight |
| NativeInputSync.WatchdogDecides | agent-tauri/gamebar-widget/Widget.xaml.cs:2908-2927 | a sync begun less than 500 ms ago is left alone; an older one is abandoned and, if there is a widget, a new one begins |
| NativeInputSync.IdleBegins | agent-tauri/gamebar-widget/Widget.xaml.cs:2918-2927 | without one in flight a sync begins exactly when there is a widget |

## Left out

- Redis, HTTP, WebSocket, Discord and LiveKit calls: their outcomes are parameters of steps; key lifetimes are expiry steps at any time.
- OAuth, device proofs, tokens' contents, trust registration, HMAC and DPAPI: library cryptography and configuration.
- JSON and UTF-8 text, the textual form of UUIDs, float rounding: opaque values; two floats are equal exactly when their bits are, so 0.0 and -0.0 are not identified.
- Error messages: every ValueError of the receiver is one refusal, and the TypeError for an unhashable kind ends the handler without an answer; what then becomes of the socket is `Connections`.
- The Redis keys of different Discord ids: `LiveRelay` is one id's streams, and keys of different ids never coincide.
- A failure between committing a state and acknowledging it: for the Agent it looks like a lost acknowledgement, which is modelled.
- Persistence of the Agent's replay buffer to disk, the polling cadence, and u64 saturation of sequence numbers.
- LiveSystem.GapIsRepaired: is about frames the Agent still holds and that are deliverable; frames it gave up are covered by `NothingForgotten` in `EveryRunIsSafe` only as given up.
- Disconnect and reconnect counters, device challenges, participant status, subscriptions and the status shown for a connection: only easy members.
- DiscordId integers, session ids and sockets are compared as given; reuse of a Python object id after a socket is gone is excluded, as is a socket attaching twice.
- RedactionProofs.PassMasks: says nothing about a key in quotes before a colon (`"token": "x"`), because the scan itself does not take that for an assignment and leaves the value in place.
- Log files, their rotation and the writer thread's own errors.
- GlbWriter.Generate: leaves out the parts of the document that the parser does not read (asset, scenes, nodes, accessor bounds, material colours).
- GlbReader.ParseBookModelGlb: numbers in the document are integers, and a material name that is the name of an inherited JavaScript property is not treated specially; vertices are given before the conversion to typed arrays, and no index list is too long to be spread into `Math.max`.
- `createBookMesh`, shaders and drawing.
- HudGeometry.Host: answers by a predicate that does not change during a search; doubles are real numbers.
- LineReader.ReadLine: the line is given as bytes before UTF-8 decoding, and cancellation while waiting for a chunk is left out.
- NativeInputSync.FlagMeansInFlight: assumes that no sync in flight is a whole turn of the 32-bit generation counter old, which the counter cannot tell.
- The reports, validators and metrics of the other message types, the recording and LCU watchers, and the user interface.
