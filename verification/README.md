# Verification of pano's algorithms and protocols

pano is an HTTPS-intercepting proxy. Between its plumbing sit small algorithms and protocols
whose correctness is easy to lose: a line diff that must stay minimal although it trims, a
frame parser fed in arbitrary pieces, a hand-off raced by four parties, a system setting that
must survive a crash. This project models them in Dafny and proves what they promise.

`dafny verify dfyconfig.toml` checks everything.

## How the model is laid out

- Text and JSON diff: `EditScript`, `CommonSubsequence`, `LineDiff`, `Hunks`, `JsonDiff`,
  `JsonPatch`, `JsonChanges` (what is listed, told from the documents alone).
- WebSocket capture: `WebSocket` (the parser), `WebSocketChunks` (when it does not matter how a
  stream is cut), `WebSocketMarks` (the same for the truncation mark), `WebSocketFraming` and
  `WebSocketDelivery` (parsing inverts sending).
- Breakpoints: `Hold` (the state machine), `HoldSteps`, `HoldRuns`, `HoldEngine` (the critical
  sections).
- System proxy: `SysProxy` (settings and commands), `SysProxyMachine`, `SysProxySafety`,
  `SysProxyRuns`, `SysProxyManager` (the methods, each outside effect one step of the machine).
- Wildcards: `Glob`, `HostGlob`.
- Throttling: `TokenBucket` (time told in bytes, so all arithmetic is linear), `Throttle`.
- Stream reassembly: `Sse`, `SsePrinting`, `SseTerminators` (line ends of different kinds),
  `Anthropic`, `AnthropicStreaming`, `OpenAiChat`, `OpenAiReassembly`, `OpenAiStreaming`, over
  `Json` and `JsonUtil`.
- Flow store: `MemRing`, `Mem`, `FlowId`, `Pagination`, `Blobs`, `MemBlobs`.
- Rules: `SetPath` and `BodyPatch` (paths in documents as values); `JsonTree` (the same in place
  on mutable nodes); `RuleValues` and `TwoPathsInPlace` (two paths: what becomes of the rule's own
  values, which bodies take in), `NestedRules`, `JoinedValues` and `BodyPatchInPlace` (any number
  of paths, body after body); `HitLimit`.
- `Seqs`, `Sorting`, `Text`, `Bytes`, `Options` are shared facts.

Objects whose methods change fields are classes with those fields; each method is proved equal
to a function of the old state, and the promises are lemmas about that function. Concurrent and
crash-prone code is a machine of atomic steps, and the promises are lemmas about all its runs.

What the model takes as given:

- Clocks, random gates, failing commands, what the system lists and what other goroutines do are
  parameters, nondeterministic choices or steps of a machine.
- Text is a sequence of characters; case folding and trimming are those of ASCII. Hosts and
  patterns are meant to be ASCII.
- Decoding JSON text, reading a number as an integer and writing an integer are function
  parameters (`JsonUtil.Library`), as is hashing in `MemBlobs`. Decoded values are immutable
  except in `JsonTree` and the modules built on it, so deep copies are left out.
- `networksetup` behaves as the comments and the fake in the repository's tests say: setting a
  server or a PAC URL switches it on, the bypass argument `Empty` clears the list, a failing
  command may or may not have had its effect, and only a missing service is reported missing.
  Service names are listed once each, and nobody else edits the settings.

## What was found

- The line script is minimal if and only if the trimmed middles are within the cell budget or
  share no line (`LineDiff.DiffLines`); otherwise it is a whole-block replacement, as for the
  two texts of 2001 lines in `LineDiff.OverBudget`.
- However a stream is cut into writes, the frame parser emits the same if and only if the stream
  ends with the first header that declares more than `1 << 31` bytes, or has none
  (`WebSocketChunks.CutsNeverMatterIff`). Behind such a header the rest of the write is dropped,
  but the next write is parsed afresh, although the comment there says that parsing of this
  direction stops; `WebSocketChunks.HugeHeaderThenPing` is such a stream. The truncation mark
  also depends on the cuts when one falls into a control frame longer than the limit
  (`WebSocketMarks.StateNeverDependsIff` has the exact condition), but nothing reads it.
- The hunks of a diff that is not capped have two lines of context on either side, as promised,
  if and only if the two texts do not share just three or four lines at the end: those are all
  shown (`Hunks.DiffText`), as for the two texts in `Hunks.ThreeLinesShown`.
- A parked exchange is left without an outcome if and only if its id is parked again while it
  is still registered (`HoldRuns.ParkedOverWaitsForever`). One goroutine handles an exchange, so
  this does not arise.
- Disabling restores a service exactly if and only if it did not have a PAC switched on without a
  URL and its bypass list was not the single word `Empty`
  (`SysProxyRuns.RestoreIsExactOverRuns`); any other configuration is lost in some run
  (`SysProxyRuns.UnrestorableIsLost`).
- The host matcher agrees with the wildcard language on every host if and only if the pattern
  has no `?`, which it takes literally (`HostGlob.AgreeIffNoQuestionMark`). Its comment says that
  it reuses the glob semantics.
- To that matcher a pattern with a `?` and no `*` means every host that begins with its text
  (`HostGlob.HostMeans`).
- The throttle's bound holds of all windows if and only if no single read exceeds the burst
  (`Throttle.WindowBoundIff`). The reader's cap on reads sees to that where the burst is a chunk
  or more (`Throttle.CappedWithin`), as it is for every rule.
- A blank line ended by LF is lost behind a line ended by CR, for the two are read as one line
  end. The events of a body come back if and only if no lost blank lines join two of them
  (`SseTerminators.MixedReadBackIff`); in `SseTerminators.MixedBody` two events become one.
- A JSON patch sets the rule's own values in the body, not copies, so a path that leads into
  another path's value writes into the rule: `{"a": {}, "a.b": 1}` becomes
  `{"a": {"b": 1}, "a.b": 1}` with the first body (`RuleValues.ValueTakenIn`). For a rule of two
  paths, every later body gets what the rule as written gives, whatever the bodies, if and only if
  the second path is no longer than the first, or goes on from it as written, or cannot lead into
  it by any spelling of an index, or changes nothing there (`RuleValues.TwoPathRuleIff`). With
  `{"l.0": {}, "l.00.b": 1}` a body with an array makes the next one, with an object, wrong
  (`RuleValues.WrongSecondBody`).
- For any number of paths, each of which goes on from another as written or parts from it, and
  none of which makes a new container in the place of another's value, every body after any
  others gets what the rule as written gives (`BodyPatchInPlace.JsonPatchInPlace`,
  `NestedRules.GrownGivesTheSame`).
- The first texts that overflow a flow id are those of thirteen digits beginning with `g` or
  above; they are read modulo 2^64 (`FlowId.ParsedModulo`, `FlowId.FirstOverflow`).
- A chat stream that carries reasoning under both names gets it joined under the one that came
  first (`OpenAiStreaming.ReassemblyInvertsStreaming`).

## Model

| member | source | states |
|---|---|---|
| LineDiff.DiffLines | internal/view/diff.go:280-351 | dropping insertions gives a, dropping deletions gives b, positions count the lines consumed; the number of changes is minimal if and only if the trimmed middles are within the cell budget or share no line, and is the two middles' lengths when the budget is exceeded; the script of different texts ends in as many unchanged lines as the texts share at the end, and deletions come before the insertions they stand beside |
| LineDiff.OverBudget | internal/view/diff.go:305-311 | two texts over the budget that share a line get a script that is not minimal |
| LineDiff.TrimmingKeepsLcs | internal/view/diff.go:282-292 | trimming the common prefix and suffix takes exactly their length off the longest common subsequence |
| LineDiff.FillTable | internal/view/diff.go:313-324 | every cell of the int32 table is the longest common subsequence of the two rests, without overflow |
| LineDiff.WalkTable | internal/view/diff.go:325-345 | the greedy walk turns one middle into the other with as few changes as the table promises |
| EditScript.FewestChanges | internal/view/diff.go:277-279 | no script that turns a into b has fewer changes than the longest common subsequence allows |
| CommonSubsequence.LcsIsUpperBound | internal/view/diff.go:316-324 | the recurrence of the table bounds every common subsequence |
| CommonSubsequence.LcsIsAttained | internal/view/diff.go:316-324 | and some common subsequence has that length |
| Hunks.GroupHunks | internal/view/diff.go:201-259 | uncapped, hunks lie in order without touching, show exactly the lines within two lines of a change and a run of at most four lines behind the last, have correct headers and patch the old lines into the new; capped, they print exactly the first maxLines changes, the last hunk is cut in front of the next under the header of the whole one, and the rest is counted |
| Hunks.TwoLinesIff | internal/view/diff.go:176-178 | two lines of context on either side are shown if and only if the script does not end in three or four unchanged lines behind its last change |
| Hunks.PatchComplete | internal/view/diff.go:241-257 | hunks applied at their stated line numbers, with what lies between them kept, give the new text |
| Hunks.DiffText | internal/view/diff.go:180-260 | no changes are reported exactly when the texts agree up to a final newline; otherwise a script from a to b is grouped, minimal under the exact condition of the line diff: uncapped, its hunks are laid in order, show exactly the wanted lines, with two lines of context if and only if the texts do not share just three or four lines at the end, and patch a's lines into b's; capped, the last is cut in front of change number maxLines + 1 |
| Hunks.ThreeLinesShown | internal/view/diff.go:207-226 | x, 1, 2, 3 against y, 1, 2, 3 shows a line that is not within two lines of a change |
| Hunks.SameLinesIffSameText | internal/view/diff.go:262-268 | two texts have the same lines exactly when they differ at most in a final newline |
| JsonDiff.JsonDiffer.Note | internal/view/diff.go:82-87 | every change is counted and the first max of them are listed |
| JsonDiff.JsonDiffer.Walk | internal/view/diff.go:96-152 | the walk lists exactly the changes of the recursive definition, under the path it was given, and caps the list but not the count |
| JsonPatch.DiffPatches | internal/view/diff.go:96-152 | the changes replayed on a, additions and replacements first and removals from the last, give b |
| JsonPatch.NoChangesIffEqual | internal/view/diff.go:149-151 | there are no changes exactly when the documents are equal |
| JsonPatch.DiffTurnsRound | internal/view/diff.go:96-152 | the changes from b to a are those from a to b turned round, so the total is the same |
| JsonChanges.ListsDifferences | internal/view/diff.go:96-152 | a change is listed exactly where the two documents, looked up along its path, differ in that way: a value replaced, an array of another length, a key or item that one container has and the other of its kind lacks |
| JsonChanges.ListsInOrder | internal/view/diff.go:96-152 | the changes are listed in the order of paths, a place before what is inside it and keys as strings, so each place at most once |
| JsonPatch.DiffJson | internal/view/diff.go:41-60 | documents that parse are equal exactly when reported so; otherwise the total, the capped list and the count of the rest agree, and an uncapped list replays to b; text that does not parse is reported on as the text diff promises |
| WebSocket.FrameParser.Write | internal/proxy/websocket.go:173-183 | the parser's fields after a write are the function Written of those before |
| WebSocket.FrameParser.ParseOne | internal/proxy/websocket.go:186-260 | one frame is parsed exactly as ParseFrame reads the buffer, and delivered; an incomplete or over-long one has the stated effect |
| WebSocket.FrameParser.Append | internal/proxy/websocket.go:262-274 | the captured part grows up to the limit while the length counts everything |
| WebSocket.FrameParser.Emit | internal/proxy/websocket.go:276-286 | sequence numbers count up by one per message |
| Bytes.MaskedTwice | internal/proxy/websocket.go:231-238 | masking with a key undoes masking with it |
| Bytes.Unmask | internal/proxy/websocket.go:232-237 | every bit of every byte of the result is the sum modulo 2 of that bit of the payload and of the key repeated, for each i and each of the bits 1 to 128 |
| WebSocketChunks.ChunksDoNotMatter | internal/proxy/websocket.go:173-260 | any split of a stream in which nothing follows an over-long header emits the same messages and leaves the same bytes and message state as one write |
| WebSocketChunks.OverlongDropsTheRest | internal/proxy/websocket.go:210-214 | an over-long header drops the rest of its write, and the next write is parsed afresh |
| WebSocketChunks.CutsNeverMatterIff | internal/proxy/websocket.go:173-260 | all splits of a stream act as one write if and only if nothing follows its first over-long header |
| WebSocketChunks.HugeHeaderThenPing | internal/proxy/websocket.go:210-214 | a header that declares 1 << 63 bytes, alone, may be cut anywhere; with a ping behind it, the ping is emitted or lost depending on the cut |
| WebSocketMarks.StateNeverDependsIff | internal/proxy/websocket.go:173-274 | the parser ends in the very same state for all splits, the truncation mark included, if and only if nothing follows an over-long header and, going by the stream's frames and the limit, one write sets the mark or no control frame longer than the limit leaves it set |
| WebSocketMarks.MarkAtOnceIs | internal/proxy/websocket.go:218-274 | whether one write sets the mark is told by the stream's frames, the limit, and how much of a message is captured |
| WebSocketMarks.OneBytePing | internal/proxy/websocket.go:226-228 | a ping of one byte at limit zero leaves the mark set when it is cut |
| WebSocketFraming.ParseInvertsEncode | internal/proxy/websocket.go:186-239 | the parser reads back exactly the frame encoded, its payload masked bit by bit, whatever its mask, length form and fin bit, and whatever follows (section 5.2 of RFC 6455) |
| WebSocketFraming.HelloComesOut | internal/proxy/websocket.go:173-286 | the masked text frame of section 5.7 of RFC 6455 comes out as "Hello" |
| WebSocketFraming.OverlongIff | internal/proxy/websocket.go:204-214 | a header is refused if and only if it has the eight-byte length and that exceeds 1 << 31 |
| WebSocketFraming.BigEndianRoundTrip | internal/proxy/websocket.go:201-207 | a length written in k bytes reads back when it fits |
| WebSocketDelivery.ReassemblyInvertsFraming | internal/proxy/websocket.go:173-286 | for any messages, masks, fragmentation and control frames between fragments (sections 5.4 and 5.5 of RFC 6455), and any cutting into writes, each data message comes out once with its first frame's opcode, its full length and its first limit bytes, each control frame whole, in order and numbered on |
| WebSocketDelivery.DataStartsAnew | internal/proxy/websocket.go:250-258 | in any state, a data frame begins a message of its own opcode, length and first limit bytes, and a message underway is given up |
| WebSocketDelivery.ContinuationGoesOn | internal/proxy/websocket.go:244-249 | in any state, a continuation adds to the message underway as much as the limit allows, and completes it when it is the last |
| WebSocketDelivery.ControlStandsAlone | internal/proxy/websocket.go:241-243 | in any state, a control frame comes out on its own, whole, and leaves the message underway alone |
| HoldRuns.SendNeverBlocks | internal/rules/hold.go:225-236 | in every run, a sender that owes a message finds the one-slot channel empty and its waiter still waiting |
| HoldRuns.SentIsApplied | internal/rules/hold.go:207-236 | the message of a sender that has sent, be it a Resume that returned or releaseAll, is the one its waiter applies or finds in its slot, whatever happens afterwards |
| HoldRuns.AppliedWasSent | internal/rules/hold.go:63-95 | an outcome that applies a message was sent it by exactly one sender; a timeout or a lost client was never claimed |
| HoldRuns.ParkedIsFound | internal/rules/hold.go:44-53 | a parked exchange is found under its id until it is resumed, released, displaced or has left |
| HoldRuns.ResumeIsApplied | internal/rules/hold.go:207-236 | in every run, the exchange that Resume finds under an id applies exactly the message Resume was given, or is still waiting for it, whatever happens afterwards |
| HoldRuns.ReleaseAllIsApplied | internal/rules/hold.go:239-250 | every exchange registered when releaseAll runs goes on with the plain resume, or is still waiting for it, whatever happens afterwards |
| HoldRuns.AppliedWasAsked | internal/rules/hold.go:207-250 | what an exchange applies some Resume was given for its id, or is the plain resume of releaseAll |
| HoldRuns.LeftForThat | internal/rules/hold.go:63-95 | an exchange that ends without a message left for the reason that its own select fired |
| HoldRuns.OneOutcome | internal/rules/hold.go:63-95 | an outcome is final |
| HoldRuns.LostRaceHasMessage | internal/rules/hold.go:66-77 | after unregister returned false, the message is in the slot or exactly one sender is committed to it |
| HoldRuns.EveryWaitEnds | internal/rules/hold.go:51-95 | a waiting exchange always has an enabled step of its own or of its sender that brings it closer to its outcome, at most five of them |
| HoldRuns.NoStepSetsBack | internal/rules/hold.go:51-107 | no step of anyone takes a waiting exchange further from its outcome |
| HoldRuns.ParkedOverWaitsForever | internal/rules/hold.go:51-53 | a step strands an exchange if and only if it parks an id that is still registered, and that exchange then waits through every continuation |
| HoldRuns.ParkingTwiceAtOnce | internal/rules/hold.go:51-53 | a run that strands one |
| HoldRuns.InTurnDisplacesNobody | internal/rules/hold.go:51-53 | parking an id only when its earlier wait is over strands nobody, over any run |
| HoldSteps.StepKeeps | internal/rules/hold.go:51-107 | every atomic step keeps the invariant: a waiting exchange is registered, or claimed exactly once with its message owed or in the slot, or displaced |
| HoldEngine.Engine.Register | internal/rules/hold.go:44-53 | making and registering an entry is the park step |
| HoldEngine.Engine.Unregister | internal/rules/hold.go:99-107 | removes the entry exactly when it is still the one registered, and reports that |
| HoldEngine.Engine.Claim | internal/rules/hold.go:225-235 | Resume takes the entry under lock and owes exactly that entry exactly the message given, or finds none and changes nothing |
| HoldEngine.Engine.ClaimAll | internal/rules/hold.go:239-250 | releaseAll takes every registered entry once, in whatever order, and owes each the plain resume |
| SysProxyRuns.CrashSafety | internal/sysproxy/darwin.go:176-305 | over any run of enabling, disabling and restoring with failing commands, vanishing services and a crash after any step: without a state file the live settings are the original ones, with one it records the original ones of every service it covers and the others are live |
| SysProxyRuns.AdminIsRecorded | internal/sysproxy/darwin.go:228-247 | enabling that completes leaves its snapshot, which says whether a command ever ran with administrator rights |
| SysProxyRuns.EnableCoversListed | internal/sysproxy/darwin.go:176-250 | what enabling writes, when there was no file, names exactly the services listed, in order |
| SysProxyRuns.RestoreIsExactOverRuns | internal/sysproxy/darwin.go:270-305 | when a restore without errors removes the file, a service it covered is as before pano if and only if its configuration is restorable |
| SysProxyRuns.AlwaysRecoverable | internal/sysproxy/darwin.go:262-305 | from wherever a run has got to, some continuation brings back the original settings of all the services there are |
| SysProxyRuns.UnrestorableIsLost | internal/sysproxy/darwin.go:270-336 | wherever a service has a configuration that is not restorable, some run with a crash ends without a file and with other settings for it |
| SysProxySafety.StepKeeps | internal/sysproxy/darwin.go:176-305 | every step of the machine keeps the write-ahead invariant |
| SysProxy.RestoreIsExact | internal/sysproxy/darwin.go:309-336 | the restore commands, run on whatever the configuration has become, bring back what was recorded if and only if that is restorable |
| SysProxy.AllRestored | internal/sysproxy/darwin.go:309-336 | exactly what the restore commands bring back: enabled flags, enabled servers and ports, bypass list, PAC and WPAD state |
| SysProxy.OldSnapshotRestored | internal/sysproxy/darwin.go:309-336 | a snapshot without automatic configuration leaves that as it is and brings back the rest |
| SysProxy.MergeBypassIsUnion | internal/sysproxy/sysproxy.go:59-77 | the merged bypass list is the union of the three lists, trimmed, without blanks or repeats |
| SysProxy.MergeBypassInOrder | internal/sysproxy/sysproxy.go:59-77 | it keeps the order in which the existing list, the fixed entries and the extra ones first name them |
| SysProxyManager.Manager.Enable | internal/sysproxy/darwin.go:176-251 | without a file before and without an error, the file names exactly the services listed, in order, and each that is there has both proxies set to the target, the merged bypass list of what it had and automatic configuration off; with a file before, it covers the same services; all others are as they were, an invalid target changes nothing, and when the system is reliable there is no error; all outside effects are steps of the machine |
| SysProxyManager.Manager.Commit | internal/sysproxy/darwin.go:212-250 | its outside effects are steps of the machine, in which the snapshot is written before the first change; without an error every service covered points at pano |
| SysProxyManager.Manager.RestoreLocked | internal/sysproxy/darwin.go:270-305 | with an error the file is kept; without one there is no file and the settings are the original ones; when the system is reliable there is no error |
| SysProxyManager.Manager.Set | internal/sysproxy/darwin.go:491-506 | one command is one step of the machine, with or without administrator rights |
| SysProxyManager.Manager.CaptureAll | internal/sysproxy/darwin.go:433-465 | the snapshot records the live configuration of every service listed |
| Glob.MatchFolded | internal/glob/glob.go:13-43 | the backtracking matcher ends and says exactly whether the text is the pattern with stars replaced by any texts and question marks by single characters |
| Glob.Match | internal/glob/glob.go:9-11 | the same, ignoring case |
| Glob.MatchAny | internal/glob/glob.go:46-53 | whether any of the patterns matches |
| HostGlob.MatchHost | internal/store/row.go:30-52 | the loop computes the greedy scan over the pattern's segments |
| HostGlob.GreedyAgrees | internal/store/row.go:30-52 | on patterns without a question mark the greedy scan is the wildcard language |
| HostGlob.HostMeans | internal/store/row.go:30-52 | what every pattern means to the scan: with a star, its segments in order, the first at the beginning and the last at the end; with only question marks, its own text as a beginning of the host; otherwise the host itself |
| HostGlob.ScanIsRest | internal/store/row.go:41-51 | taking each segment at its first occurrence finds a match whenever there is one |
| HostGlob.AgreeIffNoQuestionMark | internal/store/row.go:30-52 | the two matchers agree on every host if and only if the pattern has no question mark |
| Throttle.WindowBound | internal/rules/throttle.go:29-70 | the bytes released between two release times total at most the burst and what the rate earns in between |
| Throttle.WindowBoundIff | internal/rules/throttle.go:10-12 | that holds of all windows if and only if no single read exceeds the burst |
| Throttle.CappedWithin | internal/rules/throttle.go:10-12 | when all reads are capped at the chunk size and the burst is that or more, the bound holds of all windows |
| Throttle.ReleasesInOrder | internal/rules/throttle.go:29-40 | release times never go backwards |
| Throttle.ImmediateIff | internal/rules/throttle.go:33-39 | a read goes through at once if and only if every window that ends with it stays within burst and rate |
| Throttle.ReleasedWhenCovered | internal/rules/throttle.go:29-40 | a read goes on at the first moment at which every window that ends with it is within the burst and what the rate has earned: at once, or when some window is just used up |
| TokenBucket.TightestWindow | internal/rules/throttle.go:33-35 | the tokens left are exactly the tightest allowance of the windows ending there |
| Throttle.Bucket.Reserve | internal/rules/throttle.go:29-40 | the fields are what the log of reservations makes them, and the caller's release time is logged |
| Throttle.Bucket.Read | internal/rules/throttle.go:53-70 | a read yields at most the chunk size and pays for what it got; it goes on at its release time with what the reader below reported, or with an error as soon as the context is done before that; reads keep the log capped, so the bound holds of all windows of a log they fill |
| Sse.ParseSSE | internal/explain/sse.go:26-81 | the loop computes the events of the body's lines, fed one by one |
| SsePrinting.ParseInvertsPrinting | internal/explain/sse.go:19-81 | whatever the order and form of field lines, the comments, unknown fields and blank lines in between, the terminator used throughout and the way the stream ends, exactly the printed events come back |
| SsePrinting.LinesOfPrinted | internal/explain/sse.go:42-53 | lines ended by LF, CR or CRLF throughout are read back |
| SseTerminators.LinesReadBackIff | internal/explain/sse.go:42-53 | lines, each ended in its own way, are read back if and only if no line ended by CR has a blank line ended by LF behind it |
| SseTerminators.MixedReadBackIff | internal/explain/sse.go:26-81 | events printed with any line ends come back exactly if and only if no lost blank lines join two of them |
| SseTerminators.OpenMeans | internal/explain/sse.go:26-81 | an event is still open behind some blocks exactly when every blank line since the last event was lost |
| SseTerminators.TwoBecomeOne | internal/explain/sse.go:48-52 | two events joined by a lost blank line come back as one, with both their lines |
| Anthropic.ReassembleAnthropic | internal/explain/anthropic.go:29-142 | the loop computes the message and the stream information of the fold over events |
| Anthropic.Reassembler.Take | internal/explain/anthropic.go:35-107 | one event changes message, blocks and information as the fold does |
| Anthropic.Reassembler.FinishBlock | internal/explain/anthropic.go:113-139 | a finished block gets its text, decoded input, thinking, signature and citations; undecodable input is reported |
| AnthropicStreaming.BlocksAreSeparate | internal/explain/anthropic.go:52-83 | a block is what its own pieces make of it, however they are interleaved with others; a start without an index is for the next block |
| AnthropicStreaming.DeltasCollect | internal/explain/anthropic.go:67-83 | a block holds exactly what its last start carries and the strings its deltas since carry, put together; when its start was missed, its type is told from its first delta |
| AnthropicStreaming.ReassemblyInvertsStreaming | internal/explain/anthropic.go:29-142 | told from the members of the decoded events alone: for blocks cut into deltas anywhere and interleaved in any order, the content of the message, read member by member, has exactly those blocks, in index order |
| AnthropicStreaming.SomethingWanted | internal/explain/anthropic.go:52-83 | the events of any stream whatever tell of some blocks, so nothing is left out of that |
| AnthropicStreaming.LastValuesWin | internal/explain/anthropic.go:84-100 | there is a message exactly when one was started; read member by member, it has the last value sent of each top-level field and of each usage count |
| AnthropicStreaming.InfoTells | internal/explain/anthropic.go:35-128 | the number of events, the last one's name or type, whether the stream was ended, and the first twenty problems: those of the events as they came, then the tool inputs that do not decode, in index order |
| AnthropicStreaming.HelloComesBack | internal/explain/anthropic.go:29-142 | a stream of a start, an empty text block, the deltas "Hel" and "lo" and the end gives one text block that reads "Hello" |
| OpenAiReassembly.ReassembleOpenAiChat | internal/explain/openai_chat.go:34-182 | the loop computes the completion and the stream information of the fold over chunks |
| OpenAiReassembly.Reassembler.TakeChoice | internal/explain/openai_chat.go:75-128 | one choice element changes its choice as the fold does |
| OpenAiReassembly.Reassembler.MergeToolCall | internal/explain/openai_chat.go:184-197 | id, type and name are replaced when given, arguments appended |
| OpenAiReassembly.Reassembler.MergeBase | internal/explain/openai_chat.go:63-71 | top-level fields are filled in where there is no value yet |
| OpenAiStreaming.ChoicesAreSeparate | internal/explain/openai_chat.go:75-128 | a choice is what its own elements make of it, however interleaved |
| OpenAiStreaming.CallsAreSeparate | internal/explain/openai_chat.go:106-118 | a tool call is what its own parts carry, however interleaved |
| OpenAiStreaming.ReassemblyInvertsStreaming | internal/explain/openai_chat.go:34-182 | told from the members of the decoded chunks alone: for choices and tool calls cut anywhere and interleaved in any order, the choices of the completion, read member by member, are exactly those, in index order: role, content, refusal, reasoning under the name that came first, tool calls with id, type, name and arguments in index order, function call and finish reason |
| OpenAiStreaming.SomethingWanted | internal/explain/openai_chat.go:75-128 | the chunks of any stream whatever carry some choices |
| OpenAiStreaming.FirstValueWins | internal/explain/openai_chat.go:63-74 | there is a completion exactly when there was a chunk; it calls itself one, has the last usage, and of other top-level fields the first value that is not null |
| OpenAiStreaming.InfoTells | internal/explain/openai_chat.go:41-62 | the number of events, how the stream ended, and the first twenty problems as they came |
| JsonTree.SetInPlace | internal/rules/body.go:228-277 | on mutable maps and arrays, none of which is in the document twice, with a value that may stand in it already but not on the way: the nodes on the way stay and take the value in unless they have to be made anew, and no other node is written; a set that fails leaves the document as it was |
| JsonTree.SetToModel | internal/rules/body.go:228-277 | what the document becomes in place is what Set gives |
| JsonTree.SetToWithin | internal/rules/body.go:240-277 | what a node on the way becomes is what setting in it makes of it |
| JsonTree.SetToElsewhere | internal/rules/body.go:240-277 | paths that part from the one set lead to the very same documents as before |
| SetPath.SetGet | internal/rules/body.go:228-277 | after a successful set, the path reads what was set, and reading on goes into it |
| SetPath.SetSet | internal/rules/body.go:228-277 | setting twice is setting the last value |
| SetPath.GetSetSame | internal/rules/body.go:228-277 | setting what is there changes nothing |
| SetPath.SetElsewhere | internal/rules/body.go:228-277 | every path that diverges at a different key or index reads as before |
| SetPath.SetSucceedsIff | internal/rules/body.go:228-277 | a set fails if and only if a scalar is in the way or an index is not a number from 0 to the array's length |
| SetPath.AtoiOfPrinted | internal/rules/body.go:232 | a number printed in decimal, with or without a sign, is read back as itself if and only if it fits 64 bits |
| SetPath.AtoiReadsDigits | internal/rules/body.go:232 | what is read as a number has an optional sign and then digits, at least one |
| SetPath.SetFails | internal/rules/body.go:228-277 | a set that fails names the first segment refused, with the length of its array or as standing behind a scalar |
| SetPath.WayTakesIn | internal/rules/body.go:228-277 | every container on the way takes in the one below it and changes nowhere else; where there was nothing, it is an array for index 0 and an object otherwise |
| SetPath.ArraysGrowByOne | internal/rules/body.go:257-270 | every array on the way keeps its length or grows by one |
| BodyPatch.JsonPatch | internal/rules/body.go:193-226 | the paths are set in sorted order on the decoded body; one that fails or is empty fails the patch |
| BodyPatch.PatchFails | internal/rules/body.go:208-219 | a patch that fails does so at a path that is blank, or that cannot be set in what the paths before it made of the body |
| BodyPatch.PatchReadsBack | internal/rules/body.go:208-219 | after a patch whose paths do not touch each other, every path reads what it was set to |
| BodyPatch.ElsewhereAsBefore | internal/rules/body.go:208-219 | a path apart from all those set reads as before |
| RuleValues.TwoPathRuleIff | internal/rules/body.go:186-219 | every later body gets what a rule of two paths as written gives, whatever the earlier one, if and only if the second path is no longer than the first, or goes on from it, or cannot lead into it by any spelling of an index, or changes nothing there |
| RuleValues.LaterBodiesIff | internal/rules/body.go:186-277 | the same for any two paths set one after the other |
| RuleValues.ValueStaysIff | internal/rules/body.go:228-277 | no body changes the rule's first value if and only if the second path cannot lead into it, or changes nothing there |
| RuleValues.ThroughSameIff | internal/rules/body.go:228-277 | a value written into is as before if and only if the path failed, a new node took its place, or it held that already |
| RuleValues.SetInside | internal/rules/body.go:228-277 | setting a path into a value just set is setting that value with the path set |
| RuleValues.ValueTakenIn | internal/rules/body.go:203-219 | paths a and a.b are set in that order, and an empty object at a becomes one with b |
| RuleValues.WrongSecondBody | internal/rules/body.go:186-277 | with paths l.0 and l.00.b a body with an object l gets, after one with an array l, another value at l.0 than the rule says |
| TwoPathsInPlace.SetTwo | internal/rules/body.go:208-277 | in place, two paths set give what they should; the first value becomes exactly what After says of body and paths, also when the second is already part of it, and the second stays |
| TwoPathsInPlace.TwoBodies | internal/rules/body.go:186-219 | a second body gets what the rule with the values left by the first gives, which is what the rule as written gives unless the paths are alike and neither begins the other |
| NestedRules.GrownGivesTheSame | internal/rules/body.go:203-277 | values into which any number of paths have been set, each going on from another or parting from it, give every body what the values as written give |
| NestedRules.GrowSettles | internal/rules/body.go:228-277 | a value has in it the values of all paths set so far that go on from its own |
| NestedRules.IndependentStays | internal/rules/body.go:203-219 | paths that do not touch each other leave the rule's values as they are |
| JoinedValues.OnePath | internal/rules/body.go:208-277 | one path set keeps: the values set stand in the body and in each other as the paths go on from each other, and all else shares nothing |
| BodyPatchInPlace.JsonPatchInPlace | internal/rules/body.go:203-219 | in place, after any number of bodies, the outcome is that of the rule as written; where its paths go on from each other or part, and none makes a new container in the place of another's value, the rule is left ready for the next body, its values grown exactly by the paths set |
| Mem.Mem.Upsert | internal/store/mem.go:35-60 | a known id is replaced in place, a new one added, and only the oldest evicted when full; the index stays the exact inverse of the occupied slots, and the total is flows held plus evictions |
| Mem.Mem.Delete | internal/store/mem.go:97-133 | exactly the flows that match leave, in order, and the others keep theirs; the number returned is how many left |
| Mem.Mem.Each | internal/store/mem.go:148-162 | each flow in turn from the newest on is visited, up to the first that the visitor does not go on from |
| Mem.Mem.Get | internal/store/mem.go:63-71 | finds exactly what is held |
| MemRing.UpsertedNew | internal/store/mem.go:35-60 | what a new flow displaces and what is held then are together what was held and the flow, in order, and as many are held as there is room for |
| MemRing.UpsertedKnown | internal/store/mem.go:35-41 | the new snapshot of a known flow stands where the old one stood, and nothing else changes |
| Mem.BackIsSlot | internal/store/mem.go:153 | the doubled remainder of a possibly negative index is the slot that many places back |
| MemRing.TurnOver | internal/store/mem.go:43-53 | writing over the oldest slot of a full ring drops the oldest flow and appends the newest, and the index follows |
| MemRing.IndexFinds | internal/store/mem.go:63-71 | the index finds what the sequence holds, at its place |
| FlowId.Short | internal/flow/flow.go:16-27 | the digits written from the back are the base-32 form |
| FlowId.ParseShort | internal/flow/flow.go:31-51 | the loop computes the value of the trimmed, folded text in 64-bit arithmetic |
| FlowId.ParseInvertsShort | internal/flow/flow.go:16-51 | every 64-bit id is read back from its short text |
| FlowId.DigitIs | internal/flow/flow.go:37-47 | a letter is read as the digit it is, i and l as 1, o as 0, and no other as any |
| FlowId.ParsedModulo | internal/flow/flow.go:31-51 | a text is read if and only if it is, trimmed and folded, one to thirteen digits; it is then read modulo 2^64, which is its number if and only if it has fewer than thirteen digits or the first is below 16 |
| FlowId.FirstOverflow | internal/flow/flow.go:31-51 | g followed by twelve zeros stands for 2^64 and is parsed as 0 |
| Pagination.Query | internal/store/row.go:151-188 | the page is the first matching flows older than the cursor, with the count of all of them |
| Pagination.PageTells | internal/store/row.go:151-188 | a page has the first of the flows that match and are older than the cursor, 50 of them when no limit is given and never more than 200, counts all of them and names the newest id that is not 0 |
| Pagination.CursorIs | internal/store/row.go:158-162 | a cursor is "before:" and a flow id; any other text lists from the beginning |
| Pagination.CursorContinues | internal/store/row.go:184-186 | a page's cursor leads to exactly what the page left out, and there is none when nothing was |
| Pagination.ListingIsExact | internal/store/row.go:151-188 | following cursors ends and lists every matching flow exactly once, in order, for any limit |
| Pagination.UpsertKeepsRising | internal/store/mem.go:35-60 | storing flows with rising ids keeps the ring in order of ids, which is what the cursors rely on |
| Pagination.EveryMatchOnce | internal/store/row.go:151-188 | after any run that stores flows in order of ids, replaces and deletes them, following the cursors from the first page lists exactly the flows held that match, each once, newest first |
| Blobs.FitIsLongestPrefix | internal/store/blob.go:57-63 | eviction keeps exactly the longest most recently used prefix that fits, never fewer than one blob |
| Blobs.UseKeepsPrefix | internal/store/blob.go:47-77 | using a blob keeps what is held a prefix of the recency order |
| MemBlobs.Store.Put | internal/store/blob.go:47-65 | a known blob moves to the front, a new one is added there and the rest evicted to fit; index, list and byte count agree, and the stored bytes are those given when the hash is injective |
| MemBlobs.Store.Get | internal/store/blob.go:68-77 | returns the bytes held under the hash and moves them to the front |
| MemBlobs.PutThenGet | internal/store/blob.go:47-77 | fetching what was just stored gives bytes with that hash, and the very same bytes when no others have it |
| MemBlobs.Store.Clear | internal/store/blob.go:80-86 | nothing is held |
| HitLimit.ExactlyTheLimitFires | internal/rules/apply.go:68-83 | at any moment of any interleaving exactly as many calls have fired as have counted and the limit allows, and disabling was asked for once if they used it up |
| HitLimit.SettlesAtTheLimit | internal/rules/apply.go:68-83 | once all calls are done the counter stands at the smaller of calls and limit, and the rule is disabled if and only if the limit was reached just now |
| HitLimit.NoLimitAllFire | internal/rules/apply.go:68-83 | without a limit every call that has counted has fired, and the rule stays enabled |
| HitLimit.StepKeeps | internal/rules/apply.go:72-80 | every atomic step keeps: a call over the limit exists only once the limit is used up |

## Left out

- HTTP serving, TLS, certificates, CONNECT tunnelling, the upstream transport, the keychain,
  the CLI, the TUI, the control API and the MCP server.
- Redaction, templates, body decoding and gjson, whose behaviour lies in libraries.
- Rendered diff text: 120-character cuts, string paths and header lines; the model keeps the
  operations, the path segments and the numbers.
- Setting of server and port of a proxy that was off before pano: restoring switches it off
  again and no more. Credentials of authenticated proxies are never recorded.
- SysProxyMachine: a snapshot from before automatic configuration was recorded is filled in as
  the code does, but the promises are for runs that start without a file.
- SysProxyManager.Manager.Enable: parsing the output of networksetup and building the
  osascript command are not part of this model; captured settings are the live ones.
- SysProxyManager.Manager.CaptureAll: queries answer with the live settings; parsing what
  networksetup prints is not part of this model.
- Throttle.Bucket.Read: the wait is not cut to whole nanoseconds.
- Parsers of stream formats other than those named; one-line summaries and usage totals.
- The text of error messages; errors are kept by kind.
- BodyPatch.JsonPatch: works on documents as values; what becomes of the rule's own values is in
  `BodyPatchInPlace`. Numbers keep their text, whereas the code decodes them into floating point
  and prints them anew.
- BodyPatchInPlace.JsonPatchInPlace: of a rule whose paths touch each other in another way than
  going on as written, or make a new container in the place of a value, it tells what the first
  body gets; for two paths `TwoPathsInPlace.SetTwo` tells all. After an append, whether the rule's
  array shares the cells of the new one depends on spare capacity, which is not part of this model;
  nor are bodies patched at the same time.
- MemBlobs.Store: container/list is a sequence of elements; hashing is a parameter.
- Mem.Mem: eviction callbacks are a log in call order, not calls outside the lock.
- HoldEngine: sends and receives are steps of the machine in `Hold`, not methods; the edits a
  resumed exchange applies are one opaque part of the message.
- HitLimit: replacing a rule while calls are in flight, which keep the old counter.
- Bus drop counts and the byte budget of the WebSocket log.
