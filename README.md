# BrowserTimer native host, modelled in Dafny

BrowserTimer measures how long each web page has the focus. The browser extension sends tab
events to a native host. The host keeps a trie of URLs and saves sessions to disk. This project
models that host's core and proves what its code promises:

- **The usage trie** (`native/src/tracker.rs`). Each `UrlNode` is keyed by a URL part: the host
  first, then every path segment longer than one byte. A node holds an `aggregateTime` and its
  `TabInstance`s.
  - An instance is *live* (focused) while `lastOpened` is present.
  - *Stop-drain* (`accumulate_time`) runs on unfocus and close. It folds the open interval into
    `timeActive` and makes the tab dormant.
  - *Cycle-drain* (`accumulate_and_reset`) runs for the report and the serialisation. It hands
    back all the time owed, zeroes it, and keeps a live tab live from `now`.
  - Around the drains sit lazy path creation and non-creating lookup, the three tab events, the
    flattened report, and serialisation and restore with instances kept or dropped.
- **The session state machine** (`native/src/message_handler.rs`):
  - the `tracker: Option<Tracker>` field;
  - start, which refuses a second session and checks the name;
  - stop, which ends the session only when the save succeeds;
  - tab-event forwarding;
  - the session name check;
  - the length guard on incoming frames;
  - the response constructors.
- **The session directory** (`native/src/session_loader.rs`), as a map from session name to
  saved session. A save that fails is an input.

Modules, one per file:

| module | contents |
|---|---|
| `Wrappers` | `Option`, `Result` |
| `Primitives` | `u8`, `u32`, UTF-8 byte length, decimal text, the form of trie keys |
| `TabInstances` | `TabInstance` and both drains |
| `UrlNodes` | `UrlNode` and its instance list |
| `UrlTree` | paths in the trie, creation and lookup, the recursive drain |
| `Serialization` | `SerializedUrlNode`, snapshot and restore |
| `Reporting` | `TrackingData` and `collect_recursive` |
| `UrlParsing` | `parse_url_parts` and `TrackerError` |
| `TrackerEvents` | the tab events as functions of the root map |
| `Tracking` | the `Tracker` class |
| `SessionStore` | the session directory and `PersistenceError` |
| `MessageHandler` | frames, responses and the `NativeMessagingHost` class |

Modelling choices:

- Instances and nodes are owned exclusively by their parent, so they are values (datatypes).
  `TabInstance`'s two drains have no loop and become functions (`StopDrain`, `CycleDrain`).
  `UrlNode`'s loops (`find_tab_instance`, `add_tab_instance`, `remove_tab_instance`,
  `accumulate_all_instances`), the walks of `find_node` and `update_node_times`, and the
  serialisation loops are methods that keep the source's loop and return the updated value.
  Each is proved equal to a specification function. `find_or_create_node` is not written as a
  loop; see "Left out".
- `Tracker` and `NativeMessagingHost` are classes whose fields the methods reassign.
- The clock is a parameter `now`.
- `u64::saturating_sub` is `Elapsed`. It is zero when the clock went backwards.
- The URL parser is outside the model. Each URL arrives as a `UrlText`, which pairs the text
  with what the parser made of it: an optional host and optional path segments, or an error
  text.
- Hash-map iteration order is unspecified. The loops that walk a map pick an arbitrary
  remaining key, so every proved property holds for every order. A report is specified as one
  entry per reported node, in some order (`Reporting.IsReport`). Any two reports of the same
  trie contain the same entries (`Reporting.ReportsAgree`).

## Model

| member | source | states |
|---|---|---|
| TabInstances.Elapsed | native/src/tracker.rs:30-35 | `saturating_sub`: the interval from `since` to `now`, or zero when the clock went backwards |
| TabInstances.TabInstance.IsActive | native/src/tracker.rs:49-51 | an instance is live exactly when `lastOpened` is present |
| TabInstances.NewInstance | native/src/tracker.rs:22-28 | a new instance of the tab has nothing accrued and is live from `timestamp`, so it owes nothing at that moment |
| TabInstances.TabInstance.StopDrain | native/src/tracker.rs:30-35 | a live instance folds the open interval into `timeActive` and becomes dormant; a dormant one is unchanged; the tab id and the time owed are kept |
| TabInstances.TabInstance.CycleDrain | native/src/tracker.rs:37-47 | hands back exactly the time owed; afterwards `timeActive` is 0, a live tab is live from `now`, a dormant one stays dormant, and a second drain at `now` owes nothing |
| TabInstances.CycleDrainSplits | native/src/tracker.rs:37-47 | with a clock that does not run backwards, draining at `t1` loses and duplicates nothing: what it hands back plus what is owed at `t2` equals what was owed at `t2` without it |
| TabInstances.StopDrainFreezes | native/src/tracker.rs:30-35 | after a stop-drain no more time accrues, at any later reading of the clock: what is owed later equals what was owed at the stop, which is no more than what the undrained tab would owe later |
| UrlNodes.NewNode | native/src/tracker.rs:63-70 | a new node has its key, no time, no instances and no children |
| UrlNodes.IndexOf | native/src/tracker.rs:72-76 | the position of the first instance of the tab, or none exactly when no instance has that id |
| UrlNodes.FindTabInstance | native/src/tracker.rs:72-76 | the search loop finds the first instance of the tab, as `IndexOf` says |
| UrlNodes.AddInstance | native/src/tracker.rs:90-98 | afterwards the tab is live on the node: a dormant instance is re-focused from `timestamp`, a live one is untouched, and an unknown tab is appended as a new instance; nothing else about the node changes |
| UrlNodes.AddInstanceConserves | native/src/tracker.rs:90-98 | focusing records no time by itself, and keeps at most one instance per tab id |
| UrlNodes.AddTabInstance | native/src/tracker.rs:90-98 | the method's result is `AddInstance` of its inputs |
| UrlNodes.SwapRemove | native/src/tracker.rs:78-88 | `Vec::swap_remove`: one shorter, with the last element moved into the gap and the rest in place |
| UrlNodes.SwapRemoveMultiset | native/src/tracker.rs:78-88 | swap-removal takes out exactly the element at the index, leaving the others as a multiset |
| UrlNodes.RemoveInstance | native/src/tracker.rs:78-88 | the first instance of the tab is removed and returned, with the other instances kept as a multiset; with no such instance nothing changes and none is returned; with unique ids the tab is then gone |
| UrlNodes.RemoveInstanceConserves | native/src/tracker.rs:78-88 | the removed instance's time owed plus what the remaining instances owe is what the node's instances owed before |
| UrlNodes.RemoveTabInstance | native/src/tracker.rs:78-88 | the method's result and removed instance are those of `RemoveInstance` |
| UrlNodes.DrainNode | native/src/tracker.rs:100-113 | draining a node adds exactly what its instances owed to its aggregate; afterwards they owe nothing; the instances keep their ids, their number and their number of live ones |
| UrlNodes.DrainedInstancesOweNothing | native/src/tracker.rs:100-113 | after a cycle-drain at `now` no instance owes any time at `now` |
| UrlNodes.DrainedInstancesKeepActive | native/src/tracker.rs:100-113 | a cycle-drain keeps the number of live instances |
| UrlNodes.DrainedInstancesSplit | native/src/tracker.rs:100-113 | draining instances at `t1` and again at `t2` hands back in total what one drain at `t2` would |
| UrlNodes.DrainNodeIdempotent | native/src/tracker.rs:100-113 | a second drain of a node at the same moment changes nothing |
| UrlNodes.DrainNodeTwice | native/src/tracker.rs:100-113 | draining a node at `t1` and then at `t2` leaves the same aggregate as draining it once at `t2` |
| UrlNodes.AccumulateAllInstances | native/src/tracker.rs:100-113 | the loop leaves the node as `DrainNode` says and returns the new aggregate, the number of live instances before the drain, and the number of instances |
| UrlTree.SetAtElsewhere | native/src/tracker.rs:275-291 | writing a node through the path found by lookup keeps the trie's shape and every other node's data |
| UrlTree.SetAtSameShape | native/src/tracker.rs:275-291 | writing a node through a path creates and removes no node |
| UrlTree.CreatePath | native/src/tracker.rs:257-273 | after creating a path there is a node at the full path |
| UrlTree.CreatePathFacts | native/src/tracker.rs:257-273 | creating a path keeps every existing node and its data, creates a node at every prefix of the path, and creates only nodes that were missing on it, each with no time, no instances, and its own key as `subPart` |
| UrlTree.CreatePathExisting | native/src/tracker.rs:257-273 | creating a path that already exists changes nothing |
| UrlTree.FindNode | native/src/tracker.rs:275-291 | the lookup loop returns the node at the path, or none as soon as a key on the path is missing |
| UrlTree.DrainMapAt | native/src/tracker.rs:410-416 | draining the whole trie creates and removes no node, drains each node as `accumulate_all_instances` would, and keeps each node's recorded time |
| UrlTree.UpdateNodeTimes | native/src/tracker.rs:410-416 | the recursive walk leaves the subtree fully drained, as `DrainTree` says |
| Serialization.FromNode | native/src/tracker.rs:131-144 | the snapshot with instances carries a copy of the node's instances |
| Serialization.SerializeNode | native/src/tracker.rs:131-144 | the conversion loop over the children builds the snapshot `FromNode` gives |
| Serialization.WithoutInstances | native/src/tracker.rs:147-160 | the snapshot without instances carries none |
| Serialization.IntoUrlNode | native/src/tracker.rs:162-179 | a restored node keeps its key and its time; its instances are the saved ones, or none when the session is fresh or none were saved |
| Serialization.RestoreWithTabs | native/src/tracker.rs:131-179 | a node saved with instances and restored without `fresh_session` is the node itself |
| Serialization.RestoreDropsTabs | native/src/tracker.rs:147-179 | a node saved without instances, or restored fresh, comes back with its whole subtree and every time intact and every instance list empty |
| Serialization.RestoreSerialized | native/src/tracker.rs:207-218 | restoring a saved root map gives the trie back exactly when instances were saved and not dropped, and otherwise the trie with every instance list emptied |
| Serialization.ClearInstancesAt | native/src/tracker.rs:162-179 | emptying every instance list keeps the trie's shape, each node's key and each node's time |
| Reporting.JoinPathSlash | native/src/tracker.rs:342-369 | a joined non-empty path of well-formed keys (non-empty, without `/`) contains a `/` exactly when it has more than one key |
| Reporting.JoinPathInjective | native/src/tracker.rs:342-369 | two key paths of well-formed keys that join to the same text are the same path |
| Reporting.CollectRecursive | native/src/tracker.rs:342-369 | the walk drains every node below, including unreported ones; it appends one entry per node whose drained aggregate is positive and nothing else; it hands the path buffer back as it came; and it produces no repeated path when the keys are well formed |
| Reporting.CollectNode | native/src/tracker.rs:349-366 | one pass of the loop: push the key, drain the node, add its entry when its aggregate is positive, walk its children, then truncate the buffer to its old length |
| Reporting.ReportEntry | native/src/tracker.rs:342-369 | every entry of a report has positive time and is the entry of some node: its joined path, drained aggregate, instance count and live count before the drain |
| Reporting.ReportComplete | native/src/tracker.rs:342-369 | every node with time recorded has its entry in the report |
| Reporting.ReportPathsDistinct | native/src/tracker.rs:342-369 | with well-formed keys no path appears twice in a report |
| Reporting.ReportsAgree | native/src/tracker.rs:342-369 | whatever order the maps are walked in, two reports of the same trie, whatever its keys, at the same moment hold the same entries the same number of times |
| UrlParsing.TrackerError.Message | native/src/tracker.rs:182-190 | the display text of each tracker error |
| UrlParsing.KeepLong | native/src/tracker.rs:238-244 | a segment is kept exactly when it is longer than one byte |
| UrlParsing.KeepLongAppend | native/src/tracker.rs:238-244 | the filter works segment by segment, so it distributes over concatenation |
| UrlParsing.KeepLongIdempotent | native/src/tracker.rs:238-244 | filtering twice is filtering once |
| UrlParsing.ParseUrlParts | native/src/tracker.rs:227-255 | an empty URL is refused before parsing; a parser failure is reported as such; a URL yielding no key is refused with its text; otherwise the keys are the host, then the long segments in order, never empty; with a well-formed parse, every key is non-empty and free of `/` |
| TrackerEvents.Focused | native/src/tracker.rs:293-300 | after a focus there is a node at the URL's path |
| TrackerEvents.Unfocused | native/src/tracker.rs:302-316 | an unfocus fails only with `TabNotFound` for the tab |
| TrackerEvents.Closed | native/src/tracker.rs:318-333 | a close fails with `TabNotFound` exactly when the node or the tab is missing; otherwise the node's aggregate grows by exactly what the removed instance owed, and that one instance leaves the node's instances |
| TrackerEvents.FocusShape | native/src/tracker.rs:293-300 | a focus creates exactly the missing nodes on the path, each empty and named by its key, and leaves the tab live at the path's node |
| TrackerEvents.FocusKeepsData | native/src/tracker.rs:293-300 | a focus changes no other existing node's data, no node's recorded time, and keeps tab ids unique at every node |
| TrackerEvents.UnfocusEffect | native/src/tracker.rs:302-316 | an unfocus fails exactly when the node or the tab is missing; otherwise it creates no node, changes no other node, and leaves the tab dormant holding all the time it owed; recorded time and unique ids are kept |
| TrackerEvents.CloseEffect | native/src/tracker.rs:318-333 | a close fails exactly when the node or the tab is missing; otherwise it creates no node and changes no other node, including the ancestors; it removes one instance of the tab and adds the time that instance owed to that node's aggregate only; recorded time is kept, and with unique ids the tab is then gone |
| TrackerEvents.FocusPreserves | native/src/tracker.rs:293-300 | a focus keeps one instance per tab id at every node, and keeps every key of the trie well formed |
| TrackerEvents.UnfocusClosePreserve | native/src/tracker.rs:302-333 | unfocus and close keep one instance per tab id at every node, and keep every key of the trie well formed |
| Tracking.Tracker.constructor | native/src/tracker.rs:200-205 | a new tracker has the session name and an empty trie |
| Tracking.Tracker.FromSerialized | native/src/tracker.rs:207-218 | a restored tracker's trie is the saved root map restored node by node |
| Tracking.Tracker.FindOrCreateNode | native/src/tracker.rs:257-273 | the trie becomes `CreatePath` of the old trie, and the node returned is the one at the path, so a later lookup finds it |
| Tracking.Tracker.TrackTabFocused | native/src/tracker.rs:293-300 | a URL that does not parse gives its error and changes nothing; otherwise the trie becomes `Focused` |
| Tracking.Tracker.TrackTabUnfocused | native/src/tracker.rs:302-316 | a parse error changes nothing; otherwise the outcome is `Unfocused`, and on `TabNotFound` the trie is unchanged |
| Tracking.Tracker.TrackTabClosed | native/src/tracker.rs:318-333 | a parse error changes nothing; otherwise the outcome is `Closed`, and on `TabNotFound` the trie is unchanged |
| Tracking.Tracker.CollectTrackingData | native/src/tracker.rs:335-340 | the trie is drained at `currentTime`, and the result is a report of the trie as it was |
| Tracking.Tracker.GetTrackingData | native/src/tracker.rs:371-375 | the same, at the current time |
| Tracking.Tracker.SerializeWithTabs | native/src/tracker.rs:391-398 | each top-level subtree is drained, then the root map is converted with its instances |
| Tracking.Tracker.SerializeWithoutTabs | native/src/tracker.rs:400-408 | each top-level subtree is drained, then the root map is converted without instances |
| Tracking.Tracker.SerializeSession | native/src/tracker.rs:377-389 | the snapshot carries the tracker's name and its drained root map, with or without instances |
| SessionStore.PersistenceError.Message | native/src/session_loader.rs:8-16 | the display text of each persistence error |
| SessionStore.LoadSession | native/src/session_loader.rs:74-89 | a missing file gives `SessionNotFound`; a file holding another session's name gives the name-mismatch error; otherwise the stored session, whose name is the one asked for |
| SessionStore.SaveSession | native/src/session_loader.rs:61-72 | a failed write changes nothing; a successful one stores exactly the session under its name and leaves every other file alone |
| SessionStore.SaveThenLoad | native/src/session_loader.rs:61-89 | a session that was saved loads back as it was saved |
| MessageHandler.NativeMessagingError.Message | native/src/message_handler.rs:23-35 | the display text of each messaging error |
| MessageHandler.LeU32 | native/src/message_handler.rs:152-156 | `u32::from_le_bytes`: the first byte is the lowest |
| MessageHandler.LeU32RoundTrip | native/src/message_handler.rs:152-182 | the length header decodes what `to_le_bytes` encodes, and encodes back what it decodes |
| MessageHandler.VerifySessionName | native/src/message_handler.rs:240-258 | a name is accepted exactly when it is non-empty, at most 100 bytes long, and free of `/ \ : * ? " < > \| NUL`; the checks run in that order, each with its own message |
| MessageHandler.ReadFrame | native/src/message_handler.rs:151-169 | a short header is an I/O error; a length over 1 MiB is `MessageTooLarge`, checked first; a zero length is `InvalidLength`; a body shorter than announced is an I/O error that uses up the input; an accepted body is non-empty, within the limit, and exactly the announced length |
| MessageHandler.EncodeFrame | native/src/message_handler.rs:171-182 | a frame is a four-byte header followed by the body |
| MessageHandler.FrameRoundTrip | native/src/message_handler.rs:151-182 | reading a frame written for a body that the guard accepts gives back that body and leaves what followed the frame |
| MessageHandler.FrameTooLarge | native/src/message_handler.rs:151-160 | a frame announcing more than 1 MiB is refused whatever follows |
| MessageHandler.Success | native/src/message_handler.rs:113-119 | a success response carries its data and no error |
| MessageHandler.Failure | native/src/message_handler.rs:121-127 | an error response carries its text and no data |
| MessageHandler.WithId | native/src/message_handler.rs:101-110 | the response tagged with the id keeps all three fields |
| MessageHandler.TabEventOutcome | native/src/message_handler.rs:283-303 | a URL that does not parse fails with its parse error; a focus of a parsed URL always succeeds; any other failure is `TabNotFound` for the tab |
| MessageHandler.StartSession | native/src/message_handler.rs:388-398 | a name that fails the check is refused with its message; otherwise a session starts exactly when no saved file holds a different session name; it restores the saved session with its instances, or starts with an empty trie |
| MessageHandler.StopThenStart | native/src/message_handler.rs:330-360 | after a successful stop, starting the session again restores the trie as it was drained at the stop, with every time and without any instance |
| MessageHandler.NativeMessagingHost.constructor | native/src/message_handler.rs:140-149 | a new host runs no session |
| MessageHandler.NativeMessagingHost.ReadMessage | native/src/message_handler.rs:151-169 | reads the frame `ReadFrame` describes from the input, leaves the body in the read buffer, and touches no session state |
| MessageHandler.NativeMessagingHost.CreateOrLoadTracker | native/src/message_handler.rs:330-341 | a saved session is loaded and restored with its instances (never as a fresh session), and its load error is passed on; otherwise a new, empty tracker with the name |
| MessageHandler.NativeMessagingHost.TryStartAction | native/src/message_handler.rs:388-398 | while a session runs, the start is refused and the session is kept; otherwise the session starts exactly when `StartSession` succeeds, with its trie; on failure no session runs and the error is `StartSession`'s |
| MessageHandler.NativeMessagingHost.HandleStartAction | native/src/message_handler.rs:378-386 | while a session runs the start is refused and the session kept; otherwise the response succeeds exactly when `StartSession` does, a failure carries `StartSession`'s error text, and a started session is fresh, has the name and holds `StartSession`'s trie |
| MessageHandler.NativeMessagingHost.HandleStopAction | native/src/message_handler.rs:343-360 | with no session, "Tracker not started"; otherwise the trie is drained and saved without instances; the session ends only if the save succeeds, and on failure it keeps running, already drained |
| MessageHandler.NativeMessagingHost.HandleTabOperation | native/src/message_handler.rs:283-303 | with no session, "Tracker not started"; otherwise the event goes to the tracker, and the response succeeds exactly when the event did, carrying the tracker's error text when it did not |
| MessageHandler.NativeMessagingHost.HandleGetActiveAction | native/src/message_handler.rs:362-369 | always a success; it carries the session name exactly when a session runs |

## Left out

- URL parsing itself (`Url::parse`, native/src/tracker.rs:232) is a foreign library. Each URL comes with the parser's result. `ParsedUrl.WellFormed` states what the parser is relied on for: a non-empty host, and no `/` in the host or any segment.
- `current_timestamp` (native/src/tracker.rs:220-225) reads the wall clock. The time is a parameter `now` of every operation that needs it.
- Time values are unbounded naturals. The `u64` range and `saturating_add` at 2^64 are not modelled. `saturating_sub` is modelled as `Elapsed`.
- TabInstances.CycleDrainSplits: requires a clock that does not run backwards past `lastOpened`. When it does, the early drain counts nothing but restarts the live interval from its own, earlier reading, so the stretch up to the old `lastOpened` is counted again later and the drained total exceeds the undrained one.
- UrlNodes.DrainedInstancesSplit: carries the same clock requirement, for the same reason.
- UrlNodes.DrainNodeTwice: carries the same clock requirement; with `lastOpened` at 10, draining at 5 and then at 20 records 15, where one drain at 20 records 10.
- Tracking.Tracker.FindOrCreateNode: the source walks the path in a loop, inserting each missing node into the nested maps as it goes. The model rebuilds the trie along the path with the recursive `CreatePath` instead, so the step-by-step insertion is not modelled as a loop.
- In-place mutation through `&mut` references (`find_or_create_node`, `find_node`, `find_tab_instance`, and the `TabInstance` and `UrlNode` methods) is modelled on values. The trie is rebuilt along the path, so the model does not capture aliasing.
- Hash-map iteration order is not modelled. Every walk over a map picks its keys in an arbitrary order, and the report is specified up to order.
- JSON encoding and decoding with serde, and the reads and writes on stdin and stdout, are I/O. Only the framing is modelled: the header, the length guard and the body read. The decoded `IncomingMessage` and the JSON data of responses are not modelled.
- MessageHandler.LeU32: states only the low byte of the decoded length. Its exact value follows from `LeU32RoundTrip`.
- MessageHandler.EncodeFrame: does not model a failing write or flush.
- The interrupt handler, the `run` loop, `handle_message` dispatch, `Ping`, `GetSessions` and `DeleteSession` (native/src/message_handler.rs:183-237, 260-281, 305-316) are I/O and process control, or only forward to the filesystem.
- `handle_get_data_action` and `map_success` (native/src/message_handler.rs:371-376, 401-419) call `collect_tracking_data` without its time argument. They also drop the collected data through `with_tracker_mut`. They are not modelled.
- `SessionLoader`'s filesystem work is not modelled; the directory is a map from session name to saved session. Not modelled: the temporary file and rename, `read_dir`, `list_sessions`, `delete_session`, `backup_session`, and the I/O and JSON errors of reading. In the model a load fails only when the session is missing or the file holds another session's name. A save's failure is an input of `HandleStopAction`.
- `logger.rs`, `main.rs`, `Tracker::default` and `get_session_name` are not modelled. The logger and `main` are wiring. `Default` gives a tracker with the name "default". The session name is a constant field of `Tracker`.
- UrlParsing.TrackerError.Message: for `TabNotFound`, states only the text's prefix and suffix around the decimal id.
- MessageHandler.NativeMessagingError.Message: for `InvalidLength` and `MessageTooLarge`, states only the text around the decimal length.
