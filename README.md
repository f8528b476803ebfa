# MasterTexto room synchronisation, link safety and relative time — a Dafny model

MasterTexto lets several browsers edit one shared document, a "room" named by a
slug. This project models three parts of it and proves what they promise:

- **The server's socket handler** (`handler.dfy`, module `RoomSync`). It covers
  a connection (socket.io puts each socket in a room named by its own id),
  `join_room`, `text_change` with its 500 ms debounced save, the expiry of a
  debounce timer, and `disconnect`. The server state has six parts:
  - the rooms table of the database (slug to content);
  - socket.io's room membership;
  - the module-level `saveQueue` dictionary (room to timer handle);
  - the timers still armed, each with the room and content its callback writes;
  - the next timer handle;
  - every message emitted so far, each with the set of sockets it was addressed to.

  Each handler and each timer expiry is one atomic step. The steps are written as
  functions on a `State` value, and the lemmas are stated over those functions.
  Class `Server` performs the same steps by updating its fields, and each of its
  methods is proved to produce exactly the state its step function describes.
- **The editor component's own logic** (`editor.dfy`, module `Editor`):
  - the safety mode and the visited-link list, and how both are kept in `localStorage`;
  - the `openLink` / `handleLinkClick` rules;
  - the test that decides whether pasted text is a link;
  - the handlers that apply `load_content` and `text_update` only when the content differs.

  Class `EditorState` holds the component's state hooks as fields. It also records
  the URLs opened and the `text_change` messages sent.
- **The `timeAgo` formatter** (`time.dfy`, module `Time`). It renders the time
  since a date as Portuguese text: "5min atrás", "2d atrás" and so on. The current
  time is a parameter. The source's floating-point divisions are modelled as
  exact `real` divisions, and the lemmas show that the result is plain integer
  division.

`wrappers.dfy` holds the `Option` datatype the other modules use.

Some of what the code does is not what a reader of a shared editor might
expect. The model follows the code in each case:

- A join reads the database. There is no in-memory copy of a room, so a socket
  joining during the debounce window gets the last saved content, not the edit
  still waiting to be written. `JoinDuringDebounceSeesStoredContent` shows this.
- Joining a room does not leave an earlier room (`socket.join`).
- `text_change` trusts the room named in the message: the sender need not be a
  member of it, and it may even name another socket's own room
  (`EditToSocketRoomReachesIt`).
- When loading fails, the code only logs. It emits nothing, so the joining
  editor does not even receive empty content.
- The timer callback writes the content captured when the timer was armed, not
  whatever is newest when it fires. The two are the same, because every edit
  re-arms the timer with its own content.
- The handler's `disconnect` callback only logs. The socket leaves its rooms
  because socket.io removes it from all of them; `DisconnectStep` models that
  library behaviour.
- With safety mode on, a click on a link already visited sets `modalLink` to the
  URL and does nothing else. The comment says a warning is shown, but nothing the
  component renders reads `modalLink`. So the click silently opens nothing.

## Model

| member | source | states |
|---|---|---|
| `RoomSync.ConnectStep` | backend/src/socket/handler.ts:9-10 | a connection puts the socket in the room named by its id and changes no other room, the database, the debounce state or the messages |
| `RoomSync.JoinStep` | backend/src/socket/handler.ts:12-31 | after `join_room` the socket is in the room; unless the load fails the room is stored and one message is emitted; a failed load writes and emits nothing; the debounce state is untouched |
| `RoomSync.TextChangeStep` | backend/src/socket/handler.ts:33-53 | after `text_change` the room's pending save holds the edit; the database and membership are unchanged and one message is emitted |
| `RoomSync.FireStep` | backend/src/socket/handler.ts:42-52 | after an expiry the room has no pending save; with nothing armed the state is unchanged; membership, messages and `saveQueue` are never touched |
| `RoomSync.DisconnectStep` | backend/src/socket/handler.ts:55-57 | after a disconnect the socket is in no room; the database, the debounce state and the messages are unchanged |
| `RoomSync.ConnectJoinsOwnRoom` | backend/src/socket/handler.ts:9-10 | a connection makes the socket a member of its own room and sends nobody anything, and every room's pending save is unchanged |
| `RoomSync.EditToSocketRoomReachesIt` | backend/src/socket/handler.ts:33-35 | an edit naming another socket's id as its room reaches that socket, unless that socket has also joined the room named by the sender's id |
| `RoomSync.JoinCreatesMissingRoom` | backend/src/socket/handler.ts:18-27 | joining a room missing from the database stores it with content "" and sends `load_content("")` to the joining socket only; every other socket receives nothing |
| `RoomSync.JoinLoadsStoredRoom` | backend/src/socket/handler.ts:18-27 | joining a stored room writes nothing and sends the stored content, unchanged, to the joining socket only |
| `RoomSync.JoinLoadFailure` | backend/src/socket/handler.ts:28-30 | when the database call throws, nothing is emitted and nothing is written, but the socket has joined the room |
| `RoomSync.JoinMembership` | backend/src/socket/handler.ts:13 | after a join the room's members are the old members plus the socket; every other room keeps its members (an earlier room is not left); the debounce state is unchanged |
| `RoomSync.BroadcastTargets` | backend/src/socket/handler.ts:35 | `socket.to(room)` never reaches the sender, reaches only members of the room, and reaches no socket in the room named by the sender's id; when nobody else has joined that room, it reaches exactly the room's other members |
| `RoomSync.TextChangeFanOut` | backend/src/socket/handler.ts:35 | after an edit, each socket has received one more `text_update` with the edit's content if it is a member of the named room, is not the sender and is not in the sender's own room, and nothing more otherwise; membership of the sender is not required |
| `RoomSync.NoSelfEcho` | backend/src/socket/handler.ts:35 | the sender, every socket outside the room and every socket in the sender's own room receive nothing from an edit |
| `RoomSync.TextChangeReplacesPending` | backend/src/socket/handler.ts:38-42 | an edit keeps the timer invariant, makes its own content the room's only pending save, leaves the pending save of every other room unchanged, and writes nothing |
| `RoomSync.AtMostOnePendingPerRoom` | backend/src/socket/handler.ts:7-42 | under the invariant, two armed timers for the same room are the same timer |
| `RoomSync.FireWritesPending` | backend/src/socket/handler.ts:42-47 | expiry of a stored room's timer writes exactly the pending content, after which the room has no pending save; membership, messages, `saveQueue` and every other room's pending save are unchanged |
| `RoomSync.FireWithoutWrite` | backend/src/socket/handler.ts:43-51 | expiry for a room missing from the database, or a failing write, leaves the database unchanged and raises nothing; the timer is spent; membership, messages, `saveQueue` and every other room's pending save are unchanged |
| `RoomSync.FireIdle` | backend/src/socket/handler.ts:38-52 | with no armed timer for the room, an expiry changes nothing |
| `RoomSync.BurstLeavesLastPending` | backend/src/socket/handler.ts:38-42 | after edits c1..cn to a room with no expiry in between, the only pending save of that room holds cn; the database and the other rooms' pending saves are unchanged |
| `RoomSync.DebounceWritesLastEdit` | backend/src/socket/handler.ts:38-52 | after edits c1..cn to a stored room, one expiry writes cn; the room then has no pending save, so a further expiry changes nothing |
| `RoomSync.DisconnectKeepsSaves` | backend/src/socket/handler.ts:55-57 | a disconnect leaves the database, `saveQueue`, the armed timers, the pending saves and the emitted messages unchanged; the socket is in no room afterwards |
| `RoomSync.EditThenDisconnectPersists` | backend/src/socket/handler.ts:42-57 | an edit followed at once by its sender's disconnect is still written when the timer fires |
| `RoomSync.JoinDuringDebounceSeesStoredContent` | backend/src/socket/handler.ts:18-27 | a socket joining while an edit is still pending is sent the stored content, not the pending edit |
| `RoomSync.InitConsistent` | backend/src/socket/handler.ts:7 | a server starting over any rooms table satisfies the timer invariant |
| `RoomSync.ConnectKeepsConsistent` | backend/src/socket/handler.ts:9-10 | a connection preserves the timer invariant |
| `RoomSync.JoinKeepsConsistent` | backend/src/socket/handler.ts:12-31 | `join_room` preserves the timer invariant |
| `RoomSync.TextChangeKeepsConsistent` | backend/src/socket/handler.ts:33-53 | `text_change` preserves the timer invariant |
| `RoomSync.FireKeepsConsistent` | backend/src/socket/handler.ts:42-52 | a timer's expiry preserves the timer invariant |
| `RoomSync.DisconnectKeepsConsistent` | backend/src/socket/handler.ts:55-57 | a disconnect preserves the timer invariant |
| `RoomSync.Server.constructor` | backend/src/socket/handler.ts:7 | a new server keeps the rooms table it is given (the database outlives the process) and has no socket.io rooms, an empty `saveQueue`, no timers and no messages |
| `RoomSync.Server.Connect` | backend/src/socket/handler.ts:9-10 | updates the fields to exactly the state `ConnectStep` gives and keeps the invariant |
| `RoomSync.Server.Join` | backend/src/socket/handler.ts:12-31 | updates the fields to exactly the state `JoinStep` gives and keeps the invariant |
| `RoomSync.Server.TextChange` | backend/src/socket/handler.ts:33-53 | updates the fields to exactly the state `TextChangeStep` gives and keeps the invariant |
| `RoomSync.Server.Fire` | backend/src/socket/handler.ts:42-52 | updates the fields to exactly the state `FireStep` gives and keeps the invariant |
| `RoomSync.Server.Disconnect` | backend/src/socket/handler.ts:55-57 | updates the fields to exactly the state `DisconnectStep` gives and keeps the invariant |
| `Editor.Dedup` | frontend/src/components/Editor.tsx:42 | `new Set(list)` has no duplicates and contains exactly the elements of the list |
| `Editor.DedupOfDistinct` | frontend/src/components/Editor.tsx:42 | a list without duplicates comes out of `new Set` unchanged, order included |
| `Editor.SavedSafety` | frontend/src/components/Editor.tsx:36 | with nothing stored under the safety key the mode is off; it is on only when the stored text is `String(true)` |
| `Editor.SavedLinks` | frontend/src/components/Editor.tsx:39-46 | the loaded visited list has no duplicates; with nothing stored it is the current list; with a stored list it holds exactly that list's URLs |
| `Editor.Trim` | frontend/src/components/Editor.tsx:131 | `trim` never lengthens the text and leaves no white space at either end |
| `Editor.MatchesUrlPattern` | frontend/src/components/Editor.tsx:131 | a string the regular expression accepts is longer than "http://" and has no white space at either end |
| `Editor.IsLinkPaste` | frontend/src/components/Editor.tsx:129-131 | pasted text taken as a link is present and trims to more than seven characters |
| `Editor.SafetyRoundTrip` | frontend/src/components/Editor.tsx:36 | storing `String(mode)` under the safety key and reading back `=== 'true'` recovers the mode |
| `Editor.VisitedRoundTrip` | frontend/src/components/Editor.tsx:39-46 | storing a list without duplicates under the visited key and loading it on mount recovers the same list |
| `Editor.TrimKeepsInfix` | frontend/src/components/Editor.tsx:131 | `trim` keeps a contiguous part of the text, removes only white space before and after it, and leaves no white space at either end |
| `Editor.UrlPatternIff` | frontend/src/components/Editor.tsx:131 | the regular expression matches exactly "http://" or "https://" followed by one or more non-white-space characters up to the end |
| `Editor.IsLinkPasteIff` | frontend/src/components/Editor.tsx:129-131 | pasted text is taken as a link exactly when its trimmed form is "http://" or "https://" followed by one or more non-white-space characters |
| `Editor.BlankPasteIsNotLink` | frontend/src/components/Editor.tsx:129-131 | missing clipboard text, or text that trims to nothing, is never a link |
| `Editor.EditorState.constructor` | frontend/src/components/Editor.tsx:24-32 | the state hooks start with safety mode off, no visited links, `modalLink` null, the empty editor's HTML as the document, nothing opened and nothing sent |
| `Editor.EditorState.LoadSettings` | frontend/src/components/Editor.tsx:35-47 | the mount effect sets the safety mode to whether the stored text is "true"; it replaces the visited list by the stored list without duplicates when one is stored, and keeps it otherwise |
| `Editor.EditorState.ToggleSafetyMode` | frontend/src/components/Editor.tsx:50-54 | the mode flips; the stored text becomes "true" exactly when the new mode is on; nothing else changes |
| `Editor.EditorState.OpenLink` | frontend/src/components/Editor.tsx:57-67 | the URL is opened; the visited set becomes the old set plus the URL; the stored list is rewritten only if the URL was new; `modalLink` is cleared |
| `Editor.EditorState.HandleLinkClick` | frontend/src/components/Editor.tsx:69-82 | with safety mode off, or for a URL not yet visited, the link opens, is marked visited (the stored list is rewritten exactly when the URL is new) and `modalLink` is cleared; with safety mode on and the URL visited, `modalLink` becomes the URL (the component renders nothing from it), and nothing is opened and nothing stored |
| `Editor.EditorState.OnUpdate` | frontend/src/components/Editor.tsx:164-170 | a local edit becomes the document and is sent as a `text_change` |
| `Editor.EditorState.OnLoadContent` | frontend/src/components/Editor.tsx:183-188 | content equal to the document changes nothing; other content replaces the document without sending anything |
| `Editor.EditorState.OnTextUpdate` | frontend/src/components/Editor.tsx:190-201 | content equal to the document changes nothing; other content replaces the document without sending anything |
| `Editor.ReloadAfterToggle` | frontend/src/components/Editor.tsx:35-54 | after a toggle, a reloaded component on the same `localStorage` has the toggled mode once its mount effect has run |
| `Editor.ReloadAfterNewLink` | frontend/src/components/Editor.tsx:39-66 | after opening a new link, a reloaded component on the same `localStorage` has the same visited list, in the same order |
| `Time.TimeAgo` | frontend/src/lib/time.ts:1-20 | every result is longer than seven characters and ends with " atrás" |
| `Time.ElapsedSeconds` | frontend/src/lib/time.ts:2 | the elapsed seconds are the floor of the millisecond difference divided by 1000 |
| `Time.FloorQuotientIsDiv` | frontend/src/lib/time.ts:2-17 | `Math.floor` of a division by a positive length is integer division, negative dividends included |
| `Time.QuotientExceedsOneIff` | frontend/src/lib/time.ts:4-17 | for whole seconds, "seconds / length > 1" holds exactly when seconds is greater than the length |
| `Time.TimeAgoChoosesFirstExceeded` | frontend/src/lib/time.ts:1-20 | the result is `seconds div length` followed by the suffix of the first unit among year, month, day, hour and minute whose length is strictly exceeded, or the seconds followed by "s atrás" |
| `Time.ChosenUnitCharacterised` | frontend/src/lib/time.ts:4-19 | in both directions, the chosen unit is the one whose length the seconds strictly exceed (unless it is seconds) and no earlier unit's length is exceeded |
| `Time.ChosenQuotientPositive` | frontend/src/lib/time.ts:5-17 | when a unit other than seconds is chosen, the printed number is at least 1 |
| `Time.FutureDateFallsThrough` | frontend/src/lib/time.ts:19 | for a future date the seconds are negative and the result is that negative number followed by "s atrás" |
| `Time.SixtySecondsInSeconds` | frontend/src/lib/time.ts:16-19 | exactly 60 s renders as "60s atrás" |
| `Time.OneHourInMinutes` | frontend/src/lib/time.ts:13-17 | exactly 3600 s renders as "60min atrás" |
| `Time.DecimalRoundTrip` | frontend/src/lib/time.ts:5-19 | the decimal rendering of an integer is non-empty and reads back as the same integer |
| `Time.SuffixesDistinct` | frontend/src/lib/time.ts:5-19 | a rendered number followed by one unit's suffix never ends with another unit's suffix |
| `Time.FormatParses` | frontend/src/lib/time.ts:5-19 | a rendered number followed by a unit's suffix reads back as that number and that unit |
| `Time.TimeAgoParses` | frontend/src/lib/time.ts:1-20 | every result is a decimal integer followed by exactly one of the six suffixes, and reads back as the quotient and the chosen unit |

## Left out

- backend/src/server.ts (Express, HTTP and socket.io set-up, CORS, the port) is I/O wiring and is not part of this model.
- frontend/src/App.tsx (routing) and frontend/tailwind.config.js (styling) carry no logic of the core; the id generator App.tsx calls is not part of this model.
- Prisma, real timers and socket.io delivery are modelled only by the effects the handler relies on. Each handler and each timer expiry is one atomic step, so interleavings inside the async `join_room` handler are not modelled. Neither is a failed create when two first joins race.
- Database failures are parameters of the steps (`loadFails`, `saveFails`). What the handler logs to the console is not modelled.
- Time is not modelled in the handler: the 500 ms delay appears only through the `Fire` step, which stands for a timer's expiry.
- RoomSync.DebounceWritesLastEdit: "exactly one save" is stated through the database's content and the pending saves. The model keeps no log of update calls, so failed update attempts are not counted.
- Editor: the JSX and its animations, the tiptap editor configuration (lines 99-100 hold a malformed nested `extensions` key), and the transaction the paste handler builds are not modelled. Neither are the selection restore after `text_update`, the `setInterval`/`setTimeout` UI timers, `handleRefresh`, the connection-status flag, the click hook's node-type test, and the `join_room` emission on mount.
- Editor: `handleLinkClick` is modelled as if the click hook called it for every link. The hook tests `node.type.name === 'link'` (Editor.tsx:119), but a tiptap link is a mark rather than a node, so in the library as it stands that test appears never to hold and no click reaches `handleLinkClick`. This depends on tiptap's behaviour, which is not part of this model.
- Editor.EditorState.OnLoadContent, Editor.EditorState.OnTextUpdate: `setContent(data)` is taken to make `data` itself the document that `getHTML` returns. Tiptap normalises the HTML it is given, so `getHTML` may later return a different string (text arriving as plain text comes back wrapped in `<p>`). The guard is modelled as the comparison of `data` with the document as last set. The empty editor's HTML is a parameter of `Editor.EditorState.constructor` (for tiptap it is `<p></p>`, not ""), so `load_content("")` for a new room does replace the document and reset `lastUpdated`.
- Editor: `window.open` is recorded, not performed. `localStorage` values that hold JSON are represented by the list they encode. A plain-text value under the visited key is treated as the parse failure the mount effect logs, although `JSON.parse` would accept some such texts.
- Time: JavaScript numbers are modelled by exact integers and reals. They would differ from double arithmetic only when a rounding crosses an integer, and that needs elapsed times far outside the range of JavaScript dates. An invalid `Date` (NaN) is not modelled, nor is the exponent notation JavaScript uses for numbers of 10^21 and above.
