/**
 * The server's room synchronisation handler (backend/src/socket/handler.ts).
 *
 * The whole server is one state: the rooms table of the database, socket.io's
 * room membership, the module-level debounce dictionary `saveQueue`, the timers
 * that are still armed, and every message emitted so far. Each handler, and each
 * expiry of a debounce timer, is one atomic step. The steps are first given as
 * functions on `State`; class `Server` then performs them by updating its fields
 * and is proved to follow them.
 */
module RoomSync {
  import opened Wrappers

  type SocketId = string
  type RoomId = string
  /** A `NodeJS.Timeout` handle; every `setTimeout` call returns a new one. */
  type TimerId = nat

  datatype Event = LoadContent | TextUpdate

  /** One `emit`: the sockets it is addressed to, resolved when it is sent. */
  datatype Emission = Emission(recipients: set<SocketId>, event: Event, payload: string)

  /** What one socket receives from one emission. */
  datatype Delivery = Delivery(event: Event, payload: string)

  /** The callback of an armed debounce timer: it writes `content` into room `room`. */
  datatype PendingSave = PendingSave(room: RoomId, content: string)

  datatype State = State(
    storage: map<RoomId, string>,        // rooms table: slug -> content
    rooms: map<RoomId, set<SocketId>>,   // socket.io room membership
    saveQueue: map<RoomId, TimerId>,     // the module-level saveQueue
    timers: map<TimerId, PendingSave>,   // timers armed and neither fired nor cleared
    nextTimer: TimerId,                  // the handle the next setTimeout returns
    outbox: seq<Emission>)               // everything emitted, in order

  /** The server when it starts over the rooms table `stored`, which outlives the process:
      no timer armed, nobody connected, nothing emitted. */
  function Init(stored: map<RoomId, string>): State
  {
    State(stored, map[], map[], map[], 0, [])
  }

  function Members(s: State, room: RoomId): set<SocketId>
  {
    if room in s.rooms then s.rooms[room] else {}
  }

  /** Every armed timer is the one `saveQueue` names for its room, the armed timer that
      `saveQueue` names for a room saves that room, and the handle the next `setTimeout`
      returns is neither armed nor in `saveQueue`. */
  predicate Consistent(s: State)
  {
    && (forall h | h in s.timers ::
          h < s.nextTimer && s.timers[h].room in s.saveQueue && s.saveQueue[s.timers[h].room] == h)
    && (forall r | r in s.saveQueue :: s.saveQueue[r] < s.nextTimer)
    && (forall r | r in s.saveQueue && s.saveQueue[r] in s.timers :: s.timers[s.saveQueue[r]].room == r)
  }

  /** The content the armed timer of `room` will write, if one is armed. */
  function Pending(s: State, room: RoomId): Option<string>
  {
    if room in s.saveQueue && s.saveQueue[room] in s.timers then
      Some(s.timers[s.saveQueue[room]].content)
    else None
  }

  /** What `sock` has received so far, in order. */
  function Received(outbox: seq<Emission>, sock: SocketId): seq<Delivery>
  {
    if outbox == [] then []
    else
      (if sock in outbox[0].recipients then [Delivery(outbox[0].event, outbox[0].payload)] else [])
      + Received(outbox[1..], sock)
  }

  // ---------------------------------------------------------------------------
  // The steps

  /** A connection: socket.io puts every socket in a room named by its own id. */
  function ConnectStep(s: State, sock: SocketId): (t: State)
    ensures Members(t, sock) == Members(s, sock) + {sock}
    ensures forall r :: r != sock ==> Members(t, r) == Members(s, r)
    ensures t.storage == s.storage && t.outbox == s.outbox
    ensures t.saveQueue == s.saveQueue && t.timers == s.timers && t.nextTimer == s.nextTimer
  {
    s.(rooms := s.rooms[sock := Members(s, sock) + {sock}])
  }

  /** `join_room`: join the socket.io room, then read the room, creating it with empty
      content when absent, and emit its content to the joining socket only. When the
      database call throws (`loadFails`), the error is logged and nothing is emitted. */
  function JoinStep(s: State, sock: SocketId, room: RoomId, loadFails: bool): (t: State)
    ensures sock in Members(t, room)
    ensures !loadFails ==> room in t.storage && |t.outbox| == |s.outbox| + 1
    ensures loadFails ==> t.storage == s.storage && t.outbox == s.outbox
    ensures t.saveQueue == s.saveQueue && t.timers == s.timers && t.nextTimer == s.nextTimer
  {
    var joined := s.(rooms := s.rooms[room := Members(s, room) + {sock}]);
    if loadFails then joined
    else if room in s.storage then
      joined.(outbox := s.outbox + [Emission({sock}, LoadContent, s.storage[room])])
    else
      joined.(storage := s.storage[room := ""], outbox := s.outbox + [Emission({sock}, LoadContent, "")])
  }

  /** The sockets `socket.to(room).emit` reaches when sent from `sock`: the members of
      `room`, except the sender and every socket in the room named by the sender's id. */
  function BroadcastTargets(s: State, sock: SocketId, room: RoomId): (targets: set<SocketId>)
    ensures sock !in targets && targets <= Members(s, room) && targets !! Members(s, sock)
    ensures Members(s, sock) <= {sock} ==> targets == Members(s, room) - {sock}
  {
    Members(s, room) - Members(s, sock) - {sock}
  }

  /** `text_change`: emit the content to the sockets `BroadcastTargets` names, clear the room's previous timer, and arm a new one for this content. */
  function TextChangeStep(s: State, sock: SocketId, room: RoomId, content: string): (t: State)
    ensures Pending(t, room) == Some(content)
    ensures t.storage == s.storage && t.rooms == s.rooms && |t.outbox| == |s.outbox| + 1
  {
    var cleared := if room in s.saveQueue then s.timers - {s.saveQueue[room]} else s.timers;
    s.(outbox := s.outbox + [Emission(BroadcastTargets(s, sock, room), TextUpdate, content)],
       timers := cleared[s.nextTimer := PendingSave(room, content)],
       saveQueue := s.saveQueue[room := s.nextTimer],
       nextTimer := s.nextTimer + 1)
  }

  /** Expiry of the armed timer of `room`: the timer is spent, then the update is written.
      An update of a room missing from the database, or one that throws for another reason
      (`saveFails`), is logged and dropped. The `saveQueue` entry is left in place. */
  function FireStep(s: State, room: RoomId, saveFails: bool): (t: State)
    ensures Pending(t, room) == None
    ensures Pending(s, room) == None ==> t == s
    ensures t.rooms == s.rooms && t.outbox == s.outbox && t.saveQueue == s.saveQueue && t.nextTimer == s.nextTimer
  {
    if room in s.saveQueue && s.saveQueue[room] in s.timers then
      var save := s.timers[s.saveQueue[room]];
      var spent := s.(timers := s.timers - {s.saveQueue[room]});
      if !saveFails && save.room in s.storage then
        spent.(storage := s.storage[save.room := save.content])
      else spent
    else s
  }

  /** `disconnect`: the handler only logs; socket.io removes the socket from every room. */
  function DisconnectStep(s: State, sock: SocketId): (t: State)
    ensures forall r :: sock !in Members(t, r)
    ensures t.storage == s.storage && t.outbox == s.outbox
    ensures t.saveQueue == s.saveQueue && t.timers == s.timers && t.nextTimer == s.nextTimer
  {
    s.(rooms := map r | r in s.rooms :: s.rooms[r] - {sock})
  }

  // ---------------------------------------------------------------------------
  // Deliveries

  lemma {:induction false} ReceivedAppend(outbox: seq<Emission>, e: Emission, sock: SocketId)
    ensures Received(outbox + [e], sock) ==
            Received(outbox, sock) + (if sock in e.recipients then [Delivery(e.event, e.payload)] else [])
    decreases |outbox|
  {
    if outbox != [] {
      assert (outbox + [e])[1..] == outbox[1..] + [e];
      ReceivedAppend(outbox[1..], e, sock);
    } else {
      assert Received([e][1..], sock) == [];
    }
  }

  // ---------------------------------------------------------------------------
  // Connection

  /** A connection sends nothing and touches neither the database nor the debounce state;
      afterwards the socket is a member of the room named by its id. */
  lemma ConnectJoinsOwnRoom(s: State, sock: SocketId)
    ensures var t := ConnectStep(s, sock);
            && sock in Members(t, sock)
            && (forall x :: Received(t.outbox, x) == Received(s.outbox, x))
            && (forall r :: Pending(t, r) == Pending(s, r))
  {
  }

  /** `text_change` trusts the room it names: an edit naming another socket's id as its
      room reaches that socket, unless it has also joined the room named by the sender's id. */
  lemma EditToSocketRoomReachesIt(s: State, a: SocketId, b: SocketId, content: string)
    requires a != b && b !in Members(s, a)
    ensures var s1 := ConnectStep(s, b);
            var t := TextChangeStep(s1, a, b, content);
            Received(t.outbox, b) == Received(s1.outbox, b) + [Delivery(TextUpdate, content)]
  {
    var s1 := ConnectStep(s, b);
    TextChangeFanOut(s1, a, b, content);
  }

  // ---------------------------------------------------------------------------
  // join_room

  /** Joining a room missing from the database creates it with empty content, and only
      the joining socket is sent `load_content("")`. */
  lemma JoinCreatesMissingRoom(s: State, sock: SocketId, room: RoomId)
    requires room !in s.storage
    ensures var t := JoinStep(s, sock, room, false);
            && t.storage == s.storage[room := ""]
            && Received(t.outbox, sock) == Received(s.outbox, sock) + [Delivery(LoadContent, "")]
            && forall x :: x != sock ==> Received(t.outbox, x) == Received(s.outbox, x)
  {
    forall x {
      ReceivedAppend(s.outbox, Emission({sock}, LoadContent, ""), x);
    }
  }

  /** Joining a stored room writes nothing, and only the joining socket is sent the stored
      content, unchanged. */
  lemma JoinLoadsStoredRoom(s: State, sock: SocketId, room: RoomId)
    requires room in s.storage
    ensures var t := JoinStep(s, sock, room, false);
            && t.storage == s.storage
            && Received(t.outbox, sock) == Received(s.outbox, sock) + [Delivery(LoadContent, s.storage[room])]
            && forall x :: x != sock ==> Received(t.outbox, x) == Received(s.outbox, x)
  {
    forall x {
      ReceivedAppend(s.outbox, Emission({sock}, LoadContent, s.storage[room]), x);
    }
  }

  /** A failed load emits nothing and writes nothing; the socket has still joined. */
  lemma JoinLoadFailure(s: State, sock: SocketId, room: RoomId)
    ensures var t := JoinStep(s, sock, room, true);
            && t.storage == s.storage && t.outbox == s.outbox
            && sock in Members(t, room)
  {
  }

  /** After a join the socket is in the room; other rooms keep their members (an earlier
      room is not left), and the debounce state is untouched. */
  lemma JoinMembership(s: State, sock: SocketId, room: RoomId, loadFails: bool)
    ensures var t := JoinStep(s, sock, room, loadFails);
            && Members(t, room) == Members(s, room) + {sock}
            && (forall r :: r != room ==> Members(t, r) == Members(s, r))
            && t.saveQueue == s.saveQueue && t.timers == s.timers && t.nextTimer == s.nextTimer
  {
  }

  // ---------------------------------------------------------------------------
  // text_change

  /** An edit reaches exactly the members of the named room other than its sender and the
      sockets in the sender's own room. The room named by the message is trusted: the sender
      need not be a member of it. */
  lemma TextChangeFanOut(s: State, sock: SocketId, room: RoomId, content: string)
    ensures var t := TextChangeStep(s, sock, room, content);
            forall x :: Received(t.outbox, x) ==
              Received(s.outbox, x) + (if x in Members(s, room) && x != sock && x !in Members(s, sock) then [Delivery(TextUpdate, content)] else [])
  {
    forall x {
      ReceivedAppend(s.outbox, Emission(BroadcastTargets(s, sock, room), TextUpdate, content), x);
    }
  }

  /** The sender never receives its own edit, nor does any socket outside the room or in
      the room named by the sender's id. */
  lemma NoSelfEcho(s: State, sock: SocketId, room: RoomId, content: string, x: SocketId)
    requires x == sock || x !in Members(s, room) || x in Members(s, sock)
    ensures Received(TextChangeStep(s, sock, room, content).outbox, x) == Received(s.outbox, x)
  {
    TextChangeFanOut(s, sock, room, content);
  }

  /** An edit keeps the timer invariant, replaces the room's pending save with its own
      content, and neither creates, cancels nor changes the pending save of another room.
      Nothing is written. */
  lemma TextChangeReplacesPending(s: State, sock: SocketId, room: RoomId, content: string)
    requires Consistent(s)
    ensures var t := TextChangeStep(s, sock, room, content);
            && Consistent(t)
            && Pending(t, room) == Some(content)
            && (forall r :: r != room ==> Pending(t, r) == Pending(s, r))
            && t.storage == s.storage && t.rooms == s.rooms
  {
  }

  /** Under the invariant there is at most one armed timer per room. */
  lemma AtMostOnePendingPerRoom(s: State, h1: TimerId, h2: TimerId)
    requires Consistent(s)
    requires h1 in s.timers && h2 in s.timers && s.timers[h1].room == s.timers[h2].room
    ensures h1 == h2
  {
  }

  // ---------------------------------------------------------------------------
  // Timer expiry

  /** Expiry writes the pending content when the room is stored, and the room then has no
      pending save. */
  lemma FireWritesPending(s: State, room: RoomId)
    requires Consistent(s) && Pending(s, room).Some? && room in s.storage
    ensures var t := FireStep(s, room, false);
            && t.storage == s.storage[room := Pending(s, room).value]
            && Pending(t, room) == None && Consistent(t)
            && t.rooms == s.rooms && t.outbox == s.outbox && t.saveQueue == s.saveQueue
            && forall r :: r != room ==> Pending(t, r) == Pending(s, r)
  {
  }

  /** Expiry for a room missing from the database, or a failing write, changes no stored
      content and raises nothing; the pending save is spent all the same. */
  lemma FireWithoutWrite(s: State, room: RoomId, saveFails: bool)
    requires Consistent(s)
    requires room !in s.storage || saveFails
    ensures var t := FireStep(s, room, saveFails);
            && t.storage == s.storage && Pending(t, room) == None && Consistent(t)
            && t.rooms == s.rooms && t.outbox == s.outbox && t.saveQueue == s.saveQueue
            && forall r :: r != room ==> Pending(t, r) == Pending(s, r)
  {
  }

  /** A room with no armed timer has nothing to fire: the step changes nothing. */
  lemma FireIdle(s: State, room: RoomId, saveFails: bool)
    requires Pending(s, room) == None
    ensures FireStep(s, room, saveFails) == s
  {
  }

  // ---------------------------------------------------------------------------
  // Debounce over a burst of edits

  datatype Edit = Edit(sender: SocketId, content: string)

  /** A burst of edits to one room with no expiry in between. */
  function Burst(s: State, room: RoomId, edits: seq<Edit>): State
    decreases |edits|
  {
    if edits == [] then s
    else Burst(TextChangeStep(s, edits[0].sender, room, edits[0].content), room, edits[1..])
  }

  lemma {:induction false} BurstLeavesLastPending(s: State, room: RoomId, edits: seq<Edit>)
    requires Consistent(s) && edits != []
    ensures var t := Burst(s, room, edits);
            && Consistent(t)
            && Pending(t, room) == Some(edits[|edits| - 1].content)
            && t.storage == s.storage
            && forall r :: r != room ==> Pending(t, r) == Pending(s, r)
    decreases |edits|
  {
    var s1 := TextChangeStep(s, edits[0].sender, room, edits[0].content);
    TextChangeReplacesPending(s, edits[0].sender, room, edits[0].content);
    if |edits| > 1 {
      BurstLeavesLastPending(s1, room, edits[1..]);
    }
  }

  /** Debounce coalescing: after edits c1 .. cn to a stored room, one expiry writes cn and
      nothing else, after which the room has no pending save and a further expiry is idle. */
  lemma DebounceWritesLastEdit(s: State, room: RoomId, edits: seq<Edit>)
    requires Consistent(s) && edits != [] && room in s.storage
    ensures var t := FireStep(Burst(s, room, edits), room, false);
            && t.storage == s.storage[room := edits[|edits| - 1].content]
            && Pending(t, room) == None
            && FireStep(t, room, false) == t
  {
    BurstLeavesLastPending(s, room, edits);
    FireWritesPending(Burst(s, room, edits), room);
  }

  // ---------------------------------------------------------------------------
  // disconnect

  /** A disconnect changes neither the database nor the debounce state nor the emitted
      messages; the socket is in no room afterwards. */
  lemma DisconnectKeepsSaves(s: State, sock: SocketId)
    ensures var t := DisconnectStep(s, sock);
            && t.storage == s.storage && t.saveQueue == s.saveQueue && t.timers == s.timers
            && t.outbox == s.outbox
            && (forall r :: sock !in Members(t, r))
            && (forall r :: Pending(t, r) == Pending(s, r))
  {
  }

  /** An edit followed at once by its sender's disconnect is still written on expiry. */
  lemma EditThenDisconnectPersists(s: State, sock: SocketId, room: RoomId, content: string)
    requires Consistent(s) && room in s.storage
    ensures var t := FireStep(DisconnectStep(TextChangeStep(s, sock, room, content), sock), room, false);
            t.storage == s.storage[room := content]
  {
  }

  /** There is no in-memory copy of a room: a socket joining while a save is still pending
      is sent the stored content, not the edit waiting to be written. */
  lemma JoinDuringDebounceSeesStoredContent(s: State, a: SocketId, b: SocketId, room: RoomId, content: string)
    requires room in s.storage
    ensures var s1 := TextChangeStep(s, a, room, content);
            var t := JoinStep(s1, b, room, false);
            Received(t.outbox, b) == Received(s1.outbox, b) + [Delivery(LoadContent, s.storage[room])]
  {
    var s1 := TextChangeStep(s, a, room, content);
    JoinLoadsStoredRoom(s1, b, room);
  }

  // ---------------------------------------------------------------------------
  // The timer invariant: the server starts in it and every step keeps it

  lemma InitConsistent(stored: map<RoomId, string>)
    ensures Consistent(Init(stored))
  {
  }

  lemma ConnectKeepsConsistent(s: State, sock: SocketId)
    requires Consistent(s)
    ensures Consistent(ConnectStep(s, sock))
  {
  }

  lemma JoinKeepsConsistent(s: State, sock: SocketId, room: RoomId, loadFails: bool)
    requires Consistent(s)
    ensures Consistent(JoinStep(s, sock, room, loadFails))
  {
  }

  lemma TextChangeKeepsConsistent(s: State, sock: SocketId, room: RoomId, content: string)
    requires Consistent(s)
    ensures Consistent(TextChangeStep(s, sock, room, content))
  {
    TextChangeReplacesPending(s, sock, room, content);
  }

  lemma FireKeepsConsistent(s: State, room: RoomId, saveFails: bool)
    requires Consistent(s)
    ensures Consistent(FireStep(s, room, saveFails))
  {
  }

  lemma DisconnectKeepsConsistent(s: State, sock: SocketId)
    requires Consistent(s)
    ensures Consistent(DisconnectStep(s, sock))
  {
  }

  // ---------------------------------------------------------------------------
  // The handler as a stateful object

  class Server {
    var storage: map<RoomId, string>
    var rooms: map<RoomId, set<SocketId>>
    var saveQueue: map<RoomId, TimerId>
    var timers: map<TimerId, PendingSave>
    var nextTimer: TimerId
    var outbox: seq<Emission>

    function Snapshot(): State
      reads this
    {
      State(storage, rooms, saveQueue, timers, nextTimer, outbox)
    }

    ghost predicate Valid()
      reads this
    {
      Consistent(Snapshot())
    }

    /** A server starting over the rooms table `stored`. */
    constructor (stored: map<RoomId, string>)
      ensures Valid() && Snapshot() == Init(stored)
    {
      InitConsistent(stored);
      storage, rooms, saveQueue, timers, nextTimer, outbox := stored, map[], map[], map[], 0, [];
    }

    method Connect(sock: SocketId)
      requires Valid()
      modifies this
      ensures Valid()
      ensures Snapshot() == ConnectStep(old(Snapshot()), sock)
    {
      ghost var s := Snapshot();
      ConnectKeepsConsistent(s, sock);
      var members := if sock in rooms then rooms[sock] else {};
      rooms := rooms[sock := members + {sock}];
    }

    method Join(sock: SocketId, room: RoomId, loadFails: bool)
      requires Valid()
      modifies this
      ensures Valid()
      ensures Snapshot() == JoinStep(old(Snapshot()), sock, room, loadFails)
    {
      ghost var s := Snapshot();
      JoinKeepsConsistent(s, sock, room, loadFails);
      var members := if room in rooms then rooms[room] else {};
      rooms := rooms[room := members + {sock}];
      if loadFails {
        return;
      }
      if room !in storage {
        storage := storage[room := ""];
      }
      outbox := outbox + [Emission({sock}, LoadContent, storage[room])];
    }

    method TextChange(sock: SocketId, room: RoomId, content: string)
      requires Valid()
      modifies this
      ensures Valid()
      ensures Snapshot() == TextChangeStep(old(Snapshot()), sock, room, content)
    {
      ghost var s := Snapshot();
      TextChangeKeepsConsistent(s, sock, room, content);
      var members := if room in rooms then rooms[room] else {};
      var cleared := timers;
      if room in saveQueue {
        cleared := timers - {saveQueue[room]};
      }
      var handle := nextTimer;
      var own := if sock in rooms then rooms[sock] else {};
      outbox := outbox + [Emission(members - own - {sock}, TextUpdate, content)];
      timers, saveQueue, nextTimer := cleared[handle := PendingSave(room, content)], saveQueue[room := handle], handle + 1;
    }

    method Fire(room: RoomId, saveFails: bool)
      requires Valid()
      modifies this
      ensures Valid()
      ensures Snapshot() == FireStep(old(Snapshot()), room, saveFails)
    {
      ghost var s := Snapshot();
      FireKeepsConsistent(s, room, saveFails);
      if room !in saveQueue || saveQueue[room] !in timers {
        return;
      }
      var handle := saveQueue[room];
      var save := timers[handle];
      timers := timers - {handle};
      if !saveFails && save.room in storage {
        storage := storage[save.room := save.content];
      }
    }

    method Disconnect(sock: SocketId)
      requires Valid()
      modifies this
      ensures Valid()
      ensures Snapshot() == DisconnectStep(old(Snapshot()), sock)
    {
      ghost var s := Snapshot();
      DisconnectKeepsConsistent(s, sock);
      rooms := map r | r in rooms :: rooms[r] - {sock};
    }
  }
}
