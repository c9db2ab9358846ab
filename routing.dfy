/**
 * The shared state of the chat server as a value, and what each locked operation
 * does to it. `clientIds` maps a client socket to its username, `chatRooms` maps a
 * room name to its member list (duplicates allowed), and every `send_message` is
 * recorded as one entry appended to `outbox`. The operations whose outcome depends
 * on the iteration order of an `unordered_map` (plain broadcast, private message)
 * are relations between the state before and after; the others are functions.
 */
module Routing {
  import opened Commands

  /** One `send_message(socket, text)` call. */
  datatype Send = Send(socket: int, text: string)

  datatype ServerState = ServerState(
    clientIds: map<int, string>,
    chatRooms: map<string, seq<int>>,
    outbox: seq<Send>)

  /** The sockets the sends go to, in order. */
  function Recipients(sends: seq<Send>): seq<int>
  {
    seq(|sends|, i requires 0 <= i < |sends| => sends[i].socket)
  }

  lemma RecipientsAppend(a: seq<Send>, b: seq<Send>)
    ensures Recipients(a + b) == Recipients(a) + Recipients(b)
  {
  }

  /** Every send carries `text`. */
  ghost predicate AllCarry(sends: seq<Send>, text: string)
  {
    forall i :: 0 <= i < |sends| ==> sends[i].text == text
  }

  /** No socket occurs twice. */
  ghost predicate Distinct(sockets: seq<int>)
  {
    forall i, j :: 0 <= i < j < |sockets| ==> sockets[i] != sockets[j]
  }

  /** The sends carry `text` and reach every socket of `targets` exactly once, and nobody else. */
  ghost predicate DeliversOnce(sends: seq<Send>, targets: set<int>, text: string)
  {
    && AllCarry(sends, text)
    && Distinct(Recipients(sends))
    && forall c :: c in Recipients(sends) <==> c in targets
  }

  /** Adding one send to a fresh target keeps the exactly-once delivery. */
  lemma DeliversOnceAdd(sends: seq<Send>, targets: set<int>, text: string, c: int)
    requires DeliversOnce(sends, targets, text) && c !in targets
    ensures DeliversOnce(sends + [Send(c, text)], targets + {c}, text)
  {
    var r := Recipients(sends);
    RecipientsAppend(sends, [Send(c, text)]);
    assert Recipients(sends + [Send(c, text)]) == r + [c];
    forall i, j | 0 <= i < j < |r| + 1
      ensures (r + [c])[i] != (r + [c])[j]
    {
      if j == |r| {
        assert r[i] in r;
      }
    }
  }

  /** A repetition-free sequence holds each of its elements once, and as many elements as its set. */
  lemma {:induction false} DistinctCounts(sockets: seq<int>, targets: set<int>)
    requires Distinct(sockets)
    requires forall c :: c in sockets <==> c in targets
    ensures |sockets| == |targets|
    ensures forall c :: multiset(sockets)[c] == if c in targets then 1 else 0
  {
    if sockets != [] {
      var init, last := sockets[..|sockets| - 1], sockets[|sockets| - 1];
      assert sockets == init + [last];
      assert last !in init;
      forall c
        ensures c in init <==> c in targets - {last}
      {
        if c in init {
          var i :| 0 <= i < |init| && init[i] == c;
          assert sockets[i] == c;
        }
      }
      DistinctCounts(init, targets - {last});
    } else {
      assert forall c :: c !in targets;
      assert targets == {};
    }
  }

  /** The sends `s1` made on top of `s0`, which it extends. */
  ghost predicate Extends(s0: ServerState, s1: ServerState)
  {
    |s0.outbox| <= |s1.outbox| && s1.outbox[..|s0.outbox|] == s0.outbox
  }

  /** `chat_rooms[room]` read through `operator[]`: an absent room is an empty list. */
  function Members(rooms: map<string, seq<int>>, room: string): seq<int>
  {
    if room in rooms then rooms[room] else []
  }

  /** `client_ids[socket]` read through `operator[]`: an absent socket has the empty name. */
  function NameOf(ids: map<int, string>, socket: int): string
  {
    if socket in ids then ids[socket] else ""
  }

  /** Some registered socket carries this username. */
  ghost predicate Registered(ids: map<int, string>, name: string)
  {
    exists c :: c in ids && ids[c] == name
  }

  /** Registration: the entry of `socket` is set (or overwritten), then the welcome line goes to it. */
  function Register(s: ServerState, socket: int, username: string): ServerState
  {
    ServerState(s.clientIds[socket := username], s.chatRooms,
                s.outbox + [Send(socket, "Welcome " + username + "!")])
  }

  /** Unregistration on exit: only the entry of `socket` is erased; rooms keep it. */
  function Unregister(s: ServerState, socket: int): ServerState
  {
    ServerState(s.clientIds - {socket}, s.chatRooms, s.outbox)
  }

  /** `broadcast_message`: every registered socket but the sender gets `text` once, in some order. */
  ghost predicate IsBroadcast(s0: ServerState, s1: ServerState, sender: int, text: string)
  {
    && s1.clientIds == s0.clientIds
    && s1.chatRooms == s0.chatRooms
    && Extends(s0, s1)
    && DeliversOnce(s1.outbox[|s0.outbox|..], s0.clientIds.Keys - {sender}, text)
  }

  /**
   * `send_private_message`: exactly one send. If some socket is registered under
   * `recipient`, one such socket gets the private line (and the sender's name is read
   * through `operator[]`, which inserts an empty name for an unregistered sender);
   * otherwise the sender alone is told the user was not found.
   */
  ghost predicate IsPrivate(s0: ServerState, s1: ServerState, sender: int, recipient: string, body: string)
  {
    && s1.chatRooms == s0.chatRooms
    && Extends(s0, s1)
    && |s1.outbox| == |s0.outbox| + 1
    && var sent := s1.outbox[|s0.outbox|];
       if Registered(s0.clientIds, recipient) then
         && sent.socket in s0.clientIds
         && s0.clientIds[sent.socket] == recipient
         && sent.text == "Private from " + NameOf(s0.clientIds, sender) + ": " + body
         && s1.clientIds == s0.clientIds[sender := NameOf(s0.clientIds, sender)]
       else
         && sent == Send(sender, "User not found: " + recipient)
         && s1.clientIds == s0.clientIds
  }

  /** `join_chat_room`: the joiner is appended to the room, which `operator[]` creates if absent, and told so. */
  function JoinRoom(s: ServerState, room: string, client: int): ServerState
  {
    ServerState(s.clientIds, s.chatRooms[room := Members(s.chatRooms, room) + [client]],
                s.outbox + [Send(client, "You have joined the room: " + room)])
  }

  /** The sends of a room broadcast: one per list entry that is not the sender, in list order. */
  function RoomSends(members: seq<int>, sender: int, text: string): seq<Send>
  {
    if members == [] then []
    else
      var last := members[|members| - 1];
      RoomSends(members[..|members| - 1], sender, text) + (if last != sender then [Send(last, text)] else [])
  }

  /** `broadcast_to_room`: the room is read through `operator[]` (so an unknown room gains an empty entry). */
  function RoomBroadcast(s: ServerState, room: string, text: string, sender: int): ServerState
  {
    var members := Members(s.chatRooms, room);
    ServerState(s.clientIds, s.chatRooms[room := members], s.outbox + RoomSends(members, sender, text))
  }

  /** What one classified line does in the session of `socket`, whose local username is `username`. */
  ghost predicate Step(s0: ServerState, s1: ServerState, socket: int, username: string, cmd: Command)
  {
    match cmd
    case Private(recipient, body) => IsPrivate(s0, s1, socket, recipient, body)
    case Join(room) => s1 == JoinRoom(s0, room, socket)
    case Room(room, body) => s1 == RoomBroadcast(s0, room, username + ": " + body, socket)
    case Quit => s1 == s0
    case Plain(line) => IsBroadcast(s0, s1, socket, username + ": " + line)
  }

  /** The command a line is dispatched as (a line that ends the session is never dispatched). */
  function CommandOf(line: string): Command
    requires |line| < NPOS
  {
    if Classify(line).Ok? then Classify(line).value else Quit
  }

  /** `trace` starts in `start` and its i-th step dispatches line i, for the first n lines. */
  ghost predicate Replays(trace: seq<ServerState>, start: ServerState, socket: int, username: string,
                          lines: seq<string>, n: nat)
    requires forall i :: 0 <= i < |lines| ==> |lines[i]| < NPOS
  {
    && n <= |lines|
    && |trace| == n + 1
    && trace[0] == start
    && forall j :: 0 <= j < n ==> Step(trace[j], trace[j + 1], socket, username, CommandOf(lines[j]))
  }

  lemma ReplaysExtend(trace: seq<ServerState>, start: ServerState, socket: int, username: string,
                      lines: seq<string>, n: nat, next: ServerState)
    requires forall i :: 0 <= i < |lines| ==> |lines[i]| < NPOS
    requires Replays(trace, start, socket, username, lines, n) && n < |lines|
    requires Step(trace[n], next, socket, username, CommandOf(lines[n]))
    ensures Replays(trace + [next], start, socket, username, lines, n + 1)
  {
  }

  /** A line that ends the session loop: `/quit`, or one whose `substr` throws. */
  predicate EndsSession(line: string)
    requires |line| < NPOS
  {
    Classify(line).OutOfRange? || Classify(line) == Ok(Quit)
  }

  /** The number of lines the session loop dispatches before it stops: the index of the first line that ends it. */
  function FirstStop(lines: seq<string>): (k: nat)
    requires forall i :: 0 <= i < |lines| ==> |lines[i]| < NPOS
    ensures k <= |lines|
    ensures forall i :: 0 <= i < k ==> !EndsSession(lines[i])
    ensures k < |lines| ==> EndsSession(lines[k])
  {
    if lines == [] then 0
    else if EndsSession(lines[0]) then 0
    else 1 + FirstStop(lines[1..])
  }

  /** Why a session loop stopped. */
  datatype Ending = PeerClosed | QuitCommand | SubstrThrew

  function SessionEnding(lines: seq<string>): (e: Ending)
    requires forall i :: 0 <= i < |lines| ==> |lines[i]| < NPOS
    ensures e == QuitCommand <==> FirstStop(lines) < |lines| && lines[FirstStop(lines)] == "/quit"
    ensures e == SubstrThrew <==> FirstStop(lines) < |lines| && lines[FirstStop(lines)] in {"/private", "/join", "/room"}
  {
    var k := FirstStop(lines);
    if k == |lines| then PeerClosed
    else
      ClassifyKinds(lines[k]);
      if Classify(lines[k]).OutOfRange? then SubstrThrew
      else QuitCommand
  }

  /** The room entries only grow, and only by copies of `socket` appended at the end. */
  ghost predicate RoomsGrownBy(r0: map<string, seq<int>>, r1: map<string, seq<int>>, socket: int)
  {
    && r0.Keys <= r1.Keys
    && (forall room :: room in r0 ==> |r0[room]| <= |r1[room]| && r1[room][..|r0[room]|] == r0[room])
    && (forall room, i :: room in r1 && |Members(r0, room)| <= i < |r1[room]| ==> r1[room][i] == socket)
  }

  // ---------------------------------------------------------------------------
  // Properties of the operations
  // ---------------------------------------------------------------------------

  /** A plain broadcast reaches each registered socket other than the sender exactly once, and the sender never. */
  lemma BroadcastReachesOthersOnce(s0: ServerState, s1: ServerState, sender: int, text: string)
    requires IsBroadcast(s0, s1, sender, text)
    ensures |s1.outbox| - |s0.outbox| == |s0.clientIds.Keys - {sender}|
    ensures forall c :: multiset(Recipients(s1.outbox[|s0.outbox|..]))[c] == if c in s0.clientIds && c != sender then 1 else 0
    ensures forall i :: |s0.outbox| <= i < |s1.outbox| ==> s1.outbox[i].text == text
  {
    var sends := s1.outbox[|s0.outbox|..];
    DistinctCounts(Recipients(sends), s0.clientIds.Keys - {sender});
    forall i | |s0.outbox| <= i < |s1.outbox|
      ensures s1.outbox[i].text == text
    {
      assert s1.outbox[i] == sends[i - |s0.outbox|];
    }
  }

  /** A room broadcast gives a member listed k times k copies, and the sender none. */
  lemma {:induction false} RoomSendsCount(members: seq<int>, sender: int, text: string)
    ensures multiset(Recipients(RoomSends(members, sender, text))) == multiset(members)[sender := 0]
    ensures AllCarry(RoomSends(members, sender, text), text)
  {
    if members != [] {
      var init, last := members[..|members| - 1], members[|members| - 1];
      assert members == init + [last];
      RoomSendsCount(init, sender, text);
      var tail := if last != sender then [Send(last, text)] else [];
      RecipientsAppend(RoomSends(init, sender, text), tail);
    }
  }

  /** A room broadcast whose sender is not a member goes to the members exactly in list order. */
  lemma {:induction false} RoomSendsInOrder(members: seq<int>, sender: int, text: string)
    requires sender !in members
    ensures Recipients(RoomSends(members, sender, text)) == members
  {
    if members != [] {
      var init, last := members[..|members| - 1], members[|members| - 1];
      assert members == init + [last];
      RoomSendsInOrder(init, sender, text);
      RecipientsAppend(RoomSends(init, sender, text), [Send(last, text)]);
    }
  }

  /** A broadcast to a room nobody joined sends nothing, but leaves an empty entry for that room. */
  lemma RoomBroadcastUnknownRoom(s: ServerState, room: string, text: string, sender: int)
    requires room !in s.chatRooms
    ensures RoomBroadcast(s, room, text, sender).outbox == s.outbox
    ensures RoomBroadcast(s, room, text, sender).chatRooms == s.chatRooms[room := []]
    ensures RoomBroadcast(s, room, text, sender).clientIds == s.clientIds
  {
  }

  /** A socket that joins a room twice receives each later room broadcast by another member twice more than before. */
  lemma JoinTwiceDeliversTwice(s: ServerState, room: string, x: int, sender: int, text: string)
    requires x != sender
    ensures var s1 := JoinRoom(JoinRoom(s, room, x), room, x);
            var s2 := RoomBroadcast(s1, room, text, sender);
            multiset(Recipients(s2.outbox[|s1.outbox|..]))[x] == multiset(Members(s.chatRooms, room))[x] + 2
  {
    var s1 := JoinRoom(JoinRoom(s, room, x), room, x);
    var members := Members(s1.chatRooms, room);
    assert members == Members(s.chatRooms, room) + [x] + [x];
    RoomSendsCount(members, sender, text);
    var s2 := RoomBroadcast(s1, room, text, sender);
    assert s2.outbox[|s1.outbox|..] == RoomSends(members, sender, text);
  }

  /** A private message to a username only one socket carries reaches exactly that socket. */
  lemma PrivateToUniqueName(s0: ServerState, s1: ServerState, sender: int, recipient: string, body: string, target: int)
    requires IsPrivate(s0, s1, sender, recipient, body)
    requires target in s0.clientIds && s0.clientIds[target] == recipient
    requires forall c :: c in s0.clientIds && s0.clientIds[c] == recipient ==> c == target
    ensures s1.outbox == s0.outbox + [Send(target, "Private from " + NameOf(s0.clientIds, sender) + ": " + body)]
  {
  }

  /** A private message to a username nobody carries only tells the sender. */
  lemma PrivateToUnknownName(s0: ServerState, s1: ServerState, sender: int, recipient: string, body: string)
    requires IsPrivate(s0, s1, sender, recipient, body)
    requires forall c :: c in s0.clientIds ==> s0.clientIds[c] != recipient
    ensures s1.outbox == s0.outbox + [Send(sender, "User not found: " + recipient)]
    ensures s1.clientIds == s0.clientIds
  {
  }

  /** Unregistering is idempotent, and unregistering an absent socket changes nothing. */
  lemma UnregisterIdempotent(s: ServerState, socket: int)
    ensures Unregister(Unregister(s, socket), socket) == Unregister(s, socket)
    ensures socket !in s.clientIds ==> Unregister(s, socket) == s
  {
  }

  /** Within a session, no step touches the client table except to re-store the sender's own name. */
  lemma StepKeepsClients(s0: ServerState, s1: ServerState, socket: int, username: string, cmd: Command)
    requires socket in s0.clientIds
    requires Step(s0, s1, socket, username, cmd)
    ensures s1.clientIds == s0.clientIds
  {
  }

  /** Within a session, every step only extends the outbox and only appends the session's own socket to rooms. */
  lemma StepGrowsRooms(s0: ServerState, s1: ServerState, socket: int, username: string, cmd: Command)
    requires Step(s0, s1, socket, username, cmd)
    ensures Extends(s0, s1)
    ensures RoomsGrownBy(s0.chatRooms, s1.chatRooms, socket)
  {
  }

  /** Growth of rooms by one socket composes. */
  lemma RoomsGrownByTrans(r0: map<string, seq<int>>, r1: map<string, seq<int>>, r2: map<string, seq<int>>, socket: int)
    requires RoomsGrownBy(r0, r1, socket) && RoomsGrownBy(r1, r2, socket)
    ensures RoomsGrownBy(r0, r2, socket)
  {
  }
}
