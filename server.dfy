/**
 * The chat server's registry and router as an object: the two global maps are
 * fields updated in place, and the socket layer is reduced to `outbox`, the sequence
 * of every `send_message` call made so far. Each method is one critical section
 * under `clients_mutex`, run as a single sequential step.
 */
module Server {
  import opened Commands
  import opened Routing

  /** The next key an `unordered_map` iteration visits: any one not yet visited. */
  method AnyOf(pending: set<int>) returns (x: int)
    requires pending != {}
    ensures x in pending
  {
    if forall y :: y !in pending {
      assert false;
    }
    x :| x in pending;
  }

  class ChatServer {
    /** `client_ids`: client socket to username. */
    var clientIds: map<int, string>
    /** `chat_rooms`: room name to member sockets, in join order, duplicates allowed. */
    var chatRooms: map<string, seq<int>>
    /** Every `send_message(socket, text)` made so far, in order. */
    var outbox: seq<Send>

    function Snapshot(): ServerState
      reads this
    {
      ServerState(clientIds, chatRooms, outbox)
    }

    /** The server starts with no clients, no rooms and nothing sent. */
    constructor ()
      ensures Snapshot() == ServerState(map[], map[], [])
    {
      clientIds := map[];
      chatRooms := map[];
      outbox := [];
    }

    /** `send_message`: hand one line to the socket layer; a failed send is only logged, so it is not modelled. */
    method SendMessage(socket: int, message: string)
      modifies this`outbox
      ensures outbox == old(outbox) + [Send(socket, message)]
    {
      outbox := outbox + [Send(socket, message)];
    }

    /** `broadcast_message`: visit the client table in an unspecified order and send to everyone but the sender. */
    method BroadcastMessage(message: string, senderSocket: int)
      modifies this`outbox
      ensures IsBroadcast(old(Snapshot()), Snapshot(), senderSocket, message)
    {
      var pending := clientIds.Keys;
      ghost var visited: set<int> := {};
      ghost var sent: seq<Send> := [];
      while pending != {}
        invariant pending !! visited && pending + visited == clientIds.Keys
        invariant outbox == old(outbox) + sent
        invariant DeliversOnce(sent, visited - {senderSocket}, message)
        decreases pending
      {
        var client := AnyOf(pending);
        if client != senderSocket {
          SendMessage(client, message);
          DeliversOnceAdd(sent, visited - {senderSocket}, message, client);
          sent := sent + [Send(client, message)];
          assert (visited + {client}) - {senderSocket} == (visited - {senderSocket}) + {client};
        } else {
          assert (visited + {client}) - {senderSocket} == visited - {senderSocket};
        }
        pending := pending - {client};
        visited := visited + {client};
      }
      assert outbox[|old(outbox)|..] == sent;
    }

    /** `send_private_message`: scan the client table for the first socket registered under the recipient's name. */
    method SendPrivateMessage(message: string, senderSocket: int, recipientUsername: string)
      modifies this`clientIds, this`outbox
      ensures IsPrivate(old(Snapshot()), Snapshot(), senderSocket, recipientUsername, message)
    {
      var pending := clientIds.Keys;
      var userFound := false;
      while pending != {}
        invariant !userFound
        invariant clientIds == old(clientIds) && outbox == old(outbox)
        invariant pending <= clientIds.Keys
        invariant forall c :: c in clientIds && c !in pending ==> clientIds[c] != recipientUsername
        decreases pending
      {
        var client := AnyOf(pending);
        if clientIds[client] == recipientUsername {
          if senderSocket !in clientIds {
            clientIds := clientIds[senderSocket := ""];
          }
          SendMessage(client, "Private from " + clientIds[senderSocket] + ": " + message);
          userFound := true;
          break;
        }
        pending := pending - {client};
      }

      if !userFound {
        SendMessage(senderSocket, "User not found: " + recipientUsername);
      }
    }

    /** `join_chat_room`: append the socket to the room's list, then confirm to the joiner. */
    method JoinChatRoom(roomName: string, clientSocket: int)
      modifies this`chatRooms, this`outbox
      ensures Snapshot() == JoinRoom(old(Snapshot()), roomName, clientSocket)
    {
      chatRooms := chatRooms[roomName := Members(chatRooms, roomName) + [clientSocket]];
      SendMessage(clientSocket, "You have joined the room: " + roomName);
    }

    /** `broadcast_to_room`: walk the room's list in order and send to every entry that is not the sender. */
    method BroadcastToRoom(roomName: string, message: string, senderSocket: int)
      modifies this`chatRooms, this`outbox
      ensures Snapshot() == RoomBroadcast(old(Snapshot()), roomName, message, senderSocket)
    {
      chatRooms := chatRooms[roomName := Members(chatRooms, roomName)];
      var members := chatRooms[roomName];
      var i := 0;
      while i < |members|
        invariant 0 <= i <= |members|
        invariant chatRooms == old(chatRooms)[roomName := members]
        invariant outbox == old(outbox) + RoomSends(members[..i], senderSocket, message)
      {
        assert members[..i + 1][..i] == members[..i];
        if members[i] != senderSocket {
          SendMessage(members[i], message);
        }
        i := i + 1;
      }
      assert members[..|members|] == members;
    }

    /** Registration of a new session: store its username, then welcome it. */
    method Register(clientSocket: int, username: string)
      modifies this`clientIds, this`outbox
      ensures Snapshot() == Routing.Register(old(Snapshot()), clientSocket, username)
    {
      clientIds := clientIds[clientSocket := username];
      SendMessage(clientSocket, "Welcome " + username + "!");
    }

    /** Removal of a finished session from the client table; its room entries stay. */
    method Unregister(clientSocket: int)
      modifies this`clientIds
      ensures Snapshot() == Routing.Unregister(old(Snapshot()), clientSocket)
    {
      clientIds := clientIds - {clientSocket};
    }

    /** The routing half of the session loop's classification chain, for every command but `/quit`. */
    method Dispatch(cmd: Command, clientSocket: int, username: string)
      requires !cmd.Quit?
      modifies this
      ensures Step(old(Snapshot()), Snapshot(), clientSocket, username, cmd)
    {
      match cmd
      case Private(recipient, body) =>
        SendPrivateMessage(body, clientSocket, recipient);
      case Join(room) =>
        JoinChatRoom(room, clientSocket);
      case Room(room, body) =>
        BroadcastToRoom(room, username + ": " + body, clientSocket);
      case Plain(line) =>
        BroadcastMessage(username + ": " + line, clientSocket);
    }

    /**
     * `handle_client` for one connection. `received` is what the socket delivers, one
     * line per `recv`, ending where the peer closes; its first line is the username,
     * and an empty `received` is a failed first `recv`, after which nothing happens.
     * Lines are dispatched in order until `/quit`, the end of input or a line whose
     * `substr` throws. `trace` holds the state after registration and after each
     * dispatched line. On a normal exit the socket is unregistered; a throw skips that.
     */
    method HandleClient(clientSocket: int, received: seq<string>) returns (ending: Ending, ghost trace: seq<ServerState>)
      requires forall i :: 0 <= i < |received| ==> |received[i]| < NPOS
      modifies this
      ensures received == [] ==> ending == PeerClosed && Snapshot() == old(Snapshot())
      ensures received != [] ==>
        var username, lines := received[0], received[1..];
        && ending == SessionEnding(lines)
        && Replays(trace, Routing.Register(old(Snapshot()), clientSocket, username), clientSocket, username,
                   lines, FirstStop(lines))
        && Snapshot() == (if ending == SubstrThrew then trace[FirstStop(lines)]
                          else Routing.Unregister(trace[FirstStop(lines)], clientSocket))
      ensures received != [] ==>
        && clientIds == (if ending == SubstrThrew then old(clientIds)[clientSocket := received[0]]
                         else old(clientIds) - {clientSocket})
        && RoomsGrownBy(old(chatRooms), chatRooms, clientSocket)
        && |old(outbox)| < |outbox|
        && outbox[..|old(outbox)| + 1] == old(outbox) + [Send(clientSocket, "Welcome " + received[0] + "!")]
    {
      if received == [] {
        ending, trace := PeerClosed, [];
        return;
      }
      var username := received[0];
      var lines := received[1..];
      assert forall i :: 0 <= i < |lines| ==> lines[i] == received[i + 1];
      Register(clientSocket, username);
      ghost var start := Snapshot();
      ghost var welcomed := outbox;
      trace := [start];
      var k := FirstStop(lines);
      ending := PeerClosed;
      var i := 0;
      while i < |lines|
        invariant 0 <= i <= k
        invariant Replays(trace, start, clientSocket, username, lines, i)
        invariant trace[i] == Snapshot()
        invariant clientIds == old(clientIds)[clientSocket := username]
        invariant RoomsGrownBy(old(chatRooms), chatRooms, clientSocket)
        invariant |welcomed| <= |outbox| && outbox[..|welcomed|] == welcomed
      {
        var parsed := Classify(lines[i]);
        if parsed.OutOfRange? {
          ending := SubstrThrew;
          return;
        }
        if parsed.value == Quit {
          ending := QuitCommand;
          break;
        }
        assert i < k;
        ghost var before := Snapshot();
        Dispatch(parsed.value, clientSocket, username);
        StepKeepsClients(before, Snapshot(), clientSocket, username, parsed.value);
        StepGrowsRooms(before, Snapshot(), clientSocket, username, parsed.value);
        RoomsGrownByTrans(old(chatRooms), before.chatRooms, chatRooms, clientSocket);
        assert outbox[..|welcomed|] == outbox[..|before.outbox|][..|welcomed|];
        ReplaysExtend(trace, start, clientSocket, username, lines, i, Snapshot());
        trace := trace + [Snapshot()];
        i := i + 1;
      }
      Unregister(clientSocket);
    }
  }
}
