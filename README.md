# Chat server core, modelled in Dafny

This project models the core of a small TCP chat server (`server.cpp`). The server
keeps two tables. `client_ids` maps a client socket to a username. `chat_rooms` maps
a room name to the list of member sockets; a socket can be listed more than once.
Each connection runs a session loop. The loop classifies every received line as one
of five commands and routes it:

- a private message to one user;
- joining a room;
- a message to a room;
- quit;
- a plain line broadcast to everybody else.

Three modules follow that structure:

- `commands.dfy`, module `Commands`: the classifier as a pure function, `Classify`.
  It is written with models of `std::string::substr` and `std::string::find`. Their
  64-bit `size_t` arithmetic is explicit. In particular, `npos + 1` wraps to 0.
  The `out_of_range` exception that `substr` throws is the `OutOfRange` result.
- `routing.dfy`, module `Routing`: the server state as a value (`ServerState`), where
  every `send_message` call is an entry appended to an outbox. It states what each
  locked operation does to that state, and the lemmas that follow. Plain broadcast
  and private messages depend on the iteration order of an `unordered_map`, so they
  are relations (`IsBroadcast`, `IsPrivate`). The other operations are functions.
- `server.dfy`, module `Server`: class `ChatServer`. Its fields are the two tables
  and the outbox. The critical sections are methods, each proved against the
  `Routing` specification; the ones that iterate have loops with invariants.
  `HandleClient` is the session loop.

The model follows what the code does, including these edge cases:

- A `/private` or `/room` line with no space after the name gets the whole line as
  its body, not an empty one. That is because `find` returns `npos`, and
  `substr(npos + 1)` is `substr(0)`.
- The lines `/private`, `/join` and `/room`, and only these, make `substr` throw
  `out_of_range`.
- Leaving removes the socket from `client_ids` only. Room lists keep the stale
  entry, and a session that ends by a throw is not removed at all.
- Lookup by username takes the first matching socket in hash-table order, which
  is unspecified, so the model takes some matching socket.

## Model

| member | source | states |
|---|---|---|
| `Commands.Substr` | server.cpp:91-92 | `substr(pos, count)` throws exactly when `pos` is past the end; otherwise it yields the `min(count, size - pos)` characters starting at `pos` |
| `Commands.Find` | server.cpp:90 | `find(c, pos)` is NPOS exactly when no `c` occurs at or after `pos`; otherwise it is the first index at or after `pos` holding `c` |
| `Commands.PrefixTests` | server.cpp:89-106 | the `substr(0, 8) == "/private"` and `substr(0, 5) == "/join"`/`"/room"` tests are prefix tests; no line passes two of them, and `/quit` passes none |
| `Commands.ClassifyKinds` | server.cpp:86-110 | precedence: a line is a private message iff it starts with `/private` and has at least 9 characters; a join or room message iff it starts with `/join` or `/room` and has at least 6; Quit iff it is exactly `/quit`; Plain(line) iff no test matches; `substr` throws iff the line is exactly `/private`, `/join` or `/room` |
| `Commands.SplitPastEnd` | server.cpp:91 | the name cut throws when its start index lies past the end of the line |
| `Commands.SplitWithSpace` | server.cpp:90-92 | with a first space at index k at or after `start`, the name is `line[start..k]` and the body is everything after the space |
| `Commands.SplitNoSpace` | server.cpp:90-92 | with no space at or after `start`, the name is the rest of the line and the body is the whole line |
| `Commands.SplitInside` | server.cpp:90-92 | the name cut never throws when its start index is within the line |
| `Commands.ClassifyPrivateWithSpace` | server.cpp:89-93 | `/private`: the recipient runs from index 9 to the first space at or after 9, and the body follows that space |
| `Commands.ClassifyPrivateNoSpace` | server.cpp:89-93 | `/private` without such a space: the recipient is `line[9..]` and the body is the whole line |
| `Commands.ClassifyJoin` | server.cpp:96-98 | `/join`: the room is `line[6..]`, whatever character index 5 holds (so `/joinx` matches too) |
| `Commands.ClassifyRoomWithSpace` | server.cpp:100-104 | `/room`: the room runs from index 6 to the first space at or after 6, and the body follows that space |
| `Commands.ClassifyRoomNoSpace` | server.cpp:100-104 | `/room` without such a space: the room is `line[6..]` and the body is the whole line |
| `Commands.ClassifyRender` | server.cpp:86-110 | round trip: classifying the line a client types for a well-formed command gives that command back |
| `Routing.BroadcastReachesOthersOnce` | server.cpp:21-28 | a plain broadcast makes one send per registered socket other than the sender; each such socket receives the text exactly once and the sender receives nothing |
| `Routing.RoomSendsCount` | server.cpp:52-59 | a room broadcast gives a socket listed k times in the room k copies, gives the sender none, and every copy carries the text |
| `Routing.RoomSendsInOrder` | server.cpp:54-57 | when the sender is not a member, the sends go to the members exactly in list order |
| `Routing.RoomBroadcastUnknownRoom` | server.cpp:52-59 | a broadcast to an unknown room sends nothing, leaves `client_ids` alone and creates an empty entry for the room |
| `Routing.JoinTwiceDeliversTwice` | server.cpp:46-59 | a socket that joins a room twice receives a later broadcast from another member to that room two more times than it did before |
| `Routing.PrivateToUniqueName` | server.cpp:30-38 | a private message to a username carried by exactly one socket makes exactly one send: "Private from <sender>: <body>" to that socket |
| `Routing.PrivateToUnknownName` | server.cpp:41-43 | a private message to a username nobody carries makes exactly one send: "User not found: <name>" to the sender, and changes no table |
| `Routing.UnregisterIdempotent` | server.cpp:113-117 | erasing a socket twice is the same as erasing it once, and erasing an absent socket changes nothing |
| `Routing.StepKeepsClients` | server.cpp:88-110 | once the session's socket is registered, no dispatched command changes `client_ids` |
| `Routing.StepGrowsRooms` | server.cpp:88-110 | a dispatched command only appends to the outbox and only appends the session's own socket to room lists |
| `Routing.FirstStop` | server.cpp:78-111 | the session dispatches exactly the lines before the first one that is `/quit` or makes `substr` throw |
| `Routing.SessionEnding` | server.cpp:80-106 | the session ends by `/quit` iff its first stopping line is exactly `/quit`, and by a throw iff that line is exactly `/private`, `/join` or `/room`; otherwise the peer closed |
| `Server.AnyOf` | server.cpp:23 | iteration over `client_ids` visits some key not visited yet |
| `Server.ChatServer.constructor` | server.cpp:11-12 | the server starts with no clients, no rooms and nothing sent |
| `Server.ChatServer.SendMessage` | server.cpp:15-19 | a send appends one (socket, text) entry to the outbox and changes nothing else |
| `Server.ChatServer.BroadcastMessage` | server.cpp:21-28 | after the loop over `client_ids`, the new sends go to every registered socket but the sender, each exactly once and in some order; both tables are unchanged |
| `Server.ChatServer.SendPrivateMessage` | server.cpp:30-44 | after the search loop with its found flag: exactly one send, either the private line to a socket registered under the recipient's name or "User not found" to the sender; the sender's name is read through `operator[]` |
| `Server.ChatServer.JoinChatRoom` | server.cpp:46-50 | the joiner is appended to the room's list (the room is created if absent, duplicates kept); the only send is the confirmation to the joiner |
| `Server.ChatServer.BroadcastToRoom` | server.cpp:52-59 | after the loop over the room list, the sends are one per entry other than the sender, in list order; an absent room gains an empty entry |
| `Server.ChatServer.Register` | server.cpp:71-75 | the socket's entry is set or overwritten with the username, then "Welcome <name>!" is sent to it |
| `Server.ChatServer.Unregister` | server.cpp:113-117 | only the socket's entry in `client_ids` is erased; rooms are untouched |
| `Server.ChatServer.Dispatch` | server.cpp:88-110 | each command other than quit does what its operation specifies, with the session's own username in plain and room messages |
| `Server.ChatServer.HandleClient` | server.cpp:61-120 | a failed first receive changes nothing; otherwise the session registers, dispatches each line in order up to the first quit or throw, and nothing after that line has any effect; on a normal end only the socket's entry is erased; room lists only grow by the session's own socket; the welcome is the first send |

## Left out

- `main` (server.cpp:122-163) is not modelled. It only opens the socket, binds, listens, accepts and spawns a detached thread per connection.
- client.cpp is not modelled. It is the interactive client: standard input and output, `connect`, and a receiving thread.
- The real `send` and `recv` calls and the 1024-byte buffer are not modelled. A session receives its input as a sequence of lines, one per `recv`. A send is an outbox entry, and a failed send is only logged. The model does not cover a message split or merged by TCP, a NUL byte cutting a line short, or a full 1024-byte read that leaves the buffer unterminated. Above all, the username read at server.cpp:62-71 goes into a buffer that is not cleared first (the `memset` runs only inside the loop, at line 79), and the client sends the name without a terminating NUL, so `std::string(buffer)` can read past the received bytes on any connection; the model's username, the first received line, is an idealisation of that read.
- Threads and `clients_mutex` are not modelled. Each locked function is one atomic step. Registration at line 72 writes `client_ids` without the lock; that data race cannot be expressed in a sequential model, and the model runs it as an atomic step too.
- Logging to standard output and standard error, and `close` on the socket, are not modelled.
- When `substr` throws, the real program calls `std::terminate` and the whole server stops. The model only ends that session, with `SubstrThrew`, and skips the unregister.
- Server.ChatServer.SendPrivateMessage: the socket that receives a private message is any socket registered under the recipient's name. The model does not fix which one, because it does not model the hash table's iteration order.
- Server.ChatServer.BroadcastMessage: the order of the broadcast sends is left open for the same reason. Who receives the text, and how often, is fully stated.
