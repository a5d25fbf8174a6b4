# Verification of the Gobang server and client

This project models the logic of a networked Gobang (five in a row) game, a Go server and a
C++ client, and proves what a run of it does. `dafny verify dfyconfig.toml` checks everything.

What is modelled, one module a file:

| file | what it holds |
|---|---|
| `Bytes`, `Codec`, `Marshal` | little-endian numbers; the schema-driven wire format as functions; `Marshal` and `Unmarshal` as loops over a byte buffer |
| `Messages`, `UserInfos`, `Layouts`, `ClientSerializer` | the schemas of the messages exchanged; messages and frames byte by byte; the client's serializer; their agreement |
| `Framing` | frames over a byte stream cut into arbitrary pieces, on both sides |
| `Chess`, `Rules`, `Engine` | the board, the log of moves and five in a row as values; the same rules spelled out in rows, columns and bytes; the engine object with its arrays |
| `Tables`, `GameRoom` | seats, requests and the game in progress as values; the room object |
| `Lobby`, `RoomEffects`, `LobbyRoom`, `LobbyRuns`, `PileUp` | a room with its user list and everything it sends, as values, field by field and byte by byte, and as an object; whole runs of it; what players who come and go leave in a room |
| `Server`, `Departures`, `ClosedRooms` | the whole server as a transition system; what connections leave behind in every later state; how they close a room for good |
| `Dispatch` | what messages do on the server by their numbers and bytes; a whole game played by messages |
| `Pipeline`, `Middleware` | one message on its way through the installed middlewares; the chain for any list of middlewares |
| `ClientViews`, `ClientEffects`, `ClientRoom`, `Mirror`, `Restarts`, `SeatNames` | the client's copy of a room as values, packet by packet, and as an object; that copy compared with the server over whole runs; runs in which it is behind, or right again; the names and the role it shows |
| `Wire` | messages end to end: marshalled, framed, cut out of the stream and read |
| `DoubleBuffer` | the read-first buffer, step by step, under every interleaving |
| `Prism`, `ReverseReader` | the two prism constructions; the backwards line reader |

Code that updates objects in place is a class (`Engine.Game`, `GameRoom.Room`, `LobbyRoom.Room`,
`ClientRoom.Room`, `ClientSerializer.Serializer`, `Marshal.Buffer`, `Framing.Stream`,
`Pipeline.Context`, `Middleware.Context`, `ReverseReader.FileReverseReader`) whose methods are
proved against functions on values; the theorems about runs are about those functions. What those
functions mean is said again without them, in rows, fields, numbers and bytes (`Rules`, `Layouts`,
`RoomEffects`, `Dispatch`, `ClientEffects`). No proof leans on automatic
induction: every lemma switches it off.

## How the model stands to the code

* Strings are byte strings. A coordinate byte's nibbles are written as `% 16` and `/ 16`, the
  two-byte lengths wrap where the C++ code lets them wrap, and errors are results: `None` where a
  C++ reader throws or Go returns an error, `BadLength` where a frame length is below four (the
  server panics there, the client throws). A question about a user that is shorter than its
  length byte says makes the server panic too; here it fails.
* A user is an object with an identity and the statistics it was made with; `authenticate` answers
  a join with a new one or an error (the database and the password hashing are not part of this
  model). All copies of a chat line carry one time stamp.
* `pipelineMutex` serialises messages (backend/idtcp/server.go:119-128), so a run is a list of
  events. `conn.Write` refuses what does not fit in a frame, which only a snapshot or a chat line
  can fail to do (`Lobby.EverySendFits`); apart from that sends succeed and arrive in order.
* Where the code departs from what it seems to intend, the model follows the code:
  * the turn guard is inverted, so the white seat moves first and black stones are the white
    seat's (`LobbyRuns.StonesAlternate`);
  * `Chess.Regret` rewinds the log but leaves the stones (`Chess.RegretKeepsReplayIffRefused`);
  * the reply to a regret request takes the moves back whatever it says (`GameRoom.Room.ReplyRegret`);
  * `Regret` and `Tie` record the request and still report an error;
  * a player's leave keeps the player listed, and only a second leave takes it off the list. A
    leave message and the end of the connection after it are two; a connection that just ends is
    only one, and nothing ever takes its player off the list again
    (`Departures.EndedStaysListedIff`). Such users pile up: with as many of them as onlooker
    places no onlooker is admitted, and with more than 255, or with names too long for a frame,
    no join succeeds any more (`ClosedRooms.AbandonedCloseTheRoom`, `ClosedRooms.RoundsCloseTheRoom`).
    Short of that, whether a join succeeds depends on the joiner's own name too
    (`PileUp.LongNamesOverflowTheFrame`);
  * a join that fails for the size of its snapshot fails after the user was listed and seated, and
    that is never undone; if it was a player's, no game goes on in that room any more
    (`Departures.FailedJoinStaysListed`, `Departures.FailedJoinStopsGames`);
  * the client rebuilds a snapshot's board in one colour, and does not clear records or board at a
    start. Its records match the server's exactly when every start found an empty board, and
    otherwise its own stones carry the wrong number and are ignored unless the surplus is a
    multiple of 256 (`Mirror.ClientTracksServer`, `Mirror.ClientStonePlacedIff`,
    `Restarts.RestartLeavesTheClientBehind`). Its board is right exactly when it joined at an empty
    log, or, after starts over stones, when those are even in number and all lie there again
    (`ClientViews.RestartedIsRightIff`, `Restarts.SameGameAgainRightsTheBoard`);
  * the client is told neither who leaves nor who takes a seat, swaps the two names it shows at a
    start, and takes its role from its name; so a namesake's seat, or the seat of a player who is
    gone, can pass for its own (`ClientViews.RoleIsSeatIff`, `SeatNames.ClientNamesSeats`,
    `SeatNames.ReplacedPlayerTurnsTheRole`);
  * the client's game-over handler reads two bytes of a one-byte message and throws, which ends
    its connection: of what a listed client is sent, nothing else makes a handler throw
    (`Mirror.GameOverDisconnects`, `Mirror.ClientTracksServer`);
  * the client packs one byte more than fits and then sends nothing (`Framing.PackedArrivesIffItFits`),
    writes a boolean as two bytes (`Messages.ClientBoolLeavesAByte`), and reads a game time of
    eight bytes as four (`UserInfos.UserInfoArrivesIff`).

## Model

| member | source | states |
|---|---|---|
| Chess.NewFivesCoverNewStone | backend/game/chess.go:41-47 | filling an empty cell keeps every five on the whole board, and makes a new one exactly when some five covers that cell |
| Chess.RunsDecideFive | backend/game/chess.go:59-80 | counting both runs, each cut off at four, reaches five exactly when some five-cell window of one colour along that axis covers the cell |
| Chess.WinMeansFivesGrew | backend/game/chess.go:31-82 | right after any accepted stone, in any state a run with or without Regret reaches, a win is reported exactly when the set of fives of the whole board grew |
| Chess.FirstWinIsFirstFive | backend/game/chess.go:17-82 | in every run without Regret, if no earlier state was won, a win is reported exactly when there is a five anywhere on the board |
| Chess.RunsKeepTheLog | backend/game/chess.go:17-101 | every run of Init, Stone and Regret keeps its log of distinct valid cells, each holding the colour of its move number, of at most 225 moves |
| Chess.LogFits | backend/game/chess.go:11-15 | by pigeonhole, a log of distinct valid cells has at most 225 entries |
| Chess.EmptyCellMeansRoomInLog | backend/game/chess.go:41-47 | while a cell is empty the cursor is inside the record array, so the write is in bounds |
| Chess.BoardIsReplayOfLog | backend/game/chess.go:17-50 | in every run without Regret the board is exactly the replay of the log |
| Chess.ReplayColoursTheLog | backend/game/chess.go:45-47 | the replay gives each logged cell the parity of its index |
| Chess.ReplayIsEmptyOffTheLog | backend/game/chess.go:45-47 | the replay leaves every other cell empty |
| Chess.RegretKeepsReplayIffRefused | backend/game/chess.go:84-97 | the board stays the replay of the log over a Regret exactly when there are too few moves to take back |
| Chess.RegretLeavesAStone | backend/game/chess.go:84-97 | one stone placed and regretted leaves an empty log and a black stone on the board |
| Chess.FivesOfTranspose | backend/game/chess.go:103-112 | swapping rows and columns maps fives to fives, so one board has a five exactly when the other has |
| Chess.PlaceStone | backend/game/chess.go:31-50 | an accepted stone appends its coordinate to the log, any other leaves the log alone, and the log invariant is kept |
| Rules.WindowIsLine | backend/game/chess.go:111-112 | the five-cell windows are five cells in a row, in a column, or on one of the two diagonals, each cell next to the one before |
| Rules.FivesAreLines | backend/game/chess.go:52-82 | there is a five anywhere exactly when five adjacent cells in a row, a column or a diagonal have one colour |
| Rules.WinsIsLine | backend/game/chess.go:52-82 | a win is reported exactly when such a line covers the cell whose row and column are the nibbles of the last logged byte |
| Rules.FirstWinIsFirstLine | backend/game/chess.go:17-82 | in every run without Regret, if no earlier stone won, a win is reported exactly when there is a line of five anywhere |
| Rules.ByteOfCell | backend/game/chess.go:103-105 | the byte of a cell is its column times sixteen plus its row |
| Rules.AcceptedIff | backend/game/chess.go:31-43 | a stone is accepted exactly under the next number on an empty cell of the 15 by 15 board |
| Rules.StoneLands | backend/game/chess.go:31-50 | an accepted stone changes one cell to the parity of its number and one record entry, any other nothing |
| Rules.RegretGoesBack | backend/game/chess.go:84-97 | a regret goes back to the latest earlier moment at which it was the other's turn, and is refused exactly when there was none; board and record stay |
| Engine.Game.constructor | backend/game/room.go:24-35 | a new game has an empty board and an empty log |
| Engine.Game.Init | backend/game/chess.go:17-24 | clears every cell and the cursor and keeps the record array |
| Engine.Game.WhoseTurn | backend/game/chess.go:27-29 | the colour to move is the parity of the cursor |
| Engine.Game.Stone | backend/game/chess.go:31-50 | the in-place update is `PlaceStone`, and success is exactly the right move number and an empty cell on the board |
| Engine.Game.DidYouWin | backend/game/chess.go:52-82 | the scan's answer is whether some five on the board covers the last logged cell, and equally whether a line of five adjacent cells does |
| Engine.Game.Regret | backend/game/chess.go:84-97 | the in-place update is `TakeBack`, refused exactly when fewer moves were made than it takes back |
| Engine.Game.GetRecords | backend/game/chess.go:99-101 | the moves made so far, in order |
| Tables.Join | backend/game/room.go:45-54 | a join takes a free seat whoever asks, never during a game; the seats stay sound exactly when the joiner had none |
| Tables.Leave | backend/game/room.go:56-78 | after a leave the user holds no seat and no request names an empty seat |
| Tables.Ready | backend/game/room.go:80-98 | a ready that completes the pair finds both seats filled |
| Tables.SeatedCount | backend/game/room.go:142-151 | two filled seats are two different users |
| GameRoom.Room.Start | backend/game/room.go:37-43 | needs both seats, empties the board and sets the game going |
| GameRoom.Room.Join | backend/game/room.go:45-54 | black's seat first, then white's, else refused with nothing changed; whoever asks, and the room stays valid exactly when the joiner had no seat yet or was refused |
| GameRoom.Room.Leave | backend/game/room.go:56-78 | frees the seat, drops exactly that colour's requests, stops the game; a non-player changes nothing |
| GameRoom.Room.Ready | backend/game/room.go:80-98 | reports a start exactly when the other colour was waiting, and then both seats are filled |
| GameRoom.Room.Regret | backend/game/room.go:100-108 | records the first player's request and reports an error in every case |
| GameRoom.Room.ReplyRegret | backend/game/room.go:110-120 | succeeds exactly for the opponent of a pending request when the moves can be taken back, whatever the answer |
| GameRoom.Room.Tie | backend/game/room.go:122-130 | records the first player's request and reports an error in every case |
| GameRoom.Room.Opponent | backend/game/room.go:132-140 | the user in the other seat, never the asker; an error exactly for non-players |
| GameRoom.Room.PlayerCount | backend/game/room.go:142-151 | the number of different seated users |
| GameRoom.Room.PlayerColor | backend/game/room.go:153-161 | the colour whose seat the user holds |
| Lobby.ClampMaxUsers | backend/middlewares/mdwroom/room.go:22-35 | the capacity lies between 2 and 200 and a value in that range is kept |
| Lobby.SnapshotFitsIff | backend/middlewares/mdwroom/view.go:72-102 | a join snapshot can be marshalled exactly when the room name and the number of listed non-players fit in a byte, and sent exactly when its size, given byte for byte, also fits in a frame; the record always fits |
| Lobby.EverySendFits | backend/idtcp/idtcp.go:14-19 | everything any event sends to anybody fits in a frame |
| Lobby.JoinBesideGhostsSucceedsIff | backend/middlewares/mdwroom/view.go:31-57 | a player's join to a room whose seats are empty succeeds exactly when the room name and the number still listed fit in a byte each and the names listed fit in a frame |
| Lobby.FirstJoinSucceedsIff | backend/middlewares/mdwroom/view.go:31-57 | a join to a new room succeeds exactly when the name fits and the role is a player's, or an onlooker's with places for onlookers |
| Lobby.NameEncodes | backend/utils/type.go:3-5 | every username message can be marshalled, and to these bytes |
| RoomEffects.NewRoomIs | backend/middlewares/mdwroom/room.go:22-35 | a new room is empty, with nothing pending, no game, an empty board and a capacity between 2 and 200 |
| RoomEffects.ReadyEffect | backend/server/distribute.go:73-94 | a player's ready waits as its colour and is told to everyone, unless the other colour waits: then the game starts on an empty board and everyone is told the black player's name |
| RoomEffects.PlaysIff | backend/server/distribute.go:107-139 | a stone is placed exactly when a game goes on, its number is the next, the sender is the player whose turn it is, the white seat beginning, and the cell is empty |
| RoomEffects.SomebodyMayPlace | backend/server/distribute.go:107-139 | while a game goes on and a cell is empty, exactly one user may place a stone there |
| RoomEffects.StoneEffect | backend/server/distribute.go:107-155 | a placed stone fills its cell with the parity of its number, everyone is told the cell, and exactly when a line of five runs through it the winner's colour; any other does nothing |
| RoomEffects.RegretEffect | backend/server/distribute.go:157-180 | the first player to ask is noted by its colour, nothing is sent, and the handler fails |
| RoomEffects.TieEffect | backend/game/room.go:122-130 | the first player to ask is noted by its colour |
| RoomEffects.ReplyEffect | backend/game/room.go:110-120 | only the opponent of the one who asked can answer; the request is dropped and the moves are taken back |
| RoomEffects.SeatIsLeft | backend/game/room.go:56-78 | a leaving player's seat is freed, exactly its own requests are dropped and the game ends; everything of the other player stays |
| RoomEffects.LeaveEffect | backend/middlewares/mdwroom/view.go:117-140 | a player stays listed, anyone else is taken off the list once, the others in their order; the leaver is sent the name of everyone listed |
| RoomEffects.JoinSeats | backend/middlewares/mdwroom/room.go:47-62 | a player is admitted exactly while a seat is free and takes black before white, an onlooker exactly while there is a place; both come last in the list |
| RoomEffects.JoinSends | backend/middlewares/mdwroom/view.go:31-58 | everyone listed before is told of an admitted join, each under its own name, and the joiner is sent the snapshot exactly when it fits |
| RoomEffects.SnapshotShowsRoom | backend/middlewares/mdwroom/view.go:72-102 | the snapshot holds the name, the capacity, the names at the seats, the pending colours, whether a game goes on and the moves |
| RoomEffects.SnapshotNamesUnseated | backend/middlewares/mdwroom/view.go:72-102 | its onlookers are the names of the listed users without a seat, in order |
| RoomEffects.SayEffect | backend/server/distribute.go:219-240 | a chat line goes to everyone listed, stamped and under its sender's name, exactly when name and line have at most 65520 bytes |
| RoomEffects.NoLineEffect | backend/server/distribute.go:219-240 | a message shorter than its length says goes to nobody and is an error |
| RoomEffects.AskEffect | backend/server/distribute.go:55-67 | a question is answered to the asker alone with the statistics of the first listed user of the name asked for, if there is one |
| LobbyRuns.SeatsAreSafe | backend/game/room.go:37-130 | in every run with fresh users, playing means two different seated players, and every pending colour names a filled seat |
| LobbyRuns.SeatsHoldWhilePlaying | backend/game/room.go:45-78 | no step changes a seat and leaves the game going |
| LobbyRuns.RosterSplits | backend/middlewares/mdwroom/room.go:22-80 | in every run the user list is exactly seated players, admitted onlookers and departed players, each once; onlookers never exceed the capacity less two |
| LobbyRuns.StonesAlternate | backend/server/distribute.go:107-139 | in every run the stones accepted since the last start carry the numbers 0, 1, 2, ... and come from the two starters in strict alternation, white's seat first |
| LobbyRuns.RepeatedStoneIsIgnored | backend/server/distribute.go:107-139 | sending an accepted move number again, by anyone at any time before the next start, changes nothing and sends nothing |
| LobbyRuns.StepKeepsRoster | backend/middlewares/mdwroom/room.go:47-80 | every event keeps the split of the user list |
| LobbyRuns.StepKeepsGame | backend/server/distribute.go:73-139 | every event keeps the accepted stones in step with log and board |
| LobbyRuns.MoveNumberGrows | backend/game/chess.go:31-50 | between starts the move number never goes back |
| PileUp.RoundsPileUp | backend/middlewares/mdwroom/room.go:64-80 | after any list of new users each took a seat and left, all of them are listed as departed, in order, and nobody sits |
| PileUp.LongNamesOverflowTheFrame | backend/middlewares/mdwroom/view.go:31-57 | after n rounds of users with 255-byte names any new player is admitted, and its join succeeds exactly while n is at most 255 and room name, its own name and 256 bytes for each of the n make at most 65520 |
| PileUp.PileUpClosesTheRoom | backend/middlewares/mdwroom/room.go:56-80 | whatever happens in a room after players left, short of one of them leaving again: with as many of them as onlooker places no onlooker is admitted, and with more than 255, or with names too long for a frame, no join succeeds |
| PileUp.GoneStayListed | backend/middlewares/mdwroom/room.go:64-80 | departed players who do not leave a second time stay listed over every run |
| PileUp.LingerersCloseTheRoom | backend/middlewares/mdwroom/view.go:31-106 | the same of any different users listed without a seat, in any state of a room |
| PileUp.OnlookerAdmittedIff | backend/middlewares/mdwroom/room.go:56-62 | in every run an onlooker is admitted exactly while admitted onlookers and departed players together are fewer than the capacity less two |
| LobbyRoom.Room.constructor | backend/middlewares/mdwroom/room.go:22-35 | a new room is empty with clamped capacity |
| LobbyRoom.Room.JoinAsPlayer | backend/middlewares/mdwroom/room.go:47-54 | a seat and a place at the end of the list, or nothing |
| LobbyRoom.Room.JoinAsOnlooker | backend/middlewares/mdwroom/room.go:56-62 | a place at the end of the list exactly while the listed non-players are below the capacity less two |
| LobbyRoom.Room.Leave | backend/middlewares/mdwroom/room.go:64-80 | a player's seat is freed and the list kept; anybody else is taken off the list |
| LobbyRoom.Room.ReceiveJoinRoom | backend/middlewares/mdwroom/view.go:12-58 | new room, packets sent in order, and success exactly when admitted and the snapshot could be marshalled and written as one frame |
| LobbyRoom.Room.SendYouJoinRoom | backend/middlewares/mdwroom/view.go:60-106 | sends the marshalled snapshot of the room as it is, or fails when it does not marshal or does not fit in a frame |
| LobbyRoom.Room.ProcessUserLeave | backend/middlewares/mdwroom/view.go:117-140 | the leaver is sent every listed name, then leaves |
| LobbyRoom.Room.ReceiveReady | backend/server/distribute.go:73-94 | broadcasts the ready colour, or the start and then restarts the board |
| LobbyRoom.Room.ReceivePlayerStone | backend/server/distribute.go:107-155 | a stone is placed exactly for the player whose turn it is, under the next number, on an empty cell, and then broadcast, followed by the winner if it won; any other changes and sends nothing |
| LobbyRoom.Room.ReceivePlayerRegret | backend/server/distribute.go:157-180 | records the request, sends nothing and fails |
| LobbyRoom.Room.ReceiveMessage | backend/server/distribute.go:219-240 | a chat line goes to every listed user under its sender's name, or to nobody when it does not fit in a frame; success exactly when it could be read |
| LobbyRoom.Room.ReceiveUserInfo | backend/server/distribute.go:55-67 | the asker alone is sent the statistics of the first listed user of that name, if there is one |
| LobbyRoom.Room.FindUser | backend/middlewares/mdwroom/room.go:37-45 | the first listed user of that name |
| LobbyRoom.Room.Broadcast | backend/server/send.go:30-40 | every listed user is sent every packet, user by user |
| Server.EndpointsFindUserAndRoom | backend/idtcp/server.go:103-143 | in every run of the server, a message that reaches an endpoint finds a user and a room, and every room keeps its invariants |
| Server.StoppedMeansClosed | backend/idtcp/server.go:109-133 | a message that stops before the endpoints ends its connection's loop, and no other one does except a fatal error |
| Server.ActKeepsInv | backend/idtcp/server.go:103-143 | connecting, any message and disconnecting keep every room's invariants and every connection's payloads consistent |
| Server.OneRoomChanges | backend/middlewares/mdwroom/middleware.go:68-84 | whatever is sent, at most one room changes, and that one by one event |
| Dispatch.JoinIsRead | backend/middlewares/mdwuser/middleware.go:53-58 | the server acts on the room and the role that the client wrote |
| Dispatch.ReadJoinIsWritten | backend/middlewares/mdwroom/view.go:18-37 | what the server reads as a join request begins with the bytes of one with that room and role |
| Dispatch.MessageActs | backend/server/distribute.go:34-49 | each message number makes the room of the connection take its event and send what that sends, the other numbers nothing; everything else stays, and number 0 ends the connection |
| Dispatch.JoinRequestActs | backend/middlewares/mdwroom/view.go:12-58 | a join request written by the client makes the room it names take that user in the role it names; the connection goes on with user and room exactly if the join succeeds |
| Dispatch.JoinRequestSends | backend/middlewares/mdwroom/view.go:12-58 | and it sends what that join sends |
| Dispatch.StrangerIsTurnedAway | backend/middlewares/mdwuser/middleware.go:69-86 | without a user, or with a join that does not authenticate, nothing changes and the connection ends |
| Dispatch.DisconnectActs | backend/middlewares/mdwroom/middleware.go:62-66 | a connection that ends makes its room take its user's leave |
| Dispatch.AnyGameCanBePlayed | backend/server/distribute.go:73-139 | on a server just started, by messages alone: two clients join, both are ready, and any stones on different cells sent in turn are all taken, in that order |
| Dispatch.LineWinsTheGame | backend/server/distribute.go:141-155 | the last stone of such a game is told to everyone, with the winner's colour exactly when a line of five runs through it |
| Departures.NobodySharesAUser | backend/middlewares/mdwuser/middleware.go:69-86 | in every run of the server no two connections hold the same user |
| Departures.AdriftForGood | backend/middlewares/mdwroom/view.go:117-140 | a user that no connection holds together with this room stays, in every later state, listed or not and in its seat or none as it is |
| Departures.EndedStaysListedIff | backend/middlewares/mdwroom/middleware.go:62-66 | once a connection ends, its user is listed in its room in every later state exactly if it held a seat at that moment, and never seated |
| Departures.FailedJoinStaysListed | backend/middlewares/mdwroom/view.go:31-57 | a join admitted whose snapshot could not be marshalled or written ends the connection, and in every later state its user is listed and, exactly if it joined as a player, seated |
| Departures.DeadSeatStopsGames | backend/game/room.go:80-98 | while a seated user no connection can move has not asked for a start, no game starts in its room in any later state |
| Departures.FailedJoinStopsGames | backend/middlewares/mdwroom/view.go:31-57 | after a player's join that failed admitted, no game goes on in that room in any later state |
| Departures.TwoDeadSeats | backend/game/room.go:45-54 | once two users no connection can move hold the seats, no player is admitted in any later state |
| ClosedRooms.BrokenIsAbandoned | backend/middlewares/mdwroom/middleware.go:62-66 | a player whose connection ends is listed without a seat and no connection can move it |
| ClosedRooms.AbandonedCloseTheRoom | backend/middlewares/mdwroom/view.go:12-106 | whatever happens on the server from then on: with more than 255 abandoned users in a room, or with names too long for a frame, no join into it succeeds on any connection; with as many as onlooker places no onlooker is admitted |
| ClosedRooms.ServerRoundsPileUp | backend/idtcp/server.go:103-143 | after connections that each joined a new player and ended, while the snapshot still fits, all these players are listed as departed |
| ClosedRooms.RoundsCloseTheRoom | backend/idtcp/server.go:103-143 | after 256 such rounds no join into the room succeeds, whatever the server does afterwards |
| ClosedRooms.BootedRoomCanBeClosed | backend/main.go:41-56 | a room of a server just started, and 256 users with names up to 250 bytes, meet the conditions of that |
| Pipeline.Context.Next | backend/main.go:66-74 | with the three middlewares installed here, visits the following stages in order, each once, the endpoint after the last, stops where the message is turned away, and leaves rooms, connection and packets as the transition says |
| Pipeline.Context.ProcessUser | backend/middlewares/mdwuser/middleware.go:69-86 | a message without an authenticated user goes no further |
| Pipeline.Context.ProcessRoom | backend/middlewares/mdwroom/middleware.go:68-84 | a join that fails goes no further; any other message reaches its endpoint, a leave empties the place afterwards; rooms and packets sent are those of the one event |
| Pipeline.Context.Distribute | backend/server/distribute.go:34-49 | called only with a user and a room, it runs the endpoint the table names for the number and no other: the room, every packet it sends, and whether it reports success |
| Pipeline.Handle | backend/idtcp/server.go:119-132 | the stages visited are the fatal and the user middleware, the room middleware past the gate, and the endpoint exactly when the message arrives; otherwise the connection closes |
| Pipeline.HandleIsReceive | backend/idtcp/server.go:109-133 | one turn of the request loop does to rooms and payloads what the system's transition does |
| Middleware.Context.Next | backend/idtcp/middleware.go:33-39 | for any list of middlewares, calling `Next` as often as they like, a call does what `RunNext` says to state, counter and stages run |
| Middleware.RunNext | backend/idtcp/middleware.go:33-39 | the calls of `Next` in one request run the indices of the chain one after another, so each middleware at most once, and every call past the list the endpoint |
| Middleware.EndpointRunsIffAllPass | backend/idtcp/middleware.go:33-39 | where each middleware calls `Next` at most once, the endpoint runs exactly when all let the request through, then once, between their entering steps in order and their leaving steps in reverse |
| Middleware.SecondNextRunsEndpointAgain | backend/idtcp/middleware.go:33-39 | a middleware that calls `Next` twice makes the endpoint run twice |
| Codec.RoundTrip | backend/utils/serializer.go:32-325 | for every flat schema, value and trailing bytes, decoding the encoding gives the value and leaves the rest |
| Codec.Canonical | backend/utils/serializer.go:164-325 | bytes that are accepted are the one encoding of what was read, followed by the rest |
| Codec.Unambiguous | backend/utils/serializer.go:32-160 | two encodings that begin the same bytes are of the same values |
| Codec.PrefixFree | backend/utils/serializer.go:164-325 | every strict prefix of an encoding is rejected |
| Codec.EncodesIffFits | backend/utils/serializer.go:119-160 | encoding succeeds exactly when every field has the tags it needs and its lengths fit |
| Marshal.Marshal | backend/utils/serializer.go:32-117 | the loop over the fields writes the wire format and fails exactly when there is none |
| Marshal.WriteLen | backend/utils/serializer.go:139-160 | a length is written in one or two bytes as the tag says, or refused |
| Marshal.Unmarshal | backend/utils/serializer.go:164-266 | accepts exactly the decodable bytes and leaves what it read, lists appended to those that were there |
| Marshal.ReadData | backend/utils/serializer.go:309-325 | reads a length and exactly that many bytes, or fails |
| Marshal.RestoredIffListsWereEmpty | backend/utils/serializer.go:217-251 | unmarshalling gives the marshalled struct back exactly when the target's lists were empty |
| Marshal.Buffer.Read | backend/utils/serializer.go:315-322 | up to the wanted number of bytes, an error only when some are wanted and none are left |
| Messages.SnapshotEncodesIff | backend/utils/type.go:13-25 | the join snapshot can be marshalled exactly when every text and list in it has a one-byte length |
| Messages.SnapshotArrives | frontend/src/server/server_game_room.cpp:288-318 | a snapshot the server can marshal is read by the client field for field |
| Messages.ClientReadsWhatServerReads | frontend/src/server/server_game_room.cpp:288-318 | bytes the server's decoder takes for a snapshot mean the same to the client |
| Messages.ChatArrives | frontend/src/server/server_game_room.cpp:431-444 | a chat message the server can marshal is read by the client field for field |
| Messages.JoinRequestArrives | frontend/src/server/server_game_room.cpp:202-217 | the client can write a join request exactly when name and password fit, and the server reads all four fields back |
| Messages.ChatRequestArrives | frontend/src/server/server_game_room.cpp:153-163 | a chat line the client writes is read back by the server |
| UserInfos.UserInfoArrivesIff | frontend/src/server/server_game_room.cpp:320-333 | the client reads the user information the server writes with the game time modulo 2 to the 32, so rightly exactly when it is below that |
| Messages.ClientBoolLeavesAByte | frontend/3rdparty/mixi/src/net/serializer.cpp:129-136 | the server reads the value of a client's boolean and one stray byte stays in front of the rest |
| Layouts.SnapshotLayout | backend/utils/type.go:13-25 | the bytes of a join snapshot, field after field |
| Layouts.ChatLayout | backend/utils/type.go:7-11 | the bytes of a chat message: time in eight bytes, name, text with a two-byte length |
| Layouts.LineLayout | backend/utils/type.go:32-34 | which bytes the server reads as which chat line |
| Layouts.JoinRequestLayout | frontend/src/server/server_game_room.cpp:202-217 | the bytes of a join request: room, name, password with a two-byte length, role |
| Layouts.UserInfoLayout | backend/server/send.go:72-85 | the bytes of a user's information: name, four numbers in four bytes each, the time in eight |
| Layouts.FrameLayout | backend/idtcp/idtcp.go:14-30 | the bytes of a frame: its whole length, the instruction, the data |
| Layouts.FrameIsCut | backend/idtcp/idtcp.go:49-70 | which bytes are received as which message, which are waited for, and which length is bad |
| ClientSerializer.Serializer.ReadByte | frontend/3rdparty/mixi/src/net/serializer.cpp:32-38 | the next byte, or an exception with nothing consumed |
| ClientSerializer.Serializer.ReadU16 | frontend/3rdparty/mixi/src/net/serializer.cpp:52-59 | reads the number the server's decoder reads |
| ClientSerializer.Serializer.ReadU64 | frontend/3rdparty/mixi/src/net/serializer.cpp:73-87 | reads the number the server's decoder reads |
| ClientSerializer.Serializer.ReadHead | frontend/3rdparty/mixi/src/net/serializer.cpp:179-199 | a length of the width in force, refused when fewer bytes are left |
| ClientSerializer.Serializer.ReadBytes | frontend/3rdparty/mixi/src/net/serializer.cpp:101-114 | reads the byte string the server's decoder reads |
| ClientSerializer.Serializer.WriteBytes | frontend/3rdparty/mixi/src/net/serializer.cpp:156-218 | writes the bytes the server's encoder writes, refused exactly when the length does not fit |
| ClientSerializer.Serializer.WriteBool | frontend/3rdparty/mixi/src/net/serializer.cpp:129-136 | a boolean takes two bytes |
| ClientSerializer.WriteJoinRequest | frontend/src/server/server_game_room.cpp:202-217 | the bytes sent are those of `JoinRequestArrives` |
| ClientSerializer.ReceiveYouJoinRoom | frontend/src/server/server_game_room.cpp:288-318 | the reading loop finds the reply of `SnapshotArrives` |
| ClientSerializer.ReceiveMessage | frontend/src/server/server_game_room.cpp:431-444 | the handler finds the message of `ChatArrives` |
| Framing.FramesParse | backend/idtcp/idtcp.go:14-70 | any list of messages with payloads up to 65531 bytes, sent back to back and followed by anything, is received as exactly that list |
| Framing.BrokenFrameIsDropped | backend/idtcp/idtcp.go:32-70 | a stream that breaks off inside a frame delivers everything before it and nothing else |
| Framing.Write | backend/idtcp/idtcp.go:14-30 | a frame is sent exactly when the payload has at most 65531 bytes |
| Framing.ReadN | backend/idtcp/idtcp.go:32-47 | fills the buffer with the next bytes however they are cut, and fails exactly when too few are left |
| Framing.Read | backend/idtcp/idtcp.go:49-70 | the outcome depends on the bytes alone, not on how they are cut, and exactly one frame is consumed; `BadLength` stands for the panic on a length below four |
| Framing.ReadAll | backend/idtcp/server.go:109-117 | repeated reading yields all the messages in the bytes, for every cutting |
| Framing.Pack | frontend/3rdparty/mixi/src/net/idtcp.cpp:84-97 | what is left in the send buffer, with the length wrapping at 65536 |
| Framing.PackedArrivesIffItFits | frontend/3rdparty/mixi/src/net/idtcp.cpp:84-97 | what the client packs is received exactly when the data has at most 65531 bytes; one more and nothing is sent |
| Framing.ReceiveInstructionData | frontend/3rdparty/mixi/src/net/idtcp.cpp:58-108 | the client's reassembly finds the same outcome as the server's for every cutting |
| Wire.ChatCrossesIff | backend/server/send.go:91-103 | a chat message from the server is sent, and arrives field for field whatever follows, exactly when the name has a one-byte length and name and text have at most 65520 bytes |
| Wire.SnapshotCrosses | backend/middlewares/mdwroom/view.go:72-106 | what a successful join writes is found by the client at the front of the stream and read as the room it joined |
| Wire.JoinRequestCrossesIff | frontend/src/server/server_game_room.cpp:202-217 | a join request arrives with all four fields exactly when the name has a one-byte length and name and password have at most 65526 bytes |
| Wire.ChatLineCrossesIff | backend/server/distribute.go:219-240 | a line typed at one client reaches the server exactly up to 65529 bytes and is passed on exactly when it and the sender's name have at most 65520 |
| ClientViews.RebuiltBoardIsRightIffEmpty | frontend/src/game/room.cpp:67-76 | the board rebuilt from a snapshot is the server's board transposed exactly when there are no records |
| ClientViews.ColouredCells | frontend/src/game/room.cpp:54-76 | a cell without a record is empty and any other has the colour of its last record, for any records, repeated ones included |
| ClientViews.StoneKeepsColours | frontend/src/game/room.cpp:54-60 | adding a stone to a board coloured for a join at some length keeps it so coloured |
| ClientViews.ColouredIsRightIff | frontend/src/game/room.cpp:54-76 | a client whose records are the log has the server's board transposed exactly when it joined at an empty log |
| ClientViews.RestartedIsRightIff | frontend/src/game/room.cpp:54-76 | a client whose records are stones restarted over and then the log has the server's board transposed exactly when the former are even in number and all of them in the log, or there are none and it joined at an empty log |
| ClientViews.SameCellsIff | frontend/src/game/room.cpp:54-76 | and it occupies the server's cells exactly when every stone restarted over is in the log |
| ClientViews.RoleIsSeatIff | frontend/src/game/room.cpp:12-21 | the role a snapshot gives a user is the colour of its seat exactly when no seat looked at before its own, or none at all if it has no seat, has its name |
| ClientRoom.Room.UserJoin | frontend/src/game/room.cpp:23-34 | a seat for a colour byte, else one more onlooker |
| ClientRoom.Room.UserLeave | frontend/src/game/room.cpp:36-52 | clears the seat of that name, or else the first onlooker of that name |
| ClientRoom.Room.Stone | frontend/src/game/room.cpp:54-60 | one cell in the colour of the number of records, one more record |
| ClientRoom.Room.SetBoardByRecords | frontend/src/game/room.cpp:67-76 | every recorded cell in the parity of their number, all else empty |
| ClientRoom.Room.Receive | frontend/src/server/server_game_room.cpp:225-444 | the handler of each instruction, all fifteen, makes the view `Apply` describes, or throws |
| ClientEffects.JoinReplyIsShown | frontend/src/server/server_game_room.cpp:288-318 | the bytes of a snapshot replace everything shown, and a refusal changes nothing |
| ClientEffects.AnyByteSaysYes | frontend/3rdparty/mixi/src/net/serializer.cpp:40-45 | any first byte but 0 announces a snapshot |
| ClientEffects.SnapshotBoard | frontend/src/game/room.cpp:62-76 | the board of a snapshot: recorded cells in the parity of their number, all else empty |
| ClientEffects.OtherJoins | frontend/src/server/server_game_room.cpp:335-344 | another user appears at the seat of its colour byte, or else as one more onlooker |
| ClientEffects.OtherLeaves | frontend/src/server/server_game_room.cpp:346-354 | the black seat of that name is emptied, or else the white one; a name not shown changes nothing |
| ClientEffects.OnlookerLeaves | frontend/src/game/room.cpp:36-52 | or else the first onlooker of that name is dropped, the others in their order |
| ClientEffects.ColourIsShown | frontend/src/server/server_game_room.cpp:356-410 | the colour that is ready, or asks for a regret or a tie |
| ClientEffects.GameStarts | frontend/src/server/server_game_room.cpp:364-375 | the game goes on and the names change places unless the one sent is shown as black; records and board stay |
| ClientEffects.StoneIsShown | frontend/src/game/room.cpp:54-60 | one more record, and one cell in the parity of the number of records before |
| ClientEffects.GameOverNeedsTwoBytes | frontend/src/server/server_game_room.cpp:421-429 | the handler throws exactly below two bytes |
| ClientEffects.OthersChangeNothing | frontend/src/server/server_game_room.cpp:225-444 | the other messages are read and change nothing shown; unknown numbers are ignored |
| ClientEffects.ThrowsIffTooShort | frontend/src/server/server_game_room.cpp:335-410 | a handler throws exactly when bytes it reads are missing |
| Mirror.ClientTracksServer | frontend/src/server/server_game_room.cpp:288-384 | over every run from its join on, no handler of a listed client throws exactly as long as no stone won; then its records are the stones that lay there at the starts since and the server's log, equal to the log exactly when every start found an empty board; its board colours them as `Coloured` says, occupies the server's cells exactly when every stone restarted over lies there again, and is the server's transposed exactly when those are moreover even in number or, if there are none, it joined at an empty log |
| Mirror.ClientStonePlacedIff | frontend/src/server/server_game_room.cpp:92-102 | over every run in which none of its handlers threw, a client's stone is placed exactly when a game goes on, it is its turn, the cell is empty and the stones restarted over since it joined number a multiple of 256 |
| Mirror.RestartedIff | backend/server/distribute.go:73-94 | no stones were restarted over exactly when every start of the run found an empty board |
| Restarts.RestartLeavesTheClientBehind | frontend/src/server/server_game_room.cpp:364-375 | in one run, joins, two readies, a stone and two readies, a player is still connected with a record while the server's log is empty |
| Restarts.JoinedBoardIsWrong | frontend/src/game/room.cpp:67-76 | an onlooker that joins at two stones shows a wrong board |
| Restarts.SameGameAgainRightsTheBoard | frontend/src/game/room.cpp:54-60 | after a new start and the same two moves the same client shows the server's board |
| Restarts.TwoStonesRoomIsReached | backend/server/distribute.go:73-139 | such a room is reached by a run from its opening |
| SeatNames.ClientNamesSeats | frontend/src/server/server_game_room.cpp:364-375 | over every run, a listed client that does not leave shows at the seats the names of its snapshot, swapped at each start whose black player it does not show as black; its role is the colour of its seat exactly when those names say so; the ready colour it shows is the last one announced, and its game goes on from the first start |
| SeatNames.StartRightsNamesIff | frontend/src/server/server_game_room.cpp:364-375 | a start puts the names right exactly when the two shown were the two seated, in either order |
| SeatNames.ReplacedPlayerTurnsTheRole | frontend/src/server/server_game_room.cpp:364-375 | a run without namesakes in which the white player takes itself for black: the black player disconnects, another takes the seat, and the game starts |
| Mirror.EventKeepsCopy | backend/server/distribute.go:141-153 | every event, chat lines and questions included, delivers to a listed client just what keeps its records and board in step |
| Mirror.OtherEventsAreQuiet | backend/middlewares/mdwroom/view.go:42-56 | apart from an accepted stone nothing a listed client receives, chat lines and answers included, touches records or board or makes a handler throw |
| Mirror.JoinerReceivesSnapshot | backend/middlewares/mdwroom/view.go:42-56 | a joiner receives exactly one packet, and it decodes to the room it joined |
| Mirror.GameOverDisconnects | frontend/src/server/server_game_room.cpp:421-429 | the one-byte game-over message makes the client's handler throw |
| Mirror.BroadcastReachesListed | backend/server/send.go:30-40 | a broadcast gives every listed user each packet once, in order, and nobody else anything |
| Mirror.PlayersAreAddressed | backend/middlewares/mdwroom/room.go:47-54 | in every run both seated players are addressed by every broadcast, exactly once |
| DoubleBuffer.ReadersSeeTheLastCommit | frontend/3rdparty/mixi/include/mixi/core/lock.h:34-53 | under every interleaving a reader sees the value it saw when it got the lock, and that is the last whole value committed |
| DoubleBuffer.HeldValueIsStable | frontend/3rdparty/mixi/include/mixi/core/lock.h:34-78 | no step of a writer changes what a lock holder sees |
| DoubleBuffer.NoWriteIsLost | frontend/3rdparty/mixi/include/mixi/core/lock.h:55-78 | the committed values are those the writers wrote, read as a single-threaded program, and form a chain, each write starting from the one committed before it |
| DoubleBuffer.WritesAreCommitted | frontend/3rdparty/mixi/include/mixi/core/lock.h:55-78 | under every interleaving each committed value is the last one written since its writer copied, or what it started from; every reader sees the last of them |
| DoubleBuffer.OrdinaryWriteIsSeen | frontend/3rdparty/mixi/include/mixi/core/lock.h:55-78 | whenever no writer and no reader is there, an ordinary writer can run through, and the next reader sees what it wrote |
| DoubleBuffer.PossibleIffInOrder | frontend/3rdparty/mixi/include/mixi/core/lock.h:34-78 | a step is possible after a run exactly by the order of the writer's steps and the mutex |
| DoubleBuffer.HiddenSlotHoldsAnything | frontend/3rdparty/mixi/include/mixi/core/lock.h:55-78 | in the middle of a copy or a write the slot that is not read may hold anything |
| DoubleBuffer.StepKeepsInv | frontend/3rdparty/mixi/include/mixi/core/lock.h:9-78 | every step by anyone keeps the protocol's invariant |
| Prism.ConstructSmooth | frontend/3rdparty/mixi/src/geometry/geo3d.cpp:53-83 | 2n vertices, all indices in range, and the triangles are the prism's, corner by corner |
| Prism.ConstructFlat | frontend/3rdparty/mixi/src/geometry/geo3d.cpp:85-121 | 4n vertices, all indices in range, and the triangles are the prism's, corner by corner |
| Prism.Stretch | frontend/3rdparty/mixi/src/geometry/geo3d.cpp:40-51 | smooth or flat, the mesh is the prism over the polygon; only the number of vertices differs |
| Prism.SameTriangles | frontend/3rdparty/mixi/src/geometry/geo3d.cpp:40-51 | both constructions of one polygon have the same triangles, corner by corner |
| Prism.SideInCoordinates | frontend/3rdparty/mixi/src/geometry/geo3d.cpp:53-83 | the two triangles of each side in coordinates, for each axis |
| ReverseReader.FileReverseReader.GetLine | frontend/src/util/file_reader.cpp:20-43 | the newline-free text up to the current end, moving to the newline before it; nothing more at the front |
| ReverseReader.ReadAll | frontend/src/util/file_reader.cpp:8-43 | repeated reading ends, and its lines in file order joined by newlines are the content |
| ReverseReader.LinesAreUnique | frontend/src/util/file_reader.cpp:20-43 | a text has only one such list of lines |

## Left out

- Sockets, listeners, the UDP server, coroutines, logging and timestamps: a connection is a byte stream in pieces and an ordered outbox.
- The user database and password hashing: authentication answers with a new user or an error.
- The connect and disconnect chains of the middlewares: only the distribute chain is modelled stage by stage; a disconnect is its effect on the room.
- Failing sends: a write error of the socket that closes somebody's connection is not modelled.
- Several user objects on one connection: `Mirror` follows a connection that joined once, as the client does.
- Handlers the endpoint table does not name.
- Reflection details: unexported and embedded fields, pointer kinds; a nil slice is an empty one.
- The older cursor-based serializer of the server beyond the two bytes of a stone message and the name in a question about a user.
- Fields assigned before a client handler throws: the connection ends there, and the view is not followed further.
- Two writers of the double buffer at once: the client has one thread that writes, and the steps allow one writer at a time.
- Surface normals and texture coordinates of the prism; the drawing code as a whole.
- Packets to a connection that has no user yet (a refused authentication, a fatal error).
- ClientRoom.Room.Receive: of the public-key handler only the two reads are modelled; encrypting the password and answering, which can abort, are not.
- Pipeline.Context.ProcessRoom: rooms are values in this module, as they are for `Pipeline.Context.Distribute`; `LobbyRoom.Room` is the object that updates them in place.
