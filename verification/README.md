# notificationd in Dafny

A model of the core of notificationd, a relay for desktop notifications. It covers:

- the line protocol: the nom parser for a message line and the reply formatter;
- the server's per-connection state machine (`ClientHandle::handle_message`), driven by the lines a client writes;
- the registry of connected clients, with its id counter, broadcasts and roster;
- the notification frame that SEND broadcasts;
- the read loops of the two subscriber daemons, which reassemble a notification and show it;
- the tag codec of the notification store;
- the two builders of the control socket address.

Everything is sequential and pure. Threads, channels, sockets, SQLite, D-Bus and varlink are parameters or outputs:

- a client handle carries an `open` flag that says whether a write to it succeeds, and a queue of the text written to it;
- the store is a list of rows; the outcome of each statement, the new row's timestamp and the query outcome are passed in afresh for every message the server handles;
- the desktop notification becomes a `Display` event and the service manager's readiness report a `Ready` event.

Modules, one per file:

- `Basics`: `Option` and `Result`.
- `Text`: ASCII character classes and case, `lines`, split and join, decimal numbers.
- `Parser` and `ParserCases`: `src/protocol/parser.rs`, the line parser this model contains; it is used on both the server and the client side.
- `Reply` and `CodecLaws`: the formatter and its round trip with the parser.
- `Notifications`: the notification record.
- `Database`: save, load and the tag codec.
- `Clients`: the session state and the client handle with its writes.
- `Registry`: `src/bin/notificationd/server.rs`.
- `LegacyRegistry`: `src/server.rs`.
- `Frames`: the SEND frame and the HISTORY replies.
- `Session` and `SessionLaws`: `handle_message` and the reader loop.
- `Forwarder`, `ForwarderLaws` and `FrameReassembly`: the two subscriber loops.
- `Addresses`: the socket address builders.
- `Scenarios`: whole sessions, namely the subscriber handshake and the `examples/simple.rb` script.

## Model

| member | source | states |
|---|---|---|
| Parser.Id | src/protocol/parser.rs:37-39 | an id is read only from digits followed by a blank; otherwise nothing is consumed |
| Parser.IdPresentIff | src/protocol/parser.rs:37-39 | the id is present exactly when the line starts with digits whose value is below 2^32 followed by a blank, and it is their value |
| Parser.Sign | src/protocol/parser.rs:20-22 | `+` reads as true and `-` as false, each consuming one character; anything else reads nothing and consumes nothing |
| Parser.Command | src/protocol/parser.rs:24-26 | the command is the longest, possibly empty, prefix of ASCII alphanumerics and `_`; the input is that command followed by what is left |
| Parser.ArgumentsRest | src/protocol/parser.rs:28-30 | the argument loop stops only where no further blank-led argument can be read, leaving a suffix of the input |
| Parser.ArgumentsTokens | src/protocol/parser.rs:28-30 | every argument is non-empty and holds no space, tab, CR, LF or colon |
| Parser.TrailingFacts | src/protocol/parser.rs:32-35 | a trailing is present exactly when optional blanks and a colon start the rest; it is a suffix of the input that never starts with a blank |
| Parser.LineEnd | src/protocol/parser.rs:41-43 | a line end is read exactly when `\r\n` or `\n` starts the input |
| Parser.Line | src/protocol/parser.rs:54-75 | unterminated parsing never fails; a message with a trailing is only ever produced unterminated |
| Parser.LineFacts | src/protocol/parser.rs:54-75 | every parsed message is well formed, the input left is a suffix of the line, and nothing is left after a trailing |
| ParserCases.EmptyTrailing | src/protocol/parser.rs:77-81 | `BODY:` parses to command `BODY` with the empty trailing and nothing left |
| ParserCases.EmptyTrailingAfterBlank | src/protocol/parser.rs:59 | a blank before the colon gives the same message |
| ParserCases.DollarLine | src/protocol/parser.rs:24-26 | a line starting with `$` has no id, no sign, an empty command, no arguments, no trailing, and nothing of it is consumed |
| ParserCases.DigitsStartCommand | src/protocol/parser.rs:55 | digits not followed by a blank are not an id: `123abc` is the command |
| ParserCases.NoArguments | src/protocol/parser.rs:28-30 | input not starting with a blank holds no arguments |
| ParserCases.ColonTrailing | src/protocol/parser.rs:59 | blanks, a colon and blanks start a trailing that runs to the end of the input |
| ParserCases.TrailingSwallowsAll | src/protocol/parser.rs:33 | the trailing keeps everything to the end of the input, because the predicate that should stop it at CR or LF holds for every character |
| ParserCases.TrailingKeepsLineEnd | src/protocol/parser.rs:33 | `TITLE : hi\r\n` reads the trailing `hi\r\n` |
| ParserCases.TerminatedIff | src/protocol/parser.rs:59-64 | terminated parsing succeeds exactly when there is no trailing and a line end follows the arguments |
| Reply.Format | src/bin/notificationd/protocol/mod.rs:16-43 | a reply ends in `\r\n`; it starts with its sign when there is no id, and with the id and a blank when there is one |
| Reply.AfterLayout | src/bin/notificationd/protocol/mod.rs:32-41 | the text after the command is empty exactly when there are no arguments and no trailing, otherwise starts with a space, and ends in ` : ` and the trailing when there is one |
| Reply.ReplyLayout | src/bin/notificationd/protocol/mod.rs:23-42 | a reply without its line end opens with the id text, sign and command; it stops right there exactly when there are no arguments and no trailing, otherwise a space follows, and a trailing is always last, after ` : ` |
| CodecLaws.ArgumentsOfSpaced | src/protocol/parser.rs:28-30 | the argument parser reads back exactly the arguments laid out one space apart |
| CodecLaws.TrailingOfText | src/bin/notificationd/protocol/mod.rs:37-41 | the parser reads a rendered trailing back unchanged |
| CodecLaws.IdOfRendered | src/bin/notificationd/protocol/mod.rs:25-29 | the id parser reads a rendered id back |
| CodecLaws.FormatThenParse | src/bin/notificationd/protocol/mod.rs:16-43 | a reply read back unterminated without its `\r\n` gives the same id, sign, command, arguments and trailing, when the command is a command token, the arguments are tokens and the trailing does not start with a blank |
| CodecLaws.ParseFormatParse | src/protocol/parser.rs:54-75 | formatting any signed message the parser produced and parsing it again gives the same message |
| CodecLaws.UnreadableCommand | src/bin/notificationd/protocol/mod.rs:31 | a command starting with a character the parser does not take reads back as an empty command, so the round trip fails |
| Notifications.New | src/notifications.rs:12-22 | a new record has no id, user, timestamp, title or body and no tags |
| Notifications.NewIsUnique | src/notifications.rs:12-22 | any record with nothing set is the new one |
| Database.Empty | src/bin/notificationd/server/database.rs:7-20 | the new table holds no rows |
| Database.Save | src/bin/notificationd/server/database.rs:35-45 | saving fails with no user before touching the table, and otherwise exactly when the statement fails; a success appends one row with a larger row id |
| Database.DecodeTags | src/bin/notificationd/server/database.rs:59-69 | decoded tags are non-empty and free of spaces |
| Database.DecodeEncode | src/bin/notificationd/server/database.rs:43 | decoding what was encoded gives the tags back when every tag is non-empty and free of spaces |
| Database.DecodeIdempotent | src/bin/notificationd/server/database.rs:59-69 | decoding, encoding and decoding again gives the first decoding |
| Database.DecodeEmpty | src/bin/notificationd/server/database.rs:59-69 | the empty text decodes to no tags |
| Database.DecodeDoubleSpace | src/bin/notificationd/server/database.rs:59-69 | a doubled space between two tags is one separator |
| Database.LoadAll | src/bin/notificationd/server/database.rs:51-75 | when the query succeeds, every row is loaded in table order; otherwise nothing is |
| Database.SaveThenLoad | src/bin/notificationd/server/database.rs:35-75 | the last record loaded after a save is the saved one, with the new row id, the timestamp and the same tags |
| Clients.NewClientState | src/server/client.rs:30-37 | a new session is not logged in, does not consume and has a new record |
| Clients.Write | src/server/client.rs:98-100 | a write queues the text exactly when the channel is open and reports whether it was |
| Clients.WriteAllSpec | src/bin/notificationd/server.rs:56-61 | the broadcast loop writes to every client and changes nothing else |
| Clients.NotifyAllWrites | src/bin/notificationd/server.rs:62-73 | the notification loop writes to exactly the consuming clients |
| Clients.NotifyAllCount | src/bin/notificationd/server.rs:62-73 | its count is the number of consuming clients whose write succeeded, so at most the number of clients |
| Registry.New | src/bin/notificationd/server.rs:29-36 | a new server has no clients and no database |
| Registry.DrawsConsecutive | src/bin/notificationd/server.rs:14-18 | successive `next_id` calls give consecutive ids from the counter and advance it by their number |
| Registry.SetThenNext | src/bin/notificationd/server.rs:20-22 | after `set_id(k)` the next draw is exactly k |
| Registry.AddClientAppends | src/bin/notificationd/server.rs:53-55 | `add_client` appends exactly the new handle and changes nothing else |
| Registry.BroadcastReachesAll | src/bin/notificationd/server.rs:56-61 | `broadcast` queues the text on every open channel, whatever the flags, and changes nothing else |
| Registry.BroadcastNotificationReachesConsumers | src/bin/notificationd/server.rs:62-73 | `broadcast_notification` reaches exactly the consuming clients with open channels, leaves the others alone, and returns their number |
| Registry.Roster | src/bin/notificationd/server.rs:86-95 | the roster is never longer than the client list |
| Registry.RosterAppend | src/bin/notificationd/server.rs:86-95 | `who` keeps list order |
| Registry.RosterSingle | src/bin/notificationd/server.rs:86-95 | a client has a roster entry exactly when it is logged in |
| Registry.RosterMembers | src/bin/notificationd/server.rs:86-95 | an entry is in the roster exactly when some client is logged in under that name, at that peer, with that flag |
| Registry.RunKeepsClients | src/bin/notificationd/server.rs:53-73 | no sequence of registry operations removes or moves a client |
| LegacyRegistry.New | src/server.rs:23-27 | a new server has no clients |
| LegacyRegistry.AddClientAppends | src/server.rs:40-42 | `add_client` appends exactly the new handle |
| LegacyRegistry.BroadcastReachesAll | src/server.rs:43-48 | `broadcast` attempts every client, ignoring flags and failures |
| LegacyRegistry.BroadcastNotificationReachesConsumers | src/server.rs:49-60 | `broadcast_notification` reaches and counts exactly the consuming clients with open channels |
| LegacyRegistry.RunKeepsClients | src/server.rs:40-60 | the client list only grows and keeps its order |
| Frames.FrameLines | src/server/client.rs:237-254 | a frame has a start line and an end line around the optional title and tags lines and one line per body line |
| Frames.BodyLines | src/server/client.rs:248-252 | each body line is framed as its own `$BODY:` line |
| Frames.FrameLinesStartWithDollar | src/server/client.rs:237-254 | every frame line starts with `$` |
| Frames.FrameLinesReadBack | src/server/client.rs:237-254 | a subscriber reading the frame with `lines` gets the frame lines back when user, title and tags hold no line feed |
| Frames.HistoryWrites | src/server/client.rs:314-361 | HISTORY makes one write per stored notification |
| Frames.HistoryCumulative | src/server/client.rs:314-361 | write k holds the replies for rows 0 to k, because the reply list is never cleared: each write repeats all earlier ones |
| Session.HandleMessage | src/server/client.rs:103-406 | a message never changes the number of clients |
| Session.Deliver | src/server/client.rs:237-263 | delivering a decision keeps the number of clients |
| Session.Feed | src/server/client.rs:80-89 | the reader loop over any lines, each handled with its own statement and query outcomes, keeps the number of clients |
| SessionLaws.SignedRejected | src/server/client.rs:103-113 | a signed message gets exactly one `-ERR INVALID_MESSAGE` and changes nothing, logged in or not |
| SessionLaws.LoginOutcomes | src/server/client.rs:115-156 | LOGIN in any case: no argument gives `MISSING_ARG`, a second login gives `ALREADY_LOGGED_IN` and keeps the name, otherwise the first argument becomes the name and is welcomed |
| SessionLaws.NoLoginRefused | src/server/client.rs:157-166 | before login every other command gets the single `NO_LOGIN` refusal and changes nothing |
| SessionLaws.NoLoginText | src/server/client.rs:157-166 | that refusal is the line `--ERR NO_LOGIN : Please login first.` with two minus signs |
| SessionLaws.NoLoginReadBack | src/server/client.rs:157-166 | read back with the parser, that refusal is a `-` reply with an empty command, so its code is lost |
| SessionLaws.NameSetOnce | src/server/client.rs:142-143 | a name, once set, never changes; a name is only set by a LOGIN with an argument |
| SessionLaws.ConsumeNeedsNameKept | src/server/client.rs:30-37 | a new session keeps the rule that only a logged-in session consumes, and every message preserves it |
| SessionLaws.LoggedInKeepsName | src/server/client.rs:167-406 | no command after login changes the name |
| SessionLaws.TitleRules | src/server/client.rs:170-181 | TITLE sets the title silently, or is refused with `MISSING_TRAILING` and changes nothing |
| SessionLaws.BodyRules | src/server/client.rs:182-213 | BODY appends the trailing and a line feed, or starts the body on `RST`; `RST` without a trailing clears the body; otherwise a missing trailing is refused |
| SessionLaws.BodyAccumulates | src/server/client.rs:182-213 | a run of BODY lines from no body gives a body that `lines` splits back into those lines |
| SessionLaws.BodyAppends | src/server/client.rs:182-213 | a run of BODY lines appends each line and a line feed to the body |
| SessionLaws.ResetRules | src/server/client.rs:265-267 | RESET forgets the notification being built, silently |
| SessionLaws.ConsumeRules | src/server/client.rs:277-310 | CONSUME defaults to `on`; `on`/`true` and `off`/`false` in any case set and clear the flag and echo the lower-cased argument; anything else is refused with `INVALID_ARG` |
| SessionLaws.VersionRules | src/server/client.rs:268-276 | VERSION answers with the package name and version |
| SessionLaws.QuitRules | src/server/client.rs:311-313 | QUIT marks the connection ended, without a reply or other change |
| SessionLaws.UnknownRules | src/server/client.rs:400-406 | any other command after login gets `UNKNOWN_CMD` naming the upper-cased command, and changes nothing |
| SessionLaws.SendIdRules | src/server/client.rs:217-231 | SEND draws an id; a successful save replaces it with the new row id and sets the counter to it; a failed save keeps the drawn id |
| SessionLaws.SendRules | src/server/client.rs:214-264 | SEND keeps the session's record, broadcasts the frame of its details under the login and the id, and answers with the number of subscribers reached |
| SessionLaws.IdReuseAfterFailedSave | src/server/client.rs:217-231 | with a database, a save that fails after a successful one reuses the previous row id, so two notifications share an id |
| SessionLaws.IdsDistinctWithoutDb | src/bin/notificationd/server.rs:14-18 | without a database, successive SENDs get distinct ids |
| SessionLaws.HistoryRules | src/server/client.rs:314-380 | HISTORY answers `NO_DB` without a store and `DB_FAIL` when loading fails, and otherwise makes the cumulative writes; nothing changes |
| SessionLaws.WhoRules | src/server/client.rs:381-399 | WHO answers one line per logged-in client in list order, with its name, consume flag and peer, then `+WHO END` |
| SessionLaws.WhoIncludesSelf | src/server/client.rs:381-399 | the asking session is always in its own WHO answer |
| SessionLaws.DeliverEffects | src/bin/notificationd/server.rs:62-73 | delivering changes only the sender's state and the queues: receivers gain the frame, then the sender its replies |
| SessionLaws.HandleMessageEffects | src/server/client.rs:103-406 | the store, counter, replies and frames after a message are the decided ones, and the clients are the decision delivered |
| SessionLaws.HandleKeepsInvariant | src/server/client.rs:277-310 | handling a message keeps, for every session in the registry, the rule that only a logged-in session consumes |
| SessionLaws.FeedKeepsInvariant | src/server/client.rs:80-89 | the reader loop keeps that rule whatever the lines |
| Forwarder.DisplayOf | src/bin/notificationd/client.rs:100-122 | a missing user is shown as `notificationd`, a missing title or body as empty text |
| Forwarder.Started | src/bin/notificationd/client.rs:48-58 | NOTIFY_START panics exactly when there is a second argument that is not a number |
| Forwarder.FrameStep | src/client.rs:34-78 | a frame step shows at most one notification |
| ForwarderLaws.NotifyStartRules | src/bin/notificationd/client.rs:48-58 | NOTIFY_START discards what was in progress and starts a new record with the first argument as user and the second as id |
| ForwarderLaws.TitleRules | src/bin/notificationd/client.rs:59-63 | TITLE replaces the title with the trailing inside a frame and does nothing outside one |
| ForwarderLaws.BodyRules | src/bin/notificationd/client.rs:64-76 | BODY appends the trailing and a line feed to a started body and panics without a trailing; with no body it starts one or stays empty; outside a frame it does nothing |
| ForwarderLaws.EndRules | src/bin/notificationd/client.rs:77-82 | NOTIFY_END shows the notification exactly when one is in progress and always leaves none |
| ForwarderLaws.OtherIgnored | src/client.rs:70-76 | any other command changes nothing and shows nothing |
| ForwarderLaws.StepMatchesUpperCase | src/bin/notificationd/client.rs:46 | commands other than LOGIN are handled upper-cased |
| ForwarderLaws.StepConfirms | src/bin/notificationd/client.rs:83-93 | readiness is reported only by the first `+` LOGIN reply, and the confirmation is never cleared |
| ForwarderLaws.ReadyAtMostOnce | src/bin/notificationd/client.rs:83-93 | over a whole run readiness is reported at most once, never after confirmation, and never unless booted by the service manager |
| ForwarderLaws.DollarLinesIgnored | src/bin/notificationd/client.rs:42-96 | lines starting with `$` change neither client's state and show nothing |
| ForwarderLaws.FramesIgnored | src/server/client.rs:237-254 | a frame the server sends, read with the line parser, is lost on both clients: nothing is shown |
| ForwarderLaws.DriveAppend | src/bin/notificationd/client.rs:42-96 | running over two batches is running over the first and then, unless it panicked, over the second |
| FrameReassembly.FrameIsDollarBare | src/server/client.rs:237-254 | each frame line is `$` followed by a bare line |
| FrameReassembly.ReassemblesFrame | src/client.rs:34-78 | a client handed the frame lines without their `$` shows the sent notification once and ends idle, whatever it was doing: the sender as user, the title, and the body lines each ended by a line feed |
| Addresses.SocketAddress | src/levitating_notificationd.rs:20 | the address is `unix:`, the directory, a slash and the socket name |
| Addresses.DirOfSocketAddress | src/levitating_notificationd.rs:20 | the directory can be read back from its address |
| Addresses.SocketAddressOfDirOf | src/levitating_notificationd.rs:20 | any text of the shape of an address is the address of its directory |
| Addresses.Address | src/levitating_notificationd.rs:6-21 | `address(uid)` names the runtime directory |
| Addresses.VarlinkAddress | src/bin/notificationd/server/varlink.rs:21-31 | `addres()` names its directory |
| Addresses.RuntimeDirWins | src/levitating_notificationd.rs:7 | a set `XDG_RUNTIME_DIR` is used verbatim by both builders |
| Addresses.UserDirDoubleSlash | src/levitating_notificationd.rs:16-17 | without the variable every non-root directory starts `//`, so the address starts `unix://` |
| Addresses.RootAddress | src/levitating_notificationd.rs:8-15 | root without the variable gets the base itself, `/run` or `/var/run` |
| Addresses.VarlinkRootDoubleSlash | src/bin/notificationd/server/varlink.rs:24-30 | root's varlink address without the variable has two slashes before the socket name |
| Addresses.UserAddressesDiffer | src/bin/notificationd/server/varlink.rs:26-27 | with `/run` present, the two builders differ for a non-root user by the extra leading slash only |
| Addresses.VarRunOnlyInAddress | src/levitating_notificationd.rs:8-12 | without `/run`, `address(uid)` uses `//var/run`, which `addres()` never does |
| Scenarios.HandshakeLines | src/bin/notificationd/client.rs:36 | the handshake is the login line and then the subscription line |
| Scenarios.HandshakeSession | src/server/client.rs:117-156 | the handshake logs a new session in as `user@host` and subscribes it, with the welcome and the `on` echo as the only replies |
| Scenarios.WelcomeConfirms | src/bin/notificationd/client.rs:83-93 | the current client takes the server's welcome as its login confirmation and reports readiness exactly when booted |
| Scenarios.SendStep | src/server/client.rs:214-264 | a SEND by a logged-in session on an open channel keeps its session and channel, and frames its details under the id `SendId` gives |
| Scenarios.FeedReusesId | src/server/client.rs:217-231 | within one connection, a SEND whose save succeeds followed by a SEND whose save fails broadcasts two frames under the same new row id |
| Scenarios.RubyScript | examples/simple.rb:3-9 | the script's session gets a `+` welcome, then a `+SEND` reply, and broadcasts the frame of its notification, so the script never aborts |

## Left out

- Threads, `mpsc` channels and the mutexes: each message is a sequential step on the registry.
- Sockets and their errors: a write to a client succeeds exactly when its channel is open. The `?` paths that end a session on a failed write are modelled only as ending the session. QUIT's socket shutdown is left out.
- Registration order: the source starts a connection's reader before `add_client`. The model assumes the session is registered (`me < |clients|`).
- Session.Feed: the loop stops at QUIT. In the source, QUIT only shuts the socket down and returns, and the `lines` loop goes on handling whatever lines were already in the reader's buffer (a `QUIT\r\nSEND\r\n` arriving in one read still sends). How many lines that is depends on how the bytes arrived, which the model does not see, so it drops every line after QUIT.
- Session.Feed: the `PARSE` error reply is unreachable because unterminated parsing never fails, so it is not modelled.
- Registry.DrawsConsecutive: the counter is an unbounded natural number; the 32-bit and `usize` wrap-around of `fetch_add` is not modelled.
- Text.Upper: case folding is ASCII-only; Unicode case mapping is not modelled.
- SQLite: the statement outcome, the query outcome and the `unixepoch`/`datetime` timestamp are parameters. Rows are assumed to come back in insertion order. `load` is `todo!()` in the source and is not modelled.
- The desktop notification (D-Bus), `sd_notify`, `gethostname`, `getuid`, `env::var` and `Path::exists` are parameters or events; their failures, which end the client loops, are not modelled (see Forwarder.Step below). Whether the service manager booted the system is a field of the client loop's state.
- Forwarder.Read: the current client imports a protocol parser of its own (`protocol/parser` of the `notificationd` binary) that is not part of this model; both clients are modelled with `src/protocol/parser.rs`, reading a `+` sign as success.
- Session.Feed: the server session of `src/server/client.rs` belongs to the same binary (it calls `protocol::reply`, which only the binary's protocol module defines), so its reader loop also parses with that `protocol/parser`, which is not part of this model. The model reads the server's lines with `src/protocol/parser.rs` too; so do the lemmas that go through the line text: SessionLaws.NoLoginReadBack, Scenarios.HandshakeSession and Scenarios.RubyScript.
- The clients' panics (`unwrap` on a non-numeric id or a missing trailing) end the loop with a `Panic` value.
- Forwarder.Step: the `?` error returns that end both client loops are not modelled: a failed read of a line (src/bin/notificationd/client.rs:43, src/client.rs:35), a failed desktop notification (src/bin/notificationd/client.rs:79, src/client.rs:72), and a failed `sd_notify::booted`, `peer_addr` or `sd_notify::notify` (src/bin/notificationd/client.rs:87-90). In the model every line is read, every `Display` and `Ready` succeeds and the loop goes on. Forwarder.LegacyStep and Forwarder.FrameStep leave out the same exits.
- The varlink services (`status`, `who`, `init`) and their generated code are not modelled.
- The command-line programs are not modelled: `src/main.rs`, `src/bin/notificationd/main.rs`, `src/bin/notificationctl.rs` and the servers' `main` functions. Also left out is logging, and the `Message` enums that are `todo!()` in both protocol modules.
- Tags are stored and loaded but never shown by the clients; the frame's tags line is ignored by the loops.
