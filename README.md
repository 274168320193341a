# RelayBot core, modelled in Dafny

RelayBot is a long-running relay between an IRC network and Minecraft servers. Pluggable modules are loaded from an XML configuration. Each module owns named connections: IRC clients, RCON clients, and log or UDP readers. The modules exchange events over a central bus, either broadcast to every module except the sender or addressed to one module and instance. Chat from IRC becomes `tellraw` or `list` RCON commands on a game server. Game events become `PRIVMSG` lines on IRC. Small command handlers answer `?players`, `?whitelist`, `?version` and `?snapshot`.

This project models that core, file by file, in the form each source file takes.

- **IRC client** (`irc_codec.dfy`, `irc_roster.dfy`, `irc_channels.dfy`, `irc_names.dfy`, `irc_modes.dfy`, `irc_isupport.dfy`, `irc_join.dfy`, `irc_privmsg.dfy`, `irc_client.dfy`)
  - `IrcClient.Client` is a class whose fields are the connection's state: the channel table with its rosters, our nick, the ISUPPORT features, the capabilities, the keepalive flags and an outbox of sent lines.
  - Each handler (`m_005`, `m_353`, `m_mode`, `m_join`, `m_nick`, …) is a method that updates those fields.
  - Each handler is proved against specification functions, such as the roster updates, the `MODE` walk, the 353 name fold and the JOIN batching.
  - The line parser and serialiser are loops proved against pure functions. They come with a round-trip theorem.
- **RCON client** (`rcon_codec.dfy`, `utf8.dfy`, `rcon_protocol.dfy`)
  - The frame codec is pure and comes with a byte-level round trip.
  - `RconProtocol.RconClient` keeps the request id and the one-shot callback table. Receiving a reply is tied to a pure transition (`Dispatched`).
  - The table invariant is proved: `-1` is reserved for the login-failure handler, and every other key is an id already handed out.
- **Module registry and routing** (`registry.dfy`, `bus.dfy`, `irc_routing.dfy`, `mc_routing.dfy`): `loadmod`/`readconfig`/`getmodule`/`applyconfig`/`shutdown` over the registry, and the recipient choice of the IRC and Minecraft packages as functions of the client tables.
- **Configuration** (`attrs.dfy`, `config_table.dfy`, `irc_config.dfy`, `mc_config.dfy`, `logging.dfy`, `relay_config.dfy`, `xml.dfy`, `pyint.dfy`)
  - `getattrs` with its two loops.
  - The `loadconfig` validators of the IRC and Minecraft packages and of the relay modules.
  - Logging-output validation and `leveltoname`.
  - Python's `int()` on decimal text: ASCII digits, an optional sign, single underscores between digits, and surrounding Unicode white space.
- **Handlers** (`handler_loop.dfy`, `whitelist.dfy`, `relay_irc_mc.dfy`, `relay_parts.dfy`, `relay_user.dfy`, `relay_mc_irc.dfy`, `mc_version.dfy`)
  - The per-entry loops of the command and relay modules, with their `break`/`continue` structure.
  - The URL segmentation of relayed chat.
  - The `?version` cache, written back into the configuration entries in place.

Python exceptions that escape a handler are modelled as error outcomes (`PyError`), because they end the handler with what it has already done still in effect. Dictionaries whose iteration order matters (the channel table, the rosters and the registry) are a sequence of keys beside a map.

## Model

| member | source | states |
|---|---|---|
| IrcCodec.ParseNuh | modules/irc/protocol.py:651-663 | a `nick!user@host` is cut at its first `@`, then at the first `!`; the nick holds neither separator, the full text is kept, and the parts joined with their separators give the text again |
| IrcCodec.ParseFormatNuh | modules/irc/protocol.py:651-663 | splitting a full `nick!user@host` gives back nick, user and host whenever the nick holds no `!`/`@` and the user part no `@` |
| IrcCodec.ParseRawIrc | modules/irc/protocol.py:665-703 | the word loop driven by `stat` computes the parsed message: optional `:source`, the command, middle parameters one word each, and a trailing `:` parameter that takes the rest of the line, its words rejoined with single spaces |
| IrcCodec.SourceParts | modules/irc/protocol.py:693-701 | the prefix is split into nick, user and host exactly as `_parse_nuh` splits it |
| IrcCodec.BuildLine | modules/irc/protocol.py:617-633 | the loop writes the command, skips empty parameters, and prefixes a parameter with `:` when it holds a space or starts with `:`; an empty command writes nothing |
| IrcCodec.ParseFormat | modules/irc/protocol.py:617-633 | reading back a line `_send` wrote gives its command and its non-empty parameters, the last one character for character, whenever only the last parameter holds spaces or starts with `:` |
| IrcCodec.ParseSourcedFormat | modules/irc/protocol.py:665-703 | the same round trip for a server line carrying a `:source` prefix, whose source is split as `_parse_nuh` splits it |
| IrcCodec.ParseMiddles | modules/irc/protocol.py:688-689 | middle parameters are taken one word each |
| IrcCodec.ParseLast | modules/irc/protocol.py:685-691 | the last parameter, marked with `:` or not, is read back exactly, spaces included |
| IrcCodec.FormatParamsNonEmpty | modules/irc/protocol.py:623-625 | empty parameters contribute nothing to a sent line |
| IrcCodec.FormatParamsJoin | modules/irc/protocol.py:623-629 | non-empty parameters are written as their marked forms joined by single spaces |
| IrcCodec.SplitJoinLast | modules/irc/protocol.py:668 | splitting the joined parameters at spaces gives the middles as they are, followed by the pieces of the last one |
| IrcRoster.Put | modules/irc/protocol.py:376 | setting a member replaces its value; a new nick is filed last and a known one keeps its place |
| IrcRoster.Del | modules/irc/protocol.py:391 | deleting a member removes exactly that key and keeps the order of the others |
| IrcRoster.Named | modules/irc/protocol.py:250-253 | a listed name gets the status its prefix symbols give; a known member keeps nick, account and place, a new one is filed last with no account, and every other member is unchanged |
| IrcRoster.StatusChange | modules/irc/protocol.py:342-346 | adding a mode letter appends it unless present, removing it deletes every copy, and no other letter changes |
| IrcRoster.RemoveChar | modules/irc/protocol.py:346 | `replace(m, '')` keeps exactly the characters other than `m` |
| IrcRoster.RenamedAsWritten | modules/irc/protocol.py:402-406 | the nick change as written keeps the roster well formed; CaseChangeDropsMember and RenamedAgrees pin down what it does |
| IrcRoster.Renamed | modules/irc/protocol.py:402-406 | the member ends up filed under the lower-cased new nick with that nick and its status and account; the old key is gone unless it is the new one; nobody else changes |
| IrcRoster.CaseChangeDropsMember | modules/irc/protocol.py:404-406 | a change of letter case only (`Bob` to `bob`) makes the update as written lose the member altogether |
| IrcRoster.RenamedAgrees | modules/irc/protocol.py:402-406 | when the lower-cased nick changes, the update as written is the intended one |
| IrcRoster.ApplyFails | modules/irc/protocol.py:442-444 | of the roster updates only KILL can raise, exactly when the victim is filed under its exact text but not under its lower-cased text; with lower-case keys it never raises |
| IrcRoster.ApplyEffect | modules/irc/protocol.py:298-300 | ACCOUNT/354 set the named member's account; PART/KICK/QUIT delete the member; KILL deletes the lower-cased victim and keeps every other member, and a KILL of an unlisted victim changes nothing; NICK, as the source writes it, re-files the member exactly as Renamed intends when the lower-cased nick changes and deletes it (the roster minus that key) when only the letter case changes; every other member is left alone |
| IrcChannels.Updated | modules/irc/protocol.py:432-433 | one channel after an update: only its roster changes, and the result is missing exactly where Python raises |
| IrcChannels.ForEachRoster | modules/irc/protocol.py:431-433 | the loop over the channel table keeps every channel and every roster well formed |
| IrcChannels.ForEachRosterSpec | modules/irc/protocol.py:402-406 | the loop gets through iff every channel accepts the update, and otherwise the channels before the first failing one are updated and the rest are not |
| IrcChannels.UpdatedFails | modules/irc/protocol.py:268-270 | apart from KILL an update raises exactly on a channel that has no `users` dict yet, i.e. was never joined |
| IrcChannels.ForEachRosterStops | modules/irc/protocol.py:298-300 | once an update has raised, the rest of the loop does not run |
| IrcChannels.ForEachRosterKeepsChannels | modules/irc/protocol.py:431-433 | the loop changes rosters only: every channel keeps its name, key, `joined` flag and rejoin timer |
| IrcChannels.Good | modules/irc/protocol.py:402-406 | counts the channels, from the front, that accept the update: all of them do and the next one does not |
| IrcIsupport.ParseToken | modules/irc/protocol.py:53 | an ISUPPORT token splits at its first `=` into a non-empty key and an optional value, and the two put back give the token; an empty token or one starting with `=` does not match |
| IrcIsupport.ParseTokenOf | modules/irc/protocol.py:193-199 | a key and value are read back from the token they form |
| IrcIsupport.Tokens | modules/irc/protocol.py:192 | the tokens are the parameters between the first and the last |
| IrcIsupport.TokensIgnoreEnds | modules/irc/protocol.py:192 | our nick before the tokens and the closing text after them are never read |
| IrcIsupport.PrefixAligned | modules/irc/protocol.py:204-210 | `PREFIX=(modes)symbols` sets the prefix mode letters and the symbols standing for them |
| IrcIsupport.ChanmodesSplit | modules/irc/protocol.py:211-213 | `CHANMODES=A,B,C,D` sets the mode classes, which joined with commas give the value again |
| IrcIsupport.EmptyValuesKeep | modules/irc/protocol.py:201-215 | an empty `CHANTYPES`/`PREFIX` value and an unknown key change nothing |
| IrcIsupport.ApplyTokensConcat | modules/irc/protocol.py:192-215 | tokens are applied one after the other: the result for `a + b` continues from the result for `a` |
| IrcJoin.Batches | modules/irc/protocol.py:564-579 | channels are sent in groups of one to five |
| IrcJoin.BatchesFlatten | modules/irc/protocol.py:564-579 | the groups laid end to end are the list: no channel is lost, repeated or reordered |
| IrcJoin.BatchesAppend | modules/irc/protocol.py:572-576 | whole groups of five are batched independently of what follows |
| IrcJoin.PendingMembers | modules/irc/protocol.py:549-559 | a channel is picked exactly when it is marked not joined, and lands in the keyed list iff it has a key; the pass needs a `joined` entry on every channel |
| IrcJoin.PendingNoneExtends | modules/irc/protocol.py:550 | once a channel without a `joined` entry is reached the whole pass raises |
| IrcJoin.UnkeyedLineReadsBack | modules/irc/protocol.py:574 | a server reading an unkeyed JOIN line finds the command and, split at commas, exactly the batch |
| IrcJoin.KeyedLineReadsBack | modules/irc/protocol.py:594 | a server reading a keyed JOIN line finds the names as a comma list and their keys, in the same order, as one space-separated parameter |
| IrcJoin.GlueJoin | modules/irc/protocol.py:566-570 | the unkeyed stringing loop is `",".join` of the names |
| IrcJoin.GlueKeyedJoin | modules/irc/protocol.py:584-590 | the keyed stringing loop is `",".join` of the names and `" ".join` of the keys |
| IrcModes.SetStatus | modules/irc/protocol.py:341-346 | a prefix mode given to or taken from a filed member changes that member's status as StatusChange says; an unknown nick and every other member are left alone |
| IrcModes.Step | modules/irc/protocol.py:333-353 | one mode letter keeps the rosters well formed or raises |
| IrcModes.Walk | modules/irc/protocol.py:331-353 | the walk over the mode letters stops at the first letter that raises, keeping the updates made before it |
| IrcModes.WalkStops | modules/irc/protocol.py:340 | once a letter has raised, the letters after it are never looked at |
| IrcModes.WalkCounts | modules/irc/protocol.py:333-353 | a walk that gets through ends with the sign of the last `+`/`-` and has consumed exactly the parameters its letters take (prefix modes, list and key modes always, limit-type modes only when adding) |
| IrcModes.WalkNoParams | modules/irc/protocol.py:348-353 | letters that take no parameter read none, so a walk over them alone never raises and never moves on |
| IrcModes.WalkKeepsMembers | modules/irc/protocol.py:339-347 | the walk changes statuses only: the roster keeps its members, in order, with nicks and accounts |
| IrcModes.GiveAndTake | modules/irc/protocol.py:342-346 | `+o nick` gives a member the letter once and `-o nick` takes it away, each reading one parameter |
| IrcNames.FirstOther | modules/irc/protocol.py:239-243 | the index of the first character that is not a prefix symbol, or -1 when every character is one |
| IrcNames.StripPrefix | modules/irc/protocol.py:236-243 | a listed name splits into its leading prefix symbols and the rest; a name made only of symbols is kept whole with no prefix |
| IrcNames.PrefixModes | modules/irc/protocol.py:247-248 | each prefix symbol maps to the mode letter at its position; the reply raises exactly when a symbol's position has no letter |
| IrcNames.NameStep | modules/irc/protocol.py:235-253 | one listed name filed keeps the roster well formed |
| IrcNames.NameStepFiles | modules/irc/protocol.py:250-253 | one listed name is filed under its lower-cased nick and everybody else stays as they were |
| IrcNames.NamesFold | modules/irc/protocol.py:233-253 | the names are filed in order; the first that raises stops the rest, the ones before it staying filed |
| IrcNames.NamesFoldStops | modules/irc/protocol.py:235 | once a name has raised, the names after it are never looked at |
| IrcNames.NamesFoldFiles | modules/irc/protocol.py:233-253 | after a complete reply the roster holds exactly the members it held plus the listed names, and members not listed are untouched |
| IrcNames.NamesFoldTotal | modules/irc/protocol.py:247-248 | with at least as many mode letters as symbols, a reply on a joined channel never raises |
| IrcNames.OpVoiceExample | modules/irc/protocol.py:228-253 | `@+alice!a@h` with the default prefixes files a new member `alice` with status `ov` and no account |
| IrcPrivmsg.ActionText | modules/irc/protocol.py:486-491 | a text that is not recognised as a CTCP action is relayed unchanged |
| IrcPrivmsg.ActionRoundTrip | modules/irc/protocol.py:486-491 | a CTCP ACTION wrapping any text is recognised and gives that text back |
| IrcPrivmsg.PlainTextKept | modules/irc/protocol.py:486 | a text not starting with `\x01` is a plain message, kept as it is |
| IrcPrivmsg.AskedVersionExamples | modules/irc/protocol.py:497-506 | `\x01VERSION\x01` is a version request in either letter case |
| IrcPrivmsg.OpsListed | modules/irc/protocol.py:465-468 | with lower-case keys, a member's nick is listed by `?ops` exactly when the member holds `o` |
| IrcPrivmsg.CapRequestSpec | modules/irc/protocol.py:307-313 | exactly the advertised capabilities the client supports are requested, never more often than advertised |
| IrcClient.CrToLf | modules/irc/protocol.py:132 | every carriage return becomes a line feed and nothing else changes |
| IrcClient.CollisionNicksDiffer | modules/irc/protocol.py:284-288 | different collision counts give different nicks, so a base nick is never retried with the same suffix |
| IrcClient.AllPendingAfterReset | modules/irc/protocol.py:220-223 | after the first 005 every configured channel is pending, each in exactly one of the two JOIN lists |
| IrcClient.MixedCaseTarget | modules/irc/protocol.py:484 | a channel message addressed with capitals (`#Relay`) passes the lower-cased membership test but raises `KeyError` at the `joined` lookup, so it is never relayed |
| IrcClient.ForEachRosterTableOk | modules/irc/protocol.py:298-300 | the roster loop keeps the channel table in shape |
| IrcClient.Client.constructor | modules/irc/protocol.py:32-93 | a new connection holds the configured channels in order under lower-cased keys, none joined, our nick as the wanted nick, the default server features, every known capability off, no timers and nothing sent |
| IrcClient.Client.Send | modules/irc/protocol.py:617-633 | `_send` appends the formatted line, or nothing for an empty command |
| IrcClient.Client.ResetPing | modules/irc/protocol.py:521-528 | traffic arrived: the next keepalive check passes and is rescheduled |
| IrcClient.Client.DoPing | modules/irc/protocol.py:530-536 | with traffic since the last check the client sends `PING CHECKCONN` and reschedules; without, it disconnects with `Ping Timeout` |
| IrcClient.Client.Disconnect | modules/irc/protocol.py:148-174 | `QUIT` with the reason is sent, the connection is closed and every channel, rejoin and ping timer is cancelled |
| IrcClient.Client.CapEnd | modules/irc/protocol.py:538-540 | `CAP END` is sent and the pending end of negotiation is cleared |
| IrcClient.Client.ConnectionMade | modules/irc/protocol.py:95-104 | on connect: keepalive started, then `CAP LS`, `PASS` only when a password is configured, `NICK` and `USER` in that order |
| IrcClient.Client.HandleEvent | modules/irc/protocol.py:180-188 | only an `IRC_SENDCMD` event carrying a command is acted on, by sending that command as a raw line |
| IrcClient.Client.UpdateRosters | modules/irc/protocol.py:298-300 | the channel loop shared by ACCOUNT, 354, NICK, QUIT and KILL updates the channels as ForEachRoster says and raises `KeyError` where it stops |
| IrcClient.Client.SendUnkeyed | modules/irc/protocol.py:564-579 | keyless channels are sent as JOIN lines of up to five names |
| IrcClient.Client.SendKeyed | modules/irc/protocol.py:581-600 | keyed channels are sent as JOIN lines of up to five names with their keys in a second parameter |
| IrcClient.Client.JoinChans | modules/irc/protocol.py:542-602 | every channel not yet joined is sent a JOIN, keyless ones first, and the retry is scheduled iff some channel was pending; a channel without a `joined` entry raises `KeyError` before anything is sent |
| IrcClient.Client.CollectPending | modules/irc/protocol.py:549-559 | the scan yields the channels not yet joined, in table order, split by whether they carry a key |
| IrcClient.Client.JoinChan | modules/irc/protocol.py:604-615 | the retry after a kick sends a JOIN (with the key when there is one) and reschedules itself unless the channel has been joined meanwhile |
| IrcClient.Client.M005 | modules/irc/protocol.py:191-225 | the server features are updated token by token; on the first complete 005 every channel is marked unjoined and the JOIN lines for all of them are sent, and later 005s change only the features |
| IrcClient.Client.ApplyFeatures | modules/irc/protocol.py:192-215 | the token loop computes the features ApplyTokens gives |
| IrcClient.Client.MarkUnjoined | modules/irc/protocol.py:220-221 | every channel's `joined` flag becomes false and nothing else changes |
| IrcClient.Client.MAccount | modules/irc/protocol.py:291-300 | the sender's account (`*` meaning none) is recorded in every roster that lists the sender; a line with no parameters raises `IndexError` |
| IrcClient.Client.M354 | modules/irc/protocol.py:256-270 | a WHOX reply tagged 696 records the member's account (`0` meaning none) in every roster that lists the member; other tags are ignored; short replies raise `IndexError` |
| IrcClient.Client.MNick | modules/irc/protocol.py:393-406 | when the sender is us our nick changes; every roster listing the sender is updated by the NICK update as written (ForEachRoster of Apply): re-filed under the lower-cased new nick, or lost when only the letter case changes |
| IrcClient.Client.MQuit | modules/irc/protocol.py:424-433 | someone else quitting leaves every roster; our own quit changes nothing |
| IrcClient.Client.MKill | modules/irc/protocol.py:435-444 | a victim other than us leaves every roster that lists it as given |
| IrcClient.Client.M353 | modules/irc/protocol.py:228-253 | on a configured channel each listed name is filed with the status its symbols give, and the first name that raises stops the rest; other channels are ignored |
| IrcClient.Client.FileNames | modules/irc/protocol.py:235-253 | the loop over the listed names computes NamesFold |
| IrcClient.Client.StripLeading | modules/irc/protocol.py:239-243 | the scan for leading status symbols computes StripPrefix |
| IrcClient.Client.ModesOf | modules/irc/protocol.py:247-248 | the symbol loop computes PrefixModes |
| IrcClient.Client.M366 | modules/irc/protocol.py:273-277 | with WHOX, end of names on a configured channel sends `WHO <chan> %tna,696`; otherwise nothing is sent |
| IrcClient.Client.M433 | modules/irc/protocol.py:280-289 | with fewer than two parameters it raises `IndexError`; when the target is `*`, or is our current nick, or the refused nick is the one we asked for (all compared lower-cased), the collision count goes up (starting at 0) and `NICK` is sent with our current nick plus the count as four digits, the configured nick being the same shared entry; otherwise nothing changes |
| IrcClient.Client.MCap | modules/irc/protocol.py:302-320 | `CAP LS` requests the supported advertised capabilities and schedules `CAP END`; `CAP ACK` enables the acknowledged known capabilities; other subcommands are ignored |
| IrcClient.Client.RequestCaps | modules/irc/protocol.py:307-311 | the `LS` loop keeps the offered capabilities the client knows, in the server's order |
| IrcClient.Client.AckCaps | modules/irc/protocol.py:317-320 | each known acknowledged capability is switched on and no other changes |
| IrcClient.Client.MError | modules/irc/protocol.py:322-324 | the server's reason is remembered |
| IrcClient.Client.MPing | modules/irc/protocol.py:446-447 | `PING` is answered with `PONG` and the same token |
| IrcClient.Client.MMode | modules/irc/protocol.py:326-353 | on a configured channel the mode letters are walked as Walk says and the roster updated; other targets are ignored |
| IrcClient.Client.WalkModes | modules/irc/protocol.py:333-353 | the loop over the mode letters computes Walk |
| IrcClient.Client.MJoin | modules/irc/protocol.py:355-377 | our own join marks the channel joined with an empty roster and cancels its rejoin timer; then the joiner is filed with the account from extended-join (`*` meaning none); a join to a channel never joined by us raises `KeyError` |
| IrcClient.Client.MKick | modules/irc/protocol.py:379-391 | our own kick marks the channel unjoined and schedules a rejoin; someone else kicked leaves the roster, raising `KeyError` if not listed |
| IrcClient.Client.MPart | modules/irc/protocol.py:408-422 | our own part marks the channel unjoined and rejoins it at once; someone else leaving leaves the roster, raising `KeyError` if not listed |
| IrcClient.Client.MPrivmsg | modules/irc/protocol.py:449-519 | on a configured channel `?ops`/`?account` are answered for operators and the message is published as CHANNEL_MESSAGE/ACTION with the sender's status when the channel is joined; elsewhere a CTCP VERSION is answered and a message not addressed to a channel is published as USER_MESSAGE/ACTION; an empty text is ignored |
| IrcClient.Client.ChannelMessage | modules/irc/protocol.py:453-495 | the channel half of PRIVMSG: replies to `?ops`/`?account`, then the event only when the `joined` lookup says joined |
| IrcClient.Client.ListOps | modules/irc/protocol.py:465-468 | the `?ops` loop lists the nick of every operator, in roster order |
| IrcClient.Client.PrivateMessage | modules/irc/protocol.py:496-519 | the private half of PRIVMSG: a VERSION reply when asked, and a user event unless the target is a channel name |
| IrcClient.Client.Dispatch | modules/irc/protocol.py:142-143 | a message goes to the handler for its command, and one with no handler changes nothing |
| IrcClient.Client.DataReceived | modules/irc/protocol.py:131-146 | received bytes that are not UTF-8 raise `UnicodeDecodeError`; otherwise the keepalive is reset and the non-empty lines (split at CR and LF) are handled in order, all of them unless one raises, in which case exactly those before it |
| IrcClient.Client.HandleLines | modules/irc/protocol.py:136-143 | the line loop skips empty lines and handles the others in order, stopping at the first that raises |
| IrcClient.PrefixOfLines | modules/irc/protocol.py:136-137 | the lines handled before a raise are a prefix of the non-empty lines |
| IrcClient.UnkeyedFlush | modules/irc/protocol.py:572-576 | a finished batch of one to five channels goes out as one line after the lines before it |
| IrcClient.KeyedFlush | modules/irc/protocol.py:592-597 | a finished keyed batch goes out as one line with names and keys |
| IrcRouting.Recipients | modules/irc/__init__.py:132-140 | an event reaches every running client except the one that sent it over IRC |
| IrcRouting.TargetRecipients | modules/irc/__init__.py:142-155 | a targeted event reaches nobody when the target names another module, and otherwise the clients that are not the sender and match the target's name |
| IrcRouting.EmptyTargetIsBroadcast | modules/irc/__init__.py:142-155 | an empty target delivers exactly as the broadcast does, in the same order |
| IrcRouting.NamedTargetReachesOne | modules/irc/__init__.py:149-155 | a named target reaches exactly that client when it runs and is not the sender, and nobody else |
| IrcConfig.AddChannelsSpec | modules/irc/__init__.py:93-106 | a channel is stored under its lower-cased name iff it has a name, the name is new in any letter case and its key holds no space; channels stored earlier are kept |
| IrcConfig.AddChannelsFirst | modules/irc/__init__.py:92-106 | the loop appends the new names after the old ones, in the document order of their first acceptable `<channel>` element, and stores under each new name that first element's attributes, so a later element with the same name in any letter case is skipped |
| IrcConfig.FirstAt | modules/irc/__init__.py:92-106 | the position of the first `<channel>` element with a name equal to `k` once lower-cased and an acceptable key, or the end |
| IrcConfig.TlsNumber | modules/irc/__init__.py:60-65 | a number given for `tls` turns it on exactly when it is non-zero |
| IrcConfig.TlsWordRaises | modules/irc/__init__.py:60-62 | a `tls` value other than `true`/`yes`/`y` that holds a letter or any other character that is no digit, underscore, sign or white space makes `int()` and so `loadconfig` raise `ValueError` |
| IrcConfig.Password | modules/irc/__init__.py:66-69 | an absent or empty password means none |
| IrcConfig.IrcEntry | modules/irc/__init__.py:40-108 | an `<irc>` element is kept iff it has a server with host and port and a readable `tls`, a user with nick, user and gecos, and at least one channel; the stored entry carries the first `<server>`'s attribute map with the decoded TLS flag and password, the first `<user>`'s attribute map, and the channel table, where each stored name maps to the attributes of the first acceptable `<channel>` of that name, the names in document order; an unreadable `tls` raises `ValueError` |
| IrcConfig.ClientChannels | modules/irc/protocol.py:49 | the client receives the stored channels in table order, each filed under its lower-cased name |
| IrcConfig.StoredChannelsDistinct | modules/irc/__init__.py:99-101 | stored channels never share a lower-cased name |
| IrcConfig.LoadConfig | modules/irc/__init__.py:28-110 | the element loop skips unnamed and duplicate names, stores each kept entry under its name after those stored before, and stops at an unreadable `tls` with `ValueError` |
| McConfig.WithHost | modules/minecraft/__init__.py:63-64 | the UDP host defaults to `0.0.0.0` and the other attributes are kept |
| McConfig.McEntry | modules/minecraft/__init__.py:40-88 | a `<minecraft>` element is kept iff each of its rcon, udp and logreader parts has the attributes it needs and at least one part is present; a UDP part next to a log reader is dropped |
| McConfig.LoadConfig | modules/minecraft/__init__.py:28-90 | the element loop stores each kept entry under its name, skipping unnamed and duplicate names, and never raises |
| McRouting.Table | modules/minecraft/__init__.py:134-138 | one client table's loop: its clients that are not the sender by that table's protocol test and match the target name |
| McRouting.RecipientsSpec | modules/minecraft/__init__.py:127-150 | an event reaches a client iff it is in its table and is not the sender's own client by that table's protocol test |
| McRouting.TargetRecipientsSpec | modules/minecraft/__init__.py:152-184 | a targeted event reaches a client iff the target is for `minecraft` (or names no module), names that client (or none) and the broadcast would reach it |
| McRouting.LogReaderHearsItself | modules/minecraft/__init__.py:134-136 | a log reader is excluded only for a sender speaking `udp`, so an event it sends over another protocol comes back to it |
| RconCodec.PackInt32 | modules/minecraft/rconprotocol.py:131 | a signed 32-bit field packs into four little-endian bytes |
| RconCodec.UnpackInt32 | modules/minecraft/rconprotocol.py:146 | four bytes unpack into a signed 32-bit value |
| RconCodec.UnpackPack | modules/minecraft/rconprotocol.py:131-146 | unpacking a packed field gives the value back |
| RconCodec.Encode | modules/minecraft/rconprotocol.py:130-140 | a frame is fourteen bytes plus the UTF-8 payload, and fails where a field does not fit 32 bits |
| RconCodec.EncodeLayout | modules/minecraft/rconprotocol.py:130-140 | a frame is size, id, type, payload bytes and two NULs, the size counting the ten fixed bytes and the payload |
| RconCodec.DecodeEncode | modules/minecraft/rconprotocol.py:142-151 | decoding an encoded frame gives back its id, type and payload bytes |
| RconCodec.TruncatedFrameIsError | modules/minecraft/rconprotocol.py:145-151 | a frame cut short decodes to the default packet (id -1, type -1, text payload `ERROR`) instead of failing |
| RconProtocol.RconClient.constructor | modules/minecraft/rconprotocol.py:30-48 | a new client starts at id 0 with only the login-failure handler filed under -1 and nothing sent |
| RconProtocol.RconClient.ResetId | modules/minecraft/rconprotocol.py:117-118 | ids start again at 0; the handler table stays consistent only when no request is still waiting |
| RconProtocol.RconClient.SendCmd | modules/minecraft/rconprotocol.py:120-128 | the command goes out under the current id, its handler (if any) is filed under that id and the id moves on; a field outside 32 bits raises before anything changes |
| RconProtocol.RconClient.ConnectionMade | modules/minecraft/rconprotocol.py:50-53 | on connect a type-3 login request carrying the password is sent with the login handler |
| RconProtocol.RconClient.OnLoginFailure | modules/minecraft/rconprotocol.py:93-98 | a reconnect is scheduled only for a type-2 reply |
| RconProtocol.RconClient.OnListUuids | modules/minecraft/rconprotocol.py:100-115 | the reply is only decoded and logged, so its one visible effect is the exception when it is not UTF-8 (or is the default text payload) |
| RconProtocol.RconClient.OnLogin | modules/minecraft/rconprotocol.py:86-91 | a type-2 reply removes the login-failure handler and sends `list uuids` with its handler; other types change nothing |
| RconProtocol.RconClient.Dispatch | modules/minecraft/rconprotocol.py:78-80 | the client ends in the state Dispatched gives for the reply, and the handler table stays consistent |
| RconProtocol.DispatchCases | modules/minecraft/rconprotocol.py:78-115 | a reply with no handler changes nothing; the login-failure handler schedules a reconnect only for type 2; the list handler raises unless the payload decodes; the login handler, on a type-2 reply, drops -1, files the list handler under the next id and sends `list uuids`; each handler that returns is removed |
| RconProtocol.DispatchOneShot | modules/minecraft/rconprotocol.py:78-80 | dispatch keeps the table consistent, and a handler that ran without raising is no longer filed: each request is answered at most once |
| RconProtocol.LoginStepValid | modules/minecraft/rconprotocol.py:86-91 | the login handler keeps the table consistent and files nothing but the list handler under the id it used |
| RconProtocol.RconClient.Retire | modules/minecraft/rconprotocol.py:80 | `del self.rconcallbacks[id]` removes exactly that id, and raises `KeyError` when a handler already removed it |
| RconProtocol.RconClient.DataReceived | modules/minecraft/rconprotocol.py:73-80 | the frame is decoded (a malformed one becoming the default packet with id -1) and the client ends in the state Dispatched gives for it |
| Registry.LoadNamesSpec | core/modules.py:82-90 | after the load loop the registry holds the modules it held, in their places, followed by each newly named module that imports; no name appears twice |
| Registry.ReadConfigCalls | core/modules.py:94-98 | every registered module reads the configuration elements tagged with its name, in registry order |
| Registry.Scheduled | core/modules.py:109-119 | `applyconfig`/`shutdown` schedule exactly one call per registered module, in registry order |
| Registry.Modules.constructor | core/modules.py:27 | the registry starts empty |
| Registry.Modules.GetModule | core/modules.py:102-107 | a module's entry is returned iff it is registered |
| Registry.Modules.LoadMod | core/modules.py:54-77 | a module not yet loaded whose import succeeds is registered last and `modules.<name>` returned; an already loaded name or a failed import changes nothing and returns false |
| Registry.Modules.ReadConfigAll | core/modules.py:79-100 | every named `<module>` element is loaded, then every registered module reads its part of the configuration; the call always succeeds |
| Registry.Modules.LoadEach | core/modules.py:84-90 | the first loop loads each named element in document order, skipping elements without a name |
| Registry.Modules.CallReadConfig | core/modules.py:94-98 | the second loop makes the `readconfig` calls ReadConfigCalls lists |
| Registry.Modules.ApplyConfig | core/modules.py:109-113 | one `applyconfig` is scheduled per registered module, in registry order |
| Registry.Modules.Shutdown | core/modules.py:115-119 | one `shutdown` is scheduled per registered module, in registry order |
| ConfigTable.LoadAllProperties | modules/irc/__init__.py:32-38 | the `for cfg in config` loop of a module's `loadconfig` keeps the entries stored before in their places and adds only names that some element carries and whose entry the parser accepted; no name is stored twice |
| ConfigTable.LoadAllRaises | modules/irc/__init__.py:62 | a load ends with an exception only when the entry parser raises one, and never when it cannot |
| ConfigTable.Table.constructor | modules/irc/__init__.py:26 | a module's `configs` table starts empty |
| ConfigTable.Table.Values | modules/minecraftircwhitelist.py:109-110 | the entries in insertion order |
| ConfigTable.Table.Load | modules/minecraft/__init__.py:32-38 | the loop stores what LoadAll gives, skipping unnamed and duplicate elements |
| Attrs.Converted | core/config.py:98-110 | `int` values go through `int()`, `bool` values are false exactly for `false`/`no`/`0` in any case, and untyped or string values stay text |
| Attrs.Checked | core/config.py:118-125 | a value outside the allowed ones is dropped whatever its type; a regex check of a non-text value raises `TypeError` |
| Attrs.CheckedAsWritten | core/config.py:118-125 | the checks as written raise `TypeError` exactly for a value that is not text and meets a `vals` list it is not in or a `regex`; a value they keep is the value checked |
| Attrs.CheckedAgrees | core/config.py:118-125 | for a text value, or one no `vals` list rejects, the checks as written are the intended ones |
| Attrs.GetAttrsIntOutsideVals | core/config.py:118-121 | `getattrs` on an `int` attribute `2` whose allowed values are `['1']` raises `TypeError` |
| Attrs.IntOutsideValsRaises | core/config.py:118-121 | an `int` attribute with allowed values written as text raises `TypeError` on a value outside them as written, where the intended check drops it |
| Attrs.KeyResult | core/config.py:93-127 | an attribute the specification does not mention is kept as text |
| Attrs.KeyResultOutcomes | core/config.py:93-127 | a specified attribute raises only `TypeError`, and only when it has a `vals` or `regex` check (the checks as written); a kept one holds the converted text, or the default when the text does not convert |
| Attrs.UnspecifiedPassesThrough | core/config.py:93-127 | an attribute the specification does not mention comes out unchanged, as text |
| Attrs.BoolAttribute | core/config.py:106-110 | a `bool` attribute with no further checks is false for `false`, `no` and `0` in any case and true for any other text |
| Attrs.DroppedGetsDefault | core/config.py:129-133 | a specified attribute that was dropped or absent gets its default, or is absent when it has none |
| Attrs.UnconvertibleUsesDefault | core/config.py:111-114 | a value that does not convert falls back to the default, which is then checked like a converted value |
| Attrs.NoneIffRequiredMissing | core/config.py:129-140 | `getattrs` gives `None` exactly when nothing raised and a required key without default is missing |
| Attrs.GetAttrs | core/config.py:90-142 | the two loops compute GetAttrsSpec, with the `vals` and `regex` checks as the source writes them |
| Attrs.ConvertAll | core/config.py:93-127 | the first loop raises iff some attribute's conversion and checks (as written) raise, and otherwise keeps exactly the attributes that pass |
| Attrs.FillDefaults | core/config.py:129-136 | the second loop gives every missing specified key its default and lists the required ones without a default |
| Xml.Tagged | core/modules.py:82 | `findall(tag)` keeps exactly the children with that tag, in document order |
| Xml.TaggedConcat | core/modules.py:82 | taking tagged children distributes over a document split in two |
| Logging.LevelsDistinct | core/logging.py:33-41 | no two level names share a value, so the table can be read both ways |
| Logging.LevelToName | core/logging.py:48-53 | a level value gives the name filed with it, and `NOTSET` for a value not in the table |
| Logging.LevelValue | core/logging.py:87-91 | a name gives its level value exactly when it is in the table |
| Logging.RolloverOf | core/logging.py:99-106 | `midnight` in any case means rotate at midnight, an integer means rotate by size, and anything else means no rotation |
| Logging.OutputOf | core/logging.py:76-111 | an `<output>` element is accepted iff its type is `file`, `stdout` or `stderr` in any case and a file output has a path; it carries the lower-cased type, the named level or INFO, and for files the path and rotation |
| Logging.AcceptedSpec | core/logging.py:76-111 | an output is in the list iff some element gives it; none is invented |
| Logging.LogConfig.constructor | core/logging.py:69 | the list of outputs starts empty |
| Logging.LogConfig.LoadConfig | core/logging.py:71-113 | the accepted outputs are appended in document order and the call always returns true |
| PyInt.Decimal | modules/irc/protocol.py:288 | `str(n)` is one or more digits, exactly one when `n < 10` |
| PyInt.DecimalValue | modules/irc/protocol.py:288 | the digits of `str(n)` read back as `n` |
| PyInt.Pad4Value | modules/irc/protocol.py:288 | `'%04d' % n` has at least four digits and still reads as `n` |
| PyInt.IntRoundTrip | modules/irc/__init__.py:62 | `int(str(i)) == i` for every integer |
| PyInt.StrayCharNoInt | modules/irc/__init__.py:62 | text holding a character that is no digit, underscore, sign or white space is no integer: `int()` raises `ValueError` |
| PyInt.TrimKeeps | modules/irc/__init__.py:62 | trimming removes only white space: every other character of the text survives it |
| Strings.Split | modules/irc/protocol.py:668 | `split` on one character gives at least one piece and no piece holds the separator |
| Strings.JoinSplit | modules/irc/protocol.py:668 | the pieces of a split joined with the separator give the text back |
| Strings.SplitJoin | modules/irc/protocol.py:461 | splitting what was joined gives back the parts, when no part holds the separator |
| Strings.Find | modules/irc/protocol.py:655-660 | `find` gives the first index of the character, or -1 exactly when it is absent |
| Strings.Lower | modules/irc/protocol.py:229 | `lower()` maps each character on its own |
| Strings.NonEmpty | modules/irc/protocol.py:136-137 | the non-empty strings, in order |
| Utf8.Encode | modules/minecraft/rconprotocol.py:133 | `encode('utf-8')` takes one to four bytes per character |
| Utf8.DecodeEncode | modules/minecraft/rconprotocol.py:101 | strict decoding undoes encoding |
| Utf8.EncodeConcat | modules/irc/protocol.py:632 | encoding distributes over concatenation |
| RelayConfig.ChannelNames | modules/minecraftircwhitelist.py:58-64 | the names of the channel elements that have one, in order, lower-cased where the module lower-cases them |
| RelayConfig.IrcToMcEntry | modules/minecraftircwhitelist.py:47-78 | an entry is kept iff the first `<irc>` and the first `<minecraft>` child both carry a `name`; it then holds the entry's name, those two names, and the `name` of each `<channel>` child of `<irc>` that has one, lower-cased, in order; nothing raises |
| RelayConfig.UserRelayEntry | modules/relayirctominecraft/__init__.py:43-66 | an entry is kept iff the first `<irc>` and the first `<minecraft>` child both carry a `name`; it then holds the entry's name and those two names, and no channels; nothing raises |
| RelayConfig.McToIrcEntry | modules/relayminecrafttoirc.py:44-74 | an entry is kept iff the first `<irc>` child carries a `name` and has at least one `<channel>` child and the first `<minecraft>` child carries a `name`; it then holds those names and the channel names as written, nameless channels skipped; nothing raises |
| RelayConfig.EntriesReadBack | modules/minecraftircwhitelist.py:50-78 | an entry written as `<irc name>` with `<channel name>` children and `<minecraft name>` reads back as itself: lower-cased channels for the whitelist and relay filter, no channels for the user relay, unchanged for the Minecraft-to-IRC relay when it has a channel and skipped when it has none |
| RelayConfig.NamelessRejected | modules/minecraftircwhitelist.py:50-76 | an entry whose `<irc>` or `<minecraft>` part has no `name` is skipped by every relay parser, whatever else it holds |
| RelayConfig.ChannelNamesReadBack | modules/minecraftircwhitelist.py:58-64 | the channel names read back from written `<channel>` elements are the names written, lower-cased where the module lower-cases them |
| HandlerLoop.Walk | modules/minecraftircwhitelist.py:109-147 | the `for conf in configs` loop of a handler, with `continue`, `break` and exceptions: the events sent before are never taken back |
| HandlerLoop.RunLoop | modules/relayirctominecraft/__init__.py:97-120 | the loop itself computes Walk |
| HandlerLoop.WalkNext | modules/relayminecrafttoirc.py:105-139 | when every pass goes on, the loop sends the events of every pass in order and raises nothing |
| HandlerLoop.WalkEventsFrom | modules/minecraftircwhitelist.py:109-147 | every event the loop sends comes from a pass over one of the entries |
| Whitelist.LoadConfig | modules/minecraftircwhitelist.py:32-80 | `<whitelist>` entries with a named IRC and Minecraft part are stored after those stored before; nothing raises |
| Whitelist.Handled | modules/minecraftircwhitelist.py:94-105 | only a CHANNEL_MESSAGE from the `irc` module is handled |
| Whitelist.HandleEvent | modules/minecraftircwhitelist.py:94-147 | the handler sends what Handled gives |
| Whitelist.ParseWords | modules/minecraftircwhitelist.py:117-136 | the message's words decide the request, each case iff its condition: not a command, a missing sub-command, a sub-command other than `add`/`remove` in any case, a missing player, or a change carrying sub-command and player as typed |
| Whitelist.SentOnlyForOperators | modules/minecraftircwhitelist.py:110-121 | nothing is sent unless the message is a CHANNEL_MESSAGE starting with `?whitelist` from a channel operator and some entry uses the sender's IRC client |
| Whitelist.ComplaintEndsHandling | modules/minecraftircwhitelist.py:125-136 | a malformed command from an operator draws exactly one complaint in the channel, from the first entry for the client, and ends the handler |
| Whitelist.CommandPerEntry | modules/minecraftircwhitelist.py:138-147 | a well-formed command from an operator, with Minecraft loaded, sends one `whitelist <sub> <player>` RCON command per entry for the client, in order, each to that entry's Minecraft client and carrying the reply route |
| Whitelist.CollectedServing | modules/minecraftircwhitelist.py:109-147 | the passes of a well-formed command send exactly the RCON commands of the entries for the client |
| Whitelist.Requests | modules/minecraftircwhitelist.py:144-147 | one RCON command per entry, in order |
| Whitelist.Reply | modules/minecraftircwhitelist.py:149-158 | the reply callback sends at most one line back to the IRC client |
| Whitelist.ReplyRelaysAnswer | modules/minecraftircwhitelist.py:154-158 | the server's answer is relayed to the channel as it was encoded, and only when it is not empty |
| RelayIrcToMc.LoadConfig | modules/relayirctominecraft.py:32-77 | `<relay>` entries with a named IRC and Minecraft part are stored with their lower-cased channel names after those stored before; nothing raises |
| RelayIrcToMc.Handled | modules/relayirctominecraft.py:91-101 | only CHANNEL_MESSAGE and CHANNEL_ACTION from the `irc` module are handled |
| RelayIrcToMc.HandleEvent | modules/relayirctominecraft.py:91-139 | the handler sends what Handled gives |
| RelayIrcToMc.Accepting | modules/relayirctominecraft.py:108-113 | the entries for the sender's IRC client whose channel list is empty or holds the lower-cased target, in order |
| RelayIrcToMc.ListRequests | modules/relayirctominecraft.py:119-125 | one `list` RCON command per entry, in order |
| RelayIrcToMc.PlayersPerEntry | modules/relayirctominecraft.py:105-125 | a message whose first word is `?players` sends one `list` command per accepting entry, in order, to that entry's Minecraft client, when Minecraft is loaded; any other message sends nothing; the handler never raises |
| RelayIrcToMc.CollectedAccepting | modules/relayirctominecraft.py:105-139 | the passes send exactly the list commands of the accepting entries |
| RelayIrcToMc.Digits | modules/relayirctominecraft.py:30 | `\d+` takes the longest run of digits |
| RelayIrcToMc.AfterHeader | modules/relayirctominecraft.py:30 | the text after the `header` group is a suffix of the answer |
| RelayIrcToMc.ListMatch | modules/relayirctominecraft.py:30 | a matched `list` group holds no newline |
| RelayIrcToMc.AfterHeaderOf | modules/relayirctominecraft.py:30 | the header pattern matches any text starting with `There are <n> of a max of <m> players online:` and leaves the rest |
| RelayIrcToMc.ListMatchOf | modules/relayirctominecraft.py:30 | `header + ' ' + names` is matched as that header and those names |
| RelayIrcToMc.SpaceThenList | modules/relayirctominecraft.py:30 | the single optional space after the header is not part of the list |
| RelayIrcToMc.BrokenListIgnored | modules/relayirctominecraft.py:30 | an answer with a line break inside the list does not match |
| RelayIrcToMc.ListAnswer | modules/relayirctominecraft.py:141-159 | the list callback posts at most two lines |
| RelayIrcToMc.ListAnswerPosts | modules/relayirctominecraft.py:147-157 | the server's answer is posted back as the header line followed by the names line when there are names |
| RelayParts.SchemeAt | modules/relayirctominecraft.py:134 | `https?://` is matched at the start exactly when the text starts with `http://` or `https://` and a non-white-space character follows |
| RelayParts.NextUrl | modules/relayirctominecraft.py:134 | the leftmost URL match from a position, or the end |
| RelayParts.NextUrlLeftmost | modules/relayirctominecraft.py:134 | no URL starts before the match found |
| RelayParts.SegmentsConcat | modules/relayirctominecraft.py:134 | the pieces `re.split` gives, empty ones filtered out, laid end to end give the message back |
| RelayParts.SegmentsNonEmpty | modules/relayirctominecraft.py:134 | no piece is empty |
| RelayParts.Match | modules/relayirctominecraft.py:134 | the leftmost URL match starts with `http://` or `https://` and takes the whole run of characters up to the next white space or the end |
| RelayParts.Run | modules/relayirctominecraft.py:134 | `[^\s]+` takes the longest run of characters that are not white space |
| RelayParts.UrlPieceStartsWithScheme | modules/relayirctominecraft.py:134-136 | every URL the pattern matches is a piece of its own and is made a clickable link |
| RelayParts.Parts | modules/relayirctominecraft/__init__.py:103-114 | the parts list starts with `[IRC] ` and `<name> ` (or `* name ` for an action), followed by the classified pieces |
| RelayParts.PartsShowMessage | modules/relayirctominecraft/__init__.py:110-114 | after the tag and the sender, the parts show the message exactly, and every link part starts with a scheme |
| RelayParts.ShownClassified | modules/relayirctominecraft/__init__.py:111-114 | classifying pieces as text or links changes nothing a player reads |
| RelayParts.SchemeWithoutUrlIsLinked | modules/relayirctominecraft/__init__.py:111 | a bare `http://` followed by a space is not matched as a URL, yet its piece starts with the scheme and is turned into a link anyway |
| RelayUser.LoadConfig | modules/relayirctominecraft/__init__.py:30-69 | `<relay>` entries with a named IRC and Minecraft part are stored after those stored before; nothing raises |
| RelayUser.Handled | modules/relayirctominecraft/__init__.py:83-93 | only USER_MESSAGE and USER_ACTION from the `irc` module are handled |
| RelayUser.HandleEvent | modules/relayirctominecraft/__init__.py:83-120 | the handler sends what Handled gives |
| RelayConfig.ForIrc | modules/relayirctominecraft/__init__.py:100-101 | exactly the entries for the sender's IRC client, in their order |
| RelayUser.TellRequests | modules/relayirctominecraft/__init__.py:117-120 | one `tellraw` command per entry, in order |
| RelayUser.CollectedServing | modules/relayirctominecraft/__init__.py:97-120 | the passes send exactly the tellraw commands of the entries for the client |
| RelayUser.OneCommandPerEntry | modules/relayirctominecraft/__init__.py:97-120 | each entry for the sender's client gets one `tellraw @a` command, in order, to its Minecraft client; its parts start with `[IRC] ` and the sender in message or action form, and the rest shows the message exactly |
| RelayMcToIrc.LoadConfig | modules/relayminecrafttoirc.py:30-77 | `<relay>` entries with a named IRC part holding channels and a named Minecraft part are stored, channel names as written, after those stored before; nothing raises |
| RelayMcToIrc.RelayText | modules/relayminecrafttoirc.py:119-135 | the line for one of the seven relayed kinds is built exactly when the data holds the keys that kind reads, and otherwise raises `KeyError` |
| RelayMcToIrc.RefusedConnectionText | modules/relayminecrafttoirc.py:134-135 | a refused connection is reported with the address and the player name |
| RelayMcToIrc.ChannelLines | modules/relayminecrafttoirc.py:137-139 | one `PRIVMSG <chan> :<text>` per configured channel, in the order of the channels |
| RelayMcToIrc.Handled | modules/relayminecrafttoirc.py:95-109 | only the seven relayed kinds from the `minecraft` module are handled |
| RelayMcToIrc.HandleEvent | modules/relayminecrafttoirc.py:91-139 | the two nested loops send what Handled gives |
| RelayMcToIrc.PostToChannels | modules/relayminecrafttoirc.py:137-139 | the inner loop appends one line per channel of the entry |
| RelayMcToIrc.Serving | modules/relayminecrafttoirc.py:116-117 | the entries for the sending Minecraft client, in order |
| RelayMcToIrc.CollectedServing | modules/relayminecrafttoirc.py:113-139 | with every key present, the passes send exactly the channel lines of the entries for the server |
| RelayMcToIrc.LinePerChannel | modules/relayminecrafttoirc.py:113-139 | with every key present, the text goes to every channel of every entry for the server, entry by entry and channel by channel, each to that entry's IRC client, and nothing raises |
| RelayMcToIrc.MissingKeyRaises | modules/relayminecrafttoirc.py:122-135 | a key missing from the data raises `KeyError` at the first entry for the server, before anything is posted; with no entry for it nothing happens |
| McVersion.VersionEntry | modules/minecraftversion.py:47-85 | an entry is kept iff the first `<irc>` child carries a `name` and the first `<minecraft>` child carries a `name` and a `jarfile` that exists; it then holds those names, the lower-cased channel names, that `jarfile` path, and an empty cache |
| McVersion.VersionEntryReadsBack | modules/minecraftversion.py:47-85 | a relay entry whose `<minecraft>` part also names a jar file reads back with its lower-cased channels, that jar and an empty cache when the jar exists, and is skipped when it does not |
| McVersion.LoadConfig | modules/minecraftversion.py:32-87 | the kept entries are stored after those stored before; nothing raises |
| McVersion.Handled | modules/minecraftversion.py:101-112 | only a CHANNEL_MESSAGE from the `irc` module is handled; otherwise nothing is sent and the cache is untouched; the cache age is judged with `.seconds` as written |
| McVersion.Walk | modules/minecraftversion.py:116-162 | the loop over the entries updates each entry's cache in place, refreshing it when the `.seconds` test as written finds it stale, and never adds or removes an entry |
| McVersion.HandleEvent | modules/minecraftversion.py:101-162 | the handler sends what Handled gives and leaves in the table the cache Handled gives (staleness judged as written), keeping the entries and their order |
| McVersion.RepliesToSender | modules/minecraftversion.py:128-162 | every reply goes as an IRC_SENDCMD from this module to the IRC client that saw the command |
| McVersion.LookupOnlyWhenStale | modules/minecraftversion.py:135-140 | a cache that the `.seconds` test as written finds fresh is answered without consulting the jar or the manifest; a stale one is refreshed from both and stamped with the current time |
| McVersion.CacheReused | modules/minecraftversion.py:135-140 | within five minutes of a lookup a second query is answered from the cache and leaves the entry as it is |
| McVersion.ReplyCount | modules/minecraftversion.py:142-162 | a missing jar or release version draws one complaint and ends the handler; `?snapshot` raises exactly when no snapshot is known; otherwise one line, or two when the server is behind the latest release |
| McVersion.StaleAsWritten | modules/minecraftversion.py:135 | the staleness test as written reads only the seconds-within-a-day part of the elapsed time |
| McVersion.Stale | modules/minecraftversion.py:135 | the staleness test as intended: more than five minutes have passed since the lookup |
| McVersion.StaleMonotone | modules/minecraftversion.py:135 | once stale, an entry stays stale as time goes on, and it is fresh for five minutes after a lookup |
| McVersion.FreshAfterLookupAsWritten | modules/minecraftversion.py:135 | for five minutes after a lookup both the test as written and the intended test find the cache fresh |
| McVersion.DayOldCacheServed | modules/minecraftversion.py:135-140 | a query a day and 100 seconds after a lookup is answered from the cache, leaving the entry as it is, although the intended test finds it stale |
| McVersion.DayOldCacheKeptAsWritten | modules/minecraftversion.py:135 | a day and a bit after a lookup the test as written still takes the cache to be fresh, where the intended test finds it stale |
| McVersion.AsWrittenNotMonotone | modules/minecraftversion.py:135 | under the test as written an entry stale six minutes after a lookup is fresh again a day later |
| IrcClient.FreshTableOk | modules/irc/protocol.py:49 | the channel table built from the configuration is in shape and holds each configured channel, not joined, under its lower-cased name |
| IrcClient.Untimed | modules/irc/protocol.py:152-157 | cancelling the timers keeps every channel and leaves none with a rejoin timer |
| IrcClient.UntimedKept | modules/irc/protocol.py:152-157 | cancelling the rejoin timers keeps the channel table in shape |
| IrcClient.Client.CancelJoinTimers | modules/irc/protocol.py:152-157 | every channel's rejoin timer is cancelled and nothing else about the channels changes |
| IrcClient.Client.SendJoins | modules/irc/protocol.py:564-602 | the keyless JOIN lines go out first, then the keyed ones |
| IrcClient.Client.Perform | modules/irc/protocol.py:217-225 | on the first 005 every channel is marked not joined, so every channel is then pending and sent a JOIN, and the fact is remembered |
| IrcClient.Client.DropMember | modules/irc/protocol.py:390-391 | `del users[who]` removes exactly that member from that channel, and raises `KeyError` when the channel has no roster or the roster does not list them |
| IrcClient.Client.HandleLine | modules/irc/protocol.py:137-143 | one non-empty line is handled and recorded, and the keepalive state is untouched |
| IrcIsupport.ApplyTokensStops | modules/irc/protocol.py:192-215 | once a token has raised, the tokens after it are never applied |
| IrcJoin.UnkeyedLinesAt | modules/irc/protocol.py:564-579 | the i-th unkeyed JOIN line is the line for the i-th group |
| IrcJoin.KeyedLinesAt | modules/irc/protocol.py:582-599 | the i-th keyed JOIN line is the line for the i-th group |
| IrcJoin.NothingToJoin | modules/irc/protocol.py:561-562 | with nothing pending no JOIN line is sent |
| IrcCodec.Cut | modules/irc/protocol.py:655-660 | the text is cut at the first occurrence of the character, which the front does not hold; without one the whole text is the front |
| IrcRoster.Apply | modules/irc/protocol.py:298-300 | each roster update, NICK as the source writes it, keeps the roster well formed, or raises |
| IrcRoster.Without | modules/irc/protocol.py:391 | the order without one nick keeps every other nick once |
| Logging.Lookup | core/logging.py:87-91 | a name is found exactly when the table lists it, and then with the value filed first under it |
| PyInt.ParseDecimal | modules/irc/__init__.py:62 | `int(str(n)) == n` for every natural number |
| PyInt.ParseNegative | modules/irc/__init__.py:62 | `int('-' + str(n)) == -n` for every natural number |
| PyInt.TrimLeft | modules/irc/__init__.py:62 | `int()` ignores leading white space (every character `str.isspace()` accepts): what is left does not start with one |
| PyInt.TrimRight | modules/irc/__init__.py:62 | `int()` ignores trailing white space (every character `str.isspace()` accepts): what is left does not end with one |
| PyInt.DropUnderscores | modules/irc/__init__.py:62 | the digit separators `int()` accepts are dropped, leaving only digits |
| RelayIrcToMc.Strip | modules/relayirctominecraft.py:30 | a literal part of the pattern leaves a suffix of the text |
| RelayIrcToMc.Number | modules/relayirctominecraft.py:30 | `\d+` consumes at least one character and leaves a suffix of the text |
| RelayIrcToMc.Groups | modules/relayirctominecraft.py:30 | a matched `list` group holds no newline |
| RelayIrcToMc.GroupsOfSpace | modules/relayirctominecraft.py:30 | after the header, one space and a newline-free list are read as that list |
| RelayIrcToMc.SpaceThenBrokenList | modules/relayirctominecraft.py:30 | an answer whose list is broken by a newline does not match at all |
| Whitelist.BodyChange | modules/minecraftircwhitelist.py:138-147 | one pass over an entry for a change by an operator sends the RCON command when the entry is for the sending client, nothing otherwise, and goes on |
| Whitelist.WalkSkip | modules/minecraftircwhitelist.py:109-147 | entries whose pass sends nothing and goes on can be skipped |
| Strings.Upper | modules/irc/protocol.py:497-506 | `upper()` maps each character on its own and keeps the length |
| Strings.SplitConcat | modules/irc/protocol.py:668 | splitting at a separator splits the two sides independently |
| Strings.NonEmptyConcat | modules/irc/protocol.py:136-137 | dropping empty lines distributes over concatenation |
| Utf8.DecodeFirstEncodeChar | modules/minecraft/rconprotocol.py:143-151 | the strict decoder reads back the first character of an encoding and its length |

## Left out

- Sockets, `asyncio` transports, `create_connection` and reconnect scheduling. The IRC and RCON clients write to an outbox. A scheduled timer is a flag or a counter (`pingTimer`, `joinTimer`, `rejoinPending`, `reconnects`).
- `connection_lost`, `eof_received`, process start-up, daemonising, signals and the event loop: I/O and concurrency plumbing with no decision logic.
- The log-file and UDP readers (`modules/minecraft/logprotocol.py`, `modules/minecraft/udpprotocol.py`): I/O around one regex whose handler is not part of this model.
- Every logging call, the logging handlers and formatters, and file rotation (`applyconfig`, `init_logging`): `applyconfig` and `shutdown` of the registry are modelled only as the calls they schedule.
- `importlib.import_module` is an oracle parameter: it succeeds, finds no `Module` class, or fails.
- `zipfile`, `urllib.request` and JSON parsing in the version module are oracle parameters (`jarVersion`, `latest`). The clock is one reading passed in as `now`.
- `json.dumps` of the `tellraw` component list: the list is modelled as `Part` values (text or link), not as JSON text.
- `TYPE_FLOAT` conversion in `getattrs`: floating point. The conversion is a parameter (`toFloat`).
- The regular expressions (`\d`, `\s`, the `list` answer pattern, `https?://[^\s]+`) are written out by hand over ASCII digits and the characters Python's `\s` matches (the `str.isspace()` set). `lower()` and `upper()` are modelled for ASCII letters only.
- XML elements are lists of attribute maps with their child elements. Minecraft event data is a map from strings to strings.
- `modules/relayirctominecraft.py` builds the `tellraw` parts but never sends them, and the package `modules/relayirctominecraft/__init__.py` shadows that file on import. The model keeps the parts and sends from the package.
- `MCRConProtocol` has no `handle_event` method. Any event that the Minecraft package hands to an RCON client, broadcast (modules/minecraft/__init__.py:146-150) or targeted (modules/minecraft/__init__.py:178-184, the path the handlers' `RCON_SENDCMD` takes), therefore raises `AttributeError` in the code. The model stops at the recipient choice.
- The IRC line loop records the raw lines it handed on (`received`). Each handler's effect is stated on the handler itself.
- PyInt.ParseInt: accepts ASCII digits only. Python's `int()` also accepts the other Unicode decimal digits (category Nd, such as Arabic-Indic or full-width digits), which the model rejects as not a number. White space is the full `str.isspace()` set.
- IrcClient.Client.constructor: models the first connection only. The source shares `config['channels']` and `config['user']` with the client (modules/irc/protocol.py:48-50), so a client built for a reconnect (modules/irc/protocol.py:123-124, 712-716) starts with the channel table, nick and collision count the previous one left; the model always starts from the configuration as loaded.
- IrcClient.Client.HandleLine: states that the line is recorded and the keepalive state kept, not what the handler for the line's command does; that effect is stated on each handler's own method.
- IrcClient.Client.DataReceived: states the decoding, the line split and which lines were handled, not the combined effect of their handlers.
- Attrs.KeyResult: its own contract states only the case of an attribute the specification does not mention; KeyResultOutcomes, UnconvertibleUsesDefault and the checks' own contracts state the rest.
- IrcRoster.Apply: its own contract states only that the roster stays well formed; ApplyEffect and ApplyFails state what each update does.
- IrcClient.Client.Dispatch: states the routing by command and that an unhandled command changes nothing. What each handler does is stated on that handler's own method.
- IrcClient.Client.ParseAndDispatch: states only that the client stays well formed, because its effect is that of Dispatch on the parsed message.
- IrcClient.Client.HandleLines: states which lines were handled and that the keepalive state is kept, not the combined effect of all their handlers.
- RconProtocol.DispatchWith: takes the decode result and the `list uuids` frame as parameters; `Dispatched` supplies the real ones.
- RconProtocol.RconClient.OnListUuids: the reply is only logged, so the model keeps only the exception raised for a payload that is not UTF-8.

## Findings

The handlers follow the code as written. Each corrected member is a reference definition, and the lemmas named beside it relate it to the code as written.

| source | as written | input that shows it | evidently intended | confidence | as-written member | corrected member |
|---|---|---|---|---|---|---|
| modules/irc/protocol.py:402-406 | `m_nick` stores the member under the lower-cased new nick, then deletes the entry under the old lower-cased nick | a member `bob` renaming to `Bob`: both keys are `bob`, so the member is deleted | the member is kept under its key with the new display nick | not executed | IrcRoster.RenamedAsWritten, IrcRoster.CaseChangeDropsMember, IrcRoster.ApplyEffect | IrcRoster.Renamed, IrcRoster.RenamedAgrees |
| core/config.py:118-121 | when a converted `int`/`bool` value is not in `vals`, the log message concatenates it to a string | an `int` attribute `2` with `vals` `['1']` raises `TypeError` instead of being dropped | the value is dropped, as for a string | not executed | Attrs.CheckedAsWritten, Attrs.IntOutsideValsRaises, Attrs.GetAttrsIntOutsideVals | Attrs.Checked, Attrs.CheckedAgrees |
| modules/minecraftversion.py:135 | the cache age is read with `timedelta.seconds`, the seconds within the last day | a lookup a day and 100 seconds old counts as fresh; one 6 minutes old is stale but fresh again a day later | `total_seconds() > 300`: stale more than five minutes after a lookup, and stale from then on | not executed | McVersion.StaleAsWritten, McVersion.DayOldCacheKeptAsWritten, McVersion.AsWrittenNotMonotone, McVersion.DayOldCacheServed | McVersion.Stale, McVersion.StaleMonotone |
