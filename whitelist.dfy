/** modules/minecraftircwhitelist.py: `?whitelist add|remove <player>` typed
    by a channel operator on IRC becomes a `whitelist` RCON command on the
    linked Minecraft server, and the server's answer is relayed back to the
    channel. */
module Whitelist {
  import opened Strings
  import opened PyErrors
  import opened Xml
  import opened Bus
  import Utf8
  import opened RconCodec
  import opened ConfigTable
  import opened IrcClient
  import opened RelayConfig
  import opened HandlerLoop

  /** The name the module sends its own events under. */
  const ModuleName := "minecraftircwhitelist"

  /** `loadconfig(config, module)`: the `<whitelist>` entries with an IRC and
      a Minecraft name are stored; nothing raises. */
  method LoadConfig(configs: Table<RelayConf>, config: seq<Element>) returns (raised: Option<PyError>)
    requires configs.Valid()
    modifies configs
    ensures configs.Valid()
    ensures (configs.names, configs.confs, raised) == LoadAll(old(configs.names), old(configs.confs), config, IrcToMcEntry)
    ensures raised == None
  {
    LoadAllRaises(configs.names, configs.confs, config, IrcToMcEntry, {});
    raised := configs.Load(config, IrcToMcEntry);
  }

  /** What the space-separated words of a message ask for. */
  datatype Request = NotCommand | MissingSub | BadSub | MissingParam | Change(sub: string, player: string)

  /** The word checks of `handle_event`, in the order it makes them. */
  function Parse(message: string): Request
  {
    var w := Split(message, ' ');
    if w[0] != "?whitelist" then NotCommand
    else if |w| < 2 then MissingSub
    else if Lower(w[1]) != "add" && Lower(w[1]) != "remove" then BadSub
    else if |w| < 3 then MissingParam
    else Change(w[1], w[2])
  }

  /** The text of the reply to a malformed command. */
  function Complaint(r: Request): string
  {
    match r
    case MissingSub => "Whitelist: Missing sub command (add or remove)"
    case BadSub => "Whitelist: Invalid sub command, must be add or remove"
    case MissingParam => "Whitelist: Missing sub command parameter"
    case _ => ""
  }

  /** The `RCON_SENDCMD` event for a well-formed command, with the reply
      callback bound to the IRC client and channel it came from. */
  function RconRequest(c: RelayConf, sender: string, ircTarget: string, sub: string, player: string): BusEvent
  {
    BusEvent(To("minecraft", c.minecraft), "irc", sender, "whitelist", "RCON_SENDCMD",
      Line("whitelist " + sub + " " + player, Some(WhitelistReply(c.minecraft, To("irc", sender), ircTarget))))
  }

  /** One pass of the loop body of `handle_event` over entry `c`. The IRC
      client always sets `modes` (empty when the sender is not listed), so
      the `KeyError` branch for an event without it is unreachable from
      that client; it covers events from any other sender. */
  function Body(c: RelayConf, sender: string, evt: IrcEvent, minecraftLoaded: bool): Outcome<Step>
  {
    if c.irc != sender then Ok(Next([]))
    else if c.channels != [] && Lower(evt.target) !in c.channels then Ok(Stop([]))
    else
      var req := Parse(evt.message);
      if req.NotCommand? then Ok(Stop([]))
      else if evt.modes.None? then Raised(KeyError)
      else if 'o' !in evt.modes.value then Ok(Stop([]))
      else if req.Change? then
        if minecraftLoaded then Ok(Next([RconRequest(c, sender, evt.target, req.sub, req.player)]))
        else Ok(Next([]))
      else Ok(Stop([IrcCommand(sender, ModuleName, c.name, "whitelist", "PRIVMSG " + evt.target + " :" + Complaint(req))]))
  }

  /** What `handle_event` sends for an event, `entries` being the values of
      `configs` in insertion order and `minecraftLoaded` whether
      `getmodule('minecraft')` finds the module. */
  function Handled(moduleName: string, sender: string, event: string, evt: IrcEvent,
                   entries: seq<RelayConf>, minecraftLoaded: bool): (r: Emitted)
    ensures moduleName != "irc" || event != "CHANNEL_MESSAGE" ==> r == Emitted([], None)
  {
    if moduleName != "irc" || event != "CHANNEL_MESSAGE" then Emitted([], None)
    else Walk(entries, c => Body(c, sender, evt, minecraftLoaded), [])
  }

  /** `handle_event(loop, module, sender, protocol, event, data)`. */
  method HandleEvent(moduleName: string, sender: string, event: string, evt: IrcEvent,
                     entries: seq<RelayConf>, minecraftLoaded: bool) returns (r: Emitted)
    ensures r == Handled(moduleName, sender, event, evt, entries, minecraftLoaded)
  {
    if moduleName != "irc" || event != "CHANNEL_MESSAGE" {
      return Emitted([], None);
    }
    r := RunLoop(entries, c => Body(c, sender, evt, minecraftLoaded));
  }

  /** The words of a message decide the request: a command word, a
      sub-command that is `add` or `remove` in any case, and a player name. */
  lemma ParseWords(words: seq<string>)
    requires |words| >= 1 && forall i :: 0 <= i < |words| ==> ' ' !in words[i]
    ensures var r := Parse(JoinWith(words, " "));
      && (words[0] != "?whitelist" <==> r == NotCommand)
      && (words[0] == "?whitelist" && |words| == 1 <==> r == MissingSub)
      && (words[0] == "?whitelist" && |words| >= 2 && Lower(words[1]) !in {"add", "remove"} <==> r == BadSub)
      && (words[0] == "?whitelist" && |words| == 2 && Lower(words[1]) in {"add", "remove"} <==> r == MissingParam)
      && (words[0] == "?whitelist" && |words| >= 3 && Lower(words[1]) in {"add", "remove"} <==> r.Change?)
      && (r.Change? ==> |words| >= 3 && r == Change(words[1], words[2]))
  {
    SplitJoin(words, ' ');
  }

  /** Nothing is sent unless the message starts with `?whitelist`, the
      sender is a channel operator and some entry uses that IRC client. */
  lemma SentOnlyForOperators(moduleName: string, sender: string, event: string, evt: IrcEvent,
                             entries: seq<RelayConf>, minecraftLoaded: bool)
    requires Handled(moduleName, sender, event, evt, entries, minecraftLoaded).events != []
    ensures moduleName == "irc" && event == "CHANNEL_MESSAGE"
    ensures Split(evt.message, ' ')[0] == "?whitelist"
    ensures evt.modes.Some? && 'o' in evt.modes.value
    ensures exists c :: c in entries && c.irc == sender
  {
    var body := c => Body(c, sender, evt, minecraftLoaded);
    var r := Handled(moduleName, sender, event, evt, entries, minecraftLoaded);
    WalkEventsFrom(entries, body, []);
    var e := r.events[0];
    assert e in r.events;
    var c :| c in entries && body(c).Ok? && e in body(c).value.out;
  }

  /** A malformed command from an operator draws exactly one complaint, from
      the first entry for the IRC client, and ends the handler. */
  lemma ComplaintEndsHandling(sender: string, evt: IrcEvent, entries: seq<RelayConf>, minecraftLoaded: bool, i: nat)
    requires i < |entries| && entries[i].irc == sender
    requires forall j :: 0 <= j < i ==> entries[j].irc != sender
    requires entries[i].channels == [] || Lower(evt.target) in entries[i].channels
    requires Parse(evt.message) in {MissingSub, BadSub, MissingParam}
    requires evt.modes.Some? && 'o' in evt.modes.value
    ensures Handled("irc", sender, "CHANNEL_MESSAGE", evt, entries, minecraftLoaded)
      == Emitted([IrcCommand(sender, ModuleName, entries[i].name, "whitelist",
                             "PRIVMSG " + evt.target + " :" + Complaint(Parse(evt.message)))], None)
  {
    var body := c => Body(c, sender, evt, minecraftLoaded);
    WalkSkip(entries, body, i);
  }

  /** Entries whose pass sends nothing and goes on can be skipped. */
  lemma {:induction false} WalkSkip(entries: seq<RelayConf>, body: RelayConf -> Outcome<Step>, i: nat)
    requires i <= |entries|
    requires forall j :: 0 <= j < i ==> body(entries[j]) == Ok(Next([]))
    ensures Walk(entries, body, []) == Walk(entries[i..], body, [])
    decreases i
  {
    if i > 0 {
      assert body(entries[0]) == Ok(Next([]));
      WalkSkip(entries[1..], body, i - 1);
      assert entries[1..][i - 1..] == entries[i..];
    }
  }

  /** A well-formed command from an operator, with the Minecraft module
      loaded and every entry for the client accepting the channel, sends one
      RCON `whitelist` command per entry for the client, in order. */
  lemma CommandPerEntry(sender: string, evt: IrcEvent, entries: seq<RelayConf>)
    requires Parse(evt.message).Change?
    requires evt.modes.Some? && 'o' in evt.modes.value
    requires forall c :: c in entries && c.irc == sender ==> c.channels == [] || Lower(evt.target) in c.channels
    ensures var req := Parse(evt.message);
      var s := ForIrc(entries, sender);
      Handled("irc", sender, "CHANNEL_MESSAGE", evt, entries, true)
        == Emitted(Requests(s, sender, evt.target, req.sub, req.player), None)
  {
    var body := c => Body(c, sender, evt, true);
    WalkNext(entries, body, []);
    CollectedServing(sender, evt, entries);
  }

  /** One RCON command per entry of `s`, in order. */
  function Requests(s: seq<RelayConf>, sender: string, ircTarget: string, sub: string, player: string): (r: seq<BusEvent>)
    ensures |r| == |s|
    ensures forall k :: 0 <= k < |s| ==> r[k] == RconRequest(s[k], sender, ircTarget, sub, player)
    decreases |s|
  {
    if s == [] then [] else [RconRequest(s[0], sender, ircTarget, sub, player)] + Requests(s[1..], sender, ircTarget, sub, player)
  }

  lemma {:induction false} CollectedServing(sender: string, evt: IrcEvent, entries: seq<RelayConf>)
    requires Parse(evt.message).Change?
    requires evt.modes.Some? && 'o' in evt.modes.value
    requires forall c :: c in entries && c.irc == sender ==> c.channels == [] || Lower(evt.target) in c.channels
    ensures var req := Parse(evt.message);
      Collected(entries, c => Body(c, sender, evt, true))
        == Requests(ForIrc(entries, sender), sender, evt.target, req.sub, req.player)
    decreases |entries|
  {
    if entries != [] {
      var req := Parse(evt.message);
      var c0 := entries[0];
      assert c0 in entries;
      assert forall c :: c in entries[1..] ==> c in entries;
      CollectedServing(sender, evt, entries[1..]);
      BodyChange(c0, sender, evt);
      var head := if c0.irc == sender then [c0] else [];
      assert ForIrc(entries, sender) == head + ForIrc(entries[1..], sender);
      RequestsAppend(head, ForIrc(entries[1..], sender), sender, evt.target, req.sub, req.player);
    }
  }

  /** A pass over one entry for a change by an operator: a request when the
      entry is for the sending client, nothing otherwise, and on to the next. */
  lemma BodyChange(c: RelayConf, sender: string, evt: IrcEvent)
    requires Parse(evt.message).Change?
    requires evt.modes.Some? && 'o' in evt.modes.value
    requires c.irc == sender ==> c.channels == [] || Lower(evt.target) in c.channels
    ensures var req := Parse(evt.message);
      Body(c, sender, evt, true)
        == Ok(Next(if c.irc == sender then [RconRequest(c, sender, evt.target, req.sub, req.player)] else []))
  {
  }

  lemma {:induction false} RequestsAppend(a: seq<RelayConf>, b: seq<RelayConf>, sender: string, ircTarget: string, sub: string, player: string)
    ensures Requests(a + b, sender, ircTarget, sub, player) == Requests(a, sender, ircTarget, sub, player) + Requests(b, sender, ircTarget, sub, player)
  {
  }

  /** `_rcon_whitelist_reply`: the server's answer, when there is one, goes
      to the channel the command came from, sent on behalf of the Minecraft
      client. The default packet's text payload has no `decode`. */
  function Reply(source: string, replyTo: Target, ircTarget: string, pkt: Packet): (r: Outcome<seq<BusEvent>>)
    ensures r.Ok? ==> |r.value| <= 1
  {
    if pkt.payload.ErrorText? then Raised(AttributeError)
    else match Utf8.Decode(pkt.payload.bytes)
      case None => Raised(UnicodeDecodeError)
      case Some(text) =>
        if text == "" then Ok([])
        else Ok([BusEvent(replyTo, "minecraft", source, "whitelist", "IRC_SENDCMD", Line("PRIVMSG " + ircTarget + " :" + text, None))])
  }

  /** The answer the server encoded is relayed as it was, and only when it
      is not empty. */
  lemma ReplyRelaysAnswer(source: string, replyTo: Target, ircTarget: string, id: int, ptype: int, answer: string)
    ensures Reply(source, replyTo, ircTarget, Packet(id, ptype, Raw(Utf8.Encode(answer))))
      == Ok(if answer == "" then []
            else [BusEvent(replyTo, "minecraft", source, "whitelist", "IRC_SENDCMD", Line("PRIVMSG " + ircTarget + " :" + answer, None))])
  {
    Utf8.DecodeEncode(answer);
  }
}
