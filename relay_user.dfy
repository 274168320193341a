/** modules/relayirctominecraft/__init__.py, the package Python imports for
    `relayirctominecraft` ahead of the module file of the same name: private
    messages and actions sent to an IRC client are shown to every player of
    each Minecraft server linked to that client, as a `tellraw @a` command. */
module RelayUser {
  import opened Strings
  import opened PyErrors
  import opened Xml
  import opened Bus
  import opened ConfigTable
  import opened IrcClient
  import opened RelayConfig
  import opened RelayParts
  import opened HandlerLoop

  /** `loadconfig(config, module)`: the `<relay>` entries with an IRC and a
      Minecraft name are stored; nothing raises. */
  method LoadConfig(configs: Table<RelayConf>, config: seq<Element>) returns (raised: Option<PyError>)
    requires configs.Valid()
    modifies configs
    ensures configs.Valid()
    ensures (configs.names, configs.confs, raised) == LoadAll(old(configs.names), old(configs.confs), config, UserRelayEntry)
    ensures raised == None
  {
    LoadAllRaises(configs.names, configs.confs, config, UserRelayEntry, {});
    raised := configs.Load(config, UserRelayEntry);
  }

  /** The `RCON_SENDCMD` event showing the message to the players of the
      entry's server. */
  function TellRequest(c: RelayConf, sender: string, action: bool, evt: IrcEvent): BusEvent
  {
    BusEvent(To("minecraft", c.minecraft), "irc", sender, "relay", "RCON_SENDCMD",
      TellRaw(Parts(action, evt.name, evt.message)))
  }

  /** One pass of the loop body of `handle_event` over entry `c`. */
  function Body(c: RelayConf, sender: string, action: bool, evt: IrcEvent): Outcome<Step>
  {
    if c.irc != sender then Ok(Next([])) else Ok(Next([TellRequest(c, sender, action, evt)]))
  }

  /** What `handle_event` sends for an event, `entries` being the values of
      `configs` in insertion order. */
  function Handled(moduleName: string, sender: string, event: string, evt: IrcEvent, entries: seq<RelayConf>): (r: Emitted)
    ensures moduleName != "irc" || event !in {"USER_MESSAGE", "USER_ACTION"} ==> r == Emitted([], None)
  {
    if moduleName != "irc" || event !in {"USER_MESSAGE", "USER_ACTION"} then Emitted([], None)
    else Walk(entries, c => Body(c, sender, event == "USER_ACTION", evt), [])
  }

  /** `handle_event(loop, module, sender, protocol, event, data)`. */
  method HandleEvent(moduleName: string, sender: string, event: string, evt: IrcEvent, entries: seq<RelayConf>) returns (r: Emitted)
    ensures r == Handled(moduleName, sender, event, evt, entries)
  {
    if moduleName != "irc" || event !in {"USER_MESSAGE", "USER_ACTION"} {
      return Emitted([], None);
    }
    r := RunLoop(entries, c => Body(c, sender, event == "USER_ACTION", evt));
  }

  /** One `tellraw` command per entry of `s`, in order. */
  function TellRequests(s: seq<RelayConf>, sender: string, action: bool, evt: IrcEvent): (r: seq<BusEvent>)
    ensures |r| == |s|
    ensures forall k :: 0 <= k < |s| ==> r[k] == TellRequest(s[k], sender, action, evt)
    decreases |s|
  {
    if s == [] then [] else [TellRequest(s[0], sender, action, evt)] + TellRequests(s[1..], sender, action, evt)
  }

  lemma {:induction false} TellRequestsAppend(a: seq<RelayConf>, b: seq<RelayConf>, sender: string, action: bool, evt: IrcEvent)
    ensures TellRequests(a + b, sender, action, evt) == TellRequests(a, sender, action, evt) + TellRequests(b, sender, action, evt)
  {
  }

  lemma {:induction false} CollectedServing(sender: string, action: bool, evt: IrcEvent, entries: seq<RelayConf>)
    ensures Collected(entries, c => Body(c, sender, action, evt)) == TellRequests(ForIrc(entries, sender), sender, action, evt)
    decreases |entries|
  {
    if entries != [] {
      var c0 := entries[0];
      CollectedServing(sender, action, evt, entries[1..]);
      var head := if c0.irc == sender then [c0] else [];
      assert ForIrc(entries, sender) == head + ForIrc(entries[1..], sender);
      TellRequestsAppend(head, ForIrc(entries[1..], sender), sender, action, evt);
    }
  }

  /** A private message or action sends exactly one `tellraw` command to
      each entry for the receiving client, in order, with no channel filter,
      and never raises. Each command shows `[IRC] `, the sender in the
      form of the event, and the message cut into pieces that give it back. */
  lemma {:induction false} OneCommandPerEntry(sender: string, event: string, evt: IrcEvent, entries: seq<RelayConf>)
    requires event in {"USER_MESSAGE", "USER_ACTION"}
    ensures var r := Handled("irc", sender, event, evt, entries);
      && r == Emitted(TellRequests(ForIrc(entries, sender), sender, event == "USER_ACTION", evt), None)
      && forall e :: e in r.events ==>
           && e.data.TellRaw? && |e.data.parts| >= 2 && e.data.parts[0] == Text("[IRC] ")
           && e.data.parts[1] == Text(if event == "USER_ACTION" then "* " + evt.name + " " else "<" + evt.name + "> ")
           && Shown(e.data.parts[2..]) == evt.message
  {
    var body := c => Body(c, sender, event == "USER_ACTION", evt);
    WalkNext(entries, body, []);
    CollectedServing(sender, event == "USER_ACTION", evt, entries);
    PartsShowMessage(event == "USER_ACTION", evt.name, evt.message);
  }
}
