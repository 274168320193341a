/** modules/relayminecrafttoirc.py: what happens on a Minecraft server —
    players joining and leaving, chat, actions, advancements, deaths and
    refused connections — is posted to the IRC channels of each relay entry
    for that server. */
module RelayMcToIrc {
  import opened Strings
  import opened PyErrors
  import opened Xml
  import opened Bus
  import opened ConfigTable
  import opened RelayConfig
  import opened HandlerLoop

  /** `loadconfig(config, module)`: the `<relay>` entries with an IRC name,
      at least one channel element and a Minecraft name are stored, channel
      names as written; nothing raises. */
  method LoadConfig(configs: Table<RelayConf>, config: seq<Element>) returns (raised: Option<PyError>)
    requires configs.Valid()
    modifies configs
    ensures configs.Valid()
    ensures (configs.names, configs.confs, raised) == LoadAll(old(configs.names), old(configs.confs), config, McToIrcEntry)
    ensures raised == None
  {
    LoadAllRaises(configs.names, configs.confs, config, McToIrcEntry, {});
    raised := configs.Load(config, McToIrcEntry);
  }

  /** The event kinds relayed. */
  const Kinds: set<string> := {"PLAYER_CONNECT", "PLAYER_DISCONNECT", "MESSAGE", "ACTION", "ADVANCEMENT", "DEATH", "WHITELIST_FAIL"}

  /** The keys of the event data the text of each kind reads. */
  function Needed(event: string): set<string>
  {
    if event in {"PLAYER_CONNECT", "PLAYER_DISCONNECT", "ADVANCEMENT"} then {"name", "message"}
    else if event in {"MESSAGE", "ACTION"} then {"raw"}
    else if event == "DEATH" then {"message"}
    else if event == "WHITELIST_FAIL" then {"ip", "name"}
    else {}
  }

  /** The line posted for an event; a key missing from the data raises
      `KeyError`. */
  function RelayText(event: string, data: map<string, string>): (r: Outcome<string>)
    requires event in Kinds
    ensures r.Ok? <==> Needed(event) <= data.Keys
    ensures r.Raised? ==> r.err == KeyError
  {
    if !(Needed(event) <= data.Keys) then Raised(KeyError)
    else if event in {"PLAYER_CONNECT", "PLAYER_DISCONNECT", "ADVANCEMENT"} then Ok(data["name"] + " " + data["message"])
    else if event in {"MESSAGE", "ACTION"} then Ok(data["raw"])
    else if event == "DEATH" then Ok(data["message"])
    else Ok("*** Connection from " + data["ip"] + " rejected (not whitelisted: " + data["name"] + ")")
  }

  /** The `IRC_SENDCMD` event posting `text` to channel `chan` of entry `c`. */
  function ChannelLine(c: RelayConf, sender: string, chan: string, text: string): BusEvent
  {
    BusEvent(To("irc", c.irc), "minecraft", sender, "relay", "IRC_SENDCMD", Line("PRIVMSG " + chan + " :" + text, None))
  }

  /** One line per channel of entry `c`, in the order of its channels. */
  function ChannelLines(c: RelayConf, sender: string, text: string): (r: seq<BusEvent>)
    ensures |r| == |c.channels|
    ensures forall k :: 0 <= k < |r| ==> r[k] == ChannelLine(c, sender, c.channels[k], text)
  {
    seq(|c.channels|, k requires 0 <= k < |c.channels| => ChannelLine(c, sender, c.channels[k], text))
  }

  /** One pass of the loop body of `handle_event` over entry `c`. */
  function Body(c: RelayConf, sender: string, event: string, data: map<string, string>): Outcome<Step>
    requires event in Kinds
  {
    if c.minecraft != sender then Ok(Next([]))
    else match RelayText(event, data)
      case Raised(e) => Raised(e)
      case Ok(text) => Ok(Next(ChannelLines(c, sender, text)))
  }

  /** What `handle_event` sends for an event, `entries` being the values of
      `configs` in insertion order. */
  function Handled(moduleName: string, sender: string, event: string, data: map<string, string>, entries: seq<RelayConf>): (r: Emitted)
    ensures moduleName != "minecraft" || event !in Kinds ==> r == Emitted([], None)
  {
    if moduleName != "minecraft" || event !in Kinds then Emitted([], None)
    else Walk(entries, c => Body(c, sender, event, data), [])
  }

  /** `handle_event(loop, module, sender, protocol, event, data)`: the loop
      over the entries and, inside it, the loop over an entry's channels. */
  method HandleEvent(moduleName: string, sender: string, event: string, data: map<string, string>, entries: seq<RelayConf>)
    returns (r: Emitted)
    ensures r == Handled(moduleName, sender, event, data, entries)
  {
    if moduleName != "minecraft" || event !in Kinds {
      return Emitted([], None);
    }
    ghost var body := c => Body(c, sender, event, data);
    var sent: seq<BusEvent> := [];
    var i := 0;
    while i < |entries|
      invariant 0 <= i <= |entries|
      invariant Walk(entries[i..], body, sent) == Walk(entries, body, [])
    {
      var c := entries[i];
      assert entries[i..][1..] == entries[i + 1..];
      if c.minecraft == sender {
        var text := RelayText(event, data);
        if text.Raised? {
          return Emitted(sent, Some(text.err));
        }
        assert body(c) == Ok(Next(ChannelLines(c, sender, text.value)));
        sent := PostToChannels(c, sender, text.value, sent);
      } else {
        assert body(c) == Ok(Next([]));
        assert sent + [] == sent;
      }
      i := i + 1;
    }
    return Emitted(sent, None);
  }

  /** `for chan in conf['channels']`: one line per channel after `sent`. */
  method PostToChannels(c: RelayConf, sender: string, text: string, sent: seq<BusEvent>) returns (out: seq<BusEvent>)
    ensures out == sent + ChannelLines(c, sender, text)
  {
    out := sent;
    var j := 0;
    while j < |c.channels|
      invariant 0 <= j <= |c.channels|
      invariant out == sent + ChannelLines(c, sender, text)[..j]
    {
      out := out + [ChannelLine(c, sender, c.channels[j], text)];
      j := j + 1;
    }
    assert ChannelLines(c, sender, text)[..j] == ChannelLines(c, sender, text);
  }

  /** The entries for Minecraft client `mc`, in order. */
  function Serving(entries: seq<RelayConf>, mc: string): (r: seq<RelayConf>)
    ensures forall c :: c in r <==> c in entries && c.minecraft == mc
    decreases |entries|
  {
    if entries == [] then []
    else
      assert forall c :: c in entries <==> c == entries[0] || c in entries[1..];
      (if entries[0].minecraft == mc then [entries[0]] else []) + Serving(entries[1..], mc)
  }

  /** The lines for every channel of every entry of `s`, entry by entry. */
  function Fanout(s: seq<RelayConf>, sender: string, text: string): (r: seq<BusEvent>)
    decreases |s|
  {
    if s == [] then [] else ChannelLines(s[0], sender, text) + Fanout(s[1..], sender, text)
  }

  lemma {:induction false} FanoutAppend(a: seq<RelayConf>, b: seq<RelayConf>, sender: string, text: string)
    ensures Fanout(a + b, sender, text) == Fanout(a, sender, text) + Fanout(b, sender, text)
    decreases |a|
  {
    if a != [] {
      assert (a + b)[1..] == a[1..] + b;
      FanoutAppend(a[1..], b, sender, text);
    } else {
      assert a + b == b;
    }
  }

  lemma {:induction false} CollectedServing(sender: string, event: string, data: map<string, string>, entries: seq<RelayConf>)
    requires event in Kinds && RelayText(event, data).Ok?
    ensures Collected(entries, c => Body(c, sender, event, data)) == Fanout(Serving(entries, sender), sender, RelayText(event, data).value)
    decreases |entries|
  {
    if entries != [] {
      var text := RelayText(event, data).value;
      var c0 := entries[0];
      CollectedServing(sender, event, data, entries[1..]);
      var head := if c0.minecraft == sender then [c0] else [];
      assert Serving(entries, sender) == head + Serving(entries[1..], sender);
      FanoutAppend(head, Serving(entries[1..], sender), sender, text);
      if c0.minecraft == sender {
        assert Fanout(head, sender, text) == ChannelLines(c0, sender, text) + Fanout([], sender, text);
      }
    }
  }

  /** A relayed event whose data has the keys its kind reads posts one line
      to every channel of every entry for the server it came from, entry by
      entry and channel by channel, each sent to that entry's IRC client. */
  lemma {:induction false} LinePerChannel(sender: string, event: string, data: map<string, string>, entries: seq<RelayConf>)
    requires event in Kinds && Needed(event) <= data.Keys
    ensures Handled("minecraft", sender, event, data, entries)
      == Emitted(Fanout(Serving(entries, sender), sender, RelayText(event, data).value), None)
  {
    var body := c => Body(c, sender, event, data);
    forall c | c in entries
      ensures body(c).Ok? && body(c).value.Next?
    {
    }
    WalkNext(entries, body, []);
    CollectedServing(sender, event, data, entries);
  }

  /** A key missing from the data raises at the first entry for the server,
      before anything is posted; with no entry for it nothing happens. */
  lemma {:induction false} MissingKeyRaises(sender: string, event: string, data: map<string, string>, entries: seq<RelayConf>)
    requires event in Kinds && !(Needed(event) <= data.Keys)
    ensures Handled("minecraft", sender, event, data, entries)
      == Emitted([], if Serving(entries, sender) == [] then None else Some(KeyError))
    decreases |entries|
  {
    if entries != [] {
      MissingKeyRaises(sender, event, data, entries[1..]);
      if entries[0].minecraft != sender {
        assert Serving(entries, sender) == Serving(entries[1..], sender);
      } else {
        assert entries[0] in Serving(entries, sender);
      }
    }
  }

  /** A refused connection names the address and the player. */
  lemma RefusedConnectionText(ip: string, player: string, data: map<string, string>)
    requires "ip" in data && "name" in data && data["ip"] == ip && data["name"] == player
    ensures RelayText("WHITELIST_FAIL", data) == Ok("*** Connection from " + ip + " rejected (not whitelisted: " + player + ")")
  {
  }
}
