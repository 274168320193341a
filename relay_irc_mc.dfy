/** modules/relayirctominecraft.py: channel messages seen by an IRC client
    are matched against the relay entries for that client; `?players` asks
    the linked Minecraft server for its player list, and the server's answer
    is posted back to the channel as a header line and a list line. The
    `tellraw` component list this file also builds for every message is
    never sent. */
module RelayIrcToMc {
  import opened Strings
  import opened PyErrors
  import opened Xml
  import opened Bus
  import Utf8
  import opened RconCodec
  import opened ConfigTable
  import opened IrcClient
  import opened RelayConfig
  import opened HandlerLoop

  /** `loadconfig(config, module)`: the `<relay>` entries with an IRC and a
      Minecraft name are stored, with their channel filter lower-cased;
      nothing raises. */
  method LoadConfig(configs: Table<RelayConf>, config: seq<Element>) returns (raised: Option<PyError>)
    requires configs.Valid()
    modifies configs
    ensures configs.Valid()
    ensures (configs.names, configs.confs, raised) == LoadAll(old(configs.names), old(configs.confs), config, IrcToMcEntry)
    ensures raised == None
  {
    LoadAllRaises(configs.names, configs.confs, config, IrcToMcEntry, {});
    raised := configs.Load(config, IrcToMcEntry);
  }

  /** Entry `c` takes messages that IRC client `sender` saw in `target`:
      the client is the entry's and the channel passes its filter, an empty
      filter passing every channel. */
  predicate Accepts(c: RelayConf, sender: string, target: string)
  {
    c.irc == sender && (c.channels == [] || Lower(target) in c.channels)
  }

  /** The `RCON_SENDCMD` event asking for the player list, with the reply
      callback bound to the IRC client and channel that asked. */
  function ListRequest(c: RelayConf, sender: string, ircTarget: string): BusEvent
  {
    BusEvent(To("minecraft", c.minecraft), "irc", sender, "relay", "RCON_SENDCMD",
      Line("list", Some(ListReply(c.minecraft, To("irc", sender), ircTarget))))
  }

  /** One pass of the loop body of `handle_event` over entry `c`: it never
      breaks and never raises. */
  function Body(c: RelayConf, sender: string, evt: IrcEvent, minecraftLoaded: bool): Outcome<Step>
  {
    if !Accepts(c, sender, evt.target) then Ok(Next([]))
    else if Split(evt.message, ' ')[0] == "?players" && minecraftLoaded then Ok(Next([ListRequest(c, sender, evt.target)]))
    else Ok(Next([]))
  }

  /** What `handle_event` sends for an event, `entries` being the values of
      `configs` in insertion order. */
  function Handled(moduleName: string, sender: string, event: string, evt: IrcEvent,
                   entries: seq<RelayConf>, minecraftLoaded: bool): (r: Emitted)
    ensures moduleName != "irc" || event !in {"CHANNEL_MESSAGE", "CHANNEL_ACTION"} ==> r == Emitted([], None)
  {
    if moduleName != "irc" || event !in {"CHANNEL_MESSAGE", "CHANNEL_ACTION"} then Emitted([], None)
    else Walk(entries, c => Body(c, sender, evt, minecraftLoaded), [])
  }

  /** `handle_event(loop, module, sender, protocol, event, data)`. */
  method HandleEvent(moduleName: string, sender: string, event: string, evt: IrcEvent,
                     entries: seq<RelayConf>, minecraftLoaded: bool) returns (r: Emitted)
    ensures r == Handled(moduleName, sender, event, evt, entries, minecraftLoaded)
  {
    if moduleName != "irc" || event !in {"CHANNEL_MESSAGE", "CHANNEL_ACTION"} {
      return Emitted([], None);
    }
    r := RunLoop(entries, c => Body(c, sender, evt, minecraftLoaded));
  }

  /** The entries that take a message seen by `sender` in `target`, in order. */
  function Accepting(entries: seq<RelayConf>, sender: string, target: string): (r: seq<RelayConf>)
    ensures forall c :: c in r <==> c in entries && Accepts(c, sender, target)
    decreases |entries|
  {
    if entries == [] then []
    else
      assert forall c :: c in entries <==> c == entries[0] || c in entries[1..];
      (if Accepts(entries[0], sender, target) then [entries[0]] else []) + Accepting(entries[1..], sender, target)
  }

  /** One list request per entry of `s`, in order. */
  function ListRequests(s: seq<RelayConf>, sender: string, ircTarget: string): (r: seq<BusEvent>)
    ensures |r| == |s|
    ensures forall k :: 0 <= k < |s| ==> r[k] == ListRequest(s[k], sender, ircTarget)
    decreases |s|
  {
    if s == [] then [] else [ListRequest(s[0], sender, ircTarget)] + ListRequests(s[1..], sender, ircTarget)
  }

  /** A channel message or action sends one `list` request per entry that
      takes it when its first word is `?players` and the Minecraft module is
      loaded, and nothing otherwise; it never raises. */
  lemma {:induction false} PlayersPerEntry(sender: string, event: string, evt: IrcEvent, entries: seq<RelayConf>, minecraftLoaded: bool)
    requires event in {"CHANNEL_MESSAGE", "CHANNEL_ACTION"}
    ensures Handled("irc", sender, event, evt, entries, minecraftLoaded)
      == Emitted(if Split(evt.message, ' ')[0] == "?players" && minecraftLoaded
                 then ListRequests(Accepting(entries, sender, evt.target), sender, evt.target)
                 else [], None)
  {
    var body := c => Body(c, sender, evt, minecraftLoaded);
    WalkNext(entries, body, []);
    CollectedAccepting(sender, evt, entries, minecraftLoaded);
  }

  lemma {:induction false} CollectedAccepting(sender: string, evt: IrcEvent, entries: seq<RelayConf>, minecraftLoaded: bool)
    ensures Collected(entries, c => Body(c, sender, evt, minecraftLoaded))
      == if Split(evt.message, ' ')[0] == "?players" && minecraftLoaded
         then ListRequests(Accepting(entries, sender, evt.target), sender, evt.target)
         else []
    decreases |entries|
  {
    if entries != [] {
      var c0 := entries[0];
      CollectedAccepting(sender, evt, entries[1..], minecraftLoaded);
      var head := if Accepts(c0, sender, evt.target) then [c0] else [];
      assert Accepting(entries, sender, evt.target) == head + Accepting(entries[1..], sender, evt.target);
      ListRequestsAppend(head, Accepting(entries[1..], sender, evt.target), sender, evt.target);
    }
  }

  lemma {:induction false} ListRequestsAppend(a: seq<RelayConf>, b: seq<RelayConf>, sender: string, ircTarget: string)
    ensures ListRequests(a + b, sender, ircTarget) == ListRequests(a, sender, ircTarget) + ListRequests(b, sender, ircTarget)
  {
  }

  /** The fixed pieces of the header `There are N of a max of M players
      online:` that `rconlistre` looks for. */
  const Lead := "There are "
  const Middle := " of a max of "
  const Trail := " players online:"

  /** `\d`, on ASCII digits. */
  predicate IsDigit(c: char) { '0' <= c <= '9' }

  /** The length of the run of digits starting `s`. */
  function Digits(s: string): (n: nat)
    ensures n <= |s|
    ensures forall k :: 0 <= k < n ==> IsDigit(s[k])
    ensures n == |s| || !IsDigit(s[n])
    decreases |s|
  {
    if s == [] || !IsDigit(s[0]) then 0 else 1 + Digits(s[1..])
  }

  /** What is left of `t` after the literal `lit`, when `t` starts with it. */
  function Strip(t: string, lit: string): (r: Option<string>)
    ensures r.Some? ==> |r.value| <= |t| && t[|t| - |r.value|..] == r.value
  {
    if StartsWith(t, lit) then Some(t[|lit|..]) else None
  }

  /** What is left of `t` after `\d+`, when `t` starts with a digit. */
  function Number(t: string): (r: Option<string>)
    ensures r.Some? ==> |r.value| < |t| && t[|t| - |r.value|..] == r.value
  {
    var n := Digits(t);
    if n == 0 then None else Some(t[n..])
  }

  /** What follows the `header` group when `rconlistre` matches at the start
      of `s`: the lead, digits, the middle, digits and the trail. */
  function AfterHeader(s: string): (r: Option<string>)
    ensures r.Some? ==> |r.value| <= |s| && s[|s| - |r.value|..] == r.value
  {
    match Strip(s, Lead)
    case None => None
    case Some(t1) =>
      match Number(t1)
      case None => None
      case Some(t2) =>
        match Strip(t2, Middle)
        case None => None
        case Some(t3) =>
          match Number(t3)
          case None => None
          case Some(t4) => Strip(t4, Trail)
  }

  /** `rconlistre.match(text)` as its two groups. */
  function ListMatch(text: string): (r: Option<(string, string)>)
    ensures r.Some? ==> '\n' !in r.value.1
  {
    Groups(text, AfterHeader(text))
  }

  /** The groups once the header is found with `after` following it: one
      optional space, then the list, which runs to the end of the text or to
      a newline that ends it and holds no other newline. */
  function Groups(text: string, after: Option<string>): (r: Option<(string, string)>)
    requires after.Some? ==> |after.value| <= |text|
    ensures r.Some? ==> '\n' !in r.value.1
  {
    match after
    case None => None
    case Some(after) =>
      var rest := if after != [] && after[0] == ' ' then after[1..] else after;
      var body := if rest != [] && rest[|rest| - 1] == '\n' then rest[..|rest| - 1] else rest;
      if '\n' in body then None else Some((text[..|text| - |after|], body))
  }

  /** The line the IRC client is asked to send for one piece of the answer. */
  function ListLine(source: string, replyTo: Target, ircTarget: string, text: string): BusEvent
  {
    BusEvent(replyTo, "minecraft", source, "relay", "IRC_SENDCMD", Line("PRIVMSG " + ircTarget + " :" + text, None))
  }

  /** `_rcon_list_callback`: the header line, then the list line when the
      list is not empty; nothing for an answer the pattern does not match. */
  function ListAnswer(source: string, replyTo: Target, ircTarget: string, pkt: Packet): (r: Outcome<seq<BusEvent>>)
    ensures r.Ok? ==> |r.value| <= 2
  {
    if pkt.payload.ErrorText? then Raised(AttributeError)
    else match Utf8.Decode(pkt.payload.bytes)
      case None => Raised(UnicodeDecodeError)
      case Some(text) =>
        match ListMatch(text)
        case None => Ok([])
        case Some((header, list)) =>
          Ok([ListLine(source, replyTo, ircTarget, header)] + (if list == "" then [] else [ListLine(source, replyTo, ircTarget, list)]))
  }

  /** The header the server writes for `online` of `max` players. */
  function Header(online: string, max: string): string
  {
    Lead + (online + (Middle + (max + Trail)))
  }

  predicate Numeral(s: string)
  {
    s != [] && forall k :: 0 <= k < |s| ==> IsDigit(s[k])
  }

  lemma {:induction false} DigitsOfNumeral(n: string, rest: string)
    requires forall k :: 0 <= k < |n| ==> IsDigit(n[k])
    requires rest == [] || !IsDigit(rest[0])
    ensures Digits(n + rest) == |n|
    decreases |n|
  {
    if n != [] {
      assert (n + rest)[1..] == n[1..] + rest;
      DigitsOfNumeral(n[1..], rest);
    } else {
      assert n + rest == rest;
    }
  }

  lemma StripOf(lit: string, y: string)
    ensures Strip(lit + y, lit) == Some(y)
  {
    assert (lit + y)[..|lit|] == lit && (lit + y)[|lit|..] == y;
  }

  lemma NumberOf(n: string, y: string)
    requires Numeral(n) && (y == [] || !IsDigit(y[0]))
    ensures Number(n + y) == Some(y)
  {
    DigitsOfNumeral(n, y);
    assert (n + y)[..|n|] == n && (n + y)[|n|..] == y;
  }

  /** The header is found at the start of any text that starts with it. */
  lemma {:induction false} AfterHeaderOf(online: string, max: string, rest: string)
    requires Numeral(online) && Numeral(max)
    ensures Header(online, max) + rest == Lead + (online + (Middle + (max + (Trail + rest))))
    ensures AfterHeader(Header(online, max) + rest) == Some(rest)
  {
    assert (max + Trail) + rest == max + (Trail + rest);
    assert (Middle + (max + Trail)) + rest == Middle + ((max + Trail) + rest);
    assert (online + (Middle + (max + Trail))) + rest == online + ((Middle + (max + Trail)) + rest);
    assert (Lead + (online + (Middle + (max + Trail)))) + rest == Lead + ((online + (Middle + (max + Trail))) + rest);
    StripOf(Lead, online + (Middle + (max + (Trail + rest))));
    NumberOf(online, Middle + (max + (Trail + rest)));
    StripOf(Middle, max + (Trail + rest));
    NumberOf(max, Trail + rest);
    StripOf(Trail, rest);
  }

  lemma {:induction false} SpaceThenList(h: string, players: string)
    requires AfterHeader(h + (" " + players)) == Some(" " + players) && '\n' !in players
    ensures ListMatch(h + (" " + players)) == Some((h, players))
  {
    GroupsOfSpace(h, players);
  }

  lemma GroupsOfSpace(h: string, players: string)
    requires '\n' !in players
    ensures Groups(h + (" " + players), Some(" " + players)) == Some((h, players))
  {
    assert (h + (" " + players))[..|h|] == h && (h + (" " + players))[|h|..] == " " + players;
    assert (" " + players)[..|" "|] == " " && (" " + players)[|" "|..] == players;
    assert players == [] || players[|players| - 1] != '\n';
  }

  lemma {:induction false} GroupsBroken(text: string, a: string, b: string)
    requires |" " + (a + ("\n" + b))| <= |text| && b != ""
    ensures Groups(text, Some(" " + (a + ("\n" + b)))) == None
  {
    var rest := a + ("\n" + b);
    assert (" " + rest)[..|" "|] == " " && (" " + rest)[|" "|..] == rest;
    assert (a + ("\n" + b))[..|a|] == a && (a + ("\n" + b))[|a|..] == "\n" + b;
    assert rest[|a|] == '\n';
    var body := if rest != [] && rest[|rest| - 1] == '\n' then rest[..|rest| - 1] else rest;
    assert body[|a|] == '\n';
  }

  lemma {:induction false} SpaceThenBrokenList(h: string, a: string, b: string)
    requires AfterHeader(h + (" " + (a + ("\n" + b)))) == Some(" " + (a + ("\n" + b))) && b != ""
    ensures ListMatch(h + (" " + (a + ("\n" + b)))) == None
  {
    GroupsBroken(h + (" " + (a + ("\n" + b))), a, b);
  }

  /** The answer `header + ' ' + names` is matched as that header and those
      names. */
  lemma {:induction false} ListMatchOf(online: string, max: string, players: string)
    requires Numeral(online) && Numeral(max) && '\n' !in players
    ensures ListMatch(Header(online, max) + " " + players) == Some((Header(online, max), players))
  {
    var h := Header(online, max);
    assert (h + " ") + players == h + (" " + players);
    AfterHeaderOf(online, max, " " + players);
    SpaceThenList(h, players);
  }

  /** The server's answer, header, space and player names, is posted back
      as the header line followed by the names when there are any. */
  lemma {:induction false} ListAnswerPosts(source: string, replyTo: Target, ircTarget: string, id: int, ptype: int,
                                           online: string, max: string, players: string)
    requires Numeral(online) && Numeral(max) && '\n' !in players
    ensures ListAnswer(source, replyTo, ircTarget, Packet(id, ptype, Raw(Utf8.Encode(Header(online, max) + " " + players))))
      == Ok([ListLine(source, replyTo, ircTarget, Header(online, max))]
            + (if players == "" then [] else [ListLine(source, replyTo, ircTarget, players)]))
  {
    Utf8.DecodeEncode(Header(online, max) + " " + players);
    ListMatchOf(online, max, players);
  }

  /** An answer with a newline inside the list is not matched and nothing is
      posted. */
  lemma {:induction false} BrokenListIgnored(online: string, max: string, a: string, b: string)
    requires Numeral(online) && Numeral(max) && b != ""
    ensures ListMatch(Header(online, max) + " " + a + "\n" + b) == None
  {
    var h := Header(online, max);
    assert (h + " ") + a == h + (" " + a);
    assert ((h + " ") + a) + "\n" == (h + " ") + (a + "\n");
    assert ((h + " " + a) + "\n") + b == (h + " " + a) + ("\n" + b);
    assert (h + " ") + (a + ("\n" + b)) == h + (" " + (a + ("\n" + b)));
    assert (" " + a) + ("\n" + b) == " " + (a + ("\n" + b));
    assert ((h + " ") + a) + ("\n" + b) == (h + " ") + (a + ("\n" + b));
    assert h + " " + a + "\n" + b == h + (" " + (a + ("\n" + b)));
    AfterHeaderOf(online, max, " " + (a + ("\n" + b)));
    SpaceThenBrokenList(h, a, b);
  }
}
