/** `IRCClientProtocol` of modules/irc/protocol.py: one connection's state —
    the channel table with its rosters, our nick, the server features, the
    capabilities and the keepalive and rejoin flags — and the handlers that
    change it. The socket is the `outbox` of lines written (without CR LF),
    the event bus the `events` list, and each timer a flag saying whether it
    is pending. */
module IrcClient {
  import opened Strings
  import opened PyInt
  import opened Utf8
  import opened PyErrors
  import opened IrcCodec
  import opened IrcRoster
  import opened IrcChannels
  import opened IrcIsupport
  import opened IrcModes
  import opened IrcNames
  import opened IrcJoin
  import opened IrcPrivmsg

  /** A `<channel>` of the configuration: its name and optional key. */
  datatype ChannelConf = ChannelConf(name: string, key: Option<string>)

  /** An event put on the bus: `CHANNEL_MESSAGE`, `CHANNEL_ACTION`,
      `USER_MESSAGE` or `USER_ACTION`. Channel events carry the sender's
      status modes, private ones none. */
  datatype IrcEvent = IrcEvent(kind: string, name: string, target: string, message: string, source: Source, modes: Option<string>)

  /** The commands and numerics the client has a handler for. */
  const Handled: set<string> := {"005", "353", "354", "366", "433", "ACCOUNT", "CAP", "ERROR", "JOIN", "KICK", "KILL", "MODE", "NICK", "PART", "PING", "PRIVMSG", "QUIT"}

  /** The capabilities the client knows. */
  const SupportedCaps: set<string> := {"away-notify", "account-notify", "extended-join", "multi-prefix", "userhost-in-names"}

  /** What `_send(cmd, *ps)` writes: one line, or nothing for an empty command. */
  function Sent(cmd: string, ps: seq<string>): seq<string>
  {
    if cmd == "" then [] else [Format(cmd, ps).value]
  }

  /** `data.decode('utf-8').replace('\r', '\n')`, split into lines, the empty
      ones dropped. */
  function Lines(text: string): seq<string>
  {
    NonEmpty(Split(CrToLf(text), '\n'))
  }

  /** `replace('\r', '\n')`. */
  function CrToLf(text: string): (r: string)
    ensures |r| == |text|
    ensures forall i :: 0 <= i < |text| ==> r[i] == if text[i] == '\r' then '\n' else text[i]
  {
    seq(|text|, i requires 0 <= i < |text| => if text[i] == '\r' then '\n' else text[i])
  }

  /** The nick tried after the `n`-th collision: the nick followed by `n`
      written with at least four digits. */
  function CollisionNick(nick: string, n: nat): string
  {
    nick + Pad4(n)
  }

  /** Different collision counts give different nicks, so the client never
      retries a nick it already tried from the same base. */
  lemma CollisionNicksDiffer(nick: string, a: nat, b: nat)
    requires a != b
    ensures CollisionNick(nick, a) != CollisionNick(nick, b)
  {
    Pad4Value(a);
    Pad4Value(b);
    var x, y := CollisionNick(nick, a), CollisionNick(nick, b);
    assert x[|nick|..] == Pad4(a);
    assert y[|nick|..] == Pad4(b);
  }

  /** The `JOIN` line `_joinchan` and `m_part` send for one channel. */
  function JoinOne(chan: string, key: Option<string>): seq<string>
  {
    if key.Some? then Sent("JOIN", [chan, key.value]) else Sent("JOIN", [chan])
  }

  /** The channel table with every channel marked not joined, as the first
      005 leaves it. */
  function AllUnjoined(chans: map<string, Channel>): map<string, Channel>
  {
    map k | k in chans :: chans[k].(joined := Some(false))
  }

  /** After the first 005 every configured channel is pending, keyless ones
      and keyed ones each in table order. */
  lemma {:induction false} AllPendingAfterReset(order: seq<string>, chans: map<string, Channel>)
    requires forall k :: k in order ==> k in chans
    ensures Pending(order, AllUnjoined(chans)).Some?
    ensures var (u, kd) := Pending(order, AllUnjoined(chans)).value;
      |u| + |kd| == |order|
    decreases |order|
  {
    if order != [] {
      var init := order[..|order| - 1];
      assert forall k :: k in init ==> k in order;
      AllPendingAfterReset(init, chans);
    }
  }

  /** The status letters `m_privmsg` attaches to a channel message: the
      sender's, or none when the roster does not list them. */
  function StatusOf(u: Roster, sender: string): string
  {
    if Lower(sender) in u.entries then u.entries[Lower(sender)].status else ""
  }

  /** The replies to the `?ops` and `?account` commands in a channel; both
      answer channel operators only. */
  function ChannelReplies(u: Roster, sender: string, target: string, text: string): seq<string>
    requires WellFormed(u)
  {
    var words := Split(text, ' ');
    if words[0] == "?ops" then
      if IsOp(u, sender) then Sent("PRIVMSG", [target, "Ops: " + JoinWith(Ops(u, u.keys), ", ")]) else []
    else if words[0] == "?account" then
      if IsOp(u, sender) && |words| > 1 then Sent("PRIVMSG", [target, AccountReply(u, words[1])]) else []
    else []
  }

  /** The bus event for a message to a joined channel. */
  function ChannelEvent(src: Source, target: string, text: string, status: string): IrcEvent
  {
    var (action, body) := ActionText(text);
    IrcEvent(if action then "CHANNEL_ACTION" else "CHANNEL_MESSAGE", src.name, Lower(target), body, src, Some(status))
  }

  /** The bus event for a message sent to us privately. */
  function UserEvent(src: Source, target: string, text: string): IrcEvent
  {
    var (action, body) := ActionText(text);
    IrcEvent(if action then "USER_ACTION" else "USER_MESSAGE", src.name, target, body, src, None)
  }

  /** `self.chans[target]['joined']` as modules/irc/protocol.py:484 reads
      it: under the target exactly as the message spells it. */
  function JoinedAsWritten(chans: map<string, Channel>, target: string): Outcome<bool>
  {
    if target !in chans || chans[target].joined.None? then Raised(KeyError)
    else Ok(chans[target].joined.value)
  }

  /** A message to `#Relay` for the joined channel `#relay` is taken for a
      channel message, since the table lookup is case-blind there, but then
      raises at the flag lookup, so it is never relayed. */
  lemma MixedCaseTarget()
    ensures var chans := map["#relay" := Channel("#relay", None, Some(true), false, Some(EmptyRoster))];
      && Lower("#Relay") in chans
      && JoinedAsWritten(chans, "#Relay") == Raised(KeyError)
      && JoinedAsWritten(chans, "#relay") == Ok(true)
  {
    assert Lower("#Relay") == "#relay" by {
      assert LowerChar('R') == 'r';
    }
  }

  /** The channel table is keyed by the lower-cased configured names, in
      configuration order, and its rosters are well formed. */
  ghost predicate TableOk(order: seq<string>, chans: map<string, Channel>)
  {
    && Listed(order, chans)
    && (forall k :: k in chans ==> k in order)
    && RostersOk(chans)
    && (forall k :: k in chans ==> Lower(chans[k].name) == k)
  }

  /** Every channel has its `joined` entry. */
  ghost predicate JoinedKnown(chans: map<string, Channel>)
  {
    forall k :: k in chans ==> chans[k].joined.Some?
  }

  /** Changing rosters, flags and timers of known channels keeps the table
      in shape. */
  lemma TableKept(order: seq<string>, c: map<string, Channel>, c': map<string, Channel>)
    requires TableOk(order, c) && c'.Keys == c.Keys && RostersOk(c')
    requires forall k :: k in c ==> c'[k].name == c[k].name
    requires forall k :: k in c && c[k].joined.Some? ==> c'[k].joined.Some?
    ensures TableOk(order, c')
    ensures JoinedKnown(c) ==> JoinedKnown(c')
  {
  }

  /** Every channel with its rejoin timer cancelled. */
  function Untimed(chans: map<string, Channel>): (r: map<string, Channel>)
    ensures r.Keys == chans.Keys
    ensures forall k :: k in r ==> !r[k].joinTimer
  {
    map k | k in chans :: chans[k].(joinTimer := false)
  }

  /** Cancelling the timers leaves the table in shape. */
  lemma UntimedKept(order: seq<string>, chans: map<string, Channel>)
    requires TableOk(order, chans)
    ensures TableOk(order, Untimed(chans))
    ensures JoinedKnown(chans) ==> JoinedKnown(Untimed(chans))
  {
    TableKept(order, chans, Untimed(chans));
  }

  /** Replacing one known channel by one with the same name, a well-formed
      roster and a `joined` entry where it had one keeps the table in shape. */
  lemma TableKeptAt(order: seq<string>, c: map<string, Channel>, k: string, ch: Channel)
    requires TableOk(order, c) && k in c
    requires ch.name == c[k].name && (ch.users.Some? ==> WellFormed(ch.users.value))
    requires c[k].joined.Some? ==> ch.joined.Some?
    ensures TableOk(order, c[k := ch])
    ensures JoinedKnown(c) ==> JoinedKnown(c[k := ch])
  {
  }

  /** The roster loop keeps the table in shape. */
  lemma ForEachRosterTableOk(order: seq<string>, c: map<string, Channel>, op: RosterOp)
    requires TableOk(order, c)
    ensures TableOk(order, ForEachRoster(order, c, op).0)
    ensures JoinedKnown(c) ==> JoinedKnown(ForEachRoster(order, c, op).0)
  {
    ForEachRosterKeepsChannels(order, c, op);
    TableKept(order, c, ForEachRoster(order, c, op).0);
  }

  /** The lower-cased configured names, in configuration order. */
  function FreshOrder(channels: seq<ChannelConf>): seq<string>
  {
    seq(|channels|, i requires 0 <= i < |channels| => Lower(channels[i].name))
  }

  /** The channel table before anything is joined. */
  function FreshTable(channels: seq<ChannelConf>): map<string, Channel>
    requires forall i, j :: 0 <= i < j < |channels| ==> Lower(channels[i].name) != Lower(channels[j].name)
  {
    map i | 0 <= i < |channels| :: Lower(channels[i].name) := Channel(channels[i].name, channels[i].key, None, false, None)
  }

  /** The table of a validated configuration is in shape, with each
      configured channel under its lower-cased name. */
  lemma FreshTableOk(channels: seq<ChannelConf>)
    requires forall i, j :: 0 <= i < j < |channels| ==> Lower(channels[i].name) != Lower(channels[j].name)
    ensures TableOk(FreshOrder(channels), FreshTable(channels))
    ensures forall i :: 0 <= i < |channels| ==>
      FreshOrder(channels)[i] in FreshTable(channels)
      && FreshTable(channels)[FreshOrder(channels)[i]] == Channel(channels[i].name, channels[i].key, None, false, None)
  {
    FreshKeys(channels);
    FreshEntries(channels);
  }

  /** Every key of the fresh table is a configured channel's lower-cased
      name, which is its own lower-cased form. */
  lemma FreshKeys(channels: seq<ChannelConf>)
    requires forall i, j :: 0 <= i < j < |channels| ==> Lower(channels[i].name) != Lower(channels[j].name)
    ensures forall k :: k in FreshTable(channels) ==> Lower(FreshTable(channels)[k].name) == k && k in FreshOrder(channels)
  {
    var ks := FreshOrder(channels);
    var c := FreshTable(channels);
    forall k | k in c ensures Lower(c[k].name) == k && k in ks {
      var i :| 0 <= i < |channels| && Lower(channels[i].name) == k;
      LowerIdempotent(channels[i].name);
      assert ks[i] == k;
    }
  }

  /** The fresh table holds each configured channel, not joined, under its
      lower-cased name. */
  lemma FreshEntries(channels: seq<ChannelConf>)
    requires forall i, j :: 0 <= i < j < |channels| ==> Lower(channels[i].name) != Lower(channels[j].name)
    ensures forall i :: 0 <= i < |channels| ==>
      FreshOrder(channels)[i] in FreshTable(channels)
      && FreshTable(channels)[FreshOrder(channels)[i]] == Channel(channels[i].name, channels[i].key, None, false, None)
  {
    var ks := FreshOrder(channels);
    var c := FreshTable(channels);
    forall i | 0 <= i < |channels|
      ensures ks[i] in c && c[ks[i]] == Channel(channels[i].name, channels[i].key, None, false, None)
    {
      var j :| 0 <= j < |channels| && Lower(channels[j].name) == ks[i] && c[ks[i]] == Channel(channels[j].name, channels[j].key, None, false, None);
      assert i == j;
    }
  }

  class Client {
    /** The channel table's keys (lower-cased names) in configuration order. */
    const order: seq<string>
    var chans: map<string, Channel>
    const userName: string
    const gecos: string
    const password: Option<string>
    /** `user['nick']`, `user['newnick']` and `user['inc']`. */
    var nick: string
    var newnick: string
    var inc: Option<nat>
    var features: Features
    var hasperformed: bool
    var caps: map<string, bool>
    var capEndPending: bool
    var pingcheck: bool
    var pingTimer: bool
    var rejoinPending: bool
    var errormsg: Option<string>
    var closed: bool
    var outbox: seq<string>
    var events: seq<IrcEvent>
    /** The received lines handed on to be parsed and handled so far. */
    ghost var received: seq<string>

    ghost predicate Valid()
      reads this
    {
      && TableOk(order, chans)
      && caps.Keys == SupportedCaps
      && (hasperformed ==> JoinedKnown(chans))
    }

    /** A new client for a validated configuration: the channels under
        their lower-cased names, nothing joined, default features, no
        capability enabled. */
    constructor (channels: seq<ChannelConf>, nick: string, userName: string, gecos: string, password: Option<string>)
      requires forall i, j :: 0 <= i < j < |channels| ==> Lower(channels[i].name) != Lower(channels[j].name)
      ensures Valid()
      ensures |order| == |channels|
      ensures forall i :: 0 <= i < |channels| ==>
        order[i] == Lower(channels[i].name) && chans[order[i]] == Channel(channels[i].name, channels[i].key, None, false, None)
      ensures this.nick == nick && newnick == nick && inc == None
      ensures this.userName == userName && this.gecos == gecos && this.password == password
      ensures features == Defaults && !hasperformed
      ensures caps == map c | c in SupportedCaps :: false
      ensures !capEndPending && !pingcheck && !pingTimer && !rejoinPending && errormsg == None && !closed
      ensures outbox == [] && events == [] && received == []
    {
      FreshTableOk(channels);
      order := FreshOrder(channels);
      chans := FreshTable(channels);
      this.userName := userName;
      this.gecos := gecos;
      this.password := password;
      this.nick := nick;
      newnick := nick;
      inc := None;
      features := Defaults;
      hasperformed := false;
      caps := map c | c in SupportedCaps :: false;
      capEndPending := false;
      pingcheck := false;
      pingTimer := false;
      rejoinPending := false;
      errormsg := None;
      closed := false;
      outbox := [];
      events := [];
      received := [];
    }

    /** `_send`. */
    method Send(cmd: string, params: seq<string>)
      modifies this`outbox
      ensures outbox == old(outbox) + Sent(cmd, params)
    {
      var line := BuildLine(cmd, params);
      if line.Some? {
        outbox := outbox + [line.value];
      }
    }

    /** `_resetping`: traffic arrived, so the next check passes; the check
        is rescheduled. */
    method ResetPing()
      modifies this`pingcheck, this`pingTimer
      ensures pingcheck && pingTimer
    {
      pingcheck := true;
      pingTimer := true;
    }

    /** `_doping`: with traffic since the last check, probe the server and
        reschedule; without, give up on the connection. */
    method DoPing()
      requires Valid()
      modifies this`outbox, this`pingcheck, this`pingTimer, this`chans, this`rejoinPending, this`closed
      ensures Valid()
      ensures old(pingcheck) ==>
        && outbox == old(outbox) + Sent("PING", ["CHECKCONN"]) && !pingcheck && pingTimer
        && chans == old(chans) && rejoinPending == old(rejoinPending) && closed == old(closed)
      ensures !old(pingcheck) ==>
        && outbox == old(outbox) + Sent("QUIT", ["Ping Timeout"]) && closed
        && !pingTimer && !rejoinPending && pingcheck == old(pingcheck)
        && chans == Untimed(old(chans))
    {
      if pingcheck {
        Send("PING", ["CHECKCONN"]);
        pingcheck := false;
        pingTimer := true;
      } else {
        Disconnect("Ping Timeout");
      }
    }

    /** `disconnect`: say `QUIT`, close the socket and cancel every timer. */
    method Disconnect(reason: string)
      requires Valid()
      modifies this`outbox, this`chans, this`rejoinPending, this`pingTimer, this`closed
      ensures Valid()
      ensures outbox == old(outbox) + Sent("QUIT", [reason]) && closed
      ensures chans == Untimed(old(chans))
      ensures !rejoinPending && !pingTimer
    {
      Send("QUIT", [reason]);
      closed := true;
      CancelJoinTimers();
      rejoinPending := false;
      pingTimer := false;
    }

    /** The loop of `disconnect` that cancels every channel's rejoin timer. */
    method CancelJoinTimers()
      requires Valid()
      modifies this`chans
      ensures Valid()
      ensures chans == Untimed(old(chans))
    {
      UntimedKept(order, chans);
      ClearTimers();
    }

    /** The loop itself, over the table order. */
    method ClearTimers()
      requires forall k :: k in chans ==> k in order
      modifies this`chans
      ensures chans == Untimed(old(chans))
    {
      ghost var start := chans;
      for i := 0 to |order|
        invariant chans.Keys == start.Keys
        invariant forall k :: k in chans ==> chans[k] == start[k].(joinTimer := if k in order[..i] then false else start[k].joinTimer)
      {
        assert order[..i + 1] == order[..i] + [order[i]];
        if order[i] in chans {
          chans := chans[order[i] := chans[order[i]].(joinTimer := false)];
        }
      }
      assert order[..|order|] == order;
    }

    /** `_capend`. */
    method CapEnd()
      modifies this`outbox, this`capEndPending
      ensures outbox == old(outbox) + Sent("CAP", ["END"]) && !capEndPending
    {
      Send("CAP", ["END"]);
      capEndPending := false;
    }

    /** `connection_made`: start the keepalive, open capability
        negotiation, then register. */
    method ConnectionMade()
      modifies this`outbox, this`pingcheck, this`pingTimer
      ensures pingcheck && pingTimer
      ensures outbox == old(outbox) + Sent("CAP", ["LS"])
        + (if password.Some? then Sent("PASS", [password.value]) else [])
        + Sent("NICK", [nick]) + Sent("USER", [userName, "0", "*", gecos])
    {
      ResetPing();
      Send("CAP", ["LS"]);
      if password.Some? {
        Send("PASS", [password.value]);
      }
      Send("NICK", [nick]);
      Send("USER", [userName, "0", "*", gecos]);
    }

    /** `handle_event`: only `IRC_SENDCMD` with a command is acted on, by
        sending the command as a raw line. */
    method HandleEvent(event: string, command: Option<string>)
      modifies this`outbox
      ensures outbox == old(outbox) + (if event == "IRC_SENDCMD" && command.Some? then Sent(command.value, []) else [])
    {
      if event != "IRC_SENDCMD" {
        return;
      }
      if command.None? {
        return;
      }
      Send(command.value, []);
    }

    /** The loop over the channel table shared by the `ACCOUNT`, 354,
        `NICK`, `QUIT` and `KILL` handlers. */
    method UpdateRosters(op: RosterOp) returns (raised: Option<PyError>)
      requires TableOk(order, chans)
      modifies this`chans
      ensures (chans, raised.None?) == ForEachRoster(order, old(chans), op)
      ensures raised.Some? ==> raised == Some(KeyError)
    {
      ghost var start := chans;
      for i := 0 to |order|
        invariant Listed(order[..i], start)
        invariant ForEachRoster(order[..i], start, op) == (chans, true)
      {
        ForEachRosterNext(order, start, op, i);
        var k := order[i];
        var c := Updated(chans[k], op);
        if c.None? {
          ForEachRosterStops(order, start, op, i + 1);
          return Some(KeyError);
        }
        chans := chans[k := c.value];
      }
      assert order[..|order|] == order;
      return None;
    }
  
    /** The first loop of `_joinchans`: channels without a key, five to a
        line. */
    method SendUnkeyed(u: seq<string>)
      modifies this`outbox
      ensures outbox == old(outbox) + UnkeyedLines(Batches(u))
    {
      ghost var before := outbox;
      var i := 0;
      var chanlst := "";
      ghost var g: nat := 0;
      ghost var lo: nat := 0;
      for p := 0 to |u|
        invariant 0 <= i < 5 && lo == 5 * g && p == lo + i
        invariant chanlst == Glue(u[lo..p])
        invariant outbox == before + UnkeyedLines(Batches(u[..lo]))
      {
        i, chanlst, g, lo := AddUnkeyed(before, u, g, lo, p, i, chanlst);
      }
      FinishUnkeyed(before, u, g, lo, i, chanlst);
    }

    /** One pass of the first loop: the channel goes on the current line,
        which is sent once it holds five. */
    method AddUnkeyed(ghost before: seq<string>, u: seq<string>, ghost g: nat, ghost lo: nat, p: nat, i: nat, chanlst: string)
      returns (i': nat, chanlst': string, ghost g': nat, ghost lo': nat)
      requires p < |u| && i < 5 && lo == 5 * g && p == lo + i
      requires chanlst == Glue(u[lo..p])
      requires outbox == before + UnkeyedLines(Batches(u[..lo]))
      modifies this`outbox
      ensures i' < 5 && lo' == 5 * g' && p + 1 == lo' + i'
      ensures chanlst' == Glue(u[lo'..p + 1])
      ensures outbox == before + UnkeyedLines(Batches(u[..lo']))
    {
      GlueSnoc(u, lo, p);
      chanlst' := chanlst;
      if |chanlst'| > 0 {
        chanlst' := chanlst' + ",";
      }
      chanlst' := chanlst' + u[p];
      i' := i + 1;
      g', lo' := g, lo;
      if i' >= 5 {
        FlushUnkeyed(before, u, g, lo, p + 1, chanlst');
        chanlst' := "";
        i' := 0;
        g' := g + 1;
        lo' := p + 1;
      }
    }

    /** After the first loop: a part-filled line is still sent. */
    method FinishUnkeyed(ghost before: seq<string>, ghost u: seq<string>, ghost g: nat, ghost lo: nat, i: nat, chanlst: string)
      requires i < 5 && lo == 5 * g && |u| == lo + i
      requires chanlst == Glue(u[lo..|u|])
      requires outbox == before + UnkeyedLines(Batches(u[..lo]))
      modifies this`outbox
      ensures outbox == before + UnkeyedLines(Batches(u))
    {
      if i > 0 {
        FlushUnkeyed(before, u, g, lo, |u|, chanlst);
        assert u[..|u|] == u;
      } else {
        assert u[..lo] == u;
      }
    }

    /** Sending one finished batch of channels without keys. */
    method FlushUnkeyed(ghost before: seq<string>, ghost u: seq<string>, ghost g: nat, ghost lo: nat, ghost hi: nat, chanlst: string)
      requires lo == 5 * g && lo < hi <= |u| && hi <= lo + 5
      requires chanlst == Glue(u[lo..hi])
      requires outbox == before + UnkeyedLines(Batches(u[..lo]))
      modifies this`outbox
      ensures outbox == before + UnkeyedLines(Batches(u[..hi]))
    {
      UnkeyedFlush(u, g, hi);
      Send("JOIN", [chanlst]);
    }

    /** Sending one finished batch of channels with keys. */
    method FlushKeyed(ghost before: seq<string>, ghost kd: seq<(string, string)>, ghost g: nat, ghost lo: nat, ghost hi: nat, chanlst: string, keylst: string)
      requires lo == 5 * g && lo < hi <= |kd| && hi <= lo + 5
      requires (chanlst, keylst) == GlueKeyed(kd[lo..hi])
      requires outbox == before + KeyedLines(Batches(kd[..lo]))
      modifies this`outbox
      ensures outbox == before + KeyedLines(Batches(kd[..hi]))
    {
      KeyedFlush(kd, g, hi);
      Send("JOIN", [chanlst, keylst]);
    }

    /** The second loop of `_joinchans`: channels with a key, five to a
        line, the keys in a second parameter. */
    method SendKeyed(kd: seq<(string, string)>)
      modifies this`outbox
      ensures outbox == old(outbox) + KeyedLines(Batches(kd))
    {
      ghost var before := outbox;
      var i := 0;
      var chanlst := "";
      var keylst := "";
      ghost var g: nat := 0;
      ghost var lo: nat := 0;
      for p := 0 to |kd|
        invariant 0 <= i < 5 && lo == 5 * g && p == lo + i
        invariant (chanlst, keylst) == GlueKeyed(kd[lo..p])
        invariant outbox == before + KeyedLines(Batches(kd[..lo]))
      {
        i, chanlst, keylst, g, lo := AddKeyed(before, kd, g, lo, p, i, chanlst, keylst);
      }
      FinishKeyed(before, kd, g, lo, i, chanlst, keylst);
    }

    /** One pass of the second loop: the channel and its key go on the
        current line, which is sent once it holds five. */
    method AddKeyed(ghost before: seq<string>, kd: seq<(string, string)>, ghost g: nat, ghost lo: nat, p: nat, i: nat, chanlst: string, keylst: string)
      returns (i': nat, chanlst': string, keylst': string, ghost g': nat, ghost lo': nat)
      requires p < |kd| && i < 5 && lo == 5 * g && p == lo + i
      requires (chanlst, keylst) == GlueKeyed(kd[lo..p])
      requires outbox == before + KeyedLines(Batches(kd[..lo]))
      modifies this`outbox
      ensures i' < 5 && lo' == 5 * g' && p + 1 == lo' + i'
      ensures (chanlst', keylst') == GlueKeyed(kd[lo'..p + 1])
      ensures outbox == before + KeyedLines(Batches(kd[..lo']))
    {
      GlueKeyedSnoc(kd, lo, p);
      chanlst', keylst' := chanlst, keylst;
      if |chanlst'| > 0 {
        chanlst' := chanlst' + ",";
        keylst' := keylst' + " ";
      }
      chanlst' := chanlst' + kd[p].0;
      keylst' := keylst' + kd[p].1;
      i' := i + 1;
      g', lo' := g, lo;
      if i' >= 5 {
        FlushKeyed(before, kd, g, lo, p + 1, chanlst', keylst');
        chanlst' := "";
        keylst' := "";
        i' := 0;
        g' := g + 1;
        lo' := p + 1;
      }
    }

    /** After the second loop: a part-filled line is still sent. */
    method FinishKeyed(ghost before: seq<string>, ghost kd: seq<(string, string)>, ghost g: nat, ghost lo: nat, i: nat, chanlst: string, keylst: string)
      requires i < 5 && lo == 5 * g && |kd| == lo + i
      requires (chanlst, keylst) == GlueKeyed(kd[lo..|kd|])
      requires outbox == before + KeyedLines(Batches(kd[..lo]))
      modifies this`outbox
      ensures outbox == before + KeyedLines(Batches(kd))
    {
      if i > 0 {
        FlushKeyed(before, kd, g, lo, |kd|, chanlst, keylst);
        assert kd[..|kd|] == kd;
      } else {
        assert kd[..lo] == kd;
      }
    }

    /** `_joinchans`: join every channel not yet joined and schedule the
        next pass, unless nothing was pending. Reading a channel that has no
        `joined` entry raises `KeyError` before anything is sent. */
    method JoinChans() returns (raised: Option<PyError>)
      requires TableOk(order, chans)
      modifies this`outbox, this`rejoinPending
      ensures Pending(order, chans).None? ==> raised == Some(KeyError) && outbox == old(outbox) && !rejoinPending
      ensures Pending(order, chans).Some? ==>
        var (u, kd) := Pending(order, chans).value;
        && raised == None
        && outbox == old(outbox) + JoinLines(u, kd)
        && rejoinPending == (|u| + |kd| > 0)
    {
      rejoinPending := false;
      var pending := CollectPending();
      if pending.None? {
        return Some(KeyError);
      }
      var (u, kd) := pending.value;
      if |u| + |kd| <= 0 {
        NothingToJoin(u, kd);
        return None;
      }
      SendJoins(u, kd);
      rejoinPending := true;
      return None;
    }

    /** The two sending loops of `_joinchans`, channels without a key first. */
    method SendJoins(u: seq<string>, kd: seq<(string, string)>)
      modifies this`outbox
      ensures outbox == old(outbox) + JoinLines(u, kd)
    {
      SendUnkeyed(u);
      SendKeyed(kd);
    }

    /** The scan at the head of `_joinchans`: the channels not yet joined,
        in table order, split by whether they carry a key. */
    method CollectPending() returns (pending: Option<(seq<string>, seq<(string, string)>)>)
      requires TableOk(order, chans)
      ensures pending == Pending(order, chans)
    {
      var u: seq<string> := [];
      var kd: seq<(string, string)> := [];
      for i := 0 to |order|
        invariant forall k :: k in order[..i] ==> k in chans
        invariant Pending(order[..i], chans) == Some((u, kd))
      {
        assert order[..i + 1][..i] == order[..i];
        assert forall k :: k in order[..i + 1] ==> k in order;
        var c := chans[order[i]];
        if c.joined.None? {
          PendingNoneExtends(order, chans, i + 1);
          return None;
        }
        if c.joined.value {
          continue;
        }
        if c.key.Some? {
          kd := kd + [(c.name, c.key.value)];
        } else {
          u := u + [c.name];
        }
      }
      assert order[..|order|] == order;
      return Some((u, kd));
    }

    /** `_joinchan`, the retry after a kick: join the channel under its
        table key unless it has been joined meanwhile, and retry later. */
    method JoinChan(k: string) returns (raised: Option<PyError>)
      requires Valid() && k in chans
      modifies this`outbox, this`chans
      ensures Valid()
      ensures old(chans)[k].joined.None? ==> raised == Some(KeyError) && outbox == old(outbox) && chans == old(chans)
      ensures old(chans)[k].joined == Some(true) ==> raised == None && outbox == old(outbox) && chans == old(chans)
      ensures old(chans)[k].joined == Some(false) ==>
        && raised == None
        && outbox == old(outbox) + JoinOne(k, old(chans)[k].key)
        && chans == old(chans)[k := old(chans)[k].(joinTimer := true)]
    {
      var c := chans[k];
      if c.joined.None? {
        return Some(KeyError);
      }
      if c.joined.value {
        return None;
      }
      if c.key.Some? {
        Send("JOIN", [k, c.key.value]);
      } else {
        Send("JOIN", [k]);
      }
      TableKeptAt(order, chans, k, c.(joinTimer := true));
      chans := chans[k := c.(joinTimer := true)];
      return None;
    }

    /** `m_005` (RPL_ISUPPORT): apply the feature tokens between our nick
        and the closing text; on the first one, mark every channel not
        joined, join them all and remember it was done. A `PREFIX` token
        without `)` raises `IndexError` and stops the handler, the tokens
        before it applied. */
    method M005(params: seq<string>) returns (raised: Option<PyError>)
      requires Valid()
      modifies this`features, this`chans, this`hasperformed, this`outbox, this`rejoinPending
      ensures Valid()
      ensures features == ApplyTokens(old(features), Tokens(params)).0
      ensures (!ApplyTokens(old(features), Tokens(params)).1 || old(hasperformed)) ==>
        && chans == old(chans) && hasperformed == old(hasperformed)
        && outbox == old(outbox) && rejoinPending == old(rejoinPending)
      ensures !ApplyTokens(old(features), Tokens(params)).1 ==> raised == Some(IndexError)
      ensures ApplyTokens(old(features), Tokens(params)).1 ==> raised == None
      ensures ApplyTokens(old(features), Tokens(params)).1 && !old(hasperformed) ==>
        && hasperformed
        && chans == AllUnjoined(old(chans))
        && Pending(order, chans).Some?
        && outbox == old(outbox) + JoinLines(Pending(order, chans).value.0, Pending(order, chans).value.1)
        && rejoinPending == (|order| > 0)
    {
      var ok := ApplyFeatures(Tokens(params));
      if !ok {
        return Some(IndexError);
      }
      if hasperformed {
        return None;
      }
      Perform();
      return None;
    }

    /** The first 005: every channel marked not joined, all of them joined,
        and the fact remembered. */
    method Perform()
      requires Valid() && !hasperformed
      modifies this`chans, this`hasperformed, this`outbox, this`rejoinPending
      ensures Valid() && hasperformed
      ensures chans == AllUnjoined(old(chans))
      ensures Pending(order, chans).Some?
      ensures outbox == old(outbox) + JoinLines(Pending(order, chans).value.0, Pending(order, chans).value.1)
      ensures rejoinPending == (|order| > 0)
    {
      MarkUnjoined();
      AllPendingAfterReset(order, old(chans));
      var r := JoinChans();
      hasperformed := true;
    }

    /** The token loop of `m_005`; false where a token raised. */
    method ApplyFeatures(toks: seq<string>) returns (ok: bool)
      modifies this`features
      ensures (features, ok) == ApplyTokens(old(features), toks)
    {
      for i := 0 to |toks|
        invariant ApplyTokens(old(features), toks[..i]) == (features, true)
      {
        ApplyTokensSnoc(old(features), toks, i);
        var t := ParseToken(toks[i]);
        if t.None? {
          continue;
        }
        var f := ApplyToken(features, t.value.0, t.value.1);
        if f.None? {
          ApplyTokensStops(old(features), toks, i + 1);
          return false;
        }
        features := f.value;
      }
      assert toks[..|toks|] == toks;
      return true;
    }

    /** The loop of `m_005` that sets every channel's `joined` to false. */
    method MarkUnjoined()
      requires TableOk(order, chans)
      modifies this`chans
      ensures chans == AllUnjoined(old(chans))
      ensures TableOk(order, chans) && JoinedKnown(chans)
    {
      ghost var start := chans;
      for i := 0 to |order|
        invariant chans.Keys == start.Keys
        invariant forall k :: k in chans ==> chans[k] == if k in order[..i] then start[k].(joined := Some(false)) else start[k]
      {
        assert order[..i + 1] == order[..i] + [order[i]];
        chans := chans[order[i] := chans[order[i]].(joined := Some(false))];
      }
      assert order[..|order|] == order;
      assert chans == AllUnjoined(start);
      TableKept(order, start, chans);
    }

    /** `ACCOUNT`: the sender's account (`*` for none) recorded in every
        roster that lists them. */
    method MAccount(msg: Message) returns (raised: Option<PyError>)
      requires Valid()
      modifies this`chans
      ensures Valid()
      ensures msg.params == [] ==> raised == Some(IndexError) && chans == old(chans)
      ensures msg.params != [] ==>
        var op := SetAccount(Lower(msg.source.name), if msg.params[0] == "*" then "" else msg.params[0]);
        && (chans, raised.None?) == ForEachRoster(order, old(chans), op)
        && (raised.Some? ==> raised == Some(KeyError))
    {
      var who := Lower(msg.source.name);
      if |msg.params| == 0 {
        return Some(IndexError);
      }
      var account := msg.params[0];
      if account == "*" {
        account := "";
      }
      raised := UpdateRosters(SetAccount(who, account));
      ForEachRosterTableOk(order, old(chans), SetAccount(who, account));
    }

    /** 354 (RPL_WHOSPCRPL): a reply to our own `WHO` (tag 696) records the
        member's account (`0` for none) in every roster that lists them. */
    method M354(params: seq<string>) returns (raised: Option<PyError>)
      requires Valid()
      modifies this`chans
      ensures Valid()
      ensures (|params| < 2 || (params[1] == "696" && |params| < 4)) ==> raised == Some(IndexError) && chans == old(chans)
      ensures |params| >= 2 && params[1] != "696" ==> raised == None && chans == old(chans)
      ensures |params| >= 4 && params[1] == "696" ==>
        var op := SetAccount(Lower(params[2]), if params[3] == "0" then "" else params[3]);
        && (chans, raised.None?) == ForEachRoster(order, old(chans), op)
        && (raised.Some? ==> raised == Some(KeyError))
    {
      if |params| < 2 {
        return Some(IndexError);
      }
      if params[1] != "696" {
        return None;
      }
      if |params| < 4 {
        return Some(IndexError);
      }
      var who := Lower(params[2]);
      var account := params[3];
      if account == "0" {
        account := "";
      }
      raised := UpdateRosters(SetAccount(who, account));
      ForEachRosterTableOk(order, old(chans), SetAccount(who, account));
    }

    /** `NICK`: when the sender is us, our nick changes; in every roster that
        lists the sender, the member is re-filed under the new nick. */
    method MNick(msg: Message) returns (raised: Option<PyError>)
      requires Valid()
      modifies this`chans, this`nick, this`newnick
      ensures Valid()
      ensures msg.params == [] ==> raised == Some(IndexError) && chans == old(chans) && nick == old(nick) && newnick == old(newnick)
      ensures msg.params != [] ==>
        && (Lower(msg.source.name) == Lower(old(nick)) ==> nick == msg.params[0] && newnick == msg.params[0])
        && (Lower(msg.source.name) != Lower(old(nick)) ==> nick == old(nick) && newnick == old(newnick))
        && (chans, raised.None?) == ForEachRoster(order, old(chans), Rename(Lower(msg.source.name), msg.params[0]))
        && (raised.Some? ==> raised == Some(KeyError))
    {
      var who := Lower(msg.source.name);
      if |msg.params| == 0 {
        return Some(IndexError);
      }
      var n := msg.params[0];
      if who == Lower(nick) {
        nick := n;
        newnick := n;
      }
      raised := UpdateRosters(Rename(who, n));
      ForEachRosterTableOk(order, old(chans), Rename(who, n));
    }

    /** `QUIT`: someone else leaving the network leaves every roster. */
    method MQuit(msg: Message) returns (raised: Option<PyError>)
      requires Valid()
      modifies this`chans
      ensures Valid()
      ensures Lower(msg.source.name) == Lower(nick) ==> raised == None && chans == old(chans)
      ensures Lower(msg.source.name) != Lower(nick) ==>
        && (chans, raised.None?) == ForEachRoster(order, old(chans), Remove(Lower(msg.source.name)))
        && (raised.Some? ==> raised == Some(KeyError))
    {
      var who := Lower(msg.source.name);
      if who == Lower(nick) {
        return None;
      }
      raised := UpdateRosters(Remove(who));
      ForEachRosterTableOk(order, old(chans), Remove(who));
    }

    /** `KILL`: a victim other than us, as given, leaves every roster that
        lists it. */
    method MKill(params: seq<string>) returns (raised: Option<PyError>)
      requires Valid()
      modifies this`chans
      ensures Valid()
      ensures params == [] ==> raised == Some(IndexError) && chans == old(chans)
      ensures params != [] && params[0] == Lower(nick) ==> raised == None && chans == old(chans)
      ensures params != [] && params[0] != Lower(nick) ==>
        && (chans, raised.None?) == ForEachRoster(order, old(chans), Kill(params[0]))
        && (raised.Some? ==> raised == Some(KeyError))
    {
      if |params| == 0 {
        return Some(IndexError);
      }
      var victim := params[0];
      if victim == Lower(nick) {
        return None;
      }
      raised := UpdateRosters(Kill(victim));
      ForEachRosterTableOk(order, old(chans), Kill(victim));
    }

    /** 353 (RPL_NAMREPLY): every name of the list is filed in the roster of
        the named channel, when that channel is ours, with the status its
        prefix symbols give. The first name that raises stops the rest. */
    method M353(params: seq<string>) returns (raised: Option<PyError>)
      requires Valid()
      modifies this`chans
      ensures Valid()
      ensures |params| < 2 ==> raised == Some(IndexError) && chans == old(chans)
      ensures |params| >= 2 && Lower(params[|params| - 2]) !in old(chans) ==> raised == None && chans == old(chans)
      ensures |params| >= 2 && Lower(params[|params| - 2]) in old(chans) ==>
        var k := Lower(params[|params| - 2]);
        var r := NamesFold(features, old(chans)[k].users, Split(params[|params| - 1], ' '));
        && chans == old(chans)[k := old(chans)[k].(users := r.0)]
        && raised == r.1
    {
      if |params| < 2 {
        return Some(IndexError);
      }
      var k := Lower(params[|params| - 2]);
      if k !in chans {
        return None;
      }
      var users;
      users, raised := FileNames(chans[k].users, Split(params[|params| - 1], ' '));
      TableKeptAt(order, chans, k, chans[k].(users := users));
      chans := chans[k := chans[k].(users := users)];
    }

    /** The loop of `m_353` over the listed names. */
    method FileNames(start: Option<Roster>, toks: seq<string>) returns (users: Option<Roster>, raised: Option<PyError>)
      requires start.Some? ==> WellFormed(start.value)
      ensures (users, raised) == NamesFold(features, start, toks)
    {
      users := start;
      for i := 0 to |toks|
        invariant users.Some? ==> WellFormed(users.value)
        invariant NamesFold(features, start, toks[..i]) == (users, None)
      {
        assert toks[..i + 1][..i] == toks[..i];
        var pfx, rest := StripLeading(features.prefixSymbols, toks[i]);
        var status := ModesOf(features.prefixSymbols, features.prefixModes, pfx);
        if status.None? {
          NamesFoldStops(features, start, toks, i + 1);
          return users, Some(IndexError);
        }
        if users.None? {
          NamesFoldStops(features, start, toks, i + 1);
          return users, Some(KeyError);
        }
        users := Some(Named(users.value, ParseNuh(rest).name, status.value));
      }
      assert toks[..|toks|] == toks;
      return users, None;
    }

    /** The scan of a 353 name for its leading status symbols. */
    method StripLeading(symbols: string, tok: string) returns (pfx: string, rest: string)
      ensures (pfx, rest) == StripPrefix(symbols, tok)
    {
      for c := 0 to |tok|
        invariant forall i :: 0 <= i < c ==> tok[i] in symbols
      {
        if tok[c] !in symbols {
          assert FirstOther(symbols, tok) == c;
          return tok[..c], tok[c..];
        }
      }
      return "", tok;
    }

    /** The mode letters of a 353 name's status symbols. */
    method ModesOf(symbols: string, modes: string, pfx: string) returns (status: Option<string>)
      requires forall c :: c in pfx ==> c in symbols
      ensures status == PrefixModes(symbols, modes, pfx)
    {
      var pfxm := "";
      for i := 0 to |pfx|
        invariant forall c :: c in pfx[..i] ==> c in symbols
        invariant PrefixModes(symbols, modes, pfx[..i]) == Some(pfxm)
      {
        assert pfx[..i + 1][..i] == pfx[..i];
        assert forall c :: c in pfx[..i + 1] ==> c in pfx;
        var k := Find(symbols, pfx[i]);
        if k >= |modes| {
          assert PrefixModes(symbols, modes, pfx).None?;
          return None;
        }
        pfxm := pfxm + [modes[k]];
      }
      assert pfx[..|pfx|] == pfx;
      return Some(pfxm);
    }

    /** 366 (RPL_ENDOFNAMES): with WHOX, ask for the accounts of the
        channel's members. */
    method M366(params: seq<string>) returns (raised: Option<PyError>)
      modifies this`outbox
      ensures !features.whox ==> raised == None && outbox == old(outbox)
      ensures features.whox && |params| < 2 ==> raised == Some(IndexError) && outbox == old(outbox)
      ensures features.whox && |params| >= 2 ==>
        var chan := params[|params| - 2];
        && raised == None
        && outbox == old(outbox) + (if Lower(chan) in chans then Sent("WHO", [chan, "%tna,696"]) else [])
    {
      if !features.whox {
        return None;
      }
      if |params| < 2 {
        return Some(IndexError);
      }
      var chan := params[|params| - 2];
      if Lower(chan) in chans {
        Send("WHO", [chan, "%tna,696"]);
      }
      return None;
    }

    /** 433 (ERR_NICKNAMEINUSE): when the nick refused is ours or the one we
        asked for, try the configured nick followed by the next collision
        count. The configured nick and the current one are the same entry of
        the configuration. */
    method M433(params: seq<string>) returns (raised: Option<PyError>)
      modifies this`inc, this`newnick, this`outbox
      ensures |params| < 2 ==> raised == Some(IndexError) && inc == old(inc) && newnick == old(newnick) && outbox == old(outbox)
      ensures |params| >= 2 ==>
        var hit := params[0] == "*" || Lower(params[0]) == Lower(nick) || Lower(params[1]) == Lower(old(newnick));
        && raised == None
        && (hit ==>
          && inc == Some(if old(inc).None? then 0 else old(inc).value + 1)
          && newnick == CollisionNick(nick, inc.value)
          && outbox == old(outbox) + Sent("NICK", [newnick]))
        && (!hit ==> inc == old(inc) && newnick == old(newnick) && outbox == old(outbox))
    {
      if |params| < 2 {
        return Some(IndexError);
      }
      var targ := params[0];
      var refused := params[1];
      if targ == "*" || Lower(targ) == Lower(nick) || Lower(refused) == Lower(newnick) {
        if inc.None? {
          inc := Some(0);
        } else {
          inc := Some(inc.value + 1);
        }
        newnick := nick + Pad4(inc.value);
        Send("NICK", [newnick]);
      }
      return None;
    }

    /** `CAP`: on `LS`, request the advertised capabilities the client
        knows and (re)arm the `CAP END` timer; on `ACK`, mark the known
        acknowledged ones enabled. */
    method MCap(params: seq<string>) returns (raised: Option<PyError>)
      requires Valid()
      modifies this`caps, this`outbox, this`capEndPending
      ensures Valid()
      ensures |params| < 2 || (params[1] != "LS" && params[1] != "ACK") ==>
        && raised == (if |params| < 2 then Some(IndexError) else None)
        && caps == old(caps) && outbox == old(outbox) && capEndPending == old(capEndPending)
      ensures |params| >= 2 && params[1] == "LS" ==>
        && raised == None && caps == old(caps) && capEndPending
        && outbox == old(outbox) + Sent("CAP", ["REQ", JoinWith(CapRequest(Split(params[|params| - 1], ' '), SupportedCaps), " ")])
      ensures |params| >= 2 && params[1] == "ACK" ==>
        && raised == None && outbox == old(outbox) && capEndPending == old(capEndPending)
        && caps == map c | c in old(caps) :: old(caps)[c] || c in Split(params[|params| - 1], ' ')
    {
      if |params| < 2 {
        return Some(IndexError);
      }
      var offered := Split(params[|params| - 1], ' ');
      if params[1] == "LS" {
        var req := RequestCaps(offered);
        Send("CAP", ["REQ", JoinWith(req, " ")]);
        capEndPending := true;
      } else if params[1] == "ACK" {
        AckCaps(offered);
      }
      return None;
    }

    /** The `LS` loop of `m_cap`: the offered capabilities the client knows,
        in the server's order. */
    method RequestCaps(offered: seq<string>) returns (req: seq<string>)
      requires caps.Keys == SupportedCaps
      ensures req == CapRequest(offered, SupportedCaps)
    {
      req := [];
      for i := 0 to |offered|
        invariant req == CapRequest(offered[..i], SupportedCaps)
      {
        assert offered[..i + 1][..i] == offered[..i];
        if offered[i] in caps {
          req := req + [offered[i]];
        }
      }
      assert offered[..|offered|] == offered;
    }

    /** The `ACK` loop of `m_cap`: each known acknowledged capability is
        enabled. */
    method AckCaps(offered: seq<string>)
      modifies this`caps
      ensures caps == map c | c in old(caps) :: old(caps)[c] || c in offered
    {
      for i := 0 to |offered|
        invariant caps == map c | c in old(caps) :: old(caps)[c] || c in offered[..i]
      {
        assert forall c :: c in offered[..i + 1] <==> c in offered[..i] || c == offered[i];
        if offered[i] in caps {
          caps := caps[offered[i] := true];
        }
      }
      assert offered[..|offered|] == offered;
    }

    /** `ERROR`: remember the server's reason. */
    method MError(params: seq<string>) returns (raised: Option<PyError>)
      modifies this`errormsg
      ensures params == [] ==> raised == Some(IndexError) && errormsg == old(errormsg)
      ensures params != [] ==> raised == None && errormsg == Some(params[|params| - 1])
    {
      if |params| == 0 {
        return Some(IndexError);
      }
      errormsg := Some(params[|params| - 1]);
      return None;
    }

    /** `PING`: answer with the same token. */
    method MPing(params: seq<string>) returns (raised: Option<PyError>)
      modifies this`outbox
      ensures params == [] ==> raised == Some(IndexError) && outbox == old(outbox)
      ensures params != [] ==> raised == None && outbox == old(outbox) + Sent("PONG", [params[0]])
    {
      if |params| == 0 {
        return Some(IndexError);
      }
      Send("PONG", [params[0]]);
      return None;
    }

    /** `MODE` on one of our channels: walk the mode string, giving and
        taking status letters of the members named by the parameters and
        skipping the parameters of the other modes that take one. */
    method MMode(params: seq<string>) returns (raised: Option<PyError>)
      requires Valid()
      modifies this`chans
      ensures Valid()
      ensures |params| < 2 ==> raised == Some(IndexError) && chans == old(chans)
      ensures |params| >= 2 && Lower(params[0]) !in old(chans) ==> raised == None && chans == old(chans)
      ensures |params| >= 2 && Lower(params[0]) in old(chans) ==>
        var k := Lower(params[0]);
        var r := Walk(features, params, WalkState(old(chans)[k].users, true, 2), params[1]);
        && chans == old(chans)[k := old(chans)[k].(users := r.0.users)]
        && raised == r.1
    {
      if |params| < 2 {
        return Some(IndexError);
      }
      var k := Lower(params[0]);
      if k !in chans {
        return None;
      }
      var users;
      users, raised := WalkModes(chans[k].users, params, params[1]);
      TableKeptAt(order, chans, k, chans[k].(users := users));
      chans := chans[k := chans[k].(users := users)];
    }

    /** The loop of `m_mode` over the mode letters. */
    method WalkModes(start: Option<Roster>, params: seq<string>, modes: string) returns (users: Option<Roster>, raised: Option<PyError>)
      requires UsersOk(start)
      ensures UsersOk(users)
      ensures (users, raised) == (Walk(features, params, WalkState(start, true, 2), modes).0.users, Walk(features, params, WalkState(start, true, 2), modes).1)
    {
      ghost var s0 := WalkState(start, true, 2);
      users := start;
      var add := true;
      var next := 2;
      for i := 0 to |modes|
        invariant UsersOk(users)
        invariant Walk(features, params, s0, modes[..i]) == (WalkState(users, add, next), None)
      {
        assert modes[..i + 1][..i] == modes[..i];
        var m := modes[i];
        var sign := add;
        if m == '+' {
          sign := true;
        } else if m == '-' {
          sign := false;
        }
        if m in features.prefixModes {
          if next >= |params| {
            WalkStops(features, params, s0, modes, i + 1);
            return users, Some(IndexError);
          }
          var who := params[next];
          if users.None? {
            WalkStops(features, params, s0, modes, i + 1);
            return users, Some(KeyError);
          }
          users := Some(SetStatus(users.value, Lower(who), m, sign));
          next := next + 1;
        } else if |features.chanmodes| < 1 {
          WalkStops(features, params, s0, modes, i + 1);
          return users, Some(IndexError);
        } else if m in features.chanmodes[0] {
          next := next + 1;
        } else if |features.chanmodes| < 2 {
          WalkStops(features, params, s0, modes, i + 1);
          return users, Some(IndexError);
        } else if m in features.chanmodes[1] {
          next := next + 1;
        } else if |features.chanmodes| < 3 {
          WalkStops(features, params, s0, modes, i + 1);
          return users, Some(IndexError);
        } else if m in features.chanmodes[2] && sign {
          next := next + 1;
        }
        add := sign;
      }
      assert modes[..|modes|] == modes;
      return users, None;
    }

    /** `JOIN`: when we join one of our channels it is marked joined with an
        empty roster and its retry timer cancelled; then the joiner is filed
        in the roster with the account the extended join gives (`*` for
        none). */
    method MJoin(msg: Message) returns (raised: Option<PyError>)
      requires Valid()
      modifies this`chans
      ensures Valid()
      ensures msg.params == [] ==> raised == Some(IndexError) && chans == old(chans)
      ensures msg.params != [] && Lower(msg.params[0]) !in old(chans) ==> raised == None && chans == old(chans)
      ensures msg.params != [] && Lower(msg.params[0]) in old(chans) ==>
        var k := Lower(msg.params[0]);
        var who := Lower(msg.source.name);
        var account := if |msg.params| > 1 && msg.params[1] != "*" then msg.params[1] else "";
        var c := if who == Lower(nick) then old(chans)[k].(joined := Some(true), users := Some(EmptyRoster), joinTimer := false) else old(chans)[k];
        && (c.users.None? ==> raised == Some(KeyError) && chans == old(chans))
        && (c.users.Some? ==> raised == None && chans == old(chans)[k := c.(users := Some(Put(c.users.value, who, Member(msg.source.name, "", account))))])
    {
      if |msg.params| == 0 {
        return Some(IndexError);
      }
      var k := Lower(msg.params[0]);
      var account := "";
      var who := Lower(msg.source.name);
      if |msg.params| > 1 && msg.params[1] != "*" {
        account := msg.params[1];
      }
      if k !in chans {
        return None;
      }
      var c := chans[k];
      if who == Lower(nick) {
        c := c.(joined := Some(true), users := Some(EmptyRoster), joinTimer := false);
      }
      if c.users.None? {
        return Some(KeyError);
      }
      TableKeptAt(order, chans, k, c.(users := Some(Put(c.users.value, who, Member(msg.source.name, "", account)))));
      chans := chans[k := c.(users := Some(Put(c.users.value, who, Member(msg.source.name, "", account))))];
      return None;
    }

    /** `KICK`: when we are kicked, the channel is marked not joined and a
        rejoin is scheduled (raising `KeyError` for a channel that is not
        ours); someone else kicked leaves the roster. */
    method MKick(params: seq<string>) returns (raised: Option<PyError>)
      requires Valid()
      modifies this`chans
      ensures Valid()
      ensures |params| < 2 ==> raised == Some(IndexError) && chans == old(chans)
      ensures |params| >= 2 && Lower(params[0]) !in old(chans) ==>
        && raised == (if Lower(params[1]) == Lower(nick) then Some(KeyError) else None)
        && chans == old(chans)
      ensures |params| >= 2 && Lower(params[0]) in old(chans) ==>
        var k := Lower(params[0]);
        var victim := Lower(params[1]);
        var c := old(chans)[k];
        && (victim == Lower(nick) ==> raised == None && chans == old(chans)[k := c.(joined := Some(false), joinTimer := true)])
        && (victim != Lower(nick) && (c.users.None? || victim !in c.users.value.entries) ==> raised == Some(KeyError) && chans == old(chans))
        && (victim != Lower(nick) && c.users.Some? && victim in c.users.value.entries ==>
              raised == None && chans == old(chans)[k := c.(users := Some(Del(c.users.value, victim)))])
    {
      if |params| < 2 {
        return Some(IndexError);
      }
      var k := Lower(params[0]);
      var victim := Lower(params[1]);
      if victim == Lower(nick) {
        if k !in chans {
          return Some(KeyError);
        }
        TableKeptAt(order, chans, k, chans[k].(joined := Some(false), joinTimer := true));
        chans := chans[k := chans[k].(joined := Some(false), joinTimer := true)];
        return None;
      }
      if k !in chans {
        return None;
      }
      raised := DropMember(k, victim);
    }

    /** `del self.chans[chan]['users'][who]`, raising `KeyError` where the
        channel has no roster or the roster does not list them. */
    method DropMember(k: string, who: string) returns (raised: Option<PyError>)
      requires Valid() && k in chans
      modifies this`chans
      ensures Valid()
      ensures var c := old(chans)[k];
        && (c.users.None? || who !in c.users.value.entries ==> raised == Some(KeyError) && chans == old(chans))
        && (c.users.Some? && who in c.users.value.entries ==>
              raised == None && chans == old(chans)[k := c.(users := Some(Del(c.users.value, who)))])
    {
      var c := chans[k];
      if c.users.None? || who !in c.users.value.entries {
        return Some(KeyError);
      }
      TableKeptAt(order, chans, k, c.(users := Some(Del(c.users.value, who))));
      chans := chans[k := c.(users := Some(Del(c.users.value, who)))];
      return None;
    }

    /** `PART`: when we leave one of our channels it is marked not joined
        and joined again straight away under its configured name; someone
        else leaving leaves the roster. */
    method MPart(msg: Message) returns (raised: Option<PyError>)
      requires Valid()
      modifies this`chans, this`outbox
      ensures Valid()
      ensures msg.params == [] ==> raised == Some(IndexError) && chans == old(chans) && outbox == old(outbox)
      ensures msg.params != [] && Lower(msg.params[0]) !in old(chans) ==> raised == None && chans == old(chans) && outbox == old(outbox)
      ensures msg.params != [] && Lower(msg.params[0]) in old(chans) ==>
        var k := Lower(msg.params[0]);
        var who := Lower(msg.source.name);
        var c := old(chans)[k];
        && (who == Lower(nick) ==>
              && raised == None
              && chans == old(chans)[k := c.(joined := Some(false))]
              && outbox == old(outbox) + JoinOne(c.name, c.key))
        && (who != Lower(nick) ==> outbox == old(outbox))
        && (who != Lower(nick) && (c.users.None? || who !in c.users.value.entries) ==> raised == Some(KeyError) && chans == old(chans))
        && (who != Lower(nick) && c.users.Some? && who in c.users.value.entries ==>
              raised == None && chans == old(chans)[k := c.(users := Some(Del(c.users.value, who)))])
    {
      if |msg.params| == 0 {
        return Some(IndexError);
      }
      var k := Lower(msg.params[0]);
      var who := Lower(msg.source.name);
      if k !in chans {
        return None;
      }
      var c := chans[k];
      if who == Lower(nick) {
        TableKeptAt(order, chans, k, c.(joined := Some(false)));
        chans := chans[k := c.(joined := Some(false))];
        if c.key.Some? {
          Send("JOIN", [c.name, c.key.value]);
        } else {
          Send("JOIN", [c.name]);
        }
        return None;
      }
      raised := DropMember(k, who);
    }

    /** `PRIVMSG`. On one of our channels: answer `?ops` and `?account`,
        then relay the message when the channel is joined. Elsewhere: answer
        a CTCP `VERSION` request, and relay the message when it was sent to
        us rather than to a channel. An empty text is ignored. */
    method MPrivmsg(msg: Message) returns (raised: Option<PyError>)
      requires Valid()
      modifies this`outbox, this`events
      ensures msg.params == [] ==> raised == Some(IndexError) && outbox == old(outbox) && events == old(events)
      ensures msg.params != [] && msg.params[|msg.params| - 1] == "" ==> raised == None && outbox == old(outbox) && events == old(events)
      ensures msg.params != [] && msg.params[|msg.params| - 1] != "" && Lower(msg.params[0]) in chans ==>
        var target, text := msg.params[0], msg.params[|msg.params| - 1];
        var u := chans[Lower(target)].users;
        && (u.None? ==> raised == Some(KeyError) && outbox == old(outbox) && events == old(events))
        && (u.Some? ==>
              && outbox == old(outbox) + ChannelReplies(u.value, msg.source.name, target, text)
              && (JoinedAsWritten(chans, target).Raised? ==> raised == Some(KeyError) && events == old(events))
              && (JoinedAsWritten(chans, target) == Ok(false) ==> raised == None && events == old(events))
              && (JoinedAsWritten(chans, target) == Ok(true) ==>
                    raised == None && events == old(events) + [ChannelEvent(msg.source, target, text, StatusOf(u.value, msg.source.name))]))
      ensures msg.params != [] && msg.params[|msg.params| - 1] != "" && Lower(msg.params[0]) !in chans ==>
        var target, text := msg.params[0], msg.params[|msg.params| - 1];
        && raised == None
        && outbox == old(outbox) + (if AskedVersion(text) then Sent("NOTICE", [msg.source.name, VersionReply]) else [])
        && events == old(events) + (if IsChannel(features.chantypes, target) then [] else [UserEvent(msg.source, target, text)])
    {
      if |msg.params| == 0 {
        return Some(IndexError);
      }
      var text := msg.params[|msg.params| - 1];
      var target := msg.params[0];
      if |text| == 0 {
        return None;
      }
      if Lower(target) in chans {
        raised := ChannelMessage(msg.source, target, text);
      } else {
        PrivateMessage(msg.source, target, text);
        raised := None;
      }
    }

    /** The channel half of `m_privmsg`. */
    method ChannelMessage(src: Source, target: string, text: string) returns (raised: Option<PyError>)
      requires Valid() && Lower(target) in chans && text != ""
      modifies this`outbox, this`events
      ensures var u := chans[Lower(target)].users;
        && (u.None? ==> raised == Some(KeyError) && outbox == old(outbox) && events == old(events))
        && (u.Some? ==>
              && outbox == old(outbox) + ChannelReplies(u.value, src.name, target, text)
              && (JoinedAsWritten(chans, target).Raised? ==> raised == Some(KeyError) && events == old(events))
              && (JoinedAsWritten(chans, target) == Ok(false) ==> raised == None && events == old(events))
              && (JoinedAsWritten(chans, target) == Ok(true) ==>
                    raised == None && events == old(events) + [ChannelEvent(src, target, text, StatusOf(u.value, src.name))]))
    {
      var k := Lower(target);
      if chans[k].users.None? {
        return Some(KeyError);
      }
      var u := chans[k].users.value;
      var status := "";
      if Lower(src.name) in u.entries {
        status := u.entries[Lower(src.name)].status;
      }
      var words := Split(text, ' ');
      if words[0] == "?ops" {
        if IsOp(u, src.name) {
          var ops := ListOps(u);
          Send("PRIVMSG", [target, "Ops: " + JoinWith(ops, ", ")]);
        }
      } else if words[0] == "?account" {
        if IsOp(u, src.name) && |words| > 1 {
          Send("PRIVMSG", [target, AccountReply(u, words[1])]);
        }
      }
      var joined := JoinedAsWritten(chans, target);
      if joined.Raised? {
        return Some(KeyError);
      }
      if joined.value {
        var (action, body) := ActionText(text);
        events := events + [IrcEvent(if action then "CHANNEL_ACTION" else "CHANNEL_MESSAGE", src.name, k, body, src, Some(status))];
      }
      return None;
    }

    /** The `?ops` loop: the nick of every member that is an operator, in
        roster order. */
    method ListOps(u: Roster) returns (ops: seq<string>)
      requires WellFormed(u)
      ensures ops == Ops(u, u.keys)
    {
      ops := [];
      for i := 0 to |u.keys|
        invariant forall k :: k in u.keys[..i] ==> k in u.entries
        invariant ops == Ops(u, u.keys[..i])
      {
        assert u.keys[..i + 1][..i] == u.keys[..i];
        assert forall k :: k in u.keys[..i + 1] ==> k in u.keys;
        var k := u.keys[i];
        if IsOp(u, k) {
          ops := ops + [u.entries[k].nick];
        }
      }
      assert u.keys[..|u.keys|] == u.keys;
    }

    /** The private half of `m_privmsg`. */
    method PrivateMessage(src: Source, target: string, text: string)
      requires text != ""
      modifies this`outbox, this`events
      ensures outbox == old(outbox) + (if AskedVersion(text) then Sent("NOTICE", [src.name, VersionReply]) else [])
      ensures events == old(events) + (if IsChannel(features.chantypes, target) then [] else [UserEvent(src, target, text)])
    {
      var vtext := text;
      if vtext[0] == '\U{1}' {
        vtext := vtext[1..];
        if |vtext| > 0 {
          if vtext[|vtext| - 1] == '\U{1}' {
            vtext := vtext[..|vtext| - 1];
          }
        }
        if |vtext| > 0 {
          var words := Split(vtext, ' ');
          if Upper(words[0]) == "VERSION" {
            Send("NOTICE", [src.name, VersionReply]);
          }
        }
      }
      if !IsChannel(features.chantypes, target) {
        var (action, body) := ActionText(text);
        events := events + [IrcEvent(if action then "USER_ACTION" else "USER_MESSAGE", src.name, target, body, src, None)];
      }
    }

    /** The handler table: the message goes to the handler for its command,
        and a command without one is ignored. */
    method Dispatch(m: Message) returns (raised: Option<PyError>)
      requires Valid()
      modifies this`chans, this`features, this`hasperformed, this`outbox, this`rejoinPending, this`nick, this`newnick
      modifies this`inc, this`caps, this`capEndPending, this`errormsg, this`events
      ensures Valid()
      ensures m.command !in Handled ==> raised == None && unchanged(this)
    {
      var cmd := m.command;
      if cmd == "005" {
        raised := M005(m.params);
      } else if cmd == "353" {
        raised := M353(m.params);
      } else if cmd == "354" {
        raised := M354(m.params);
      } else if cmd == "366" {
        raised := M366(m.params);
      } else if cmd == "433" {
        raised := M433(m.params);
      } else if cmd == "ACCOUNT" {
        raised := MAccount(m);
      } else if cmd == "CAP" {
        raised := MCap(m.params);
      } else if cmd == "ERROR" {
        raised := MError(m.params);
      } else if cmd == "JOIN" {
        raised := MJoin(m);
      } else if cmd == "KICK" {
        raised := MKick(m.params);
      } else if cmd == "KILL" {
        raised := MKill(m.params);
      } else if cmd == "MODE" {
        raised := MMode(m.params);
      } else if cmd == "NICK" {
        raised := MNick(m);
      } else if cmd == "PART" {
        raised := MPart(m);
      } else if cmd == "PING" {
        raised := MPing(m.params);
      } else if cmd == "PRIVMSG" {
        raised := MPrivmsg(m);
      } else if cmd == "QUIT" {
        raised := MQuit(m);
      } else {
        raised := None;
      }
    }

    /** `data_received`: bytes that are not UTF-8 raise before anything
        happens; otherwise the keepalive is reset and every non-empty line,
        carriage returns counting as line ends, is parsed and handled in
        order. A handler that raises ends the call, and the lines after it
        are not handled. */
    method DataReceived(data: seq<byte>) returns (raised: Option<PyError>)
      requires Valid()
      modifies this
      ensures Valid()
      ensures Decode(data).None? ==> raised == Some(UnicodeDecodeError) && unchanged(this)
      ensures Decode(data).Some? ==>
        var ls := Lines(Decode(data).value);
        && pingcheck && pingTimer
        && |old(received)| <= |received| <= |old(received)| + |ls|
        && received == old(received) + ls[..|received| - |old(received)|]
        && (raised.None? ==> received == old(received) + ls)
    {
      var decoded := Decode(data);
      if decoded.None? {
        return Some(UnicodeDecodeError);
      }
      var lines := Split(CrToLf(decoded.value), '\n');
      ResetPing();
      raised := HandleLines(lines);
    }

    /** One received line parsed and handed to its handler. */
    method HandleLine(line: string) returns (raised: Option<PyError>)
      requires Valid()
      modifies this
      ensures Valid()
      ensures received == old(received) + [line]
      ensures pingcheck == old(pingcheck) && pingTimer == old(pingTimer)
    {
      received := received + [line];
      raised := ParseAndDispatch(line);
    }

    /** `_parse_raw_irc(line)` handed to the handler table. */
    method ParseAndDispatch(line: string) returns (raised: Option<PyError>)
      requires Valid()
      modifies this`chans, this`features, this`hasperformed, this`outbox, this`rejoinPending, this`nick, this`newnick
      modifies this`inc, this`caps, this`capEndPending, this`errormsg, this`events
      ensures Valid()
    {
      var m := ParseRawIrc(line);
      raised := Dispatch(m);
    }

    /** The line loop of `data_received`. */
    method HandleLines(raw: seq<string>) returns (raised: Option<PyError>)
      requires Valid()
      modifies this
      ensures Valid()
      ensures |old(received)| <= |received| <= |old(received)| + |NonEmpty(raw)|
      ensures received == old(received) + NonEmpty(raw)[..|received| - |old(received)|]
      ensures raised.None? ==> received == old(received) + NonEmpty(raw)
      ensures pingcheck == old(pingcheck) && pingTimer == old(pingTimer)
    {
      for i := 0 to |raw|
        invariant Valid()
        invariant received == old(received) + NonEmpty(raw[..i])
        invariant pingcheck == old(pingcheck) && pingTimer == old(pingTimer)
      {
        LinesStep(raw, i);
        var line := raw[i];
        if |line| > 0 {
          raised := HandleLine(line);
          if raised.Some? {
            PrefixOfLines(raw, i + 1);
            return raised;
          }
        }
      }
      assert raw[..|raw|] == raw;
      return None;
    }
  }

  /** Adding one channel to the batch being built. */
  lemma GlueSnoc(u: seq<string>, lo: nat, hi: nat)
    requires lo <= hi < |u|
    ensures var acc := Glue(u[lo..hi]);
      Glue(u[lo..hi + 1]) == if |acc| > 0 then acc + "," + u[hi] else acc + u[hi]
  {
    assert u[lo..hi + 1][..hi - lo] == u[lo..hi];
  }

  lemma GlueKeyedSnoc(kd: seq<(string, string)>, lo: nat, hi: nat)
    requires lo <= hi < |kd|
    ensures var (ns, ks) := GlueKeyed(kd[lo..hi]);
      GlueKeyed(kd[lo..hi + 1]) == if |ns| > 0 then (ns + "," + kd[hi].0, ks + " " + kd[hi].1) else (ns + kd[hi].0, ks + kd[hi].1)
  {
    assert kd[lo..hi + 1][..hi - lo] == kd[lo..hi];
  }

  /** A batch of one to five channels goes out as one line after the lines
      before it. */
  lemma UnkeyedFlush(u: seq<string>, g: nat, hi: nat)
    requires 5 * g < hi <= |u| && hi <= 5 * g + 5
    ensures UnkeyedLines(Batches(u[..hi])) == UnkeyedLines(Batches(u[..5 * g])) + Sent("JOIN", [Glue(u[5 * g..hi])])
  {
    var batch := u[5 * g..hi];
    assert u[..5 * g] + batch == u[..hi];
    BatchesAppend(u[..5 * g], batch);
    assert Batches(batch) == [batch];
    UnkeyedLinesSnoc(Batches(u[..5 * g]), batch);
  }

  lemma KeyedFlush(kd: seq<(string, string)>, g: nat, hi: nat)
    requires 5 * g < hi <= |kd| && hi <= 5 * g + 5
    ensures KeyedLines(Batches(kd[..hi])) == KeyedLines(Batches(kd[..5 * g])) + Sent("JOIN", [GlueKeyed(kd[5 * g..hi]).0, GlueKeyed(kd[5 * g..hi]).1])
  {
    var batch := kd[5 * g..hi];
    assert kd[..5 * g] + batch == kd[..hi];
    BatchesAppend(kd[..5 * g], batch);
    assert Batches(batch) == [batch];
    KeyedLinesSnoc(Batches(kd[..5 * g]), batch);
  }

  /** One more raw line adds itself to the handled lines unless empty. */
  lemma LinesStep(raw: seq<string>, i: nat)
    requires i < |raw|
    ensures NonEmpty(raw[..i + 1]) == NonEmpty(raw[..i]) + (if raw[i] == "" then [] else [raw[i]])
  {
    assert raw[..i + 1] == raw[..i] + [raw[i]];
    NonEmptySnoc(raw[..i], raw[i]);
  }

  /** The lines handled before a raise are a prefix of all the lines. */
  lemma {:induction false} PrefixOfLines(raw: seq<string>, i: nat)
    requires i <= |raw|
    ensures |NonEmpty(raw[..i])| <= |NonEmpty(raw)|
    ensures NonEmpty(raw[..i]) == NonEmpty(raw)[..|NonEmpty(raw[..i])|]
  {
    NonEmptyConcat(raw[..i], raw[i..]);
    assert raw[..i] + raw[i..] == raw;
  }

}
