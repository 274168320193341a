/** modules/minecraftversion.py: `?version` and `?snapshot` typed in an IRC
    channel are answered with the version the linked Minecraft server runs
    and the latest release or snapshot, looked up at most every five minutes
    and cached in the entry in between. Reading the server's jar, fetching
    the version manifest and the clock are inputs: `pathExists` says whether a
    path exists, `jarVersion` what the jar reports for a path, `latest` what
    the manifest gives (release, snapshot), and `now` the time in
    microseconds. */
module McVersion {
  import opened Strings
  import opened PyErrors
  import opened Xml
  import opened Bus
  import opened ConfigTable
  import opened IrcClient
  import opened RelayConfig
  import opened HandlerLoop

  const ModuleName := "minecraftversion"

  /** An entry of `configs`; the cache fields are `None` until the first
      lookup fills them. */
  datatype VersionConf = VersionConf(
    name: string, irc: string, minecraft: string, channels: seq<string>, jarfile: string,
    lastcheck: Option<int>, jarver: Option<string>, latestver: Option<string>, latestsnap: Option<string>)

  /** The first `<minecraft>` names its client and a jar file that exists. */
  predicate HasJar(e: Element, pathExists: string -> bool)
  {
    HasNamed(e, "minecraft") && "jarfile" in FindAll(e, "minecraft")[0].attrib
    && pathExists(FindAll(e, "minecraft")[0].attrib["jarfile"])
  }

  /** The entry parser of `loadconfig`: kept iff `<irc>` has a name and
      `<minecraft>` has a name and an existing `jarfile`; the channel filter
      is lower-cased and skips nameless channel elements. It never raises. */
  function VersionEntry(name: string, e: Element, pathExists: string -> bool): (r: Outcome<Option<VersionConf>>)
    ensures r.Ok?
    ensures r.value.Some? <==>
      && FindAll(e, "irc") != [] && "name" in FindAll(e, "irc")[0].attrib
      && FindAll(e, "minecraft") != [] && "name" in FindAll(e, "minecraft")[0].attrib
      && "jarfile" in FindAll(e, "minecraft")[0].attrib && pathExists(FindAll(e, "minecraft")[0].attrib["jarfile"])
    ensures r.value.Some? ==>
      var irc := FindAll(e, "irc")[0];
      var mc := FindAll(e, "minecraft")[0].attrib;
      var c := r.value.value;
      && c.name == name && c.irc == irc.attrib["name"] && c.minecraft == mc["name"]
      && c.channels == ChannelNames(FindAll(irc, "channel"), true)
      && c.jarfile == mc["jarfile"]
      && c.lastcheck == None && c.jarver == None && c.latestver == None && c.latestsnap == None
  {
    if !HasNamed(e, "irc") || !HasJar(e, pathExists) then Ok(None)
    else
      var mc := FindAll(e, "minecraft")[0];
      Ok(Some(VersionConf(name, NameOf(e, "irc"), mc.attrib["name"], ChannelNames(RelayConfig.IrcChannels(e), true),
                          mc.attrib["jarfile"], None, None, None, None)))
  }

  /** A relay entry whose `<minecraft>` part also names an existing jar file
      reads back with its lower-cased channels, that jar and an empty cache;
      with a jar file that does not exist it is skipped. */
  lemma VersionEntryReadsBack(c: RelayConf, jar: string, pathExists: string -> bool)
    ensures var e := EntryElement(c.name, map["name" := c.irc], c.channels, map["name" := c.minecraft, "jarfile" := jar]);
      VersionEntry(c.name, e, pathExists)
        == if pathExists(jar) then Ok(Some(VersionConf(c.name, c.irc, c.minecraft, LowerAll(c.channels), jar, None, None, None, None)))
           else Ok(None)
  {
    EntryParts(c.name, map["name" := c.irc], c.channels, map["name" := c.minecraft, "jarfile" := jar]);
    ChannelNamesReadBack(c.channels, true);
  }

  /** `loadconfig(config, module)`. */
  method LoadConfig(configs: Table<VersionConf>, config: seq<Element>, pathExists: string -> bool) returns (raised: Option<PyError>)
    requires configs.Valid()
    modifies configs
    ensures configs.Valid()
    ensures (configs.names, configs.confs, raised)
      == LoadAll(old(configs.names), old(configs.confs), config, (n, e) => VersionEntry(n, e, pathExists))
    ensures raised == None
  {
    LoadAllRaises(configs.names, configs.confs, config, (n, e) => VersionEntry(n, e, pathExists), {});
    raised := configs.Load(config, (n, e) => VersionEntry(n, e, pathExists));
  }

  const Second := 1000000

  /** `(utcnow() - lastcheck).seconds > 300` as written: `.seconds` is only
      the seconds part of the difference, the whole days left out. */
  predicate StaleAsWritten(last: int, now: int)
  {
    ((now - last) / Second) % 86400 > 300
  }

  /** More than five minutes have passed since `last`. */
  predicate Stale(last: int, now: int)
  {
    now - last > 300 * Second
  }

  /** A day and a bit after a lookup the check as written still takes the
      cache to be fresh. */
  lemma DayOldCacheKeptAsWritten()
    ensures !StaleAsWritten(0, (86400 + 100) * Second)
    ensures Stale(0, (86400 + 100) * Second)
  {
  }

  /** Once stale, an entry stays stale as time goes on, and it is fresh for
      the five minutes after a lookup. */
  lemma StaleMonotone(last: int, now: int, later: int)
    requires now <= later
    ensures Stale(last, now) ==> Stale(last, later)
    ensures last <= now <= last + 300 * Second ==> !Stale(last, now)
  {
  }

  /** The check as written is not monotone: an entry stale six minutes after
      the lookup is fresh again a day later. */
  lemma AsWrittenNotMonotone()
    ensures StaleAsWritten(0, 360 * Second)
    ensures !StaleAsWritten(0, (86400 + 60) * Second)
  {
  }

  /** For the five minutes after a lookup the check as written finds the
      cache fresh, as the intended one does. */
  lemma FreshAfterLookupAsWritten(last: int, now: int)
    requires last <= now <= last + 300 * Second
    ensures !StaleAsWritten(last, now) && !Stale(last, now)
  {
    var d := now - last;
    assert 0 <= d / Second <= 300;
  }

  /** Whether a pass at time `now` looks the versions up again, with the
      staleness check as the source writes it. */
  predicate Refreshes(c: VersionConf, now: int)
  {
    c.lastcheck.None? || StaleAsWritten(c.lastcheck.value, now)
  }

  /** The entry after the lookup step of a pass. */
  function Refreshed(c: VersionConf, now: int, jarVersion: string -> Option<string>,
                     latest: (Option<string>, Option<string>)): VersionConf
  {
    if Refreshes(c, now) then
      c.(jarver := jarVersion(c.jarfile), latestver := latest.0, latestsnap := latest.1, lastcheck := Some(now))
    else c
  }

  /** A reply to the channel the command came from, sent on behalf of entry
      `c` to the IRC client that saw it. */
  function Say(c: VersionConf, sender: string, ircTarget: string, text: string): BusEvent
  {
    IrcCommand(sender, ModuleName, c.name, "version", "PRIVMSG " + ircTarget + " :" + text)
  }

  /** The replies for entry `d` once its cache is up to date: a failed lookup
      draws one complaint and ends the handler; a snapshot query one line; a
      version query one line when the server is current, else two. Adding a
      missing snapshot to the text raises `TypeError`. */
  function Replies(d: VersionConf, sender: string, ircTarget: string, snapshot: bool, suffix: string): Outcome<Step>
  {
    var typ := if snapshot then "snapshot" else "version";
    if d.jarver.None? then Ok(Stop([Say(d, sender, ircTarget, "Unable to retrive the current " + typ + " for " + d.minecraft)]))
    else if d.latestver.None? then Ok(Stop([Say(d, sender, ircTarget, "Unable to retrieve the latest available " + typ)]))
    else if snapshot then
      if d.latestsnap.None? then Raised(TypeError)
      else Ok(Next([Say(d, sender, ircTarget, "The latest available minecraft snapshot is: " + d.latestsnap.value + suffix)]))
    else if d.jarver == d.latestver then
      Ok(Next([Say(d, sender, ircTarget, d.minecraft + " is currently up to date and running: " + d.jarver.value + suffix)]))
    else
      Ok(Next([Say(d, sender, ircTarget, d.minecraft + " is currently running: " + d.jarver.value + suffix),
               Say(d, sender, ircTarget, "The latest available minecraft version is: " + d.latestver.value + suffix)]))
  }

  /** One pass of the loop body over entry `c`: the entry it leaves and what
      it did. */
  datatype Pass = Pass(conf: VersionConf, step: Outcome<Step>)

  function Body(c: VersionConf, sender: string, evt: IrcEvent, now: int, jarVersion: string -> Option<string>,
                latest: (Option<string>, Option<string>)): Pass
  {
    if c.irc != sender then Pass(c, Ok(Next([])))
    else if c.channels != [] && Lower(evt.target) !in c.channels then Pass(c, Ok(Stop([])))
    else
      var word := Split(evt.message, ' ')[0];
      if word != "?version" && word != "?snapshot" then Pass(c, Ok(Stop([])))
      else
        var d := Refreshed(c, now, jarVersion, latest);
        Pass(d, Replies(d, sender, evt.target, word == "?snapshot", if Refreshes(c, now) then "" else " (cached)"))
  }

  /** The loop over the keys `names`, each pass updating its entry in place. */
  function Walk(names: seq<string>, confs: map<string, VersionConf>, sender: string, evt: IrcEvent, now: int,
                jarVersion: string -> Option<string>, latest: (Option<string>, Option<string>),
                sent: seq<BusEvent>): (r: (Emitted, map<string, VersionConf>))
    requires forall n :: n in names ==> n in confs
    ensures r.1.Keys == confs.Keys
    decreases |names|
  {
    if names == [] then (Emitted(sent, None), confs)
    else
      var p := Body(confs[names[0]], sender, evt, now, jarVersion, latest);
      var next := confs[names[0] := p.conf];
      match p.step
      case Raised(e) => (Emitted(sent, Some(e)), next)
      case Ok(Stop(out)) => (Emitted(sent + out, None), next)
      case Ok(Next(out)) => Walk(names[1..], next, sender, evt, now, jarVersion, latest, sent + out)
  }

  /** What `handle_event` sends and leaves in `configs`. */
  function Handled(moduleName: string, event: string, names: seq<string>, confs: map<string, VersionConf>,
                   sender: string, evt: IrcEvent, now: int, jarVersion: string -> Option<string>,
                   latest: (Option<string>, Option<string>)): (r: (Emitted, map<string, VersionConf>))
    requires forall n :: n in names ==> n in confs
    ensures moduleName != "irc" || event != "CHANNEL_MESSAGE" ==> r == (Emitted([], None), confs)
  {
    if moduleName != "irc" || event != "CHANNEL_MESSAGE" then (Emitted([], None), confs)
    else Walk(names, confs, sender, evt, now, jarVersion, latest, [])
  }

  /** `handle_event(loop, module, sender, protocol, event, data)`. */
  method HandleEvent(configs: Table<VersionConf>, moduleName: string, event: string, sender: string, evt: IrcEvent,
                     now: int, jarVersion: string -> Option<string>, latest: (Option<string>, Option<string>))
    returns (r: Emitted)
    requires configs.Valid()
    modifies configs
    ensures configs.Valid() && configs.names == old(configs.names)
    ensures (r, configs.confs) == Handled(moduleName, event, old(configs.names), old(configs.confs), sender, evt, now, jarVersion, latest)
  {
    if moduleName != "irc" || event != "CHANNEL_MESSAGE" {
      return Emitted([], None);
    }
    var names := configs.names;
    var sent: seq<BusEvent> := [];
    var i := 0;
    while i < |names|
      invariant 0 <= i <= |names| && configs.names == names && configs.Valid()
      invariant configs.confs.Keys == old(configs.confs).Keys
      invariant Walk(names[i..], configs.confs, sender, evt, now, jarVersion, latest, sent)
        == Walk(names, old(configs.confs), sender, evt, now, jarVersion, latest, [])
    {
      var n := names[i];
      assert names[i..][1..] == names[i + 1..];
      var p := Body(configs.confs[n], sender, evt, now, jarVersion, latest);
      configs.confs := configs.confs[n := p.conf];
      match p.step {
        case Raised(e) =>
          return Emitted(sent, Some(e));
        case Ok(Stop(out)) =>
          return Emitted(sent + out, None);
        case Ok(Next(out)) =>
          sent := sent + out;
      }
      i := i + 1;
    }
    return Emitted(sent, None);
  }

  /** Every reply goes to the IRC client that saw the command, as an
      `IRC_SENDCMD` from this module. */
  lemma {:induction false} RepliesToSender(names: seq<string>, confs: map<string, VersionConf>, sender: string, evt: IrcEvent,
                                           now: int, jarVersion: string -> Option<string>,
                                           latest: (Option<string>, Option<string>), sent: seq<BusEvent>)
    requires forall n :: n in names ==> n in confs
    requires forall e :: e in sent ==> e.target == To("irc", sender) && e.event == "IRC_SENDCMD" && e.moduleName == ModuleName
    ensures forall e :: e in Walk(names, confs, sender, evt, now, jarVersion, latest, sent).0.events ==>
      e.target == To("irc", sender) && e.event == "IRC_SENDCMD" && e.moduleName == ModuleName
    decreases |names|
  {
    if names != [] {
      var p := Body(confs[names[0]], sender, evt, now, jarVersion, latest);
      if p.step.Ok? {
        var out := p.step.value.out;
        BodyRepliesToSender(confs[names[0]], sender, evt, now, jarVersion, latest);
        assert forall n :: n in names[1..] ==> n in names;
        RepliesToSender(names[1..], confs[names[0] := p.conf], sender, evt, now, jarVersion, latest, sent + out);
      }
    }
  }

  /** One pass replies only to the IRC client that saw the command. */
  lemma BodyRepliesToSender(c: VersionConf, sender: string, evt: IrcEvent, now: int,
                            jarVersion: string -> Option<string>, latest: (Option<string>, Option<string>))
    ensures var p := Body(c, sender, evt, now, jarVersion, latest);
      p.step.Ok? ==> forall e :: e in p.step.value.out ==>
        e.target == To("irc", sender) && e.event == "IRC_SENDCMD" && e.moduleName == ModuleName
  {
    if c.irc == sender && (c.channels == [] || Lower(evt.target) in c.channels) {
      var word := Split(evt.message, ' ')[0];
      if word == "?version" || word == "?snapshot" {
        var d := Refreshed(c, now, jarVersion, latest);
        ReplyTargets(d, sender, evt.target, word == "?snapshot", if Refreshes(c, now) then "" else " (cached)");
      }
    }
  }

  lemma ReplyTargets(d: VersionConf, sender: string, ircTarget: string, snapshot: bool, suffix: string)
    ensures var r := Replies(d, sender, ircTarget, snapshot, suffix);
      r.Ok? ==> forall e :: e in r.value.out ==>
        e.target == To("irc", sender) && e.event == "IRC_SENDCMD" && e.moduleName == ModuleName
  {
  }

  /** A query a day and a bit after a lookup is answered from the cache, as
      the check as written decides, although the intended check would look
      the versions up again. */
  lemma DayOldCacheServed(c: VersionConf, jarVersion: string -> Option<string>, latest: (Option<string>, Option<string>))
    requires c.lastcheck == Some(0)
    ensures var now := (86400 + 100) * Second;
      !Refreshes(c, now) && Stale(0, now) && Refreshed(c, now, jarVersion, latest) == c
  {
    DayOldCacheKeptAsWritten();
  }

  /** A lookup happens only for an entry never looked up or stale by the
      check as written: otherwise
      the pass is the same whatever the jar and the manifest would say, and
      its replies are marked as cached. A lookup stamps the entry with the
      time and keeps what the jar and the manifest said. */
  lemma LookupOnlyWhenStale(c: VersionConf, sender: string, evt: IrcEvent, now: int,
                            jarVersion: string -> Option<string>, latest: (Option<string>, Option<string>),
                            jarVersion': string -> Option<string>, latest': (Option<string>, Option<string>))
    ensures !Refreshes(c, now) ==> Body(c, sender, evt, now, jarVersion, latest) == Body(c, sender, evt, now, jarVersion', latest')
    ensures Refreshes(c, now) ==>
      var d := Refreshed(c, now, jarVersion, latest);
      d.lastcheck == Some(now) && d.jarver == jarVersion(c.jarfile) && (d.latestver, d.latestsnap) == latest
      && d == c.(lastcheck := d.lastcheck, jarver := d.jarver, latestver := d.latestver, latestsnap := d.latestsnap)
  {
  }

  /** Within five minutes of a lookup a second query is answered from the
      cache and leaves the entry as it is. */
  lemma {:induction false} CacheReused(c: VersionConf, sender: string, evt: IrcEvent, t1: int, t2: int,
                                       jarVersion: string -> Option<string>, latest: (Option<string>, Option<string>),
                                       jarVersion': string -> Option<string>, latest': (Option<string>, Option<string>))
    requires Refreshes(c, t1) && t1 <= t2 <= t1 + 300 * Second
    ensures var d := Refreshed(c, t1, jarVersion, latest);
      !Refreshes(d, t2) && Body(d, sender, evt, t2, jarVersion', latest').conf == d
  {
    FreshAfterLookupAsWritten(t1, t2);
  }

  /** The shape of the answer: a failed lookup draws exactly one complaint
      and ends the handler; otherwise the pass goes on after one reply, or
      two for a version query on a server that is not current; only a
      snapshot query without a known snapshot raises. */
  lemma ReplyCount(d: VersionConf, sender: string, ircTarget: string, snapshot: bool, suffix: string)
    ensures var r := Replies(d, sender, ircTarget, snapshot, suffix);
      && (r.Raised? <==> snapshot && d.jarver.Some? && d.latestver.Some? && d.latestsnap.None?)
      && (r.Ok? ==> (r.value.Stop? <==> d.jarver.None? || d.latestver.None?))
      && (r.Ok? ==> |r.value.out| == if r.value.Next? && !snapshot && d.jarver != d.latestver then 2 else 1)
  {
  }
}
