/** The `loadconfig` entry parsers of the relay and command modules: each
    entry names an IRC client (`<irc name=…>`) and a Minecraft link
    (`<minecraft name=…>`), and some list IRC channels as `<channel
    name=…>` children of `<irc>`. */
module RelayConfig {
  import opened Strings
  import opened PyErrors
  import opened Xml

  /** `{'name', 'irc', 'minecraft', 'channels'}`. */
  datatype RelayConf = RelayConf(name: string, irc: string, minecraft: string, channels: seq<string>)

  /** The first element with `tag` exists and has a `name`. */
  predicate HasNamed(e: Element, tag: string)
  {
    var p := FindAll(e, tag);
    p != [] && "name" in p[0].attrib
  }

  /** The `name` of the first element with `tag`. */
  function NameOf(e: Element, tag: string): string
    requires HasNamed(e, tag)
  {
    FindAll(e, tag)[0].attrib["name"]
  }

  /** The `<channel>` children of the first `<irc>`. */
  function IrcChannels(e: Element): seq<Element>
    requires HasNamed(e, "irc")
  {
    FindAll(FindAll(e, "irc")[0], "channel")
  }

  /** The names of the channel elements that have one, in order, lower-cased
      when `lower` is set. */
  function ChannelNames(chans: seq<Element>, lower: bool): (r: seq<string>)
    ensures |r| <= |chans|
    ensures forall x :: x in r <==> exists c :: c in chans && "name" in c.attrib && x == (if lower then Lower(c.attrib["name"]) else c.attrib["name"])
    decreases |chans|
  {
    if chans == [] then []
    else
      var a := chans[0].attrib;
      assert forall c :: c in chans <==> c == chans[0] || c in chans[1..];
      (if "name" in a then [if lower then Lower(a["name"]) else a["name"]] else []) + ChannelNames(chans[1..], lower)
  }

  /** The entry parser of modules/minecraftircwhitelist.py and of
      modules/relayirctominecraft.py: kept iff `<irc>` and `<minecraft>`
      both exist with a name; the optional channel filter is lower-cased and
      skips nameless channel elements. It never raises. */
  function IrcToMcEntry(name: string, e: Element): (r: Outcome<Option<RelayConf>>)
    ensures r.Ok?
    ensures r.value.Some? <==>
      && FindAll(e, "irc") != [] && "name" in FindAll(e, "irc")[0].attrib
      && FindAll(e, "minecraft") != [] && "name" in FindAll(e, "minecraft")[0].attrib
    ensures r.value.Some? ==>
      var irc := FindAll(e, "irc")[0];
      && r.value.value.name == name && r.value.value.irc == irc.attrib["name"]
      && r.value.value.minecraft == FindAll(e, "minecraft")[0].attrib["name"]
      && r.value.value.channels == ChannelNames(FindAll(irc, "channel"), true)
  {
    if !HasNamed(e, "irc") || !HasNamed(e, "minecraft") then Ok(None)
    else Ok(Some(RelayConf(name, NameOf(e, "irc"), NameOf(e, "minecraft"), ChannelNames(IrcChannels(e), true))))
  }

  /** The entry parser of modules/relayirctominecraft/__init__.py: kept iff
      `<irc>` and `<minecraft>` both exist with a name; no channels. */
  function UserRelayEntry(name: string, e: Element): (r: Outcome<Option<RelayConf>>)
    ensures r.Ok?
    ensures r.value.Some? <==>
      && FindAll(e, "irc") != [] && "name" in FindAll(e, "irc")[0].attrib
      && FindAll(e, "minecraft") != [] && "name" in FindAll(e, "minecraft")[0].attrib
    ensures r.value.Some? ==>
      && r.value.value.name == name && r.value.value.irc == FindAll(e, "irc")[0].attrib["name"]
      && r.value.value.minecraft == FindAll(e, "minecraft")[0].attrib["name"]
      && r.value.value.channels == []
  {
    if !HasNamed(e, "irc") || !HasNamed(e, "minecraft") then Ok(None)
    else Ok(Some(RelayConf(name, NameOf(e, "irc"), NameOf(e, "minecraft"), [])))
  }

  /** The entry parser of modules/relayminecrafttoirc.py: kept iff `<irc>`
      has a name and at least one channel element and `<minecraft>` has a
      name; channel names are kept as written, nameless ones skipped. */
  function McToIrcEntry(name: string, e: Element): (r: Outcome<Option<RelayConf>>)
    ensures r.Ok?
    ensures r.value.Some? <==>
      && FindAll(e, "irc") != [] && "name" in FindAll(e, "irc")[0].attrib
      && FindAll(FindAll(e, "irc")[0], "channel") != []
      && FindAll(e, "minecraft") != [] && "name" in FindAll(e, "minecraft")[0].attrib
    ensures r.value.Some? ==>
      var irc := FindAll(e, "irc")[0];
      && r.value.value.name == name && r.value.value.irc == irc.attrib["name"]
      && r.value.value.minecraft == FindAll(e, "minecraft")[0].attrib["name"]
      && r.value.value.channels == ChannelNames(FindAll(irc, "channel"), false)
  {
    if !HasNamed(e, "irc") || IrcChannels(e) == [] || !HasNamed(e, "minecraft") then Ok(None)
    else Ok(Some(RelayConf(name, NameOf(e, "irc"), NameOf(e, "minecraft"), ChannelNames(IrcChannels(e), false))))
  }

  /** One `<channel name=…>` element per name, in order. */
  function ChannelElements(names: seq<string>): (r: seq<Element>)
    ensures |r| == |names|
    decreases |names|
  {
    if names == [] then [] else [Element("channel", map["name" := names[0]], [])] + ChannelElements(names[1..])
  }

  /** A relay entry as the configuration file writes it: an `<irc>` element
      with attributes `ircAttrs` holding one `<channel>` per name, then a
      `<minecraft>` element with attributes `mcAttrs`. */
  function EntryElement(name: string, ircAttrs: map<string, string>, channels: seq<string>, mcAttrs: map<string, string>): Element
  {
    Element("relay", map["name" := name],
            [Element("irc", ircAttrs, ChannelElements(channels)), Element("minecraft", mcAttrs, [])])
  }

  /** The element that describes `c`. */
  function RelayElement(c: RelayConf): Element
  {
    EntryElement(c.name, map["name" := c.irc], c.channels, map["name" := c.minecraft])
  }

  function LowerAll(names: seq<string>): (r: seq<string>)
    ensures |r| == |names| && forall i :: 0 <= i < |r| ==> r[i] == Lower(names[i])
    decreases |names|
  {
    if names == [] then [] else [Lower(names[0])] + LowerAll(names[1..])
  }

  /** The parts of an entry element are found where they were put. */
  lemma EntryParts(name: string, ircAttrs: map<string, string>, channels: seq<string>, mcAttrs: map<string, string>)
    ensures var e := EntryElement(name, ircAttrs, channels, mcAttrs);
      && FindAll(e, "irc") == [e.children[0]]
      && FindAll(e, "minecraft") == [e.children[1]]
      && FindAll(e.children[0], "channel") == ChannelElements(channels)
  {
    var e := EntryElement(name, ircAttrs, channels, mcAttrs);
    assert e.children[1..] == [e.children[1]];
    assert e.children[1..][1..] == [];
    assert "minecraft"[0] != "irc"[0];
    assert Tagged(e.children[1..], "irc") == [];
    ChannelsTagged(channels);
  }

  lemma {:induction false} ChannelsTagged(names: seq<string>)
    ensures Tagged(ChannelElements(names), "channel") == ChannelElements(names)
    decreases |names|
  {
    if names != [] {
      ChannelsTagged(names[1..]);
    }
  }

  /** The channel names read back from the channel elements, lower-cased
      when `lower` is set. */
  lemma {:induction false} ChannelNamesReadBack(names: seq<string>, lower: bool)
    ensures ChannelNames(ChannelElements(names), lower) == if lower then LowerAll(names) else names
    decreases |names|
  {
    if names != [] {
      var es := ChannelElements(names);
      assert es[1..] == ChannelElements(names[1..]);
      ChannelNamesReadBack(names[1..], lower);
      assert names == [names[0]] + names[1..];
    }
  }

  /** Each parser reads a written entry back: the whitelist and relay filter
      with its channels lower-cased, the user relay without channels, and
      the Minecraft-to-IRC relay unchanged, provided it has a channel. */
  lemma EntriesReadBack(c: RelayConf)
    ensures IrcToMcEntry(c.name, RelayElement(c)) == Ok(Some(c.(channels := LowerAll(c.channels))))
    ensures UserRelayEntry(c.name, RelayElement(c)) == Ok(Some(c.(channels := [])))
    ensures McToIrcEntry(c.name, RelayElement(c)) == if c.channels == [] then Ok(None) else Ok(Some(c))
  {
    EntryParts(c.name, map["name" := c.irc], c.channels, map["name" := c.minecraft]);
    ChannelNamesReadBack(c.channels, true);
    ChannelNamesReadBack(c.channels, false);
  }

  /** An entry whose `<irc>` or `<minecraft>` part has no name is skipped by
      every parser, whatever else it holds. */
  lemma NamelessRejected(name: string, ircAttrs: map<string, string>, channels: seq<string>, mcAttrs: map<string, string>)
    requires "name" !in ircAttrs || "name" !in mcAttrs
    ensures var e := EntryElement(name, ircAttrs, channels, mcAttrs);
      && IrcToMcEntry(name, e) == Ok(None)
      && UserRelayEntry(name, e) == Ok(None)
      && McToIrcEntry(name, e) == Ok(None)
  {
    EntryParts(name, ircAttrs, channels, mcAttrs);
  }

  /** The entries for IRC client `irc`, in order: the ones a handler whose
      loop skips other clients' entries looks at. */
  function ForIrc(entries: seq<RelayConf>, irc: string): (r: seq<RelayConf>)
    ensures forall c :: c in r <==> c in entries && c.irc == irc
    decreases |entries|
  {
    if entries == [] then []
    else
      assert forall c :: c in entries <==> c == entries[0] || c in entries[1..];
      (if entries[0].irc == irc then [entries[0]] else []) + ForIrc(entries[1..], irc)
  }
}
