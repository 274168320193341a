/** `loadconfig` of modules/irc/__init__.py: how one `<irc>` element of the
    configuration becomes an IRC client configuration. */
module IrcConfig {
  import opened Strings
  import opened PyInt
  import opened PyErrors
  import opened Xml
  import opened ConfigTable
  import IrcClient

  /** A stored configuration. `server` and `user` are the attribute maps of
      the first `<server>` and `<user>` elements; `tls` and `password` are
      the values `loadconfig` writes back over the `tls` and `password`
      attributes; the channel table maps each lower-cased channel name, in
      insertion order, to the attribute map of its `<channel>` element. */
  datatype IrcConf = IrcConf(
    name: string,
    server: map<string, string>,
    tls: bool,
    password: Option<string>,
    user: map<string, string>,
    chanOrder: seq<string>,
    channels: map<string, map<string, string>>)

  /** A channel key may not contain a space (it would split the `JOIN` line). */
  predicate KeyOk(attrib: map<string, string>)
  {
    "key" !in attrib || ' ' !in attrib["key"]
  }

  /** The channel table is keyed by lower-cased name, in insertion order,
      and holds only channels whose key has no space. */
  ghost predicate ChannelTableOk(order: seq<string>, table: map<string, map<string, string>>)
  {
    && NoDups(order)
    && (forall k :: k in table <==> k in order)
    && forall k :: k in table ==> "name" in table[k] && Lower(table[k]["name"]) == k && KeyOk(table[k])
  }

  /** The `for chan in chans` loop: a channel without a name, one whose
      lower-cased name is already in the table, or one whose key has a space
      is skipped; any other is stored under its lower-cased name. */
  function AddChannels(order: seq<string>, table: map<string, map<string, string>>, chans: seq<Element>): (seq<string>, map<string, map<string, string>>)
    decreases |chans|
  {
    if chans == [] then (order, table)
    else
      var a := chans[0].attrib;
      if "name" in a && Lower(a["name"]) !in table && KeyOk(a) then
        AddChannels(order + [Lower(a["name"])], table[Lower(a["name"]) := a], chans[1..])
      else AddChannels(order, table, chans[1..])
  }

  /** The loop keeps the table well formed, never replaces a stored channel,
      and stores a lower-cased name iff some named element with that name in
      any case has an acceptable key. */
  lemma {:induction false} AddChannelsSpec(order: seq<string>, table: map<string, map<string, string>>, chans: seq<Element>)
    requires ChannelTableOk(order, table)
    ensures var r := AddChannels(order, table, chans);
      && ChannelTableOk(r.0, r.1)
      && (forall k :: k in table ==> k in r.1 && r.1[k] == table[k])
      && forall k :: k in r.1 <==> k in table || exists c :: c in chans && "name" in c.attrib && Lower(c.attrib["name"]) == k && KeyOk(c.attrib)
    decreases |chans|
  {
    if chans != [] {
      var a := chans[0].attrib;
      assert forall c :: c in chans[1..] ==> c in chans;
      assert chans == [chans[0]] + chans[1..];
      if "name" in a && Lower(a["name"]) !in table && KeyOk(a) {
        var k := Lower(a["name"]);
        LowerIdempotent(a["name"]);
        assert ChannelTableOk(order + [k], table[k := a]);
        AddChannelsSpec(order + [k], table[k := a], chans[1..]);
      } else {
        AddChannelsSpec(order, table, chans[1..]);
      }
    }
  }

  /** The position of the first `<channel>` element named `k` in any letter
      case whose key is acceptable, or `|chans|` when there is none. */
  function FirstAt(chans: seq<Element>, k: string): (i: nat)
    ensures i <= |chans|
    ensures i < |chans| ==> "name" in chans[i].attrib && Lower(chans[i].attrib["name"]) == k && KeyOk(chans[i].attrib)
    decreases |chans|
  {
    if chans == [] then 0
    else
      var a := chans[0].attrib;
      if "name" in a && Lower(a["name"]) == k && KeyOk(a) then 0
      else 1 + FirstAt(chans[1..], k)
  }

  /** The loop appends the new names after the old ones, in the document
      order of their first acceptable element, and stores under each new
      name the attributes of that first element: a later element with the
      same name is skipped. */
  lemma AddChannelsFirst(order: seq<string>, table: map<string, map<string, string>>, chans: seq<Element>)
    requires ChannelTableOk(order, table)
    ensures var r := AddChannels(order, table, chans);
      && |order| <= |r.0| && r.0[..|order|] == order
      && (forall k :: k in r.1 && k !in table ==> FirstAt(chans, k) < |chans| && r.1[k] == chans[FirstAt(chans, k)].attrib)
      && (forall i, j :: |order| <= i < j < |r.0| ==> FirstAt(chans, r.0[i]) < FirstAt(chans, r.0[j]))
  {
    AddChannelsPrefix(order, table, chans);
    AddChannelsValues(order, table, chans);
    AddChannelsOrder(order, table, chans);
  }

  lemma {:induction false} AddChannelsPrefix(order: seq<string>, table: map<string, map<string, string>>, chans: seq<Element>)
    ensures var r := AddChannels(order, table, chans);
      |order| <= |r.0| && r.0[..|order|] == order
    decreases |chans|
  {
    if chans != [] {
      var a := chans[0].attrib;
      if "name" in a && Lower(a["name"]) !in table && KeyOk(a) {
        var k0 := Lower(a["name"]);
        AddChannelsPrefix(order + [k0], table[k0 := a], chans[1..]);
        var r := AddChannels(order + [k0], table[k0 := a], chans[1..]);
        assert r.0[..|order|] == r.0[..|order| + 1][..|order|];
      } else {
        AddChannelsPrefix(order, table, chans[1..]);
      }
    }
  }

  /** A name the first element does not stand for is found one place later. */
  lemma FirstAtTail(chans: seq<Element>, k: string)
    requires chans != []
    requires !("name" in chans[0].attrib && Lower(chans[0].attrib["name"]) == k && KeyOk(chans[0].attrib))
    ensures FirstAt(chans, k) == 1 + FirstAt(chans[1..], k)
  {
  }

  lemma {:induction false} AddChannelsValues(order: seq<string>, table: map<string, map<string, string>>, chans: seq<Element>)
    requires ChannelTableOk(order, table)
    ensures var r := AddChannels(order, table, chans);
      forall k :: k in r.1 && k !in table ==> FirstAt(chans, k) < |chans| && r.1[k] == chans[FirstAt(chans, k)].attrib
    decreases |chans|
  {
    if chans != [] {
      var a := chans[0].attrib;
      var rest := chans[1..];
      var r := AddChannels(order, table, chans);
      if "name" in a && Lower(a["name"]) !in table && KeyOk(a) {
        var k0 := Lower(a["name"]);
        LowerIdempotent(a["name"]);
        assert ChannelTableOk(order + [k0], table[k0 := a]);
        AddChannelsSpec(order + [k0], table[k0 := a], rest);
        AddChannelsValues(order + [k0], table[k0 := a], rest);
        forall k | k in r.1 && k !in table
          ensures FirstAt(chans, k) < |chans| && r.1[k] == chans[FirstAt(chans, k)].attrib
        {
          if k != k0 {
            FirstAtTail(chans, k);
          }
        }
      } else {
        AddChannelsValues(order, table, rest);
        forall k | k in r.1 && k !in table
          ensures FirstAt(chans, k) < |chans| && r.1[k] == chans[FirstAt(chans, k)].attrib
        {
          FirstAtTail(chans, k);
        }
      }
    }
  }

  /** The names the loop appends are stored and were not stored before. */
  lemma NewNamesNew(order: seq<string>, table: map<string, map<string, string>>, chans: seq<Element>, i: int)
    requires ChannelTableOk(order, table)
    requires var r := AddChannels(order, table, chans); |order| <= i < |r.0|
    ensures var r := AddChannels(order, table, chans); r.0[i] in r.1 && r.0[i] !in table
  {
    var r := AddChannels(order, table, chans);
    AddChannelsSpec(order, table, chans);
    AddChannelsPrefix(order, table, chans);
  }

  lemma {:induction false} AddChannelsOrder(order: seq<string>, table: map<string, map<string, string>>, chans: seq<Element>)
    requires ChannelTableOk(order, table)
    ensures var r := AddChannels(order, table, chans);
      forall i, j :: |order| <= i < j < |r.0| ==> FirstAt(chans, r.0[i]) < FirstAt(chans, r.0[j])
    decreases |chans|
  {
    if chans != [] {
      var a := chans[0].attrib;
      var rest := chans[1..];
      var r := AddChannels(order, table, chans);
      if "name" in a && Lower(a["name"]) !in table && KeyOk(a) {
        var k0 := Lower(a["name"]);
        LowerIdempotent(a["name"]);
        var order' := order + [k0];
        var table' := table[k0 := a];
        assert ChannelTableOk(order', table');
        AddChannelsOrder(order', table', rest);
        AddChannelsPrefix(order', table', rest);
        assert r.0[|order|] == order'[|order|] == k0;
        forall i, j | |order| <= i < j < |r.0|
          ensures FirstAt(chans, r.0[i]) < FirstAt(chans, r.0[j])
        {
          NewNamesNew(order', table', rest, j);
          FirstAtTail(chans, r.0[j]);
          if i > |order| {
            NewNamesNew(order', table', rest, i);
            FirstAtTail(chans, r.0[i]);
          }
        }
      } else {
        AddChannelsOrder(order, table, rest);
        forall i, j | |order| <= i < j < |r.0|
          ensures FirstAt(chans, r.0[i]) < FirstAt(chans, r.0[j])
        {
          NewNamesNew(order, table, rest, i);
          NewNamesNew(order, table, rest, j);
          FirstAtTail(chans, r.0[i]);
          FirstAtTail(chans, r.0[j]);
        }
      }
    }
  }

  /** The `tls` attribute: absent is off; `true`, `yes` or `y` in any case is
      on; anything else goes through `int()`, on when non-zero, and raises
      `ValueError` when it is not an integer. */
  function Tls(value: Option<string>): Outcome<bool>
  {
    if value.None? then Ok(false)
    else if Lower(value.value) in ["true", "yes", "y"] then Ok(true)
    else
      match ParseInt(value.value)
      case None => Raised(ValueError)
      case Some(i) => Ok(i != 0)
  }

  /** A number written out is on exactly when it is non-zero. */
  lemma TlsNumber(i: int)
    ensures Tls(Some(IntToString(i))) == Ok(i != 0)
  {
    var s := IntToString(i);
    IntRoundTrip(i);
    assert |s| > 0 && (s[0] == '-' || IsDigit(s[0]));
    NotAWord(s);
  }

  /** Text starting with a sign or a digit is none of the accepted words. */
  lemma NotAWord(s: string)
    requires |s| > 0 && (s[0] == '-' || IsDigit(s[0]))
    ensures Lower(s) !in ["true", "yes", "y"]
  {
    assert Lower(s)[0] == s[0];
  }

  /** A value that is none of the three accepted words and holds a letter or
      any other character that is no digit, underscore, sign or white space
      is not read as off: it makes `loadconfig` raise. */
  lemma TlsWordRaises(word: string, i: int)
    requires 0 <= i < |word| && !IsDigit(word[i]) && !IsSpace(word[i]) && word[i] !in "+-_"
    requires Lower(word) !in ["true", "yes", "y"]
    ensures Tls(Some(word)) == Raised(ValueError)
  {
    StrayCharNoInt(word, i);
  }

  /** An absent or empty password means none. */
  function Password(value: Option<string>): (r: Option<string>)
    ensures r.Some? <==> value.Some? && value.value != ""
    ensures r.Some? ==> r == value
  {
    if value.None? || value.value == "" then None else value
  }

  function Attr(attrib: map<string, string>, key: string): Option<string>
  {
    if key in attrib then Some(attrib[key]) else None
  }

  /** The first `<server>` element exists and has a host and a port. */
  predicate ServerOk(e: Element)
  {
    var serv := FindAll(e, "server");
    serv != [] && "host" in serv[0].attrib && "port" in serv[0].attrib
  }

  /** The first `<user>` element exists and has a nick, a user and a gecos. */
  predicate UserOk(e: Element)
  {
    var user := FindAll(e, "user");
    user != [] && "nick" in user[0].attrib && "user" in user[0].attrib && "gecos" in user[0].attrib
  }

  /** The body of the loop for an element named `name` not yet in `configs`:
      stored, skipped (`Ok(None)`), or the `ValueError` of a bad `tls`. The
      `tls` attribute is converted before the user and channel checks, so a
      bad one raises even in an element those checks would skip. */
  function IrcEntry(name: string, e: Element): (r: Outcome<Option<IrcConf>>)
    ensures r.Raised? <==> ServerOk(e) && Tls(Attr(FindAll(e, "server")[0].attrib, "tls")).Raised?
    ensures r.Raised? ==> r.err == ValueError
    ensures r.Ok? && r.value.Some? <==>
      && ServerOk(e) && Tls(Attr(FindAll(e, "server")[0].attrib, "tls")).Ok?
      && UserOk(e) && FindAll(e, "channel") != []
    ensures r.Ok? && r.value.Some? ==>
      var c := r.value.value;
      var s := FindAll(e, "server")[0].attrib;
      && c.name == name && c.server == s
      && "host" in c.server && "port" in c.server
      && c.tls == Tls(Attr(s, "tls")).value && c.password == Password(Attr(s, "password"))
      && c.user == FindAll(e, "user")[0].attrib
      && "nick" in c.user && "user" in c.user && "gecos" in c.user
      && ChannelTableOk(c.chanOrder, c.channels)
      && (forall k :: k in c.channels <==> exists ch :: ch in FindAll(e, "channel") && "name" in ch.attrib && Lower(ch.attrib["name"]) == k && KeyOk(ch.attrib))
      && (forall k :: k in c.channels ==>
            FirstAt(FindAll(e, "channel"), k) < |FindAll(e, "channel")|
            && c.channels[k] == FindAll(e, "channel")[FirstAt(FindAll(e, "channel"), k)].attrib)
      && (forall i, j :: 0 <= i < j < |c.chanOrder| ==>
            FirstAt(FindAll(e, "channel"), c.chanOrder[i]) < FirstAt(FindAll(e, "channel"), c.chanOrder[j]))
  {
    var serv := FindAll(e, "server");
    if serv == [] then Ok(None)
    else
      var s := serv[0].attrib;
      if "host" !in s || "port" !in s then Ok(None)
      else
        match Tls(Attr(s, "tls"))
        case Raised(err) => Raised(err)
        case Ok(tls) =>
          var user := FindAll(e, "user");
          if user == [] then Ok(None)
          else
            var u := user[0].attrib;
            if "nick" !in u || "user" !in u || "gecos" !in u then Ok(None)
            else
              var chans := FindAll(e, "channel");
              if chans == [] then Ok(None)
              else
                AddChannelsSpec([], map[], chans);
                AddChannelsFirst([], map[], chans);
                var t := AddChannels([], map[], chans);
                Ok(Some(IrcConf(name, s, tls, Password(Attr(s, "password")), u, t.0, t.1)))
  }

  /** The channels a stored configuration gives the client: its name as
      written and its key. */
  function ClientChannels(c: IrcConf): (r: seq<IrcClient.ChannelConf>)
    requires ChannelTableOk(c.chanOrder, c.channels)
    ensures |r| == |c.chanOrder|
    ensures forall i :: 0 <= i < |r| ==> Lower(r[i].name) == c.chanOrder[i]
  {
    seq(|c.chanOrder|, i requires 0 <= i < |c.chanOrder| =>
      var a := c.channels[c.chanOrder[i]];
      IrcClient.ChannelConf(a["name"], Attr(a, "key")))
  }

  /** A stored configuration meets what the client's constructor demands:
      no two channels with the same lower-cased name. */
  lemma StoredChannelsDistinct(c: IrcConf)
    requires ChannelTableOk(c.chanOrder, c.channels)
    ensures var chans := ClientChannels(c);
      forall i, j :: 0 <= i < j < |chans| ==> Lower(chans[i].name) != Lower(chans[j].name)
  {
  }

  /** `loadconfig(config, module)`: the element loop over the module's
      `configs` table; a bad `tls` value ends it with `ValueError`, keeping
      the entries stored before. */
  method LoadConfig(configs: Table<IrcConf>, config: seq<Element>) returns (raised: Option<PyError>)
    requires configs.Valid()
    modifies configs
    ensures configs.Valid()
    ensures (configs.names, configs.confs, raised) == LoadAll(old(configs.names), old(configs.confs), config, IrcEntry)
    ensures raised.Some? ==> raised.value == ValueError
  {
    LoadAllRaises(configs.names, configs.confs, config, IrcEntry, {ValueError});
    raised := configs.Load(config, IrcEntry);
  }
}
