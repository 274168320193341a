/** The decisions `m_privmsg`, `m_cap`, `_isop` and `_ischannel` of
    modules/irc/protocol.py make on message text, rosters and capability
    lists. */
module IrcPrivmsg {
  import opened Strings
  import opened IrcRoster

  /** `_ischannel`: the name starts with one of the channel type characters. */
  predicate IsChannel(chantypes: string, name: string)
  {
    |name| >= 1 && name[0] in chantypes
  }

  /** The text of a `\x01ACTION ...\x01` message: an action when it starts
      with `\x01ACTION` and has more than eight characters, with the first
      eight and a closing `\x01` taken off. */
  function ActionText(text: string): (r: (bool, string))
    ensures !r.0 ==> r.1 == text
  {
    if Take(text, 7) == "\U{1}ACTION" && |text| > 8 then
      var t := text[8..];
      (true, if t[|t| - 1] == '\U{1}' then t[..|t| - 1] else t)
    else (false, text)
  }

  /** A CTCP action wraps text that comes back out unchanged. */
  lemma ActionRoundTrip(t: string)
    ensures ActionText("\U{1}ACTION " + t + "\U{1}") == (true, t)
  {
    var text := "\U{1}ACTION " + t + "\U{1}";
    assert Take(text, 7) == "\U{1}ACTION";
    assert text[8..] == t + "\U{1}";
    assert (t + "\U{1}")[..|t|] == t;
  }

  /** A text that is not a CTCP action is relayed as it is. */
  lemma PlainTextKept(text: string)
    requires text == [] || text[0] != '\U{1}'
    ensures ActionText(text) == (false, text)
  {
    if |text| >= 7 {
      assert Take(text, 7)[0] == text[0];
    }
  }

  /** A private CTCP `VERSION` request: the text starts with `\x01`, and
      with that and a closing `\x01` taken off its first word is `VERSION`
      in any letter case. */
  predicate AskedVersion(text: string)
  {
    && text != [] && text[0] == '\U{1}'
    && var v := text[1..];
       var v' := if v != [] && v[|v| - 1] == '\U{1}' then v[..|v| - 1] else v;
       v' != [] && Upper(Split(v', ' ')[0]) == "VERSION"
  }

  const VersionReply := "\U{1}VERSION RelayBot 2.0 https://github.com/jobe1986/relaybot\U{1}"

  lemma UpperVersion()
    ensures Upper("version") == "VERSION" && Upper("VERSION") == "VERSION"
  {
  }

  /** `\x01VERSION\x01` and `\x01version\x01` are requests. */
  lemma AskedVersionExamples()
    ensures AskedVersion("\U{1}VERSION\U{1}")
    ensures AskedVersion("\U{1}version\U{1}")
  {
    UpperVersion();
    SplitNoSep("VERSION", ' ');
    SplitNoSep("version", ' ');
    assert "\U{1}VERSION\U{1}"[1..] == "VERSION\U{1}";
    assert "VERSION\U{1}"[..7] == "VERSION";
    assert "\U{1}version\U{1}"[1..] == "version\U{1}";
    assert "version\U{1}"[..7] == "version";
  }

  /** `_isop` on a channel with a roster: the nick's member holds `o`. */
  predicate IsOp(u: Roster, nick: string)
  {
    Lower(nick) in u.entries && 'o' in u.entries[Lower(nick)].status
  }

  /** The `?ops` reply list: in roster order, the nick of every member whose
      key passes `_isop`. */
  function Ops(u: Roster, keys: seq<string>): (r: seq<string>)
    requires forall k :: k in keys ==> k in u.entries
    decreases |keys|
  {
    if keys == [] then []
    else
      var init := keys[..|keys| - 1];
      var k := keys[|keys| - 1];
      assert forall x :: x in init ==> x in keys;
      Ops(u, init) + (if IsOp(u, k) then [u.entries[k].nick] else [])
  }

  /** With keys filed in lower case, as every handler files them, a member
      is listed exactly when it holds `o`. */
  lemma {:induction false} OpsListed(u: Roster, keys: seq<string>, n: string)
    requires forall k :: k in keys ==> k in u.entries && Lower(k) == k
    ensures n in Ops(u, keys) <==> exists k :: k in keys && 'o' in u.entries[k].status && u.entries[k].nick == n
    decreases |keys|
  {
    if keys != [] {
      var init := keys[..|keys| - 1];
      assert forall x :: x in init ==> x in keys;
      assert forall x :: x in keys <==> x in init || x == keys[|keys| - 1];
      OpsListed(u, init, n);
    }
  }

  /** The `?account` reply about `who`. */
  function AccountReply(u: Roster, who: string): string
  {
    if Lower(who) !in u.entries then "There is no user named " + who
    else if u.entries[Lower(who)].account == "" then "I do not know what account " + who + " is logged in as"
    else who + " is logged in as " + u.entries[Lower(who)].account
  }

  /** `CAP LS`: the advertised capabilities the client supports, in the
      server's order. */
  function CapRequest(advertised: seq<string>, known: set<string>): (r: seq<string>)
    decreases |advertised|
  {
    if advertised == [] then []
    else
      var init := advertised[..|advertised| - 1];
      var c := advertised[|advertised| - 1];
      CapRequest(init, known) + (if c in known then [c] else [])
  }

  /** Exactly the supported advertised capabilities are requested, and no
      more often than advertised. */
  lemma {:induction false} CapRequestSpec(advertised: seq<string>, known: set<string>)
    ensures forall c :: c in CapRequest(advertised, known) <==> c in advertised && c in known
    ensures |CapRequest(advertised, known)| <= |advertised|
    decreases |advertised|
  {
    if advertised != [] {
      var init := advertised[..|advertised| - 1];
      CapRequestSpec(init, known);
      assert forall x :: x in advertised <==> x in init || x == advertised[|advertised| - 1];
    }
  }
}
