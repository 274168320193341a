/** The 353 (RPL_NAMREPLY) handler of modules/irc/protocol.py: each listed
    name loses its leading status symbols, which become mode letters, and the
    member is filed in the channel roster with that status. */
module IrcNames {
  import opened Strings
  import opened PyErrors
  import opened IrcRoster
  import opened IrcCodec
  import opened IrcIsupport

  /** The index of the first character of `tok` that is not a prefix
      symbol, or -1 when every character is one. */
  function FirstOther(symbols: string, tok: string): (r: int)
    ensures -1 <= r < |tok|
    ensures r == -1 <==> forall i :: 0 <= i < |tok| ==> tok[i] in symbols
    ensures r >= 0 ==> tok[r] !in symbols && forall i :: 0 <= i < r ==> tok[i] in symbols
    decreases |tok|
  {
    if tok == [] then -1
    else if tok[0] !in symbols then 0
    else
      var k := FirstOther(symbols, tok[1..]);
      if k < 0 then -1 else k + 1
  }

  /** The leading symbols and the rest. When the token is made of symbols
      only, the loop never finds its split point and the token is kept whole
      with no symbols. */
  function StripPrefix(symbols: string, tok: string): (r: (string, string))
    ensures r.0 + r.1 == tok
    ensures forall c :: c in r.0 ==> c in symbols
    ensures r.1 == tok || (r.1 != "" && r.1[0] !in symbols)
    ensures (forall i :: 0 <= i < |tok| ==> tok[i] in symbols) ==> r == ("", tok)
    ensures tok != "" && tok[0] !in symbols ==> r == ("", tok)
  {
    var k := FirstOther(symbols, tok);
    if k < 0 then ("", tok)
    else
      assert tok[..k] + tok[k..] == tok;
      (tok[..k], tok[k..])
  }

  /** The mode letter of each symbol, `modes[symbols.index(p)]`; `None` where
      a symbol's position has no letter and the indexing raises. */
  function PrefixModes(symbols: string, modes: string, pfx: string): (r: Option<string>)
    requires forall c :: c in pfx ==> c in symbols
    ensures r.Some? <==> forall i :: 0 <= i < |pfx| ==> Find(symbols, pfx[i]) < |modes|
    ensures r.Some? ==> |r.value| == |pfx| && forall i :: 0 <= i < |pfx| ==> r.value[i] == modes[Find(symbols, pfx[i])]
    decreases |pfx|
  {
    if pfx == [] then Some("")
    else
      var init := pfx[..|pfx| - 1];
      var k := Find(symbols, pfx[|pfx| - 1]);
      assert forall c :: c in init ==> c in pfx;
      match PrefixModes(symbols, modes, init)
      case None => None
      case Some(ms) =>
        if k >= |modes| then None else Some(ms + [modes[k]])
  }

  /** One listed name filed in the roster. */
  function NameStep(f: Features, users: Option<Roster>, tok: string): (r: Outcome<Roster>)
    requires users.Some? ==> WellFormed(users.value)
    ensures r.Ok? ==> WellFormed(r.value)
  {
    var (pfx, rest) := StripPrefix(f.prefixSymbols, tok);
    match PrefixModes(f.prefixSymbols, f.prefixModes, pfx)
    case None => Raised(IndexError)
    case Some(status) =>
      if users.None? then Raised(KeyError)
      else Ok(Named(users.value, ParseNuh(rest).name, status))
  }

  /** All listed names in order; the first one that raises stops the rest,
      the ones before it staying filed. */
  function NamesFold(f: Features, users: Option<Roster>, toks: seq<string>): (r: (Option<Roster>, Option<PyError>))
    requires users.Some? ==> WellFormed(users.value)
    ensures r.0.Some? ==> WellFormed(r.0.value)
    decreases |toks|
  {
    if toks == [] then (users, None)
    else
      var r := NamesFold(f, users, toks[..|toks| - 1]);
      if r.1.Some? then r
      else
        match NameStep(f, r.0, toks[|toks| - 1])
        case Raised(e) => (r.0, Some(e))
        case Ok(u) => (Some(u), None)
  }

  /** Once a name has raised, the names after it are never looked at. */
  lemma {:induction false} NamesFoldStops(f: Features, users: Option<Roster>, toks: seq<string>, i: nat)
    requires users.Some? ==> WellFormed(users.value)
    requires i <= |toks| && NamesFold(f, users, toks[..i]).1.Some?
    ensures NamesFold(f, users, toks) == NamesFold(f, users, toks[..i])
    decreases |toks| - i
  {
    if i < |toks| {
      assert toks[..i + 1][..i] == toks[..i];
      NamesFoldStops(f, users, toks, i + 1);
    } else {
      assert toks[..i] == toks;
    }
  }

  /** The name a token files its member under. */
  function Filed(symbols: string, tok: string): string
  {
    Lower(ParseNuh(StripPrefix(symbols, tok).1).name)
  }

  /** One name filed: it is in the roster afterwards, and everybody else
      stays as they were. */
  lemma NameStepFiles(f: Features, u: Roster, tok: string)
    requires WellFormed(u) && NameStep(f, Some(u), tok).Ok?
    ensures var u' := NameStep(f, Some(u), tok).value;
      && u'.entries.Keys == u.entries.Keys + {Filed(f.prefixSymbols, tok)}
      && forall k :: k in u.entries && k != Filed(f.prefixSymbols, tok) ==> u'.entries[k] == u.entries[k]
  {
  }

  /** The names a list of tokens files members under. */
  function FiledNames(symbols: string, toks: seq<string>): set<string>
    decreases |toks|
  {
    if toks == [] then {}
    else FiledNames(symbols, toks[..|toks| - 1]) + {Filed(symbols, toks[|toks| - 1])}
  }

  /** After a complete reply the roster holds exactly the members it held
      and the listed names, and members not listed are untouched. */
  lemma {:induction false} NamesFoldFiles(f: Features, u: Roster, toks: seq<string>)
    requires WellFormed(u)
    requires NamesFold(f, Some(u), toks).1.None?
    ensures NamesFold(f, Some(u), toks).0.Some?
    ensures var u' := NamesFold(f, Some(u), toks).0.value;
      && u'.entries.Keys == u.entries.Keys + FiledNames(f.prefixSymbols, toks)
      && forall k :: k in u.entries && k !in FiledNames(f.prefixSymbols, toks) ==> u'.entries[k] == u.entries[k]
    decreases |toks|
  {
    if toks != [] {
      var n := |toks| - 1;
      var init := toks[..n];
      NamesFoldFiles(f, u, init);
      var u1 := NamesFold(f, Some(u), init).0.value;
      assert NamesFold(f, Some(u), init) == (Some(u1), None);
      NameStepFiles(f, u1, toks[n]);
    }
  }

  /** Every token's name is among the filed names. */
  lemma {:induction false} FiledNamesHas(symbols: string, toks: seq<string>, i: nat)
    requires i < |toks|
    ensures Filed(symbols, toks[i]) in FiledNames(symbols, toks)
    decreases |toks|
  {
    if i < |toks| - 1 {
      FiledNamesHas(symbols, toks[..|toks| - 1], i);
    }
  }

  /** With aligned prefixes every symbol maps to its letter and a reply on a
      channel with a roster never raises. */
  lemma {:induction false} NamesFoldTotal(f: Features, u: Roster, toks: seq<string>)
    requires WellFormed(u) && |f.prefixSymbols| <= |f.prefixModes|
    ensures NamesFold(f, Some(u), toks).1.None?
    decreases |toks|
  {
    if toks != [] {
      NamesFoldTotal(f, u, toks[..|toks| - 1]);
      var pfx := StripPrefix(f.prefixSymbols, toks[|toks| - 1]).0;
      assert forall i :: 0 <= i < |pfx| ==> pfx[i] in pfx;
    }
  }

  lemma StripExample()
    ensures StripPrefix("@+", "@+alice!a@h") == ("@+", "alice!a@h")
  {
    var tok := "@+alice!a@h";
    assert FirstOther("@+", tok) == 2 by {
      assert tok[0] in "@+" && tok[1] in "@+" && tok[2] !in "@+";
    }
    assert tok[..2] == "@+" && tok[2..] == "alice!a@h";
  }

  lemma PrefixExample()
    ensures PrefixModes("@+", "ov", "@+") == Some("ov")
  {
    assert Find("@+", '@') == 0 && Find("@+", '+') == 1;
    assert "@+"[..1] == "@" && "@"[..0] == "" && "@"[0] == '@';
    assert PrefixModes("@+", "ov", "") == Some("");
    assert "" + ['o'] == "o" && "o" + ['v'] == "ov";
    assert PrefixModes("@+", "ov", "@") == Some("o");
  }

  lemma NuhExample()
    ensures ParseNuh("alice!a@h").name == "alice"
  {
    ParseFormatNuh("alice", "a", "h");
    assert FormatNuh("alice", "a", "h") == "alice!a@h";
  }

  lemma LowerExample()
    ensures Lower("alice") == "alice"
  {
  }

  /** `@+alice!a@h` with the default prefixes: the symbols give letters `ov`
      and the member is filed under `alice`, new and with no account. */
  lemma OpVoiceExample()
    ensures var u := NamesFold(Defaults, Some(EmptyRoster), ["@+alice!a@h"]).0;
      && u.Some? && "alice" in u.value.entries
      && u.value.entries["alice"] == Member("alice", "ov", "")
  {
    var tok := "@+alice!a@h";
    StripExample();
    PrefixExample();
    NuhExample();
    LowerExample();
    var u := Named(EmptyRoster, "alice", "ov");
    assert NameStep(Defaults, Some(EmptyRoster), tok) == Ok(u);
    assert [tok][..0] == [];
    assert NamesFold(Defaults, Some(EmptyRoster), [tok]) == (Some(u), None);
  }
}
