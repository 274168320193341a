/** The server features `m_005` of modules/irc/protocol.py reads from
    RPL_ISUPPORT: channel name prefixes, the status prefixes and their mode
    letters, the four classes of channel modes, and WHOX. */
module IrcIsupport {
  import opened Strings

  /** `chantypes`, `chanusrpfx`, `chanusrpfxmodes`, `chanmodes`, `haswhox`. */
  datatype Features = Features(
    chantypes: string,
    prefixSymbols: string,
    prefixModes: string,
    chanmodes: seq<string>,
    whox: bool)

  /** The values a new client starts with. */
  const Defaults := Features("#", "@+", "ov", ["b", "k", "l", "imnpst"], false)

  /** A token `KEY` or `KEY=VALUE`, as the pattern
      `^(?P<key>[^=]+?)(?:=(?P<value>.*?))?$` splits it: the key is the text
      before the first `=` and must not be empty; the value, when there is an
      `=`, is everything after it. */
  function ParseToken(tok: string): (r: Option<(string, Option<string>)>)
    ensures r.None? <==> tok == [] || tok[0] == '='
    ensures r.Some? ==> r.value.0 != [] && '=' !in r.value.0
    ensures r.Some? && r.value.1.None? ==> tok == r.value.0
    ensures r.Some? && r.value.1.Some? ==> tok == r.value.0 + "=" + r.value.1.value
  {
    var k := Find(tok, '=');
    if tok == [] || k == 0 then None
    else if k < 0 then Some((tok, None))
    else
      assert tok == tok[..k] + "=" + tok[k + 1..];
      Some((tok[..k], Some(tok[k + 1..])))
  }

  /** A key and value read back from their token. */
  lemma ParseTokenOf(key: string, value: Option<string>)
    requires key != [] && '=' !in key
    ensures ParseToken(if value.Some? then key + "=" + value.value else key) == Some((key, value))
  {
    if value.Some? {
      var tok := key + "=" + value.value;
      assert tok[|key|] == '=';
      assert tok[..|key|] == key;
      assert tok[|key| + 1..] == value.value;
    }
  }

  /** The effect of one parsed token; `None` where `PREFIX` has no `)` and
      indexing the split raises `IndexError`. */
  function ApplyToken(f: Features, key: string, value: Option<string>): Option<Features>
  {
    var v := if value.Some? then value.value else "";
    if key == "CHANTYPES" then
      Some(if v != "" then f.(chantypes := v) else f)
    else if key == "PREFIX" then
      if v == "" then Some(f)
      else
        var parts := Split(v, ')');
        if |parts| < 2 then None
        else Some(f.(prefixSymbols := parts[1], prefixModes := Drop(parts[0], 1)))
    else if key == "CHANMODES" then
      Some(if v != "" then f.(chanmodes := Split(v, ',')) else f)
    else if key == "WHOX" then
      Some(f.(whox := true))
    else Some(f)
  }

  /** `params[1:-1]`: the tokens between our nick and the closing text. */
  function Tokens(params: seq<string>): (r: seq<string>)
    ensures |params| >= 2 ==> r == params[1..|params| - 1]
    ensures |params| < 2 ==> r == []
  {
    if |params| < 2 then [] else params[1..|params| - 1]
  }

  /** The tokens applied in order; a token the pattern rejects is skipped,
      and the first one that raises stops the rest (the flag is then false). */
  function ApplyTokens(f: Features, toks: seq<string>): (r: (Features, bool))
    decreases |toks|
  {
    if toks == [] then (f, true)
    else
      var r := ApplyTokens(f, toks[..|toks| - 1]);
      if !r.1 then r
      else
        match ParseToken(toks[|toks| - 1])
        case None => r
        case Some((key, value)) =>
          match ApplyToken(r.0, key, value)
          case None => (r.0, false)
          case Some(f') => (f', true)
  }

  /** `PREFIX=(modes)symbols` sets the mode letters and the symbols that
      stand for them, position by position. */
  lemma {:induction false} PrefixAligned(f: Features, modes: string, symbols: string)
    requires ')' !in modes && ')' !in symbols
    ensures ParseToken("PREFIX=(" + modes + ")" + symbols)
         == Some(("PREFIX", Some("(" + modes + ")" + symbols)))
    ensures ApplyTokens(f, ["PREFIX=(" + modes + ")" + symbols])
         == (f.(prefixModes := modes, prefixSymbols := symbols), true)
  {
    var v := "(" + modes + ")" + symbols;
    ParseTokenOf("PREFIX", Some(v));
    assert "PREFIX=(" + modes + ")" + symbols == "PREFIX" + "=" + v;
    assert ')' !in "(" + modes by {
      assert forall i :: 0 < i < |"(" + modes| ==> ("(" + modes)[i] == modes[i - 1];
    }
    SplitNoSep("(" + modes, ')');
    SplitNoSep(symbols, ')');
    SplitConcat("(" + modes, symbols, ')');
    assert v == ("(" + modes) + [')'] + symbols;
    assert Split(v, ')') == ["(" + modes, symbols];
    assert Drop("(" + modes, 1) == modes;
    assert ["PREFIX=(" + modes + ")" + symbols][..0] == [];
  }

  /** `CHANMODES=A,B,C,D` gives the classes in order, and joining them with
      commas gives back the value. */
  lemma ChanmodesSplit(f: Features, v: string)
    requires v != ""
    ensures ApplyToken(f, "CHANMODES", Some(v)).Some?
    ensures JoinWith(ApplyToken(f, "CHANMODES", Some(v)).value.chanmodes, ",") == v
  {
    JoinSplit(v, ',');
  }

  /** An empty `CHANTYPES=` or `PREFIX=` leaves the feature as it was, and an
      unknown key changes nothing. */
  lemma EmptyValuesKeep(f: Features, key: string)
    ensures ApplyToken(f, "CHANTYPES", Some("")) == Some(f)
    ensures ApplyToken(f, "PREFIX", None) == Some(f)
    ensures key !in {"CHANTYPES", "PREFIX", "CHANMODES", "WHOX"} ==> ApplyToken(f, key, None) == Some(f)
  {
  }

  /** The tokens are applied one after the other: the result for `a + b`
      continues from the result for `a`. */
  lemma {:induction false} ApplyTokensConcat(f: Features, a: seq<string>, b: seq<string>)
    ensures ApplyTokens(f, a + b)
         == (var r := ApplyTokens(f, a); if r.1 then ApplyTokens(r.0, b) else r)
    decreases |b|
  {
    if b == [] {
      assert a + b == a;
    } else {
      var n := |b| - 1;
      assert (a + b)[..|a + b| - 1] == a + b[..n];
      assert (a + b)[|a + b| - 1] == b[n];
      ApplyTokensConcat(f, a, b[..n]);
    }
  }

  /** One more token: applied when the ones before went through. */
  lemma ApplyTokensSnoc(f: Features, toks: seq<string>, i: nat)
    requires i < |toks|
    ensures ApplyTokens(f, toks[..i + 1])
         == (var r := ApplyTokens(f, toks[..i]);
             if !r.1 then r
             else match ParseToken(toks[i])
               case None => r
               case Some((key, value)) =>
                 match ApplyToken(r.0, key, value)
                 case None => (r.0, false)
                 case Some(f') => (f', true))
  {
    assert toks[..i + 1][..i] == toks[..i];
  }

  /** Once a token has raised, the later ones are not applied. */
  lemma {:induction false} ApplyTokensStops(f: Features, toks: seq<string>, i: nat)
    requires i <= |toks| && !ApplyTokens(f, toks[..i]).1
    ensures ApplyTokens(f, toks) == ApplyTokens(f, toks[..i])
    decreases |toks| - i
  {
    if i < |toks| {
      ApplyTokensSnoc(f, toks, i);
      ApplyTokensStops(f, toks, i + 1);
    } else {
      assert toks[..i] == toks;
    }
  }

  /** The nick before the tokens and the text after them are never read. */
  lemma TokensIgnoreEnds(nick: string, toks: seq<string>, tail: string)
    ensures Tokens([nick] + toks + [tail]) == toks
  {
    var ps := [nick] + toks + [tail];
    assert ps[1..|ps| - 1] == toks;
  }
}
