/** The IRC line format of modules/irc/protocol.py: `_parse_raw_irc` and
    `_parse_nuh` read a line as in section 2.3.1 of RFC 1459 (an optional
    `:prefix`, a command, middle parameters and one `:trailing` parameter), and
    `_send` writes one. */
module IrcCodec {
  import opened Strings

  /** `msg['source']`: the prefix as received and its nick!user@host parts. */
  datatype Source = Source(full: string, name: string, ident: string, host: string)

  const NoSource := Source("", "", "", "")

  /** A parsed line: `{'source': ..., 'msg': ..., 'params': [...]}`. */
  datatype Message = Message(source: Source, command: string, params: seq<string>)

  /** The text before and after the first `c` in `s`, or all of `s` and
      nothing when there is no `c`. */
  function Cut(s: string, c: char): (r: (string, string))
    ensures c in s ==> s == r.0 + [c] + r.1 && c !in r.0
    ensures c !in s ==> r == (s, "")
    ensures forall x :: x !in s ==> x !in r.0 && x !in r.1
  {
    var k := Find(s, c);
    if k < 0 then (s, "")
    else
      assert s == s[..k] + [c] + s[k + 1..];
      (s[..k], s[k + 1..])
  }

  /** `_parse_nuh`: the host is what follows the first `@`, the ident what
      follows the first `!` before it, and the name the rest. The parts put
      back together with their separators give the text again. */
  function ParseNuh(nuh: string): (r: Source)
    ensures r.full == nuh
    ensures '!' !in r.name && '@' !in r.name && '@' !in r.ident
    ensures || (nuh == r.name && r.ident == "" && r.host == "")
            || (nuh == r.name + "@" + r.host && r.ident == "")
            || (nuh == r.name + "!" + r.ident && r.host == "")
            || nuh == r.name + "!" + r.ident + "@" + r.host
  {
    var (val, host) := Cut(nuh, '@');
    var (name, ident) := Cut(val, '!');
    Source(nuh, name, ident, host)
  }

  /** `nick!user@host`. */
  function FormatNuh(name: string, ident: string, host: string): string
  {
    name + "!" + ident + "@" + host
  }

  /** Splitting a full `nick!user@host` gives back its parts, as long as the
      nick holds neither separator and the user part no `@`. */
  lemma {:induction false} ParseFormatNuh(name: string, ident: string, host: string)
    requires '!' !in name && '@' !in name && '@' !in ident
    ensures ParseNuh(FormatNuh(name, ident, host)) == Source(FormatNuh(name, ident, host), name, ident, host)
  {
    var nuh := FormatNuh(name, ident, host);
    var pre := name + "!" + ident;
    assert nuh == pre + "@" + host;
    assert '@' !in pre by {
      forall i | 0 <= i < |pre| ensures pre[i] != '@' {
        if i < |name| { assert pre[i] == name[i]; }
        else if i > |name| { assert pre[i] == ident[i - |name| - 1]; }
      }
    }
    FindAfter(pre, host, '@');
    FindAfter(name, ident, '!');
    assert nuh[..|pre|] == pre;
    assert nuh[|pre| + 1..] == host;
    assert pre[..|name|] == name;
    assert pre[|name| + 1..] == ident;
  }

  /** The first `c` in `a + [c] + b` is the one after `a` when `a` has none. */
  lemma FindAfter(a: string, b: string, c: char)
    requires c !in a
    ensures Find(a + [c] + b, c) == |a|
  {
    var s := a + [c] + b;
    assert s[|a|] == c;
    assert s[..|a|] == a;
  }

  /** The `stat` counter of `_parse_raw_irc`: before the first word, after a
      `:source` word, reading parameters, and inside the trailing parameter. */
  datatype Stage = Start | AfterSource | InParams | InTrailing

  /** The parse of the remaining words from a given stage. Empty words are
      skipped until the trailing parameter begins; from then on every word,
      empty ones included, is glued back on with single spaces. */
  function ParseFrom(stage: Stage, m: Message, words: seq<string>): Message
    requires stage == InTrailing ==> |m.params| > 0
    decreases |words|
  {
    if words == [] then m
    else
      var w := words[0];
      if stage == InTrailing then
        var n := |m.params| - 1;
        m.(params := m.params[..n] + [m.params[n] + " " + JoinWith(words, " ")])
      else if w == "" then ParseFrom(stage, m, words[1..])
      else match stage
        case Start =>
          if w[0] == ':' then ParseFrom(AfterSource, m.(source := m.source.(full := w[1..])), words[1..])
          else ParseFrom(InParams, m.(command := w), words[1..])
        case AfterSource => ParseFrom(InParams, m.(command := w), words[1..])
        case InParams =>
          if w[0] == ':' then ParseFrom(InTrailing, m.(params := m.params + [w[1..]]), words[1..])
          else ParseFrom(InParams, m.(params := m.params + [w]), words[1..])
  }

  const Empty := Message(NoSource, "", [])

  /** The message `_parse_raw_irc` makes of a line. */
  function Parse(line: string): Message
  {
    var m := ParseFrom(Start, Empty, Split(line, ' '));
    m.(source := ParseNuh(m.source.full))
  }

  /** `_parse_raw_irc`, the word loop driven by `stat`. */
  method ParseRawIrc(line: string) returns (m: Message)
    ensures m == Parse(line)
  {
    var words := Split(line, ' ');
    var stage := Start;
    var full := "";
    var command := "";
    var params: seq<string> := [];
    var i := 0;
    while i < |words|
      invariant 0 <= i <= |words|
      invariant stage == InTrailing ==> |params| > 0
      invariant ParseFrom(stage, Message(Source(full, "", "", ""), command, params), words[i..])
             == ParseFrom(Start, Empty, words)
    {
      var word := words[i];
      assert words[i..][1..] == words[i + 1..];
      if stage != InTrailing && |word| == 0 {
        i := i + 1;
        continue;
      }
      match stage {
        case Start =>
          if word[0] == ':' {
            full := word[1..];
            stage := AfterSource;
          } else {
            command := word;
            stage := InParams;
          }
        case AfterSource =>
          command := word;
          stage := InParams;
        case InParams =>
          if word[0] == ':' {
            params := params + [word[1..]];
            stage := InTrailing;
          } else {
            params := params + [word];
          }
        case InTrailing =>
          var n := |params| - 1;
          assert words[i..] == [word] + words[i + 1..];
          TrailingStep(Message(Source(full, "", "", ""), command, params), word, words[i + 1..]);
          params := params[..n] + [params[n] + " " + word];
      }
      i := i + 1;
    }
    var src := SourceParts(full);
    m := Message(src, command, params);
  }

  /** The prefix splitting at the end of `_parse_raw_irc`, which repeats
      `_parse_nuh` for a non-empty prefix. */
  method SourceParts(full: string) returns (src: Source)
    ensures src == ParseNuh(full)
  {
    src := Source(full, "", "", "");
    if |full| > 0 {
      var s := full;
      var at := Find(s, '@');
      if at >= 0 {
        src := src.(host := s[at + 1..]);
        s := s[..at];
      }
      assert (s, src.host) == Cut(full, '@');
      var t := s;
      var bang := Find(s, '!');
      if bang >= 0 {
        src := src.(ident := s[bang + 1..]);
        s := s[..bang];
      }
      assert (s, src.ident) == Cut(t, '!');
      src := src.(name := s);
    }
  }

  /** One more word of the trailing parameter, glued on with a space. */
  lemma TrailingStep(m: Message, word: string, rest: seq<string>)
    requires |m.params| > 0
    ensures var n := |m.params| - 1;
      ParseFrom(InTrailing, m.(params := m.params[..n] + [m.params[n] + " " + word]), rest)
        == ParseFrom(InTrailing, m, [word] + rest)
  {
    var n := |m.params| - 1;
    var ps := m.params[..n] + [m.params[n] + " " + word];
    assert ps[..n] == m.params[..n];
    if rest != [] {
      JoinCons(word, rest);
      SpaceAssoc(m.params[n], word, JoinWith(rest, " "));
    }
  }

  lemma JoinCons(word: string, rest: seq<string>)
    requires rest != []
    ensures JoinWith([word] + rest, " ") == word + " " + JoinWith(rest, " ")
  {
    assert ([word] + rest)[1..] == rest;
  }

  lemma SpaceAssoc(a: string, b: string, c: string)
    ensures (a + " " + b) + " " + c == a + " " + (b + " " + c)
  {
  }

  /** How `_send` writes one non-empty parameter: with a `:` in front when it
      holds a space or already starts with `:`. */
  function Mark(p: string): string
    requires p != ""
  {
    (if ' ' in p || p[0] == ':' then ":" else "") + p
  }

  function MarkAll(ne: seq<string>): (r: seq<string>)
    requires forall i :: 0 <= i < |ne| ==> ne[i] != ""
    ensures |r| == |ne| && forall i :: 0 <= i < |ne| ==> r[i] == Mark(ne[i])
  {
    seq(|ne|, i requires 0 <= i < |ne| => Mark(ne[i]))
  }

  /** The parameters as `_send` appends them; empty ones are dropped. */
  function FormatParams(ps: seq<string>): string
    decreases |ps|
  {
    if ps == [] then ""
    else
      var last := ps[|ps| - 1];
      FormatParams(ps[..|ps| - 1]) + (if last == "" then "" else " " + Mark(last))
  }

  /** The line `_send(cmd, *ps)` writes, without its CR LF; nothing for an
      empty command. */
  function Format(cmd: string, ps: seq<string>): Option<string>
  {
    if cmd == "" then None else Some(cmd + FormatParams(ps))
  }

  /** The line-building loop of `_send`. */
  method BuildLine(cmd: string, params: seq<string>) returns (line: Option<string>)
    ensures line == Format(cmd, params)
  {
    if |cmd| <= 0 {
      return None;
    }
    var text := cmd;
    for i := 0 to |params|
      invariant text == cmd + FormatParams(params[..i])
    {
      assert params[..i + 1][..i] == params[..i];
      var param := params[i];
      if |param| <= 0 {
        continue;
      }
      text := text + " ";
      if ' ' in param || param[0] == ':' {
        text := text + ":";
      }
      text := text + param;
    }
    assert params[..|params|] == params;
    return Some(text);
  }

  /** What `_send` can write so that it reads back the same: a command that
      is one word not starting with `:`, and, of the non-empty parameters,
      only the last may hold a space or start with `:`. */
  predicate Sendable(cmd: string, ps: seq<string>)
  {
    && cmd != "" && ' ' !in cmd && cmd[0] != ':'
    && var ne := NonEmpty(ps);
       forall i :: 0 <= i < |ne| - 1 ==> ' ' !in ne[i] && ne[i][0] != ':'
  }

  /** Reading back a line `_send` wrote gives its command and its non-empty
      parameters, the last one character for character. */
  lemma {:induction false} ParseFormat(cmd: string, ps: seq<string>)
    requires Sendable(cmd, ps)
    ensures Parse(Format(cmd, ps).value) == Message(NoSource, cmd, NonEmpty(ps))
  {
    ParseFromFormat(Start, Empty, cmd, ps);
  }

  /** The same for a line a server sends with a `:source` prefix in front. */
  lemma {:induction false} ParseSourcedFormat(src: string, cmd: string, ps: seq<string>)
    requires src != "" && ' ' !in src
    requires Sendable(cmd, ps)
    ensures Parse(":" + src + " " + Format(cmd, ps).value) == Message(ParseNuh(src), cmd, NonEmpty(ps))
  {
    var line := Format(cmd, ps).value;
    SplitNoSep(":" + src, ' ');
    SplitConcat(":" + src, line, ' ');
    assert ":" + src + " " + line == (":" + src) + [' '] + line;
    var words := Split(":" + src + " " + line, ' ');
    assert words == [":" + src] + Split(line, ' ');
    assert words[1..] == Split(line, ' ');
    assert (":" + src)[1..] == src;
    ParseFromFormat(AfterSource, Empty.(source := NoSource.(full := src)), cmd, ps);
  }

  lemma {:induction false} ParseFromFormat(stage: Stage, m: Message, cmd: string, ps: seq<string>)
    requires stage == Start || stage == AfterSource
    requires m.params == []
    requires Sendable(cmd, ps)
    ensures ParseFrom(stage, m, Split(Format(cmd, ps).value, ' ')) == m.(command := cmd, params := NonEmpty(ps))
  {
    var ne := NonEmpty(ps);
    FormatParamsNonEmpty(ps);
    var line := Format(cmd, ps).value;
    assert line == cmd + FormatParams(ne);
    SplitNoSep(cmd, ' ');
    if ne == [] {
      assert line == cmd;
    } else {
      ParseParamWords(m.(command := cmd), ne);
      FormatParamsJoin(ne);
      assert line == cmd + [' '] + JoinWith(MarkAll(ne), " ");
      SplitConcat(cmd, JoinWith(MarkAll(ne), " "), ' ');
      var words := Split(line, ' ');
      assert words == [cmd] + Split(JoinWith(MarkAll(ne), " "), ' ');
      assert words[1..] == Split(JoinWith(MarkAll(ne), " "), ' ');
    }
  }

  /** The words of the joined, marked parameters read back as the parameters. */
  lemma {:induction false} ParseParamWords(m: Message, ne: seq<string>)
    requires ne != []
    requires forall i :: 0 <= i < |ne| ==> ne[i] != ""
    requires forall i :: 0 <= i < |ne| - 1 ==> ' ' !in ne[i] && ne[i][0] != ':'
    ensures ParseFrom(InParams, m, Split(JoinWith(MarkAll(ne), " "), ' ')) == m.(params := m.params + ne)
  {
    var k := |ne| - 1;
    var mids := ne[..k];
    var marks := MarkAll(ne);
    forall i | 0 <= i < k
      ensures marks[i] == mids[i]
    {
      assert ' ' !in ne[i] && ne[i][0] != ':';
    }
    assert marks == mids + [Mark(ne[k])];
    SplitJoinLast(mids, Mark(ne[k]));
    ParseMiddles(m, mids, Split(Mark(ne[k]), ' '));
    ParseLast(m.(params := m.params + mids), ne[k]);
    assert m.params + mids + [ne[k]] == m.params + ne;
  }

  /** Joining marked parameters and splitting again yields the middles as
      they are, followed by the pieces of the last one. */
  lemma {:induction false} SplitJoinLast(mids: seq<string>, last: string)
    requires forall i :: 0 <= i < |mids| ==> ' ' !in mids[i]
    ensures Split(JoinWith(mids + [last], " "), ' ') == mids + Split(last, ' ')
  {
    if mids == [] {
      assert mids + [last] == [last];
    } else {
      JoinWithSnoc(mids, last, " ");
      SplitConcat(JoinWith(mids, " "), last, ' ');
      SplitJoin(mids, ' ');
    }
  }

  lemma {:induction false} JoinWithSnoc(xs: seq<string>, x: string, sep: string)
    requires xs != []
    ensures JoinWith(xs + [x], sep) == JoinWith(xs, sep) + sep + x
    decreases |xs|
  {
    if |xs| == 1 {
      assert xs + [x] == [xs[0], x];
    } else {
      assert (xs + [x])[1..] == xs[1..] + [x];
      JoinWithSnoc(xs[1..], x, sep);
    }
  }

  /** Middle parameters are taken one word each. */
  lemma {:induction false} ParseMiddles(m: Message, mids: seq<string>, rest: seq<string>)
    requires forall i :: 0 <= i < |mids| ==> mids[i] != "" && mids[i][0] != ':'
    ensures ParseFrom(InParams, m, mids + rest) == ParseFrom(InParams, m.(params := m.params + mids), rest)
    decreases |mids|
  {
    if mids != [] {
      assert (mids + rest)[1..] == mids[1..] + rest;
      ParseMiddles(m.(params := m.params + [mids[0]]), mids[1..], rest);
      assert m.params + [mids[0]] + mids[1..] == m.params + mids;
    } else {
      assert mids + rest == rest;
      assert m.(params := m.params + mids) == m;
    }
  }

  /** The last parameter, marked or not, is read back exactly. */
  lemma {:induction false} ParseLast(m: Message, last: string)
    requires last != ""
    ensures ParseFrom(InParams, m, Split(Mark(last), ' ')) == m.(params := m.params + [last])
  {
    if ' ' in last || last[0] == ':' {
      var s := ":" + last;
      assert Mark(last) == s;
      assert s[1..] == last;
      var t := Split(last, ' ');
      assert Split(s, ' ') == [[':'] + t[0]] + t[1..];
      var w := [':'] + t[0];
      assert w[1..] == t[0];
      var m1 := m.(params := m.params + [t[0]]);
      JoinSplit(last, ' ');
      if |t| == 1 {
        assert JoinWith(t, " ") == t[0];
      } else {
        assert JoinWith(t, " ") == t[0] + " " + JoinWith(t[1..], " ");
        assert m1.params[..|m1.params| - 1] == m.params;
      }
    } else {
      SplitNoSep(last, ' ');
      assert Mark(last) == last;
    }
  }

  lemma {:induction false} NonEmptySnoc(xs: seq<string>, x: string)
    ensures NonEmpty(xs + [x]) == NonEmpty(xs) + (if x == "" then [] else [x])
    decreases |xs|
  {
    if xs == [] {
      assert xs + [x] == [x];
    } else {
      assert (xs + [x])[1..] == xs[1..] + [x];
      NonEmptySnoc(xs[1..], x);
    }
  }

  /** Empty parameters contribute nothing to the line. */
  lemma {:induction false} FormatParamsNonEmpty(ps: seq<string>)
    ensures FormatParams(ps) == FormatParams(NonEmpty(ps))
    decreases |ps|
  {
    if ps != [] {
      var init := ps[..|ps| - 1];
      var last := ps[|ps| - 1];
      assert ps == init + [last];
      FormatParamsNonEmpty(init);
      NonEmptySnoc(init, last);
      if last != "" {
        var ne := NonEmpty(init) + [last];
        assert NonEmpty(ps) == ne;
        assert ne[..|ne| - 1] == NonEmpty(init);
        assert FormatParams(ne) == FormatParams(NonEmpty(init)) + " " + Mark(last);
      } else {
        assert NonEmpty(ps) == NonEmpty(init);
      }
    }
  }

  /** Non-empty parameters are written as their marked forms joined by spaces. */
  lemma {:induction false} FormatParamsJoin(ne: seq<string>)
    requires ne != []
    requires forall i :: 0 <= i < |ne| ==> ne[i] != ""
    ensures FormatParams(ne) == [' '] + JoinWith(MarkAll(ne), " ")
    decreases |ne|
  {
    var k := |ne| - 1;
    var init := ne[..k];
    var marks := MarkAll(ne);
    if k == 0 {
      assert marks == [Mark(ne[0])];
    } else {
      FormatParamsJoin(init);
      var im := MarkAll(init);
      assert marks == im + [Mark(ne[k])];
      JoinWithSnoc(im, Mark(ne[k]), " ");
    }
  }
}
