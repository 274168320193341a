/** The Minecraft `tellraw` component list both IRC-to-Minecraft relays
    build for a message: `[IRC] `, the sender, and the message cut by
    `re.split('(https?://[^\s]+)', message)` into URL and non-URL pieces,
    empty pieces dropped, each piece starting with `http://` or `https://`
    made a link. */
module RelayParts {
  import opened Strings
  import opened Bus

  /** `s` starts with `http://`. */
  predicate HttpPrefix(s: string)
  {
    |s| >= 7 && s[0] == 'h' && s[1] == 't' && s[2] == 't' && s[3] == 'p'
    && s[4] == ':' && s[5] == '/' && s[6] == '/'
  }

  /** `s` starts with `https://`. */
  predicate HttpsPrefix(s: string)
  {
    |s| >= 8 && s[0] == 'h' && s[1] == 't' && s[2] == 't' && s[3] == 'p'
    && s[4] == 's' && s[5] == ':' && s[6] == '/' && s[7] == '/'
  }

  /** The length of `https?://` matched at the start of `s`, when the
      pattern also finds the non-white-space character it needs after it. */
  function SchemeAt(s: string): (n: nat)
    ensures n == 0 || n == 7 || n == 8
    ensures n > 0 ==> n < |s| && !IsSpace(s[n])
    ensures n == 8 ==> HttpsPrefix(s)
    ensures n == 7 ==> HttpPrefix(s)
  {
    if HttpsPrefix(s) && |s| > 8 && !IsSpace(s[8]) then 8
    else if HttpPrefix(s) && |s| > 7 && !IsSpace(s[7]) then 7
    else 0
  }

  /** The length of the run of non-white-space characters starting `s`. */
  function Run(s: string): (n: nat)
    ensures n <= |s|
    ensures forall k :: 0 <= k < n ==> !IsSpace(s[k])
    ensures n == |s| || IsSpace(s[n])
    decreases |s|
  {
    if s == [] || IsSpace(s[0]) then 0 else 1 + Run(s[1..])
  }

  /** The start of the leftmost URL match in `s[from..]`, or `|s|`. */
  function NextUrl(s: string, from: nat): (i: nat)
    requires from <= |s|
    ensures from <= i <= |s|
    ensures i < |s| ==> SchemeAt(s[i..]) > 0
    decreases |s| - from
  {
    if from == |s| then |s|
    else if SchemeAt(s[from..]) > 0 then from
    else NextUrl(s, from + 1)
  }

  /** The match found is the leftmost one: no URL starts before it. */
  lemma {:induction false} NextUrlLeftmost(s: string, from: nat)
    requires from <= |s|
    ensures forall k :: from <= k < NextUrl(s, from) ==> SchemeAt(s[k..]) == 0
    ensures (forall k :: from <= k < |s| ==> SchemeAt(s[k..]) == 0) ==> NextUrl(s, from) == |s|
    decreases |s| - from
  {
    if from < |s| && SchemeAt(s[from..]) == 0 {
      NextUrlLeftmost(s, from + 1);
    }
  }

  /** The leftmost match `s[i..j]`: it starts with the scheme and runs up
      to the next white space or the end. */
  function Match(s: string): (r: (nat, nat))
    requires NextUrl(s, 0) < |s|
    ensures r.0 == NextUrl(s, 0) < r.1 <= |s|
    ensures HasScheme(s[r.0..r.1])
    ensures forall k :: r.0 <= k < r.1 ==> !IsSpace(s[k])
    ensures r.1 == |s| || IsSpace(s[r.1])
  {
    var i := NextUrl(s, 0);
    var j := i + Run(s[i..]);
    RunFrom(s, i, j);
    (i, j)
  }

  /** The run from a match start, in the indices of `s`. */
  lemma RunFrom(s: string, i: nat, j: int)
    requires i < |s| && SchemeAt(s[i..]) > 0 && j == i + Run(s[i..])
    ensures i < j <= |s|
    ensures HasScheme(s[i..j])
    ensures forall k :: i <= k < j ==> !IsSpace(s[k])
    ensures j == |s| || IsSpace(s[j])
  {
    var t := s[i..];
    MatchKeepsScheme(t);
    assert t[..Run(t)] == s[i..j];
    forall k | i <= k < j ensures !IsSpace(s[k]) {
      assert s[k] == t[k - i];
    }
    if j < |s| {
      assert s[j] == t[Run(t)];
    }
  }

  /** The pieces of `re.split` with the empty ones dropped: the text before
      the leftmost match, the match, then the pieces of the rest. */
  function Segments(s: string): seq<string>
    decreases |s|
  {
    if NextUrl(s, 0) == |s| then (if s == [] then [] else [s])
    else
      var (i, j) := Match(s);
      (if i == 0 then [] else [s[..i]]) + [s[i..j]] + Segments(s[j..])
  }

  function Concat(ss: seq<string>): string
    decreases |ss|
  {
    if ss == [] then "" else ss[0] + Concat(ss[1..])
  }

  lemma {:induction false} ConcatAppend(a: seq<string>, b: seq<string>)
    ensures Concat(a + b) == Concat(a) + Concat(b)
    decreases |a|
  {
    if a == [] {
      assert a + b == b;
    } else {
      assert (a + b)[1..] == a[1..] + b;
      ConcatAppend(a[1..], b);
    }
  }

  /** A match runs past its scheme, so it keeps the scheme. */
  lemma {:induction false} MatchKeepsScheme(t: string)
    requires SchemeAt(t) > 0
    ensures SchemeAt(t) < Run(t) && HasScheme(t[..Run(t)])
  {
    var n := SchemeAt(t);
    assert forall k :: 0 <= k <= n ==> !IsSpace(t[k]);
    RunAtLeast(t, n + 1);
    assert forall k :: 0 <= k < n ==> t[..Run(t)][k] == t[k];
  }

  /** A run is at least as long as any white-space-free prefix. */
  lemma {:induction false} RunAtLeast(s: string, m: nat)
    requires m <= |s| && forall k :: 0 <= k < m ==> !IsSpace(s[k])
    ensures Run(s) >= m
    decreases m
  {
    if m > 0 {
      RunAtLeast(s[1..], m - 1);
    }
  }

  /** Together the pieces give back the message. */
  lemma {:induction false} SegmentsConcat(s: string)
    ensures Concat(Segments(s)) == s
    decreases |s|
  {
    if NextUrl(s, 0) < |s| {
      var (i, j) := Match(s);
      SegmentsConcat(s[j..]);
      ConcatStep(if i == 0 then [] else [s[..i]], s[..i], s[i..j], Segments(s[j..]));
      SplitThree(s, i, j);
    }
  }

  lemma SplitThree(s: string, i: nat, j: nat)
    requires i <= j <= |s|
    ensures s[..i] + s[i..j] + s[j..] == s
  {
    assert s[..i] + s[i..j] == s[..j];
  }

  lemma {:induction false} ConcatStep(pre: seq<string>, a: string, m: string, rest: seq<string>)
    requires pre == [a] || (pre == [] && a == "")
    ensures Concat(pre + [m] + rest) == a + m + Concat(rest)
  {
    ConcatAppend(pre + [m], rest);
    ConcatAppend(pre, [m]);
    assert Concat([m]) == m + Concat([]);
    if pre == [a] {
      assert Concat(pre) == a + Concat([]);
    }
  }

  /** No piece is empty. */
  lemma {:induction false} SegmentsNonEmpty(s: string)
    ensures forall p :: p in Segments(s) ==> p != ""
    decreases |s|
  {
    if NextUrl(s, 0) < |s| {
      var (i, j) := Match(s);
      SegmentsNonEmpty(s[j..]);
      NonEmptyPieces(if i == 0 then [] else [s[..i]], s[i..j], Segments(s[j..]));
    }
  }

  lemma NonEmptyPieces(pre: seq<string>, m: string, rest: seq<string>)
    requires forall p :: p in pre ==> p != ""
    requires m != "" && forall p :: p in rest ==> p != ""
    ensures forall p :: p in pre + [m] + rest ==> p != ""
  {
  }

  /** Every URL the pattern matches is a piece of its own, starting with the
      scheme. */
  lemma UrlPieceStartsWithScheme(s: string)
    requires NextUrl(s, 0) < |s|
    ensures var (i, j) := Match(s);
      s[i..j] in Segments(s) && Classify(s[i..j]) == Link(s[i..j])
  {
  }

  predicate HasScheme(p: string)
  {
    HttpPrefix(p) || HttpsPrefix(p)
  }

  /** A piece becomes a link when it starts with a scheme. */
  function Classify(p: string): Part
  {
    if HasScheme(p) then Link(p) else Text(p)
  }

  /** The `parts` list: the tag, then `<name> ` for a message or `* name `
      for an action, then the classified pieces. */
  function Parts(action: bool, name: string, message: string): (r: seq<Part>)
    ensures |r| >= 2 && r[0] == Text("[IRC] ")
    ensures r[1] == Text(if action then "* " + name + " " else "<" + name + "> ")
    ensures r[2..] == Classified(Segments(message))
  {
    [Text("[IRC] "), Text(if action then "* " + name + " " else "<" + name + "> ")] + Classified(Segments(message))
  }

  /** Each piece classified, in order. */
  function Classified(pieces: seq<string>): seq<Part>
  {
    seq(|pieces|, k requires 0 <= k < |pieces| => Classify(pieces[k]))
  }

  /** The text a player sees for a list of parts. */
  function Shown(parts: seq<Part>): string
    decreases |parts|
  {
    if parts == [] then ""
    else (match parts[0] case Text(t) => t case Link(u) => u) + Shown(parts[1..])
  }

  lemma {:induction false} ShownClassified(pieces: seq<string>)
    ensures Shown(Classified(pieces)) == Concat(pieces)
    decreases |pieces|
  {
    if pieces != [] {
      assert Classified(pieces)[1..] == Classified(pieces[1..]);
      ShownClassified(pieces[1..]);
    }
  }

  /** After the tag and the sender, the parts show the message exactly, and
      every link part is a piece that starts with a scheme. */
  lemma {:induction false} PartsShowMessage(action: bool, name: string, message: string)
    ensures Shown(Parts(action, name, message)[2..]) == message
    ensures forall k :: 2 <= k < |Parts(action, name, message)| && Parts(action, name, message)[k].Link? ==>
      HasScheme(Parts(action, name, message)[k].url)
  {
    ShownClassified(Segments(message));
    SegmentsConcat(message);
    PartsLinks(action, name, message);
  }

  lemma PartsLinks(action: bool, name: string, message: string)
    ensures forall k :: 2 <= k < |Parts(action, name, message)| && Parts(action, name, message)[k].Link? ==>
      HasScheme(Parts(action, name, message)[k].url)
  {
    var ps := Parts(action, name, message);
    var tail := Classified(Segments(message));
    forall k | 2 <= k < |ps| && ps[k].Link?
      ensures HasScheme(ps[k].url)
    {
      assert ps[k] == ps[2..][k - 2] == tail[k - 2];
    }
  }

  /** A piece the pattern did not match but that starts with a scheme is
      still made a link: `http:// x` has no URL in it and comes out as one
      link with that text. */
  lemma SchemeWithoutUrlIsLinked()
    ensures Segments("http:// x") == ["http:// x"]
    ensures Classify("http:// x") == Link("http:// x")
  {
    var s := "http:// x";
    assert forall k :: 0 <= k < |s| ==> SchemeAt(s[k..]) == 0 by {
      forall k | 0 <= k < |s| ensures SchemeAt(s[k..]) == 0 {
        if k == 0 {
          assert IsSpace(s[7]);
        } else {
          assert s[k..][0] == s[k] != 'h';
        }
      }
    }
    NextUrlLeftmost(s, 0);
  }
}
