/** The JOIN batching of `_joinchans` in modules/irc/protocol.py: the
    channels not yet joined go out five to a `JOIN` line, first those without
    a key (names joined by commas), then those with one (names joined by
    commas, keys by spaces, in the same order). */
module IrcJoin {
  import opened Strings
  import opened IrcCodec
  import opened IrcChannels

  /** Consecutive groups of five, the last one possibly shorter. */
  function Batches<T>(xs: seq<T>): (r: seq<seq<T>>)
    ensures forall i :: 0 <= i < |r| ==> 1 <= |r[i]| <= 5
    decreases |xs|
  {
    if xs == [] then []
    else if |xs| <= 5 then [xs]
    else [xs[..5]] + Batches(xs[5..])
  }

  function Flatten<T>(xss: seq<seq<T>>): seq<T>
    decreases |xss|
  {
    if xss == [] then [] else xss[0] + Flatten(xss[1..])
  }

  /** Batching loses nothing and reorders nothing: the batches laid end to
      end are the list, so every channel is in exactly one batch. */
  lemma {:induction false} BatchesFlatten<T>(xs: seq<T>)
    ensures Flatten(Batches(xs)) == xs
    decreases |xs|
  {
    if |xs| > 5 {
      BatchesFlatten(xs[5..]);
      assert xs[..5] + xs[5..] == xs;
      assert ([xs[..5]] + Batches(xs[5..]))[1..] == Batches(xs[5..]);
    } else if xs != [] {
      assert [xs][1..] == [];
      assert xs + [] == xs;
    }
  }

  /** Whole groups of five batch independently of what follows them. */
  lemma {:induction false} BatchesAppend<T>(xs: seq<T>, ys: seq<T>)
    requires |xs| % 5 == 0
    ensures Batches(xs + ys) == Batches(xs) + Batches(ys)
    decreases |xs|
  {
    if xs == [] {
      assert xs + ys == ys;
    } else if ys == [] {
      assert xs + ys == xs;
    } else {
      assert (xs + ys)[..5] == xs[..5];
      assert (xs + ys)[5..] == xs[5..] + ys;
      BatchesAppend(xs[5..], ys);
      if |xs| == 5 {
        assert xs[..5] == xs;
        assert xs[5..] + ys == ys;
      }
    }
  }

  function Names(ck: seq<(string, string)>): (r: seq<string>)
    ensures |r| == |ck| && forall i :: 0 <= i < |ck| ==> r[i] == ck[i].0
  {
    seq(|ck|, i requires 0 <= i < |ck| => ck[i].0)
  }

  function Keys(ck: seq<(string, string)>): (r: seq<string>)
    ensures |r| == |ck| && forall i :: 0 <= i < |ck| ==> r[i] == ck[i].1
  {
    seq(|ck|, i requires 0 <= i < |ck| => ck[i].1)
  }

  /** How `_joinchans` strings a batch together: a name is preceded by a
      comma only once the list so far is non-empty. */
  function Glue(batch: seq<string>): string
    decreases |batch|
  {
    if batch == [] then ""
    else
      var acc := Glue(batch[..|batch| - 1]);
      if |acc| > 0 then acc + "," + batch[|batch| - 1] else acc + batch[|batch| - 1]
  }

  /** The same for a keyed batch: the names with commas and the keys with
      spaces, a separator going in whenever the name list so far is
      non-empty. */
  function GlueKeyed(batch: seq<(string, string)>): (string, string)
    decreases |batch|
  {
    if batch == [] then ("", "")
    else
      var (ns, ks) := GlueKeyed(batch[..|batch| - 1]);
      var last := batch[|batch| - 1];
      if |ns| > 0 then (ns + "," + last.0, ks + " " + last.1) else (ns + last.0, ks + last.1)
  }

  /** The line sent for a batch of channels without keys. */
  function UnkeyedLine(batch: seq<string>): string
  {
    Format("JOIN", [Glue(batch)]).value
  }

  /** The line sent for a batch of channels with keys. */
  function KeyedLine(batch: seq<(string, string)>): string
  {
    Format("JOIN", [GlueKeyed(batch).0, GlueKeyed(batch).1]).value
  }

  /** One line per batch, in batch order. */
  function UnkeyedLines(bs: seq<seq<string>>): (r: seq<string>)
    ensures |r| == |bs|
    decreases |bs|
  {
    if bs == [] then [] else UnkeyedLines(bs[..|bs| - 1]) + [UnkeyedLine(bs[|bs| - 1])]
  }

  function KeyedLines(bs: seq<seq<(string, string)>>): (r: seq<string>)
    ensures |r| == |bs|
    decreases |bs|
  {
    if bs == [] then [] else KeyedLines(bs[..|bs| - 1]) + [KeyedLine(bs[|bs| - 1])]
  }

  /** Everything `_joinchans` sends for the channels it found unjoined. */
  function JoinLines(unkeyed: seq<string>, keyed: seq<(string, string)>): seq<string>
  {
    UnkeyedLines(Batches(unkeyed)) + KeyedLines(Batches(keyed))
  }

  /** With nothing pending, no line is sent. */
  lemma NothingToJoin(u: seq<string>, kd: seq<(string, string)>)
    requires |u| + |kd| <= 0
    ensures JoinLines(u, kd) == []
  {
  }

  /** The channels `_joinchans` picks, in table order: those marked not
      joined, split by whether they have a key. `None` where a channel has no
      `joined` entry yet and reading it raises `KeyError`. */
  function Pending(order: seq<string>, chans: map<string, Channel>): (r: Option<(seq<string>, seq<(string, string)>)>)
    requires forall k :: k in order ==> k in chans
    decreases |order|
  {
    if order == [] then Some(([], []))
    else
      var init := order[..|order| - 1];
      var c := chans[order[|order| - 1]];
      assert forall k :: k in init ==> k in order;
      match Pending(init, chans)
      case None => None
      case Some((u, kd)) =>
        if c.joined.None? then None
        else if c.joined.value then Some((u, kd))
        else if c.key.Some? then Some((u, kd + [(c.name, c.key.value)]))
        else Some((u + [c.name], kd))
  }

  /** A channel is picked exactly when it is marked not joined, and it lands
      in the list its key decides. */
  lemma {:induction false} PendingMembers(order: seq<string>, chans: map<string, Channel>)
    requires forall k :: k in order ==> k in chans
    requires Pending(order, chans).Some?
    ensures forall k :: k in order ==> chans[k].joined.Some?
    ensures var (u, kd) := Pending(order, chans).value;
      && (forall n :: n in u <==> exists k :: k in order && !chans[k].joined.value && chans[k].key.None? && chans[k].name == n)
      && (forall n, key :: (n, key) in kd <==> exists k :: k in order && !chans[k].joined.value && chans[k].key == Some(key) && chans[k].name == n)
    decreases |order|
  {
    if order != [] {
      var init := order[..|order| - 1];
      var last := order[|order| - 1];
      assert forall k :: k in init ==> k in order;
      assert forall k :: k in order <==> k in init || k == last;
      PendingMembers(init, chans);
    }
  }

  /** A channel name a server can read back out of a `JOIN` list. */
  predicate PlainName(n: string)
  {
    n != "" && ' ' !in n && ',' !in n && n[0] != ':'
  }

  lemma JoinWithFirst(parts: seq<string>, sep: string)
    requires parts != [] && parts[0] != ""
    ensures JoinWith(parts, sep) != "" && JoinWith(parts, sep)[0] == parts[0][0]
  {
  }

  lemma {:induction false} JoinWithNoChar(parts: seq<string>, sep: string, c: char)
    requires c !in sep && forall i :: 0 <= i < |parts| ==> c !in parts[i]
    ensures c !in JoinWith(parts, sep)
    decreases |parts|
  {
    if |parts| > 1 {
      JoinWithNoChar(parts[1..], sep, c);
    }
  }

  /** A server reading an unkeyed `JOIN` line finds the command and, split
      at its commas, exactly the batch. */
  lemma UnkeyedLineReadsBack(batch: seq<string>)
    requires batch != [] && forall i :: 0 <= i < |batch| ==> PlainName(batch[i])
    ensures var m := Parse(UnkeyedLine(batch));
      m.command == "JOIN" && |m.params| == 1 && Split(m.params[0], ',') == batch
  {
    GlueJoin(batch);
    var p := JoinWith(batch, ",");
    JoinWithFirst(batch, ",");
    assert NonEmpty([p]) == [p] by {
      assert [p][1..] == [];
    }
    assert Sendable("JOIN", [p]);
    ParseFormat("JOIN", [p]);
    SplitJoin(batch, ',');
  }

  /** A server reading a keyed `JOIN` line finds the names as a comma list
      and the keys, in the same order, as one parameter separated by spaces. */
  lemma KeyedLineReadsBack(batch: seq<(string, string)>)
    requires batch != []
    requires forall i :: 0 <= i < |batch| ==> PlainName(batch[i].0)
    requires forall i :: 0 <= i < |batch| ==> batch[i].1 != "" && ' ' !in batch[i].1
    ensures var m := Parse(KeyedLine(batch));
      && m.command == "JOIN" && |m.params| == 2
      && Split(m.params[0], ',') == Names(batch)
      && Split(m.params[1], ' ') == Keys(batch)
  {
    GlueKeyedJoin(batch);
    var ns, ks := Names(batch), Keys(batch);
    var p, q := JoinWith(ns, ","), JoinWith(ks, " ");
    JoinWithFirst(ns, ",");
    JoinWithNoChar(ns, ",", ' ');
    JoinWithFirst(ks, " ");
    assert NonEmpty([p, q]) == [p, q] by {
      assert [p, q][1..] == [q];
      assert [q][1..] == [];
    }
    assert Sendable("JOIN", [p, q]);
    ParseFormat("JOIN", [p, q]);
    SplitJoin(ns, ',');
    SplitJoin(ks, ' ');
  }

  /** With non-empty names the source's stringing is `",".join`. */
  lemma {:induction false} GlueJoin(batch: seq<string>)
    requires forall i :: 0 <= i < |batch| ==> batch[i] != ""
    ensures Glue(batch) == JoinWith(batch, ",")
    decreases |batch|
  {
    if |batch| > 1 {
      var init := batch[..|batch| - 1];
      GlueJoin(init);
      JoinWithFirst(init, ",");
      JoinWithSnoc(init, batch[|batch| - 1], ",");
      assert init + [batch[|batch| - 1]] == batch;
    }
  }

  /** With non-empty names the keyed stringing is `",".join` of the names
      and `" ".join` of the keys. */
  lemma {:induction false} GlueKeyedJoin(batch: seq<(string, string)>)
    requires forall i :: 0 <= i < |batch| ==> batch[i].0 != ""
    ensures GlueKeyed(batch) == (JoinWith(Names(batch), ","), JoinWith(Keys(batch), " "))
    decreases |batch|
  {
    if |batch| > 1 {
      var n := |batch| - 1;
      var init := batch[..n];
      GlueKeyedJoin(init);
      JoinWithFirst(Names(init), ",");
      JoinWithSnoc(Names(init), batch[n].0, ",");
      JoinWithSnoc(Keys(init), batch[n].1, " ");
      assert Names(init) + [batch[n].0] == Names(batch);
      assert Keys(init) + [batch[n].1] == Keys(batch);
    } else if |batch| == 1 {
      assert batch[..0] == [];
      assert "" + batch[0].0 == batch[0].0 && "" + batch[0].1 == batch[0].1;
    }
  }

  /** Line `i` is the line for batch `i`. */
  lemma {:induction false} UnkeyedLinesAt(bs: seq<seq<string>>, i: nat)
    requires i < |bs|
    ensures UnkeyedLines(bs)[i] == UnkeyedLine(bs[i])
    decreases |bs|
  {
    if i < |bs| - 1 {
      UnkeyedLinesAt(bs[..|bs| - 1], i);
    }
  }

  lemma {:induction false} KeyedLinesAt(bs: seq<seq<(string, string)>>, i: nat)
    requires i < |bs|
    ensures KeyedLines(bs)[i] == KeyedLine(bs[i])
    decreases |bs|
  {
    if i < |bs| - 1 {
      KeyedLinesAt(bs[..|bs| - 1], i);
    }
  }

  lemma UnkeyedLinesSnoc(bs: seq<seq<string>>, b: seq<string>)
    ensures UnkeyedLines(bs + [b]) == UnkeyedLines(bs) + [UnkeyedLine(b)]
  {
    assert (bs + [b])[..|bs|] == bs;
  }

  lemma KeyedLinesSnoc(bs: seq<seq<(string, string)>>, b: seq<(string, string)>)
    ensures KeyedLines(bs + [b]) == KeyedLines(bs) + [KeyedLine(b)]
  {
    assert (bs + [b])[..|bs|] == bs;
  }

  /** Once a channel without a `joined` entry is reached, the whole pass
      raises. */
  lemma {:induction false} PendingNoneExtends(order: seq<string>, chans: map<string, Channel>, i: nat)
    requires forall k :: k in order ==> k in chans
    requires i <= |order|
    requires forall k :: k in order[..i] ==> k in chans
    requires Pending(order[..i], chans).None?
    ensures Pending(order, chans).None?
    decreases |order| - i
  {
    if i < |order| {
      assert order[..i + 1][..i] == order[..i];
      assert forall k :: k in order[..i + 1] ==> k in order;
      PendingNoneExtends(order, chans, i + 1);
    } else {
      assert order[..i] == order;
    }
  }
}
