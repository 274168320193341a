/** The channel table `self.chans` of modules/irc/protocol.py: the configured
    channels under their lower-cased names, in configuration order, each with
    the keys the handlers add over time. */
module IrcChannels {
  import opened Strings
  import opened IrcRoster

  /** One channel dict. `joined` and `users` are absent until the first 005
      and the first own `JOIN` write them; `joinTimer` stands for a pending
      `_joinchan` retry. */
  datatype Channel = Channel(
    name: string,
    key: Option<string>,
    joined: Option<bool>,
    joinTimer: bool,
    users: Option<Roster>)

  /** Every roster in the table is well formed. */
  ghost predicate RostersOk(chans: map<string, Channel>)
  {
    forall k :: k in chans && chans[k].users.Some? ==> WellFormed(chans[k].users.value)
  }

  /** The listed channels are distinct entries of the table. */
  ghost predicate Listed(order: seq<string>, chans: map<string, Channel>)
  {
    NoDups(order) && forall k :: k in order ==> k in chans
  }

  /** One channel after `op`; `None` where the handler raises there, either
      because the channel has no `users` dict yet or because the update does. */
  function Updated(c: Channel, op: RosterOp): (r: Option<Channel>)
    requires c.users.Some? ==> WellFormed(c.users.value)
    ensures r.Some? ==> r.value.users.Some? && WellFormed(r.value.users.value)
    ensures r.Some? ==> r.value == c.(users := r.value.users)
  {
    match c.users
    case None => None
    case Some(u) =>
      match Apply(op, u)
      case None => None
      case Some(u') => Some(c.(users := Some(u')))
  }

  /** The loop `for chan in self.chans: if who in users: ...` of the
      `ACCOUNT`, 354, `NICK`, `QUIT` and `KILL` handlers over the channels in
      `order`. It stops at the first channel where the update raises, with the
      channels before it already updated; the flag says whether it got through. */
  function ForEachRoster(order: seq<string>, chans: map<string, Channel>, op: RosterOp): (r: (map<string, Channel>, bool))
    requires Listed(order, chans) && RostersOk(chans)
    ensures r.0.Keys == chans.Keys && RostersOk(r.0)
    decreases |order|
  {
    if order == [] then (chans, true)
    else
      var init := order[..|order| - 1];
      var k := order[|order| - 1];
      assert Listed(init, chans) by {
        assert forall x :: x in init ==> x in order;
      }
      var r := ForEachRoster(init, chans, op);
      if !r.1 then r
      else
        match Updated(r.0[k], op)
        case None => (r.0, false)
        case Some(c) => (r.0[k := c], true)
  }

  /** One more step of the loop, as the update method takes it. */
  lemma ForEachRosterNext(order: seq<string>, chans: map<string, Channel>, op: RosterOp, i: nat)
    requires Listed(order, chans) && RostersOk(chans) && i < |order|
    ensures Listed(order[..i], chans) && Listed(order[..i + 1], chans)
    ensures var r := ForEachRoster(order[..i], chans, op);
      r.1 ==>
        && order[i] in r.0
        && ForEachRoster(order[..i + 1], chans, op)
           == match Updated(r.0[order[i]], op)
              case None => (r.0, false)
              case Some(c) => (r.0[order[i] := c], true)
  {
    assert order[..i + 1][..i] == order[..i];
    assert forall x :: x in order[..i + 1] ==> x in order;
  }

  /** How many listed channels, from the front, the update goes through. */
  function Good(order: seq<string>, chans: map<string, Channel>, op: RosterOp): (g: nat)
    requires Listed(order, chans) && RostersOk(chans)
    ensures g <= |order|
    ensures forall i :: 0 <= i < g ==> Updated(chans[order[i]], op).Some?
    ensures g < |order| ==> Updated(chans[order[g]], op).None?
    decreases |order|
  {
    if order == [] then 0
    else
      var init := order[..|order| - 1];
      assert Listed(init, chans) by {
        assert forall x :: x in init ==> x in order;
      }
      var g := Good(init, chans, op);
      if g < |init| then g
      else if Updated(chans[order[|order| - 1]], op).Some? then |order|
      else |init|
  }

  /** The table with the first `j` listed channels updated. */
  function UpdatedUpTo(order: seq<string>, chans: map<string, Channel>, op: RosterOp, j: nat): (m: map<string, Channel>)
    requires Listed(order, chans) && RostersOk(chans) && j <= |order|
    requires forall i :: 0 <= i < j ==> Updated(chans[order[i]], op).Some?
  {
    map k | k in chans :: if k in order[..j] then Updated(chans[k], op).value else chans[k]
  }

  lemma UpdatedUpToNext(order: seq<string>, chans: map<string, Channel>, op: RosterOp, j: nat)
    requires Listed(order, chans) && RostersOk(chans) && j < |order|
    requires forall i :: 0 <= i <= j ==> Updated(chans[order[i]], op).Some?
    ensures UpdatedUpTo(order, chans, op, j + 1)
         == UpdatedUpTo(order, chans, op, j)[order[j] := Updated(chans[order[j]], op).value]
  {
    assert order[..j + 1] == order[..j] + [order[j]];
    assert order[j] !in order[..j];
  }

  lemma UpdatedUpToPrefix(order: seq<string>, chans: map<string, Channel>, op: RosterOp, j: nat)
    requires Listed(order, chans) && RostersOk(chans) && j < |order|
    requires forall i :: 0 <= i < j ==> Updated(chans[order[i]], op).Some?
    ensures Listed(order[..|order| - 1], chans)
    ensures j <= |order| - 1 ==> UpdatedUpTo(order, chans, op, j) == UpdatedUpTo(order[..|order| - 1], chans, op, j)
  {
    var init := order[..|order| - 1];
    assert forall x :: x in init ==> x in order;
    if j <= |init| {
      assert order[..j] == init[..j];
    }
  }

  /** The loop updates the listed channels in order and leaves the rest of
      the table alone; it gets through exactly when every listed update does,
      and when it fails it has updated exactly the channels before the first
      one where the update raises. */
  lemma {:induction false} ForEachRosterSpec(order: seq<string>, chans: map<string, Channel>, op: RosterOp)
    requires Listed(order, chans) && RostersOk(chans)
    ensures ForEachRoster(order, chans, op).1 <==> Good(order, chans, op) == |order|
    ensures ForEachRoster(order, chans, op).0 == UpdatedUpTo(order, chans, op, Good(order, chans, op))
    decreases |order|, 1
  {
    if order == [] {
      assert UpdatedUpTo(order, chans, op, 0) == chans;
    } else {
      var n := |order| - 1;
      UpdatedUpToPrefix(order, chans, op, 0);
      if Good(order[..n], chans, op) < n {
        EarlierStop(order, chans, op);
      } else if Updated(chans[order[n]], op).Some? {
        LastUpdated(order, chans, op);
      } else {
        LastFails(order, chans, op);
      }
    }
  }

  /** When an update before the last channel raises, the last one changes
      nothing. */
  lemma EarlierStop(order: seq<string>, chans: map<string, Channel>, op: RosterOp)
    requires Listed(order, chans) && RostersOk(chans) && order != []
    requires Listed(order[..|order| - 1], chans)
    requires Good(order[..|order| - 1], chans, op) < |order| - 1
    ensures ForEachRoster(order, chans, op).1 <==> Good(order, chans, op) == |order|
    ensures ForEachRoster(order, chans, op).0 == UpdatedUpTo(order, chans, op, Good(order, chans, op))
    decreases |order|, 0
  {
    var n := |order| - 1;
    var init := order[..n];
    ForEachRosterSpec(init, chans, op);
    var g := Good(init, chans, op);
    assert ForEachRoster(order, chans, op) == ForEachRoster(init, chans, op);
    assert Good(order, chans, op) == g;
    assert forall i :: 0 <= i < n ==> init[i] == order[i];
    UpdatedUpToPrefix(order, chans, op, g);
  }

  /** When every channel before the last updates and so does the last one,
      the loop gets through. */
  lemma LastUpdated(order: seq<string>, chans: map<string, Channel>, op: RosterOp)
    requires Listed(order, chans) && RostersOk(chans) && order != []
    requires Listed(order[..|order| - 1], chans)
    requires Good(order[..|order| - 1], chans, op) == |order| - 1
    requires Updated(chans[order[|order| - 1]], op).Some?
    ensures ForEachRoster(order, chans, op).1 && Good(order, chans, op) == |order|
    ensures ForEachRoster(order, chans, op).0 == UpdatedUpTo(order, chans, op, |order|)
    decreases |order|, 0
  {
    var n := |order| - 1;
    var init := order[..n];
    ForEachRosterSpec(init, chans, op);
    LastUntouched(order, chans, op);
    assert forall i :: 0 <= i < n ==> init[i] == order[i];
    UpdatedUpToPrefix(order, chans, op, n);
    UpdatedUpToNext(order, chans, op, n);
  }

  /** When every channel before the last updates and the last one raises,
      the loop stops there. */
  lemma LastFails(order: seq<string>, chans: map<string, Channel>, op: RosterOp)
    requires Listed(order, chans) && RostersOk(chans) && order != []
    requires Listed(order[..|order| - 1], chans)
    requires Good(order[..|order| - 1], chans, op) == |order| - 1
    requires Updated(chans[order[|order| - 1]], op).None?
    ensures !ForEachRoster(order, chans, op).1 && Good(order, chans, op) == |order| - 1
    ensures ForEachRoster(order, chans, op).0 == UpdatedUpTo(order, chans, op, |order| - 1)
    decreases |order|, 0
  {
    var n := |order| - 1;
    var init := order[..n];
    ForEachRosterSpec(init, chans, op);
    var r := ForEachRoster(init, chans, op);
    LastUntouched(order, chans, op);
    assert Updated(r.0[order[n]], op).None?;
    assert ForEachRoster(order, chans, op) == (r.0, false);
    assert forall i :: 0 <= i < n ==> init[i] == order[i];
    UpdatedUpToPrefix(order, chans, op, n);
  }

  /** When the loop gets through all but the last channel, the last one is
      still as it was. */
  lemma LastUntouched(order: seq<string>, chans: map<string, Channel>, op: RosterOp)
    requires Listed(order, chans) && RostersOk(chans) && order != []
    requires Listed(order[..|order| - 1], chans)
    requires Good(order[..|order| - 1], chans, op) == |order| - 1
    requires ForEachRoster(order[..|order| - 1], chans, op).0 == UpdatedUpTo(order[..|order| - 1], chans, op, |order| - 1)
    ensures ForEachRoster(order[..|order| - 1], chans, op).0[order[|order| - 1]] == chans[order[|order| - 1]]
  {
    var n := |order| - 1;
    assert order[n] !in order[..n];
  }

  /** Apart from `KILL`, an update raises exactly where the channel has no
      `users` dict yet, i.e. was never joined. */
  lemma UpdatedFails(c: Channel, op: RosterOp)
    requires c.users.Some? ==> WellFormed(c.users.value)
    requires !op.Kill?
    ensures Updated(c, op).None? <==> c.users.None?
  {
    if c.users.Some? {
      ApplyFails(op, c.users.value);
    }
  }

  /** Once an update has raised, the rest of the loop does not run. */
  lemma {:induction false} ForEachRosterStops(order: seq<string>, chans: map<string, Channel>, op: RosterOp, i: nat)
    requires Listed(order, chans) && RostersOk(chans) && i <= |order|
    requires Listed(order[..i], chans)
    requires !ForEachRoster(order[..i], chans, op).1
    ensures ForEachRoster(order, chans, op) == ForEachRoster(order[..i], chans, op)
    decreases |order| - i
  {
    if i < |order| {
      assert order[..i + 1][..i] == order[..i];
      assert Listed(order[..i + 1], chans) by {
        assert forall x :: x in order[..i + 1] ==> x in order;
      }
      ForEachRosterStops(order, chans, op, i + 1);
    } else {
      assert order[..i] == order;
    }
  }

  /** The loop changes rosters only: every channel keeps its name, key,
      `joined` flag and rejoin timer. */
  lemma {:induction false} ForEachRosterKeepsChannels(order: seq<string>, chans: map<string, Channel>, op: RosterOp)
    requires Listed(order, chans) && RostersOk(chans)
    ensures forall k :: k in chans ==> ForEachRoster(order, chans, op).0[k] == chans[k].(users := ForEachRoster(order, chans, op).0[k].users)
    decreases |order|
  {
    if order != [] {
      var init := order[..|order| - 1];
      assert Listed(init, chans) by {
        assert forall x :: x in init ==> x in order;
      }
      ForEachRosterKeepsChannels(init, chans, op);
    }
  }
}
