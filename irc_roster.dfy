/** A channel's `users` dict in modules/irc/protocol.py: members filed under
    their lower-cased nick, each with the nick as last seen, the status mode
    letters and the services account, kept in insertion order (the order `?ops`
    lists them in). */
module IrcRoster {
  import opened Strings

  datatype Member = Member(nick: string, status: string, account: string)

  datatype Roster = Roster(keys: seq<string>, entries: map<string, Member>)

  const EmptyRoster := Roster([], map[])

  /** The keys list the entries once each, in order. */
  ghost predicate WellFormed(r: Roster)
  {
    && NoDups(r.keys)
    && (forall k :: k in r.entries <==> k in r.keys)
  }

  /** `users[k] = v`: an existing key keeps its place, a new one goes last. */
  function Put(r: Roster, k: string, v: Member): (r': Roster)
    requires WellFormed(r)
    ensures WellFormed(r')
    ensures r'.entries == r.entries[k := v]
    ensures r'.keys == if k in r.entries then r.keys else r.keys + [k]
  {
    if k in r.entries then Roster(r.keys, r.entries[k := v])
    else Roster(r.keys + [k], r.entries[k := v])
  }

  /** `s` without the element `k`. */
  function Without(s: seq<string>, k: string): (r: seq<string>)
    ensures forall x :: x in r <==> x in s && x != k
    ensures NoDups(s) ==> NoDups(r)
    ensures |r| <= |s|
    decreases |s|
  {
    if s == [] then []
    else if s[0] == k then Without(s[1..], k)
    else
      var t := Without(s[1..], k);
      assert forall x :: x in [s[0]] + t <==> x == s[0] || x in t;
      assert NoDups(s) ==> s[0] !in s[1..];
      [s[0]] + t
  }

  /** `del users[k]`, defined only where Python does not raise `KeyError`. */
  function Del(r: Roster, k: string): (r': Roster)
    requires WellFormed(r) && k in r.entries
    ensures WellFormed(r')
    ensures r'.entries == r.entries - {k}
    ensures r'.keys == Without(r.keys, k)
  {
    Roster(Without(r.keys, k), r.entries - {k})
  }

  /** 353: a listed member gets the status its prefix symbols give; a member
      already known keeps nick and account, a new one starts with no account. */
  function Named(r: Roster, name: string, status: string): (r': Roster)
    requires WellFormed(r)
    ensures WellFormed(r')
    ensures r'.entries.Keys == r.entries.Keys + {Lower(name)}
    ensures r'.entries[Lower(name)].status == status
    ensures Lower(name) in r.entries ==>
      r'.entries[Lower(name)] == r.entries[Lower(name)].(status := status) && r'.keys == r.keys
    ensures Lower(name) !in r.entries ==> r'.entries[Lower(name)] == Member(name, status, "")
    ensures forall k :: k in r.entries && k != Lower(name) ==> r'.entries[k] == r.entries[k]
  {
    var k := Lower(name);
    if k in r.entries then Put(r, k, r.entries[k].(status := status))
    else Put(r, k, Member(name, status, ""))
  }

  /** One `MODE` change of a prefix mode letter `m` on member `who`: adding
      appends the letter unless present, removing deletes every copy. */
  function StatusChange(status: string, m: char, add: bool): (s: string)
    ensures add ==> m in s && (m in status ==> s == status)
    ensures !add ==> m !in s
    ensures forall c :: c != m ==> (c in s <==> c in status)
  {
    if add then (if m in status then status else status + [m])
    else RemoveChar(status, m)
  }

  /** `s.replace(m, '')`. */
  function RemoveChar(s: string, m: char): (r: string)
    ensures forall c :: c in r <==> c in s && c != m
    decreases |s|
  {
    if s == [] then ""
    else
      var t := RemoveChar(s[1..], m);
      assert forall c :: c in s <==> c == s[0] || c in s[1..];
      if s[0] == m then t else [s[0]] + t
  }

  /** The per-channel roster updates that the source repeats over every
      channel: `ACCOUNT` and 354 set an account, `NICK` re-files a member,
      `QUIT` and `KILL` remove one. */
  datatype RosterOp =
    | SetAccount(who: string, account: string)
    | Rename(who: string, newnick: string)
    | Remove(who: string)
    | Kill(victim: string)

  /** The effect of one operation on a roster, `NICK` as the source writes
      it; `None` where the `del` raises `KeyError`. */
  function Apply(op: RosterOp, r: Roster): (r': Option<Roster>)
    requires WellFormed(r)
    ensures r'.Some? ==> WellFormed(r'.value)
  {
    match op
    case SetAccount(who, account) =>
      Some(if who in r.entries then Put(r, who, r.entries[who].(account := account)) else r)
    case Rename(who, newnick) =>
      Some(if who in r.entries then RenamedAsWritten(r, who, newnick) else r)
    case Remove(who) =>
      Some(if who in r.entries then Del(r, who) else r)
    case Kill(victim) =>
      if victim !in r.entries then Some(r)
      else if Lower(victim) in r.entries then Some(Del(r, Lower(victim)))
      else None
  }

  /** `NICK` as modules/irc/protocol.py:402-406 writes it: the member is
      stored under the new key and the old key is then deleted, which loses
      the member when only the letter case changed. */
  function RenamedAsWritten(r: Roster, who: string, newnick: string): (r': Roster)
    requires WellFormed(r) && who in r.entries
    ensures WellFormed(r')
  {
    var r1 := Put(r, Lower(newnick), r.entries[who].(nick := newnick));
    Del(r1, who)
  }

  /** The re-filing the handler intends: the member ends up under the
      lower-cased new nick with the new nick, status and account kept. */
  function Renamed(r: Roster, who: string, newnick: string): (r': Roster)
    requires WellFormed(r) && who in r.entries
    ensures WellFormed(r')
    ensures Lower(newnick) in r'.entries
    ensures r'.entries[Lower(newnick)] == r.entries[who].(nick := newnick)
    ensures who != Lower(newnick) ==> who !in r'.entries
    ensures forall k :: k != who && k != Lower(newnick) ==>
      (k in r'.entries <==> k in r.entries) && (k in r.entries ==> r'.entries[k] == r.entries[k])
  {
    if Lower(newnick) == who then Put(r, who, r.entries[who].(nick := newnick))
    else RenamedAsWritten(r, who, newnick)
  }

  /** A change of letter case only, e.g. `Bob` becoming `bob`, makes the
      written update drop the member. */
  lemma CaseChangeDropsMember()
    ensures var r := Roster(["bob"], map["bob" := Member("Bob", "o", "acct")]);
      && WellFormed(r)
      && "bob" !in RenamedAsWritten(r, "bob", "bob").entries
      && RenamedAsWritten(r, "bob", "bob").entries == map[]
  {
    var r := Roster(["bob"], map["bob" := Member("Bob", "o", "acct")]);
    assert Lower("bob") == "bob";
  }

  /** Outside the case-only change the written update is the intended one. */
  lemma RenamedAgrees(r: Roster, who: string, newnick: string)
    requires WellFormed(r) && who in r.entries && Lower(newnick) != who
    ensures RenamedAsWritten(r, who, newnick) == Renamed(r, who, newnick)
  {
  }

  /** Only a `KILL` can fail, and only when the victim's exact text is filed
      but its lower-cased form is not; with lower-case keys it never fails. */
  lemma ApplyFails(op: RosterOp, r: Roster)
    requires WellFormed(r)
    ensures Apply(op, r).None? <==> op.Kill? && op.victim in r.entries && Lower(op.victim) !in r.entries
    ensures (forall k :: k in r.entries ==> Lower(k) == k) ==> Apply(op, r).Some?
  {
  }

  /** What each operation does to the member it names and that it leaves
      every other member alone. */
  lemma ApplyEffect(op: RosterOp, r: Roster)
    requires WellFormed(r) && Apply(op, r).Some?
    ensures var r' := Apply(op, r).value;
      match op
      case SetAccount(who, account) =>
        && r'.entries.Keys == r.entries.Keys
        && (who in r.entries ==> r'.entries[who] == r.entries[who].(account := account))
        && (forall k :: k in r.entries && k != who ==> r'.entries[k] == r.entries[k])
      case Remove(who) =>
        && who !in r'.entries
        && (forall k :: k != who ==> (k in r'.entries <==> k in r.entries))
        && (forall k :: k in r'.entries ==> r'.entries[k] == r.entries[k])
      case Kill(victim) =>
        && r'.entries.Keys <= r.entries.Keys
        && (forall k :: k in r'.entries ==> r'.entries[k] == r.entries[k])
        && (victim in r.entries ==> Lower(victim) !in r'.entries)
        && (forall k :: k in r.entries && k != Lower(victim) ==> k in r'.entries)
        && (victim !in r.entries ==> r' == r)
      case Rename(who, newnick) =>
        && (who in r.entries && Lower(newnick) != who ==> r' == Renamed(r, who, newnick))
        && (who in r.entries && Lower(newnick) == who ==> r'.entries == r.entries - {who})
        && (who !in r.entries ==> r' == r)
  {
    match op
    case Rename(who, newnick) =>
      if who in r.entries && Lower(newnick) != who {
        RenamedAgrees(r, who, newnick);
      }
    case _ =>
  }
}
