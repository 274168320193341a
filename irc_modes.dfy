/** The `MODE` handler of modules/irc/protocol.py: a walk over the mode
    string that tracks the current sign, consumes parameters for the letters
    that take one, and updates the status of the members a prefix mode names. */
module IrcModes {
  import opened Strings
  import opened PyErrors
  import opened IrcRoster
  import opened IrcIsupport

  /** The channel roster (absent before our first `JOIN`), the sign in
      effect and the index of the next unread parameter. */
  datatype WalkState = WalkState(users: Option<Roster>, add: bool, next: nat)

  ghost predicate UsersOk(users: Option<Roster>)
  {
    users.Some? ==> WellFormed(users.value)
  }

  /** The member `who` of `u` with prefix mode `m` given or taken away;
      a nick not in the roster changes nothing. */
  function SetStatus(u: Roster, who: string, m: char, add: bool): (u': Roster)
    requires WellFormed(u)
    ensures WellFormed(u') && u'.keys == u.keys && u'.entries.Keys == u.entries.Keys
    ensures forall k :: k in u.entries && k != who ==> u'.entries[k] == u.entries[k]
    ensures who in u.entries ==> u'.entries[who] == u.entries[who].(status := StatusChange(u.entries[who].status, m, add))
  {
    if who in u.entries then Put(u, who, u.entries[who].(status := StatusChange(u.entries[who].status, m, add)))
    else u
  }

  /** One letter of the mode string. A sign sets `add` and then goes through
      the same checks as any letter. Reading a missing parameter or a missing
      `CHANMODES` class raises `IndexError`; a prefix mode on a channel with
      no roster yet raises `KeyError`. */
  function Step(f: Features, params: seq<string>, s: WalkState, m: char): (r: Outcome<WalkState>)
    requires UsersOk(s.users)
    ensures r.Ok? ==> UsersOk(r.value.users)
  {
    var add := if m == '+' then true else if m == '-' then false else s.add;
    if m in f.prefixModes then
      if s.next >= |params| then Raised(IndexError)
      else if s.users.None? then Raised(KeyError)
      else Ok(WalkState(Some(SetStatus(s.users.value, Lower(params[s.next]), m, add)), add, s.next + 1))
    else if |f.chanmodes| < 1 then Raised(IndexError)
    else if m in f.chanmodes[0] then Ok(WalkState(s.users, add, s.next + 1))
    else if |f.chanmodes| < 2 then Raised(IndexError)
    else if m in f.chanmodes[1] then Ok(WalkState(s.users, add, s.next + 1))
    else if |f.chanmodes| < 3 then Raised(IndexError)
    else if m in f.chanmodes[2] && add then Ok(WalkState(s.users, add, s.next + 1))
    else Ok(WalkState(s.users, add, s.next))
  }

  /** The walk over `modes`; it stops at the first letter that raises,
      keeping the updates made before it. */
  function Walk(f: Features, params: seq<string>, s: WalkState, modes: string): (r: (WalkState, Option<PyError>))
    requires UsersOk(s.users)
    ensures UsersOk(r.0.users)
    decreases |modes|
  {
    if modes == [] then (s, None)
    else
      var r := Walk(f, params, s, modes[..|modes| - 1]);
      if r.1.Some? then r
      else
        match Step(f, params, r.0, modes[|modes| - 1])
        case Raised(e) => (r.0, Some(e))
        case Ok(s') => (s', None)
  }

  /** Once a letter has raised, the letters after it are never looked at. */
  lemma {:induction false} WalkStops(f: Features, params: seq<string>, s: WalkState, modes: string, i: nat)
    requires UsersOk(s.users)
    requires i <= |modes| && Walk(f, params, s, modes[..i]).1.Some?
    ensures Walk(f, params, s, modes) == Walk(f, params, s, modes[..i])
    decreases |modes| - i
  {
    if i < |modes| {
      assert modes[..i + 1][..i] == modes[..i];
      WalkStops(f, params, s, modes, i + 1);
    } else {
      assert modes[..i] == modes;
    }
  }

  /** The sign in effect after `modes`: that of the last `+` or `-`, or the
      starting one when there is none. */
  function Sign(modes: string, add: bool): bool
    decreases |modes|
  {
    if modes == [] then add
    else if modes[|modes| - 1] == '+' then true
    else if modes[|modes| - 1] == '-' then false
    else Sign(modes[..|modes| - 1], add)
  }

  /** Whether a letter takes a parameter under the sign in effect: prefix
      modes and classes A and B always, class C only when it is set. */
  predicate Takes(f: Features, m: char, add: bool)
  {
    || m in f.prefixModes
    || (|f.chanmodes| > 0 && m in f.chanmodes[0])
    || (|f.chanmodes| > 1 && m in f.chanmodes[1])
    || (|f.chanmodes| > 2 && m in f.chanmodes[2] && add)
  }

  /** How many parameters a mode string takes, counted letter by letter. */
  function Consumed(f: Features, modes: string, add: bool): nat
    decreases |modes|
  {
    if modes == [] then 0
    else
      var init := modes[..|modes| - 1];
      Consumed(f, init, add) + (if Takes(f, modes[|modes| - 1], Sign(modes, add)) then 1 else 0)
  }

  /** A walk that gets through ends with the sign of the last `+` or `-`
      and has read exactly the parameters the letters take. */
  lemma {:induction false} WalkCounts(f: Features, params: seq<string>, s: WalkState, modes: string)
    requires UsersOk(s.users)
    requires Walk(f, params, s, modes).1.None?
    ensures Walk(f, params, s, modes).0.add == Sign(modes, s.add)
    ensures Walk(f, params, s, modes).0.next == s.next + Consumed(f, modes, s.add)
    decreases |modes|
  {
    if modes != [] {
      WalkCounts(f, params, s, modes[..|modes| - 1]);
    }
  }

  /** Letters that take no parameter read none, so a walk over them alone
      never raises `IndexError` for a missing parameter and never moves on. */
  lemma {:induction false} WalkNoParams(f: Features, params: seq<string>, s: WalkState, modes: string)
    requires UsersOk(s.users) && |f.chanmodes| >= 3
    requires forall i :: 0 <= i < |modes| ==> !Takes(f, modes[i], true)
    ensures Walk(f, params, s, modes) == (s.(add := Sign(modes, s.add)), None)
    decreases |modes|
  {
    if modes != [] {
      WalkNoParams(f, params, s, modes[..|modes| - 1]);
    }
  }

  /** The walk only changes statuses: the roster keeps its members, in
      order, with their nicks and accounts, and never gains a roster. */
  lemma {:induction false} WalkKeepsMembers(f: Features, params: seq<string>, s: WalkState, modes: string)
    requires UsersOk(s.users)
    ensures Walk(f, params, s, modes).0.users.Some? <==> s.users.Some?
    ensures s.users.Some? ==>
      var u, u' := s.users.value, Walk(f, params, s, modes).0.users.value;
      && u'.keys == u.keys
      && u'.entries.Keys == u.entries.Keys
      && forall k :: k in u.entries ==>
           u'.entries[k].nick == u.entries[k].nick && u'.entries[k].account == u.entries[k].account
    decreases |modes|
  {
    if modes != [] {
      WalkKeepsMembers(f, params, s, modes[..|modes| - 1]);
    }
  }

  /** `+o nick` gives a member the letter once, and `-o nick` takes it away. */
  lemma GiveAndTake(f: Features, u: Roster, who: string, m: char)
    requires WellFormed(u) && Lower(who) in u.entries
    requires m in f.prefixModes && |f.chanmodes| >= 3
    requires !Takes(f, '+', true) && !Takes(f, '-', false)
    ensures var r := Walk(f, [who], WalkState(Some(u), true, 0), "+" + [m]);
      && r.1.None? && r.0.next == 1
      && r.0.users.Some? && Lower(who) in r.0.users.value.entries
      && var st := r.0.users.value.entries[Lower(who)].status;
         m in st && (m in u.entries[Lower(who)].status ==> st == u.entries[Lower(who)].status)
    ensures var r := Walk(f, [who], WalkState(Some(u), true, 0), "-" + [m]);
      && r.1.None? && r.0.next == 1
      && r.0.users.Some? && Lower(who) in r.0.users.value.entries
      && m !in r.0.users.value.entries[Lower(who)].status
  {
    assert ("+" + [m])[..1] == "+";
    assert ("-" + [m])[..1] == "-";
    assert ("+")[..0] == "";
    assert ("-")[..0] == "";
  }
}
