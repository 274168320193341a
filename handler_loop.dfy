/** The loop every command and relay handler runs over its `configs`
    table: for each entry in order the body sends some events and then
    either goes on (`continue`, or the end of the body) or leaves the loop
    (`break`); an exception leaves the handler with the events already sent. */
module HandlerLoop {
  import opened Strings
  import opened PyErrors
  import opened Bus

  /** What one pass of the loop body did: the events it sent, and whether it
      went on to the next entry or broke out. */
  datatype Step = Next(out: seq<BusEvent>) | Stop(out: seq<BusEvent>)

  /** What a handler did: the events it sent, in order, and the exception
      that ended it, if any. */
  datatype Emitted = Emitted(events: seq<BusEvent>, raised: Option<PyError>)

  /** The loop over `entries` after `sent` has gone out, with `body` giving
      the outcome of one pass. */
  function Walk<C>(entries: seq<C>, body: C -> Outcome<Step>, sent: seq<BusEvent>): (r: Emitted)
    ensures sent <= r.events
    decreases |entries|
  {
    if entries == [] then Emitted(sent, None)
    else match body(entries[0])
      case Raised(e) => Emitted(sent, Some(e))
      case Ok(Stop(out)) => Emitted(sent + out, None)
      case Ok(Next(out)) => Walk(entries[1..], body, sent + out)
  }

  /** The loop itself, with `break` and early exit. */
  method RunLoop<C>(entries: seq<C>, body: C -> Outcome<Step>) returns (r: Emitted)
    ensures r == Walk(entries, body, [])
  {
    var sent: seq<BusEvent> := [];
    var i := 0;
    while i < |entries|
      invariant 0 <= i <= |entries|
      invariant Walk(entries[i..], body, sent) == Walk(entries, body, [])
    {
      assert entries[i..][1..] == entries[i + 1..];
      match body(entries[i]) {
        case Raised(e) =>
          return Emitted(sent, Some(e));
        case Ok(Stop(out)) =>
          return Emitted(sent + out, None);
        case Ok(Next(out)) =>
          sent := sent + out;
      }
      i := i + 1;
    }
    return Emitted(sent, None);
  }

  /** The events of every pass, concatenated, for a loop that never breaks
      and never raises. */
  function Collected<C>(entries: seq<C>, body: C -> Outcome<Step>): seq<BusEvent>
    decreases |entries|
  {
    if entries == [] then []
    else (if body(entries[0]).Ok? then body(entries[0]).value.out else []) + Collected(entries[1..], body)
  }

  /** A pass that always goes on: the loop sends the events of every pass,
      in order, and raises nothing. */
  lemma {:induction false} WalkNext<C>(entries: seq<C>, body: C -> Outcome<Step>, sent: seq<BusEvent>)
    requires forall c :: c in entries ==> body(c).Ok? && body(c).value.Next?
    ensures Walk(entries, body, sent) == Emitted(sent + Collected(entries, body), None)
    decreases |entries|
  {
    if entries != [] {
      assert entries[0] in entries;
      assert forall c :: c in entries[1..] ==> c in entries;
      WalkNext(entries[1..], body, sent + body(entries[0]).value.out);
      assert sent + body(entries[0]).value.out + Collected(entries[1..], body)
        == sent + Collected(entries, body);
    }
  }

  /** Every event the loop sends was already sent or comes from a pass over
      one of the entries. */
  lemma {:induction false} WalkEventsFrom<C>(entries: seq<C>, body: C -> Outcome<Step>, sent: seq<BusEvent>)
    ensures forall e :: e in Walk(entries, body, sent).events ==>
      e in sent || exists c :: c in entries && body(c).Ok? && e in body(c).value.out
    decreases |entries|
  {
    if entries != [] {
      var c0 := entries[0];
      assert c0 in entries;
      if body(c0).Ok? && body(c0).value.Next? {
        var out := body(c0).value.out;
        WalkEventsFrom(entries[1..], body, sent + out);
        forall e | e in Walk(entries, body, sent).events
          ensures e in sent || exists c :: c in entries && body(c).Ok? && e in body(c).value.out
        {
          if e !in sent + out {
            var c :| c in entries[1..] && body(c).Ok? && e in body(c).value.out;
            assert c in entries;
          } else if e !in sent {
            assert e in out;
          }
        }
      }
    }
  }
}
