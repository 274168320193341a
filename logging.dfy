/** core/logging.py: the level names RelayBot knows, and how the `<output>`
    elements of the `<logging>` configuration become log outputs. */
module Logging {
  import opened Strings
  import opened PyInt
  import opened Xml

  /** The `levels` dictionary, in its order. */
  const Levels: seq<(string, int)> := [("DEBUG", 10), ("PROTOCOL", 5), ("INFO", 20), ("WARNING", 30), ("ERROR", 40), ("CRITICAL", 50)]

  const LogInfo: int := 20

  /** No two names share a level. */
  lemma LevelsDistinct()
    ensures forall i, j :: 0 <= i < j < |Levels| ==> Levels[i].1 != Levels[j].1 && Levels[i].0 != Levels[j].0
  {
  }

  /** `leveltoname(level)`: the name of the first entry with that level, or
      `NOTSET`; since levels are distinct, it inverts the table. */
  method LevelToName(level: int) returns (name: string)
    ensures forall i :: 0 <= i < |Levels| && Levels[i].1 == level ==> name == Levels[i].0
    ensures (forall i :: 0 <= i < |Levels| ==> Levels[i].1 != level) ==> name == "NOTSET"
  {
    LevelsDistinct();
    for i := 0 to |Levels|
      invariant forall j :: 0 <= j < i ==> Levels[j].1 != level
    {
      if Levels[i].1 == level {
        return Levels[i].0;
      }
    }
    name := "NOTSET";
  }

  /** The value of the first entry of `ls` named `name`. */
  function Lookup(ls: seq<(string, int)>, name: string): (r: Option<int>)
    ensures r.Some? <==> exists i :: 0 <= i < |ls| && ls[i].0 == name
    ensures forall i :: 0 <= i < |ls| && ls[i].0 == name && (forall j :: 0 <= j < i ==> ls[j].0 != name) ==> r == Some(ls[i].1)
    decreases |ls|
  {
    if ls == [] then None
    else if ls[0].0 == name then Some(ls[0].1)
    else
      var r := Lookup(ls[1..], name);
      assert forall i :: 1 <= i < |ls| ==> ls[i] == ls[1..][i - 1];
      r
  }

  /** `levels[name]`, when `name` is a key. */
  function LevelValue(name: string): (r: Option<int>)
    ensures r.Some? <==> exists i :: 0 <= i < |Levels| && Levels[i].0 == name
    ensures forall i :: 0 <= i < |Levels| && Levels[i].0 == name ==> r == Some(Levels[i].1)
  {
    LevelsDistinct();
    Lookup(Levels, name)
  }

  /** A file output's rotation: none, at midnight, or by size in bytes. */
  datatype Rollover = NoRollover | Midnight | Bytes(size: int)

  /** An accepted output: `{'type', 'path', 'rollover', 'level'}`. */
  datatype Output = Output(typ: string, path: Option<string>, rollover: Rollover, level: int)

  const OutputTypes: seq<string> := ["file", "stdout", "stderr"]

  /** The `rollover` attribute: `midnight` in any case, an integer, or
      (with a warning) none. */
  function RolloverOf(text: string): (r: Rollover)
    ensures Lower(text) == "midnight" ==> r == Midnight
    ensures Lower(text) != "midnight" ==> r == (if ParseInt(text).Some? then Bytes(ParseInt(text).value) else NoRollover)
  {
    if Lower(text) == "midnight" then Midnight
    else match ParseInt(text)
      case Some(n) => Bytes(n)
      case None => NoRollover
  }

  /** The body of the `for out in outs` loop: the output it accepts, or
      `None` when it skips the element. An output needs a type that is
      `file`, `stdout` or `stderr` in any case, stored lower-cased; its level
      is the named one, matched case-insensitively, and INFO when absent or
      unknown; a file output needs a path and may rotate, the others have
      neither. */
  function OutputOf(attrib: map<string, string>): (r: Option<Output>)
    ensures r.Some? <==> "type" in attrib && Lower(attrib["type"]) in OutputTypes && (Lower(attrib["type"]) == "file" ==> "path" in attrib)
    ensures r.Some? ==>
      var o := r.value;
      && o.typ == Lower(attrib["type"])
      && o.level == (if "level" in attrib && LevelValue(Upper(attrib["level"])).Some? then LevelValue(Upper(attrib["level"])).value else LogInfo)
      && (o.typ == "file" ==> o.path == Some(attrib["path"]) && o.rollover == (if "rollover" in attrib then RolloverOf(attrib["rollover"]) else NoRollover))
      && (o.typ != "file" ==> o.path.None? && o.rollover == NoRollover)
  {
    if "type" !in attrib || Lower(attrib["type"]) !in OutputTypes then None
    else
      var typ := Lower(attrib["type"]);
      var level := if "level" in attrib && LevelValue(Upper(attrib["level"])).Some? then LevelValue(Upper(attrib["level"])).value else LogInfo;
      if typ != "file" then Some(Output(typ, None, NoRollover, level))
      else if "path" !in attrib then None
      else
        var rollover := if "rollover" in attrib then RolloverOf(attrib["rollover"]) else NoRollover;
        Some(Output(typ, Some(attrib["path"]), rollover, level))
  }

  /** The outputs accepted from `outs`, in document order. */
  function Accepted(outs: seq<Element>): seq<Output>
    decreases |outs|
  {
    if outs == [] then []
    else Kept(outs[0]) + Accepted(outs[1..])
  }

  /** What one `<output>` element adds to the list. */
  function Kept(out: Element): seq<Output>
  {
    match OutputOf(out.attrib) case Some(x) => [x] case None => []
  }

  /** An output is in the list iff some element gives it; none is invented
      and none is lost. */
  lemma {:induction false} AcceptedSpec(outs: seq<Element>)
    ensures |Accepted(outs)| <= |outs|
    ensures forall x :: x in Accepted(outs) <==> exists o :: o in outs && OutputOf(o.attrib) == Some(x)
    decreases |outs|
  {
    if outs != [] {
      AcceptedSpec(outs[1..]);
      assert forall o :: o in outs <==> o == outs[0] || o in outs[1..];
    }
  }

  /** One step of `Accepted` from position `i`, after the outputs `pre`
      already kept. */
  lemma AcceptedStep(pre: seq<Output>, outs: seq<Element>, i: int)
    requires 0 <= i < |outs|
    ensures pre + Accepted(outs[i..]) == (pre + Kept(outs[i])) + Accepted(outs[i + 1..])
  {
    assert outs[i..][1..] == outs[i + 1..];
  }

  /** The `confs['outputs']` list the logging configuration fills. */
  class LogConfig {
    var outputs: seq<Output>

    constructor ()
      ensures outputs == []
    {
      outputs := [];
    }

    /** `loadconfig(conf, args)`: the accepted outputs are appended in
        document order; it always returns `True`. */
    method LoadConfig(conf: Element) returns (ok: bool)
      modifies this
      ensures ok
      ensures outputs == old(outputs) + Accepted(FindAll(conf, "output"))
    {
      var outs := FindAll(conf, "output");
      var i := 0;
      while i < |outs|
        invariant 0 <= i <= |outs|
        invariant outputs + Accepted(outs[i..]) == old(outputs) + Accepted(outs)
        decreases |outs| - i
      {
        AcceptedStep(outputs, outs, i);
        outputs := outputs + Kept(outs[i]);
        i := i + 1;
      }
      ok := true;
    }
  }
}
