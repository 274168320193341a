/** `getattrs` of core/config.py: an element's attributes converted to the
    types a specification asks for, checked against allowed values and
    patterns, completed with defaults, or `None` when a required attribute is
    missing. A pattern is given as the predicate its `match` computes and
    `float()` as a conversion function, since both are outside the model. */
module Attrs {
  import opened Strings
  import opened PyInt
  import opened PyErrors
  import opened Xml

  /** The Python values an attribute can end up as. */
  datatype Value = Str(s: string) | Int(i: int) | Bool(b: bool) | Float(r: real)

  /** One entry of the specification dictionary: its optional `type`,
      `def`, `vals`, `regex` and `reqd` keys. */
  datatype AttrSpec = AttrSpec(typ: Option<string>, def: Option<Value>, vals: Option<seq<Value>>, regex: Option<string -> bool>, reqd: Option<bool>)

  const TypeString: string := "string"
  const TypeInt: string := "int"
  const TypeBool: string := "bool"
  const TypeFloat: string := "float"

  /** The number a value stands for in a comparison (`True == 1`). */
  function Num(v: Value): Option<real>
  {
    match v
    case Str(_) => None
    case Int(i) => Some(i as real)
    case Bool(b) => Some(if b then 1.0 else 0.0)
    case Float(r) => Some(r)
  }

  /** Python's `==` between two such values. */
  predicate PyEq(a: Value, b: Value)
  {
    if a.Str? || b.Str? then a == b else Num(a) == Num(b)
  }

  /** `val in vals`. */
  predicate InVals(v: Value, vals: seq<Value>)
  {
    exists w :: w in vals && PyEq(v, w)
  }

  /** The `try` block: the text converted to `typ`, or `None` where the
      conversion raises. Types other than int, float and bool leave the text
      as it is. */
  function Converted(typ: string, text: string, toFloat: string -> Option<real>): (r: Option<Value>)
    ensures typ == TypeBool ==> r == Some(Bool(Lower(text) !in ["false", "no", "0"]))
    ensures typ == TypeInt ==> (r.Some? <==> ParseInt(text).Some?) && (r.Some? ==> r.value == Int(ParseInt(text).value))
    ensures typ !in {TypeInt, TypeBool, TypeFloat} ==> r == Some(Str(text))
  {
    if typ == TypeInt then
      match ParseInt(text)
      case None => None
      case Some(i) => Some(Int(i))
    else if typ == TypeFloat then
      match toFloat(text)
      case None => None
      case Some(x) => Some(Float(x))
    else if typ == TypeBool then Some(Bool(Lower(text) !in ["false", "no", "0"]))
    else Some(Str(text))
  }

  /** The `vals` and `regex` checks as the source writes them: a rejected
      value is dropped, except that the error message for a value outside
      `vals` concatenates the value to a string, which raises `TypeError`
      when it is not a string; `regex.match` on a value that is not a
      string raises `TypeError` too. */
  function CheckedAsWritten(spec: AttrSpec, v: Value): (r: Outcome<Option<Value>>)
    ensures r.Raised? <==> !v.Str? && ((spec.vals.Some? && !InVals(v, spec.vals.value)) || spec.regex.Some?)
    ensures r.Raised? ==> r.err == TypeError
    ensures r.Ok? && r.value.Some? ==> r.value.value == v
  {
    if spec.vals.Some? && !InVals(v, spec.vals.value) then
      (if v.Str? then Ok(None) else Raised(TypeError))
    else if spec.regex.Some? then
      (if !v.Str? then Raised(TypeError) else if spec.regex.value(v.s) then Ok(Some(v)) else Ok(None))
    else Ok(Some(v))
  }

  /** The checks as evidently intended: a value outside `vals` is dropped
      whatever its type. */
  function Checked(spec: AttrSpec, v: Value): (r: Outcome<Option<Value>>)
    ensures spec.vals.Some? && !InVals(v, spec.vals.value) ==> r == Ok(None)
    ensures r.Raised? <==> (spec.vals.None? || InVals(v, spec.vals.value)) && spec.regex.Some? && !v.Str?
    ensures r.Raised? ==> r.err == TypeError
    ensures r.Ok? && r.value.Some? ==> r.value.value == v
  {
    if spec.vals.Some? && !InVals(v, spec.vals.value) then Ok(None)
    else if spec.regex.Some? then
      (if !v.Str? then Raised(TypeError) else if spec.regex.value(v.s) then Ok(Some(v)) else Ok(None))
    else Ok(Some(v))
  }

  /** For text values, or where no `vals` list rejects the value, the checks
      as written are the intended ones. */
  lemma CheckedAgrees(spec: AttrSpec, v: Value)
    requires v.Str? || spec.vals.None? || InVals(v, spec.vals.value)
    ensures CheckedAsWritten(spec, v) == Checked(spec, v)
  {
  }

  /** An `int` attribute whose allowed values are written as strings: the
      source raises on a value outside them, the intended check drops it. */
  lemma IntOutsideValsRaises(toFloat: string -> Option<real>)
    ensures var spec := AttrSpec(Some(TypeInt), None, Some([Str("1")]), None, None);
      && Converted(TypeInt, "2", toFloat) == Some(Int(2))
      && CheckedAsWritten(spec, Int(2)) == Raised(TypeError)
      && Checked(spec, Int(2)) == Ok(None)
  {
    var spec := AttrSpec(Some(TypeInt), None, Some([Str("1")]), None, None);
    assert TrimLeft("2") == "2" && TrimRight("2") == "2";
    assert DigitPart("2");
    assert DropUnderscores("2") == "2";
    assert DigitsValue("2") == 2 by {
      assert DigitsValue("2"[..0]) == 0;
    }
    assert !InVals(Int(2), [Str("1")]);
  }

  /** What the first loop does with one attribute `key` whose text is
      `text`: kept with a value, dropped (`Ok(None)`), or raising. An
      attribute the specification does not mention is kept as text. */
  function KeyResult(attrs: map<string, AttrSpec>, key: string, text: string, toFloat: string -> Option<real>): (r: Outcome<Option<Value>>)
    ensures key !in attrs ==> r == Ok(Some(Str(text)))
  {
    if key !in attrs then Ok(Some(Str(text)))
    else
      var spec := attrs[key];
      var typ := if spec.typ.Some? then spec.typ.value else TypeString;
      match Converted(typ, text, toFloat)
      case Some(v) => CheckedAsWritten(spec, v)
      case None =>
        if spec.def.Some? then CheckedAsWritten(spec, spec.def.value) else Ok(None)
  }

  /** `getattrs` on an `int` attribute `2` whose allowed values are the
      strings `['1']` raises `TypeError`. */
  lemma GetAttrsIntOutsideVals(toFloat: string -> Option<real>)
    ensures var spec := AttrSpec(Some(TypeInt), None, Some([Str("1")]), None, None);
      GetAttrsSpec(map["n" := "2"], map["n" := spec], toFloat) == Raised(TypeError)
  {
    var spec := AttrSpec(Some(TypeInt), None, Some([Str("1")]), None, None);
    var attrib := map["n" := "2"];
    IntOutsideValsRaises(toFloat);
    assert KeyResult(map["n" := spec], "n", attrib["n"], toFloat) == Raised(TypeError);
    assert "n" in attrib;
  }

  /** A specified attribute raises only `TypeError`, and only when it has a
      `vals` or `regex` check; a kept one holds the converted text, or the
      default when the text does not convert. */
  lemma KeyResultOutcomes(attrs: map<string, AttrSpec>, key: string, text: string, toFloat: string -> Option<real>)
    requires key in attrs
    ensures var r := KeyResult(attrs, key, text, toFloat);
      && (r.Raised? ==> r.err == TypeError && (attrs[key].vals.Some? || attrs[key].regex.Some?))
      && (r.Ok? && r.value.Some? ==>
        var conv := Converted(if attrs[key].typ.Some? then attrs[key].typ.value else TypeString, text, toFloat);
        if conv.Some? then r.value.value == conv.value else attrs[key].def.Some? && r.value.value == attrs[key].def.value)
  {
  }

  /** The attributes among `done` that the first loop keeps, with their values. */
  function KeptOf(attrib: map<string, string>, attrs: map<string, AttrSpec>, toFloat: string -> Option<real>, done: set<string>): map<string, Value>
  {
    map k | k in done && k in attrib && KeyResult(attrs, k, attrib[k], toFloat).Ok? && KeyResult(attrs, k, attrib[k], toFloat).value.Some?
      :: KeyResult(attrs, k, attrib[k], toFloat).value.value
  }

  /** The specified keys among `done` that the second loop fills with their
      default. */
  function DefaultsOf(kept: map<string, Value>, attrs: map<string, AttrSpec>, done: set<string>): map<string, Value>
  {
    map k | k in done && k in attrs && k !in kept && attrs[k].def.Some? :: attrs[k].def.value
  }

  /** The specified keys among `done` that are missing, have no default and
      are required. */
  function MissingOf(kept: map<string, Value>, attrs: map<string, AttrSpec>, done: set<string>): set<string>
  {
    set k | k in done && k in attrs && k !in kept && attrs[k].def.None? && attrs[k].reqd == Some(true)
  }

  /** `getattrs(node, log, attrs)`. */
  function GetAttrsSpec(attrib: map<string, string>, attrs: map<string, AttrSpec>, toFloat: string -> Option<real>): Outcome<Option<map<string, Value>>>
  {
    if exists k :: k in attrib && KeyResult(attrs, k, attrib[k], toFloat).Raised? then Raised(TypeError)
    else
      var kept := KeptOf(attrib, attrs, toFloat, attrib.Keys);
      if MissingOf(kept, attrs, attrs.Keys) != {} then Ok(None)
      else Ok(Some(kept + DefaultsOf(kept, attrs, attrs.Keys)))
  }

  /** An attribute the specification does not mention comes out unchanged,
      as text. */
  lemma UnspecifiedPassesThrough(attrib: map<string, string>, attrs: map<string, AttrSpec>, toFloat: string -> Option<real>, k: string)
    requires k in attrib && k !in attrs
    requires GetAttrsSpec(attrib, attrs, toFloat).Ok? && GetAttrsSpec(attrib, attrs, toFloat).value.Some?
    ensures var m := GetAttrsSpec(attrib, attrs, toFloat).value.value; k in m && m[k] == Str(attrib[k])
  {
  }

  /** A `bool` attribute without further checks is false for `false`, `no`
      and `0` in any case, and true for any other text. */
  lemma BoolAttribute(attrib: map<string, string>, attrs: map<string, AttrSpec>, toFloat: string -> Option<real>, k: string)
    requires k in attrib && k in attrs && attrs[k].typ == Some(TypeBool) && attrs[k].vals.None? && attrs[k].regex.None?
    requires GetAttrsSpec(attrib, attrs, toFloat).Ok? && GetAttrsSpec(attrib, attrs, toFloat).value.Some?
    ensures var m := GetAttrsSpec(attrib, attrs, toFloat).value.value;
      k in m && m[k] == Bool(Lower(attrib[k]) !in ["false", "no", "0"])
  {
  }

  /** A specified key the first loop did not keep (absent, unconvertible
      without a default, or rejected) gets its default when it has one, and
      is absent from the result when it has none. */
  lemma DroppedGetsDefault(attrib: map<string, string>, attrs: map<string, AttrSpec>, toFloat: string -> Option<real>, k: string)
    requires k in attrs && k !in KeptOf(attrib, attrs, toFloat, attrib.Keys)
    requires GetAttrsSpec(attrib, attrs, toFloat).Ok? && GetAttrsSpec(attrib, attrs, toFloat).value.Some?
    ensures var m := GetAttrsSpec(attrib, attrs, toFloat).value.value;
      (attrs[k].def.Some? ==> k in m && m[k] == attrs[k].def.value) && (attrs[k].def.None? ==> k !in m)
  {
  }

  /** A value that does not convert falls back to the default, which is then
      checked like a converted value. */
  lemma UnconvertibleUsesDefault(attrs: map<string, AttrSpec>, k: string, text: string, toFloat: string -> Option<real>)
    requires k in attrs && attrs[k].def.Some?
    requires Converted(if attrs[k].typ.Some? then attrs[k].typ.value else TypeString, text, toFloat).None?
    ensures KeyResult(attrs, k, text, toFloat) == CheckedAsWritten(attrs[k], attrs[k].def.value)
  {
  }

  /** `getattrs` gives `None` exactly when nothing raised and some required
      key without a default is missing after the first loop. */
  lemma NoneIffRequiredMissing(attrib: map<string, string>, attrs: map<string, AttrSpec>, toFloat: string -> Option<real>)
    ensures GetAttrsSpec(attrib, attrs, toFloat) == Ok(None) <==>
      && (forall k :: k in attrib ==> !KeyResult(attrs, k, attrib[k], toFloat).Raised?)
      && exists k :: k in attrs && k !in KeptOf(attrib, attrs, toFloat, attrib.Keys) && attrs[k].def.None? && attrs[k].reqd == Some(true)
  {
    var kept := KeptOf(attrib, attrs, toFloat, attrib.Keys);
    if exists k :: k in attrs && k !in kept && attrs[k].def.None? && attrs[k].reqd == Some(true) {
      var k :| k in attrs && k !in kept && attrs[k].def.None? && attrs[k].reqd == Some(true);
      assert k in MissingOf(kept, attrs, attrs.Keys);
    }
  }

  /** Taking one more attribute into the first loop. */
  lemma KeptOfAdd(attrib: map<string, string>, attrs: map<string, AttrSpec>, toFloat: string -> Option<real>, done: set<string>, key: string)
    requires key in attrib && key !in done
    ensures var kr := KeyResult(attrs, key, attrib[key], toFloat);
      KeptOf(attrib, attrs, toFloat, done + {key}) ==
        if kr.Ok? && kr.value.Some? then KeptOf(attrib, attrs, toFloat, done)[key := kr.value.value]
        else KeptOf(attrib, attrs, toFloat, done)
  {
  }

  /** Taking one more specified key into the second loop: the map built so
      far has the key iff the first loop kept it, and the step adds the
      default or the missing key exactly as the specification says. */
  lemma FillStep(kept: map<string, Value>, attrs: map<string, AttrSpec>, done: set<string>, key: string)
    requires key in attrs && key !in done
    ensures var ret := kept + DefaultsOf(kept, attrs, done);
      && (key in ret <==> key in kept)
      && (key !in ret && attrs[key].def.Some? ==> ret[key := attrs[key].def.value] == kept + DefaultsOf(kept, attrs, done + {key}))
      && (!(key !in ret && attrs[key].def.Some?) ==> ret == kept + DefaultsOf(kept, attrs, done + {key}))
      && MissingOf(kept, attrs, done + {key}) ==
           MissingOf(kept, attrs, done) + (if key !in kept && attrs[key].def.None? && attrs[key].reqd == Some(true) then {key} else {})
  {
    var ret := kept + DefaultsOf(kept, attrs, done);
    if key !in ret && attrs[key].def.Some? {
      assert DefaultsOf(kept, attrs, done + {key}) == DefaultsOf(kept, attrs, done)[key := attrs[key].def.value];
    } else {
      assert DefaultsOf(kept, attrs, done + {key}) == DefaultsOf(kept, attrs, done);
    }
  }

  /** `getattrs(node, log, attrs)`: its two loops, over the element's
      attributes and then over the specification. */
  method GetAttrs(node: Element, attrs: map<string, AttrSpec>, toFloat: string -> Option<real>) returns (r: Outcome<Option<map<string, Value>>>)
    ensures r == GetAttrsSpec(node.attrib, attrs, toFloat)
  {
    var ret, raised := ConvertAll(node.attrib, attrs, toFloat);
    if raised {
      return Raised(TypeError);
    }
    var filled, missing := FillDefaults(ret, attrs);
    if missing != {} {
      return Ok(None);
    }
    r := Ok(Some(filled));
  }

  /** The first loop: each attribute converted and checked; an exception
      leaves the function. */
  method ConvertAll(attrib: map<string, string>, attrs: map<string, AttrSpec>, toFloat: string -> Option<real>) returns (ret: map<string, Value>, raised: bool)
    ensures raised <==> exists k :: k in attrib && KeyResult(attrs, k, attrib[k], toFloat).Raised?
    ensures !raised ==> ret == KeptOf(attrib, attrs, toFloat, attrib.Keys)
  {
    ret := map[];
    var todo := attrib.Keys;
    while todo != {}
      invariant todo <= attrib.Keys
      invariant ret == KeptOf(attrib, attrs, toFloat, attrib.Keys - todo)
      invariant forall k :: k in attrib.Keys - todo ==> !KeyResult(attrs, k, attrib[k], toFloat).Raised?
      decreases |todo|
    {
      var key :| key in todo;
      ghost var done := attrib.Keys - todo;
      assert attrib.Keys - (todo - {key}) == done + {key};
      KeptOfAdd(attrib, attrs, toFloat, done, key);
      var kr := KeyResult(attrs, key, attrib[key], toFloat);
      if kr.Raised? {
        return ret, true;
      }
      if kr.value.Some? {
        ret := ret[key := kr.value.value];
      }
      todo := todo - {key};
    }
    raised := false;
  }

  /** The second loop: a specified key that is still missing gets its
      default, or is listed when it is required. */
  method FillDefaults(kept: map<string, Value>, attrs: map<string, AttrSpec>) returns (ret: map<string, Value>, req: set<string>)
    ensures ret == kept + DefaultsOf(kept, attrs, attrs.Keys)
    ensures req == MissingOf(kept, attrs, attrs.Keys)
  {
    ret := kept;
    req := {};
    var todo := attrs.Keys;
    while todo != {}
      invariant todo <= attrs.Keys
      invariant ret == kept + DefaultsOf(kept, attrs, attrs.Keys - todo)
      invariant req == MissingOf(kept, attrs, attrs.Keys - todo)
      decreases todo
    {
      var key :| key in todo;
      ghost var done := attrs.Keys - todo;
      assert attrs.Keys - (todo - {key}) == done + {key};
      FillStep(kept, attrs, done, key);
      if key !in ret && attrs[key].def.Some? {
        ret := ret[key := attrs[key].def.value];
      } else if key !in ret && attrs[key].reqd == Some(true) {
        req := req + {key};
      }
      todo := todo - {key};
    }
  }
}
