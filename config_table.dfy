/** The module-level `configs` dictionary each RelayBot module keeps, and the
    loop every `loadconfig` runs over its configuration elements: an element
    without a `name` attribute, or whose name is already in the table, is
    skipped; any other element is handed to the module's own entry parser,
    which stores an entry, skips the element, or raises (ending the load with
    the entries stored so far kept). */
module ConfigTable {
  import opened Strings
  import opened PyErrors
  import opened Xml

  /** What loading `config` into a table with keys `names` (in insertion
      order) and entries `confs` leaves, and the exception that ended it. */
  function LoadAll<C>(names: seq<string>, confs: map<string, C>, config: seq<Element>,
                      parse: (string, Element) -> Outcome<Option<C>>): (seq<string>, map<string, C>, Option<PyError>)
    decreases |config|
  {
    if config == [] then (names, confs, None)
    else
      var e := config[0];
      if "name" !in e.attrib || e.attrib["name"] in confs then LoadAll(names, confs, config[1..], parse)
      else
        var n := e.attrib["name"];
        match parse(n, e)
        case Raised(err) => (names, confs, Some(err))
        case Ok(None) => LoadAll(names, confs, config[1..], parse)
        case Ok(Some(c)) => LoadAll(names + [n], confs[n := c], config[1..], parse)
  }

  /** The keys are the table's insertion order: each once, and exactly the
      names with an entry. */
  ghost predicate Ordered<C>(names: seq<string>, confs: map<string, C>)
  {
    NoDups(names) && forall n :: n in confs <==> n in names
  }

  /** Loading keeps the keys in order, never changes or drops an entry already
      present (a duplicate name is skipped, not overwritten), and every new
      entry is what the parser gave for some element carrying that name. */
  lemma {:induction false} LoadAllProperties<C>(names: seq<string>, confs: map<string, C>, config: seq<Element>,
                                                parse: (string, Element) -> Outcome<Option<C>>)
    requires Ordered(names, confs)
    ensures var r := LoadAll(names, confs, config, parse);
      && Ordered(r.0, r.1)
      && |names| <= |r.0| && r.0[..|names|] == names
      && (forall n :: n in confs ==> n in r.1 && r.1[n] == confs[n])
      && (forall n :: n in r.1 && n !in confs ==>
            exists e :: e in config && "name" in e.attrib && e.attrib["name"] == n && parse(n, e) == Ok(Some(r.1[n])))
    decreases |config|
  {
    if config != [] {
      var e := config[0];
      assert forall x :: x in config[1..] ==> x in config;
      if "name" !in e.attrib || e.attrib["name"] in confs {
        LoadAllProperties(names, confs, config[1..], parse);
      } else {
        var n := e.attrib["name"];
        match parse(n, e)
        case Raised(err) =>
        case Ok(None) =>
          LoadAllProperties(names, confs, config[1..], parse);
        case Ok(Some(c)) =>
          var names', confs' := names + [n], confs[n := c];
          assert Ordered(names', confs');
          LoadAllProperties(names', confs', config[1..], parse);
          var r := LoadAll(names', confs', config[1..], parse);
          assert r.0[..|names|] == r.0[..|names'|][..|names|];
      }
    }
  }

  /** A load whose parser raises only exceptions in `errs` ends, if at all,
      with one of them; with `errs` empty it always runs to the end. */
  lemma {:induction false} LoadAllRaises<C>(names: seq<string>, confs: map<string, C>, config: seq<Element>,
                                            parse: (string, Element) -> Outcome<Option<C>>, errs: set<PyError>)
    requires forall n, e :: parse(n, e).Raised? ==> parse(n, e).err in errs
    ensures LoadAll(names, confs, config, parse).2.Some? ==> LoadAll(names, confs, config, parse).2.value in errs
    decreases |config|
  {
    if config != [] {
      var e := config[0];
      if "name" !in e.attrib || e.attrib["name"] in confs {
        LoadAllRaises(names, confs, config[1..], parse, errs);
      } else {
        var n := e.attrib["name"];
        match parse(n, e)
        case Raised(_) =>
        case Ok(None) =>
          LoadAllRaises(names, confs, config[1..], parse, errs);
        case Ok(Some(c)) =>
          LoadAllRaises(names + [n], confs[n := c], config[1..], parse, errs);
      }
    }
  }

  /** One module's configuration table. */
  class Table<C> {
    /** The names in insertion order (the dictionary's iteration order). */
    var names: seq<string>
    var confs: map<string, C>

    ghost predicate Valid()
      reads this
    {
      Ordered(names, confs)
    }

    constructor ()
      ensures Valid() && names == [] && confs == map[]
    {
      names := [];
      confs := map[];
    }

    /** The entries in iteration order. */
    function Values(): (r: seq<C>)
      reads this
      requires Valid()
      ensures |r| == |names| && forall i :: 0 <= i < |names| ==> r[i] == confs[names[i]]
    {
      var ns, cs := names, confs;
      seq(|ns|, i requires 0 <= i < |ns| && ns[i] in cs => cs[ns[i]])
    }

    /** The `for cfg in config` loop of a module's `loadconfig`. */
    method Load(config: seq<Element>, parse: (string, Element) -> Outcome<Option<C>>) returns (raised: Option<PyError>)
      requires Valid()
      modifies this
      ensures Valid()
      ensures (names, confs, raised) == LoadAll(old(names), old(confs), config, parse)
    {
      var i := 0;
      while i < |config|
        invariant 0 <= i <= |config|
        invariant Valid()
        invariant LoadAll(names, confs, config[i..], parse) == LoadAll(old(names), old(confs), config, parse)
        decreases |config| - i
      {
        var e := config[i];
        assert config[i..][1..] == config[i + 1..];
        if "name" in e.attrib && e.attrib["name"] !in confs {
          var n := e.attrib["name"];
          var p := parse(n, e);
          if p.Raised? {
            return Some(p.err);
          }
          if p.value.Some? {
            names := names + [n];
            confs := confs[n := p.value.value];
          }
        }
        i := i + 1;
      }
      raised := None;
    }
  }
}
