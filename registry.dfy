/** core/modules.py: the `_mods` registry of loaded RelayBot modules. Python's
    import machinery is an oracle saying, for a module name, whether
    `modules.<name>` imports and provides a `Module` class whose constructor
    returns; the calls RelayBot makes into a loaded module's object, directly
    or through `loop.call_soon`, are recorded in order. */
module Registry {
  import opened Strings
  import opened Xml

  /** The outcome of `importlib.import_module('modules.' + name)` followed by
      `m.Module(loop, m)`: an exception on the way, no `Module` attribute, or
      a module object. */
  datatype ImportResult = ImportFailed | NoModuleClass | Imported

  /** A registry entry `{'name': n, 'module': m, 'object': o}`; the module is
      identified by its import path and the object is its `Module` instance. */
  datatype Entry = Entry(name: string, path: string)

  /** A call into a loaded module's object: `readconfig(cfg)` made directly,
      `applyconfig()` and `shutdown()` scheduled with `call_soon`. */
  datatype Call = ReadConfig(name: string, cfg: seq<Element>) | ScheduledApply(name: string) | ScheduledShutdown(name: string)

  /** The entry `loadmod` stores for `name`. */
  function EntryFor(name: string): Entry
  {
    Entry(name, "modules." + name)
  }

  /** The registry keys after `readconfig`'s first loop has called `loadmod`
      on each named `<module>` element of `elems`, starting from `names`. */
  function LoadNames(names: seq<string>, elems: seq<Element>, importer: string -> ImportResult): seq<string>
    decreases |elems|
  {
    if elems == [] then names
    else
      var e := elems[0];
      if "name" in e.attrib && e.attrib["name"] !in names && importer(e.attrib["name"]) == Imported then
        LoadNames(names + [e.attrib["name"]], elems[1..], importer)
      else LoadNames(names, elems[1..], importer)
  }

  /** A module is registered after the loop iff it was before, or some named
      element asks for it and its import succeeds; earlier keys keep their
      place and no key appears twice. */
  lemma {:induction false} LoadNamesSpec(names: seq<string>, elems: seq<Element>, importer: string -> ImportResult)
    requires NoDups(names)
    ensures var r := LoadNames(names, elems, importer);
      && NoDups(r) && |names| <= |r| && r[..|names|] == names
      && forall n :: n in r <==> n in names || (importer(n) == Imported && exists e :: e in elems && "name" in e.attrib && e.attrib["name"] == n)
    decreases |elems|
  {
    if elems != [] {
      var e := elems[0];
      var rest := elems[1..];
      assert elems == [e] + rest;
      if "name" in e.attrib && e.attrib["name"] !in names && importer(e.attrib["name"]) == Imported {
        var ns := names + [e.attrib["name"]];
        LoadNamesSpec(ns, rest, importer);
        var r := LoadNames(ns, rest, importer);
        assert r[..|names|] == r[..|ns|][..|names|];
      } else {
        LoadNamesSpec(names, rest, importer);
      }
    }
  }

  /** The `readconfig` calls made on every registered module, in key order,
      each with the configuration elements tagged with the module's name. */
  function ReadConfigCalls(names: seq<string>, config: Element): (r: seq<Call>)
    ensures |r| == |names|
    ensures forall i :: 0 <= i < |names| ==> r[i] == ReadConfig(names[i], FindAll(config, names[i]))
  {
    seq(|names|, i requires 0 <= i < |names| => ReadConfig(names[i], FindAll(config, names[i])))
  }

  /** The calls `applyconfig` (or, with `shutdown` set, `shutdown`)
      schedules: exactly one per registered module, in key order. */
  function Scheduled(names: seq<string>, shutdown: bool): (r: seq<Call>)
    ensures |r| == |names|
    ensures forall i :: 0 <= i < |names| ==> r[i] == if shutdown then ScheduledShutdown(names[i]) else ScheduledApply(names[i])
    decreases |names|
  {
    if names == [] then []
    else Scheduled(names[..|names| - 1], shutdown) + [if shutdown then ScheduledShutdown(names[|names| - 1]) else ScheduledApply(names[|names| - 1])]
  }

  class Modules {
    /** The keys of `_mods` in insertion order. */
    var names: seq<string>
    var mods: map<string, Entry>
    var calls: seq<Call>

    ghost predicate Valid()
      reads this
    {
      && NoDups(names)
      && (forall n :: n in mods <==> n in names)
      && forall n :: n in mods ==> mods[n] == EntryFor(n)
    }

    constructor ()
      ensures Valid() && names == [] && calls == []
    {
      names := [];
      mods := map[];
      calls := [];
    }

    /** `getmodule(name)`: the entry when `name` is registered, else `None`. */
    function GetModule(name: string): (r: Option<Entry>)
      reads this
      requires Valid()
      ensures r.Some? <==> name in names
      ensures r.Some? ==> r.value == EntryFor(name)
    {
      if name in mods then Some(mods[name]) else None
    }

    /** `loadmod(name, loop)`: a registered name, a failed import or a module
        without a `Module` class gives `False` and leaves the registry as it
        was; otherwise exactly one entry is added under `name` and the module
        is returned. */
    method LoadMod(name: string, importer: string -> ImportResult) returns (m: Option<string>)
      requires Valid()
      modifies this`names, this`mods
      ensures Valid()
      ensures name in old(names) || importer(name) != Imported ==>
        m == None && names == old(names) && mods == old(mods)
      ensures name !in old(names) && importer(name) == Imported ==>
        m == Some("modules." + name) && names == old(names) + [name] && mods == old(mods)[name := EntryFor(name)]
    {
      if name in mods {
        return None;
      }
      var r := importer(name);
      if r != Imported {
        return None;
      }
      names := names + [name];
      mods := mods[name := EntryFor(name)];
      m := Some("modules." + name);
    }

    /** `readconfig(config, loop)`: every named `<module>` element is loaded
        first, and only then is `readconfig` called on every registered
        module, with the elements carrying its name; it always succeeds. */
    method ReadConfigAll(config: Element, importer: string -> ImportResult) returns (ok: bool)
      requires Valid()
      modifies this
      ensures Valid() && ok
      ensures names == LoadNames(old(names), FindAll(config, "module"), importer)
      ensures calls == old(calls) + ReadConfigCalls(names, config)
    {
      LoadEach(FindAll(config, "module"), importer);
      CallReadConfig(config);
      ok := true;
    }

    /** The first loop of `readconfig`: `loadmod` on each named element. */
    method LoadEach(modcfgs: seq<Element>, importer: string -> ImportResult)
      requires Valid()
      modifies this`names, this`mods
      ensures Valid()
      ensures names == LoadNames(old(names), modcfgs, importer)
    {
      var i := 0;
      while i < |modcfgs|
        invariant 0 <= i <= |modcfgs|
        invariant Valid()
        invariant LoadNames(names, modcfgs[i..], importer) == LoadNames(old(names), modcfgs, importer)
        decreases |modcfgs| - i
      {
        var mod := modcfgs[i];
        assert modcfgs[i..][1..] == modcfgs[i + 1..];
        if "name" in mod.attrib {
          var m := LoadMod(mod.attrib["name"], importer);
        }
        i := i + 1;
      }
    }

    /** The second loop of `readconfig`: the object of every registered
        module reads its part of the configuration. */
    method CallReadConfig(config: Element)
      modifies this`calls
      ensures calls == old(calls) + ReadConfigCalls(names, config)
    {
      var j := 0;
      while j < |names|
        invariant 0 <= j <= |names|
        invariant calls == old(calls) + ReadConfigCalls(names[..j], config)
        decreases |names| - j
      {
        calls := calls + [ReadConfig(names[j], FindAll(config, names[j]))];
        j := j + 1;
        assert ReadConfigCalls(names[..j], config) == ReadConfigCalls(names[..j - 1], config) + [ReadConfig(names[j - 1], FindAll(config, names[j - 1]))];
      }
      assert names[..j] == names;
    }

    /** `applyconfig(loop)`: one scheduled `applyconfig` per registered
        module, in key order. */
    method ApplyConfig()
      modifies this`calls
      ensures calls == old(calls) + Scheduled(names, false)
    {
      var j := 0;
      while j < |names|
        invariant 0 <= j <= |names|
        invariant calls == old(calls) + Scheduled(names[..j], false)
        decreases |names| - j
      {
        calls := calls + [ScheduledApply(names[j])];
        j := j + 1;
        assert names[..j] == names[..j - 1] + [names[j - 1]];
      }
      assert names[..j] == names;
    }

    /** `shutdown(loop)`: one scheduled `shutdown` per registered module, in
        key order. */
    method Shutdown()
      modifies this`calls
      ensures calls == old(calls) + Scheduled(names, true)
    {
      var j := 0;
      while j < |names|
        invariant 0 <= j <= |names|
        invariant calls == old(calls) + Scheduled(names[..j], true)
        decreases |names| - j
      {
        calls := calls + [ScheduledShutdown(names[j])];
        j := j + 1;
        assert names[..j] == names[..j - 1] + [names[j - 1]];
      }
      assert names[..j] == names;
    }
  }
}
