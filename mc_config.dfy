/** `loadconfig` of modules/minecraft/__init__.py: how one `<minecraft>`
    element becomes a server link configuration with up to three clients. */
module McConfig {
  import opened Strings
  import opened PyErrors
  import opened Xml
  import opened ConfigTable

  /** The attribute maps of the `<rcon>`, `<udp>` and `<logreader>` parts
      that were configured and kept. */
  datatype McConf = McConf(name: string, rcon: Option<map<string, string>>, udp: Option<map<string, string>>, logreader: Option<map<string, string>>)

  /** The UDP listener's host when the element gives none. */
  const DefaultUdpHost: string := "0.0.0.0"

  /** A part that is absent, or present with all of `required`. */
  predicate PartOk(e: Element, tag: string, required: set<string>)
  {
    var p := FindAll(e, tag);
    p == [] || required <= p[0].attrib.Keys
  }

  /** The first element with `tag`, when there is one. */
  function Part(e: Element, tag: string): Option<map<string, string>>
  {
    var p := FindAll(e, tag);
    if p == [] then None else Some(p[0].attrib)
  }

  /** The UDP attributes with the host defaulted. */
  function WithHost(a: map<string, string>): (r: map<string, string>)
    ensures r.Keys == a.Keys + {"host"}
    ensures r["host"] == (if "host" in a then a["host"] else DefaultUdpHost)
    ensures forall k :: k in a && k != "host" ==> r[k] == a[k]
  {
    if "host" in a then a else a["host" := DefaultUdpHost]
  }

  /** The body of the loop for an element named `name` not yet in `configs`.
      It never raises. An element is kept iff each configured part has its
      required attributes (rcon: host, port and password; udp: port;
      logreader: file) and at least one part is configured; a UDP part next
      to a log reader is dropped. */
  function McEntry(name: string, e: Element): (r: Outcome<Option<McConf>>)
    ensures r.Ok?
    ensures r.value.Some? <==>
      && PartOk(e, "rcon", {"host", "port", "password"}) && PartOk(e, "udp", {"port"}) && PartOk(e, "logreader", {"file"})
      && (Part(e, "rcon").Some? || Part(e, "udp").Some? || Part(e, "logreader").Some?)
    ensures r.value.Some? ==>
      var c := r.value.value;
      && c.name == name
      && c.rcon == Part(e, "rcon")
      && c.logreader == Part(e, "logreader")
      && (c.udp.Some? <==> Part(e, "udp").Some? && Part(e, "logreader").None?)
      && (c.udp.Some? ==> c.udp.value == WithHost(Part(e, "udp").value))
      && (c.rcon.Some? ==> {"host", "port", "password"} <= c.rcon.value.Keys)
      && (c.udp.Some? ==> {"host", "port"} <= c.udp.value.Keys)
      && (c.logreader.Some? ==> "file" in c.logreader.value)
  {
    var rcon := Part(e, "rcon");
    if rcon.Some? && !({"host", "port", "password"} <= rcon.value.Keys) then Ok(None)
    else
      var udp := Part(e, "udp");
      if udp.Some? && "port" !in udp.value then Ok(None)
      else
        var logreader := Part(e, "logreader");
        if logreader.Some? && "file" !in logreader.value then Ok(None)
        else if rcon.None? && udp.None? && logreader.None? then Ok(None)
        else
          var u := if udp.Some? && logreader.None? then Some(WithHost(udp.value)) else None;
          Ok(Some(McConf(name, rcon, u, logreader)))
  }

  /** `loadconfig(config, module)`: the element loop over the package's
      `configs` table; it never raises. */
  method LoadConfig(configs: Table<McConf>, config: seq<Element>)
    requires configs.Valid()
    modifies configs
    ensures configs.Valid()
    ensures (configs.names, configs.confs, None) == LoadAll(old(configs.names), old(configs.confs), config, McEntry)
  {
    LoadAllRaises(configs.names, configs.confs, config, McEntry, {});
    var raised := configs.Load(config, McEntry);
  }
}
