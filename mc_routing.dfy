/** The fan-out in modules/minecraft/__init__.py over the three client tables
    of a Minecraft server link: log readers, UDP listeners and RCON clients,
    each a list of client names in dictionary order. The self-exclusion test
    of the log-reader and UDP tables compares the protocol with `udp`, that
    of the RCON table with `rcon`. */
module McRouting {
  import opened Strings
  import opened Bus

  datatype Kind = LogReader | Udp | Rcon

  /** A delivery: which table's client received the event. */
  datatype Recipient = Recipient(kind: Kind, name: string)

  /** The protocol a table's self-exclusion test compares with. */
  function ExcludedProtocol(kind: Kind): string
  {
    if kind == Rcon then "rcon" else "udp"
  }

  predicate FromItself(kind: Kind, moduleName: string, sender: string, protocol: string, client: string)
  {
    moduleName == "minecraft" && protocol == ExcludedProtocol(kind) && sender == client
  }

  predicate ForMinecraft(target: Target)
  {
    target.moduleName.None? || target.moduleName.value == "minecraft"
  }

  predicate Named(target: Target, client: string)
  {
    target.clientName.None? || target.clientName.value == client
  }

  /** One table's loop: its clients that pass the self-exclusion and name
      tests, in order. */
  function Table(kind: Kind, clients: seq<string>, target: Target, moduleName: string, sender: string, protocol: string): (r: seq<Recipient>)
    ensures |r| <= |clients|
    ensures forall x :: x in r <==> x.kind == kind && x.name in clients && !FromItself(kind, moduleName, sender, protocol, x.name) && Named(target, x.name)
    decreases |clients|
  {
    if clients == [] then []
    else
      (if FromItself(kind, moduleName, sender, protocol, clients[0]) || !Named(target, clients[0]) then [] else [Recipient(kind, clients[0])])
      + Table(kind, clients[1..], target, moduleName, sender, protocol)
  }

  /** `handle_event`: the log readers, then the UDP listeners, then the RCON
      clients, each table without the sender's own client. */
  function Recipients(logs: seq<string>, udps: seq<string>, rcons: seq<string>, moduleName: string, sender: string, protocol: string): seq<Recipient>
  {
    var all := Target(None, None);
    Table(LogReader, logs, all, moduleName, sender, protocol) + Table(Udp, udps, all, moduleName, sender, protocol)
      + Table(Rcon, rcons, all, moduleName, sender, protocol)
  }

  /** `handle_event_target`: nothing when the target names another module,
      else the same three loops narrowed to the client the target names. */
  function TargetRecipients(logs: seq<string>, udps: seq<string>, rcons: seq<string>, target: Target, moduleName: string, sender: string, protocol: string): seq<Recipient>
  {
    if !ForMinecraft(target) then []
    else
      Table(LogReader, logs, target, moduleName, sender, protocol) + Table(Udp, udps, target, moduleName, sender, protocol)
      + Table(Rcon, rcons, target, moduleName, sender, protocol)
  }

  /** `handle_event` reaches a client iff it is in its table and is not the
      sender's own client by that table's protocol test. */
  lemma RecipientsSpec(logs: seq<string>, udps: seq<string>, rcons: seq<string>, moduleName: string, sender: string, protocol: string, x: Recipient)
    ensures x in Recipients(logs, udps, rcons, moduleName, sender, protocol) <==>
      x.name in (match x.kind case LogReader => logs case Udp => udps case Rcon => rcons)
      && !FromItself(x.kind, moduleName, sender, protocol, x.name)
  {
  }

  /** `handle_event_target` reaches a client iff the target is for
      Minecraft, names that client or no client, and `handle_event` would
      reach it. */
  lemma TargetRecipientsSpec(logs: seq<string>, udps: seq<string>, rcons: seq<string>, target: Target, moduleName: string, sender: string, protocol: string, x: Recipient)
    ensures x in TargetRecipients(logs, udps, rcons, target, moduleName, sender, protocol) <==>
      ForMinecraft(target) && Named(target, x.name) && x in Recipients(logs, udps, rcons, moduleName, sender, protocol)
  {
  }

  /** An event a log reader puts on the bus carries a protocol other than
      `udp`, so it comes back to that same log reader; the exclusion
      written for log readers only ever fires for an event sent with protocol
      `udp` by a client of the same name. */
  lemma LogReaderHearsItself(name: string, protocol: string)
    requires protocol != "udp"
    ensures Recipient(LogReader, name) in Recipients([name], [], [], "minecraft", name, protocol)
  {
  }
}
