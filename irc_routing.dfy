/** The fan-out in modules/irc/__init__.py: which IRC clients an event on the
    bus is handed to. `clients` lists the names of the running clients in the
    order of the `clients` dictionary. */
module IrcRouting {
  import opened Strings
  import opened Bus

  /** A client does not receive the events it put on the bus itself. */
  predicate FromItself(moduleName: string, sender: string, protocol: string, client: string)
  {
    moduleName == "irc" && protocol == "irc" && sender == client
  }

  /** The target's `name` key, when present, singles out one client. */
  predicate Named(target: Target, client: string)
  {
    target.clientName.None? || target.clientName.value == client
  }

  /** The target's `module` key, when present, must be `irc`. */
  predicate ForIrc(target: Target)
  {
    target.moduleName.None? || target.moduleName.value == "irc"
  }

  /** `handle_event`: every client except the sender's own. */
  function Recipients(clients: seq<string>, moduleName: string, sender: string, protocol: string): (r: seq<string>)
    ensures |r| <= |clients|
    ensures forall c :: c in r <==> c in clients && !FromItself(moduleName, sender, protocol, c)
    decreases |clients|
  {
    if clients == [] then []
    else
      (if FromItself(moduleName, sender, protocol, clients[0]) then [] else [clients[0]])
      + Recipients(clients[1..], moduleName, sender, protocol)
  }

  /** `handle_event_target`: nothing when the target names another module;
      otherwise the clients `handle_event` would choose, narrowed to the one
      the target names. */
  function TargetRecipients(clients: seq<string>, target: Target, moduleName: string, sender: string, protocol: string): (r: seq<string>)
    ensures |r| <= |clients|
    ensures !ForIrc(target) ==> r == []
    ensures forall c :: c in r <==> ForIrc(target) && c in clients && !FromItself(moduleName, sender, protocol, c) && Named(target, c)
    decreases |clients|
  {
    if !ForIrc(target) || clients == [] then []
    else
      (if FromItself(moduleName, sender, protocol, clients[0]) || !Named(target, clients[0]) then [] else [clients[0]])
      + TargetRecipients(clients[1..], target, moduleName, sender, protocol)
  }

  /** An empty target delivers exactly as `handle_event` does, in the same
      order. */
  lemma {:induction false} EmptyTargetIsBroadcast(clients: seq<string>, moduleName: string, sender: string, protocol: string)
    ensures TargetRecipients(clients, Target(None, None), moduleName, sender, protocol) == Recipients(clients, moduleName, sender, protocol)
    decreases |clients|
  {
    if clients != [] {
      EmptyTargetIsBroadcast(clients[1..], moduleName, sender, protocol);
    }
  }

  /** A named target reaches at most one client when the names are distinct,
      and reaches it exactly when it runs and is not the sender. */
  lemma {:induction false} NamedTargetReachesOne(clients: seq<string>, name: string, moduleName: string, sender: string, protocol: string)
    requires NoDups(clients)
    ensures var r := TargetRecipients(clients, Target(Some("irc"), Some(name)), moduleName, sender, protocol);
      r == (if name in clients && !FromItself(moduleName, sender, protocol, name) then [name] else [])
    decreases |clients|
  {
    if clients != [] {
      assert NoDups(clients[1..]) by {
        forall i, j | 0 <= i < j < |clients[1..]| ensures clients[1..][i] != clients[1..][j] {
          assert clients[1..][i] == clients[i + 1] && clients[1..][j] == clients[j + 1];
        }
      }
      NamedTargetReachesOne(clients[1..], name, moduleName, sender, protocol);
      if clients[0] == name {
        assert name !in clients[1..] by {
          forall k | 0 <= k < |clients[1..]| ensures clients[1..][k] != name {
            assert clients[1..][k] == clients[k + 1];
          }
        }
      }
    }
  }
}
