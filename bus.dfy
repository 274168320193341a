/** The event bus the RelayBot modules talk over. `send_event_target(loop,
    target, module, sender, protocol, event, data)` is recorded as a
    `BusEvent` appended to an outbox; the data of the events modelled here is
    a command for an IRC or RCON client, with an optional reply callback. */
module Bus {
  import opened Strings

  /** The `target` dictionary: its optional `module` and `name` keys. */
  datatype Target = Target(moduleName: Option<string>, clientName: Option<string>)

  /** `{'module': m, 'name': n}`. */
  function To(m: string, n: string): Target
  {
    Target(Some(m), Some(n))
  }

  /** One element of a Minecraft `tellraw` component list: plain text, or a
      URL shown underlined and opened on click. */
  datatype Part = Text(text: string) | Link(url: string)

  /** The bound arguments of a `functools.partial` reply callback; `source`
      names the Minecraft client the reply comes from, `replyTo` the IRC
      client and `ircTarget` the channel the reply goes to. */
  datatype Callback =
    | WhitelistReply(source: string, replyTo: Target, ircTarget: string)
    | ListReply(source: string, replyTo: Target, ircTarget: string)

  /** The `data` of an `IRC_SENDCMD` or `RCON_SENDCMD` event: `{'command':
      c, 'callback': cb}`. A `tellraw @a` command is kept as its component
      list rather than as the JSON text `json.dumps` makes of it. */
  datatype Command =
    | Line(command: string, callback: Option<Callback>)
    | TellRaw(parts: seq<Part>)

  datatype BusEvent = BusEvent(target: Target, moduleName: string, sender: string, protocol: string, event: string, data: Command)

  /** An `IRC_SENDCMD` event asking IRC client `client` to send `line`. */
  function IrcCommand(client: string, moduleName: string, sender: string, protocol: string, line: string): BusEvent
  {
    BusEvent(To("irc", client), moduleName, sender, protocol, "IRC_SENDCMD", Line(line, None))
  }
}
