/** The RCON client of modules/minecraft/rconprotocol.py (`MCRConProtocol`):
    sequential request ids and a one-shot table of reply handlers keyed by id,
    with -1, the id the server answers a refused login with, reserved for the
    login-failure handler. The transport is an outbox of written frames and the
    30-second reconnect timer a count of scheduled reconnects. */
module RconProtocol {
  import opened Strings
  import Utf8
  import opened RconCodec

  /** The bound methods the source stores in `rconcallbacks`. */
  datatype Callback = LoginCallback | LoginFailure | ListUuids

  /** An exception that escapes `_sendcmd` or `data_received`; the event loop
      then closes the connection. */
  datatype Fault =
    | StructError          // `struct.pack` of an id, type or size outside int32
    | KeyError(key: int)   // `del` of an id no longer in the table
    | UnicodeDecodeError   // a `list uuids` reply that is not UTF-8
    | AttributeError       // `.decode` on the default packet's text payload

  /** The client's state: next id, handler table, frames written, reconnects
      scheduled and the exception that escaped, if any. */
  datatype RconState = RconState(id: int, callbacks: map<int, Callback>, sent: seq<seq<byte>>, reconnects: nat, fault: Option<Fault>)

  /** `_rcon_login_callback` on a state, given the frame of the `list uuids`
      request (`None` where it cannot be packed): the new state and whether it
      raised. */
  function LoginStep(s: RconState, pkt: Packet, list: Option<seq<byte>>): (RconState, bool)
  {
    if pkt.ptype != 2 then (s, false)
    else if -1 !in s.callbacks then (s.(fault := Some(KeyError(-1))), true)
    else
      var cbs := s.callbacks - {-1};
      match list
      case None => (s.(callbacks := cbs, fault := Some(StructError)), true)
      case Some(frame) => (s.(callbacks := cbs[s.id := ListUuids], id := s.id + 1, sent := s.sent + [frame]), false)
  }

  /** What `data_received` does with a decoded packet. */
  function Dispatched(s: RconState, pkt: Packet): RconState
  {
    DispatchWith(s, pkt, pkt.payload.Raw? && Utf8.Decode(pkt.payload.bytes).Some?, Encode(s.id, 2, "list uuids"))
  }

  /** The same, given whether the payload is UTF-8 text and the frame of the
      `list uuids` request: the handler filed under the packet's id runs, and
      unless it raised the id is then deleted. */
  function DispatchWith(s: RconState, pkt: Packet, text: bool, list: Option<seq<byte>>): RconState
  {
    if pkt.id !in s.callbacks then s
    else
      var (s1, raised) := match s.callbacks[pkt.id]
        case LoginFailure => (s.(reconnects := s.reconnects + (if pkt.ptype == 2 then 1 else 0)), false)
        case ListUuids =>
          if text then (s, false)
          else (s.(fault := Some(if pkt.payload.Raw? then UnicodeDecodeError else AttributeError)), true)
        case LoginCallback => LoginStep(s, pkt, list);
      if raised then s1
      else if pkt.id !in s1.callbacks then s1.(fault := Some(KeyError(pkt.id)))
      else s1.(callbacks := s1.callbacks - {pkt.id})
  }

  /** Ids in the table are issued ids, and -1 belongs to the login-failure handler. */
  ghost predicate ValidState(s: RconState)
  {
    && s.id >= 0
    && (forall k :: k in s.callbacks ==> k == -1 || 0 <= k < s.id)
    && (-1 in s.callbacks ==> s.callbacks[-1] == LoginFailure)
  }

  /** Each handler's effect: a reply with no handler changes nothing; the
      login-failure handler schedules a reconnect for a type-2 reply; the
      `list uuids` handler raises on a payload that is not UTF-8 text; the
      login handler ignores other types and otherwise swaps the -1 entry for a
      `list uuids` request. The handler's id is deleted afterwards unless it
      raised. */
  lemma DispatchCases(s: RconState, pkt: Packet, text: bool, list: Option<seq<byte>>)
    ensures pkt.id !in s.callbacks ==> DispatchWith(s, pkt, text, list) == s
    ensures pkt.id in s.callbacks && s.callbacks[pkt.id] == LoginFailure ==>
      DispatchWith(s, pkt, text, list) == s.(callbacks := s.callbacks - {pkt.id}, reconnects := s.reconnects + (if pkt.ptype == 2 then 1 else 0))
    ensures pkt.id in s.callbacks && s.callbacks[pkt.id] == ListUuids ==>
      DispatchWith(s, pkt, text, list) ==
        if text then s.(callbacks := s.callbacks - {pkt.id})
        else s.(fault := Some(if pkt.payload.Raw? then UnicodeDecodeError else AttributeError))
    ensures pkt.id in s.callbacks && s.callbacks[pkt.id] == LoginCallback && pkt.ptype != 2 ==>
      DispatchWith(s, pkt, text, list) == s.(callbacks := s.callbacks - {pkt.id})
    ensures pkt.id in s.callbacks && s.callbacks[pkt.id] == LoginCallback && pkt.ptype == 2 && -1 in s.callbacks && list.Some? && pkt.id != -1 && pkt.id != s.id ==>
      DispatchWith(s, pkt, text, list) == s.(callbacks := (s.callbacks - {-1})[s.id := ListUuids] - {pkt.id}, id := s.id + 1, sent := s.sent + [list.value])
  {
  }

  /** Dispatch keeps the table consistent, and a handler that did not raise is
      gone from the table afterwards: each runs at most once. */
  lemma DispatchOneShot(s: RconState, pkt: Packet, text: bool, list: Option<seq<byte>>)
    requires ValidState(s)
    ensures ValidState(DispatchWith(s, pkt, text, list))
    ensures pkt.id in s.callbacks && s.fault == None && DispatchWith(s, pkt, text, list).fault == None ==>
      pkt.id !in DispatchWith(s, pkt, text, list).callbacks
  {
    if pkt.id in s.callbacks && s.callbacks[pkt.id] == LoginCallback {
      LoginStepValid(s, pkt, list);
    }
  }

  /** The login handler keeps the table consistent and never files anything
      under an id already issued. */
  lemma LoginStepValid(s: RconState, pkt: Packet, list: Option<seq<byte>>)
    requires ValidState(s)
    ensures ValidState(LoginStep(s, pkt, list).0)
    ensures forall k :: k in LoginStep(s, pkt, list).0.callbacks && k !in s.callbacks ==> k == s.id
  {
  }

  class RconClient {
    /** The next request id. */
    var id: int
    var callbacks: map<int, Callback>
    /** Frames handed to `transport.write`, oldest first. */
    var sent: seq<seq<byte>>
    /** Reconnects scheduled by the login-failure handler. */
    var reconnects: nat
    var fault: Option<Fault>
    /** `config['rcon']['password']`. */
    const password: string

    /** Ids in the table are issued ids, and -1 belongs to the login-failure handler. */
    ghost predicate Valid()
      reads this
    {
      ValidState(State())
    }

    constructor (password: string)
      ensures this.password == password
      ensures id == 0 && callbacks == map[-1 := LoginFailure]
      ensures sent == [] && reconnects == 0 && fault == None
      ensures Valid()
    {
      this.password := password;
      id := 0;
      callbacks := map[-1 := LoginFailure];
      sent := [];
      reconnects := 0;
      fault := None;
    }

    /** `_resetid`. Issued ids start again at 0, so the table stays consistent
        only when no request is still waiting for its reply. */
    method ResetId()
      modifies this
      ensures id == 0
      ensures callbacks == old(callbacks) && sent == old(sent)
      ensures reconnects == old(reconnects) && fault == old(fault)
      ensures old(Valid()) ==> (Valid() <==> forall k :: k in callbacks ==> k == -1)
    {
      id := 0;
    }

    /** `_sendcmd(cmd, type, callback)`: the request goes out under the current
        id, which is returned and then advanced by one; the handler, when there
        is one, is filed under that id. A frame `struct.pack` refuses raises
        before anything changes. */
    method SendCmd(cmd: string, ptype: int, cb: Option<Callback>) returns (rid: Option<int>)
      modifies this
      ensures Encode(old(id), ptype, cmd).None? ==>
        && rid == None && fault == Some(StructError)
        && id == old(id) && callbacks == old(callbacks) && sent == old(sent)
      ensures Encode(old(id), ptype, cmd).Some? ==>
        && rid == Some(old(id)) && id == old(id) + 1
        && callbacks == (if cb.Some? then old(callbacks)[old(id) := cb.value] else old(callbacks))
        && sent == old(sent) + [Encode(old(id), ptype, cmd).value]
        && fault == old(fault)
      ensures reconnects == old(reconnects)
      ensures old(Valid()) ==> Valid()
    {
      var frame := Encode(id, ptype, cmd);
      if frame.None? {
        fault := Some(StructError);
        return None;
      }
      rid := Some(id);
      if cb.Some? {
        callbacks := callbacks[id := cb.value];
      }
      id := id + 1;
      sent := sent + [frame.value];
    }

    /** `connection_made`: the login request, type 3, carrying the password. */
    method ConnectionMade() returns (rid: Option<int>)
      modifies this
      ensures Encode(old(id), 3, password).Some? ==>
        && rid == Some(old(id)) && id == old(id) + 1
        && callbacks == old(callbacks)[old(id) := LoginCallback]
        && sent == old(sent) + [Encode(old(id), 3, password).value]
        && fault == old(fault)
      ensures Encode(old(id), 3, password).None? ==>
        rid == None && fault == Some(StructError) && unchanged(this`id, this`callbacks, this`sent)
      ensures reconnects == old(reconnects)
      ensures old(Valid()) ==> Valid()
    {
      rid := SendCmd(password, 3, Some(LoginCallback));
    }

    /** `_rcon_login_failure`: a reconnect is scheduled only for a type-2 reply. */
    method OnLoginFailure(pkt: Packet)
      modifies this`reconnects
      ensures reconnects == old(reconnects) + (if pkt.ptype == 2 then 1 else 0)
    {
      if pkt.ptype == 2 {
        reconnects := reconnects + 1;
      }
    }

    /** `_rcon_list_uuids`: the payload is decoded as UTF-8 and only logged, so
        the only visible effect is the exception when that fails. */
    method OnListUuids(pkt: Packet) returns (raised: bool)
      modifies this`fault
      ensures raised <==> !(pkt.payload.Raw? && Utf8.Decode(pkt.payload.bytes).Some?)
      ensures raised ==> fault == Some(if pkt.payload.Raw? then UnicodeDecodeError else AttributeError)
      ensures !raised ==> fault == old(fault)
    {
      raised := true;
      if pkt.payload.ErrorText? {
        fault := Some(AttributeError);
      } else if Utf8.Decode(pkt.payload.bytes).None? {
        fault := Some(UnicodeDecodeError);
      } else {
        raised := false;
      }
    }

    /** `_rcon_login_callback`: a reply other than type 2 is ignored; otherwise
        the -1 entry is deleted (a `KeyError` when it is gone) and `list uuids`
        is sent with its own handler. */
    method OnLogin(pkt: Packet) returns (raised: bool)
      modifies this
      ensures pkt.ptype != 2 ==> !raised && unchanged(this)
      ensures pkt.ptype == 2 && -1 !in old(callbacks) ==>
        raised && fault == Some(KeyError(-1)) && unchanged(this`id, this`callbacks, this`sent)
      ensures var list := Encode(old(id), 2, "list uuids");
        pkt.ptype == 2 && -1 in old(callbacks) && list.None? ==>
          && raised && fault == Some(StructError)
          && callbacks == old(callbacks) - {-1} && id == old(id) && sent == old(sent)
      ensures var list := Encode(old(id), 2, "list uuids");
        pkt.ptype == 2 && -1 in old(callbacks) && list.Some? ==>
          && !raised && fault == old(fault)
          && callbacks == (old(callbacks) - {-1})[old(id) := ListUuids]
          && id == old(id) + 1 && sent == old(sent) + [list.value]
      ensures reconnects == old(reconnects)
      ensures old(Valid()) ==> Valid()
    {
      raised := false;
      if pkt.ptype != 2 {
        return;
      }
      if -1 !in callbacks {
        fault := Some(KeyError(-1));
        return true;
      }
      callbacks := callbacks - {-1};
      var rid := SendCmd("list uuids", 2, Some(ListUuids));
      raised := rid.None?;
    }

    /** The client's fields as one value. */
    function State(): RconState
      reads this
    {
      RconState(id, callbacks, sent, reconnects, fault)
    }

    /** The dispatch step of `data_received` for a decoded packet. */
    method Dispatch(pkt: Packet)
      modifies this
      ensures State() == Dispatched(old(State()), pkt)
      ensures old(Valid()) ==> Valid()
    {
      if pkt.id !in callbacks {
        return;
      }
      match callbacks[pkt.id] {
        case LoginFailure => RunLoginFailure(pkt);
        case ListUuids => RunListUuids(pkt);
        case LoginCallback => RunLogin(pkt);
      }
    }

    /** The login-failure handler runs, then its id is deleted. */
    method RunLoginFailure(pkt: Packet)
      requires pkt.id in callbacks && callbacks[pkt.id] == LoginFailure
      modifies this
      ensures State() == Dispatched(old(State()), pkt)
      ensures old(Valid()) ==> Valid()
    {
      OnLoginFailure(pkt);
      Retire(pkt.id);
    }

    /** The `list uuids` handler runs, then its id is deleted unless it raised. */
    method RunListUuids(pkt: Packet)
      requires pkt.id in callbacks && callbacks[pkt.id] == ListUuids
      modifies this
      ensures State() == Dispatched(old(State()), pkt)
      ensures old(Valid()) ==> Valid()
    {
      var raised := OnListUuids(pkt);
      if !raised {
        Retire(pkt.id);
      }
    }

    /** The login handler runs, then its id is deleted unless it raised. */
    method RunLogin(pkt: Packet)
      requires pkt.id in callbacks && callbacks[pkt.id] == LoginCallback
      modifies this
      ensures State() == Dispatched(old(State()), pkt)
      ensures old(Valid()) ==> Valid()
    {
      var raised := OnLogin(pkt);
      if !raised {
        Retire(pkt.id);
      }
    }

    /** `del self.rconcallbacks[id]` after a handler has run. */
    method Retire(key: int)
      modifies this`callbacks, this`fault
      ensures key in old(callbacks) ==> callbacks == old(callbacks) - {key} && fault == old(fault)
      ensures key !in old(callbacks) ==> callbacks == old(callbacks) && fault == Some(KeyError(key))
      ensures old(Valid()) ==> Valid()
    {
      if key !in callbacks {
        fault := Some(KeyError(key));
        return;
      }
      callbacks := callbacks - {key};
    }

    /** `data_received`: the frame is decoded (a malformed one becomes the
        default packet with id -1) and dispatched. */
    method DataReceived(data: seq<byte>)
      modifies this
      ensures State() == Dispatched(old(State()), Decode(data))
      ensures old(Valid()) ==> Valid()
    {
      Dispatch(Decode(data));
    }
  }
}
