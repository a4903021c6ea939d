// The vault's role (Elder or Adult) and how it routes what it receives: which
// handler a routing event, a client event or a forwarded request goes to, and
// how a `SendToPeers` action fans out. The handlers themselves sit outside this
// module; a call into one of them is described by a `Dispatch` value.

module Vaults {
  import opened Types
  import opened Utils
  import opened MockRouting
  import IDataHandlers

  /** The vault's client handler, standing for the handler object; only whose it is matters here. */
  datatype ClientHandlerRef = ClientHandlerRef(owner: NodePublicId)

  /** The vault's data handler; `isElder` is the flag it was created with. */
  datatype DataHandlerRef = DataHandlerRef(owner: NodePublicId, isElder: bool)

  /** `State`: an elder runs both handlers, an adult only a data handler. */
  datatype State =
    | Elder(clientHandler: ClientHandlerRef, dataHandler: DataHandlerRef)
    | Adult(dataHandler: DataHandlerRef)

  datatype VaultError = HandlerCreationFailed

  /** A client's network address. */
  datatype PeerAddr = PeerAddr(bytes: seq<bv8>)

  /** The client-transport events a vault receives. */
  datatype ClientEvent =
    | ConnectedTo(peer: PeerAddr)
    | ConnectionFailure(peer: PeerAddr)
    | NewMessage(peer: PeerAddr, msg: seq<bv8>)
    | SentUserMessage(peer: PeerAddr)
    | UnsentUserMessage(peer: PeerAddr)
    | BootstrapFailure
    | BootstrappedTo
    | Finish

  /** A call into one of the handlers. */
  datatype HandlerCall =
    | HandleVaultRpc(src: XorName, rpc: Rpc)
    | HandleConsensusedAction(action: ConsensusAction)
    | HandleNodeLeft(name: XorName)
    | HandleNewConnection(peer: PeerAddr)
    | HandleConnectionFailure(peer: PeerAddr)
    | HandleClientMessage(peer: PeerAddr, msg: seq<bv8>)

  /**
   * What the vault does with an input: nothing, or one handler call. The vault
   * returns the action that call returns, except for `HandleNewConnection`,
   * `HandleConnectionFailure` and `HandleNodeLeft`, after which it returns none
   * (the copy actions `HandleNodeLeft` yields are handled on the spot).
   */
  datatype Dispatch =
    | NoAction
    | ToClientHandler(client: ClientHandlerRef, call: HandlerCall)
    | ToDataHandler(data: DataHandlerRef, call: HandlerCall)

  /** The seven request kinds handled by client handlers: account creation and update, coins, and auth keys. */
  predicate ForClientHandler(rpc: Rpc): (b: bool)
    ensures b ==> rpc.RpcRequest? && (rpc.request.ReqLoginPacket? || rpc.request.ReqCoins? || rpc.request.ReqClient?)
    ensures rpc.RpcRequest? && rpc.request.ReqLoginPacket? ==> (b <==> !rpc.request.loginPacket.LoginGet?)
    ensures rpc.RpcRequest? && rpc.request.ReqCoins? ==> (b <==> !rpc.request.coins.GetBalance?)
    ensures rpc.RpcRequest? && rpc.request.ReqClient? ==> (b <==> !rpc.request.client.ListAuthKeysAndVersion?)
  {
    && rpc.RpcRequest?
    && match rpc.request
       case ReqLoginPacket(r) => r.LoginCreate? || r.LoginCreateFor? || r.LoginUpdate?
       case ReqCoins(r) => r.CreateBalance? || r.Transfer?
       case ReqClient(r) => r.InsAuthKey? || r.DelAuthKey?
       case _ => false
  }

  /** The name a forwarded request is handled under: the new owner's for `CreateFor`, else the requester's. */
  function ForwardRequesterName(rpc: Rpc): (n: XorName)
    ensures rpc.RpcRequest? && rpc.request.ReqLoginPacket? && rpc.request.loginPacket.LoginCreateFor? ==>
            n == KeyName(rpc.request.loginPacket.newOwner)
    ensures !(rpc.RpcRequest? && rpc.request.ReqLoginPacket? && rpc.request.loginPacket.LoginCreateFor?) ==>
            n == Name(rpc.requester)
  {
    if rpc.RpcRequest? && rpc.request.ReqLoginPacket? && rpc.request.loginPacket.LoginCreateFor? then
      KeyName(rpc.request.loginPacket.newOwner)
    else
      RequesterAddress(rpc)
  }

  /** `order` with every occurrence of `name` taken out, keeping the order of the rest. */
  function Without(order: seq<XorName>, name: XorName): (r: seq<XorName>)
    ensures |r| <= |order|
    decreases |order|
  {
    if order == [] then []
    else Without(order[..|order| - 1], name) + (if order[|order| - 1] == name then [] else [order[|order| - 1]])
  }

  /** The names of `order` that come before the first `name`. */
  function PrefixBefore(order: seq<XorName>, name: XorName): seq<XorName>
    decreases |order|
  {
    if order == [] || order[0] == name then [] else [order[0]] + PrefixBefore(order[1..], name)
  }

  /** Taking out a name that is not there changes nothing. */
  lemma {:induction false} WithoutAbsent(order: seq<XorName>, name: XorName)
    requires name !in order
    ensures Without(order, name) == order
    decreases |order|
  {
    if order != [] {
      WithoutAbsent(order[..|order| - 1], name);
    }
  }

  /** The names before the first `name` are the prefix up to its position. */
  lemma {:induction false} PrefixBeforeIsPrefix(order: seq<XorName>, name: XorName, i: nat)
    requires i < |order| && order[i] == name && name !in order[..i]
    ensures PrefixBefore(order, name) == order[..i]
    decreases i
  {
    if i > 0 {
      assert order[0] in order[..i];
      assert order[1..][i - 1] == name && order[1..][..i - 1] == order[..i][1..];
      PrefixBeforeIsPrefix(order[1..], name, i - 1);
    }
  }

  /** `Without` keeps exactly the other names, each as often as before. */
  lemma {:induction false} WithoutContents(order: seq<XorName>, name: XorName)
    ensures forall t :: t in Without(order, name) <==> t in order && t != name
    ensures (forall i, j :: 0 <= i < j < |order| ==> order[i] != order[j]) ==>
            forall i, j :: 0 <= i < j < |Without(order, name)| ==> Without(order, name)[i] != Without(order, name)[j]
    decreases |order|
  {
    if order != [] {
      var init := order[..|order| - 1];
      WithoutContents(init, name);
      assert forall t :: t in order <==> t in init || t == order[|order| - 1];
      if forall i, j :: 0 <= i < j < |order| ==> order[i] != order[j] {
        assert order[|order| - 1] !in init;
      }
    }
  }

  class Vault {
    const id: NodePublicId
    var state: State

    /** A vault starting as an elder (its stored role said so) or as an adult. */
    constructor (id: NodePublicId, isElder: bool)
      ensures this.id == id
      ensures state == if isElder then Elder(ClientHandlerRef(id), DataHandlerRef(id, true))
                       else Adult(DataHandlerRef(id, false))
    {
      this.id := id;
      state := if isElder then Elder(ClientHandlerRef(id), DataHandlerRef(id, true))
               else Adult(DataHandlerRef(id, false));
    }

    /** `client_handler_mut`: only an elder has one. */
    function ClientHandlerMut(): (r: Option<ClientHandlerRef>)
      reads this
      ensures r.Some? <==> state.Elder?
      ensures r.Some? ==> r.value == state.clientHandler
    {
      match state
      case Elder(clientHandler, _) => Some(clientHandler)
      case Adult(_) => None
    }

    /** `data_handler`: both roles have one. */
    function DataHandler(): (r: Option<DataHandlerRef>)
      reads this
      ensures r == Some(state.dataHandler)
    {
      match state
      case Elder(_, dataHandler) => Some(dataHandler)
      case Adult(dataHandler) => Some(dataHandler)
    }

    /** `data_handler_mut`: None for an adult, although an adult has a data handler. */
    function DataHandlerMut(): (r: Option<DataHandlerRef>)
      reads this
      ensures r.Some? <==> state.Elder?
      ensures r.Some? ==> r.value == state.dataHandler
    {
      match state
      case Elder(_, dataHandler) => Some(dataHandler)
      case Adult(_) => None
    }

    /**
     * `promote_to_elder`, given whether creating each new handler succeeds:
     * both handlers are replaced by new elder handlers, or nothing changes.
     */
    method PromoteToElder(clientHandlerCreated: bool, dataHandlerCreated: bool) returns (r: Result<(), VaultError>)
      modifies this
      ensures r.Ok? <==> clientHandlerCreated && dataHandlerCreated
      ensures r.Ok? ==> state == Elder(ClientHandlerRef(id), DataHandlerRef(id, true))
      ensures r.Err? ==> state == old(state)
    {
      if !clientHandlerCreated {
        return Err(HandlerCreationFailed);
      }
      var clientHandler := ClientHandlerRef(id);
      if !dataHandlerCreated {
        return Err(HandlerCreationFailed);
      }
      var dataHandler := DataHandlerRef(id, true);
      state := Elder(clientHandler, dataHandler);
      r := Ok(());
    }

    /**
     * The handler a vault RPC goes to: the client handler for the seven
     * client-handler kinds, the data handler for the rest; an adult passes on none.
     */
    function KindDispatch(rpc: Rpc, src: XorName): (d: Dispatch)
      reads this
      ensures d.ToClientHandler? <==> state.Elder? && ForClientHandler(rpc)
      ensures d.ToDataHandler? <==> state.Elder? && !ForClientHandler(rpc)
      ensures d.ToClientHandler? ==> d.client == state.clientHandler
      ensures d.ToDataHandler? ==> d.data == state.dataHandler
      ensures !d.NoAction? ==> d.call == HandleVaultRpc(src, rpc)
    {
      if ForClientHandler(rpc) then
        match ClientHandlerMut()
        case None => NoAction
        case Some(client) => ToClientHandler(client, HandleVaultRpc(src, rpc))
      else
        match DataHandlerMut()
        case None => NoAction
        case Some(data) => ToDataHandler(data, HandleVaultRpc(src, rpc))
    }

    /**
     * `handle_routing_message`, given the decoded message (None when it does not
     * decode): the seven client-handler kinds go to the client handler, the rest
     * to the data handler, and an adult passes on nothing.
     */
    function RoutingMessageDispatch(src: SrcLocation, decoded: Option<Rpc>): (d: Dispatch)
      reads this
      ensures decoded.None? || state.Adult? ==> d == NoAction
      ensures d.ToClientHandler? <==> state.Elder? && decoded.Some? && ForClientHandler(decoded.value)
      ensures d.ToDataHandler? <==> state.Elder? && decoded.Some? && !ForClientHandler(decoded.value)
      ensures d.ToClientHandler? ==> d.client == state.clientHandler
      ensures d.ToDataHandler? ==> d.data == state.dataHandler
      ensures !d.NoAction? ==> d.call == HandleVaultRpc(SourceName(src), decoded.value)
    {
      match decoded
      case None => NoAction
      case Some(rpc) => KindDispatch(rpc, SourceName(src))
    }

    /**
     * `handle_routing_event`'s dispatch, given the decoded consensus action and
     * message: an adult passes on nothing at all, and promotion itself answers nothing.
     */
    function RoutingEventDispatch(event: Event, decodedAction: Option<ConsensusAction>, decodedRpc: Option<Rpc>)
      : (d: Dispatch)
      reads this
      ensures state.Adult? ==> d == NoAction
      ensures event.Promoted? || event.OtherEvent? ==> d == NoAction
      ensures event.Consensus? ==>
        d == if state.Elder? && decodedAction.Some?
             then ToClientHandler(state.clientHandler, HandleConsensusedAction(decodedAction.value)) else NoAction
      ensures event.MemberLeft? ==>
        d == if state.Elder? then ToDataHandler(state.dataHandler, HandleNodeLeft(event.name)) else NoAction
      ensures event.MessageReceived? ==> d == RoutingMessageDispatch(event.src, decodedRpc)
    {
      match event
      case Consensus(_) =>
        (match decodedAction
         case None => NoAction
         case Some(action) =>
           match ClientHandlerMut()
           case None => NoAction
           case Some(client) => ToClientHandler(client, HandleConsensusedAction(action)))
      case Promoted => NoAction
      case MessageReceived(_, src) => RoutingMessageDispatch(src, decodedRpc)
      case MemberLeft(name) =>
        (match DataHandlerMut()
         case None => NoAction
         case Some(data) => ToDataHandler(data, HandleNodeLeft(name)))
      case OtherEvent => NoAction
    }

    /** `handle_routing_event`: a `Promoted` event promotes the vault; the dispatch is taken in the state before. */
    method HandleRoutingEvent(event: Event, decodedAction: Option<ConsensusAction>, decodedRpc: Option<Rpc>,
                              clientHandlerCreated: bool, dataHandlerCreated: bool)
      returns (d: Dispatch)
      modifies this
      ensures d == old(RoutingEventDispatch(event, decodedAction, decodedRpc))
      ensures state == if event.Promoted? && clientHandlerCreated && dataHandlerCreated
                       then Elder(ClientHandlerRef(id), DataHandlerRef(id, true)) else old(state)
    {
      if event.Promoted? {
        var _ := PromoteToElder(clientHandlerCreated, dataHandlerCreated);
        return NoAction;
      }
      d := RoutingEventDispatch(event, decodedAction, decodedRpc);
    }

    /** `handle_client_event`: only an elder's client handler hears clients, and only about three events. */
    function ClientEventDispatch(event: ClientEvent): (d: Dispatch)
      reads this
      ensures !d.ToDataHandler?
      ensures d.ToClientHandler? <==>
        state.Elder? && (event.ConnectedTo? || event.ConnectionFailure? || event.NewMessage?)
      ensures d.ToClientHandler? ==> d.client == state.clientHandler
      ensures event.ConnectedTo? && d.ToClientHandler? ==> d.call == HandleNewConnection(event.peer)
      ensures event.ConnectionFailure? && d.ToClientHandler? ==> d.call == HandleConnectionFailure(event.peer)
      ensures event.NewMessage? && d.ToClientHandler? ==> d.call == HandleClientMessage(event.peer, event.msg)
    {
      match ClientHandlerMut()
      case None => NoAction
      case Some(client) =>
        match event
        case ConnectedTo(peer) => ToClientHandler(client, HandleNewConnection(peer))
        case ConnectionFailure(peer) => ToClientHandler(client, HandleConnectionFailure(peer))
        case NewMessage(peer, msg) => ToClientHandler(client, HandleClientMessage(peer, msg))
        case _ => NoAction
    }

    /** `self_is_handler_for`: in a single section, every address is handled here. */
    function SelfIsHandlerFor(address: XorName): (r: bool)
      ensures r
    {
      true
    }

    /**
     * `forward_client_request`, given the request's destination address: a
     * response, or a request without a destination other than an auth-key
     * change, is dropped; the rest goes to the handler of its kind, under the
     * requester's name (the new owner's for `CreateFor`).
     */
    function ForwardClientRequest(rpc: Rpc, destAddress: Option<XorName>): (d: Dispatch)
      reads this
      ensures rpc.RpcResponse? ==> d == NoAction
      ensures rpc.RpcRequest? && destAddress.None? &&
              !(rpc.request.ReqClient? && (rpc.request.client.InsAuthKey? || rpc.request.client.DelAuthKey?)) ==>
              d == NoAction
      ensures state.Adult? ==> d == NoAction
      ensures d.ToClientHandler? ==> ForClientHandler(rpc) && d.client == state.clientHandler
      ensures d.ToDataHandler? ==> !ForClientHandler(rpc) && d.data == state.dataHandler
      ensures !d.NoAction? ==> d.call == HandleVaultRpc(ForwardRequesterName(rpc), rpc)
      ensures state.Elder? && rpc.RpcRequest? &&
              (destAddress.Some? || (rpc.request.ReqClient? && !rpc.request.client.ListAuthKeysAndVersion?)) ==>
              !d.NoAction?
    {
      var requesterName := ForwardRequesterName(rpc);
      match rpc
      case RpcResponse(_, _, _, _) => NoAction
      case RpcRequest(request, _, _) =>
        var dstAddress :=
          (match destAddress
           case Some(address) => Some(address)
           case None =>
             if request.ReqClient? && (request.client.InsAuthKey? || request.client.DelAuthKey?) then Some(id.name)
             else None);
        if dstAddress.None? then NoAction
        else if !SelfIsHandlerFor(dstAddress.value) then NoAction
        else KindDispatch(rpc, requesterName)
    }

    /**
     * The `SendToPeers` arm of `handle_action`. `order` is the order in which
     * the target set is iterated, and `localAction` is what the data handler
     * answers when the vault is itself a target. Every other target is sent
     * the request (sending to a peer yields no action), and the result is the
     * action produced for the last target. On an adult, reaching its own name
     * abandons the rest of the targets.
     */
    method SendToPeers(sender: XorName, targets: set<XorName>, order: seq<XorName>, rpc: Rpc,
                       localAction: Option<Action>)
      returns (next: Option<Action>, sent: seq<XorName>, localCall: Dispatch)
      requires forall t :: t in targets <==> t in order
      requires forall i, j :: 0 <= i < j < |order| ==> order[i] != order[j]
      ensures !(state.Adult? && id.name in targets) ==>
        && sent == Without(order, id.name)
        && next == if |order| > 0 && order[|order| - 1] == id.name then localAction else None
      ensures state.Adult? && id.name in targets ==> next == None && sent == PrefixBefore(order, id.name)
      ensures id.name !in targets ==> sent == order && next == None && localCall == NoAction
      ensures localCall == if state.Elder? && id.name in targets
                           then ToDataHandler(state.dataHandler, HandleVaultRpc(sender, rpc)) else NoAction
    {
      next := None;
      sent := [];
      localCall := NoAction;
      var selfName := id.name;
      var i := 0;
      while i < |order|
        invariant 0 <= i <= |order|
        invariant selfName == id.name
        invariant state.Adult? ==> selfName !in order[..i]
        invariant sent == Without(order[..i], selfName)
        invariant next == if i > 0 && order[i - 1] == selfName then localAction else None
        invariant localCall == if selfName in order[..i]
                               then ToDataHandler(state.dataHandler, HandleVaultRpc(sender, rpc)) else NoAction
      {
        var target := order[i];
        WithoutStep(order, i, selfName);
        if target == selfName {
          var dataHandler := DataHandlerMut();
          if dataHandler.None? {
            PrefixBeforeIsPrefix(order, selfName, i);
            WithoutAbsent(order[..i], selfName);
            return None, sent, NoAction;
          }
          localCall := ToDataHandler(dataHandler.value, HandleVaultRpc(sender, rpc));
          next := localAction;
        } else {
          sent := sent + [target];
          next := None;
        }
        i := i + 1;
      }
      assert order[..i] == order;
      if selfName !in targets {
        WithoutAbsent(order, selfName);
      }
    }
  }

  /** One more name of `order`: `Without` grows by it unless it is `name`, and membership by it. */
  lemma WithoutStep(order: seq<XorName>, i: nat, name: XorName)
    requires i < |order|
    ensures Without(order[..i + 1], name) == Without(order[..i], name) + (if order[i] == name then [] else [order[i]])
    ensures forall t :: t in order[..i + 1] <==> t in order[..i] || t == order[i]
  {
    assert order[..i + 1][..i] == order[..i];
    assert order[..i + 1] == order[..i] + [order[i]];
  }

  /** The fan-out messages every target but the vault itself, each exactly once. */
  lemma FanOutReachesOthersOnce(order: seq<XorName>, targets: set<XorName>, name: XorName)
    requires forall t :: t in targets <==> t in order
    requires forall i, j :: 0 <= i < j < |order| ==> order[i] != order[j]
    ensures forall t :: t in Without(order, name) <==> t in targets - {name}
    ensures forall i, j :: 0 <= i < j < |Without(order, name)| ==> Without(order, name)[i] != Without(order, name)[j]
  {
    WithoutContents(order, name);
  }

  /** Promotion makes every routing message reach a handler: an elder drops only what does not decode. */
  lemma PromotedVaultHandlesMessages(src: SrcLocation, rpc: Rpc, v: Vault)
    requires v.state.Elder?
    ensures v.RoutingMessageDispatch(src, Some(rpc)) != NoAction
    ensures v.ForwardClientRequest(rpc, Some(v.id.name)) != NoAction || rpc.RpcResponse?
  {
  }

  /** The names of a list of nodes. */
  function ElderNames(elders: seq<P2pNode>): (names: seq<XorName>)
    ensures |names| == |elders|
    ensures forall i :: 0 <= i < |elders| ==> names[i] == elders[i].name
  {
    seq(|elders|, i requires 0 <= i < |elders| => elders[i].name)
  }

  /** Given the empty elder list the mock yields, `HolderList` picks exactly the adults. */
  lemma SingleSectionHoldersAreAdults(node: Node, name: XorName, closestAdults: seq<XorName>)
    ensures node.ClosestKnownEldersTo(name).Ok?
    ensures IDataHandlers.HolderList(closestAdults, ElderNames(node.ClosestKnownEldersTo(name).value)) == closestAdults
  {
    var holders := IDataHandlers.HolderList(closestAdults, ElderNames(node.ClosestKnownEldersTo(name).value));
    assert holders[..|closestAdults|] == closestAdults;
  }
}
