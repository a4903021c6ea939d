// The identity and refund helpers of the vault: total functions over a
// requester's identity, over RPCs, over results and over message sources.

module Utils {
  import opened Types

  /** `COST_OF_PUT`: the charge for one Put, refunded when the Put fails. Its value is set outside this model. */
  const CostOfPut: Coins

  /** The client behind an identity: the client itself, an app's owner, nothing for a vault. */
  function Owner(id: PublicId): (r: Option<ClientPublicId>)
    ensures r.None? <==> id.Node?
    ensures id.Client? ==> r == Some(id.client)
    ensures id.App? ==> r == Some(id.app.owner)
  {
    match id
    case Node(_) => None
    case Client(client) => Some(client)
    case App(app) => Some(app.owner)
  }

  /** The client's identity only when the requester is that client itself. */
  function Client(id: PublicId): (r: Option<ClientPublicId>)
    ensures r.Some? <==> id.Client?
    ensures r.Some? ==> r.value == id.client
  {
    match id
    case Node(_) => None
    case App(_) => None
    case Client(client) => Some(client)
  }

  /** The key a requester signs with: a client's or an app's own key; a vault has none here. */
  function OwnKey(id: PublicId): (r: Option<PublicKey>)
    ensures r.None? <==> id.Node?
    ensures id.Client? ==> r == Some(id.client.publicKey)
    ensures id.App? ==> r == Some(id.app.publicKey)
  {
    match id
    case Node(_) => None
    case Client(client) => Some(client.publicKey)
    case App(app) => Some(app.publicKey)
  }

  /** The name of the requester of a request or of a response. */
  function RequesterAddress(rpc: Rpc): (r: XorName)
    ensures r == Name(rpc.requester)
    ensures rpc.requester.App? ==> r == rpc.requester.app.owner.name
  {
    match rpc
    case RpcRequest(_, requester, _) => Name(requester)
    case RpcResponse(_, requester, _, _) => Name(requester)
  }

  /** A failed Put is refunded its cost; a successful one is not. */
  function RefundForPut<T>(result: NdResult<T>): (r: Option<Coins>)
    ensures r.Some? <==> result.Err?
    ensures r.Some? ==> r.value == CostOfPut
  {
    if result.Err? then Some(CostOfPut) else None
  }

  /** The name of a message's source: the node's own name, or the default name for a section. */
  function SourceName(src: SrcLocation): (r: XorName)
    ensures src.SrcNode? ==> r == src.name
    ensures src.SrcSection? ==> r == DefaultName
  {
    if src.SrcNode? then src.name else DefaultName
  }

  /** A requester has a key exactly when it has an owning client; a client is its own owner. */
  lemma KeyIffOwner(id: PublicId)
    ensures OwnKey(id).Some? <==> Owner(id).Some?
    ensures Client(id).Some? ==> Owner(id) == Client(id) && OwnKey(id) == Some(Owner(id).value.publicKey)
    ensures id.App? ==> Client(id).None? && Owner(id).Some?
  {
  }

  /** The requester's address is the name of its owning client, whenever it has one. */
  lemma RequesterAddressIsOwnerName(rpc: Rpc)
    ensures Owner(rpc.requester).Some? ==> RequesterAddress(rpc) == Owner(rpc.requester).value.name
    ensures rpc.requester.Node? ==> RequesterAddress(rpc) == rpc.requester.node.name
  {
  }
}
