// Values shared by the vault's data handler, its routing mock and the vault
// itself: names, identities, errors, immutable data, requests, responses,
// RPCs and the actions the handlers hand back to the vault.

module Types {

  datatype Option<+T> = None | Some(value: T)

  /** Rust's `Result<T, E>`. */
  datatype Result<+T, +E> = Ok(value: T) | Err(error: E)

  /** The errors of the network's data types crate that the core produces or forwards. */
  datatype NdError =
    | AccessDenied
    | NoSuchData
    | DataExists
    | DuplicateMessageId
    | OtherError(description: string)

  /** The data types crate's `Result<T>`, whose error is always an `NdError`. */
  type NdResult<T> = Result<T, NdError>

  /** `result.err()` */
  function ErrOf<T>(result: NdResult<T>): (e: Option<NdError>)
    ensures e.Some? <==> result.Err?
    ensures e.Some? ==> e.value == result.error
  {
    match result
    case Ok(_) => None
    case Err(err) => Some(err)
  }

  /** A name in the network's XOR address space (32 bytes in the source). */
  datatype XorName = XorName(bytes: seq<bv8>)

  /** `XorName::default()`: thirty-two zero bytes. */
  const DefaultName: XorName := XorName([0, 0, 0, 0, 0, 0, 0, 0, 0, 0, 0, 0, 0, 0, 0, 0,
                                          0, 0, 0, 0, 0, 0, 0, 0, 0, 0, 0, 0, 0, 0, 0, 0])

  datatype PublicKey = PublicKey(bytes: seq<bv8>)

  /**
   * `XorName::from(PublicKey)`. The data types crate hashes the key; the model
   * keeps only that the name is determined by the key, and takes it injective.
   */
  function KeyName(key: PublicKey): XorName
  {
    XorName(key.bytes)
  }

  datatype ClientPublicId = ClientPublicId(name: XorName, publicKey: PublicKey)
  datatype AppPublicId = AppPublicId(owner: ClientPublicId, publicKey: PublicKey)
  datatype NodePublicId = NodePublicId(name: XorName)

  /** The identity of a requester: a vault, a client or an app acting for a client. */
  datatype PublicId =
    | Node(node: NodePublicId)
    | Client(client: ClientPublicId)
    | App(app: AppPublicId)

  /** `PublicId::name()`: an app is addressed by the name of its owning client. */
  function Name(id: PublicId): XorName
  {
    match id
    case Node(node) => node.name
    case Client(client) => client.name
    case App(app) => app.owner.name
  }

  /** An operation's message identifier. */
  datatype MessageId = MessageId(name: XorName)

  /** Amounts of coins, counted in nano-coins. */
  datatype Coins = Coins(nanos: nat)

  /**
   * Immutable data. Its name is the hash of its value in the data types crate;
   * the model carries the name as a field.
   */
  datatype IData =
    | PubIData(name: XorName, value: seq<bv8>)
    | UnpubIData(name: XorName, value: seq<bv8>, owner: PublicKey)

  datatype IDataAddress = Pub(name: XorName) | Unpub(name: XorName)

  /** `IData::address()` */
  function AddressOf(data: IData): (a: IDataAddress)
    ensures a.name == data.name
    ensures a.Pub? <==> data.PubIData?
  {
    match data
    case PubIData(name, _) => Pub(name)
    case UnpubIData(name, _, _) => Unpub(name)
  }

  datatype IDataRequest =
    | Put(data: IData)
    | Get(address: IDataAddress)
    | DeleteUnpub(address: IDataAddress)

  datatype LoginPacketRequest = LoginCreate | LoginCreateFor(newOwner: PublicKey) | LoginUpdate | LoginGet
  datatype CoinsRequest = CreateBalance | Transfer | GetBalance
  datatype ClientRequest = InsAuthKey | DelAuthKey | ListAuthKeysAndVersion

  /** The kinds of request a vault receives; mutable and append-only data requests are `ReqOtherData`. */
  datatype Request =
    | ReqIData(idata: IDataRequest)
    | ReqLoginPacket(loginPacket: LoginPacketRequest)
    | ReqCoins(coins: CoinsRequest)
    | ReqClient(client: ClientRequest)
    | ReqOtherData

  datatype Response =
    | Mutation(result: NdResult<()>)
    | GetIData(data: NdResult<IData>)
    | OtherResponse

  /** The messages vaults exchange. */
  datatype Rpc =
    | RpcRequest(request: Request, requester: PublicId, messageId: MessageId)
    | RpcResponse(response: Response, requester: PublicId, messageId: MessageId, refund: Option<Coins>)

  /** An agreed action whose payload the client handler interprets. */
  datatype ConsensusAction = ConsensusAction(payload: seq<bv8>)

  /** What a handler asks the vault to do next. */
  datatype Action =
    | VoteFor(action: ConsensusAction)
    | ForwardClientRequest(rpc: Rpc)
    | ProxyClientRequest(rpc: Rpc)
    | RespondToOurDataHandlers(sender: XorName, rpc: Rpc)
    | RespondToClientHandlers(sender: XorName, rpc: Rpc)
    | SendToPeers(sender: XorName, targets: set<XorName>, rpc: Rpc)
    | RespondToClient(messageId: MessageId, response: Response)

  /** Where a routing message comes from: a single node or a whole section (named by its prefix). */
  datatype SrcLocation = SrcNode(name: XorName) | SrcSection(prefix: seq<bool>)
}
