// The immutable-data handler of a vault: the chunk metadata table (which
// holders store each chunk, and who owns it), the table of operations in
// flight, the handling of client requests and of holders' responses, and the
// clean-up after a holder leaves.

module IDataHandlers {
  import opened Types
  import opened Utils
  import opened IDataOps

  /** `IMMUTABLE_DATA_COPY_COUNT`: how many copies of a chunk should be kept. */
  const ImmutableDataCopyCount: nat := 3

  /** What the metadata table stores for one chunk. */
  datatype ChunkMetadata = ChunkMetadata(holders: set<XorName>, owner: Option<PublicKey>)

  /** `ChunkMetadata::default()` */
  const EmptyMetadata: ChunkMetadata := ChunkMetadata({}, None)

  /** The handler's two tables, as values: the chunk metadata and the operations in flight. */
  datatype Tables = Tables(metadata: map<IDataAddress, ChunkMetadata>, ops: map<MessageId, OpRecord>)

  // ---------------------------------------------------------------------------
  // Lookups and checks

  /**
   * `make_holder_list_for_idata`, given routing's adults and elders sorted by
   * distance to the chunk's name: every adult, topped up with the closest elders
   * only while there are fewer than `ImmutableDataCopyCount` names.
   */
  function HolderList(closestAdults: seq<XorName>, closestElders: seq<XorName>): (holders: seq<XorName>)
    ensures |holders| >= |closestAdults| && holders[..|closestAdults|] == closestAdults
    ensures |closestAdults| >= ImmutableDataCopyCount ==> holders == closestAdults
    ensures |closestAdults| < ImmutableDataCopyCount ==>
      |holders| == if |closestAdults| + |closestElders| < ImmutableDataCopyCount
                   then |closestAdults| + |closestElders| else ImmutableDataCopyCount
    ensures forall i :: |closestAdults| <= i < |holders| ==> holders[i] == closestElders[i - |closestAdults|]
  {
    if |closestAdults| < ImmutableDataCopyCount then
      var wanted := ImmutableDataCopyCount - |closestAdults|;
      closestAdults + closestElders[..if wanted < |closestElders| then wanted else |closestElders|]
    else
      closestAdults
  }

  /** `get_metadata_for`: the chunk's entry when it exists and lists at least one holder. */
  function MetadataFor(metadata: map<IDataAddress, ChunkMetadata>, address: IDataAddress): (r: NdResult<ChunkMetadata>)
    ensures r.Ok? <==> address in metadata && metadata[address].holders != {}
    ensures r.Ok? ==> r.value == metadata[address]
    ensures r.Err? ==> r.error == NoSuchData
  {
    if address in metadata then
      if metadata[address].holders == {} then Err(NoSuchData) else Ok(metadata[address])
    else
      Err(NoSuchData)
  }

  /** The outcome of the owner check on a Delete or a Get. */
  datatype Access = Permitted | Refused | Silent

  /**
   * Owned data may be touched only by a requester whose own key is the owner's;
   * a vault, which has no such key, is answered with silence.
   */
  function OwnerCheck(owner: Option<PublicKey>, requester: PublicId): (a: Access)
    ensures a == Silent <==> owner.Some? && requester.Node?
    ensures a == Refused <==> owner.Some? && OwnKey(requester).Some? && OwnKey(requester).value != owner.value
  {
    match owner
    case None => Permitted
    case Some(dataOwner) =>
      match OwnKey(requester)
      case None => Silent
      case Some(key) => if dataOwner != key then Refused else Permitted
  }

  // ---------------------------------------------------------------------------
  // The messages the handler sends

  function PutResponse(ourName: XorName, requester: PublicId, messageId: MessageId, result: NdResult<()>): Action
  {
    RespondToClientHandlers(ourName, RpcResponse(Mutation(result), requester, messageId, RefundForPut(result)))
  }

  /** Deletion is free, so its answers carry no refund. */
  function DeleteResponse(ourName: XorName, requester: PublicId, messageId: MessageId, result: NdResult<()>): Action
  {
    RespondToClientHandlers(ourName, RpcResponse(Mutation(result), requester, messageId, None))
  }

  function GetResponse(ourName: XorName, requester: PublicId, messageId: MessageId, result: NdResult<IData>): Action
  {
    RespondToClientHandlers(ourName, RpcResponse(GetIData(result), requester, messageId, None))
  }

  function CopyResponse(ourName: XorName, requester: PublicId, messageId: MessageId, result: NdResult<IData>): Action
  {
    RespondToOurDataHandlers(ourName, RpcResponse(GetIData(result), requester, messageId, None))
  }

  /** The request forwarded to the holders, signed by the handler as a vault. */
  function PeerRequest(ourId: NodePublicId, request: IDataRequest, messageId: MessageId, targets: set<XorName>): Action
  {
    SendToPeers(ourId.name, targets, RpcRequest(ReqIData(request), Node(ourId), messageId))
  }

  // ---------------------------------------------------------------------------
  // The handler's transitions, as functions of its tables

  /** `handle_put_idata_req` */
  function PutReq(t: Tables, ourId: NodePublicId, requester: PublicId, data: IData, messageId: MessageId,
                  holderList: seq<XorName>): (Tables, Option<Action>)
  {
    if AddressOf(data) in t.metadata then
      (t, Some(PutResponse(ourId.name, requester, messageId, if data.PubIData? then Ok(()) else Err(DataExists))))
    else
      var targets := set h | h in holderList;
      if messageId in t.ops then
        (t, Some(PutResponse(ourId.name, requester, messageId, Err(DuplicateMessageId))))
      else
        (t.(ops := t.ops[messageId := NewOp(requester, IDataRequest.Put(data), targets)]),
         Some(PeerRequest(ourId, IDataRequest.Put(data), messageId, targets)))
  }

  /** `handle_delete_unpub_idata_req` */
  function DeleteReq(t: Tables, ourId: NodePublicId, requester: PublicId, address: IDataAddress,
                     messageId: MessageId): (Tables, Option<Action>)
  {
    match MetadataFor(t.metadata, address)
    case Err(e) => (t, Some(DeleteResponse(ourId.name, requester, messageId, Err(e))))
    case Ok(entry) =>
      match OwnerCheck(entry.owner, requester)
      case Silent => (t, None)
      case Refused => (t, Some(DeleteResponse(ourId.name, requester, messageId, Err(AccessDenied))))
      case Permitted =>
        if messageId in t.ops then
          (t, Some(DeleteResponse(ourId.name, requester, messageId, Err(DuplicateMessageId))))
        else
          (t.(ops := t.ops[messageId := NewOp(requester, DeleteUnpub(address), entry.holders)]),
           Some(PeerRequest(ourId, DeleteUnpub(address), messageId, entry.holders)))
  }

  /** `get_idata_copy`: a Get sent to the given holders on behalf of another data handler. */
  function GetCopyReq(t: Tables, ourId: NodePublicId, requester: PublicId, address: IDataAddress,
                      holders: set<XorName>, messageId: MessageId): (Tables, Option<Action>)
  {
    if messageId in t.ops then
      (t, Some(CopyResponse(ourId.name, requester, messageId, Err(DuplicateMessageId))))
    else
      (t.(ops := t.ops[messageId := NewOp(requester, IDataRequest.Get(address), holders)]),
       Some(PeerRequest(ourId, IDataRequest.Get(address), messageId, holders)))
  }

  /** `handle_get_idata_req` */
  function GetReq(t: Tables, ourId: NodePublicId, requester: PublicId, address: IDataAddress,
                  messageId: MessageId): (Tables, Option<Action>)
  {
    match MetadataFor(t.metadata, address)
    case Err(e) => (t, Some(GetResponse(ourId.name, requester, messageId, Err(e))))
    case Ok(entry) =>
      match OwnerCheck(entry.owner, requester)
      case Silent => (t, None)
      case Refused => (t, Some(GetResponse(ourId.name, requester, messageId, Err(AccessDenied))))
      case Permitted =>
        if messageId in t.ops then
          (t, Some(GetResponse(ourId.name, requester, messageId, Err(DuplicateMessageId))))
        else
          (t.(ops := t.ops[messageId := NewOp(requester, IDataRequest.Get(address), entry.holders)]),
           Some(PeerRequest(ourId, IDataRequest.Get(address), messageId, entry.holders)))
  }

  /** `remove_idata_op_if_concluded` */
  function RemoveIfConcluded(ops: map<MessageId, OpRecord>, messageId: MessageId): (map<MessageId, OpRecord>, Option<OpRecord>)
  {
    if messageId in ops && Concluded(ops[messageId].rpcStates) then (ops - {messageId}, Some(ops[messageId]))
    else (ops, None)
  }

  /** `handle_put_idata_resp`: the sender becomes a holder (whatever it answered) and the client the owner. */
  function PutResp(t: Tables, address: IDataAddress, sender: XorName, messageId: MessageId): (Tables, Option<Action>)
  {
    var entry := if address in t.metadata then t.metadata[address] else EmptyMetadata;
    if messageId in t.ops && OwnKey(t.ops[messageId].client).None? then
      (t, None)
    else if messageId !in t.ops && sender in entry.holders then
      (t, None)
    else
      var owner := if messageId in t.ops then OwnKey(t.ops[messageId].client) else None;
      var entry' := ChunkMetadata(entry.holders + {sender}, if owner.Some? then owner else entry.owner);
      var (ops', removed) := RemoveIfConcluded(t.ops, messageId);
      (Tables(t.metadata[address := entry'], ops'),
       if removed.Some? then
         Some(RespondToClientHandlers(address.name, RpcResponse(Mutation(Ok(())), removed.value.client, messageId, None)))
       else None)
  }

  /** The answer to a concluded Delete: its holder's error, if one reported an error. */
  ghost function ErrorsOutcome(states: map<XorName, RpcState>): NdResult<()>
    requires |Errors(states)| <= 1
  {
    var errs := Errors(states);
    if errs == map[] then Ok(()) else var e :| e in errs.Values; Err(e)
  }

  /** The precondition standing for the source's assertion: a concluded Delete has at most one error. */
  predicate AtMostOneError(op: OpRecord)
  {
    Concluded(op.rpcStates) ==> |Errors(op.rpcStates)| <= 1
  }

  /** `handle_delete_unpub_idata_resp` */
  ghost function DeleteResp(t: Tables, address: IDataAddress, sender: XorName, result: NdResult<()>,
                            messageId: MessageId): (Tables, Option<Action>)
    requires messageId in t.ops ==> AtMostOneError(t.ops[messageId])
  {
    if result.Ok? && address in t.metadata && sender !in t.metadata[address].holders && messageId !in t.ops then
      (t, None)
    else
      var metadata' :=
        if result.Err? || address !in t.metadata then t.metadata
        else
          var holders := t.metadata[address].holders - {sender};
          if holders == {} then t.metadata - {address}
          else t.metadata[address := t.metadata[address].(holders := holders)];
      var (ops', removed) := RemoveIfConcluded(t.ops, messageId);
      (Tables(metadata', ops'),
       if removed.Some? then
         Some(RespondToClientHandlers(address.name,
           RpcResponse(Mutation(ErrorsOutcome(removed.value.rpcStates)), removed.value.client, messageId, None)))
       else None)
  }

  /** The source's assertion, as it applies to an answer: a Delete it concludes has at most one error. */
  predicate DeleteAnswerAllowed(op: OpRecord, sender: XorName, result: NdResult<()>)
  {
    var (op', address) := MutationRespOutcome(op, sender, result);
    address.Some? && !op.request.Put? ==> AtMostOneError(op')
  }

  /** `handle_mutation_resp`: record the answer in the op, then update the chunk's metadata. */
  ghost function MutationResp(t: Tables, sender: XorName, result: NdResult<()>, messageId: MessageId)
    : (Tables, Option<Action>)
    requires messageId in t.ops ==> DeleteAnswerAllowed(t.ops[messageId], sender, result)
  {
    if messageId !in t.ops then (t, None)
    else
      var (op', address) := MutationRespOutcome(t.ops[messageId], sender, result);
      if address.None? then (t, None)
      else
        var t' := t.(ops := t.ops[messageId := op']);
        if OpTypeOf(t.ops[messageId].request) == OpType.Put then PutResp(t', address.value, sender, messageId)
        else DeleteResp(t', address.value, sender, result, messageId)
  }

  /** `handle_get_idata_resp`: record the answer, pass on the first one, and drop the op once concluded. */
  function GetResp(t: Tables, sender: XorName, result: NdResult<IData>, messageId: MessageId): (Tables, Option<Action>)
  {
    var (ops1, action) :=
      if messageId in t.ops then
        var (op', a) := GetRespOutcome(t.ops[messageId], sender, result, messageId, true);
        (t.ops[messageId := op'], a)
      else (t.ops, None);
    (t.(ops := RemoveIfConcluded(ops1, messageId).0), action)
  }

  /** The first part of `get_metadata_for_all_chunks`: each chunk the holder stores, with its other holders. */
  function OtherHolders(metadata: map<IDataAddress, ChunkMetadata>, holder: XorName): map<IDataAddress, set<XorName>>
  {
    map a | a in metadata && holder in metadata[a].holders :: metadata[a].holders - {holder}
  }

  /** The second part: the holder is struck from every entry, and entries it alone held are removed. */
  function WithoutHolder(metadata: map<IDataAddress, ChunkMetadata>, holder: XorName): map<IDataAddress, ChunkMetadata>
  {
    map a | a in metadata && (holder !in metadata[a].holders || metadata[a].holders != {holder})
      :: metadata[a].(holders := metadata[a].holders - {holder})
  }

  /** No entry of the metadata table lists an empty holder set. */
  predicate NoEmptyEntries(metadata: map<IDataAddress, ChunkMetadata>)
  {
    forall a :: a in metadata ==> metadata[a].holders != {}
  }

  // ---------------------------------------------------------------------------
  // Properties of the transitions

  /** `t'` is `t` with one op added under a message id that was free, sent to exactly `targets`. */
  predicate InsertedOp(t: Tables, t': Tables, messageId: MessageId, client: PublicId, request: IDataRequest,
                       targets: set<XorName>)
  {
    && t'.metadata == t.metadata
    && messageId !in t.ops
    && t'.ops.Keys == t.ops.Keys + {messageId}
    && (forall m :: m in t.ops ==> t'.ops[m] == t.ops[m])
    && t'.ops[messageId].client == client && t'.ops[messageId].request == request
    && t'.ops[messageId].rpcStates.Keys == targets
    && (forall h :: h in targets ==> t'.ops[messageId].rpcStates[h] == Sent)
  }

  /**
   * A Put of data already known creates nothing: published data is answered
   * with success and no refund, unpublished data with `DataExists` and a refund.
   */
  lemma ExistingPutAnswered(t: Tables, ourId: NodePublicId, requester: PublicId, data: IData, messageId: MessageId,
                            holderList: seq<XorName>)
    requires AddressOf(data) in t.metadata
    ensures var (t', action) := PutReq(t, ourId, requester, data, messageId, holderList);
      && t' == t
      && action.Some? && action.value.RespondToClientHandlers? && action.value.rpc.RpcResponse?
      && action.value.rpc.response == Mutation(if data.PubIData? then Ok(()) else Err(DataExists))
      && action.value.rpc.refund == (if data.PubIData? then None else Some(CostOfPut))
      && action.value.rpc.requester == requester && action.value.rpc.messageId == messageId
  {
  }

  /**
   * A request whose message id is already in flight changes neither table and,
   * once it has passed the checks that come before, is answered `DuplicateMessageId`.
   */
  lemma DuplicateMessageIdRejected(t: Tables, ourId: NodePublicId, requester: PublicId, data: IData,
                                   address: IDataAddress, holders: set<XorName>, messageId: MessageId,
                                   holderList: seq<XorName>)
    requires messageId in t.ops
    ensures PutReq(t, ourId, requester, data, messageId, holderList).0 == t
    ensures DeleteReq(t, ourId, requester, address, messageId).0 == t
    ensures GetReq(t, ourId, requester, address, messageId).0 == t
    ensures GetCopyReq(t, ourId, requester, address, holders, messageId) ==
            (t, Some(CopyResponse(ourId.name, requester, messageId, Err(DuplicateMessageId))))
    ensures AddressOf(data) !in t.metadata ==>
            PutReq(t, ourId, requester, data, messageId, holderList).1 ==
            Some(PutResponse(ourId.name, requester, messageId, Err(DuplicateMessageId)))
    ensures MetadataFor(t.metadata, address).Ok? && OwnerCheck(t.metadata[address].owner, requester) == Permitted ==>
            && DeleteReq(t, ourId, requester, address, messageId).1 ==
               Some(DeleteResponse(ourId.name, requester, messageId, Err(DuplicateMessageId)))
            && GetReq(t, ourId, requester, address, messageId).1 ==
               Some(GetResponse(ourId.name, requester, messageId, Err(DuplicateMessageId)))
  {
  }

  /**
   * A request that passes every check inserts one op under its message id, with
   * exactly its target holders in `Sent`, and sends the request to exactly those holders.
   */
  lemma FreshRequestInsertsOneOp(t: Tables, ourId: NodePublicId, requester: PublicId, data: IData,
                                 address: IDataAddress, holders: set<XorName>, messageId: MessageId,
                                 holderList: seq<XorName>)
    requires messageId !in t.ops
    ensures AddressOf(data) !in t.metadata ==>
      var (t', action) := PutReq(t, ourId, requester, data, messageId, holderList);
      var targets := set h | h in holderList;
      && InsertedOp(t, t', messageId, requester, IDataRequest.Put(data), targets)
      && action == Some(SendToPeers(ourId.name, targets,
                                    RpcRequest(ReqIData(IDataRequest.Put(data)), Node(ourId), messageId)))
    ensures
      var (t', action) := GetCopyReq(t, ourId, requester, address, holders, messageId);
      && InsertedOp(t, t', messageId, requester, IDataRequest.Get(address), holders)
      && action == Some(SendToPeers(ourId.name, holders,
                                    RpcRequest(ReqIData(IDataRequest.Get(address)), Node(ourId), messageId)))
    ensures MetadataFor(t.metadata, address).Ok? && OwnerCheck(t.metadata[address].owner, requester) == Permitted ==>
      var targets := t.metadata[address].holders;
      var (tDelete, deleteAction) := DeleteReq(t, ourId, requester, address, messageId);
      var (tGet, getAction) := GetReq(t, ourId, requester, address, messageId);
      && InsertedOp(t, tDelete, messageId, requester, DeleteUnpub(address), targets)
      && deleteAction == Some(SendToPeers(ourId.name, targets,
                                          RpcRequest(ReqIData(DeleteUnpub(address)), Node(ourId), messageId)))
      && InsertedOp(t, tGet, messageId, requester, IDataRequest.Get(address), targets)
      && getAction == Some(SendToPeers(ourId.name, targets,
                                       RpcRequest(ReqIData(IDataRequest.Get(address)), Node(ourId), messageId)))
  {
  }

  /** A Delete or a Get of a chunk without holders is answered `NoSuchData`, and nothing changes. */
  lemma MissingChunkAnswered(t: Tables, ourId: NodePublicId, requester: PublicId, address: IDataAddress,
                             messageId: MessageId)
    requires address !in t.metadata || t.metadata[address].holders == {}
    ensures DeleteReq(t, ourId, requester, address, messageId) ==
            (t, Some(DeleteResponse(ourId.name, requester, messageId, Err(NoSuchData))))
    ensures GetReq(t, ourId, requester, address, messageId) ==
            (t, Some(GetResponse(ourId.name, requester, messageId, Err(NoSuchData))))
  {
  }

  /**
   * Owned data is guarded for Delete and Get alike: a vault asking is not
   * answered at all, and a requester with another key is answered
   * `AccessDenied`; in both cases no op is inserted.
   */
  lemma OwnedDataGuarded(t: Tables, ourId: NodePublicId, requester: PublicId, address: IDataAddress,
                         messageId: MessageId)
    requires address in t.metadata && t.metadata[address].holders != {} && t.metadata[address].owner.Some?
    ensures requester.Node? ==>
            && DeleteReq(t, ourId, requester, address, messageId) == (t, None)
            && GetReq(t, ourId, requester, address, messageId) == (t, None)
    ensures OwnKey(requester).Some? && OwnKey(requester) != t.metadata[address].owner ==>
            && DeleteReq(t, ourId, requester, address, messageId) ==
               (t, Some(DeleteResponse(ourId.name, requester, messageId, Err(AccessDenied))))
            && GetReq(t, ourId, requester, address, messageId) ==
               (t, Some(GetResponse(ourId.name, requester, messageId, Err(AccessDenied))))
  {
  }

  /** `remove_idata_op_if_concluded` removes and returns the op exactly when it exists and is concluded. */
  lemma RemovesOnlyConcluded(ops: map<MessageId, OpRecord>, messageId: MessageId)
    ensures var (ops', removed) := RemoveIfConcluded(ops, messageId);
      && (removed.Some? <==> messageId in ops && Concluded(ops[messageId].rpcStates))
      && (removed.Some? ==> removed.value == ops[messageId] && ops'.Keys == ops.Keys - {messageId}
                            && forall m :: m in ops' ==> ops'[m] == ops[m])
      && (removed.None? ==> ops' == ops)
  {
  }

  /**
   * A Put answer, whatever its result, makes the sender a holder of the chunk
   * and the requesting client its owner, keeping the other holders and entries;
   * an answer to an op whose requester is a vault changes nothing.
   */
  lemma PutRespRecordsHolder(t: Tables, address: IDataAddress, sender: XorName, messageId: MessageId)
    ensures messageId in t.ops && t.ops[messageId].client.Node? ==> PutResp(t, address, sender, messageId) == (t, None)
    ensures messageId in t.ops && !t.ops[messageId].client.Node? ==>
      var t' := PutResp(t, address, sender, messageId).0;
      && address in t'.metadata
      && t'.metadata[address].holders ==
         (if address in t.metadata then t.metadata[address].holders else {}) + {sender}
      && t'.metadata[address].owner == OwnKey(t.ops[messageId].client)
      && (forall a :: a != address ==> (a in t'.metadata <==> a in t.metadata))
      && (forall a :: a != address && a in t.metadata ==> t'.metadata[a] == t.metadata[a])
      && t'.ops == RemoveIfConcluded(t.ops, messageId).0
  {
  }

  /**
   * A Delete answer: success strikes the sender from the chunk's holders and
   * removes an entry left without holders; an error leaves the metadata as it was.
   */
  lemma DeleteRespMetadata(t: Tables, address: IDataAddress, sender: XorName, result: NdResult<()>,
                           messageId: MessageId)
    requires messageId in t.ops ==> AtMostOneError(t.ops[messageId])
    ensures result.Err? ==> DeleteResp(t, address, sender, result, messageId).0.metadata == t.metadata
    ensures result.Ok? && address in t.metadata && (sender in t.metadata[address].holders || messageId in t.ops) ==>
      var md' := DeleteResp(t, address, sender, result, messageId).0.metadata;
      var holders := t.metadata[address].holders - {sender};
      && (holders == {} ==> address !in md')
      && (holders != {} ==> address in md' && md'[address] == t.metadata[address].(holders := holders))
      && (forall a :: a != address ==> (a in md' <==> a in t.metadata))
      && (forall a :: a != address && a in t.metadata ==> md'[a] == t.metadata[a])
    ensures result.Ok? && address in t.metadata && sender !in t.metadata[address].holders && messageId !in t.ops ==>
      DeleteResp(t, address, sender, result, messageId) == (t, None)
    ensures address !in t.metadata ==> DeleteResp(t, address, sender, result, messageId).0.metadata == t.metadata
  {
  }

  /**
   * A Put answer for an op a client asked for is answered, with success whatever
   * the holders reported, exactly when it concludes the op; before that the op
   * table is kept and nothing is answered.
   */
  lemma PutAnswerOnConclusion(t: Tables, address: IDataAddress, sender: XorName, messageId: MessageId)
    requires messageId in t.ops && !t.ops[messageId].client.Node?
    ensures var (t', action) := PutResp(t, address, sender, messageId);
      && (Concluded(t.ops[messageId].rpcStates) ==>
            && t'.ops == t.ops - {messageId}
            && action == Some(RespondToClientHandlers(address.name,
                 RpcResponse(Mutation(Ok(())), t.ops[messageId].client, messageId, None))))
      && (!Concluded(t.ops[messageId].rpcStates) ==> action == None && t'.ops == t.ops)
  {
  }

  /** A Delete answer that leaves the op waiting on other holders answers nothing and keeps the op table. */
  lemma DeleteAnswerInFlight(t: Tables, address: IDataAddress, sender: XorName, result: NdResult<()>,
                             messageId: MessageId)
    requires messageId in t.ops && AtMostOneError(t.ops[messageId]) && !Concluded(t.ops[messageId].rpcStates)
    ensures var (t', action) := DeleteResp(t, address, sender, result, messageId);
      action == None && t'.ops == t.ops
  {
  }

  /** A concluded Delete is answered with success when no holder failed, and with the one error otherwise. */
  lemma DeleteAnswer(t: Tables, address: IDataAddress, sender: XorName, result: NdResult<()>, messageId: MessageId)
    requires messageId in t.ops && Concluded(t.ops[messageId].rpcStates) && AtMostOneError(t.ops[messageId])
    ensures var (t', action) := DeleteResp(t, address, sender, result, messageId);
      var errs := Errors(t.ops[messageId].rpcStates);
      && t'.ops == t.ops - {messageId}
      && action.Some? && action.value.RespondToClientHandlers? && action.value.sender == address.name
      && action.value.rpc.RpcResponse? && action.value.rpc.requester == t.ops[messageId].client
      && action.value.rpc.messageId == messageId && action.value.rpc.refund.None?
      && (errs == map[] ==> action.value.rpc.response == Mutation(Ok(())))
      && (forall h :: h in errs ==> action.value.rpc.response == Mutation(Err(errs[h])))
  {
    var errs := Errors(t.ops[messageId].rpcStates);
    if errs != map[] {
      var h :| h in errs;
      SingleError(errs, errs[h]);
      forall h' | h' in errs
        ensures errs[h'] == errs[h]
      {
        assert errs[h'] in errs.Values;
      }
    }
  }

  /** An answer the op does not expect (unknown id, a Get's id, or a holder it did not ask) is ignored. */
  lemma UnexpectedMutationRespIgnored(t: Tables, sender: XorName, result: NdResult<()>, messageId: MessageId)
    requires messageId !in t.ops || t.ops[messageId].request.Get? || sender !in t.ops[messageId].rpcStates
    ensures MutationResp(t, sender, result, messageId) == (t, None)
  {
  }

  /**
   * A Put answer from a holder the op was sent to is recorded in the op and
   * makes the sender a holder of the chunk.
   */
  lemma PutAnswerMakesHolder(t: Tables, sender: XorName, result: NdResult<()>, messageId: MessageId)
    requires messageId in t.ops && t.ops[messageId].request.Put? && sender in t.ops[messageId].rpcStates
    requires !t.ops[messageId].client.Node?
    ensures var t' := MutationResp(t, sender, result, messageId).0;
      var address := AddressOf(t.ops[messageId].request.data);
      && address in t'.metadata && sender in t'.metadata[address].holders
      && t'.metadata[address].owner == OwnKey(t.ops[messageId].client)
      && (messageId in t'.ops ==> t'.ops[messageId].rpcStates[sender] == Actioned(ErrOf(result)))
    ensures var op' := MutationRespOutcome(t.ops[messageId], sender, result).0;
      MutationResp(t, sender, result, messageId).1 ==
      if Concluded(op'.rpcStates)
      then Some(RespondToClientHandlers(AddressOf(t.ops[messageId].request.data).name,
             RpcResponse(Mutation(Ok(())), t.ops[messageId].client, messageId, None)))
      else None
  {
    var (op', address) := MutationRespOutcome(t.ops[messageId], sender, result);
    MutationRespRecordsSender(t.ops[messageId], sender, result);
    var t1 := t.(ops := t.ops[messageId := op']);
    PutRespRecordsHolder(t1, address.value, sender, messageId);
  }

  /**
   * At the handler, too, only the first answer to a Get reaches the client
   * handlers, and a concluded Get is dropped from the op table.
   */
  lemma HandlerPassesOnFirstGetOnly(t: Tables, sender: XorName, result: NdResult<IData>, messageId: MessageId)
    ensures var (t', action) := GetResp(t, sender, result, messageId);
      && (action.Some? <==> messageId in t.ops && t.ops[messageId].request.Get? &&
                            sender in t.ops[messageId].rpcStates && !AnyActioned(t.ops[messageId].rpcStates))
      && t'.metadata == t.metadata
      && (messageId in t'.ops ==> !Concluded(t'.ops[messageId].rpcStates))
      && (messageId !in t.ops ==> t' == t && action.None?)
      && (forall m :: m in t'.ops ==> m in t.ops)
      && (forall m :: m in t.ops && m != messageId ==> m in t'.ops && t'.ops[m] == t.ops[m])
      && (messageId in t.ops ==>
            var op' := GetRespOutcome(t.ops[messageId], sender, result, messageId, true).0;
            && (Concluded(op'.rpcStates) ==> messageId !in t'.ops)
            && (!Concluded(op'.rpcStates) ==> messageId in t'.ops && t'.ops[messageId] == op')
            && (action.Some? ==>
                  action.value == RespondToClientHandlers(t.ops[messageId].request.address.name,
                                    RpcResponse(GetIData(result), t.ops[messageId].client, messageId, None))))
  {
    if messageId in t.ops {
      GetRespPassesOnFirstOnly(t.ops[messageId], sender, result, messageId, true);
    }
  }

  /**
   * After a holder leaves, the chunks it held are reported with their other
   * holders, it is struck from every entry, entries it held alone are removed,
   * entries it shared keep their other holders, and entries without it are kept.
   */
  lemma HolderLeftCleanup(metadata: map<IDataAddress, ChunkMetadata>, holder: XorName)
    ensures var others := OtherHolders(metadata, holder);
      && (forall a :: a in others <==> a in metadata && holder in metadata[a].holders)
      && (forall a :: a in others ==> holder !in others[a] && others[a] + {holder} == metadata[a].holders)
    ensures var metadata' := WithoutHolder(metadata, holder);
      && (forall a :: a in metadata' ==> holder !in metadata'[a].holders)
      && (forall a :: a in metadata && holder !in metadata[a].holders ==> a in metadata' && metadata'[a] == metadata[a])
      && (forall a :: a in metadata && metadata[a].holders == {holder} ==> a !in metadata')
      && (forall a :: a in metadata && holder in metadata[a].holders && metadata[a].holders != {holder} ==>
            a in metadata' && metadata'[a] == metadata[a].(holders := metadata[a].holders - {holder}))
      && (forall a :: a in metadata' ==> a in metadata && metadata'[a].owner == metadata[a].owner)
      && (NoEmptyEntries(metadata) ==> NoEmptyEntries(metadata'))
  {
    var metadata' := WithoutHolder(metadata, holder);
    forall a | a in metadata && holder !in metadata[a].holders
      ensures a in metadata' && metadata'[a] == metadata[a]
    {
      assert metadata[a].holders - {holder} == metadata[a].holders;
    }
  }

  /** Under the invariant, a chunk's metadata is found exactly when its address is in the table. */
  lemma MetadataForUnderInvariant(metadata: map<IDataAddress, ChunkMetadata>, address: IDataAddress)
    requires NoEmptyEntries(metadata)
    ensures MetadataFor(metadata, address).Ok? <==> address in metadata
  {
  }

  /** Requests only touch the op table: the metadata is changed by holders' answers alone. */
  lemma RequestsKeepMetadata(t: Tables, ourId: NodePublicId, requester: PublicId, data: IData,
                             address: IDataAddress, holders: set<XorName>, messageId: MessageId,
                             holderList: seq<XorName>)
    ensures PutReq(t, ourId, requester, data, messageId, holderList).0.metadata == t.metadata
    ensures DeleteReq(t, ourId, requester, address, messageId).0.metadata == t.metadata
    ensures GetReq(t, ourId, requester, address, messageId).0.metadata == t.metadata
    ensures GetCopyReq(t, ourId, requester, address, holders, messageId).0.metadata == t.metadata
  {
  }

  /** No answer from a holder leaves a metadata entry without holders. */
  lemma AnswersKeepEntriesNonEmpty(t: Tables, sender: XorName, result: NdResult<()>,
                                   getResult: NdResult<IData>, messageId: MessageId)
    requires NoEmptyEntries(t.metadata)
    requires messageId in t.ops ==> DeleteAnswerAllowed(t.ops[messageId], sender, result)
    ensures NoEmptyEntries(MutationResp(t, sender, result, messageId).0.metadata)
    ensures NoEmptyEntries(GetResp(t, sender, getResult, messageId).0.metadata)
  {
    if messageId in t.ops {
      var (op', a) := MutationRespOutcome(t.ops[messageId], sender, result);
      if a.Some? {
        var t1 := t.(ops := t.ops[messageId := op']);
        if t.ops[messageId].request.Put? {
          PutRespKeepsEntriesNonEmpty(t1, a.value, sender, messageId);
        } else {
          DeleteRespKeepsEntriesNonEmpty(t1, a.value, sender, result, messageId);
        }
      }
    }
  }

  lemma PutRespKeepsEntriesNonEmpty(t: Tables, address: IDataAddress, sender: XorName, messageId: MessageId)
    requires NoEmptyEntries(t.metadata)
    ensures NoEmptyEntries(PutResp(t, address, sender, messageId).0.metadata)
  {
  }

  lemma DeleteRespKeepsEntriesNonEmpty(t: Tables, address: IDataAddress, sender: XorName, result: NdResult<()>,
                                       messageId: MessageId)
    requires NoEmptyEntries(t.metadata)
    requires messageId in t.ops ==> AtMostOneError(t.ops[messageId])
    ensures NoEmptyEntries(DeleteResp(t, address, sender, result, messageId).0.metadata)
  {
    DeleteRespMetadata(t, address, sender, result, messageId);
  }

  // ---------------------------------------------------------------------------
  // The handler

  class IDataHandler {
    const id: NodePublicId
    var idataOps: map<MessageId, IDataOp>
    var metadata: map<IDataAddress, ChunkMetadata>

    /** Each operation is its own object, as the map owns its values in the source. */
    ghost predicate Valid()
      reads this`idataOps
    {
      forall m1, m2 :: m1 in idataOps && m2 in idataOps && m1 != m2 ==> idataOps[m1] != idataOps[m2]
    }

    ghost function Ops(): map<MessageId, OpRecord>
      reads this`idataOps, idataOps.Values
    {
      map m | m in idataOps :: idataOps[m].Record()
    }

    ghost function View(): Tables
      reads this, idataOps.Values
    {
      Tables(metadata, Ops())
    }

    /** A handler over a metadata table read from storage, with nothing in flight. */
    constructor (id: NodePublicId, stored: map<IDataAddress, ChunkMetadata>)
      ensures Valid() && this.id == id && idataOps == map[]
      ensures View() == Tables(stored, map[])
    {
      this.id := id;
      idataOps := map[];
      metadata := stored;
    }

    method HandlePutIDataReq(requester: PublicId, data: IData, messageId: MessageId,
                             closestAdults: seq<XorName>, closestElders: seq<XorName>)
      returns (action: Option<Action>)
      requires Valid()
      modifies this
      ensures Valid()
      ensures fresh(idataOps.Values - old(idataOps.Values))
      ensures (View(), action) ==
              PutReq(old(View()), id, requester, data, messageId, HolderList(closestAdults, closestElders))
    {
      if AddressOf(data) in metadata {
        if data.PubIData? {
          return Some(PutResponse(id.name, requester, messageId, Ok(())));
        } else {
          return Some(PutResponse(id.name, requester, messageId, Err(DataExists)));
        }
      }
      var targets := set h | h in HolderList(closestAdults, closestElders);
      if messageId in idataOps {
        return Some(PutResponse(id.name, requester, messageId, Err(DuplicateMessageId)));
      }
      var op := new IDataOp(requester, IDataRequest.Put(data), targets);
      idataOps := idataOps[messageId := op];
      action := Some(PeerRequest(id, op.request, messageId, targets));
      assert Ops() == old(Ops())[messageId := op.Record()];
    }

    method HandleDeleteUnpubIDataReq(requester: PublicId, address: IDataAddress, messageId: MessageId)
      returns (action: Option<Action>)
      requires Valid()
      modifies this
      ensures Valid()
      ensures fresh(idataOps.Values - old(idataOps.Values))
      ensures (View(), action) == DeleteReq(old(View()), id, requester, address, messageId)
    {
      var entry: ChunkMetadata;
      match MetadataFor(metadata, address) {
        case Err(e) =>
          return Some(DeleteResponse(id.name, requester, messageId, Err(e)));
        case Ok(m) =>
          entry := m;
      }
      if entry.owner.Some? {
        var requestKey := OwnKey(requester);
        if requestKey.None? {
          return None;
        }
        if entry.owner.value != requestKey.value {
          return Some(DeleteResponse(id.name, requester, messageId, Err(AccessDenied)));
        }
      }
      if messageId in idataOps {
        return Some(DeleteResponse(id.name, requester, messageId, Err(DuplicateMessageId)));
      }
      var op := new IDataOp(requester, DeleteUnpub(address), entry.holders);
      idataOps := idataOps[messageId := op];
      action := Some(PeerRequest(id, op.request, messageId, entry.holders));
      assert Ops() == old(Ops())[messageId := op.Record()];
    }

    method GetIDataCopy(requester: PublicId, address: IDataAddress, holders: set<XorName>, messageId: MessageId)
      returns (action: Option<Action>)
      requires Valid()
      modifies this
      ensures Valid()
      ensures fresh(idataOps.Values - old(idataOps.Values))
      ensures (View(), action) == GetCopyReq(old(View()), id, requester, address, holders, messageId)
    {
      if messageId in idataOps {
        return Some(CopyResponse(id.name, requester, messageId, Err(DuplicateMessageId)));
      }
      var op := new IDataOp(requester, IDataRequest.Get(address), holders);
      idataOps := idataOps[messageId := op];
      action := Some(PeerRequest(id, op.request, messageId, holders));
      assert Ops() == old(Ops())[messageId := op.Record()];
    }

    method HandleGetIDataReq(requester: PublicId, address: IDataAddress, messageId: MessageId)
      returns (action: Option<Action>)
      requires Valid()
      modifies this
      ensures Valid()
      ensures fresh(idataOps.Values - old(idataOps.Values))
      ensures (View(), action) == GetReq(old(View()), id, requester, address, messageId)
    {
      var entry: ChunkMetadata;
      match MetadataFor(metadata, address) {
        case Err(e) =>
          return Some(GetResponse(id.name, requester, messageId, Err(e)));
        case Ok(m) =>
          entry := m;
      }
      if entry.owner.Some? {
        var requestKey := OwnKey(requester);
        if requestKey.None? {
          return None;
        }
        if entry.owner.value != requestKey.value {
          return Some(GetResponse(id.name, requester, messageId, Err(AccessDenied)));
        }
      }
      if messageId in idataOps {
        return Some(GetResponse(id.name, requester, messageId, Err(DuplicateMessageId)));
      }
      var op := new IDataOp(requester, IDataRequest.Get(address), entry.holders);
      idataOps := idataOps[messageId := op];
      action := Some(PeerRequest(id, op.request, messageId, entry.holders));
      assert Ops() == old(Ops())[messageId := op.Record()];
    }

    method RemoveIDataOpIfConcluded(messageId: MessageId) returns (removed: Option<IDataOp>)
      requires Valid()
      modifies this
      ensures Valid() && metadata == old(metadata) && idataOps.Values <= old(idataOps.Values)
      ensures RemoveIfConcluded(old(Ops()), messageId) ==
              (Ops(), if removed.Some? then Some(removed.value.Record()) else None)
    {
      var isConcluded := messageId in idataOps && Concluded(idataOps[messageId].rpcStates);
      if isConcluded {
        removed := Some(idataOps[messageId]);
        idataOps := idataOps - {messageId};
        assert Ops() == old(Ops()) - {messageId};
      } else {
        removed := None;
      }
    }

    method HandlePutIDataResp(address: IDataAddress, sender: XorName, result: NdResult<()>, messageId: MessageId)
      returns (action: Option<Action>)
      requires Valid()
      modifies this
      ensures Valid()
      ensures idataOps.Values <= old(idataOps.Values)
      ensures (View(), action) == PutResp(old(View()), address, sender, messageId)
    {
      var entry := if address in metadata then metadata[address] else EmptyMetadata;
      var owner: Option<PublicKey> := None;
      if messageId in idataOps {
        owner := OwnKey(idataOps[messageId].client);
        if owner.None? {
          return None;
        }
      }
      if owner.Some? {
        entry := entry.(owner := owner);
      }
      if sender in entry.holders && messageId !in idataOps {
        return None;
      }
      entry := entry.(holders := entry.holders + {sender});
      metadata := metadata[address := entry];
      var removed := RemoveIDataOpIfConcluded(messageId);
      if removed.Some? {
        action := Some(RespondToClientHandlers(address.name,
          RpcResponse(Mutation(Ok(())), removed.value.client, messageId, None)));
      } else {
        action := None;
      }
    }

    method HandleDeleteUnpubIDataResp(address: IDataAddress, sender: XorName, result: NdResult<()>,
                                      messageId: MessageId)
      returns (action: Option<Action>)
      requires Valid()
      requires messageId in Ops() ==> AtMostOneError(Ops()[messageId])
      modifies this
      ensures Valid()
      ensures idataOps.Values <= old(idataOps.Values)
      ensures (View(), action) == DeleteResp(old(View()), address, sender, result, messageId)
    {
      if result.Ok? && address in metadata {
        var entry := metadata[address];
        if sender !in entry.holders && messageId !in idataOps {
          return None;
        }
        entry := entry.(holders := entry.holders - {sender});
        if entry.holders == {} {
          metadata := metadata - {address};
        } else {
          metadata := metadata[address := entry];
        }
      }
      var removed := RemoveIDataOpIfConcluded(messageId);
      if removed.Some? {
        var op := removed.value;
        var errs := Errors(op.rpcStates);
        var response: NdResult<()>;
        if errs == map[] {
          response := Ok(());
        } else {
          var e :| e in errs.Values;
          SingleError(errs, e);
          response := Err(e);
        }
        action := Some(RespondToClientHandlers(address.name,
          RpcResponse(Mutation(response), op.client, messageId, None)));
      } else {
        action := None;
      }
    }

    method HandleMutationResp(sender: XorName, result: NdResult<()>, messageId: MessageId)
      returns (action: Option<Action>)
      requires Valid()
      requires messageId in Ops() ==> DeleteAnswerAllowed(Ops()[messageId], sender, result)
      modifies this, idataOps.Values
      ensures Valid()
      ensures idataOps.Values <= old(idataOps.Values)
      ensures (View(), action) == MutationResp(old(View()), sender, result, messageId)
    {
      if messageId !in idataOps {
        return None;
      }
      var op := idataOps[messageId];
      var opType := OpTypeOf(op.request);
      var address := op.HandleMutationResp(sender, result);
      OnlyOneOpChanged(messageId);
      if address.None? {
        assert Ops() == old(Ops());
        return None;
      }
      if opType == OpType.Put {
        action := HandlePutIDataResp(address.value, sender, result, messageId);
      } else {
        action := HandleDeleteUnpubIDataResp(address.value, sender, result, messageId);
      }
    }

    method HandleGetIDataResp(sender: XorName, result: NdResult<IData>, messageId: MessageId)
      returns (action: Option<Action>)
      requires Valid()
      modifies this, idataOps.Values
      ensures Valid()
      ensures idataOps.Values <= old(idataOps.Values)
      ensures (View(), action) == GetResp(old(View()), sender, result, messageId)
    {
      action := None;
      if messageId in idataOps {
        var op := idataOps[messageId];
        action := op.HandleGetIDataResp(sender, result, messageId);
        OnlyOneOpChanged(messageId);
      }
      var _ := RemoveIDataOpIfConcluded(messageId);
    }

    method GetMetadataForAllChunks(holder: XorName) returns (r: NdResult<map<IDataAddress, set<XorName>>>)
      requires Valid()
      modifies this
      ensures Valid() && Ops() == old(Ops()) && idataOps == old(idataOps)
      ensures r == Ok(OtherHolders(old(metadata), holder))
      ensures metadata == WithoutHolder(old(metadata), holder)
    {
      // Collect every chunk the holder stores, with its other holders.
      var addresses: map<IDataAddress, set<XorName>> := map[];
      var unvisited := metadata.Keys;
      while unvisited != {}
        invariant unvisited <= metadata.Keys
        invariant forall a :: a in addresses <==> a in metadata && a !in unvisited && holder in metadata[a].holders
        invariant forall a :: a in addresses ==> addresses[a] == metadata[a].holders - {holder}
        decreases unvisited
      {
        var a :| a in unvisited;
        if holder in metadata[a].holders {
          addresses := addresses[a := metadata[a].holders - {holder}];
        }
        unvisited := unvisited - {a};
      }
      assert addresses == OtherHolders(metadata, holder);

      // Strike the holder from each of those entries, dropping the ones left empty.
      ghost var stored := metadata;
      var pending := addresses.Keys;
      while pending != {}
        invariant pending <= addresses.Keys
        invariant addresses == OtherHolders(stored, holder)
        invariant idataOps == old(idataOps)
        invariant forall a :: a in metadata <==>
          a in stored && (a in pending || a !in addresses || stored[a].holders != {holder})
        invariant forall a :: a in metadata ==>
          metadata[a] == if a in addresses && a !in pending
                         then stored[a].(holders := stored[a].holders - {holder}) else stored[a]
        decreases pending
      {
        var a :| a in pending;
        var entry := metadata[a];
        entry := entry.(holders := entry.holders - {holder});
        if entry.holders == {} {
          metadata := metadata - {a};
        } else {
          metadata := metadata[a := entry];
        }
        pending := pending - {a};
      }
      forall a | a in metadata
        ensures metadata[a] == stored[a].(holders := stored[a].holders - {holder})
      {
        if a !in addresses {
          assert stored[a].holders - {holder} == stored[a].holders;
        }
      }
      assert metadata == WithoutHolder(stored, holder);
      r := Ok(addresses);
    }

    method CheckIDataHolders(holder: XorName) returns (r: Option<map<IDataAddress, set<XorName>>>)
      requires Valid()
      modifies this
      ensures Valid() && Ops() == old(Ops()) && idataOps == old(idataOps)
      ensures r == Some(OtherHolders(old(metadata), holder))
      ensures metadata == WithoutHolder(old(metadata), holder)
    {
      var all := GetMetadataForAllChunks(holder);
      match all {
        case Ok(addresses) => r := Some(addresses);
        case Err(_) => r := None;
      }
    }

    /** After one op's state was updated in place, the op table differs from before only at that op. */
    twostate lemma OnlyOneOpChanged(messageId: MessageId)
      requires old(Valid()) && messageId in old(idataOps)
      requires idataOps == old(idataOps) && metadata == old(metadata)
      requires forall m :: m in idataOps && m != messageId ==> unchanged(idataOps[m])
      ensures Valid()
      ensures View() == old(View()).(ops := old(Ops())[messageId := idataOps[messageId].Record()])
    {
      assert Ops() == old(Ops())[messageId := idataOps[messageId].Record()];
    }
  }

  /** With at most one error, the error that a Delete answers with is the only one there is. */
  lemma SingleError(errs: map<XorName, NdError>, e: NdError)
    requires |errs| <= 1 && e in errs.Values
    ensures errs.Values == {e}
  {
    var k :| k in errs && errs[k] == e;
    assert errs.Keys == {k} by {
      assert errs.Keys == (errs.Keys - {k}) + {k};
      assert |errs.Keys - {k}| == 0;
    }
  }
}
