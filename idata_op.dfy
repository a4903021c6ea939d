// The per-request tracker of an immutable-data operation: which chunk holders
// a request was sent to and what each of them has answered so far.

module IDataOps {
  import opened Types

  datatype RpcState =
    | Sent                            // request sent to the chunk holder
    | Actioned(error: Option<NdError>) // holder answered; only its error is kept
    | HolderGone                      // holder left the section without answering
    | TimedOut                        // holder did not answer in time

  datatype OpType = Put | Get | Delete | GetForCopy | Copy

  /** The value of an operation: who asked, what was asked, and each holder's state. */
  datatype OpRecord = OpRecord(client: PublicId, request: IDataRequest, rpcStates: map<XorName, RpcState>)

  /** The states of a freshly sent request: every holder is `Sent`, and no one else is tracked. */
  function SentTo(holders: set<XorName>): (states: map<XorName, RpcState>)
    ensures states.Keys == holders
    ensures forall h :: h in states ==> states[h] == Sent
  {
    map h | h in holders :: Sent
  }

  /** `IDataOp::new` */
  function NewOp(client: PublicId, request: IDataRequest, holders: set<XorName>): OpRecord
  {
    OpRecord(client, request, SentTo(holders))
  }

  /** `IDataOp::concluded`: no holder is still awaited. */
  function Concluded(states: map<XorName, RpcState>): (c: bool)
    ensures c <==> forall h :: h in states ==> states[h] != Sent
  {
    Sent !in states.Values
  }

  /** `IDataOp::is_any_actioned`: some holder has answered. */
  function AnyActioned(states: map<XorName, RpcState>): (a: bool)
    ensures a <==> exists h :: h in states && states[h].Actioned?
  {
    exists s :: s in states.Values && s.Actioned?
  }

  /** `IDataOp::get_any_errors`: the holders that answered with an error, each with its error. */
  function Errors(states: map<XorName, RpcState>): (errs: map<XorName, NdError>)
    ensures forall h :: h in errs ==> h in states && states[h] == Actioned(Some(errs[h]))
    ensures forall h :: h in states && states[h].Actioned? && states[h].error.Some? ==> h in errs
  {
    map h | h in states && states[h].Actioned? && states[h].error.Some? :: states[h].error.value
  }

  /** `IDataOp::op_type`: a request is only ever a Put, a Get or a Delete. */
  function OpTypeOf(request: IDataRequest): (t: OpType)
    ensures t != OpType.GetForCopy && t != OpType.Copy
    ensures t == OpType.Put <==> request.Put?
    ensures t == OpType.Get <==> request.Get?
  {
    match request
    case Put(_) => OpType.Put
    case Get(_) => OpType.Get
    case DeleteUnpub(_) => OpType.Delete
  }

  /** The address a request is about. */
  function RequestAddress(request: IDataRequest): IDataAddress
  {
    match request
    case Put(data) => AddressOf(data)
    case Get(address) => address
    case DeleteUnpub(address) => address
  }

  /**
   * `set_to_actioned`: None for a sender that is not tracked; otherwise exactly
   * the sender's entry becomes `Actioned(err)`.
   */
  function ActionedStates(states: map<XorName, RpcState>, sender: XorName, err: Option<NdError>)
    : (r: Option<map<XorName, RpcState>>)
    ensures r.Some? <==> sender in states
    ensures r.Some? ==> r.value.Keys == states.Keys && r.value[sender] == Actioned(err)
    ensures r.Some? ==> forall h :: h in states && h != sender ==> r.value[h] == states[h]
  {
    if sender in states then Some(states[sender := Actioned(err)]) else None
  }

  /** `IDataOp::handle_mutation_resp`: the op afterwards and the address to update, if any. */
  function MutationRespOutcome(op: OpRecord, sender: XorName, result: NdResult<()>): (OpRecord, Option<IDataAddress>)
  {
    if op.request.Get? then (op, None)
    else
      match ActionedStates(op.rpcStates, sender, ErrOf(result))
      case None => (op, None)
      case Some(states) => (op.(rpcStates := states), Some(RequestAddress(op.request)))
  }

  /**
   * `IDataOp::handle_get_idata_resp` (`toClientHandlers`) and
   * `IDataOp::handle_get_copy_idata_resp` (otherwise): the op afterwards and the
   * response to pass on, which is produced for the first answer only.
   */
  function GetRespOutcome(op: OpRecord, sender: XorName, result: NdResult<IData>, messageId: MessageId,
                          toClientHandlers: bool): (OpRecord, Option<Action>)
  {
    var alreadyActioned := AnyActioned(op.rpcStates);
    if !op.request.Get? then (op, None)
    else
      match ActionedStates(op.rpcStates, sender, ErrOf(result))
      case None => (op, None)
      case Some(states) =>
        var rpc := RpcResponse(GetIData(result), op.client, messageId, None);
        var response :=
          if toClientHandlers then RespondToClientHandlers(op.request.address.name, rpc)
          else RespondToOurDataHandlers(op.request.address.name, rpc);
        (op.(rpcStates := states), if alreadyActioned then None else Some(response))
  }

  /** One immutable-data operation in flight; the handler updates its holder states in place. */
  class IDataOp {
    const client: PublicId
    const request: IDataRequest
    var rpcStates: map<XorName, RpcState>

    function Record(): OpRecord
      reads this
    {
      OpRecord(client, request, rpcStates)
    }

    constructor (client: PublicId, request: IDataRequest, holders: set<XorName>)
      ensures Record() == NewOp(client, request, holders)
    {
      this.client := client;
      this.request := request;
      rpcStates := map h | h in holders :: Sent;
    }

    method SetToActioned(sender: XorName, err: Option<NdError>) returns (found: bool)
      modifies this
      ensures found <==> sender in old(rpcStates)
      ensures ActionedStates(old(rpcStates), sender, err) == if found then Some(rpcStates) else None
      ensures !found ==> rpcStates == old(rpcStates)
    {
      found := sender in rpcStates;
      if found {
        rpcStates := rpcStates[sender := Actioned(err)];
      }
    }

    method HandleMutationResp(sender: XorName, result: NdResult<()>) returns (address: Option<IDataAddress>)
      modifies this
      ensures (Record(), address) == MutationRespOutcome(old(Record()), sender, result)
    {
      if request.Get? {
        return None;
      }
      var found := SetToActioned(sender, ErrOf(result));
      if !found {
        return None;
      }
      match request
      case Put(data) => address := Some(AddressOf(data));
      case DeleteUnpub(a) => address := Some(a);
    }

    method HandleGetIDataResp(sender: XorName, result: NdResult<IData>, messageId: MessageId)
      returns (action: Option<Action>)
      modifies this
      ensures (Record(), action) == GetRespOutcome(old(Record()), sender, result, messageId, true)
    {
      var isAlreadyActioned := AnyActioned(rpcStates);
      if !request.Get? {
        return None;
      }
      var address := request.address;
      var found := SetToActioned(sender, ErrOf(result));
      if !found {
        return None;
      }
      if isAlreadyActioned {
        action := None;
      } else {
        action := Some(RespondToClientHandlers(address.name, RpcResponse(GetIData(result), client, messageId, None)));
      }
    }

    method HandleGetCopyIDataResp(sender: XorName, result: NdResult<IData>, messageId: MessageId)
      returns (action: Option<Action>)
      modifies this
      ensures (Record(), action) == GetRespOutcome(old(Record()), sender, result, messageId, false)
    {
      var isAlreadyActioned := AnyActioned(rpcStates);
      if !request.Get? {
        return None;
      }
      var address := request.address;
      var found := SetToActioned(sender, ErrOf(result));
      if !found {
        return None;
      }
      if isAlreadyActioned {
        action := None;
      } else {
        action := Some(RespondToOurDataHandlers(address.name, RpcResponse(GetIData(result), client, messageId, None)));
      }
    }
  }

  /** A fresh op has no answers and no errors, and is already concluded exactly when it was sent to no one. */
  lemma NewOpState(holders: set<XorName>)
    ensures Concluded(SentTo(holders)) <==> holders == {}
    ensures !AnyActioned(SentTo(holders))
    ensures Errors(SentTo(holders)) == map[]
  {
    if holders != {} {
      var h :| h in holders;
      assert SentTo(holders)[h] == Sent;
    }
  }

  /** A mutation response to a Get op is ignored: no address, and the op is unchanged. */
  lemma MutationRespIgnoresGet(op: OpRecord, sender: XorName, result: NdResult<()>)
    requires op.request.Get?
    ensures MutationRespOutcome(op, sender, result) == (op, None)
  {
  }

  /**
   * A mutation response from an untracked sender changes nothing; from a tracked
   * sender of a Put or Delete, it records exactly that sender's answer and names
   * the request's address.
   */
  lemma MutationRespRecordsSender(op: OpRecord, sender: XorName, result: NdResult<()>)
    ensures sender !in op.rpcStates ==> MutationRespOutcome(op, sender, result) == (op, None)
    ensures !op.request.Get? && sender in op.rpcStates ==>
      var (op', address) := MutationRespOutcome(op, sender, result);
      && op'.client == op.client && op'.request == op.request
      && op'.rpcStates.Keys == op.rpcStates.Keys
      && op'.rpcStates[sender] == Actioned(ErrOf(result))
      && (forall h :: h in op.rpcStates && h != sender ==> op'.rpcStates[h] == op.rpcStates[h])
      && address == Some(RequestAddress(op.request))
  {
  }

  /**
   * Only the first answer to a Get is passed on: a response is produced only when
   * no holder had answered before, and never for a request that is not a Get.
   */
  lemma GetRespPassesOnFirstOnly(op: OpRecord, sender: XorName, result: NdResult<IData>, messageId: MessageId,
                                 toClientHandlers: bool)
    ensures var (op', action) := GetRespOutcome(op, sender, result, messageId, toClientHandlers);
      && (action.Some? <==> op.request.Get? && sender in op.rpcStates && !AnyActioned(op.rpcStates))
      && (op' != op ==> AnyActioned(op'.rpcStates))
      && (!op.request.Get? ==> op' == op)
      && (sender !in op.rpcStates ==> op' == op && action.None?)
      && (op.request.Get? && sender in op.rpcStates ==>
            op' == op.(rpcStates := op.rpcStates[sender := Actioned(ErrOf(result))]))
      && (action.Some? ==>
            var rpc := RpcResponse(GetIData(result), op.client, messageId, None);
            action.value == if toClientHandlers then RespondToClientHandlers(op.request.address.name, rpc)
                            else RespondToOurDataHandlers(op.request.address.name, rpc))
  {
    var (op', action) := GetRespOutcome(op, sender, result, messageId, toClientHandlers);
    if op' != op {
      assert op'.rpcStates[sender].Actioned?;
    }
  }

  /** After one answer to a Get has been recorded, no later answer is passed on. */
  lemma SecondGetRespNotPassedOn(op: OpRecord, s1: XorName, r1: NdResult<IData>, s2: XorName, r2: NdResult<IData>,
                                 messageId: MessageId, toClientHandlers: bool)
    requires op.request.Get? && s1 in op.rpcStates
    ensures GetRespOutcome(GetRespOutcome(op, s1, r1, messageId, toClientHandlers).0, s2, r2, messageId,
                           toClientHandlers).1 == None
  {
    var op1 := GetRespOutcome(op, s1, r1, messageId, toClientHandlers).0;
    assert op1.rpcStates[s1].Actioned?;
  }

  /** Recording an answer never reopens a concluded op: it only writes `Actioned` to tracked holders. */
  lemma ConcludedStaysConcluded(states: map<XorName, RpcState>, sender: XorName, err: Option<NdError>)
    requires Concluded(states)
    ensures ActionedStates(states, sender, err).Some? ==> Concluded(ActionedStates(states, sender, err).value)
  {
  }

  /** The holder states after a sequence of answers, each recorded as `set_to_actioned` does. */
  function AfterAnswers(states: map<XorName, RpcState>, answers: seq<(XorName, Option<NdError>)>)
    : map<XorName, RpcState>
  {
    if answers == [] then states
    else
      var next := ActionedStates(states, answers[0].0, answers[0].1);
      AfterAnswers(if next.Some? then next.value else states, answers[1..])
  }

  /** Any sequence of answers keeps the tracked holders, and keeps a concluded op concluded. */
  lemma {:induction false} AnswersKeepConclusion(states: map<XorName, RpcState>,
                                                 answers: seq<(XorName, Option<NdError>)>)
    ensures AfterAnswers(states, answers).Keys == states.Keys
    ensures Concluded(states) ==> Concluded(AfterAnswers(states, answers))
  {
    if answers != [] {
      var next := ActionedStates(states, answers[0].0, answers[0].1);
      var states' := if next.Some? then next.value else states;
      if Concluded(states) {
        ConcludedStaysConcluded(states, answers[0].0, answers[0].1);
      }
      AnswersKeepConclusion(states', answers[1..]);
    }
  }
}
