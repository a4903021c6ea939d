# safe_vault: immutable-data bookkeeping, mock routing and vault dispatch, in Dafny

This project models the part of a SAFE network vault that keeps track of immutable data (IData) chunks, and proves properties of that model.

- **The IData op tracker** (`IDataOps`). Every Put, Get or DeleteUnpub a data handler forwards to chunk holders becomes an `IDataOp`. An op records each holder's `RpcState` (`Sent`, `Actioned(error)`, `HolderGone`, `TimedOut`). It is concluded once no holder is `Sent`. The op is a class whose holder map is updated in place. Its value, `OpRecord`, and the functions over it state what each update does.
- **The IData handler** (`IDataHandlers`). The handler has two tables:
  - the chunk metadata table (address ↦ holders and owner), held in storage in the source and as a map here;
  - the table of ops in flight, keyed by message id.

  It handles requests:
  - existence and duplicate-id checks;
  - the owner check for owned data;
  - creating the op and fanning the request out to the holders.

  It handles holders' answers:
  - adding or removing holders;
  - removing entries left without holders;
  - answering the client once an op concludes.

  It also cleans up after a holder leaves. The method of each step is proved equal to a function over `Tables`, the handler's tables as a value, and the properties are lemmas about those functions.
- **Identity and refund helpers** (`Utils`): total functions over `PublicId = Node | Client | App`, over RPCs, over results and over message sources.
- **The mock consensus group** (`MockRouting`). The first vote for a payload is broadcast once to every registered event channel, and later votes do nothing. Shown as a `GroupState` value, with lemmas over any sequence of votes. A node votes through its group, or straight to its own channel when it has none.
- **The vault's role and dispatch** (`Vaults`):
  - the Elder/Adult state and its accessors;
  - promotion to elder;
  - which handler a routing message, routing event, client event or forwarded request goes to (the seven account, coin and auth-key request kinds go to the client handler, everything else to the data handler);
  - the `SendToPeers` fan-out.

Calls into code outside the model are inputs or outputs:
- **Inputs:** routing's adult and elder lists; decoding a message; whether a handler can be created; whether the mock group is still alive; the iteration order of a target set; a request's destination address (`Request::dest_address` of the data types crate, the `destAddress` of `ForwardClientRequest`); and the local data handler's answer when the vault is one of its own fan-out targets (the `localAction` of `SendToPeers`).
- **Outputs:** `Dispatch` values naming the handler call the vault makes.

`Types` holds the shared values: names, identities, errors, immutable data, requests, RPCs and actions.

## Model

| member | source | states |
|---|---|---|
| Utils.Owner | src/utils.rs:60-66 | No owner exactly for a vault; a client owns itself; an app is owned by its owner. |
| Utils.Client | src/utils.rs:70-75 | Some exactly for the Client variant, and then that client. |
| Utils.OwnKey | src/utils.rs:79-85 | None exactly for a vault; otherwise the client's or the app's own key. |
| Utils.RequesterAddress | src/utils.rs:88-94 | The requester's name, for a request and a response alike; for an app, its owner's name. |
| Utils.RefundForPut | src/utils.rs:96-102 | A refund exactly when the result is an error, and then of `CostOfPut`. |
| Utils.SourceName | src/utils.rs:104-110 | A node source gives its own name; any other source gives the default name. |
| Utils.KeyIffOwner | src/utils.rs:60-85 | A requester has its own key exactly when it has an owning client. A client is its own owner, and signs with its own key. An app is an owned non-client. |
| Utils.RequesterAddressIsOwnerName | src/utils.rs:88-94 | The requester's address is its owning client's name when it has one, and a vault's own name otherwise. |
| IDataOps.SentTo | src/data_handler/idata_op.rs:50-59 | A fresh op tracks exactly the given holders, each `Sent`. |
| IDataOps.IDataOp.constructor | src/data_handler/idata_op.rs:50-59 | The new op's value is `NewOp` of its client, request and holders. |
| IDataOps.NewOpState | src/data_handler/idata_op.rs:50-100 | A fresh op has no answers and no errors. It is concluded exactly when it was sent to no one. |
| IDataOps.AnyActioned | src/data_handler/idata_op.rs:69-74 | True exactly when some holder has answered. |
| IDataOps.OpTypeOf | src/data_handler/idata_op.rs:76-83 | Put for a Put, Get for a Get, never `GetForCopy` or `Copy`. |
| IDataOps.Concluded | src/data_handler/idata_op.rs:85-90 | True exactly when no holder's state is `Sent`. |
| IDataOps.Errors | src/data_handler/idata_op.rs:92-100 | Exactly the holders in state `Actioned(Some(e))`, each with its `e`. |
| IDataOps.ActionedStates | src/data_handler/idata_op.rs:200-216 | None for an untracked sender. Otherwise only the sender's state becomes `Actioned(err)`, with the same key set and every other state unchanged. |
| IDataOps.IDataOp.SetToActioned | src/data_handler/idata_op.rs:200-216 | Reports whether the sender was tracked, and updates the holder map as `ActionedStates` says. |
| IDataOps.IDataOp.HandleMutationResp | src/data_handler/idata_op.rs:102-124 | The op and the returned address are those of `MutationRespOutcome` of the op before. |
| IDataOps.MutationRespIgnoresGet | src/data_handler/idata_op.rs:109-115 | A mutation answer to a Get returns no address and leaves the op unchanged. |
| IDataOps.MutationRespRecordsSender | src/data_handler/idata_op.rs:102-124 | An untracked sender changes nothing. For a tracked sender of a Put or Delete, only that sender becomes `Actioned(result.err())`, and the request's address is returned. |
| IDataOps.IDataOp.HandleGetIDataResp | src/data_handler/idata_op.rs:163-198 | The op and the action are those of `GetRespOutcome` towards client handlers. |
| IDataOps.IDataOp.HandleGetCopyIDataResp | src/data_handler/idata_op.rs:126-161 | The op and the action are those of `GetRespOutcome` towards the data handlers. |
| IDataOps.GetRespPassesOnFirstOnly | src/data_handler/idata_op.rs:163-198 | A response is produced exactly for a Get, from a tracked sender, when no holder had answered before. A request that is not a Get is left unchanged. An untracked sender leaves the op unchanged and produces nothing. For a tracked sender of a Get, only that sender becomes `Actioned(result.err())`. The response is `GetIData(result)` for the op's client under the message id, with no refund, sent to the client handlers or to our data handlers under the chunk's name. |
| IDataOps.SecondGetRespNotPassedOn | src/data_handler/idata_op.rs:163-198 | Once one tracked holder's answer to a Get is recorded, no later answer is passed on. |
| IDataOps.ConcludedStaysConcluded | src/data_handler/idata_op.rs:200-216 | Recording an answer never reopens a concluded op. |
| IDataOps.AnswersKeepConclusion | src/data_handler/idata_op.rs:200-216 | Any sequence of recorded answers keeps the set of tracked holders, and keeps a concluded op concluded. |
| IDataHandlers.HolderList | src/data_handler/idata_handler.rs:565-585 | Every adult, in order. With three or more adults, nothing else. Otherwise the closest elders follow, until there are three names or the elders run out. |
| IDataHandlers.MetadataFor | src/data_handler/idata_handler.rs:513-528 | Returns the entry exactly when it exists and lists a holder; otherwise fails with `NoSuchData`. |
| IDataHandlers.MetadataForUnderInvariant | src/data_handler/idata_handler.rs:513-528 | When no entry is empty, the entry is found exactly when its address is in the table. |
| IDataHandlers.OwnerCheck | src/data_handler/idata_handler.rs:158-163 | Owned data asked for by a vault gets silence. A requester with another key is refused. Anyone may touch unowned data. |
| IDataHandlers.IDataHandler.constructor | src/data_handler/idata_handler.rs:47-64 | A handler over a stored metadata table, with no op in flight and no op object. |
| IDataHandlers.IDataHandler.HandlePutIDataReq | src/data_handler/idata_handler.rs:66-129 | Tables and action after the call are `PutReq` of the tables before and the holder list. Any op object it adds is new. (The other request methods add only new op objects too. Answers, removal and the holder clean-up keep only op objects they already had, so the handler can go on serving calls.) |
| IDataHandlers.ExistingPutAnswered | src/data_handler/idata_handler.rs:91-104 | A Put of a known address leaves both tables unchanged. Published data is answered Ok with no refund. Unpublished data is answered `DataExists` with a refund. |
| IDataHandlers.DuplicateMessageIdRejected | src/data_handler/idata_handler.rs:114-115 | A message id already in flight leaves the tables unchanged for Put, Delete, Get and copy requests (also 171-172, 212-213, 269-270). Once the earlier checks pass, it is answered `DuplicateMessageId`. |
| IDataHandlers.FreshRequestInsertsOneOp | src/data_handler/idata_handler.rs:112-127 | A request that passes every check adds one op under its fresh message id, with exactly its targets `Sent` and every other op kept. It sends the request to exactly those targets. This holds for Put, DeleteUnpub (165-184), Get and copy. |
| IDataHandlers.RequestsKeepMetadata | src/data_handler/idata_handler.rs:66-284 | No request changes the metadata table. |
| IDataHandlers.IDataHandler.HandleDeleteUnpubIDataReq | src/data_handler/idata_handler.rs:131-186 | Tables and action after the call are `DeleteReq` of the tables before. |
| IDataHandlers.MissingChunkAnswered | src/data_handler/idata_handler.rs:152-155 | A Delete or Get of a chunk without holders is answered `NoSuchData`, with nothing changed. |
| IDataHandlers.OwnedDataGuarded | src/data_handler/idata_handler.rs:158-163 | For owned data, Delete and Get alike (also 256-261): a vault is not answered and nothing changes. A requester with another key is answered `AccessDenied`, and no op is added. |
| IDataHandlers.IDataHandler.GetIDataCopy | src/data_handler/idata_handler.rs:188-227 | Tables and action after the call are `GetCopyReq` of the tables before. |
| IDataHandlers.IDataHandler.HandleGetIDataReq | src/data_handler/idata_handler.rs:229-284 | Tables and action after the call are `GetReq` of the tables before. |
| IDataHandlers.IDataHandler.CheckIDataHolders | src/data_handler/idata_handler.rs:286-294 | Always returns the departed holder's chunks with their other holders, and strikes the holder as `GetMetadataForAllChunks` does. |
| IDataHandlers.IDataHandler.HandleMutationResp | src/data_handler/idata_handler.rs:296-315 | Tables and action after the call are `MutationResp` of the tables before. |
| IDataHandlers.UnexpectedMutationRespIgnored | src/data_handler/idata_handler.rs:296-308 | An answer with an unknown id, with a Get's id, or from a holder not asked changes nothing and produces no action. |
| IDataHandlers.PutAnswerMakesHolder | src/data_handler/idata_handler.rs:296-377 | A Put answer from a holder that was asked has three effects. It records the answer in the op, if the op is still in flight. It makes the sender a holder. It makes the client's key the owner. The client is answered Ok, whatever the holders reported, exactly when the recorded answer concludes the op. |
| IDataHandlers.IDataHandler.HandlePutIDataResp | src/data_handler/idata_handler.rs:317-377 | Tables and action after the call are `PutResp` of the tables before; `PutAnswerOnConclusion` and `PutRespRecordsHolder` state what that is. |
| IDataHandlers.PutAnswerOnConclusion | src/data_handler/idata_handler.rs:317-377 | For an op a client asked for, a concluded op is removed and the client answered Ok, whatever the holders reported (324-333). Until then nothing is answered and the op table is kept. |
| IDataHandlers.PutRespRecordsHolder | src/data_handler/idata_handler.rs:341-360 | Whatever the result, the sender joins the chunk's holders and the requester's key becomes the owner. Other holders and other entries are kept, and the op is removed if concluded. An op whose requester is a vault changes nothing. |
| IDataHandlers.IDataHandler.HandleDeleteUnpubIDataResp | src/data_handler/idata_handler.rs:379-447 | Tables and action after the call are `DeleteResp` of the tables before. |
| IDataHandlers.DeleteRespMetadata | src/data_handler/idata_handler.rs:388-418 | On Ok the sender is struck from the chunk's holders, and an entry left empty is deleted; other entries are kept. On Err the metadata is unchanged. An unknown holder of a finished op changes nothing. For an address without an entry, the metadata is unchanged. |
| IDataHandlers.DeleteAnswerInFlight | src/data_handler/idata_handler.rs:420-446 | A Delete answer that leaves the op waiting on other holders answers nothing and keeps the op table. |
| IDataHandlers.DeleteAnswer | src/data_handler/idata_handler.rs:420-446 | A concluded Delete is removed and answered to its client. The answer goes under the chunk's name, with the op's message id and no refund. It is Ok when no holder failed, and the single holder's error otherwise. |
| IDataHandlers.SingleError | src/data_handler/idata_handler.rs:420-433 | With at most one error, the error chosen is the only one. |
| IDataHandlers.IDataHandler.HandleGetIDataResp | src/data_handler/idata_handler.rs:449-461 | Tables and action after the call are `GetResp` of the tables before. |
| IDataHandlers.HandlerPassesOnFirstGetOnly | src/data_handler/idata_handler.rs:449-461 | The handler answers exactly for the first answer from an asked holder of a Get. The answer is `GetIData(result)` to the client handlers under the chunk's name, with no refund. It never changes the metadata. Other ops are untouched and no op is added. The answered op is updated as `GetRespOutcome` says, and removed exactly when that concludes it. An unknown message id changes nothing. |
| IDataHandlers.IDataHandler.GetMetadataForAllChunks | src/data_handler/idata_handler.rs:463-511 | Returns `OtherHolders` and leaves `WithoutHolder` of the metadata before; ops are unchanged. |
| IDataHandlers.HolderLeftCleanup | src/data_handler/idata_handler.rs:463-511 | Reported exactly: the chunks listing the holder, with the other holders. Afterwards no entry lists the holder; entries it held alone are gone, entries it shared keep exactly their other holders, and entries without it are kept. Owners are kept, and no entry is left empty. |
| IDataHandlers.IDataHandler.RemoveIDataOpIfConcluded | src/data_handler/idata_handler.rs:552-561 | The op table and the removed op are those of `RemoveIfConcluded`; metadata is kept. |
| IDataHandlers.RemovesOnlyConcluded | src/data_handler/idata_handler.rs:552-561 | Removes and returns the op exactly when it exists and is concluded; otherwise the table is unchanged. |
| IDataHandlers.AnswersKeepEntriesNonEmpty | src/data_handler/idata_handler.rs:296-461 | No holder's answer leaves a metadata entry without holders. |
| IDataHandlers.PutRespKeepsEntriesNonEmpty | src/data_handler/idata_handler.rs:317-377 | A Put answer keeps every entry non-empty. |
| IDataHandlers.DeleteRespKeepsEntriesNonEmpty | src/data_handler/idata_handler.rs:379-418 | A Delete answer keeps every entry non-empty. |
| MockRouting.ConsensusGroup.constructor | src/mock_routing/mod.rs:40-45 | A new group has agreed nothing and has no channels. |
| MockRouting.Vote | src/mock_routing/mod.rs:47-53 | The payload joins the agreed set. A first vote appends one `Consensus(payload)` to every channel; a repeated vote changes nothing. |
| MockRouting.ConsensusGroup.VoteFor | src/mock_routing/mod.rs:47-53 | The group's agreed set and channel contents after the call are `Vote` of those before. Channels are distinct and free of repeats. |
| MockRouting.VoteKeepsDeliveredOnce | src/mock_routing/mod.rs:47-53 | A vote keeps every channel holding only agreed payloads, each at most once. |
| MockRouting.VotesDeliverFresh | src/mock_routing/mod.rs:47-53 | Over any sequence of votes, the agreed set grows by exactly the payloads voted for. Each channel receives exactly the newly agreed payloads, in voting order. |
| MockRouting.FreshOnce | src/mock_routing/mod.rs:47-53 | Those new events are distinct, each for a payload voted for and not agreed before. |
| MockRouting.RepeatedVotesChangeNothing | src/mock_routing/mod.rs:48 | Votes for agreed payloads, in any number, change nothing. |
| MockRouting.Node.VoteFor | src/mock_routing/mod.rs:85-93 | With no group, the vote goes straight to the node's own channel. With a dropped group it is lost. Otherwise the group votes. |
| MockRouting.Node.OurEldersInfo | src/mock_routing/mod.rs:80-82 | The elders are always known, and there are none. |
| MockRouting.Node.MatchesOurPrefix | src/mock_routing/mod.rs:107-111 | Every name matches our prefix, without error. |
| MockRouting.Node.ClosestKnownEldersTo | src/mock_routing/mod.rs:117-123 | Succeeds exactly when our elders are known, and then gives them; otherwise `InvalidState`. |
| MockRouting.SingleSection | src/mock_routing/mod.rs:80-123 | Every name matches our prefix; no elders are known, so the closest elders are an empty list. |
| MockRouting.NodeBuilder.Create | src/mock_routing/mod.rs:154-170 | A fresh node with a fresh empty channel and no group. |
| MockRouting.NodeBuilder.CreateWithinGroup | src/mock_routing/mod.rs:173-197 | The node's fresh channel is appended to the group's channels, and the agreed set is kept. |
| Vaults.Vault.constructor | src/vault.rs:105-138 | An elder starts with both handlers; an adult only with a non-elder data handler. |
| Vaults.Vault.PromoteToElder | src/vault.rs:221-245 | Succeeds exactly when both new handlers can be created, and then the vault is an Elder with new handlers. On failure the state is unchanged. |
| Vaults.Vault.ClientHandlerMut | src/vault.rs:676-684 | Some exactly for an Elder, and then its client handler. |
| Vaults.Vault.DataHandler | src/vault.rs:688-695 | Always the vault's data handler. |
| Vaults.Vault.DataHandlerMut | src/vault.rs:697-705 | Some exactly for an Elder; None for an Adult, although it has a data handler. |
| Vaults.Vault.KindDispatch | src/vault.rs:370-406 | Goes to the client handler exactly for the seven client-handler kinds on an Elder, and to the data handler exactly for the rest on an Elder. |
| Vaults.Vault.RoutingMessageDispatch | src/vault.rs:370-412 | An undecodable message or an Adult gives nothing. Otherwise the seven kinds go to the client handler and the rest to the data handler, under the source's name. |
| Vaults.Vault.RoutingEventDispatch | src/vault.rs:323-368 | An Adult passes on nothing, neither consensus nor `MemberLeft`. An Elder passes decoded consensus to its client handler and `MemberLeft` to its data handler. Promotion answers nothing. |
| Vaults.Vault.HandleRoutingEvent | src/vault.rs:323-368 | Dispatches as `RoutingEventDispatch` in the state before. A `Promoted` event makes the vault an Elder when both handlers can be created. |
| Vaults.Vault.ClientEventDispatch | src/vault.rs:414-446 | Only an Elder's client handler hears clients, and only about connection, connection failure and new messages. |
| Vaults.Vault.SelfIsHandlerFor | src/vault.rs:661-663 | Every address is handled here. |
| Vaults.ForClientHandler | src/vault.rs:373-399 | Only requests of the login-packet, coins and client families go to the client handler. Within them, everything but `LoginGet`, `GetBalance` and `ListAuthKeysAndVersion` does. |
| Vaults.ForwardRequesterName | src/vault.rs:562-570 | `CreateFor` is handled under the new owner's name, anything else under the requester's. |
| Vaults.Vault.ForwardClientRequest | src/vault.rs:560-634 | A response, or a destination-less request other than an auth-key change, gives nothing, and so does an Adult. Otherwise the request goes to the handler of its kind under that name. |
| Vaults.PromotedVaultHandlesMessages | src/vault.rs:370-412 | On an Elder, every decoded routing message and every forwarded request with a destination reaches a handler. |
| Vaults.Vault.SendToPeers | src/vault.rs:490-506 | Every other target is sent the request in order. The vault's own name is handled locally by an Elder, and the result is the action for the last target. An Adult stops at its own name, having sent only the earlier targets. A vault that is not itself a target, Elder or Adult alike, messages every target in iteration order, with no local call and no action. |
| Vaults.FanOutReachesOthersOnce | src/vault.rs:490-506 | The targets messaged are exactly the target set without the vault itself, each once. |
| Vaults.SingleSectionHoldersAreAdults | src/data_handler/idata_handler.rs:565-585 | A fact about `HolderList` alone: given an empty elder list, such as the one the mock's `ClosestKnownEldersTo` yields, the holder list is exactly the adults. The source never feeds the mock's elders to `make_holder_list_for_idata`. |

## Left out

- `Vault::run`, `Vault::poll` and the channel-select loop are blocking event-loop I/O; `step_routing`/`step_client`, which feed each returned action back into `handle_action`, are not modelled either. `Shutdown` ends `run` but is ignored by `poll`.
- `dump_state`, `read_state` and `new_db` are file I/O. The metadata store is an in-memory map, and its writes always succeed.
- Serialisation (`serialise`, `to_db_key`, `db_key_to_idata_address`, decoding a routing message or a consensus payload) belongs to foreign libraries. Decoded values are inputs, and addresses are their own keys.
- `random_vec`, `NodeFullId::new` and the client-event RNG are randomness.
- `setup_quic_p2p`, `send_message_to_client`, `disconnect_from_client`, `respond_to_data_handlers` and `send_message_to_peer` are network transport. The fan-out reports which peers it messages.
- XOR-distance ordering of adults and elders lives in the routing crate. The ordered lists are inputs to `HolderList`, and the iteration order of a target set is an input to `SendToPeers`.
- `Rc`/`RefCell`/`Weak` sharing is left out; whether a weak group reference still upgrades is an input. Logging is left out too.
- IDataHandlers.PutResp and IDataHandlers.DeleteResp: in the source, the early return on a missing op sits inside the arguments of a `warn!` call (idata_handler.rs:357 and 406), so it happens only when warn-level logging is on. The model always takes it. With logging off, a Put answer gives the same result. A Delete answer gives the same result whenever no metadata entry is empty (`NoEmptyEntries`).
- MockRouting.ConsensusGroup.VoteFor and MockRouting.Node.VoteFor: the source unwraps every channel send, and so panics once a node's receiver has been dropped; the group never forgets a dropped node's sender. Channels here always accept, so that panic is not modelled.
- The client and data handlers outside IData: `proxy_client_request` and the `VoteFor`, `ProxyClientRequest`, `RespondToOurDataHandlers`, `RespondToClientHandlers` and `RespondToClient` arms of `handle_action`. Their handler calls are outside this model. The `ForwardClientRequest` arm only calls `forward_client_request`, which `Vaults.Vault.ForwardClientRequest` models.
- Vaults.Vault.RoutingEventDispatch: for `MemberLeft` it names the data handler's call only. The copy actions that call returns are handled by arms of `handle_action` that are not modelled.
- IDataHandlers.IDataHandler.HandleDeleteUnpubIDataResp: the source's assertion that a concluded Delete has at most one error is a precondition here (`AtMostOneError`, `DeleteAnswerAllowed`). The panic it would raise is not modelled.
- Types.KeyName: the data types crate derives a name from a key by hashing. Here the name is the key's bytes, an injective stand-in.
- `COST_OF_PUT` is a constant whose value is set outside this model.
- `full_adults` of the IData handler is unused by the modelled operations. Its `routing_node` handle is used only by `make_holder_list_for_idata`, whose adult and elder lists are inputs here.
