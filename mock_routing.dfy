// The mock of the routing layer used by the vault in a single-section network:
// a consensus group that turns votes into consensus events delivered to every
// member's event channel, the node that votes through it, and the builder
// that registers a node's channel with the group.

module MockRouting {
  import opened Types

  /** The routing events a vault receives. */
  datatype Event =
    | Consensus(payload: seq<bv8>)
    | Promoted
    | MessageReceived(content: seq<bv8>, src: SrcLocation)
    | MemberLeft(name: XorName)
    | OtherEvent

  datatype RoutingError = InvalidState

  /** The connection information of an elder; only its name matters here. */
  datatype P2pNode = P2pNode(name: XorName)

  // ---------------------------------------------------------------------------
  // The consensus group, as a value

  /** What the group has agreed, and what each registered channel has received, in registration order. */
  datatype GroupState = GroupState(consensused: set<seq<bv8>>, logs: seq<seq<Event>>)

  /** `ConsensusGroup::vote_for`: only the first vote for a payload is broadcast, once to every channel. */
  function Vote(g: GroupState, payload: seq<bv8>): (g': GroupState)
    ensures g'.consensused == g.consensused + {payload}
    ensures |g'.logs| == |g.logs|
    ensures payload in g.consensused ==> g' == g
    ensures payload !in g.consensused ==> forall i :: 0 <= i < |g.logs| ==> g'.logs[i] == g.logs[i] + [Consensus(payload)]
  {
    if payload in g.consensused then g
    else GroupState(g.consensused + {payload}, seq(|g.logs|, i requires 0 <= i < |g.logs| => g.logs[i] + [Consensus(payload)]))
  }

  /** Every channel has received only agreed payloads, each at most once. */
  predicate DeliveredOnce(g: GroupState)
  {
    && (forall i, j :: 0 <= i < |g.logs| && 0 <= j < |g.logs[i]| ==>
          g.logs[i][j].Consensus? && g.logs[i][j].payload in g.consensused)
    && (forall i, j, k :: 0 <= i < |g.logs| && 0 <= j < k < |g.logs[i]| ==> g.logs[i][j] != g.logs[i][k])
  }

  /** Voting keeps every channel free of repeats. */
  lemma VoteKeepsDeliveredOnce(g: GroupState, payload: seq<bv8>)
    requires DeliveredOnce(g)
    ensures DeliveredOnce(Vote(g, payload))
  {
    var g' := Vote(g, payload);
    if payload !in g.consensused {
      forall i, j, k | 0 <= i < |g'.logs| && 0 <= j < k < |g'.logs[i]|
        ensures g'.logs[i][j] != g'.logs[i][k]
      {
        if k == |g.logs[i]| {
          assert g'.logs[i][j] == g.logs[i][j];
        }
      }
    }
  }

  /** The group after a sequence of votes. */
  function Votes(g: GroupState, votes: seq<seq<bv8>>): GroupState
    decreases votes
  {
    if votes == [] then g else Votes(Vote(g, votes[0]), votes[1..])
  }

  /** The events a sequence of votes produces: one per payload not agreed before, in voting order. */
  function Fresh(seen: set<seq<bv8>>, votes: seq<seq<bv8>>): seq<Event>
    decreases votes
  {
    if votes == [] then []
    else if votes[0] in seen then Fresh(seen, votes[1..])
    else [Consensus(votes[0])] + Fresh(seen + {votes[0]}, votes[1..])
  }

  /**
   * Over any sequence of votes, the group agrees exactly the payloads voted for,
   * and every channel receives the newly agreed payloads in voting order.
   */
  lemma {:induction false} VotesDeliverFresh(g: GroupState, votes: seq<seq<bv8>>)
    ensures Votes(g, votes).consensused == g.consensused + set v | v in votes
    ensures |Votes(g, votes).logs| == |g.logs|
    ensures forall i :: 0 <= i < |g.logs| ==> Votes(g, votes).logs[i] == g.logs[i] + Fresh(g.consensused, votes)
    decreases votes
  {
    if votes != [] {
      var g1 := Vote(g, votes[0]);
      VotesDeliverFresh(g1, votes[1..]);
      assert (set v | v in votes) == {votes[0]} + set v | v in votes[1..];
      forall i | 0 <= i < |g.logs|
        ensures Votes(g, votes).logs[i] == g.logs[i] + Fresh(g.consensused, votes)
      {
        if votes[0] !in g.consensused {
          assert g1.logs[i] == g.logs[i] + [Consensus(votes[0])];
        }
      }
    }
  }

  /** The fresh events are distinct, each for a payload voted for and not agreed before. */
  lemma {:induction false} FreshOnce(seen: set<seq<bv8>>, votes: seq<seq<bv8>>)
    ensures forall j :: 0 <= j < |Fresh(seen, votes)| ==>
      Fresh(seen, votes)[j].Consensus? && Fresh(seen, votes)[j].payload in votes &&
      Fresh(seen, votes)[j].payload !in seen
    ensures forall j, k :: 0 <= j < k < |Fresh(seen, votes)| ==> Fresh(seen, votes)[j] != Fresh(seen, votes)[k]
    decreases votes
  {
    if votes != [] {
      FreshOnce(seen, votes[1..]);
      FreshOnce(seen + {votes[0]}, votes[1..]);
    }
  }

  /** Voting for an agreed payload again, however often, changes nothing. */
  lemma {:induction false} RepeatedVotesChangeNothing(g: GroupState, votes: seq<seq<bv8>>)
    requires forall j :: 0 <= j < |votes| ==> votes[j] in g.consensused
    ensures Votes(g, votes) == g
    decreases votes
  {
    if votes != [] {
      RepeatedVotesChangeNothing(Vote(g, votes[0]), votes[1..]);
    }
  }

  // ---------------------------------------------------------------------------
  // The objects

  /** An event channel; the group and the owning node share it. */
  class Channel {
    var events: seq<Event>

    constructor ()
      ensures events == []
    {
      events := [];
    }
  }

  class ConsensusGroup {
    var consensused: set<seq<bv8>>
    var eventChannels: seq<Channel>

    ghost function View(): GroupState
      reads this, eventChannels
    {
      GroupState(consensused, seq(|eventChannels|, i reads this, eventChannels
                                                     requires 0 <= i < |eventChannels| => eventChannels[i].events))
    }

    /** Each channel is registered once, and has received only agreed payloads, each at most once. */
    ghost predicate Valid()
      reads this, eventChannels
    {
      && (forall i, j :: 0 <= i < j < |eventChannels| ==> eventChannels[i] != eventChannels[j])
      && DeliveredOnce(View())
    }

    /** `ConsensusGroup::new` */
    constructor ()
      ensures Valid() && consensused == {} && eventChannels == []
    {
      consensused := {};
      eventChannels := [];
    }

    method VoteFor(payload: seq<bv8>)
      requires Valid()
      modifies this, eventChannels
      ensures Valid() && eventChannels == old(eventChannels)
      ensures View() == Vote(old(View()), payload)
    {
      if payload in consensused {
        return;
      }
      VoteKeepsDeliveredOnce(View(), payload);
      consensused := consensused + {payload};
      var i := 0;
      while i < |eventChannels|
        invariant 0 <= i <= |eventChannels|
        invariant eventChannels == old(eventChannels) && consensused == old(consensused) + {payload}
        invariant forall j :: 0 <= j < i ==> eventChannels[j].events == old(eventChannels[j].events) + [Consensus(payload)]
        invariant forall j :: i <= j < |eventChannels| ==> eventChannels[j].events == old(eventChannels[j].events)
      {
        eventChannels[i].events := eventChannels[i].events + [Consensus(payload)];
        i := i + 1;
      }
      assert View().logs == Vote(old(View()), payload).logs;
    }
  }

  /** A routing node; whether its group is still alive when it votes is an input. */
  class Node {
    const eventsTx: Channel
    const consensusGroup: Option<ConsensusGroup>

    constructor (eventsTx: Channel, consensusGroup: Option<ConsensusGroup>)
      ensures this.eventsTx == eventsTx && this.consensusGroup == consensusGroup
    {
      this.eventsTx := eventsTx;
      this.consensusGroup := consensusGroup;
    }

    /**
     * `Node::vote_for`: through the group when there is one (and nothing at all
     * when the group has been dropped); otherwise straight to the node's own channel.
     */
    method VoteFor(payload: seq<bv8>, groupAlive: bool)
      requires consensusGroup.Some? ==> consensusGroup.value.Valid()
      modifies if consensusGroup.Some? then {} else {eventsTx}
      modifies if consensusGroup.Some? then {consensusGroup.value} else {}
      modifies if consensusGroup.Some? then consensusGroup.value.eventChannels else []
      ensures consensusGroup.None? ==> eventsTx.events == old(eventsTx.events) + [Consensus(payload)]
      ensures consensusGroup.Some? && !groupAlive ==>
        unchanged(consensusGroup.value) && unchanged(consensusGroup.value.eventChannels)
      ensures consensusGroup.Some? && groupAlive ==>
        && consensusGroup.value.Valid()
        && consensusGroup.value.eventChannels == old(consensusGroup.value.eventChannels)
        && consensusGroup.value.View() == Vote(old(consensusGroup.value.View()), payload)
    {
      match consensusGroup {
        case Some(group) =>
          if groupAlive {
            group.VoteFor(payload);
          }
        case None =>
          eventsTx.events := eventsTx.events + [Consensus(payload)];
      }
    }

    /** `Node::our_elders_info`: the mock knows no elders. */
    function OurEldersInfo(): (elders: Option<seq<P2pNode>>)
      ensures elders.Some? && |elders.value| == 0
    {
      Some([])
    }

    /** `Node::matches_our_prefix`: there is only one section, so every name matches. */
    function MatchesOurPrefix(name: XorName): (r: Result<bool, RoutingError>)
      ensures r.Ok? && r.value
    {
      Ok(true)
    }

    /** `Node::closest_known_elders_to`: the section's elders, or `InvalidState` when they are unknown. */
    function ClosestKnownEldersTo(name: XorName): (r: Result<seq<P2pNode>, RoutingError>)
      ensures r.Ok? <==> OurEldersInfo().Some?
      ensures r.Ok? ==> r.value == OurEldersInfo().value
    {
      match OurEldersInfo()
      case Some(elders) => Ok(elders)
      case None => Err(InvalidState)
    }
  }

  /** `NodeBuilder`: creates a node with a fresh event channel. */
  class NodeBuilder {
    constructor ()
    {
    }

    /** `NodeBuilder::create`: a node of its own, outside any group. */
    method Create() returns (node: Node, eventsRx: Channel)
      ensures fresh(node) && fresh(eventsRx) && eventsRx.events == []
      ensures node.eventsTx == eventsRx && node.consensusGroup == None
    {
      eventsRx := new Channel();
      node := new Node(eventsRx, None);
    }

    /** `NodeBuilder::create_within_group`: the node's channel is registered with the group. */
    method CreateWithinGroup(group: ConsensusGroup) returns (node: Node, eventsRx: Channel)
      requires group.Valid()
      modifies group
      ensures fresh(node) && fresh(eventsRx) && eventsRx.events == []
      ensures node.eventsTx == eventsRx && node.consensusGroup == Some(group)
      ensures group.Valid()
      ensures group.consensused == old(group.consensused)
      ensures group.eventChannels == old(group.eventChannels) + [eventsRx]
      ensures group.View().logs == old(group.View().logs) + [[]]
    {
      eventsRx := new Channel();
      group.eventChannels := group.eventChannels + [eventsRx];
      node := new Node(eventsRx, Some(group));
      assert group.View().logs == old(group.View().logs) + [[]];
    }
  }

  /** In the mock's single section every name is ours, and no elders are known. */
  lemma SingleSection(node: Node, name: XorName)
    ensures node.MatchesOurPrefix(name) == Ok(true)
    ensures node.OurEldersInfo() == Some([])
    ensures node.ClosestKnownEldersTo(name) == Ok([])
  {
  }
}
