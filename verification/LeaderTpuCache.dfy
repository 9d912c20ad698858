/** `LeaderTpuCache` in its own form: the fields, the probing loops and the update. */
module LeaderTpuCache {
  import opened Wrappers
  import opened LeaderSchedule

  class LeaderTpuCache {
    const protocol: Protocol
    var firstSlot: nat
    var leaders: seq<Pubkey>
    var leaderTpuMap: map<Pubkey, Socket>
    var slotsInEpoch: nat
    var lastEpochInfoSlot: nat

    constructor (firstSlot: nat, slotsInEpoch: nat, leaders: seq<Pubkey>, clusterNodes: seq<ContactInfo>,
                 protocol: Protocol)
      ensures Model() == Cache(protocol, firstSlot, leaders, Extract(protocol, clusterNodes), slotsInEpoch, firstSlot)
    {
      this.protocol := protocol;
      this.firstSlot := firstSlot;
      this.leaders := leaders;
      this.leaderTpuMap := Extract(protocol, clusterNodes);
      this.slotsInEpoch := slotsInEpoch;
      this.lastEpochInfoSlot := firstSlot;
    }

    function Model(): Cache
      reads this
    {
      Cache(protocol, firstSlot, leaders, leaderTpuMap, slotsInEpoch, lastEpochInfoSlot)
    }

    /** Leaders are cached for the slots from the first to `lastSlot` and for no others, if for any. */
    method SlotInfo() returns (lastSlot: nat, epochInfoSlot: nat, epochSlots: nat)
      ensures forall slot: nat :: SlotLeader(Model(), slot).Some? <==> leaders != [] && firstSlot <= slot <= lastSlot
      ensures leaders == [] ==> lastSlot == firstSlot
      ensures lastSlot == LastSlot(Model()) && epochInfoSlot == lastEpochInfoSlot && epochSlots == slotsInEpoch
    {
      var behind := if |leaders| == 0 then 0 else |leaders| - 1;
      return firstSlot + behind, lastEpochInfoSlot, slotsInEpoch;
    }

    method GetSlotLeader(slot: nat) returns (leader: Option<Pubkey>)
      ensures leader == SlotLeader(Model(), slot)
    {
      if slot >= firstSlot {
        var index := slot - firstSlot;
        return if index < |leaders| then Some(leaders[index]) else None;
      }
      return None;
    }

    /** The sockets of the leaders of every fourth slot from the current one. */
    method GetLeaderSockets(estimatedCurrentSlot: nat, fanoutSlots: nat) returns (leaderSockets: seq<Socket>)
      ensures var first := if firstSlot <= estimatedCurrentSlot then estimatedCurrentSlot else firstSlot;
              leaderSockets == Sockets(Model(), Probes(first, ProbeCount(fanoutSlots)))
    {
      leaderSockets := [];
      var currentSlot := if estimatedCurrentSlot >= firstSlot then estimatedCurrentSlot else firstSlot;
      var leaderSlot := currentSlot;
      ghost var count: nat := 0;
      while leaderSlot < currentSlot + fanoutSlots
        invariant leaderSlot == currentSlot + NUM_CONSECUTIVE_LEADER_SLOTS * count
        invariant count <= ProbeCount(fanoutSlots)
        invariant leaderSockets == Sockets(Model(), Probes(currentSlot, count))
        decreases currentSlot + fanoutSlots - leaderSlot
      {
        var leader := GetSlotLeader(leaderSlot);
        if leader.Some? {
          if leader.value in leaderTpuMap {
            leaderSockets := leaderSockets + [leaderTpuMap[leader.value]];
          }
        }
        assert Probes(currentSlot, count + 1)[..count] == Probes(currentSlot, count);
        leaderSlot := leaderSlot + NUM_CONSECUTIVE_LEADER_SLOTS;
        count := count + 1;
      }
    }

    /** The same, each socket only where it first occurs. */
    method GetUniqueLeaderSockets(estimatedCurrentSlot: nat, fanoutSlots: nat) returns (uniqueSockets: seq<Socket>)
      ensures var first := if firstSlot <= estimatedCurrentSlot then estimatedCurrentSlot else firstSlot;
              uniqueSockets == Dedup(Sockets(Model(), Probes(first, ProbeCount(fanoutSlots))))
    {
      var allLeaderSockets := GetLeaderSockets(estimatedCurrentSlot, fanoutSlots);
      uniqueSockets := [];
      var seen: set<Socket> := {};
      for i := 0 to |allLeaderSockets|
        invariant uniqueSockets == Dedup(allLeaderSockets[..i])
        invariant forall x :: x in seen <==> x in uniqueSockets
      {
        var socket := allLeaderSockets[i];
        assert allLeaderSockets[..i + 1][..i] == allLeaderSockets[..i];
        if socket !in seen {
          seen := seen + {socket};
          uniqueSockets := uniqueSockets + [socket];
        }
      }
      assert allLeaderSockets[..|allLeaderSockets|] == allLeaderSockets;
    }

    method UpdateFrom(estimatedCurrentSlot: nat, info: UpdateInfo) returns (hasError: bool, clusterRefreshed: bool)
      modifies this
      ensures Model() == UpdateAll(old(Model()), estimatedCurrentSlot, info)
      ensures TookIn(old(Model()), Model(), estimatedCurrentSlot, info)
      ensures hasError <==> || (info.clusterNodes.Some? && info.clusterNodes.value.Err?)
                            || (info.slotLeaders.Some? && info.slotLeaders.value.Err?)
      ensures clusterRefreshed <==> info.clusterNodes.Some? && info.clusterNodes.value.Ok?
    {
      hasError, clusterRefreshed := false, false;
      if info.clusterNodes.Some? {
        match info.clusterNodes.value {
          case Ok(nodes) =>
            leaderTpuMap := Extract(protocol, nodes);
            clusterRefreshed := true;
          case Err(_) =>
            hasError := true;
        }
      }
      if info.epochInfo.Some? && info.epochInfo.value.Ok? {
        slotsInEpoch := info.epochInfo.value.value.slotsInEpoch;
        lastEpochInfoSlot := estimatedCurrentSlot;
      }
      if info.slotLeaders.Some? {
        match info.slotLeaders.value {
          case Ok(slotLeaders) =>
            firstSlot := estimatedCurrentSlot;
            leaders := slotLeaders;
          case Err(_) =>
            hasError := true;
        }
      }
    }
  }
}
