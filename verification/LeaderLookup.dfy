/**
 The stride-4 lookup against the simple one that looks at every slot, for a schedule
 aligned to four slots and for one shifted by the race between fetch and install.
 */
module LeaderLookup {
  import opened Wrappers
  import opened LeaderSchedule

  /** All slots from `lo` up to `hi`. */
  function AllSlots(lo: nat, hi: nat): (r: seq<nat>)
    requires lo <= hi
    ensures |r| == hi - lo && forall k | 0 <= k < |r| :: r[k] == lo + k
  {
    seq(hi - lo, k requires 0 <= k < hi - lo => lo + k)
  }

  /** The group of four that `slot` is in, when groups begin `shift` slots early. */
  function Group(slot: nat, shift: nat): nat {
    (slot + shift) / NUM_CONSECUTIVE_LEADER_SLOTS
  }

  predicate SameGroup(s: nat, t: nat, shift: nat) {
    Group(s, shift) == Group(t, shift)
  }

  /** In `lo..hi` a leader serves its whole group. */
  ghost predicate GroupsConstant(c: Cache, lo: nat, hi: nat, shift: nat) {
    forall s, t | lo <= s < hi && lo <= t < hi && SameGroup(s, t, shift) :: SlotLeader(c, s) == SlotLeader(c, t)
  }

  /** The end of the last of `count` groups, counting that of `current`. */
  function Horizon(current: nat, count: nat, shift: nat): int {
    NUM_CONSECUTIVE_LEADER_SLOTS * (Group(current, shift) + count) - shift
  }

  /** The groups that have a slot in `current..upTo`. */
  function GroupsBegun(current: nat, upTo: nat, shift: nat): nat
    requires current <= upTo
  {
    if upTo == current then 0 else Group(upTo - 1, shift) - Group(current, shift) + 1
  }

  /** The sockets found by looking at every slot of `lo..hi`. */
  function LookedUp(c: Cache, lo: nat, hi: nat): seq<Socket>
    requires lo <= hi
  {
    Dedup(Sockets(c, AllSlots(lo, hi)))
  }

  /** The sockets found by the first `count` probes. */
  function Probed(c: Cache, current: nat, count: nat): seq<Socket> {
    Dedup(Sockets(c, Probes(current, count)))
  }

  lemma {:induction false} SocketsInclude(c: Cache, slots: seq<nat>, i: nat)
    requires i < |slots|
    ensures SocketAt(c, slots[i]).Some? ==> SocketAt(c, slots[i]).value in Sockets(c, slots)
  {
    if i < |slots| - 1 {
      SocketsInclude(c, slots[..|slots| - 1], i);
    }
  }

  lemma {:induction false} SocketsOnlyOfSlots(c: Cache, slots: seq<nat>, socket: Socket) returns (i: nat)
    requires socket in Sockets(c, slots)
    ensures i < |slots| && SocketAt(c, slots[i]) == Some(socket)
  {
    i := |slots| - 1;
    if SocketAt(c, slots[i]) != Some(socket) {
      i := SocketsOnlyOfSlots(c, slots[..i], socket);
    }
  }

  lemma DedupSnoc<T>(s: seq<T>, x: T)
    ensures Dedup(s + [x]) == if x in Dedup(s) then Dedup(s) else Dedup(s) + [x]
  {
  }

  lemma SocketsSnoc(c: Cache, slots: seq<nat>, slot: nat)
    ensures SocketAt(c, slot).None? ==> Sockets(c, slots + [slot]) == Sockets(c, slots)
    ensures SocketAt(c, slot).Some? ==> Sockets(c, slots + [slot]) == Sockets(c, slots) + [SocketAt(c, slot).value]
  {
  }

  /** Looking at one more slot changes nothing if it is in the group of the slot before. */
  lemma SameGroupAddsNothing(c: Cache, current: nat, h: nat)
    requires current < h && SlotLeader(c, h) == SlotLeader(c, h - 1)
    ensures LookedUp(c, current, h + 1) == LookedUp(c, current, h)
  {
    var slots := AllSlots(current, h);
    assert AllSlots(current, h + 1) == slots + [h];
    SocketsSnoc(c, slots, h);
    if SocketAt(c, h).Some? {
      SocketsInclude(c, slots, |slots| - 1);
      DedupKeepsEach(Sockets(c, slots));
      DedupSnoc(Sockets(c, slots), SocketAt(c, h).value);
    }
  }

  /** The same step on both sides keeps them the same. */
  lemma SameSocketAdded(c: Cache, slots: seq<nat>, slot: nat, probes: seq<nat>, probe: nat)
    requires SlotLeader(c, slot) == SlotLeader(c, probe)
    requires Dedup(Sockets(c, slots)) == Dedup(Sockets(c, probes))
    ensures Dedup(Sockets(c, slots + [slot])) == Dedup(Sockets(c, probes + [probe]))
  {
    SocketsSnoc(c, slots, slot);
    SocketsSnoc(c, probes, probe);
    if SocketAt(c, slot).Some? {
      DedupSnoc(Sockets(c, slots), SocketAt(c, slot).value);
      DedupSnoc(Sockets(c, probes), SocketAt(c, slot).value);
    }
  }

  /** The first slot of a new group adds what the probe of that group adds. */
  lemma NewGroupAddsItsProbe(c: Cache, current: nat, h: nat, k: nat)
    requires current <= h
    requires SlotLeader(c, h) == SlotLeader(c, current + NUM_CONSECUTIVE_LEADER_SLOTS * k)
    requires LookedUp(c, current, h) == Probed(c, current, k)
    ensures LookedUp(c, current, h + 1) == Probed(c, current, k + 1)
  {
    var probe := current + NUM_CONSECUTIVE_LEADER_SLOTS * k;
    assert AllSlots(current, h + 1) == AllSlots(current, h) + [h];
    assert Probes(current, k + 1) == Probes(current, k) + [probe];
    SameSocketAdded(c, AllSlots(current, h), h, Probes(current, k), probe);
  }

  lemma GroupArithmetic(current: nat, h: nat, shift: nat)
    requires current <= h && shift < NUM_CONSECUTIVE_LEADER_SLOTS
    ensures Group(current, shift) <= Group(h, shift)
    ensures h > current ==> Group(h, shift) <= Group(h - 1, shift) + 1
  {
  }

  lemma ProbeGroup(current: nat, k: nat, shift: nat)
    ensures Group(current + NUM_CONSECUTIVE_LEADER_SLOTS * k, shift) == Group(current, shift) + k
  {
  }

  /** Below the horizon the groups are those of the probes. */
  lemma HorizonArithmetic(current: nat, count: nat, h: nat, shift: nat)
    requires shift < NUM_CONSECUTIVE_LEADER_SLOTS && current <= h
    ensures h < Horizon(current, count, shift) <==> Group(h, shift) < Group(current, shift) + count
  {
  }

  lemma NothingLookedUp(c: Cache, current: nat)
    ensures LookedUp(c, current, current) == Probed(c, current, 0)
  {
  }

  lemma {:induction false} ProbesSeeEveryGroup(c: Cache, current: nat, count: nat, shift: nat, end: nat, h: nat)
    requires shift < NUM_CONSECUTIVE_LEADER_SLOTS && end == Horizon(current, count, shift)
    requires GroupsConstant(c, current, end, shift)
    requires current <= h <= end
    ensures LookedUp(c, current, h) == Probed(c, current, GroupsBegun(current, h, shift))
    decreases h
  {
    if h == current {
      NothingLookedUp(c, current);
    } else {
      ProbesSeeEveryGroup(c, current, count, shift, end, h - 1);
      NextSlot(c, current, count, shift, end, h - 1);
    }
  }

  lemma NextSlot(c: Cache, current: nat, count: nat, shift: nat, end: nat, h: nat)
    requires shift < NUM_CONSECUTIVE_LEADER_SLOTS && end == Horizon(current, count, shift)
    requires GroupsConstant(c, current, end, shift)
    requires current <= h < end
    requires LookedUp(c, current, h) == Probed(c, current, GroupsBegun(current, h, shift))
    ensures LookedUp(c, current, h + 1) == Probed(c, current, GroupsBegun(current, h + 1, shift))
  {
    if h > current && SameGroup(h, h - 1, shift) {
      SameGroupAddsNothing(c, current, h);
    } else {
      var k := GroupsBegun(current, h, shift);
      var probe := current + NUM_CONSECUTIVE_LEADER_SLOTS * k;
      GroupArithmetic(current, h, shift);
      ProbeGroup(current, k, shift);
      HorizonArithmetic(current, count, h, shift);
      HorizonArithmetic(current, count, probe, shift);
      assert GroupsBegun(current, h + 1, shift) == k + 1 && SameGroup(h, probe, shift);
      NewGroupAddsItsProbe(c, current, h, k);
    }
  }

  /** What `get_unique_leader_sockets` returns. */
  function UniqueSockets(c: Cache, current: nat, fanout: nat): seq<Socket> {
    Dedup(Sockets(c, Probes(current, ProbeCount(fanout))))
  }

  lemma HorizonRange(current: nat, fanout: nat, shift: nat)
    requires shift < NUM_CONSECUTIVE_LEADER_SLOTS && fanout > 0
    ensures current < Horizon(current, ProbeCount(fanout), shift)
    ensures current + fanout - 3 <= Horizon(current, ProbeCount(fanout), shift) <= current + fanout + 3
    ensures GroupsBegun(current, Horizon(current, ProbeCount(fanout), shift), shift) == ProbeCount(fanout)
  {
  }

  /**
   Probing every fourth slot gives the very sequence that looking at every slot gives, up
   to the end of the last group probed.
   */
  lemma StrideLookupIsFullLookup(c: Cache, current: nat, fanout: nat, shift: nat, end: nat)
    requires shift < NUM_CONSECUTIVE_LEADER_SLOTS && fanout > 0
    requires end == Horizon(current, ProbeCount(fanout), shift)
    requires GroupsConstant(c, current, end, shift)
    ensures current < end && current + fanout - 3 <= end
    ensures UniqueSockets(c, current, fanout) == Dedup(Sockets(c, AllSlots(current, end)))
  {
    HorizonRange(current, fanout, shift);
    ProbesSeeEveryGroup(c, current, ProbeCount(fanout), shift, end, end);
  }

  /** So the known leader of every slot in the fanout, less three, gets the transaction. */
  lemma EveryLeaderIsServed(c: Cache, current: nat, fanout: nat, shift: nat, end: nat, slot: nat)
    requires shift < NUM_CONSECUTIVE_LEADER_SLOTS && fanout > 0
    requires end == Horizon(current, ProbeCount(fanout), shift)
    requires GroupsConstant(c, current, end, shift)
    requires current <= slot && (slot < end || slot < current + fanout - 3) && SocketAt(c, slot).Some?
    ensures SocketAt(c, slot).value in UniqueSockets(c, current, fanout)
  {
    StrideLookupIsFullLookup(c, current, fanout, shift, end);
    SocketsInclude(c, AllSlots(current, end), slot - current);
    DedupKeepsEach(Sockets(c, AllSlots(current, end)));
  }

  // ----- the race between fetch and install

  /** The cluster's schedule: who leads each slot; a leader serves a group of four. */
  type Schedule = nat -> Pubkey

  ghost predicate Aligned(sched: Schedule) {
    forall s: nat, t: nat | SameGroup(s, t, 0) :: sched(s) == sched(t)
  }

  /** The leaders of the slots from `first` on. */
  ghost predicate LeadersFrom(leaders: seq<Pubkey>, sched: Schedule, first: nat) {
    forall k | 0 <= k < |leaders| :: leaders[k] == sched(first + k)
  }

  /** The leaders were fetched for the slots from `fetched` on, and stand for those from `first_slot` on. */
  ghost predicate HoldsSchedule(c: Cache, sched: Schedule, fetched: nat) {
    LeadersFrom(c.leaders, sched, fetched)
  }

  /** A cached slot answers with the leader of a slot earlier by the drift between fetch and install. */
  lemma DriftedLookup(c: Cache, sched: Schedule, fetched: nat, slot: nat)
    requires HoldsSchedule(c, sched, fetched)
    requires c.firstSlot <= slot < c.firstSlot + |c.leaders|
    ensures var drift := c.firstSlot - fetched;
            slot - drift >= 0 && SlotLeader(c, slot) == Some(sched(slot - drift))
  {
  }

  /** Without drift every cached slot is exact; up to four slots of drift stay within the group before. */
  lemma SmallDriftIsNear(c: Cache, sched: Schedule, fetched: nat, slot: nat)
    requires HoldsSchedule(c, sched, fetched) && Aligned(sched)
    requires c.firstSlot <= slot < c.firstSlot + |c.leaders|
    requires 0 <= c.firstSlot - fetched <= 4
    ensures c.firstSlot == fetched ==> SlotLeader(c, slot) == Some(sched(slot))
    ensures || SlotLeader(c, slot) == Some(sched(slot))
            || (slot >= 4 && SlotLeader(c, slot) == Some(sched(slot - 4)))
  {
  }

  /** How early the cached groups begin for this drift. */
  function ShiftOf(drift: int): nat {
    (-drift) % NUM_CONSECUTIVE_LEADER_SLOTS
  }

  /** The drift shifts the groups but keeps them whole. */
  lemma DriftKeepsGroups(c: Cache, sched: Schedule, fetched: nat, lo: nat, hi: nat)
    requires HoldsSchedule(c, sched, fetched) && Aligned(sched)
    requires c.firstSlot <= lo && hi <= c.firstSlot + |c.leaders|
    ensures GroupsConstant(c, lo, hi, ShiftOf(c.firstSlot - fetched))
  {
    var shift := ShiftOf(c.firstSlot - fetched);
    forall s, t | lo <= s < hi && lo <= t < hi && SameGroup(s, t, shift)
      ensures SlotLeader(c, s) == SlotLeader(c, t)
    {
      DriftKeepsPair(c, sched, fetched, s, t);
    }
  }

  lemma DriftKeepsPair(c: Cache, sched: Schedule, fetched: nat, s: nat, t: nat)
    requires HoldsSchedule(c, sched, fetched) && Aligned(sched)
    requires c.firstSlot <= s < c.firstSlot + |c.leaders| && c.firstSlot <= t < c.firstSlot + |c.leaders|
    requires SameGroup(s, t, ShiftOf(c.firstSlot - fetched))
    ensures SlotLeader(c, s) == SlotLeader(c, t)
  {
  }

  /** By how many groups the real group of `slot` comes after the one that the first probe answers for. */
  function GroupsAhead(c: Cache, fetched: nat, current: nat, slot: nat): int
    requires c.firstSlot <= current
  {
    Group(slot, 0) - Group(current - (c.firstSlot - fetched), 0)
  }

  /** Some probe answers with the leader of `slot`. */
  predicate Reaches(c: Cache, fetched: nat, current: nat, fanout: nat, slot: nat)
    requires c.firstSlot <= current
  {
    var ahead := GroupsAhead(c, fetched, current, slot);
    && 0 <= ahead < ProbeCount(fanout)
    && current + NUM_CONSECUTIVE_LEADER_SLOTS * ahead < c.firstSlot + |c.leaders|
  }

  lemma ProbeAnswers(c: Cache, sched: Schedule, fetched: nat, current: nat, k: nat, slot: nat)
    requires HoldsSchedule(c, sched, fetched) && Aligned(sched) && c.firstSlot <= current
    requires current + NUM_CONSECUTIVE_LEADER_SLOTS * k < c.firstSlot + |c.leaders|
    ensures k == GroupsAhead(c, fetched, current, slot) ==>
              SlotLeader(c, current + NUM_CONSECUTIVE_LEADER_SLOTS * k) == Some(sched(slot))
    ensures SameGroup(fetched + (current + NUM_CONSECUTIVE_LEADER_SLOTS * k - c.firstSlot), slot, 0) <==>
              k == GroupsAhead(c, fetched, current, slot)
  {
    var first := current - (c.firstSlot - fetched);
    ProbeGroup(first, k, 0);
    assert fetched + (current + NUM_CONSECUTIVE_LEADER_SLOTS * k - c.firstSlot) == first + NUM_CONSECUTIVE_LEADER_SLOTS * k;
    DriftedLookup(c, sched, fetched, current + NUM_CONSECUTIVE_LEADER_SLOTS * k);
    assert k == GroupsAhead(c, fetched, current, slot) ==> SameGroup(first + NUM_CONSECUTIVE_LEADER_SLOTS * k, slot, 0);
  }

  /** A lookup after a refresh with any drift serves every known leader of the real schedule that a probe reaches. */
  lemma LookupDespiteDrift(c: Cache, sched: Schedule, fetched: nat, current: nat, fanout: nat, slot: nat)
    requires HoldsSchedule(c, sched, fetched) && Aligned(sched)
    requires c.firstSlot <= current && Reaches(c, fetched, current, fanout, slot)
    requires sched(slot) in c.leaderTpuMap
    ensures c.leaderTpuMap[sched(slot)] in UniqueSockets(c, current, fanout)
  {
    var k := GroupsAhead(c, fetched, current, slot);
    var probes := Probes(current, ProbeCount(fanout));
    ProbeAnswers(c, sched, fetched, current, k, slot);
    assert SocketAt(c, probes[k]) == Some(c.leaderTpuMap[sched(slot)]);
    SocketsInclude(c, probes, k);
    DedupKeepsEach(Sockets(c, probes));
  }

  /** The leader of `slot` has a socket, and no other group in the cache has the same. */
  ghost predicate OwnSocket(c: Cache, sched: Schedule, fetched: nat, slot: nat) {
    && sched(slot) in c.leaderTpuMap
    && forall k | 0 <= k < |c.leaders| && c.leaders[k] in c.leaderTpuMap
                  && c.leaderTpuMap[c.leaders[k]] == c.leaderTpuMap[sched(slot)] ::
         SameGroup(fetched + k, slot, 0)
  }

  /** And, of leaders with sockets of their own, it serves no other: exactly those that a probe reaches. */
  lemma ServedExactlyWhen(c: Cache, sched: Schedule, fetched: nat, current: nat, fanout: nat, slot: nat)
    requires HoldsSchedule(c, sched, fetched) && Aligned(sched) && c.firstSlot <= current
    requires OwnSocket(c, sched, fetched, slot)
    ensures c.leaderTpuMap[sched(slot)] in UniqueSockets(c, current, fanout) <==>
              Reaches(c, fetched, current, fanout, slot)
  {
    var probes := Probes(current, ProbeCount(fanout));
    if Reaches(c, fetched, current, fanout, slot) {
      LookupDespiteDrift(c, sched, fetched, current, fanout, slot);
    }
    if c.leaderTpuMap[sched(slot)] in UniqueSockets(c, current, fanout) {
      DedupKeepsEach(Sockets(c, probes));
      var i := SocketsOnlyOfSlots(c, probes, c.leaderTpuMap[sched(slot)]);
      ProbeAnswers(c, sched, fetched, current, i, slot);
    }
  }
}
