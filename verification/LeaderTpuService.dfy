/** The refresher loop, the slot watcher loop and the senders' lookup over the shared objects. */
module LeaderTpuService {
  import opened Wrappers
  import opened LeaderSchedule
  import opened LeaderLookup
  import opened CacheRefresh
  import SlotEstimate
  import SlotWindow
  import RecentLeaderSlots
  import LeaderTpuCache

  const DEFAULT_MS_PER_SLOT: nat := 400
  const RETRY_MS: nat := 100
  const U64_MAX: nat := 0xFFFF_FFFF_FFFF_FFFF

  datatype SlotUpdate = Completed(slot: nat) | FirstShredReceived(slot: nat) | Other

  /** What the watcher records for an update: a completed slot means the next one is current. */
  function SlotOf(update: SlotUpdate): Option<nat> {
    match update
    case Completed(slot) => Some(if slot < U64_MAX then slot + 1 else U64_MAX)
    case FirstShredReceived(slot) => Some(slot)
    case Other => None
  }

  function WatchedSlots(updates: seq<SlotUpdate>): seq<nat> {
    if updates == [] then []
    else
      var slot := SlotOf(updates[|updates| - 1]);
      WatchedSlots(updates[..|updates| - 1]) + if slot.Some? then [slot.value] else []
  }

  lemma {:induction false} WatchedConcat(a: seq<SlotUpdate>, b: seq<SlotUpdate>)
    ensures WatchedSlots(a + b) == WatchedSlots(a) + WatchedSlots(b)
  {
    if b == [] {
      assert a + b == a;
    } else {
      assert (a + b)[..|a + b| - 1] == a + b[..|b| - 1];
      WatchedConcat(a, b[..|b| - 1]);
    }
  }

  lemma {:induction false} AllWatched(updates: seq<SlotUpdate>)
    requires forall i | 0 <= i < |updates| :: SlotOf(updates[i]).Some?
    ensures |WatchedSlots(updates)| == |updates|
    ensures forall i | 0 <= i < |updates| :: WatchedSlots(updates)[i] == SlotOf(updates[i]).value
  {
    if updates != [] {
      AllWatched(updates[..|updates| - 1]);
    }
  }

  /**
   What is recorded, without reference to `SlotOf`: for each first shred its slot, for each
   completed slot the next one as far as there is one, in order, and nothing else.
   */
  lemma {:induction false} RecordedInPlace(updates: seq<SlotUpdate>, i: nat)
    requires i < |updates| && !updates[i].Other?
    ensures |WatchedSlots(updates[..i])| < |WatchedSlots(updates)|
    ensures WatchedSlots(updates)[|WatchedSlots(updates[..i])|] ==
              match updates[i]
              case FirstShredReceived(slot) => slot
              case Completed(slot) => if slot < 0xFFFF_FFFF_FFFF_FFFF then slot + 1 else 0xFFFF_FFFF_FFFF_FFFF
              case Other => 0
  {
    var n := |updates| - 1;
    if i < n {
      RecordedInPlace(updates[..n], i);
      assert updates[..n][..i] == updates[..i] && updates[..n][i] == updates[i];
    }
  }

  function Telling(updates: seq<SlotUpdate>, n: nat): set<nat>
    requires n <= |updates|
  {
    set i | 0 <= i < n && !updates[i].Other?
  }

  lemma {:induction false} RecordedCount(updates: seq<SlotUpdate>, n: nat)
    requires n <= |updates|
    ensures |WatchedSlots(updates[..n])| == |Telling(updates, n)|
  {
    if n > 0 {
      RecordedCount(updates, n - 1);
      assert updates[..n][..n - 1] == updates[..n - 1];
      assert Telling(updates, n) == Telling(updates, n - 1) + if updates[n - 1].Other? then {} else {n - 1};
    }
  }

  /** The update does not speak of a slot after `high`: a completed slot has one after it. */
  predicate NotAhead(update: SlotUpdate, high: nat) {
    match update
    case Completed(slot) => slot < high
    case FirstShredReceived(slot) => slot <= high
    case Other => true
  }

  lemma {:induction false} WatchedNotAhead(updates: seq<SlotUpdate>, high: nat)
    requires forall i | 0 <= i < |updates| :: NotAhead(updates[i], high)
    ensures forall j | 0 <= j < |WatchedSlots(updates)| :: WatchedSlots(updates)[j] <= high
  {
    if updates != [] {
      WatchedNotAhead(updates[..|updates| - 1], high);
    }
  }

  lemma NoneAbove(start: nat, feed: seq<nat>, high: nat)
    requires start <= high && forall j | 0 <= j < |feed| :: feed[j] <= high
    ensures RecordAllSlots([start], feed) != []
    ensures forall k | 0 <= k < |RecordAllSlots([start], feed)| :: RecordAllSlots([start], feed)[k] <= high
  {
    SlotWindow.WindowContents(start, feed);
  }

  /** As long as no update is ahead of `high`, neither is the estimate, whatever the updates are. */
  lemma EstimateNotAhead(start: nat, updates: seq<SlotUpdate>, high: nat)
    requires start <= high && forall i | 0 <= i < |updates| :: NotAhead(updates[i], high)
    ensures RecordAllSlots([start], WatchedSlots(updates)) != []
    ensures SlotWindow.Estimate(RecordAllSlots([start], WatchedSlots(updates))) <= high
  {
    WatchedNotAhead(updates, high);
    NoneAbove(start, WatchedSlots(updates), high);
    SlotWindow.EstimateWithin(RecordAllSlots([start], WatchedSlots(updates)));
  }

  /** A slot begun among seven updates close to one another is not skipped: the estimate is not below it. */
  lemma BegunSlotIsReached(start: nat, earlier: seq<SlotUpdate>, recent: seq<SlotUpdate>, low: nat, slot: nat)
    requires |recent| == SlotEstimate.QUORUM
    requires forall i | 0 <= i < |recent| ::
               SlotOf(recent[i]).Some? && low <= SlotOf(recent[i]).value <= low + SlotEstimate.MIN_SPREAD
    requires FirstShredReceived(slot) in recent
    ensures RecordAllSlots([start], WatchedSlots(earlier + recent)) != []
    ensures slot <= SlotWindow.Estimate(RecordAllSlots([start], WatchedSlots(earlier + recent)))
  {
    var last := WatchedSlots(recent);
    WatchedConcat(earlier, recent);
    AllWatched(recent);
    var i :| 0 <= i < |recent| && recent[i] == FirstShredReceived(slot);
    SlotEstimate.NoneOfSevenIsAhead(start, WatchedSlots(earlier), last, low, i);
  }

  /** If moreover no update was ahead of it, the estimate is that very slot. */
  lemma BegunSlotIsTheEstimate(start: nat, earlier: seq<SlotUpdate>, recent: seq<SlotUpdate>, low: nat, slot: nat)
    requires |recent| == SlotEstimate.QUORUM
    requires forall i | 0 <= i < |recent| ::
               SlotOf(recent[i]).Some? && low <= SlotOf(recent[i]).value <= low + SlotEstimate.MIN_SPREAD
    requires FirstShredReceived(slot) in recent
    requires start <= slot && forall i | 0 <= i < |earlier + recent| :: NotAhead((earlier + recent)[i], slot)
    ensures RecordAllSlots([start], WatchedSlots(earlier + recent)) != []
    ensures SlotWindow.Estimate(RecordAllSlots([start], WatchedSlots(earlier + recent))) == slot
  {
    EstimateNotAhead(start, earlier + recent, slot);
    BegunSlotIsReached(start, earlier, recent, low, slot);
  }

  /** A slot reported complete among seven updates close to one another is no longer sent to. */
  lemma CompletedSlotIsPassed(start: nat, earlier: seq<SlotUpdate>, recent: seq<SlotUpdate>, low: nat, slot: nat)
    requires |recent| == SlotEstimate.QUORUM
    requires forall i | 0 <= i < |recent| ::
               SlotOf(recent[i]).Some? && low <= SlotOf(recent[i]).value <= low + SlotEstimate.MIN_SPREAD
    requires Completed(slot) in recent && slot < U64_MAX
    ensures RecordAllSlots([start], WatchedSlots(earlier + recent)) != []
    ensures SlotWindow.Estimate(RecordAllSlots([start], WatchedSlots(earlier + recent))) > slot
  {
    var last := WatchedSlots(recent);
    WatchedConcat(earlier, recent);
    AllWatched(recent);
    var i :| 0 <= i < |recent| && recent[i] == Completed(slot);
    SlotEstimate.NoneOfSevenIsAhead(start, WatchedSlots(earlier), last, low, i);
  }

  /** One turn of the refresher: what the watcher sees before the fetch and before the install, and the answers. */
  datatype Turn = Turn(before: seq<SlotUpdate>, fetch: Event, between: seq<SlotUpdate>)

  /** Turn `i` fetched and installed, in its place in the run. */
  ghost predicate TurnDone(events: seq<Event>, i: nat, turn: Turn) {
    && |events| >= 4 * i + 4
    && events[4 * i + 1] == turn.fetch && events[4 * i + 3] == Install
  }

  lemma TurnAppended(events: seq<Event>, more: seq<Event>, i: nat, turns: seq<Turn>)
    requires i < |turns| && |events| == 4 * i && |more| == 4
    requires forall j | 0 <= j < i :: TurnDone(events, j, turns[j])
    requires more[1] == turns[i].fetch && more[3] == Install
    ensures forall j | 0 <= j <= i :: TurnDone(events + more, j, turns[j])
  {
  }

  lemma RecordSnoc(w: seq<nat>, feed: seq<nat>, slot: nat)
    ensures RecordAllSlots(w, feed + [slot]) == SlotWindow.Record(RecordAllSlots(w, feed), slot)
  {
  }

  lemma WatchOne(updates: seq<SlotUpdate>, i: nat, w: seq<nat>)
    requires i < |updates|
    ensures var feed := WatchedSlots(updates[..i]);
            RecordAllSlots(w, WatchedSlots(updates[..i + 1])) ==
              if SlotOf(updates[i]).Some? then SlotWindow.Record(RecordAllSlots(w, feed), SlotOf(updates[i]).value)
              else RecordAllSlots(w, feed)
  {
    assert updates[..i + 1][..i] == updates[..i];
    var feed := WatchedSlots(updates[..i]);
    if SlotOf(updates[i]).Some? {
      RecordSnoc(w, feed, SlotOf(updates[i]).value);
    } else {
      assert feed + [] == feed;
    }
  }

  function RecordAllSlots(w: seq<nat>, feed: seq<nat>): seq<nat> {
    SlotWindow.RecordAll(w, feed)
  }

  class LeaderTpuService {
    const recentSlots: RecentLeaderSlots.RecentLeaderSlots
    const cache: LeaderTpuCache.LeaderTpuCache

    constructor (startSlot: nat, slotsInEpoch: nat, leaders: seq<Pubkey>, nodes: seq<ContactInfo>, protocol: Protocol)
      ensures fresh(recentSlots) && fresh(cache)
      ensures recentSlots.slots == [startSlot]
      ensures cache.Model() == Cache(protocol, startSlot, leaders, Extract(protocol, nodes), slotsInEpoch, startSlot)
    {
      recentSlots := new RecentLeaderSlots.RecentLeaderSlots(startSlot);
      cache := new LeaderTpuCache.LeaderTpuCache(startSlot, slotsInEpoch, leaders, nodes, protocol);
    }

    /** What the model sees of the service, `fetchedAt` and `checkedAt` being history. */
    ghost predicate Matches(r: Refresher)
      reads recentSlots, cache
    {
      && recentSlots.slots != []
      && r.cache == cache.Model() && r.estimate == SlotWindow.Estimate(recentSlots.slots)
    }

    /** `run_slot_watcher`, for the updates of one stretch of time. */
    method RunSlotWatcher(updates: seq<SlotUpdate>)
      requires recentSlots.slots != []
      modifies recentSlots
      ensures recentSlots.slots == RecordAllSlots(old(recentSlots.slots), WatchedSlots(updates))
      ensures recentSlots.slots != []
    {
      ghost var before := recentSlots.slots;
      for i := 0 to |updates|
        invariant recentSlots.slots == RecordAllSlots(before, WatchedSlots(updates[..i]))
        invariant recentSlots.slots != []
      {
        WatchOne(updates, i, before);
        var slot: Option<nat>;
        match updates[i] {
          case Completed(completed) => slot := Some(if completed < U64_MAX then completed + 1 else U64_MAX);
          case FirstShredReceived(begun) => slot := Some(begun);
          case Other => slot := None;
        }
        assert slot == SlotOf(updates[i]);
        if slot.Some? {
          recentSlots.RecordSlot(slot.value);
        }
      }
      assert updates[..|updates|] == updates;
    }

    /** `maybe_fetch_cache_info`: `fetch` holds the cluster timer and the answers the server would give. */
    method MaybeFetchCacheInfo(fetch: Event) returns (info: UpdateInfo)
      requires recentSlots.slots != [] && fetch.Fetch?
      ensures info == FetchInfo(cache.Model(), SlotWindow.Estimate(recentSlots.slots), fetch)
      ensures info.clusterNodes == if fetch.clusterDue then Some(fetch.nodes) else None
    {
      var nodes: Reply<seq<ContactInfo>> := if fetch.clusterDue then Some(fetch.nodes) else None;
      var estimatedCurrentSlot := recentSlots.EstimatedCurrentSlot();
      var lastSlot, lastEpochInfoSlot, slotsInEpoch := cache.SlotInfo();
      var epoch: Reply<EpochInfo> := None;
      if estimatedCurrentSlot >= SaturatingSub(lastEpochInfoSlot, slotsInEpoch) {
        epoch := Some(fetch.epoch);
      }
      var leaders: Reply<seq<Pubkey>> := None;
      if estimatedCurrentSlot >= SaturatingSub(lastSlot, MAX_FANOUT_SLOTS) {
        leaders := Some(fetch.leaders);
      }
      return UpdateInfo(nodes, epoch, leaders);
    }

    /** One turn of the loop in `run_cache_refresher`. */
    method RefreshOnce(turn: Turn, ghost r: Refresher)
      returns (sleepMs: nat, clusterRefreshed: bool, info: UpdateInfo, ghost events: seq<Event>)
      requires Matches(r) && r.pending == None && turn.fetch.Fetch?
      modifies recentSlots, cache
      ensures Legal(r, events) && Matches(Run(r, events)) && Run(r, events).pending == None
      ensures |events| == 4 && events[1] == turn.fetch && events[3] == Install
      ensures Enabled(r, events[0]) && Enabled(Apply(r, events[0]), events[1])
      ensures Apply(Apply(r, events[0]), events[1]).pending.value.info == info
      ensures TookIn(old(cache.Model()), cache.Model(), SlotWindow.Estimate(recentSlots.slots), info)
      ensures sleepMs == if || (info.clusterNodes.Some? && info.clusterNodes.value.Err?)
                            || (info.slotLeaders.Some? && info.slotLeaders.value.Err?)
                         then 100 else 400
      ensures clusterRefreshed <==> info.clusterNodes.Some? && info.clusterNodes.value.Ok?
    {
      sleepMs, clusterRefreshed := DEFAULT_MS_PER_SLOT, false;
      RunSlotWatcher(turn.before);
      ghost var e0 := SlotSeen(SlotWindow.Estimate(recentSlots.slots));
      info := MaybeFetchCacheInfo(turn.fetch);
      RunSlotWatcher(turn.between);
      ghost var e2 := SlotSeen(SlotWindow.Estimate(recentSlots.slots));
      if HasSome(info) {
        var estimate := recentSlots.EstimatedCurrentSlot();
        var hasError;
        hasError, clusterRefreshed := cache.UpdateFrom(estimate, info);
        if hasError {
          sleepMs := RETRY_MS;
        }
      }
      events := [e0, turn.fetch, e2, Install];
      FourSteps(r, e0, turn.fetch, e2, Install);
    }

    /** `run_cache_refresher`: whatever the watcher does meanwhile, a run of the model. */
    method RunCacheRefresher(turns: seq<Turn>, ghost r: Refresher) returns (ghost events: seq<Event>)
      requires Matches(r) && r.pending == None
      requires forall i | 0 <= i < |turns| :: turns[i].fetch.Fetch?
      modifies recentSlots, cache
      ensures Legal(r, events) && Matches(Run(r, events)) && Run(r, events).pending == None
      ensures |events| == 4 * |turns|
      ensures forall i | 0 <= i < |turns| :: TurnDone(events, i, turns[i])
    {
      events := [];
      for i := 0 to |turns|
        invariant |events| == 4 * i
        invariant forall j | 0 <= j < i :: TurnDone(events, j, turns[j])
        invariant Legal(r, events) && Matches(Run(r, events)) && Run(r, events).pending == None
      {
        var sleepMs, clusterRefreshed, info;
        ghost var more;
        ghost var now := Run(r, events);
        sleepMs, clusterRefreshed, info, more := RefreshOnce(turns[i], now);
        RunAppend(r, events, more);
        TurnAppended(events, more, i, turns);
        events := events + more;
      }
    }

    /** `unique_leader_tpu_sockets`, with the fanout the client clamps to 1..100. */
    method UniqueLeaderTpuSockets(fanoutSlots: nat) returns (sockets: seq<Socket>)
      requires recentSlots.slots != []
      ensures sockets ==
                UniqueSockets(cache.Model(),
                              Max(SlotWindow.Estimate(recentSlots.slots), cache.firstSlot),
                              Max(1, Min(fanoutSlots, MAX_FANOUT_SLOTS)))
    {
      var clamped := if fanoutSlots < 1 then 1 else if fanoutSlots > MAX_FANOUT_SLOTS then MAX_FANOUT_SLOTS else fanoutSlots;
      var currentSlot := recentSlots.EstimatedCurrentSlot();
      sockets := cache.GetUniqueLeaderSockets(currentSlot, clamped);
    }
  }

  lemma FourSteps(r: Refresher, e0: Event, e1: Event, e2: Event, e3: Event)
    requires Enabled(r, e0) && Enabled(Apply(r, e0), e1) && Enabled(Apply(Apply(r, e0), e1), e2)
    requires Enabled(Apply(Apply(Apply(r, e0), e1), e2), e3)
    ensures Legal(r, [e0, e1, e2, e3])
    ensures Run(r, [e0, e1, e2, e3]) == Apply(Apply(Apply(Apply(r, e0), e1), e2), e3)
  {
    RunSnoc(r, [], e0);
    RunSnoc(r, [e0], e1);
    RunSnoc(r, [e0, e1], e2);
    RunSnoc(r, [e0, e1, e2], e3);
    assert [] + [e0] == [e0];
    assert [e0] + [e1] == [e0, e1];
    assert [e0, e1] + [e2] == [e0, e1, e2];
    assert [e0, e1, e2] + [e3] == [e0, e1, e2, e3];
  }
}
