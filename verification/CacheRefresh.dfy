/**
 The cache refresher beside the slot watcher and the senders.  The refresher reads the
 estimate when it decides what to fetch and again when it installs the replies; the slot
 watcher may move the estimate at any time, also in between.
 */
module CacheRefresh {
  import opened Wrappers
  import opened LeaderSchedule
  import opened LeaderLookup

  /** A fetch whose replies are not installed yet, with the estimate it was made at. */
  datatype Pending = Pending(estimate: nat, info: UpdateInfo)

  /**
   `fetchedAt` is the estimate at which the cached leaders were fetched; `checkedAt` is that of
   the last check that found the leaders sufficient or installed new ones.  The code stores neither.
   */
  datatype Refresher = Refresher(
    cache: Cache, estimate: nat, pending: Option<Pending>, fetchedAt: nat, checkedAt: nat)

  datatype Event =
    | SlotSeen(estimate: nat)
    | Fetch(clusterDue: bool,
            nodes: Result<seq<ContactInfo>, RpcError>,
            epoch: Result<EpochInfo, RpcError>,
            leaders: Result<seq<Pubkey>, RpcError>)
    | Install

  function SaturatingSub(a: nat, b: nat): nat {
    if a >= b then a - b else 0
  }

  predicate EpochInfoDue(c: Cache, estimate: nat) {
    estimate >= SaturatingSub(c.lastEpochInfoSlot, c.slotsInEpoch)
  }

  predicate LeadersDue(c: Cache, estimate: nat) {
    estimate >= SaturatingSub(LastSlot(c), MAX_FANOUT_SLOTS)
  }

  /** `maybe_fetch_cache_info`, given what the server would answer. */
  function FetchInfo(c: Cache, estimate: nat, e: Event): UpdateInfo
    requires e.Fetch?
  {
    UpdateInfo(
      if e.clusterDue then Some(e.nodes) else None,
      if EpochInfoDue(c, estimate) then Some(e.epoch) else None,
      if LeadersDue(c, estimate) then Some(e.leaders) else None)
  }

  predicate HasSome(info: UpdateInfo) {
    info.clusterNodes.Some? || info.epochInfo.Some? || info.slotLeaders.Some?
  }

  predicate Enabled(r: Refresher, e: Event) {
    match e
    case SlotSeen(_) => true
    case Fetch(_, _, _, _) => r.pending.None?
    case Install => r.pending.Some?
  }

  function Apply(r: Refresher, e: Event): Refresher
    requires Enabled(r, e)
  {
    match e
    case SlotSeen(estimate) => r.(estimate := estimate)
    case Fetch(_, _, _, _) => r.(pending := Some(Pending(r.estimate, FetchInfo(r.cache, r.estimate, e))))
    case Install =>
      var info := r.pending.value.info;
      var r' := r.(pending := None,
                   cache := if HasSome(info) then UpdateAll(r.cache, r.estimate, info) else r.cache);
      if info.slotLeaders.None? then r'.(checkedAt := r.pending.value.estimate)
      else if info.slotLeaders.value.Ok? then r'.(checkedAt := r.estimate, fetchedAt := r.pending.value.estimate)
      else r'
  }

  predicate Legal(r: Refresher, es: seq<Event>)
    decreases |es|
  {
    es == [] || (Enabled(r, es[0]) && Legal(Apply(r, es[0]), es[1..]))
  }

  function Run(r: Refresher, es: seq<Event>): Refresher
    requires Legal(r, es)
    decreases |es|
  {
    if es == [] then r else Run(Apply(r, es[0]), es[1..])
  }

  lemma {:induction false} RunAppend(r: Refresher, es: seq<Event>, fs: seq<Event>)
    requires Legal(r, es) && Legal(Run(r, es), fs)
    ensures Legal(r, es + fs) && Run(r, es + fs) == Run(Run(r, es), fs)
    decreases |es|
  {
    if es == [] {
      assert es + fs == fs;
    } else {
      assert (es + fs)[0] == es[0] && (es + fs)[1..] == es[1..] + fs;
      RunAppend(Apply(r, es[0]), es[1..], fs);
    }
  }

  lemma RunSnoc(r: Refresher, es: seq<Event>, e: Event)
    requires Legal(r, es) && Enabled(Run(r, es), e)
    ensures Legal(r, es + [e]) && Run(r, es + [e]) == Apply(Run(r, es), e)
  {
    assert [e][1..] == [];
    RunAppend(r, es, [e]);
  }

  // ----- what is asked for and what comes of it

  /**
   In every run, a check asks for the contact entries exactly when the timer is due, for the epoch
   info exactly when the estimate has fallen by no more than an epoch, and for the leaders exactly
   when no more than 100 slots are left, from the estimate on; it keeps each reply asked for as it is.
   */
  lemma CheckAsksExactlyWhen(r: Refresher, es: seq<Event>, e: Event)
    requires Legal(r, es) && e.Fetch? && Run(r, es).pending == None
    ensures Legal(r, es + [e]) && Run(r, es + [e]).pending.Some?
    ensures Run(r, es + [e]).cache == Run(r, es).cache
    ensures Run(r, es + [e]).pending.value.estimate == Run(r, es).estimate
    ensures var info := Run(r, es + [e]).pending.value.info;
            && (info.clusterNodes.Some? <==> e.clusterDue)
            && (info.clusterNodes.Some? ==> info.clusterNodes.value == e.nodes)
    ensures var c := Run(r, es).cache;
            var info := Run(r, es + [e]).pending.value.info;
            && (info.epochInfo.Some? <==> c.lastEpochInfoSlot - Run(r, es).estimate <= c.slotsInEpoch)
            && (info.epochInfo.Some? ==> info.epochInfo.value == e.epoch)
    ensures var c := Run(r, es).cache;
            var info := Run(r, es + [e]).pending.value.info;
            && (info.slotLeaders.Some? <==> LastSlot(c) - Run(r, es).estimate <= 100)
            && (info.slotLeaders.Some? ==> info.slotLeaders.value == e.leaders)
  {
    RunSnoc(r, es, e);
  }

  /** The replies installed in a run, each with the estimate of its install. */
  function Updates(r: Refresher, es: seq<Event>): seq<Update>
    requires Legal(r, es)
    decreases |es|
  {
    if es == [] then []
    else
      (if es[0].Install? then [Update(r.estimate, r.pending.value.info)] else []) + Updates(Apply(r, es[0]), es[1..])
  }

  lemma OneUpdate(c: Cache, u: Update)
    ensures UpdateMany(c, [u]) == UpdateAll(c, u.estimate, u.info)
  {
    assert [u][..0] == [];
  }

  /** The cache is always what the installed replies make of it: none is dropped, whatever kinds it has. */
  lemma {:induction false} CacheIsWhatWasInstalled(r: Refresher, es: seq<Event>)
    requires Legal(r, es)
    ensures Run(r, es).cache == UpdateMany(r.cache, Updates(r, es))
    decreases |es|
  {
    if es != [] {
      var r' := Apply(r, es[0]);
      CacheIsWhatWasInstalled(r', es[1..]);
      if es[0].Install? {
        var u := Update(r.estimate, r.pending.value.info);
        OneUpdate(r.cache, u);
        UpdateManyAppend(r.cache, [u], Updates(r', es[1..]));
      } else {
        assert [] + Updates(r', es[1..]) == Updates(r', es[1..]);
      }
    }
  }

  /** In every run, an install takes each good reply of the last fetch into the cache and leaves the rest alone. */
  lemma InstallTakesInGoodReplies(r: Refresher, es: seq<Event>)
    requires Legal(r, es) && Run(r, es).pending.Some?
    ensures Legal(r, es + [Install]) && Run(r, es + [Install]).pending == None
    ensures TookIn(Run(r, es).cache, Run(r, es + [Install]).cache, Run(r, es).estimate, Run(r, es).pending.value.info)
  {
    RunSnoc(r, es, Install);
  }

  // ----- what the server answers

  /** Good replies are right: the leaders of the slots from the estimate on, of however many slots. */
  ghost predicate RightReplies(r: Refresher, es: seq<Event>, sched: Schedule)
    requires Legal(r, es)
    decreases |es|
  {
    es == [] ||
    (&& (es[0].Fetch? && es[0].leaders.Ok? ==> LeadersFrom(es[0].leaders.value, sched, r.estimate))
     && RightReplies(Apply(r, es[0]), es[1..], sched))
  }

  const FULL: nat := 2 * MAX_FANOUT_SLOTS

  /** Good replies are full: as many leaders as asked for, and epochs that do not limit what is asked for. */
  predicate FullReplies(r: Refresher, es: seq<Event>)
    requires Legal(r, es)
    decreases |es|
  {
    es == [] ||
    (&& (es[0].Fetch? && es[0].epoch.Ok? ==> es[0].epoch.value.slotsInEpoch >= FULL)
     && (es[0].Fetch? && es[0].leaders.Ok? ==> |es[0].leaders.value| == Fanout(r.cache.slotsInEpoch))
     && FullReplies(Apply(r, es[0]), es[1..]))
  }

  /** As the service starts: leaders asked for from the start slot on. */
  predicate Started(r: Refresher) {
    && r.cache.firstSlot == r.estimate == r.fetchedAt == r.checkedAt == r.cache.lastEpochInfoSlot
    && r.pending == None
  }

  /** The first reply is right. */
  ghost predicate Initial(r: Refresher, sched: Schedule) {
    Started(r) && HoldsSchedule(r.cache, sched, r.fetchedAt)
  }

  /** The first reply is full as well. */
  predicate FullStart(r: Refresher) {
    r.cache.slotsInEpoch >= FULL && |r.cache.leaders| == Fanout(r.cache.slotsInEpoch)
  }

  // ----- alignment

  /** The cached leaders, and those about to be installed, are the schedule from their fetch on. */
  ghost predicate Holds(r: Refresher, sched: Schedule) {
    && HoldsSchedule(r.cache, sched, r.fetchedAt)
    && (r.pending.Some? && Succeeded(r.pending.value.info.slotLeaders) ==>
          LeadersFrom(r.pending.value.info.slotLeaders.value.value, sched, r.pending.value.estimate))
  }

  lemma {:induction false} HoldsInRuns(r: Refresher, es: seq<Event>, sched: Schedule)
    requires Holds(r, sched) && Legal(r, es) && RightReplies(r, es, sched)
    ensures Holds(Run(r, es), sched)
    decreases |es|
  {
    if es != [] {
      HoldsInRuns(Apply(r, es[0]), es[1..], sched);
    }
  }

  /** In every state each cached slot answers with the leader of the slot earlier by the drift of the last install. */
  lemma CachedLeadersAreTheSchedule(r: Refresher, es: seq<Event>, sched: Schedule, slot: nat)
    requires Initial(r, sched) && Legal(r, es) && RightReplies(r, es, sched)
    requires var c := Run(r, es).cache; c.firstSlot <= slot < c.firstSlot + |c.leaders|
    ensures var t := Run(r, es);
            var drift := t.cache.firstSlot - t.fetchedAt;
            slot - drift >= 0 && SlotLeader(t.cache, slot) == Some(sched(slot - drift))
  {
    HoldsInRuns(r, es, sched);
    DriftedLookup(Run(r, es).cache, sched, Run(r, es).fetchedAt, slot);
  }

  /**
   As long as the last install was within four slots of its fetch, each cached slot answers
   with the leader of its group or of the group before.
   */
  lemma SmallDriftStaysNear(r: Refresher, es: seq<Event>, sched: Schedule, slot: nat)
    requires Initial(r, sched) && Aligned(sched) && Legal(r, es) && RightReplies(r, es, sched)
    requires var c := Run(r, es).cache; c.firstSlot <= slot < c.firstSlot + |c.leaders|
    requires 0 <= Run(r, es).cache.firstSlot - Run(r, es).fetchedAt <= NUM_CONSECUTIVE_LEADER_SLOTS
    ensures var t := Run(r, es);
            && (t.cache.firstSlot == t.fetchedAt ==> SlotLeader(t.cache, slot) == Some(sched(slot)))
            && (|| SlotLeader(t.cache, slot) == Some(sched(slot))
                || (slot >= 4 && SlotLeader(t.cache, slot) == Some(sched(slot - 4))))
  {
    HoldsInRuns(r, es, sched);
    SmallDriftIsNear(Run(r, es).cache, sched, Run(r, es).fetchedAt, slot);
  }

  // ----- look-ahead

  /** How far past a good check the cache reaches, at least. */
  function LookAhead(c: Cache): int {
    Min(MAX_FANOUT_SLOTS + 2, |c.leaders|) - 1
  }

  ghost predicate LooksAhead(r: Refresher) {
    && LastSlot(r.cache) >= r.checkedAt + LookAhead(r.cache)
    && (r.pending.Some? && r.pending.value.info.slotLeaders.None? ==>
          LastSlot(r.cache) > r.pending.value.estimate + MAX_FANOUT_SLOTS)
  }

  /** Whatever the replies are, right or wrong, short or empty. */
  lemma {:induction false} LooksAheadInRuns(r: Refresher, es: seq<Event>)
    requires LooksAhead(r) && Legal(r, es)
    ensures LooksAhead(Run(r, es))
    decreases |es|
  {
    if es != [] {
      LooksAheadInRuns(Apply(r, es[0]), es[1..]);
    }
  }

  /** The cache is full, and so is the reply about to be installed. */
  predicate Full(r: Refresher) {
    && FullStart(r)
    && (r.pending.Some? && Succeeded(r.pending.value.info.slotLeaders) ==>
          |r.pending.value.info.slotLeaders.value.value| == FULL)
    && (r.pending.Some? && Succeeded(r.pending.value.info.epochInfo) ==>
          r.pending.value.info.epochInfo.value.value.slotsInEpoch >= FULL)
  }

  lemma {:induction false} FullInRuns(r: Refresher, es: seq<Event>)
    requires Full(r) && Legal(r, es) && FullReplies(r, es)
    ensures Full(Run(r, es))
    decreases |es|
  {
    if es != [] {
      FullInRuns(Apply(r, es[0]), es[1..]);
    }
  }

  /** Every probe of a lookup finds a leader. */
  predicate NoOverrun(c: Cache, estimate: nat, fanout: nat) {
    var probes := Probes(Max(estimate, c.firstSlot), ProbeCount(fanout));
    forall k | 0 <= k < |probes| :: SlotLeader(c, probes[k]).Some?
  }

  /** How much further than the first probe the last one is. */
  function ProbeSpan(fanout: nat): nat
    requires fanout > 0
  {
    NUM_CONSECUTIVE_LEADER_SLOTS * (ProbeCount(fanout) - 1)
  }

  /** It is the last probe that decides. */
  lemma OverrunsExactlyWhen(c: Cache, estimate: nat, fanout: nat)
    requires fanout > 0
    ensures NoOverrun(c, estimate, fanout) <==>
              c.leaders != [] && Max(estimate, c.firstSlot) + ProbeSpan(fanout) <= LastSlot(c)
  {
    var probes := Probes(Max(estimate, c.firstSlot), ProbeCount(fanout));
    assert probes[|probes| - 1] == Max(estimate, c.firstSlot) + ProbeSpan(fanout);
  }

  /**
   A lookup whose last probe is not too far past the last good check never runs past the
   cached leaders, wherever the refresher and the slot watcher have got to and whatever
   the replies were.
   */
  lemma LookupsStayInTheCache(r: Refresher, es: seq<Event>, estimate: nat, fanout: nat)
    requires Started(r) && Legal(r, es) && fanout > 0
    requires ProbeSpan(fanout) < |Run(r, es).cache.leaders|
    requires estimate + ProbeSpan(fanout) <= Run(r, es).checkedAt + LookAhead(Run(r, es).cache)
    ensures NoOverrun(Run(r, es).cache, estimate, fanout)
  {
    LooksAheadInRuns(r, es);
    OverrunsExactlyWhen(Run(r, es).cache, estimate, fanout);
  }

  /** With full replies that is 101 slots past the check, for every fanout a client can have. */
  lemma FullRepliesReach(r: Refresher, es: seq<Event>, estimate: nat, fanout: nat)
    requires Started(r) && Legal(r, es) && FullStart(r) && FullReplies(r, es)
    requires 1 <= fanout <= MAX_FANOUT_SLOTS
    requires estimate + ProbeSpan(fanout) <= Run(r, es).checkedAt + MAX_FANOUT_SLOTS + 1
    ensures NoOverrun(Run(r, es).cache, estimate, fanout)
  {
    FullInRuns(r, es);
    LookupsStayInTheCache(r, es, estimate, fanout);
  }

  /**
   The service as a whole: in every state of every run with right and full replies, a lookup
   not too far past the last good check serves the real leader of `slot`, if its socket is
   known, when the group of `slot` is one of the `ProbeCount(fanout)` groups from that of
   `current` less the drift on; and only then, if no other cached group has that socket.
   */
  lemma TransactionsReachTheLeaders(
      r: Refresher, es: seq<Event>, sched: Schedule, estimate: nat, current: nat, fanout: nat, slot: nat)
    requires Initial(r, sched) && Aligned(sched) && Legal(r, es) && RightReplies(r, es, sched)
    requires FullStart(r) && FullReplies(r, es)
    requires 1 <= fanout <= MAX_FANOUT_SLOTS && current == Max(estimate, Run(r, es).cache.firstSlot)
    requires estimate + ProbeSpan(fanout) <= Run(r, es).checkedAt + MAX_FANOUT_SLOTS + 1
    requires sched(slot) in Run(r, es).cache.leaderTpuMap
    ensures var t := Run(r, es);
            var ahead := GroupsAhead(t.cache, t.fetchedAt, current, slot);
            var served := t.cache.leaderTpuMap[sched(slot)] in UniqueSockets(t.cache, current, fanout);
            && (0 <= ahead < ProbeCount(fanout) ==> served)
            && (OwnSocket(t.cache, sched, t.fetchedAt, slot) ==> (served <==> 0 <= ahead < ProbeCount(fanout)))
  {
    var t := Run(r, es);
    HoldsInRuns(r, es, sched);
    FullRepliesReach(r, es, estimate, fanout);
    OverrunsExactlyWhen(t.cache, estimate, fanout);
    if Reaches(t.cache, t.fetchedAt, current, fanout, slot) {
      LookupDespiteDrift(t.cache, sched, t.fetchedAt, current, fanout, slot);
    }
    if OwnSocket(t.cache, sched, t.fetchedAt, slot) {
      ServedExactlyWhen(t.cache, sched, t.fetchedAt, current, fanout, slot);
    }
  }

  /**
   The leader of the current slot itself: served with any drift from none up to the span of
   the probes, and with a socket of its own exactly when `current` less the drift is in the
   same group, or in one before it by fewer groups than there are probes.
   */
  lemma CurrentLeaderIsServedExactlyWhen(
      r: Refresher, es: seq<Event>, sched: Schedule, estimate: nat, current: nat, fanout: nat)
    requires Initial(r, sched) && Aligned(sched) && Legal(r, es) && RightReplies(r, es, sched)
    requires FullStart(r) && FullReplies(r, es)
    requires 1 <= fanout <= MAX_FANOUT_SLOTS && current == Max(estimate, Run(r, es).cache.firstSlot)
    requires estimate + ProbeSpan(fanout) <= Run(r, es).checkedAt + MAX_FANOUT_SLOTS + 1
    requires sched(current) in Run(r, es).cache.leaderTpuMap
    ensures var t := Run(r, es);
            var drift := t.cache.firstSlot - t.fetchedAt;
            var served := t.cache.leaderTpuMap[sched(current)] in UniqueSockets(t.cache, current, fanout);
            && (0 <= drift <= ProbeSpan(fanout) ==> served)
            && (OwnSocket(t.cache, sched, t.fetchedAt, current) ==>
                  (served <==> 0 <= Group(current, 0) - Group(current - drift, 0) < ProbeCount(fanout)))
  {
    TransactionsReachTheLeaders(r, es, sched, estimate, current, fanout, current);
  }

  // ----- the bounds are exact

  lemma FirstStep(r: Refresher, e: Event, rest: seq<Event>, sched: Schedule)
    requires Enabled(r, e) && Legal(Apply(r, e), rest)
    requires RightReplies(Apply(r, e), rest, sched) && FullReplies(Apply(r, e), rest)
    requires e.Fetch? ==> e.epoch.Err?
    requires e.Fetch? && e.leaders.Ok? ==>
               LeadersFrom(e.leaders.value, sched, r.estimate) && |e.leaders.value| == Fanout(r.cache.slotsInEpoch)
    ensures Legal(r, [e] + rest) && RightReplies(r, [e] + rest, sched) && FullReplies(r, [e] + rest)
    ensures Run(r, [e] + rest) == Run(Apply(r, e), rest)
  {
  }

  /** The service as it starts at slot 0, and one turn: a fetch at one estimate, its install at another. */
  function Start(sched: Schedule, sockets: map<Pubkey, Socket>): Refresher {
    Refresher(Cache(QUIC, 0, Leaders(sched, 0), sockets, FULL, 0), 0, None, 0, 0)
  }

  function Leaders(sched: Schedule, first: nat): (leaders: seq<Pubkey>)
    ensures LeadersFrom(leaders, sched, first) && |leaders| == FULL
  {
    seq(FULL, k requires 0 <= k < FULL => sched(first + k))
  }

  function FetchAt(sched: Schedule, estimate: nat): Event {
    Fetch(false, Err(RpcError(0)), Err(RpcError(0)), Ok(Leaders(sched, estimate)))
  }

  function OneTurn(sched: Schedule, fetch: nat, install: nat): seq<Event> {
    [SlotSeen(fetch)] + ([FetchAt(sched, fetch)] + ([SlotSeen(install)] + [Install]))
  }

  lemma AfterOneTurn(sched: Schedule, sockets: map<Pubkey, Socket>, fetch: nat, install: nat)
    ensures var r, es := Start(sched, sockets), OneTurn(sched, fetch, install);
            && Initial(r, sched) && FullStart(r)
            && Legal(r, es) && RightReplies(r, es, sched) && FullReplies(r, es)
            && Run(r, es).estimate == install
            && Run(r, es).cache.leaderTpuMap == sockets
            && if fetch < FULL - 1 - MAX_FANOUT_SLOTS
               then Run(r, es).cache == r.cache && Run(r, es).checkedAt == fetch && Run(r, es).fetchedAt == 0
               else && Run(r, es).cache.leaders == Leaders(sched, fetch)
                    && Run(r, es).cache.firstSlot == install == Run(r, es).checkedAt
                    && Run(r, es).fetchedAt == fetch
  {
    var e0, e1, e2, e3 := SlotSeen(fetch), FetchAt(sched, fetch), SlotSeen(install), Install;
    var r0 := Start(sched, sockets);
    var r1 := Apply(r0, e0);
    var r2 := Apply(r1, e1);
    var r3 := Apply(r2, e2);
    assert [e3] + [] == [e3];
    FirstStep(r3, e3, [], sched);
    FirstStep(r2, e2, [e3], sched);
    FirstStep(r1, e1, [e2] + [e3], sched);
    FirstStep(r0, e0, [e1] + ([e2] + [e3]), sched);
  }

  /** One slot further than `FullRepliesReach` allows a lookup runs past the cache, for every fanout. */
  lemma OneSlotFurtherOverruns(sched: Schedule, fanout: nat) returns (r: Refresher, es: seq<Event>, estimate: nat)
    requires 1 <= fanout <= MAX_FANOUT_SLOTS
    ensures Initial(r, sched) && FullStart(r) && Legal(r, es) && RightReplies(r, es, sched) && FullReplies(r, es)
    ensures estimate + ProbeSpan(fanout) == Run(r, es).checkedAt + MAX_FANOUT_SLOTS + 2
    ensures !NoOverrun(Run(r, es).cache, estimate, fanout)
  {
    r, es := Start(sched, map[]), OneTurn(sched, 98, 98);
    AfterOneTurn(sched, map[], 98, 98);
    estimate := 98 + MAX_FANOUT_SLOTS + 2 - ProbeSpan(fanout);
    OverrunsExactlyWhen(Run(r, es).cache, estimate, fanout);
  }

  /** A schedule in which every group has a leader of its own, and a socket for each of those leaders. */
  const DISTINCT: Schedule := slot => Group(slot, 0)
  const SOCKETS: map<Pubkey, Socket> := map key: nat | key < FULL :: Socket(key, 1)

  /**
   What the race can cost, for every fanout: with one slot of drift more than the span of the
   probes, or with the estimate one slot, and so one group, lower at the install, the lookup
   right after the install misses the leader of the current slot.
   */
  lemma DriftCanMissTheCurrentLeader(fanout: nat, late: bool) returns (r: Refresher, es: seq<Event>)
    requires 1 <= fanout <= MAX_FANOUT_SLOTS
    ensures Initial(r, DISTINCT) && Aligned(DISTINCT) && FullStart(r)
    ensures Legal(r, es) && RightReplies(r, es, DISTINCT) && FullReplies(r, es)
    ensures var t := Run(r, es);
            && t.cache.firstSlot - t.fetchedAt == (if late then ProbeSpan(fanout) + 1 else -1)
            && t.estimate == t.cache.firstSlot == t.checkedAt && NoOverrun(t.cache, t.estimate, fanout)
            && DISTINCT(t.estimate) in t.cache.leaderTpuMap
            && t.cache.leaderTpuMap[DISTINCT(t.estimate)] !in UniqueSockets(t.cache, t.estimate, fanout)
  {
    var fetch := if late then 103 else 100;
    var install := if late then fetch + ProbeSpan(fanout) + 1 else fetch - 1;
    r, es := Start(DISTINCT, SOCKETS), OneTurn(DISTINCT, fetch, install);
    AfterOneTurn(DISTINCT, SOCKETS, fetch, install);
    FullRepliesReach(r, es, install, fanout);
    var c := Run(r, es).cache;
    assert forall k | 0 <= k < |c.leaders| :: c.leaders[k] == Group(fetch + k, 0);
    assert OwnSocket(c, DISTINCT, fetch, install);
    ServedExactlyWhen(c, DISTINCT, fetch, install, fanout, install);
  }

  // ----- the epoch guard

  predicate FellWithinAnEpoch(r: Refresher) {
    r.cache.lastEpochInfoSlot - r.estimate <= r.cache.slotsInEpoch
  }

  /** No report takes the estimate more than an epoch below that of the last good answer. */
  predicate NeverFallsAnEpoch(r: Refresher, es: seq<Event>)
    requires Legal(r, es)
    decreases |es|
  {
    es == [] ||
    (&& (es[0].SlotSeen? ==> FellWithinAnEpoch(Apply(r, es[0])))
     && NeverFallsAnEpoch(Apply(r, es[0]), es[1..]))
  }

  /**
   The epoch guard compares the estimate with an earlier estimate less an epoch, so as
   long as the estimate does not fall by more than an epoch every check asks for the epoch info.
   */
  lemma {:induction false} EveryCheckAsksForEpochInfo(r: Refresher, es: seq<Event>)
    requires Legal(r, es) && NeverFallsAnEpoch(r, es) && FellWithinAnEpoch(r)
    requires r.pending.Some? ==> r.pending.value.info.epochInfo.Some?
    ensures Run(r, es).pending.Some? ==> Run(r, es).pending.value.info.epochInfo.Some?
    ensures FellWithinAnEpoch(Run(r, es))
    decreases |es|
  {
    if es != [] {
      EveryCheckAsksForEpochInfo(Apply(r, es[0]), es[1..]);
    }
  }
}
