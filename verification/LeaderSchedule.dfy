/**
 The cached leader schedule as a value: what is looked up in it and how replies change it.
 */
module LeaderSchedule {
  import opened Wrappers

  const NUM_CONSECUTIVE_LEADER_SLOTS: nat := 4
  const MAX_FANOUT_SLOTS: nat := 100
  const QUIC_PORT_OFFSET: int := 6

  datatype Protocol = QUIC | UDP

  type Pubkey = nat

  newtype Port = p: int | 0 <= p < 0x1_0000

  datatype Socket = Socket(ip: nat, port: Port)

  /** `pubkey` is what the text of the key parses to. */
  datatype ContactInfo = ContactInfo(pubkey: Option<Pubkey>, tpu: Option<Socket>, tpuQuic: Option<Socket>)

  datatype RpcError = RpcError(code: int)

  type Reply<T> = Option<Result<T, RpcError>>

  datatype EpochInfo = EpochInfo(slotsInEpoch: nat)

  datatype UpdateInfo = UpdateInfo(
    clusterNodes: Reply<seq<ContactInfo>>,
    epochInfo: Reply<EpochInfo>,
    slotLeaders: Reply<seq<Pubkey>>)

  datatype Cache = Cache(
    protocol: Protocol,
    firstSlot: nat,
    leaders: seq<Pubkey>,
    leaderTpuMap: map<Pubkey, Socket>,
    slotsInEpoch: nat,
    lastEpochInfoSlot: nat)

  // ----- contact entries

  function WithOffset(s: Socket): Option<Socket> {
    var port := s.port as int + QUIC_PORT_OFFSET;
    if port < 0x1_0000 then Some(Socket(s.ip, port as Port)) else None
  }

  function UsableSocket(protocol: Protocol, info: ContactInfo): Option<Socket> {
    match protocol
    case QUIC =>
      if info.tpuQuic.Some? then info.tpuQuic
      else if info.tpu.Some? then WithOffset(info.tpu.value)
      else None
    case UDP => info.tpu
  }

  /**
   Without a socket of its own for QUIC an entry is usable over QUIC exactly when it is over
   UDP and the port leaves room for the offset; the host is the same and the port that much higher.
   */
  lemma QuicFromUdp(info: ContactInfo)
    requires info.tpuQuic.None?
    ensures UsableSocket(QUIC, info).Some? <==>
              UsableSocket(UDP, info).Some? && UsableSocket(UDP, info).value.port as int + QUIC_PORT_OFFSET <= 0xFFFF
    ensures UsableSocket(QUIC, info).Some? ==>
              && UsableSocket(QUIC, info).value.ip == UsableSocket(UDP, info).value.ip
              && UsableSocket(QUIC, info).value.port as int - UsableSocket(UDP, info).value.port as int == QUIC_PORT_OFFSET
  {
  }

  /** The entry gives the leader `key` a socket. */
  predicate Usable(protocol: Protocol, info: ContactInfo, key: Pubkey) {
    info.pubkey == Some(key) && UsableSocket(protocol, info).Some?
  }

  /** `extract_cluster_tpu_sockets` */
  function Extract(protocol: Protocol, infos: seq<ContactInfo>): map<Pubkey, Socket> {
    if infos == [] then map[]
    else
      var rest := Extract(protocol, infos[..|infos| - 1]);
      var info := infos[|infos| - 1];
      var socket := UsableSocket(protocol, info);
      if info.pubkey.Some? && socket.Some? then rest[info.pubkey.value := socket.value] else rest
  }

  /**
   A leader has a socket exactly when some entry gives it a usable one, and it is that of
   the last such entry: entries without a usable socket shadow nothing.
   */
  lemma {:induction false} LastUsableEntryWins(protocol: Protocol, infos: seq<ContactInfo>, key: Pubkey)
    ensures key in Extract(protocol, infos) <==> exists i | 0 <= i < |infos| :: Usable(protocol, infos[i], key)
    ensures forall i | 0 <= i < |infos| && Usable(protocol, infos[i], key)
                       && (forall j | i < j < |infos| :: !Usable(protocol, infos[j], key)) ::
              key in Extract(protocol, infos) && Some(Extract(protocol, infos)[key]) == UsableSocket(protocol, infos[i])
  {
    if infos != [] {
      var n := |infos| - 1;
      var front := infos[..n];
      LastUsableEntryWins(protocol, front, key);
      assert forall i | 0 <= i < n :: front[i] == infos[i];
      if Usable(protocol, infos[n], key) {
        assert key in Extract(protocol, infos);
      }
    }
  }

  /** The UDP port leaves room for the offset. */
  predicate HasRoom(s: Socket) {
    s.port as int + QUIC_PORT_OFFSET <= 0xFFFF
  }

  /**
   Over QUIC a leader has the socket of its last entry with a QUIC socket or a UDP one that
   leaves room: the QUIC socket itself if there is one, otherwise the UDP one so much higher.
   */
  lemma {:induction false} QuicSocketOfLastEntry(infos: seq<ContactInfo>, i: nat, key: Pubkey)
    requires i < |infos| && infos[i].pubkey == Some(key)
    requires infos[i].tpuQuic.Some? || (infos[i].tpu.Some? && HasRoom(infos[i].tpu.value))
    requires forall j | i < j < |infos| && infos[j].pubkey == Some(key) ::
               infos[j].tpuQuic.None? && (infos[j].tpu.None? || !HasRoom(infos[j].tpu.value))
    ensures key in Extract(QUIC, infos)
    ensures infos[i].tpuQuic.Some? ==> Extract(QUIC, infos)[key] == infos[i].tpuQuic.value
    ensures infos[i].tpuQuic.None? ==>
              && Extract(QUIC, infos)[key].ip == infos[i].tpu.value.ip
              && Extract(QUIC, infos)[key].port as int == infos[i].tpu.value.port as int + QUIC_PORT_OFFSET
  {
    LastUsableEntryWins(QUIC, infos, key);
    assert Usable(QUIC, infos[i], key);
  }

  /** Over UDP it has that of its last entry with a UDP socket. */
  lemma {:induction false} UdpSocketOfLastEntry(infos: seq<ContactInfo>, i: nat, key: Pubkey)
    requires i < |infos| && infos[i].pubkey == Some(key) && infos[i].tpu.Some?
    requires forall j | i < j < |infos| && infos[j].pubkey == Some(key) :: infos[j].tpu.None?
    ensures key in Extract(UDP, infos) && Extract(UDP, infos)[key] == infos[i].tpu.value
  {
    LastUsableEntryWins(UDP, infos, key);
    assert Usable(UDP, infos[i], key);
  }

  /** Without any such entry it has none. */
  lemma {:induction false} NoSocketWithoutEntry(infos: seq<ContactInfo>, key: Pubkey)
    ensures (forall j | 0 <= j < |infos| && infos[j].pubkey == Some(key) ::
               infos[j].tpuQuic.None? && (infos[j].tpu.None? || !HasRoom(infos[j].tpu.value))) <==>
            key !in Extract(QUIC, infos)
    ensures (forall j | 0 <= j < |infos| && infos[j].pubkey == Some(key) :: infos[j].tpu.None?) <==>
            key !in Extract(UDP, infos)
  {
    LastUsableEntryWins(QUIC, infos, key);
    LastUsableEntryWins(UDP, infos, key);
    if j :| 0 <= j < |infos| && infos[j].pubkey == Some(key)
            && (infos[j].tpuQuic.Some? || (infos[j].tpu.Some? && HasRoom(infos[j].tpu.value))) {
      assert Usable(QUIC, infos[j], key);
    }
    if j :| 0 <= j < |infos| && infos[j].pubkey == Some(key) && infos[j].tpu.Some? {
      assert Usable(UDP, infos[j], key);
    }
  }

  // ----- lookups

  function LastSlot(c: Cache): nat {
    c.firstSlot + (if |c.leaders| == 0 then 0 else |c.leaders| - 1)
  }

  function SlotLeader(c: Cache, slot: nat): Option<Pubkey> {
    if slot >= c.firstSlot && slot - c.firstSlot < |c.leaders| then Some(c.leaders[slot - c.firstSlot])
    else None
  }

  /** The socket of the leader of `slot`, if both are known. */
  function SocketAt(c: Cache, slot: nat): Option<Socket> {
    var leader := SlotLeader(c, slot);
    if leader.Some? && leader.value in c.leaderTpuMap then Some(c.leaderTpuMap[leader.value]) else None
  }

  function Sockets(c: Cache, slots: seq<nat>): seq<Socket> {
    if slots == [] then []
    else
      var socket := SocketAt(c, slots[|slots| - 1]);
      Sockets(c, slots[..|slots| - 1]) + if socket.Some? then [socket.value] else []
  }

  function Max(a: nat, b: nat): (r: nat)
    ensures a <= r && b <= r && (r == a || r == b)
  {
    if a >= b then a else b
  }

  function Min(a: nat, b: nat): (r: nat)
    ensures r <= a && r <= b && (r == a || r == b)
  {
    if a <= b then a else b
  }

  /** The first `count` probes from `current`: one in each `NUM_CONSECUTIVE_LEADER_SLOTS`. */
  function Probes(current: nat, count: nat): (r: seq<nat>)
    ensures |r| == count && forall k | 0 <= k < count :: r[k] == current + NUM_CONSECUTIVE_LEADER_SLOTS * k
  {
    seq(count, k requires 0 <= k < count => current + NUM_CONSECUTIVE_LEADER_SLOTS * k)
  }

  /** How many steps of `NUM_CONSECUTIVE_LEADER_SLOTS` fit in `fanout` slots. */
  function ProbeCount(fanout: nat): (r: nat)
    ensures fanout <= 4 * r < fanout + 4
  {
    (fanout + NUM_CONSECUTIVE_LEADER_SLOTS - 1) / NUM_CONSECUTIVE_LEADER_SLOTS
  }

  /** The elements in order, each only where it first occurs. */
  function Dedup<T(==)>(s: seq<T>): seq<T> {
    if s == [] then []
    else
      var front := Dedup(s[..|s| - 1]);
      if s[|s| - 1] in front then front else front + [s[|s| - 1]]
  }

  lemma {:induction false} DedupKeepsEach<T>(s: seq<T>)
    ensures forall x :: x in s <==> x in Dedup(s)
    ensures forall i, j | 0 <= i < j < |Dedup(s)| :: Dedup(s)[i] != Dedup(s)[j]
  {
    if s != [] {
      DedupKeepsEach(s[..|s| - 1]);
      assert s == s[..|s| - 1] + [s[|s| - 1]];
    }
  }

  /** The order is that of first occurrence: what a prefix gives is a prefix. */
  lemma {:induction false} DedupOfPrefix<T>(s: seq<T>, i: nat)
    requires i <= |s|
    ensures Dedup(s[..i]) <= Dedup(s)
  {
    if i < |s| {
      DedupOfPrefix(s[..|s| - 1], i);
      assert s[..|s| - 1][..i] == s[..i];
    } else {
      assert s[..i] == s;
    }
  }

  function Fanout(slotsInEpoch: nat): (r: nat)
    ensures r <= 200 && r <= slotsInEpoch && (r == 200 || r == slotsInEpoch)
  {
    Min(2 * MAX_FANOUT_SLOTS, slotsInEpoch)
  }

  // ----- updates

  function UpdateAll(c: Cache, estimate: nat, info: UpdateInfo): Cache {
    var c1 := if info.clusterNodes.Some? && info.clusterNodes.value.Ok?
              then c.(leaderTpuMap := Extract(c.protocol, info.clusterNodes.value.value)) else c;
    var c2 := if info.epochInfo.Some? && info.epochInfo.value.Ok?
              then c1.(slotsInEpoch := info.epochInfo.value.value.slotsInEpoch, lastEpochInfoSlot := estimate)
              else c1;
    if info.slotLeaders.Some? && info.slotLeaders.value.Ok?
    then c2.(firstSlot := estimate, leaders := info.slotLeaders.value.value)
    else c2
  }

  /** Each kind of reply that is there and good is in the cache, the others have left it as it was. */
  ghost predicate TookIn(c: Cache, c': Cache, estimate: nat, info: UpdateInfo) {
    && c'.protocol == c.protocol
    && (match info.clusterNodes
        case Some(Ok(nodes)) => c'.leaderTpuMap == Extract(c.protocol, nodes)
        case _ => c'.leaderTpuMap == c.leaderTpuMap)
    && (match info.epochInfo
        case Some(Ok(epoch)) => c'.slotsInEpoch == epoch.slotsInEpoch && c'.lastEpochInfoSlot == estimate
        case _ => c'.slotsInEpoch == c.slotsInEpoch && c'.lastEpochInfoSlot == c.lastEpochInfoSlot)
    && (match info.slotLeaders
        case Some(Ok(leaders)) => c'.leaders == leaders && c'.firstSlot == estimate
        case _ => c'.leaders == c.leaders && c'.firstSlot == c.firstSlot)
  }

  predicate Failed<T>(reply: Reply<T>) {
    reply.Some? && reply.value.Err?
  }

  predicate Succeeded<T>(reply: Reply<T>) {
    reply.Some? && reply.value.Ok?
  }

  /** One `update_all`: the estimate it is made at, and the replies. */
  datatype Update = Update(estimate: nat, info: UpdateInfo)

  function UpdateMany(c: Cache, us: seq<Update>): Cache {
    if us == [] then c
    else UpdateAll(UpdateMany(c, us[..|us| - 1]), us[|us| - 1].estimate, us[|us| - 1].info)
  }

  lemma {:induction false} UpdateManyAppend(c: Cache, us: seq<Update>, vs: seq<Update>)
    ensures UpdateMany(c, us + vs) == UpdateMany(UpdateMany(c, us), vs)
  {
    if vs == [] {
      assert us + vs == us;
    } else {
      assert (us + vs)[..|us + vs| - 1] == us + vs[..|vs| - 1];
      UpdateManyAppend(c, us, vs[..|vs| - 1]);
    }
  }

  /**
   Over any sequence of updates each of the three parts is the last good reply of its own
   kind, stamped with the estimate of that update, whatever became of the other two kinds.
   */
  lemma {:induction false} EachPartIsItsLastGoodReply(c: Cache, us: seq<Update>, i: nat)
    requires i < |us|
    ensures UpdateMany(c, us).protocol == c.protocol
    ensures Succeeded(us[i].info.clusterNodes) && (forall j | i < j < |us| :: !Succeeded(us[j].info.clusterNodes)) ==>
              UpdateMany(c, us).leaderTpuMap == Extract(c.protocol, us[i].info.clusterNodes.value.value)
    ensures Succeeded(us[i].info.epochInfo) && (forall j | i < j < |us| :: !Succeeded(us[j].info.epochInfo)) ==>
              && UpdateMany(c, us).slotsInEpoch == us[i].info.epochInfo.value.value.slotsInEpoch
              && UpdateMany(c, us).lastEpochInfoSlot == us[i].estimate
    ensures Succeeded(us[i].info.slotLeaders) && (forall j | i < j < |us| :: !Succeeded(us[j].info.slotLeaders)) ==>
              && UpdateMany(c, us).leaders == us[i].info.slotLeaders.value.value
              && UpdateMany(c, us).firstSlot == us[i].estimate
  {
    var n := |us| - 1;
    var front := us[..n];
    ProtocolIsFixed(c, front);
    if i < n {
      EachPartIsItsLastGoodReply(c, front, i);
      assert forall j | 0 <= j < n :: front[j] == us[j];
    }
  }

  /**
   From the last good leaders reply on, whatever the later updates: a slot has the leader `x`
   exactly if it is as far past the estimate of that install as `x` is in the reply, and the
   last slot is that of the last entry.
   */
  lemma {:induction false} InstalledLeadersAreFound(c: Cache, us: seq<Update>, i: nat, slot: nat, x: Pubkey)
    requires i < |us| && Succeeded(us[i].info.slotLeaders)
    requires forall j | i < j < |us| :: !Succeeded(us[j].info.slotLeaders)
    ensures var reply := us[i].info.slotLeaders.value.value;
            && (SlotLeader(UpdateMany(c, us), slot) == Some(x) <==>
                  exists k | 0 <= k < |reply| :: reply[k] == x && slot == us[i].estimate + k)
            && (reply != [] ==> LastSlot(UpdateMany(c, us)) == us[i].estimate + |reply| - 1)
  {
    EachPartIsItsLastGoodReply(c, us, i);
    var reply := us[i].info.slotLeaders.value.value;
    if SlotLeader(UpdateMany(c, us), slot) == Some(x) {
      assert reply[slot - us[i].estimate] == x;
    }
  }

  lemma {:induction false} ProtocolIsFixed(c: Cache, us: seq<Update>)
    ensures UpdateMany(c, us).protocol == c.protocol
  {
    if us != [] {
      ProtocolIsFixed(c, us[..|us| - 1]);
    }
  }

  /** A part for which no good reply came is untouched. */
  lemma {:induction false} NoGoodReplyNoChange(c: Cache, us: seq<Update>)
    ensures (forall j | 0 <= j < |us| :: !Succeeded(us[j].info.clusterNodes)) ==>
              UpdateMany(c, us).leaderTpuMap == c.leaderTpuMap
    ensures (forall j | 0 <= j < |us| :: !Succeeded(us[j].info.epochInfo)) ==>
              UpdateMany(c, us).slotsInEpoch == c.slotsInEpoch
              && UpdateMany(c, us).lastEpochInfoSlot == c.lastEpochInfoSlot
    ensures (forall j | 0 <= j < |us| :: !Succeeded(us[j].info.slotLeaders)) ==>
              UpdateMany(c, us).leaders == c.leaders && UpdateMany(c, us).firstSlot == c.firstSlot
  {
    if us != [] {
      var front := us[..|us| - 1];
      NoGoodReplyNoChange(c, front);
      assert forall j | 0 <= j < |front| :: front[j] == us[j];
    }
  }
}
