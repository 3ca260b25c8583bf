/** The scheduler selection rules that the scheduler tests pin down: the
    name map of `load_scheduler`, FIFO/LIFO `pick_session` with the
    head-of-line-blocking skip rule, the "nothing fits, no agent" outcome of
    `assign_agent_for_session`, and the reserved-batch start-time predicate.
    The scheduler implementations are not part of this model; these are the
    behaviours the tests assert, as functions of their inputs. */
module Scheduler {
  import opened Common

  datatype SchedulerKind = Fifo | Lifo | Drf | Mof

  /** The configuration name of each intrinsic scheduler. */
  function SchedulerName(k: SchedulerKind): string
  {
    match k
    case Fifo => "fifo"
    case Lifo => "lifo"
    case Drf => "drf"
    case Mof => "mof"
  }

  /** `load_scheduler(name, {})`; a name outside the four is not loadable. */
  function LoadScheduler(name: string): (r: Option<SchedulerKind>)
    ensures r.Some? ==> SchedulerName(r.value) == name
    ensures r.None? ==> forall k :: SchedulerName(k) != name
  {
    if name == "fifo" then Some(Fifo)
    else if name == "lifo" then Some(Lifo)
    else if name == "drf" then Some(Drf)
    else if name == "mof" then Some(Mof)
    else None
  }

  lemma LoadSchedulerRoundTrip(k: SchedulerKind)
    ensures LoadScheduler(SchedulerName(k)) == Some(k)
  {
  }

  /** A pending session; `retries` is `status_data.scheduler.retries`, None
      when the status data does not carry it. */
  datatype PendingSession = PendingSession(sessionId: string, retries: Option<int>)

  /** With `num_retries_to_skip = k`, a session is skipped when `k > 0` and it
      has been retried at least `k` times. */
  predicate Skipped(s: PendingSession, numRetriesToSkip: int)
  {
    numRetriesToSkip > 0 && s.retries.Some? && s.retries.value >= numRetriesToSkip
  }

  /** The first position whose session is not skipped. */
  function FirstUnskipped(pending: seq<PendingSession>, numRetriesToSkip: int): (r: Option<nat>)
    ensures r.Some? ==> r.value < |pending| && !Skipped(pending[r.value], numRetriesToSkip)
    ensures r.Some? ==> forall j :: 0 <= j < r.value ==> Skipped(pending[j], numRetriesToSkip)
    ensures r.None? ==> forall j :: 0 <= j < |pending| ==> Skipped(pending[j], numRetriesToSkip)
  {
    if pending == [] then None
    else if !Skipped(pending[0], numRetriesToSkip) then Some(0)
    else
      match FirstUnskipped(pending[1..], numRetriesToSkip)
      case None => None
      case Some(i) => Some(i + 1)
  }

  /** FIFO `pick_session`: the first session that is not skipped, or the head
      of the queue when every session is skipped. */
  function FifoPick(pending: seq<PendingSession>, numRetriesToSkip: int): Option<string>
  {
    if pending == [] then None
    else
      match FirstUnskipped(pending, numRetriesToSkip)
      case Some(i) => Some(pending[i].sessionId)
      case None => Some(pending[0].sessionId)
  }

  /** LIFO `pick_session`: the last pending session. */
  function LifoPick(pending: seq<PendingSession>): (r: Option<string>)
    ensures r.None? <==> pending == []
    ensures r.Some? ==> r.value == pending[|pending| - 1].sessionId
  {
    if pending == [] then None else Some(pending[|pending| - 1].sessionId)
  }

  /** The skip rule, stated on positions: the pick is the session at the
      first position not skipped, every session ahead of it is skipped, and if
      all are skipped the head is picked. */
  lemma FifoPickRule(pending: seq<PendingSession>, k: int)
    requires pending != []
    ensures exists i ::
              && 0 <= i < |pending| && FifoPick(pending, k) == Some(pending[i].sessionId)
              && (forall j :: 0 <= j < i ==> Skipped(pending[j], k))
              && (!Skipped(pending[i], k) || (i == 0 && forall j :: 0 <= j < |pending| ==> Skipped(pending[j], k)))
  {
    match FirstUnskipped(pending, k)
    case Some(i) =>
      assert FifoPick(pending, k) == Some(pending[i].sessionId);
    case None =>
      assert FifoPick(pending, k) == Some(pending[0].sessionId);
  }

  /** `num_retries_to_skip = 0` disables skipping, and sessions with no retry
      data are never skipped: in both cases FIFO picks the head. */
  lemma FifoWithoutSkippingPicksHead(pending: seq<PendingSession>, k: int)
    requires pending != []
    requires k <= 0 || pending[0].retries.None?
    ensures FifoPick(pending, k) == Some(pending[0].sessionId)
  {
  }

  /** Sessions behind the first unskipped one do not influence the pick. */
  lemma FifoIgnoresTail(pending: seq<PendingSession>, tail: seq<PendingSession>, k: int)
    requires FirstUnskipped(pending, k).Some?
    ensures FifoPick(pending + tail, k) == FifoPick(pending, k)
  {
    var i := FirstUnskipped(pending, k).value;
    var both := pending + tail;
    assert both[i] == pending[i];
    assert forall j :: 0 <= j < i ==> both[j] == pending[j];
    FirstUnskippedUnique(both, k, i);
  }

  lemma FirstUnskippedUnique(pending: seq<PendingSession>, k: int, i: nat)
    requires i < |pending| && !Skipped(pending[i], k)
    requires forall j :: 0 <= j < i ==> Skipped(pending[j], k)
    ensures FirstUnskipped(pending, k) == Some(i)
  {
    match FirstUnskipped(pending, k)
    case None =>
    case Some(m) =>
      assert !(m < i) && !(i < m);
  }

  /** The head-of-line-blocking test scenarios. */
  lemma HolBlockingScenarios()
    ensures FifoPick([PendingSession("s0", None), PendingSession("s1", None), PendingSession("s2", None)], 5) == Some("s0")
    ensures FifoPick([PendingSession("s0", Some(5)), PendingSession("s1", None), PendingSession("s2", None)], 0) == Some("s0")
    ensures FifoPick([PendingSession("s0", Some(5)), PendingSession("s1", Some(4)), PendingSession("s2", Some(3))], 5) == Some("s1")
    ensures FifoPick([PendingSession("s0", Some(5)), PendingSession("s1", None), PendingSession("s2", None)], 5) == Some("s1")
    ensures FifoPick([PendingSession("s0", Some(5)), PendingSession("s1", Some(10)), PendingSession("s2", None)], 5) == Some("s2")
    ensures FifoPick([PendingSession("s0", Some(5)), PendingSession("s1", Some(5)), PendingSession("s2", Some(5))], 5) == Some("s0")
    ensures FifoPick([PendingSession("s0", None), PendingSession("s1", Some(10)), PendingSession("s2", None)], 5) == Some("s0")
  {
  }

  // ---------------------------------------------------------------------
  // Popping the picked session

  /** The first position holding the given session id. */
  function IndexOf(pending: seq<PendingSession>, id: string): (r: Option<nat>)
    ensures r.Some? ==> r.value < |pending| && pending[r.value].sessionId == id
    ensures r.Some? ==> forall j :: 0 <= j < r.value ==> pending[j].sessionId != id
    ensures r.None? ==> forall j :: 0 <= j < |pending| ==> pending[j].sessionId != id
  {
    if pending == [] then None
    else if pending[0].sessionId == id then Some(0)
    else
      match IndexOf(pending[1..], id)
      case None => None
      case Some(i) => Some(i + 1)
  }

  /** The pending list after popping the first session with the given id. */
  function Popped(pending: seq<PendingSession>, id: string): (r: seq<PendingSession>)
    ensures IndexOf(pending, id).Some? ==> |r| == |pending| - 1
  {
    match IndexOf(pending, id)
    case None => pending
    case Some(i) => pending[..i] + pending[i + 1..]
  }

  /** The list the tests pick from and pop from in place. */
  class PendingQueue {
    var sessions: seq<PendingSession>

    constructor (initial: seq<PendingSession>)
      ensures sessions == initial
    {
      sessions := initial;
    }

    /** `_find_and_pop_picked_session`: remove and return the first session
        with the picked id; RuntimeError when there is none. */
    method FindAndPop(pickedId: string) returns (r: Result<PendingSession, string>)
      modifies this`sessions
      ensures match IndexOf(old(sessions), pickedId)
        case None => r == Err("should not reach here") && sessions == old(sessions)
        case Some(i) => r == Ok(old(sessions)[i]) && sessions == Popped(old(sessions), pickedId)
    {
      var pickedIdx := 0;
      while pickedIdx < |sessions|
        invariant 0 <= pickedIdx <= |sessions|
        invariant forall j :: 0 <= j < pickedIdx ==> sessions[j].sessionId != pickedId
      {
        if sessions[pickedIdx].sessionId == pickedId {
          break;
        }
        pickedIdx := pickedIdx + 1;
      }
      if pickedIdx == |sessions| {
        return Err("should not reach here");
      }
      assert IndexOf(sessions, pickedId) == Some(pickedIdx) by {
        var m := IndexOf(sessions, pickedId);
        assert m.Some?;
        assert !(m.value < pickedIdx) && !(pickedIdx < m.value);
      }
      r := Ok(sessions[pickedIdx]);
      sessions := sessions[..pickedIdx] + sessions[pickedIdx + 1..];
    }
  }

  /** Picking and popping until the queue is empty, as the tests do. */
  function DrainFifo(pending: seq<PendingSession>, k: int): seq<string>
    decreases |pending|
  {
    match FifoPick(pending, k)
    case None => []
    case Some(id) =>
      if IndexOf(pending, id).Some? then [id] + DrainFifo(Popped(pending, id), k) else []
  }

  function DrainLifo(pending: seq<PendingSession>): seq<string>
    decreases |pending|
  {
    match LifoPick(pending)
    case None => []
    case Some(id) =>
      if IndexOf(pending, id).Some? then [id] + DrainLifo(Popped(pending, id)) else []
  }

  function Ids(pending: seq<PendingSession>): (r: seq<string>)
    ensures |r| == |pending|
    ensures forall i :: 0 <= i < |r| ==> r[i] == pending[i].sessionId
  {
    if pending == [] then [] else [pending[0].sessionId] + Ids(pending[1..])
  }

  function Reverse(s: seq<string>): (r: seq<string>)
    ensures |r| == |s|
    ensures forall i :: 0 <= i < |s| ==> r[i] == s[|s| - 1 - i]
  {
    if s == [] then [] else Reverse(s[1..]) + [s[0]]
  }

  /** Without skipping, FIFO serves the sessions in queue order. */
  lemma {:induction false} FifoDrainsInOrder(pending: seq<PendingSession>, k: int)
    requires k <= 0
    ensures DrainFifo(pending, k) == Ids(pending)
    decreases |pending|
  {
    if pending != [] {
      var id := pending[0].sessionId;
      FifoWithoutSkippingPicksHead(pending, k);
      assert IndexOf(pending, id) == Some(0);
      assert Popped(pending, id) == pending[1..];
      FifoDrainsInOrder(pending[1..], k);
    }
  }

  predicate UniqueSessionIds(pending: seq<PendingSession>)
  {
    forall i, j :: 0 <= i < j < |pending| ==> pending[i].sessionId != pending[j].sessionId
  }

  lemma ReverseSnoc(s: seq<string>, x: string)
    ensures Reverse(s + [x]) == [x] + Reverse(s)
  {
    var l, r := Reverse(s + [x]), [x] + Reverse(s);
    assert |l| == |r|;
    forall i | 0 <= i < |l| ensures l[i] == r[i] {
      if i > 0 {
        assert (s + [x])[|s| - i] == s[|s| - 1 - (i - 1)];
      }
    }
  }

  lemma IdsSnoc(pending: seq<PendingSession>)
    requires pending != []
    ensures Ids(pending) == Ids(pending[..|pending| - 1]) + [pending[|pending| - 1].sessionId]
  {
    var n := |pending| - 1;
    var p := pending[..n];
    var l, ip := Ids(pending), Ids(p);
    var r := ip + [pending[n].sessionId];
    assert |l| == |r|;
    forall i | 0 <= i < |l| ensures l[i] == r[i] {
      if i < n {
        assert r[i] == ip[i] == p[i].sessionId;
        assert p[i] == pending[i];
      }
    }
  }

  /** With distinct ids, LIFO picks the last session and pops exactly it. */
  lemma LifoStep(pending: seq<PendingSession>)
    requires pending != [] && UniqueSessionIds(pending)
    ensures var n := |pending| - 1;
      DrainLifo(pending) == [pending[n].sessionId] + DrainLifo(pending[..n]) && UniqueSessionIds(pending[..n])
  {
    var n := |pending| - 1;
    var id := pending[n].sessionId;
    LastIndexUnique(pending);
    assert Popped(pending, id) == pending[..n];
    assert LifoPick(pending) == Some(id);
  }

  lemma LastIndexUnique(pending: seq<PendingSession>)
    requires pending != [] && UniqueSessionIds(pending)
    ensures IndexOf(pending, pending[|pending| - 1].sessionId) == Some(|pending| - 1)
  {
  }

  /** LIFO serves the sessions in reverse queue order, provided session ids
      are distinct (the pop removes the FIRST session with the picked id). */
  lemma {:induction false} LifoDrainsReversed(pending: seq<PendingSession>)
    requires UniqueSessionIds(pending)
    ensures DrainLifo(pending) == Reverse(Ids(pending))
    decreases |pending|
  {
    if pending != [] {
      var n := |pending| - 1;
      LifoStep(pending);
      LifoDrainsReversed(pending[..n]);
      IdsSnoc(pending);
      ReverseSnoc(Ids(pending[..n]), pending[n].sessionId);
    }
  }

  /** A LIFO pop of a repeated id removes an earlier copy, not the picked one. */
  lemma LifoPopWithDuplicateIds()
    ensures var q := [PendingSession("s0", None), PendingSession("s1", Some(1)), PendingSession("s1", None)];
      LifoPick(q) == Some("s1") && Popped(q, "s1") == [PendingSession("s0", None), PendingSession("s1", None)]
  {
    var q := [PendingSession("s0", None), PendingSession("s1", Some(1)), PendingSession("s1", None)];
    assert IndexOf(q, "s1") == Some(1);
  }

  // ---------------------------------------------------------------------
  // Agent assignment

  /** An agent as the scheduler sees it; slot amounts are integers in the
      smallest unit the slot type uses. */
  datatype AgentContext = AgentContext(agentId: string, availableSlots: map<string, int>, occupiedSlots: map<string, int>)

  function Get(m: map<string, int>, key: string): int
  {
    if key in m then m[key] else 0
  }

  /** The agent has room for every requested slot type; a slot type the agent
      does not list counts as zero. */
  predicate HasRoom(a: AgentContext, requested: map<string, int>)
  {
    forall key :: key in requested ==> requested[key] <= Get(a.availableSlots, key) - Get(a.occupiedSlots, key)
  }

  function Candidates(agents: seq<AgentContext>, requested: map<string, int>): (r: seq<AgentContext>)
    ensures forall a :: a in r <==> a in agents && HasRoom(a, requested)
  {
    if agents == [] then []
    else (if HasRoom(agents[0], requested) then [agents[0]] else []) + Candidates(agents[1..], requested)
  }

  /** `assign_agent_for_session`: among the agents with room, the one the
      scheduler's ranking puts first (`rank` stands for the unmodelled FIFO,
      DRF or MOF ranking); None when no agent has room. */
  function AssignAgent(agents: seq<AgentContext>, requested: map<string, int>, rank: AgentContext -> int): Option<string>
  {
    var c := Candidates(agents, requested);
    if c == [] then None else Some(c[ArgMaxFirst(c, rank)].agentId)
  }

  /** None exactly when no agent has room; otherwise the assigned agent has
      room, whatever the ranking. */
  lemma AssignAgentNoneIffNoRoom(agents: seq<AgentContext>, requested: map<string, int>, rank: AgentContext -> int)
    ensures AssignAgent(agents, requested, rank).None? <==> forall a :: a in agents ==> !HasRoom(a, requested)
    ensures AssignAgent(agents, requested, rank).Some? ==>
      exists a :: a in agents && HasRoom(a, requested) && a.agentId == AssignAgent(agents, requested, rank).value
  {
    var c := Candidates(agents, requested);
    if c != [] {
      assert c[0] in c;
      var chosen := c[ArgMaxFirst(c, rank)];
      assert chosen in c;
    }
  }

  /** A request for a device type that no agent lists (the ROCm case) gets no
      agent. */
  lemma MissingDeviceGetsNoAgent(agents: seq<AgentContext>, requested: map<string, int>, device: string,
                                 rank: AgentContext -> int)
    requires device in requested && requested[device] > 0
    requires forall a :: a in agents ==> device !in a.availableSlots && Get(a.occupiedSlots, device) >= 0
    ensures AssignAgent(agents, requested, rank) == None
  {
    AssignAgentNoneIffNoRoom(agents, requested, rank);
    forall a | a in agents ensures !HasRoom(a, requested) {
      assert requested[device] > Get(a.availableSlots, device) - Get(a.occupiedSlots, device);
    }
  }

  /** Agents whose occupied slots fill their capacity get no session that
      asks for a positive amount of that slot type. */
  lemma FullAgentsGetNoAgent(agents: seq<AgentContext>, requested: map<string, int>, key: string,
                             rank: AgentContext -> int)
    requires key in requested && requested[key] > 0
    requires forall a :: a in agents ==> Get(a.occupiedSlots, key) >= Get(a.availableSlots, key)
    ensures AssignAgent(agents, requested, rank) == None
  {
    AssignAgentNoneIffNoRoom(agents, requested, rank);
    forall a | a in agents ensures !HasRoom(a, requested) {
      assert requested[key] > Get(a.availableSlots, key) - Get(a.occupiedSlots, key);
    }
  }

  // ---------------------------------------------------------------------
  // Reserved batch sessions

  /** A timestamp as written: local wall-clock seconds and the UTC offset in
      seconds. */
  datatype ZonedTime = ZonedTime(localSeconds: int, offsetSeconds: int)

  function UtcSeconds(t: ZonedTime): int
  {
    t.localSeconds - t.offsetSeconds
  }

  /** `check_reserved_batch_session` for a batch session: it passes when no
      start time is set, and fails while the start instant lies in the future.
      At equality it passes. */
  predicate ReservedBatchPasses(startsAt: Option<ZonedTime>, nowUtc: int)
  {
    startsAt.None? || UtcSeconds(startsAt.value) <= nowUtc
  }

  function Hours(i: int): int
  {
    i * 3600
  }

  /** The same wall-clock time with a negative offset lies in the future and
      fails; with a positive offset it lies in the past and passes; one
      second either side of now decides it the same way. */
  lemma ReservedBatchAcrossOffsets(now: int)
    ensures forall i :: 1 <= i < 12 ==> !ReservedBatchPasses(Some(ZonedTime(now, -Hours(i))), now)
    ensures forall i :: 1 <= i < 12 ==> ReservedBatchPasses(Some(ZonedTime(now, Hours(i))), now)
    ensures !ReservedBatchPasses(Some(ZonedTime(now + 1, 0)), now)
    ensures ReservedBatchPasses(Some(ZonedTime(now - 1, 0)), now)
    ensures ReservedBatchPasses(None, now)
  {
  }

  /** The predicate depends only on the UTC instant, not on how it is written. */
  lemma ReservedBatchZoneIndependent(t1: ZonedTime, t2: ZonedTime, now: int)
    requires UtcSeconds(t1) == UtcSeconds(t2)
    ensures ReservedBatchPasses(Some(t1), now) == ReservedBatchPasses(Some(t2), now)
  {
  }

  /** Once passed, it stays passed as time moves on. */
  lemma ReservedBatchMonotone(startsAt: Option<ZonedTime>, now: int, later: int)
    requires now <= later && ReservedBatchPasses(startsAt, now)
    ensures ReservedBatchPasses(startsAt, later)
  {
  }
}
