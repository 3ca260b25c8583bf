/** The instance registry of the manager: agent slot accounting, kernel
    placement, the agent heartbeat state machine and the release of slots and
    concurrency counters when kernels and sessions end.

    The `agents`, `kernels` and `keypairs` tables are sequences of rows in scan
    order; an SQL `UPDATE ... WHERE id = x` is a map over every row whose key
    is `x`. The agent RPC, clocks and `uuid4` are parameters. */
module Registry {
  import opened Common

  datatype AgentStatus = Alive | Lost | Terminated

  datatype KernelStatus = Preparing | Running | Restarting | Terminating | Terminated | Error

  /** `ResourceSlot(id, mem, cpu, gpu)`. */
  datatype ResourceSlot = ResourceSlot(id: Option<string>, mem: int, cpu: int, gpu: int)

  datatype AgentRow = AgentRow(
    id: string, status: AgentStatus,
    memSlots: int, cpuSlots: int, gpuSlots: int,
    usedMemSlots: int, usedCpuSlots: int, usedGpuSlots: int,
    addr: string, firstContact: int, lostAt: Option<int>)

  datatype KernelRow = KernelRow(
    id: string, status: KernelStatus, sessId: string, role: string,
    agent: string, agentAddr: string, accessKey: string, lang: string,
    memSlot: int, cpuSlot: int, gpuSlot: int,
    containerId: Option<string>, cpuSet: seq<int>, gpuSet: seq<int>,
    replInPort: int, replOutPort: int, stdinPort: int, stdoutPort: int,
    terminatedAt: Option<int>)

  /** What an agent reports in its heartbeat. */
  datatype AgentInfo = AgentInfo(memSlots: int, cpuSlots: int, gpuSlots: int, addr: string)

  /** `kernel_access_info`, returned by a successful `create_kernel`. */
  datatype KernelAccessInfo = KernelAccessInfo(id: string, sessId: string, agent: string, agentAddr: string)

  /** The record the agent's `create_kernel` RPC returns. */
  datatype CreatedInfo = CreatedInfo(
    id: string, containerId: string, cpuSet: seq<int>, gpuSet: seq<int>,
    replInPort: int, replOutPort: int, stdinPort: int, stdoutPort: int)

  // ---------------------------------------------------------------------
  // Exceptions and `handle_kernel_exception`

  datatype KernelExcClass =
    | KernelCreationFailed | KernelRestartFailed | KernelDestructionFailed | KernelExecutionFailed

  datatype Exc =
    | KernelOpFailure(cls: KernelExcClass, reason: string, agentError: Option<string>)
    | InstanceNotAvailable
    | CancelledError
    | TimeoutError
    | AgentError(detail: string)
    | NotFoundError
    | ParametersError
    | InvalidStateError
    | AssertionError
    | KeyError(key: string)

  /** The `op_exc` table; an unknown op is a KeyError. */
  function OpExceptionClass(op: string): (r: Option<KernelExcClass>)
    ensures r.Some? <==> op in {"create_kernel", "restart_kernel", "destroy_kernel", "execute", "upload_file"}
  {
    if op == "create_kernel" then Some(KernelCreationFailed)
    else if op == "restart_kernel" then Some(KernelRestartFailed)
    else if op == "destroy_kernel" then Some(KernelDestructionFailed)
    else if op == "execute" || op == "upload_file" then Some(KernelExecutionFailed)
    else None
  }

  /** The observable effect of `handle_kernel_exception` when the guarded
      block raises `e`: what is raised, the `status_info` written with status
      ERROR (only under `set_error`), and which callbacks are awaited. */
  datatype HandlerEffect = HandlerEffect(
    raised: Exc, errorStatusInfo: Option<string>, errorCallback: bool, cancellationCallback: bool)

  function HandleKernelException(op: string, e: Exc, setError: bool, hasErrorCallback: bool,
                                 hasCancellationCallback: bool): (h: HandlerEffect)
  {
    match OpExceptionClass(op)
    case None => HandlerEffect(KeyError(op), None, false, false)
    case Some(cls) =>
      match e
      case TimeoutError =>
        HandlerEffect(KernelOpFailure(cls, "TIMEOUT", None),
                      if setError then Some("Operation timeout (" + op + ")") else None,
                      hasErrorCallback, false)
      case CancelledError => HandlerEffect(CancelledError, None, false, hasCancellationCallback)
      case AgentError(d) =>
        HandlerEffect(KernelOpFailure(cls, "FAILURE", Some(d)),
                      if setError then Some("Agent error") else None,
                      hasErrorCallback, false)
      case _ =>
        HandlerEffect(e, if setError then Some("Unexpected error") else None, hasErrorCallback, false)
  }

  /** Timeouts and agent errors come out as the op's own exception class,
      cancellation is re-raised untouched without setting an error status or
      running the error callback, and every other error is re-raised as is. */
  lemma HandleKernelExceptionMapping(op: string, e: Exc, setError: bool, ecb: bool, ccb: bool)
    requires OpExceptionClass(op).Some?
    ensures var h := HandleKernelException(op, e, setError, ecb, ccb);
      var cls := OpExceptionClass(op).value;
      && (e.TimeoutError? ==> h.raised == KernelOpFailure(cls, "TIMEOUT", None))
      && (e.AgentError? ==> h.raised == KernelOpFailure(cls, "FAILURE", Some(e.detail)))
      && (!e.TimeoutError? && !e.AgentError? ==> h.raised == e)
      && (h.errorStatusInfo.Some? <==> setError && !e.CancelledError?)
      && (h.errorCallback <==> ecb && !e.CancelledError?)
      && (h.cancellationCallback <==> ccb && e.CancelledError?)
  {
  }

  /** An op missing from the table raises KeyError before the guarded block
      runs, with no status update and no callback. */
  lemma UnknownOpIsKeyError(op: string, e: Exc, setError: bool, ecb: bool, ccb: bool)
    requires op !in {"create_kernel", "restart_kernel", "destroy_kernel", "execute", "upload_file"}
    ensures HandleKernelException(op, e, setError, ecb, ccb) == HandlerEffect(KeyError(op), None, false, false)
  {
  }

  /** An exception escaping the RPC call, before `RPCContext` converts it. */
  datatype PreservedKind = PNotFound | PParameters | PTimeout | PCancelled | PInvalidState

  datatype RpcRaise =
    | GenericError(detail: string)
    | Preserved(kind: PreservedKind)
    | Unlisted(detail: string)

  /** `RPCContext`: a remote GenericError or an unlisted local error becomes
      an AgentError; the preserved kinds are re-raised unchanged. */
  function RpcContextError(r: RpcRaise): (e: Exc)
    ensures e.AgentError? <==> !r.Preserved?
    ensures !r.Preserved? ==> e == AgentError(r.detail)
    ensures r == Preserved(PNotFound) ==> e == NotFoundError
    ensures r == Preserved(PParameters) ==> e == ParametersError
    ensures r == Preserved(PTimeout) ==> e == TimeoutError
    ensures r == Preserved(PCancelled) ==> e == CancelledError
    ensures r == Preserved(PInvalidState) ==> e == InvalidStateError
  {
    match r
    case GenericError(d) => AgentError(d)
    case Unlisted(d) => AgentError(d)
    case Preserved(k) =>
      match k
      case PNotFound => NotFoundError
      case PParameters => ParametersError
      case PTimeout => TimeoutError
      case PCancelled => CancelledError
      case PInvalidState => InvalidStateError
  }

  /** How the agent's `create_kernel` RPC ends. */
  datatype RpcOutcome = RpcReturned(info: Option<CreatedInfo>) | RpcRaised(r: RpcRaise)

  // ---------------------------------------------------------------------
  // Slots

  /** `get_kernel_slot`: every language currently asks for mem=1, cpu=1, gpu=0. */
  function KernelSlot(lang: string): ResourceSlot
  {
    ResourceSlot(None, 1, 1, 0)
  }

  /** The free slots of an agent: total minus used, in each dimension. */
  function FreeSlot(a: AgentRow): ResourceSlot
  {
    ResourceSlot(Some(a.id), a.memSlots - a.usedMemSlots, a.cpuSlots - a.usedCpuSlots, a.gpuSlots - a.usedGpuSlots)
  }

  predicate Fits(s: ResourceSlot, req: ResourceSlot)
  {
    s.mem >= req.mem && s.cpu >= req.cpu && s.gpu >= req.gpu
  }

  function Total(s: ResourceSlot): int
  {
    s.mem + s.cpu + s.gpu
  }

  predicate Survives(a: AgentRow, req: ResourceSlot)
  {
    a.status == Alive && Fits(FreeSlot(a), req)
  }

  /** `avail_slots` after the scan: the free slots of the ALIVE agents in scan order. */
  function AliveFree(agents: seq<AgentRow>): seq<ResourceSlot>
  {
    if agents == [] then []
    else
      var last := agents[|agents| - 1];
      AliveFree(agents[..|agents| - 1]) + (if last.status == Alive then [FreeSlot(last)] else [])
  }

  /** The comprehension that keeps the slots meeting the requirement. */
  function Fitting(avail: seq<ResourceSlot>, req: ResourceSlot): seq<ResourceSlot>
  {
    if avail == [] then []
    else
      var last := avail[|avail| - 1];
      Fitting(avail[..|avail| - 1], req) + (if Fits(last, req) then [last] else [])
  }

  /** The positions in scan order of the agents that survive the filter. */
  function SurvivorIndices(agents: seq<AgentRow>, req: ResourceSlot): (idx: seq<nat>)
    ensures forall t :: 0 <= t < |idx| ==> idx[t] < |agents| && Survives(agents[idx[t]], req)
    ensures forall t, u :: 0 <= t < u < |idx| ==> idx[t] < idx[u]
    ensures forall i :: 0 <= i < |agents| && Survives(agents[i], req) ==> i in idx
  {
    if agents == [] then []
    else
      var n := |agents| - 1;
      var prev := SurvivorIndices(agents[..n], req);
      prev + (if Survives(agents[n], req) then [n] else [])
  }

  lemma FittingAppend(a: seq<ResourceSlot>, b: seq<ResourceSlot>, req: ResourceSlot)
    ensures Fitting(a + b, req) == Fitting(a, req) + Fitting(b, req)
    decreases |b|
  {
    if b == [] {
      assert a + b == a;
    } else {
      var n := |b| - 1;
      assert (a + b)[..|a + b| - 1] == a + b[..n];
      FittingAppend(a, b[..n], req);
    }
  }

  /** The filtered scan lists exactly the free slots of the surviving agents,
      in scan order. */
  lemma FittingIsSurvivors(agents: seq<AgentRow>, req: ResourceSlot)
    ensures var idx := SurvivorIndices(agents, req);
      Fitting(AliveFree(agents), req) == seq(|idx|, t requires 0 <= t < |idx| => FreeSlot(agents[idx[t]]))
  {
    SurvivorSlots(agents, req);
  }

  /** The same, position by position. */
  lemma {:induction false} SurvivorSlots(agents: seq<AgentRow>, req: ResourceSlot)
    ensures var idx := SurvivorIndices(agents, req);
      var f := Fitting(AliveFree(agents), req);
      |f| == |idx| && forall t :: 0 <= t < |idx| ==> f[t] == FreeSlot(agents[idx[t]])
  {
    if agents != [] {
      var n := |agents| - 1;
      var last := agents[n];
      var prefix := agents[..n];
      SurvivorSlots(prefix, req);
      var tail := if last.status == Alive then [FreeSlot(last)] else [];
      assert AliveFree(agents) == AliveFree(prefix) + tail;
      FittingAppend(AliveFree(prefix), tail, req);
      assert Fitting(tail, req) == (if Survives(last, req) then [FreeSlot(last)] else []) by {
        if last.status == Alive {
          assert tail[..0] == [];
        }
      }
      var pidx := SurvivorIndices(prefix, req);
      var pf := Fitting(AliveFree(prefix), req);
      var idx := SurvivorIndices(agents, req);
      var f := Fitting(AliveFree(agents), req);
      assert f == pf + (if Survives(last, req) then [FreeSlot(last)] else []);
      assert idx == pidx + (if Survives(last, req) then [n] else []);
      forall t | 0 <= t < |idx| ensures f[t] == FreeSlot(agents[idx[t]]) {
        if t < |pidx| {
          assert f[t] == pf[t] && idx[t] == pidx[t];
          assert prefix[pidx[t]] == agents[pidx[t]];
        }
      }
    }
  }

  /** The slot `create_kernel` picks, if any agent fits. */
  function ChosenSlot(agents: seq<AgentRow>, req: ResourceSlot): (r: Option<ResourceSlot>)
    ensures r.Some? ==> r.value.id.Some?
  {
    var c := Fitting(AliveFree(agents), req);
    if c == [] then None
    else
      var s := c[ArgMaxFirst(c, Total)];
      ScannedSlotHasId(agents, req, s);
      Some(s)
  }

  lemma ScannedSlotHasId(agents: seq<AgentRow>, req: ResourceSlot, s: ResourceSlot)
    requires s in Fitting(AliveFree(agents), req)
    ensures s.id.Some?
  {
    FittingMembers(AliveFree(agents), req);
    AliveFreeMembers(agents);
    var a :| a in agents && a.status == Alive && s == FreeSlot(a);
  }

  /** The `rowcount` of an update `WHERE id = x`. */
  function CountWithId(agents: seq<AgentRow>, id: string): (n: nat)
    ensures n == 0 <==> forall i :: 0 <= i < |agents| ==> agents[i].id != id
  {
    if agents == [] then 0
    else
      var rest := CountWithId(agents[1..], id);
      assert forall i :: 1 <= i < |agents| ==> agents[i] == agents[1..][i - 1];
      (if agents[0].id == id then 1 else 0) + rest
  }

  /** `SELECT addr FROM agents WHERE id = x` as a scalar. */
  function FirstAgentAddr(agents: seq<AgentRow>, id: string): (r: Option<string>)
    ensures r.None? <==> forall i :: 0 <= i < |agents| ==> agents[i].id != id
    ensures r.Some? ==> exists i :: 0 <= i < |agents| && agents[i].id == id && agents[i].addr == r.value
  {
    if agents == [] then None
    else if agents[0].id == id then Some(agents[0].addr)
    else
      assert forall i :: 1 <= i < |agents| ==> agents[i] == agents[1..][i - 1];
      FirstAgentAddr(agents[1..], id)
  }

  /** No agent is chosen iff no ALIVE agent has room in all three dimensions. */
  lemma NoChoiceIffNoRoom(agents: seq<AgentRow>, req: ResourceSlot)
    ensures ChosenSlot(agents, req).None? <==> forall i :: 0 <= i < |agents| ==> !Survives(agents[i], req)
  {
    var idx := SurvivorIndices(agents, req);
    FittingIsSurvivors(agents, req);
    if idx != [] {
      assert Survives(agents[idx[0]], req);
    }
  }

  /** The position in scan order of the chosen agent. */
  lemma ChosenPosition(agents: seq<AgentRow>, req: ResourceSlot) returns (k: nat)
    requires ChosenSlot(agents, req).Some?
    ensures k < |agents| && Survives(agents[k], req) && ChosenSlot(agents, req).value == FreeSlot(agents[k])
    ensures forall j :: 0 <= j < |agents| && Survives(agents[j], req) ==>
      Total(FreeSlot(agents[j])) <= Total(FreeSlot(agents[k])) &&
      (j < k ==> Total(FreeSlot(agents[j])) < Total(FreeSlot(agents[k])))
  {
    var idx := SurvivorIndices(agents, req);
    SurvivorSlots(agents, req);
    var c := Fitting(AliveFree(agents), req);
    var t := ArgMaxFirst(c, Total);
    k := idx[t];
    assert c[t] == FreeSlot(agents[k]);
    forall j | 0 <= j < |agents| && Survives(agents[j], req)
      ensures Total(FreeSlot(agents[j])) <= Total(FreeSlot(agents[k]))
      ensures j < k ==> Total(FreeSlot(agents[j])) < Total(FreeSlot(agents[k]))
    {
      var u :| 0 <= u < |idx| && idx[u] == j;
      assert c[u] == FreeSlot(agents[j]);
      assert Total(c[u]) <= Total(c[t]);
      if j < k {
        assert u < t;
        assert Total(c[u]) < Total(c[t]);
      }
    }
  }

  /** Load balancing: the chosen agent is ALIVE, has room, has the largest
      free mem+cpu+gpu of all such agents, and every such agent before it in
      scan order has strictly less. */
  lemma ChosenSlotIsFirstBestFit(agents: seq<AgentRow>, req: ResourceSlot)
    requires ChosenSlot(agents, req).Some?
    ensures exists k ::
              && 0 <= k < |agents| && Survives(agents[k], req)
              && ChosenSlot(agents, req).value == FreeSlot(agents[k])
              && (forall j :: 0 <= j < |agents| && Survives(agents[j], req) ==> Total(FreeSlot(agents[j])) <= Total(FreeSlot(agents[k])))
              && (forall j :: 0 <= j < k && Survives(agents[j], req) ==> Total(FreeSlot(agents[j])) < Total(FreeSlot(agents[k])))
  {
    var k := ChosenPosition(agents, req);
  }

  /** The scan loop of `create_kernel` that builds `avail_slots`. */
  method ScanAvailable(agents: seq<AgentRow>) returns (avail: seq<ResourceSlot>)
    ensures avail == AliveFree(agents)
  {
    avail := [];
    var i := 0;
    while i < |agents|
      invariant 0 <= i <= |agents|
      invariant avail == AliveFree(agents[..i])
    {
      var row := agents[i];
      assert agents[..i + 1][..i] == agents[..i];
      if row.status == Alive {
        avail := avail + [FreeSlot(row)];
      }
      i := i + 1;
    }
    assert agents[..i] == agents;
  }

  /** Every slot in the scan belongs to an ALIVE agent, and every ALIVE agent
      is in the scan. */
  lemma {:induction false} AliveFreeMembers(agents: seq<AgentRow>)
    ensures forall s :: s in AliveFree(agents) ==> exists a :: a in agents && a.status == Alive && s == FreeSlot(a)
    ensures forall a :: a in agents && a.status == Alive ==> FreeSlot(a) in AliveFree(agents)
  {
    if agents != [] {
      var n := |agents| - 1;
      AliveFreeMembers(agents[..n]);
      assert agents == agents[..n] + [agents[n]];
    }
  }

  // ---------------------------------------------------------------------
  // Row updates

  /** `used_* += req.*` */
  function Reserve(a: AgentRow, req: ResourceSlot): AgentRow
  {
    a.(usedMemSlots := a.usedMemSlots + req.mem,
       usedCpuSlots := a.usedCpuSlots + req.cpu,
       usedGpuSlots := a.usedGpuSlots + req.gpu)
  }

  /** `used_* -= kernel.*_slot` */
  function Release(a: AgentRow, k: KernelRow): AgentRow
  {
    a.(usedMemSlots := a.usedMemSlots - k.memSlot,
       usedCpuSlots := a.usedCpuSlots - k.cpuSlot,
       usedGpuSlots := a.usedGpuSlots - k.gpuSlot)
  }

  function ReserveWhere(agents: seq<AgentRow>, id: string, req: ResourceSlot): seq<AgentRow>
  {
    seq(|agents|, i requires 0 <= i < |agents| => if agents[i].id == id then Reserve(agents[i], req) else agents[i])
  }

  function ReleaseWhere(agents: seq<AgentRow>, id: string, k: KernelRow): seq<AgentRow>
  {
    seq(|agents|, i requires 0 <= i < |agents| => if agents[i].id == id then Release(agents[i], k) else agents[i])
  }

  /** `UPDATE agents SET status = ALIVE, lost_at = NULL WHERE id = x` */
  function ReviveWhere(agents: seq<AgentRow>, id: string): seq<AgentRow>
  {
    seq(|agents|, i requires 0 <= i < |agents| =>
      if agents[i].id == id then agents[i].(status := Alive, lostAt := None) else agents[i])
  }

  /** `UPDATE agents SET status = TERMINATED, lost_at = now WHERE id = x` */
  function ForgetWhere(agents: seq<AgentRow>, id: string, now: int): seq<AgentRow>
  {
    seq(|agents|, i requires 0 <= i < |agents| =>
      if agents[i].id == id then agents[i].(status := AgentStatus.Terminated, lostAt := Some(now)) else agents[i])
  }

  /** `UPDATE kernels SET status = TERMINATED, terminated_at = now WHERE id = x` */
  function TerminateKernelWhere(kernels: seq<KernelRow>, id: string, now: int): seq<KernelRow>
  {
    seq(|kernels|, i requires 0 <= i < |kernels| =>
      if kernels[i].id == id then kernels[i].(status := KernelStatus.Terminated, terminatedAt := Some(now)) else kernels[i])
  }

  /** `SELECT ... WHERE id = x` followed by `first()`. */
  function FirstKernel(kernels: seq<KernelRow>, id: string): (r: Option<KernelRow>)
    ensures r.None? <==> forall i :: 0 <= i < |kernels| ==> kernels[i].id != id
    ensures r.Some? ==> r.value in kernels && r.value.id == id
  {
    if kernels == [] then None
    else if kernels[0].id == id then Some(kernels[0])
    else FirstKernel(kernels[1..], id)
  }

  function FirstAgentStatus(agents: seq<AgentRow>, id: string): (r: Option<AgentStatus>)
    ensures r.None? <==> forall i :: 0 <= i < |agents| ==> agents[i].id != id
    ensures r.Some? ==> exists i :: 0 <= i < |agents| && agents[i].id == id && agents[i].status == r.value
  {
    if agents == [] then None
    else if agents[0].id == id then Some(agents[0].status)
    else
      var r := FirstAgentStatus(agents[1..], id);
      assert r.Some? ==> exists i :: 0 <= i < |agents[1..]| && agents[1..][i].id == id && agents[1..][i].status == r.value;
      r
  }

  /** The kernel row `create_kernel` inserts before calling the agent. */
  function PreparingKernel(kernelId: string, sessId: string, agentId: string, agentAddr: string,
                           accessKey: string, lang: string, req: ResourceSlot): KernelRow
  {
    KernelRow(kernelId, Preparing, sessId, "master", agentId, agentAddr, accessKey, lang,
              req.mem, req.cpu, req.gpu, None, [], [], 0, 0, 0, 0, None)
  }

  /** The update applied once the agent has created the kernel. */
  function RunningKernel(k: KernelRow, info: CreatedInfo): KernelRow
  {
    k.(status := Running, containerId := Some(info.containerId), cpuSet := info.cpuSet, gpuSet := info.gpuSet,
       replInPort := info.replInPort, replOutPort := info.replOutPort,
       stdinPort := info.stdinPort, stdoutPort := info.stdoutPort)
  }

  /** The agents after `mark_kernel_terminated(kernelId)`: the slots recorded
      in the kernel row go back to its agent; no row, no change. */
  function AgentsAfterTermination(agents: seq<AgentRow>, kernels: seq<KernelRow>, kernelId: string): seq<AgentRow>
  {
    match FirstKernel(kernels, kernelId)
    case None => agents
    case Some(k) => ReleaseWhere(agents, k.agent, k)
  }

  /** Reserve followed by terminate restores the agent table. */
  lemma ReserveThenTerminateRestores(agents: seq<AgentRow>, kernels: seq<KernelRow>, k: KernelRow, now: int)
    requires forall i :: 0 <= i < |kernels| ==> kernels[i].id != k.id
    ensures AgentsAfterTermination(ReserveWhere(agents, k.agent, ResourceSlot(None, k.memSlot, k.cpuSlot, k.gpuSlot)),
                                   TerminateKernelWhere(kernels + [k], k.id, now), k.id) == agents
  {
    var ks := TerminateKernelWhere(kernels + [k], k.id, now);
    var first := FirstKernel(ks, k.id);
    assert ks[|kernels|].id == k.id;
    assert first.Some?;
    assert first.value.agent == k.agent && first.value.memSlot == k.memSlot
        && first.value.cpuSlot == k.cpuSlot && first.value.gpuSlot == k.gpuSlot by {
      var j :| 0 <= j < |ks| && ks[j] == first.value;
      assert j == |kernels|;
    }
  }

  /** Terminating the same kernel twice releases its slots twice. */
  lemma TerminateTwiceReleasesTwice(agents: seq<AgentRow>, kernels: seq<KernelRow>, kernelId: string, i: nat)
    requires i < |agents|
    requires FirstKernel(kernels, kernelId).Some? && FirstKernel(kernels, kernelId).value.agent == agents[i].id
    ensures var k := FirstKernel(kernels, kernelId).value;
      var twice := AgentsAfterTermination(AgentsAfterTermination(agents, kernels, kernelId), kernels, kernelId);
      twice[i].usedMemSlots == agents[i].usedMemSlots - 2 * k.memSlot &&
      twice[i].usedCpuSlots == agents[i].usedCpuSlots - 2 * k.cpuSlot &&
      twice[i].usedGpuSlots == agents[i].usedGpuSlots - 2 * k.gpuSlot
  {
  }

  /** `agents.id` is the primary key. */
  predicate UniqueIds(agents: seq<AgentRow>)
  {
    forall i, j :: 0 <= i < j < |agents| ==> agents[i].id != agents[j].id
  }

  /** `handle_heartbeat`: an unknown agent joins ALIVE with nothing used, an
      ALIVE agent is left alone, a LOST or TERMINATED agent is revived. */
  function AfterHeartbeat(agents: seq<AgentRow>, id: string, info: AgentInfo, now: int): seq<AgentRow>
  {
    match FirstAgentStatus(agents, id)
    case None => agents + [AgentRow(id, Alive, info.memSlots, info.cpuSlots, info.gpuSlots, 0, 0, 0, info.addr, now, None)]
    case Some(Alive) => agents
    case Some(_) => ReviveWhere(agents, id)
  }

  /** After a heartbeat every row of that agent is ALIVE, a new row starts with
      nothing used and no `lost_at`, a revived row has `lost_at` cleared and
      keeps its slot counters, and every other row is unchanged. */
  lemma HeartbeatMakesAlive(agents: seq<AgentRow>, id: string, info: AgentInfo, now: int)
    requires UniqueIds(agents)
    ensures var r := AfterHeartbeat(agents, id, info, now);
      && UniqueIds(r)
      && (forall i :: 0 <= i < |r| && r[i].id == id ==> r[i].status == Alive)
      && (exists i :: 0 <= i < |r| && r[i].id == id)
      && (forall i :: 0 <= i < |agents| && agents[i].id != id ==> r[i] == agents[i])
      && (forall i :: 0 <= i < |agents| && agents[i].id == id ==>
            r[i] == (if agents[i].status == Alive then agents[i] else agents[i].(status := Alive, lostAt := None)))
      && (FirstAgentStatus(agents, id).None? ==>
            |r| == |agents| + 1 && r[|agents|].usedMemSlots == 0 && r[|agents|].usedCpuSlots == 0 &&
            r[|agents|].usedGpuSlots == 0 && r[|agents|].lostAt.None?)
      && (FirstAgentStatus(agents, id).Some? ==> |r| == |agents|)
  {
    match FirstAgentStatus(agents, id)
    case None => HeartbeatJoins(agents, id, info, now);
    case Some(Alive) => HeartbeatKeepsAlive(agents, id);
    case Some(_) => HeartbeatRevives(agents, id);
  }

  /** An unknown agent becomes one new ALIVE row at the end. */
  lemma HeartbeatJoins(agents: seq<AgentRow>, id: string, info: AgentInfo, now: int)
    requires UniqueIds(agents)
    requires FirstAgentStatus(agents, id).None?
    ensures var r := agents + [AgentRow(id, Alive, info.memSlots, info.cpuSlots, info.gpuSlots, 0, 0, 0, info.addr, now, None)];
      && UniqueIds(r)
      && (forall i :: 0 <= i < |r| && r[i].id == id ==> r[i].status == Alive)
      && r[|agents|].id == id
  {
  }

  /** With unique ids a row carrying the id is the only one. */
  lemma OnlyRowWithId(agents: seq<AgentRow>, id: string, j: nat)
    requires UniqueIds(agents)
    requires j < |agents| && agents[j].id == id
    ensures forall i :: 0 <= i < |agents| && agents[i].id == id ==> i == j
  {
  }

  /** With unique ids an ALIVE first row is the only row of that agent. */
  lemma HeartbeatKeepsAlive(agents: seq<AgentRow>, id: string)
    requires UniqueIds(agents)
    requires FirstAgentStatus(agents, id) == Some(Alive)
    ensures forall i :: 0 <= i < |agents| && agents[i].id == id ==> agents[i].status == Alive
    ensures exists i :: 0 <= i < |agents| && agents[i].id == id
  {
    var j :| 0 <= j < |agents| && agents[j].id == id && agents[j].status == Alive;
    OnlyRowWithId(agents, id, j);
  }

  /** Reviving keeps ids and leaves the agent's rows ALIVE. */
  lemma HeartbeatRevives(agents: seq<AgentRow>, id: string)
    requires UniqueIds(agents)
    requires FirstAgentStatus(agents, id).Some? && FirstAgentStatus(agents, id) != Some(Alive)
    ensures var r := ReviveWhere(agents, id);
      && UniqueIds(r)
      && (forall i :: 0 <= i < |r| && r[i].id == id ==> r[i].status == Alive)
      && (exists i :: 0 <= i < |r| && r[i].id == id)
      && (forall i :: 0 <= i < |agents| && agents[i].id == id ==> agents[i].status != Alive)
  {
    var st := FirstAgentStatus(agents, id).value;
    var j :| 0 <= j < |agents| && agents[j].id == id && agents[j].status == st;
    var r := ReviveWhere(agents, id);
    assert r[j].id == id;
    OnlyRowWithId(agents, id, j);
    assert forall i :: 0 <= i < |r| ==> r[i].id == agents[i].id;
  }

  /** A second heartbeat of the same agent changes nothing. */
  lemma HeartbeatIdempotent(agents: seq<AgentRow>, id: string, info: AgentInfo, now: int, later: int)
    requires UniqueIds(agents)
    ensures AfterHeartbeat(AfterHeartbeat(agents, id, info, now), id, info, later) == AfterHeartbeat(agents, id, info, now)
  {
    var once := AfterHeartbeat(agents, id, info, now);
    HeartbeatMakesAlive(agents, id, info, now);
    var j :| 0 <= j < |once| && once[j].id == id;
    assert FirstAgentStatus(once, id) == Some(Alive) by {
      var st := FirstAgentStatus(once, id);
      assert st.Some?;
      var i :| 0 <= i < |once| && once[i].id == id && once[i].status == st.value;
    }
  }

  /** A forgotten agent offers no slots to `create_kernel`. */
  lemma ForgottenAgentNotCandidate(agents: seq<AgentRow>, id: string, now: int)
    ensures forall s :: s in AliveFree(ForgetWhere(agents, id, now)) ==> s.id != Some(id)
  {
    var r := ForgetWhere(agents, id, now);
    AliveFreeMembers(r);
    forall s | s in AliveFree(r) ensures s.id != Some(id) {
      var a :| a in r && a.status == Alive && s == FreeSlot(a);
      var i :| 0 <= i < |r| && r[i] == a;
    }
  }

  /** The kernels of a session in table order. */
  function SessionKernels(kernels: seq<KernelRow>, sessId: string): (r: seq<KernelRow>)
    ensures forall k :: k in r <==> k in kernels && k.sessId == sessId
    ensures |r| <= |kernels|
  {
    if kernels == [] then []
    else (if kernels[0].sessId == sessId then [kernels[0]] else []) + SessionKernels(kernels[1..], sessId)
  }

  /** `mark_session_terminated`: the owner key of the session's first kernel
      gets its `concurrency_used` lowered by the session's kernel count. */
  function ConcurrencyAfterSession(concurrency: map<string, int>, kernels: seq<KernelRow>, sessId: string): map<string, int>
  {
    var all := SessionKernels(kernels, sessId);
    if |all| == 0 then concurrency
    else
      var ak := all[0].accessKey;
      if ak in concurrency then concurrency[ak := concurrency[ak] - |all|] else concurrency
  }

  /** The update touches no other key and is the identity for a session
      without kernels. */
  lemma SessionTerminationCounts(concurrency: map<string, int>, kernels: seq<KernelRow>, sessId: string)
    ensures var r := ConcurrencyAfterSession(concurrency, kernels, sessId);
      && r.Keys == concurrency.Keys
      && (forall ak :: ak in concurrency && ak in r && r[ak] != concurrency[ak] ==>
            exists k :: k in kernels && k.sessId == sessId && k.accessKey == ak)
      && ((forall k :: k in kernels ==> k.sessId != sessId) ==> r == concurrency)
  {
    var all := SessionKernels(kernels, sessId);
    if |all| > 0 {
      assert all[0] in all;
    } else {
      assert forall k :: k in kernels && k.sessId == sessId ==> k in all;
    }
  }

  /** When every kernel of the session belongs to the same owner key, that
      key's counter drops by the number of kernels of the session. */
  lemma SessionTerminationSingleOwner(concurrency: map<string, int>, kernels: seq<KernelRow>, sessId: string, ak: string)
    requires ak in concurrency
    requires exists k :: k in kernels && k.sessId == sessId
    requires forall k :: k in kernels && k.sessId == sessId ==> k.accessKey == ak
    ensures ConcurrencyAfterSession(concurrency, kernels, sessId) ==
            concurrency[ak := concurrency[ak] - |SessionKernels(kernels, sessId)|]
  {
    var all := SessionKernels(kernels, sessId);
    var k :| k in kernels && k.sessId == sessId;
    assert k in all;
    assert all[0] in all;
  }

  /** The result of `create_kernel` together with the agent and kernel
      tables it leaves behind. */
  datatype CreateRun = CreateRun(result: Result<KernelAccessInfo, Exc>, agents: seq<AgentRow>, kernels: seq<KernelRow>)

  /** `create_kernel` on the given tables, step by step: pick an agent,
      reserve the slots (exactly one row must be hit), insert the PREPARING
      master kernel, call the agent and mark the kernel RUNNING; every
      failure rolls the transaction back. */
  function CreateKernelRun(agents: seq<AgentRow>, kernels: seq<KernelRow>, sessId: string, lang: string,
                           ownerAccessKey: string, kernelId: string, rpc: RpcOutcome): (o: CreateRun)
    ensures o.result.Err? ==> o.agents == agents && o.kernels == kernels
    ensures ChosenSlot(agents, KernelSlot(lang)).None? ==> o.result == Err(InstanceNotAvailable)
    ensures o.result.Ok? <==>
      && ChosenSlot(agents, KernelSlot(lang)).Some?
      && CountWithId(agents, ChosenSlot(agents, KernelSlot(lang)).value.id.value) == 1
      && CreateKernelFailure(rpc, kernelId).None?
    ensures o.result.Ok? ==>
      var info := o.result.value;
      var req := KernelSlot(lang);
      && Some(info.agent) == ChosenSlot(agents, req).value.id
      && info.id == kernelId && info.sessId == sessId
      && (exists i :: 0 <= i < |agents| && agents[i].id == info.agent && agents[i].addr == info.agentAddr)
      && |o.agents| == |agents|
      && (forall i :: 0 <= i < |agents| ==>
            o.agents[i] == if agents[i].id == info.agent then Reserve(agents[i], req) else agents[i])
      && |o.kernels| == |kernels| + 1 && o.kernels[..|kernels|] == kernels
      && var k := o.kernels[|kernels|];
         && k.id == kernelId && k.status == Running && k.role == "master" && k.sessId == sessId
         && k.agent == info.agent && k.agentAddr == info.agentAddr && k.accessKey == ownerAccessKey
         && k.memSlot == req.mem && k.cpuSlot == req.cpu && k.gpuSlot == req.gpu
  {
    var req := KernelSlot(lang);
    match ChosenSlot(agents, req)
    case None => CreateRun(Err(InstanceNotAvailable), agents, kernels)
    case Some(s) =>
      var agentId := s.id.value;
      if CountWithId(agents, agentId) != 1 then CreateRun(Err(AssertionError), agents, kernels)
      else
        var addr := FirstAgentAddr(agents, agentId).value;
        match CreateKernelFailure(rpc, kernelId)
        case Some(e) => CreateRun(Err(e), agents, kernels)
        case None =>
          CreateRun(Ok(KernelAccessInfo(kernelId, sessId, agentId, addr)),
                    ReserveWhere(agents, agentId, req),
                    kernels + [RunningKernel(PreparingKernel(kernelId, sessId, agentId, addr, ownerAccessKey, lang, req), rpc.info.value)])
  }

  // ---------------------------------------------------------------------
  // The registry

  class InstanceRegistry {
    var agents: seq<AgentRow>
    var kernels: seq<KernelRow>
    /** `keypairs.concurrency_used`, by access key. */
    var concurrencyUsed: map<string, int>

    constructor (agents0: seq<AgentRow>, kernels0: seq<KernelRow>, concurrency0: map<string, int>)
      ensures agents == agents0 && kernels == kernels0 && concurrencyUsed == concurrency0
    {
      agents, kernels, concurrencyUsed := agents0, kernels0, concurrency0;
    }

    /** `create_kernel` inside its own transaction (the caller passed no
        connection): pick an agent, reserve the slots, insert a PREPARING
        master kernel, call the agent and mark the kernel RUNNING. If anything
        fails the transaction rolls back and the tables are as before.
        `kernelId` stands for `uuid4()`, hence fresh. */
    method CreateKernel(sessId: string, lang: string, ownerAccessKey: string, kernelId: string, rpc: RpcOutcome)
      returns (r: Result<KernelAccessInfo, Exc>)
      requires forall i :: 0 <= i < |kernels| ==> kernels[i].id != kernelId
      modifies this`agents, this`kernels
      ensures CreateRun(r, agents, kernels) == CreateKernelRun(old(agents), old(kernels), sessId, lang, ownerAccessKey, kernelId, rpc)
    {
      var req := KernelSlot(lang);
      var avail := ScanAvailable(agents);
      var fitting := Fitting(avail, req);
      if fitting == [] {
        return Err(InstanceNotAvailable);
      }
      var chosen := fitting[ArgMaxFirst(fitting, Total)];
      assert ChosenSlot(agents, req) == Some(chosen);
      var agentId := chosen.id.value;
      var savedAgents, savedKernels := agents, kernels;
      // reserve slots; the update must hit exactly one row
      agents := ReserveWhere(agents, agentId, req);
      var rowcount := CountWithId(savedAgents, agentId);
      if rowcount != 1 {
        agents := savedAgents;
        return Err(AssertionError);
      }
      // the reservation leaves `addr` as it was
      var agentAddr := FirstAgentAddr(savedAgents, agentId).value;
      var prepared := PreparingKernel(kernelId, sessId, agentId, agentAddr, ownerAccessKey, lang, req);
      kernels := kernels + [prepared];
      var failure := CreateKernelFailure(rpc, kernelId);
      if failure.Some? {
        agents, kernels := savedAgents, savedKernels;
        return Err(failure.value);
      }
      // the fresh id names only the row just inserted
      kernels := savedKernels + [RunningKernel(prepared, rpc.info.value)];
      return Ok(KernelAccessInfo(kernelId, sessId, agentId, agentAddr));
    }

    /** `get_or_create_kernel`: `existing` is what `get_kernel_session` found
        (None for KernelNotFound); the flag tells whether a kernel was created. */
    method GetOrCreateKernel(sessToken: string, lang: string, ownerAccessKey: string,
                             existing: Option<KernelAccessInfo>, kernelId: string, rpc: RpcOutcome)
      returns (r: Result<(KernelAccessInfo, bool), Exc>)
      requires forall i :: 0 <= i < |kernels| ==> kernels[i].id != kernelId
      modifies this`agents, this`kernels
      ensures ownerAccessKey == "" ==> r == Err(AssertionError) && unchanged(this)
      ensures ownerAccessKey != "" && existing.Some? ==> r == Ok((existing.value, false)) && unchanged(this)
      ensures r.Ok? && existing.None? ==> r.value.1 && r.value.0.id == kernelId
      ensures ownerAccessKey != "" && existing.None? ==>
        var o := CreateKernelRun(old(agents), old(kernels), sessToken, lang, ownerAccessKey, kernelId, rpc);
        && agents == o.agents && kernels == o.kernels
        && r == (if o.result.Ok? then Ok((o.result.value, true)) else Err(o.result.error))
    {
      if ownerAccessKey == "" {
        return Err(AssertionError);
      }
      if existing.Some? {
        return Ok((existing.value, false));
      }
      var created := CreateKernel(sessToken, lang, ownerAccessKey, kernelId, rpc);
      if created.Err? {
        return Err(created.error);
      }
      return Ok((created.value, true));
    }

    /** `mark_kernel_terminated`: the row becomes TERMINATED and its recorded
        slots go back to its agent. */
    method MarkKernelTerminated(kernelId: string, now: int)
      modifies this`agents, this`kernels
      ensures kernels == TerminateKernelWhere(old(kernels), kernelId, now)
      ensures agents == AgentsAfterTermination(old(agents), kernels, kernelId)
    {
      kernels := TerminateKernelWhere(kernels, kernelId, now);
      var kernel := FirstKernel(kernels, kernelId);
      if kernel.None? {
        return;
      }
      var k := kernel.value;
      agents := ReleaseWhere(agents, k.agent, k);
    }

    method HandleHeartbeat(agentId: string, info: AgentInfo, now: int)
      modifies this`agents
      ensures agents == AfterHeartbeat(old(agents), agentId, info, now)
    {
      var prevStatus := FirstAgentStatus(agents, agentId);
      match prevStatus {
        case None =>
          agents := agents + [AgentRow(agentId, Alive, info.memSlots, info.cpuSlots, info.gpuSlots,
                                       0, 0, 0, info.addr, now, None)];
        case Some(Alive) =>
        case Some(_) =>
          agents := ReviveWhere(agents, agentId);
      }
    }

    method ForgetInstance(instId: string, now: int)
      modifies this`agents
      ensures agents == ForgetWhere(old(agents), instId, now)
    {
      agents := ForgetWhere(agents, instId, now);
    }

    method MarkSessionTerminated(sessId: string)
      modifies this`concurrencyUsed
      ensures concurrencyUsed == ConcurrencyAfterSession(old(concurrencyUsed), kernels, sessId)
    {
      var allKernels := SessionKernels(kernels, sessId);
      var numKernels := |allKernels|;
      if numKernels > 0 {
        var accessKey := allKernels[0].accessKey;
        if accessKey in concurrencyUsed {
          concurrencyUsed := concurrencyUsed[accessKey := concurrencyUsed[accessKey] - numKernels];
        }
      }
    }
  }

  /** The error `create_kernel` raises once the kernel row is prepared, if
      the agent call does not produce a matching record: None becomes
      `KernelCreationFailed('ooops')`, a record for another id fails the
      assertion, and RPC errors go through `RPCContext`; all of them then pass
      through `handle_kernel_exception('create_kernel', ...)`. */
  function CreateKernelFailure(rpc: RpcOutcome, kernelId: string): (f: Option<Exc>)
    ensures f.None? <==> rpc.RpcReturned? && rpc.info.Some? && rpc.info.value.id == kernelId
  {
    match rpc
    case RpcReturned(None) => Some(CreateHandler(KernelOpFailure(KernelCreationFailed, "ooops", None)))
    case RpcReturned(Some(info)) => if info.id == kernelId then None else Some(CreateHandler(AssertionError))
    case RpcRaised(e) => Some(CreateHandler(RpcContextError(e)))
  }

  /** What `handle_kernel_exception('create_kernel', ...)` lets out, with no
      callbacks and `set_error` off. */
  function CreateHandler(e: Exc): Exc
  {
    HandleKernelException("create_kernel", e, false, false, false).raised
  }

  /** Every slot kept by the filter was in the scan and meets the requirement. */
  lemma {:induction false} FittingMembers(avail: seq<ResourceSlot>, req: ResourceSlot)
    ensures forall s :: s in Fitting(avail, req) <==> s in avail && Fits(s, req)
  {
    if avail != [] {
      var n := |avail| - 1;
      FittingMembers(avail[..n], req);
      assert avail == avail[..n] + [avail[n]];
    }
  }
}
