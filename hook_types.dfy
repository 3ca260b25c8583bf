/** The hook vocabulary of the manager's plugin layer: the two closed
    enumerations `HookEventTypes` and `HookResult` with their integer codes. */
module HookTypes {
  import opened Common

  datatype HookEventType =
    | UserSignup
    | UserLogin
    | KernelStart
    | KernelTerminate
    | VfolderCreate
    | VfolderDelete

  /** The integer value of each event type. */
  function EventCode(e: HookEventType): (c: int)
    ensures 0x1000 < c < 0x4000
  {
    match e
    case UserSignup => 0x1001
    case UserLogin => 0x1002
    case KernelStart => 0x2001
    case KernelTerminate => 0x2002
    case VfolderCreate => 0x3001
    case VfolderDelete => 0x3002
  }

  /** Enum value lookup, `HookEventTypes(c)`: a code no member has fails. */
  function EventFromCode(c: int): (r: Option<HookEventType>)
    ensures r.Some? ==> EventCode(r.value) == c
    ensures r.None? ==> forall e: HookEventType :: EventCode(e) != c
  {
    if c == 0x1001 then Some(UserSignup)
    else if c == 0x1002 then Some(UserLogin)
    else if c == 0x2001 then Some(KernelStart)
    else if c == 0x2002 then Some(KernelTerminate)
    else if c == 0x3001 then Some(VfolderCreate)
    else if c == 0x3002 then Some(VfolderDelete)
    else None
  }

  lemma EventCodeRoundTrip(e: HookEventType)
    ensures EventFromCode(EventCode(e)) == Some(e)
  {
  }

  /** The codes are pairwise distinct. */
  lemma EventCodeInjective(e1: HookEventType, e2: HookEventType)
    ensures EventCode(e1) == EventCode(e2) ==> e1 == e2
  {
  }

  /** Exactly six codes are in use. */
  lemma EventCodesAreSix()
    ensures (set e: HookEventType | true :: EventCode(e)) ==
            {0x1001, 0x1002, 0x2001, 0x2002, 0x3001, 0x3002}
  {
    assert EventCode(UserSignup) == 0x1001;
    assert EventCode(UserLogin) == 0x1002;
    assert EventCode(KernelStart) == 0x2001;
    assert EventCode(KernelTerminate) == 0x2002;
    assert EventCode(VfolderCreate) == 0x3001;
    assert EventCode(VfolderDelete) == 0x3002;
  }

  /** The subsystem an event belongs to, as the high digit of its code. */
  datatype Subsystem = User | Kernel | Vfolder

  function SubsystemOf(e: HookEventType): Subsystem
  {
    match e
    case UserSignup | UserLogin => User
    case KernelStart | KernelTerminate => Kernel
    case VfolderCreate | VfolderDelete => Vfolder
  }

  /** `code / 0x1000` is 1 for USER_*, 2 for KERNEL_*, 3 for VFOLDER_*. */
  lemma EventCodeGroupsBySubsystem(e: HookEventType)
    ensures EventCode(e) / 0x1000 == (match SubsystemOf(e) case User => 1 case Kernel => 2 case Vfolder => 3)
    ensures EventCode(e) % 0x1000 in {1, 2}
  {
  }

  datatype HookResult = Bypass | Rejected | Modified

  function ResultCode(r: HookResult): (c: int)
    ensures 0 <= c <= 2
  {
    match r
    case Bypass => 0
    case Rejected => 1
    case Modified => 2
  }

  /** Enum value lookup, `HookResult(c)`. */
  function ResultFromCode(c: int): (r: Option<HookResult>)
    ensures r.Some? ==> ResultCode(r.value) == c
    ensures r.None? ==> forall h: HookResult :: ResultCode(h) != c
  {
    if c == 0 then Some(Bypass)
    else if c == 1 then Some(Rejected)
    else if c == 2 then Some(Modified)
    else None
  }

  lemma ResultCodeRoundTrip(h: HookResult)
    ensures ResultFromCode(ResultCode(h)) == Some(h)
  {
  }
}
