/** The admission protocol of an RS4xx device: transactions, readers, lifecycle
    transitions, the parked latch, the parked publisher and its work item.

    One `Activity` is one call of one of the driver functions by one task. Every
    step is one access to shared memory, so any number of activities interleave
    between any two accesses. Two activities may carry the same task: that covers
    the nesting of readers inside transactions and of both inside a transition,
    and leaves their order free. The atomics are sequentially consistent. */
module HardwareAdmission {

  /** Nobody, or an activity that holds a lock, or a task that owns the hardware. */
  datatype Holder = Nobody | By(id: nat)

  datatype HwState = Running | Resetting | Suspending | Suspended | Resuming | ShuttingDown | Shutdown | Parked

  datatype Errno = EIO | EBUSY | EHOSTDOWN | ESHUTDOWN | EALREADY

  datatype Outcome = Ok | Refused(e: Errno) | Warned

  function StateErrno(s: HwState): Errno {
    match s
    case Parked => EIO
    case Suspended => EHOSTDOWN
    case ShuttingDown | Shutdown => ESHUTDOWN
    case Resetting | Suspending | Resuming => EBUSY
    case Running => EALREADY
  }

  /** The states in which a transition owner keeps hardware access. */
  predicate Transit(s: HwState) {
    s == Resetting || s == Suspending || s == Resuming || s == ShuttingDown
  }

  /** A transition request: a row of the transition owner table. */
  datatype Request = Request(expected: HwState, target: HwState, final: HwState, terminal: bool)

  predicate ValidRequest(q: Request) {
    if q.terminal then q.target == ShuttingDown && q.final == Shutdown
    else
      || (q.expected == Running && q.target == Resetting && q.final in {Running, Parked})
      || (q.expected == Running && q.target == Suspending && q.final in {Running, Suspended, Parked})
      || (q.expected == Suspended && q.target == Resuming && q.final in {Suspended, Running, Parked})
  }

  /** What follows `radeon_rs4xx_latch_parked_state` in its caller. */
  datatype LatchUse = LatchOnly | LatchRequest | LatchPublish | LatchWork

  /** What follows `radeon_rs4xx_queue_parked_publish` in its caller. */
  datatype AfterCheck = Return(r: Outcome) | WorkDone

  /** Program points of `radeon_rs4xx_hardware_transaction_begin` and `_end`. */
  datatype TxnPc =
    | Parked1 | State1 | OwnParked1(s: HwState) | Owner1(s: HwState) | Closing1
    | Inc | State2 | OwnParked2(s: HwState) | Owner2(s: HwState) | Parked2 | Closing2
    | Rollback(s: HwState) | Held | End

  /** Program points of `radeon_rs4xx_hardware_reader_begin` and `_end`. */
  datatype ReaderPc =
    | RState1 | RParked1(s: HwState) | ROwnParked1(s: HwState) | ROwner1(s: HwState)
    | RInc | RState2 | RParked2 | ROwnParked2(s: HwState) | ROwner2(s: HwState)
    | RRollback(s: HwState) | RHeld | REnd

  /** Program points of `radeon_rs4xx_hardware_transition_begin`, `_shutdown_begin`,
      `_transition_start_locked`. */
  datatype TransitionPc =
    | Lock(q: Request) | TParked0(q: Request) | TState0(q: Request) | Close(q: Request) | WaitTxns(q: Request)
    | TParked1(q: Request) | FailPublish | FailReaders | Own(q: Request) | Publish(q: Request)
    | Mismatch(s: HwState) | WaitReaders(q: Request) | TParked2(q: Request) | TState2(q: Request)
    | AbortPublish | AbortOwner | Unlock(r: Outcome) | THeld(q: Request)

  /** Program points of `radeon_rs4xx_hardware_transition_end`. */
  datatype EndPc =
    | EndTxns(f: HwState) | EndReaders(f: HwState) | EndOwner(f: HwState) | EndPublish(f: HwState)
    | EndClose(p: HwState) | EndUnlock

  /** Program points of `radeon_rs4xx_latch_parked_state` and, for `Pend`, of
      `radeon_rs4xx_latch_parked_publication`. */
  datatype LatchPc = Park | LClose | LState | Pend

  /** Program points of `radeon_rs4xx_publish_parked_state` after its latch. */
  datatype PublishPc = PbOwned | PbTrLock | PbLock | PbTxns | PbReaders | PbClean | PbUnlock | PbTrUnlock

  /** Program points of `radeon_rs4xx_queue_parked_publish`. */
  datatype CheckPc = Pending | Running1 | Count

  /** Program points of `radeon_rs4xx_parked_publish_work` outside its callees. */
  datatype WorkPc = Idle | SetRunning | ClearPending | ClearRunning

  /** In `Pb`, `work` says the work item is the caller and `took` that the transition lock was taken. */
  datatype Pc =
    | Txn(t: TxnPc)
    | Rd(r: ReaderPc)
    | Tr(x: TransitionPc)
    | Te(e: EndPc)
    | Lt(l: LatchPc, u: LatchUse)
    | Pb(p: PublishPc, work: bool, took: bool)
    | Ck(c: CheckPc, k: AfterCheck)
    | Wk(w: WorkPc)
    | Done(o: Outcome)

  datatype Activity = Activity(task: nat, inTask: bool, pc: Pc)

  /** The shared fields of the device. `demand` is a history variable: a publication
      was requested and no publication has begun since. */
  datatype Device = Device(
    parked: bool, state: HwState, closing: bool, owner: Holder, txns: int, readers: int,
    pending: bool, running: bool, queued: bool,
    trLock: Holder, stLock: Holder, pubLock: Holder, demand: bool)

  /** The result of one step of one activity. */
  datatype Step = Step(d: Device, pc: Pc)

  datatype System = System(dev: Device, acts: map<nat, Activity>)

  predicate Owned(d: Device, a: Activity) {
    a.inTask && d.owner == By(a.task)
  }

  /** Locks to take and conditions to wait for. A transition is ended to PARKED only by callers
      that have seen the latch set. */
  predicate Enabled(d: Device, pc: Pc) {
    match pc
    case Tr(x) =>
      if x.Lock? then d.trLock.Nobody?
      else if x.Publish? || x.FailPublish? || x.AbortPublish? then d.stLock.Nobody?
      else if x.WaitTxns? then d.txns == 0
      else if x.WaitReaders? || x.FailReaders? then d.readers == 0
      else if x.THeld? then x.q.final == Parked ==> d.parked
      else true
    case Te(e) => if e.EndTxns? then d.txns == 0 else if e.EndPublish? then d.stLock.Nobody? else true
    case Lt(l, _) => l.Park? ==> d.stLock.Nobody?
    case Pb(p, _, _) =>
      if p.PbTrLock? then d.trLock.Nobody?
      else if p.PbLock? then d.pubLock.Nobody?
      else if p.PbTxns? then d.txns == 0
      else true
    case Wk(w) => w.Idle? ==> d.queued
    case Done(_) => false
    case _ => true
  }

  /** The publication request fields stay as they are. */
  predicate SameRequest(d: Device, d': Device) {
    d'.pending == d.pending && d'.running == d.running && d'.queued == d.queued && d'.demand == d.demand
  }

  predicate SameGate(d: Device, d': Device) {
    d'.parked == d.parked && d'.state == d.state && d'.closing == d.closing
  }

  predicate SameLocks(d: Device, d': Device) {
    d'.trLock == d.trLock && d'.stLock == d.stLock && d'.pubLock == d.pubLock
  }

  function ExecTxn(d: Device, a: Activity, t: TxnPc): (r: Step)
    ensures SameGate(d, r.d) && SameRequest(d, r.d) && r.d.readers == d.readers
    ensures SameLocks(d, r.d) && (r.pc.Txn? || r.pc.Ck? || r.pc.Done?)
  {
    match t
    case Parked1 => Step(d, if d.parked then Done(Refused(EIO)) else Txn(State1))
    case State1 => Step(d, Txn(if d.state == Running then Closing1 else OwnParked1(d.state)))
    case OwnParked1(s) => Step(d, if !d.parked && Transit(s) then Txn(Owner1(s)) else Done(Refused(StateErrno(s))))
    case Owner1(s) => Step(d, if Owned(d, a) then Txn(Inc) else Done(Refused(StateErrno(s))))
    case Closing1 => Step(d, if d.closing then Done(Refused(EBUSY)) else Txn(Inc))
    case Inc => Step(d.(txns := d.txns + 1), Txn(State2))
    case State2 => Step(d, Txn(OwnParked2(d.state)))
    case OwnParked2(s) =>
      Step(d, Txn(if !d.parked && Transit(s) then Owner2(s) else if s == Running then Parked2 else Rollback(s)))
    case Owner2(s) => Step(d, Txn(if Owned(d, a) then Held else Rollback(s)))
    case Parked2 => Step(d, Txn(if d.parked then Rollback(Running) else Closing2))
    case Closing2 => Step(d, Txn(if d.closing then Rollback(Running) else Held))
    case Rollback(s) =>
      var refused := Refused(if s == Running then EBUSY else StateErrno(s));
      Step(d.(txns := d.txns - 1), if d.txns == 1 then Ck(Pending, Return(refused)) else Done(refused))
    case Held => Step(d, if d.txns <= 0 then Done(Warned) else Txn(End))
    case End => Step(d.(txns := d.txns - 1), if d.txns == 1 then Ck(Pending, Return(Ok)) else Done(Ok))
  }

  function ExecReader(d: Device, a: Activity, r: ReaderPc): (x: Step)
    ensures SameGate(d, x.d) && SameRequest(d, x.d) && x.d.txns == d.txns
    ensures SameLocks(d, x.d) && (x.pc.Rd? || x.pc.Done?)
  {
    match r
    case RState1 => Step(d, Rd(RParked1(d.state)))
    case RParked1(s) =>
      Step(d, if d.parked then Done(Refused(EIO)) else Rd(if s == Running then RInc else ROwnParked1(s)))
    case ROwnParked1(s) => Step(d, if !d.parked && Transit(s) then Rd(ROwner1(s)) else Done(Refused(StateErrno(s))))
    case ROwner1(s) => Step(d, if Owned(d, a) then Rd(RInc) else Done(Refused(StateErrno(s))))
    case RInc => Step(d.(readers := d.readers + 1), Rd(RState2))
    case RState2 => Step(d, Rd(if d.state == Running then RParked2 else ROwnParked2(d.state)))
    case RParked2 => Step(d, Rd(if d.parked then ROwnParked2(Running) else RHeld))
    case ROwnParked2(s) => Step(d, Rd(if !d.parked && Transit(s) then ROwner2(s) else RRollback(s)))
    case ROwner2(s) => Step(d, Rd(if Owned(d, a) then RHeld else RRollback(s)))
    case RRollback(s) => Step(d.(readers := d.readers - 1), Done(Refused(StateErrno(s))))
    case RHeld => Step(d, if d.readers <= 0 then Done(Warned) else Rd(REnd))
    case REnd => Step(d.(readers := d.readers - 1), Done(Ok))
  }

  /** `radeon_rs4xx_publish_parked_hardware_state_locked`. */
  function ParkedState(s: HwState): HwState {
    if s == Shutdown then s else Parked
  }

  function ExecTransition(d: Device, id: nat, a: Activity, x: TransitionPc): (r: Step)
    ensures SameRequest(d, r.d) && r.d.stLock == d.stLock && r.d.pubLock == d.pubLock && r.d.parked == d.parked
    ensures r.d.txns == d.txns && r.d.readers == d.readers
  {
    match x
    case Lock(q) => Step(d.(trLock := By(id)), Tr(if q.terminal then TState0(q) else TParked0(q)))
    case TParked0(q) => Step(d, Tr(if d.parked then Unlock(Refused(EIO)) else TState0(q)))
    case TState0(q) =>
      Step(d, Tr(if q.terminal || d.state == q.expected then Close(q) else Unlock(Refused(StateErrno(d.state)))))
    case Close(q) => Step(d.(closing := true), Tr(WaitTxns(q)))
    case WaitTxns(q) => Step(d, Tr(if q.terminal then Own(q) else TParked1(q)))
    case TParked1(q) => Step(d, Tr(if d.parked then FailPublish else Own(q)))
    case FailPublish => Step(d.(state := ParkedState(d.state)), Tr(FailReaders))
    case FailReaders => Step(d, Tr(Unlock(Refused(EIO))))
    case Own(q) => Step(d.(owner := By(a.task)), Tr(Publish(q)))
    case Publish(q) =>
      if q.terminal || d.state == q.expected then Step(d.(state := q.target), Tr(WaitReaders(q)))
      else Step(d, Tr(Mismatch(d.state)))
    case Mismatch(s) => Step(d.(owner := Nobody), Tr(Unlock(Refused(StateErrno(s)))))
    case WaitReaders(q) => Step(d, Tr(if q.terminal then THeld(q) else TParked2(q)))
    case TParked2(q) => Step(d, Tr(if d.parked then AbortPublish else TState2(q)))
    case TState2(q) => Step(d, Tr(if d.state == Parked then AbortPublish else THeld(q)))
    case AbortPublish => Step(d.(state := ParkedState(d.state)), Tr(AbortOwner))
    case AbortOwner => Step(d.(owner := Nobody), Tr(Unlock(Refused(EIO))))
    case Unlock(r) => Step(d.(trLock := Nobody), Done(r))
    case THeld(q) => Step(d, Te(EndTxns(q.final)))
  }

  function ExecEnd(d: Device, id: nat, e: EndPc): (r: Step)
    ensures SameRequest(d, r.d)
    ensures r.d.txns == d.txns && r.d.readers == d.readers && !r.pc.Txn? && !r.pc.Rd?
  {
    match e
    case EndTxns(f) => Step(d, Te(EndReaders(f)))
    case EndReaders(f) => Step(d, Te(if d.readers == 0 then EndOwner(f) else EndTxns(f)))
    case EndOwner(f) => Step(d.(owner := Nobody), Te(EndPublish(f)))
    case EndPublish(f) =>
      var p := if f != Shutdown && (d.state == Parked || d.parked) then Parked else f;
      Step(d.(state := p, stLock := By(id)), Te(EndClose(p)))
    case EndClose(p) =>
      Step(d.(closing := if p == Running then false else if p == Parked then true else d.closing, stLock := Nobody),
       Te(EndUnlock))
    case EndUnlock => Step(d.(trLock := Nobody), Done(Ok))
  }

  function ExecLatch(d: Device, id: nat, l: LatchPc, u: LatchUse): (r: Step)
    ensures r.d.txns == d.txns && r.d.readers == d.readers && !r.pc.Txn? && !r.pc.Rd?
  {
    match l
    case Park => Step(d.(parked := true, stLock := By(id), demand := d.demand && u != LatchWork), Lt(LClose, u))
    case LClose => Step(d.(closing := true), Lt(LState, u))
    case LState =>
      Step(d.(state := ParkedState(d.state), stLock := Nobody),
       match u
       case LatchOnly => Done(Ok)
       case LatchRequest => Lt(Pend, u)
       case LatchPublish => Pb(PbOwned, false, false)
       case LatchWork => Pb(PbOwned, true, false))
    case Pend => Step(d.(pending := true, demand := true), Ck(Pending, Return(Ok)))
  }

  function Published(work: bool): Pc {
    if work then Wk(ClearRunning) else Done(Ok)
  }

  function ExecPublish(d: Device, id: nat, a: Activity, p: PublishPc, work: bool, took: bool): (r: Step)
    ensures SameGate(d, r.d) && SameRequest(d, r.d) && r.d.stLock == d.stLock
    ensures r.d.txns == d.txns && r.d.readers == d.readers && !r.pc.Txn? && !r.pc.Rd?
    ensures r.pc.Pb? || r.pc == Published(work)
  {
    match p
    case PbOwned => Step(d, if Owned(d, a) then Pb(PbLock, work, false) else Pb(PbTrLock, work, false))
    case PbTrLock => Step(d.(trLock := By(id)), Pb(PbLock, work, true))
    case PbLock => Step(d.(pubLock := By(id)), Pb(PbTxns, work, took))
    case PbTxns => Step(d, Pb(PbReaders, work, took))
    case PbReaders => Step(d, Pb(if d.readers == 0 then PbClean else PbTxns, work, took))
    case PbClean => Step(d, Pb(PbUnlock, work, took))
    case PbUnlock => Step(d.(pubLock := Nobody), if took then Pb(PbTrUnlock, work, took) else Published(work))
    case PbTrUnlock => Step(d.(trLock := Nobody), Published(work))
  }

  function Checked(k: AfterCheck): Pc {
    match k
    case Return(r) => Done(r)
    case WorkDone => Wk(Idle)
  }

  function ExecCheck(d: Device, c: CheckPc, k: AfterCheck): (r: Step)
    ensures SameGate(d, r.d)
    ensures r.d.txns == d.txns && r.d.readers == d.readers && !r.pc.Txn? && !r.pc.Rd?
  {
    match c
    case Pending => Step(d, if d.pending then Ck(Running1, k) else Checked(k))
    case Running1 => Step(d, if d.running then Checked(k) else Ck(Count, k))
    case Count => Step(if d.txns == 0 then d.(queued := true) else d, Checked(k))
  }

  function ExecWork(d: Device, w: WorkPc): (r: Step)
    ensures SameGate(d, r.d) && SameLocks(d, r.d)
    ensures r.d.txns == d.txns && r.d.readers == d.readers && !r.pc.Txn? && !r.pc.Rd?
    ensures r.pc.Wk? || r.pc == Lt(Park, LatchWork) || r.pc.Ck?
  {
    match w
    case Idle => Step(d.(queued := false), Wk(SetRunning))
    case SetRunning => Step(d.(running := true), Wk(ClearPending))
    case ClearPending => Step(d.(pending := false), Lt(Park, LatchWork))
    case ClearRunning => Step(d.(running := false), Ck(Pending, WorkDone))
  }

  function Exec(d: Device, id: nat, a: Activity): Step {
    match a.pc
    case Txn(t) => ExecTxn(d, a, t)
    case Rd(r) => ExecReader(d, a, r)
    case Tr(x) => ExecTransition(d, id, a, x)
    case Te(e) => ExecEnd(d, id, e)
    case Lt(l, u) => ExecLatch(d, id, l, u)
    case Pb(p, work, took) => ExecPublish(d, id, a, p, work, took)
    case Ck(c, k) => ExecCheck(d, c, k)
    case Wk(w) => ExecWork(d, w)
    case Done(_) => Step(d, a.pc)
  }

  /** Where a new call starts. The work item is activity 0 and never a new call. */
  predicate Entry(pc: Pc) {
    || pc == Txn(Parked1) || pc == Rd(RState1) || (pc.Tr? && pc.x.Lock? && ValidRequest(pc.x.q))
    || (pc.Lt? && pc.l == Park && pc.u != LatchWork)
  }

  ghost predicate Init(s: System) {
    && s.dev == Device(false, Running, false, Nobody, 0, 0, false, false, false, Nobody, Nobody, Nobody, false)
    && s.acts == map[0 := Activity(0, true, Wk(Idle))]
  }

  ghost predicate StepBy(s: System, t: System, id: nat) {
    && id in s.acts && Enabled(s.dev, s.acts[id].pc)
    && var Step(d, pc) := Exec(s.dev, id, s.acts[id]);
       t == System(d, s.acts[id := s.acts[id].(pc := pc)])
  }

  ghost predicate Call(s: System, t: System, id: nat, a: Activity) {
    && id !in s.acts && Entry(a.pc)
    && t == System(s.dev, s.acts[id := a])
  }

  ghost predicate Next(s: System, t: System) {
    || (exists id :: StepBy(s, t, id))
    || (exists id, a :: Call(s, t, id, a))
  }

  ghost predicate NextAt(r: seq<System>, i: nat)
    requires i + 1 < |r|
  {
    Next(r[i], r[i + 1])
  }

  /** A finite run from the initial state; every prefix of a run is a run. */
  ghost predicate Run(r: seq<System>) {
    |r| > 0 && Init(r[0]) && forall i: nat | i + 1 < |r| :: NextAt(r, i)
  }

  // ---- classes of program points ----

  /** Between its increment and its decrement of the transaction counter. */
  predicate CountsTxn(pc: Pc) {
    pc.Txn? && (HotTxn(pc) || pc.t.State2? || pc.t.OwnParked2? || pc.t.Parked2? || pc.t.Rollback? || pc.t.End?)
  }

  predicate CountsReader(pc: Pc) {
    pc.Rd? && (HotReader(pc) || pc.r.RState2? || pc.r.RParked2? || pc.r.ROwnParked2? || pc.r.RRollback? || pc.r.REnd?)
  }

  /** Admitted, or past its last look at the parked latch on the way to admission. */
  predicate HotTxn(pc: Pc) {
    pc.Txn? && (pc.t.Held? || pc.t.Owner2? || pc.t.Closing2?)
  }

  predicate HotReader(pc: Pc) {
    pc.Rd? && (pc.r.RHeld? || pc.r.ROwner2?)
  }

  /** A transition past its wait for the transaction counter. */
  predicate TxnsDrained(pc: Pc) {
    match pc
    case Tr(x) =>
      x.TParked1? || x.Own? || x.Publish? || x.WaitReaders? || x.TParked2? || x.TState2? || x.THeld? ||
      x.AbortPublish? || x.AbortOwner?
    case Te(e) => !e.EndUnlock?
    case _ => false
  }

  /** A transition past its wait for the reader counter. */
  predicate ReadersDrained(pc: Pc) {
    match pc
    case Tr(x) => x.TParked2? || x.TState2? || x.THeld? || x.AbortPublish? || x.AbortOwner?
    case Te(e) => !e.EndClose? && !e.EndUnlock?
    case _ => false
  }

  /** The state a transition is ended to. */
  function FinalOf(e: EndPc): HwState {
    match e
    case EndTxns(f) => f
    case EndReaders(f) => f
    case EndOwner(f) => f
    case EndPublish(f) => f
    case EndClose(p) => p
    case EndUnlock => Running
  }

  predicate OwnsHardware(pc: Pc) {
    match pc
    case Tr(x) =>
      x.Publish? || x.Mismatch? || x.WaitReaders? || x.TParked2? || x.TState2? || x.THeld? || x.AbortPublish? ||
      x.AbortOwner?
    case Te(e) => e.EndTxns? || e.EndReaders? || e.EndOwner?
    case _ => false
  }

  predicate HoldsTr(pc: Pc) {
    match pc
    case Tr(x) => !x.Lock?
    case Te(_) => true
    case Pb(p, _, took) => took && !p.PbOwned? && !p.PbTrLock?
    case _ => false
  }

  predicate HoldsSt(pc: Pc) {
    match pc
    case Lt(l, _) => l.LClose? || l.LState?
    case Te(e) => e.EndClose?
    case _ => false
  }

  predicate HoldsPub(pc: Pc) {
    pc.Pb? && (pc.p.PbTxns? || pc.p.PbReaders? || pc.p.PbClean? || pc.p.PbUnlock?)
  }

  /** What the transition owner table says of every pending request. */
  predicate Sound(q: Request) {
    && Transit(q.target)
    && if q.terminal then q.target == ShuttingDown else q.expected == Running || q.expected == Suspended
  }

  predicate RequestOk(pc: Pc) {
    pc.Tr? ==> match pc.x {
      case Lock(q) => Sound(q)
      case TParked0(q) => Sound(q)
      case TState0(q) => Sound(q)
      case Close(q) => Sound(q)
      case WaitTxns(q) => Sound(q)
      case TParked1(q) => Sound(q)
      case Own(q) => Sound(q)
      case Publish(q) => Sound(q)
      case _ => true
    }
  }

  /** The latch is set at these points. */
  predicate AfterLatch(pc: Pc) {
    match pc
    case Lt(l, _) => !l.Park?
    case Pb(_, _, _) => true
    case Tr(x) => x.FailPublish? || x.FailReaders? || x.AbortPublish?
    case Te(e) => FinalOf(e) == Parked
    case Rd(r) => (r.ROwnParked2? || r.RRollback?) && r.s == Running
    case _ => false
  }

  /** A publisher that has latched and then found the transaction counter at zero. */
  predicate PublisherSawNoTxn(pc: Pc) {
    pc.Pb? && (pc.p.PbReaders? || PublisherDrained(pc))
  }

  /** A publisher that has then found the reader counter at zero: CPU-only cleanup. */
  predicate PublisherDrained(pc: Pc) {
    pc.Pb? && (pc.p.PbClean? || pc.p.PbUnlock?)
  }

  /** The program points of the work item. */
  predicate IsWork(pc: Pc) {
    match pc
    case Wk(_) => true
    case Lt(_, u) => u == LatchWork
    case Pb(_, work, _) => work
    case Ck(_, k) => k == WorkDone
    case _ => false
  }

  predicate WorkActive(pc: Pc) {
    IsWork(pc) && !pc.Ck? && pc != Wk(Idle)
  }

  /** The work item is on its way to a publication that has not begun. */
  predicate WorkWillPublish(pc: Pc) {
    pc == Wk(SetRunning) || pc == Wk(ClearPending) || pc == Lt(Park, LatchWork)
  }

  /** The counter checks of the release functions have not fired. */
  predicate NoWarning(pc: Pc) {
    match pc
    case Tr(x) => x.Unlock? ==> x.r != Warned
    case Ck(_, k) => k != Return(Warned)
    case Done(o) => o != Warned
    case _ => true
  }

  // ---- what one activity knows ----

  predicate KnowsLocks(d: Device, id: nat, pc: Pc) {
    && (HoldsTr(pc) <==> d.trLock == By(id))
    && (HoldsSt(pc) <==> d.stLock == By(id))
    && (HoldsPub(pc) <==> d.pubLock == By(id))
    && (pc.Pb? && pc.p.PbTrUnlock? ==> pc.took)
  }

  predicate KnowsDevice(d: Device, task: nat, pc: Pc) {
    && (AfterLatch(pc) || d.state == Parked ==> d.parked)
    && (OwnsHardware(pc) ==> d.owner == By(task))
    && (TxnsDrained(pc) || (pc.Tr? && pc.x.WaitTxns?) ==> d.closing)
    && (ReadersDrained(pc) || (pc.Tr? && pc.x.WaitReaders?) ==> d.state != Running)
    && (pc.Lt? && pc.l.LState? ==> d.closing)
    && (pc.Te? && pc.e.EndClose? && pc.e.p == Running ==> !d.parked)
  }

  predicate KnowsSelf(id: nat, pc: Pc) {
    && RequestOk(pc)
    && ((id == 0) <==> IsWork(pc))
    && (pc.Lt? && pc.l.Pend? ==> pc.u == LatchRequest)
    && (pc.Rd? && pc.r.ROwner2? ==> Transit(pc.r.s))
    && (pc.Rd? && (pc.r.ROwnParked1? || pc.r.ROwner1?) ==> pc.r.s != Running)
    && NoWarning(pc)
  }

  predicate Knows(d: Device, id: nat, a: Activity) {
    KnowsLocks(d, id, a.pc) && KnowsDevice(d, a.task, a.pc) && KnowsSelf(id, a.pc)
  }

  function Bit(b: bool): int {
    if b then 1 else 0
  }

  /** How a lock moves when activity `id` goes from holding it or not to holding it or not. */
  predicate LockMove(lock: Holder, lock': Holder, id: nat, before: bool, after: bool) {
    if before == after then lock' == lock
    else if after then lock == Nobody && lock' == By(id)
    else lock == By(id) && lock' == Nobody
  }

  predicate LockEffect(d: Device, id: nat, pc: Pc, d': Device, pc': Pc) {
    && LockMove(d.trLock, d'.trLock, id, HoldsTr(pc), HoldsTr(pc'))
    && LockMove(d.stLock, d'.stLock, id, HoldsSt(pc), HoldsSt(pc'))
    && LockMove(d.pubLock, d'.pubLock, id, HoldsPub(pc), HoldsPub(pc'))
  }

  predicate CountEffect(d: Device, pc: Pc, d': Device, pc': Pc) {
    && d'.txns - d.txns == Bit(CountsTxn(pc')) - Bit(CountsTxn(pc))
    && d'.readers - d.readers == Bit(CountsReader(pc')) - Bit(CountsReader(pc))
  }

  /** Who may change what the others rely on. */
  predicate DeviceEffect(d: Device, pc: Pc, d': Device, pc': Pc) {
    && (d.parked ==> d'.parked)
    && (d'.owner != d.owner ==> HoldsTr(pc) && (d'.owner.By? ==> OwnsHardware(pc')))
    && (OwnsHardware(pc) && !OwnsHardware(pc') ==> d'.owner == Nobody)
    && (d'.parked != d.parked ==> d.stLock == Nobody)
    && (d.closing && !d'.closing ==> HoldsTr(pc) && HoldsSt(pc))
    && (d.state != Running && d'.state == Running ==> HoldsTr(pc))
  }

  /** Which looks at the device a caller needs to be admitted and a waiter to go on. */
  predicate GateEffect(d: Device, a: Activity, pc': Pc) {
    && (HotTxn(pc') && !HotTxn(a.pc) ==> !d.parked)
    && (HotReader(pc') && !HotReader(a.pc) ==> !d.parked)
    && (pc' == Txn(Held) && a.pc != Txn(Held) ==> !d.closing || Owned(d, a))
    && (pc' == Rd(RHeld) && a.pc != Rd(RHeld) ==> a.pc == Rd(RParked2) || Owned(d, a))
    && (pc' == Rd(RParked2) && a.pc != Rd(RParked2) ==> d.state == Running)
    && (PublisherSawNoTxn(pc') && !PublisherSawNoTxn(a.pc) ==> d.txns == 0)
    && (PublisherDrained(pc') && !PublisherDrained(a.pc) ==> PublisherSawNoTxn(a.pc) && d.readers == 0)
    && (TxnsDrained(pc') && !TxnsDrained(a.pc) ==> d.txns == 0)
    && (ReadersDrained(pc') && !ReadersDrained(a.pc) ==> TxnsDrained(a.pc) && d.readers == 0)
  }

  predicate LocksStep(d: Device, id: nat, a: Activity, d': Device, pc': Pc) {
    LockEffect(d, id, a.pc, d', pc') && KnowsLocks(d', id, pc')
  }

  predicate DeviceStep(d: Device, a: Activity, d': Device, pc': Pc) {
    DeviceEffect(d, a.pc, d', pc') && KnowsDevice(d', a.task, pc')
  }

  predicate KnowsLock(lock: Holder, id: nat, holds: bool) {
    holds <==> lock == By(id)
  }

  lemma TxnLocks(d: Device, id: nat, a: Activity)
    requires a.pc.Txn? && KnowsLocks(d, id, a.pc)
    ensures var Step(d', pc') := ExecTxn(d, a, a.pc.t); LocksStep(d, id, a, d', pc')
  {
    hide ExecTxn;
  }

  lemma TxnDevice(d: Device, a: Activity)
    requires a.pc.Txn? && KnowsDevice(d, a.task, a.pc)
    ensures var Step(d', pc') := ExecTxn(d, a, a.pc.t); DeviceStep(d, a, d', pc')
  {
  }

  lemma TxnCountsIn(d: Device, a: Activity)
    requires a.pc.Txn? && !CountsTxn(a.pc)
    ensures var Step(d', pc') := ExecTxn(d, a, a.pc.t); d'.txns == d.txns + Bit(CountsTxn(pc'))
  {
  }

  lemma TxnCountsOut(d: Device, a: Activity)
    requires a.pc.Txn? && CountsTxn(a.pc) && d.txns > 0
    ensures var Step(d', pc') := ExecTxn(d, a, a.pc.t); d'.txns == d.txns - 1 + Bit(CountsTxn(pc'))
  {
  }

  /** Whoever takes the transaction counter to zero goes on to the queue check. */
  lemma TxnLast(d: Device, a: Activity)
    requires a.pc.Txn? && d.txns > 0
    ensures var Step(d', pc') := ExecTxn(d, a, a.pc.t); d'.txns == 0 ==> pc'.Ck?
  {
  }

  lemma ReaderLocks(d: Device, id: nat, a: Activity)
    requires a.pc.Rd? && KnowsLocks(d, id, a.pc)
    ensures var Step(d', pc') := ExecReader(d, a, a.pc.r); LocksStep(d, id, a, d', pc')
  {
    hide ExecReader;
  }

  lemma ReaderDevice(d: Device, a: Activity)
    requires a.pc.Rd? && KnowsDevice(d, a.task, a.pc) && (a.pc.r.ROwner2? ==> Transit(a.pc.r.s))
    ensures var Step(d', pc') := ExecReader(d, a, a.pc.r); DeviceStep(d, a, d', pc')
  {
  }

  lemma ReaderCountsIn(d: Device, a: Activity)
    requires a.pc.Rd? && !CountsReader(a.pc)
    ensures var Step(d', pc') := ExecReader(d, a, a.pc.r); d'.readers == d.readers + Bit(CountsReader(pc'))
  {
  }

  lemma ReaderCountsOut(d: Device, a: Activity)
    requires a.pc.Rd? && CountsReader(a.pc) && d.readers > 0
    ensures var Step(d', pc') := ExecReader(d, a, a.pc.r); d'.readers == d.readers - 1 + Bit(CountsReader(pc'))
  {
  }

  lemma TransitionPlaces(d: Device, id: nat, a: Activity)
    requires a.pc.Tr?
    ensures var pc' := ExecTransition(d, id, a, a.pc.x).pc; pc'.Tr? || (pc'.Te? && pc'.e.EndTxns?) || pc'.Done?
  {
  }

  lemma TransitionTrLock(d: Device, id: nat, a: Activity)
    requires a.pc.Tr? && KnowsLock(d.trLock, id, HoldsTr(a.pc)) && Enabled(d, a.pc)
    ensures var Step(d', pc') := ExecTransition(d, id, a, a.pc.x);
            LockMove(d.trLock, d'.trLock, id, HoldsTr(a.pc), HoldsTr(pc')) && KnowsLock(d'.trLock, id, HoldsTr(pc'))
  {
    var Step(d', pc') := ExecTransition(d, id, a, a.pc.x);
    if a.pc.x.Lock? {
      assert d'.trLock == By(id) && pc'.Tr? && !pc'.x.Lock?;
    } else if a.pc.x.Unlock? {
      assert d'.trLock == Nobody && pc'.Done?;
    } else {
      assert d'.trLock == d.trLock && HoldsTr(pc');
    }
  }

  lemma TransitionLocks(d: Device, id: nat, a: Activity)
    requires a.pc.Tr? && KnowsLocks(d, id, a.pc) && Enabled(d, a.pc)
    ensures var Step(d', pc') := ExecTransition(d, id, a, a.pc.x); LocksStep(d, id, a, d', pc')
  {
    hide ExecTransition;
    TransitionPlaces(d, id, a);
    TransitionTrLock(d, id, a);
  }

  lemma TransitionOwner(d: Device, id: nat, a: Activity)
    requires a.pc.Tr? && KnowsDevice(d, a.task, a.pc)
    ensures var Step(d', pc') := ExecTransition(d, id, a, a.pc.x);
            && (d'.owner != d.owner ==> HoldsTr(a.pc) && (d'.owner.By? ==> OwnsHardware(pc')))
            && (OwnsHardware(a.pc) && !OwnsHardware(pc') ==> d'.owner == Nobody)
  {
    var Step(d', pc') := ExecTransition(d, id, a, a.pc.x);
    if a.pc.x.Own? {
      assert pc'.Tr? && pc'.x.Publish?;
    } else if a.pc.x.Mismatch? || a.pc.x.AbortOwner? {
      assert d'.owner == Nobody;
    } else {
      assert d'.owner == d.owner;
    }
  }

  lemma TransitionEffect(d: Device, id: nat, a: Activity)
    requires a.pc.Tr? && KnowsDevice(d, a.task, a.pc) && RequestOk(a.pc) && Enabled(d, a.pc)
    ensures var Step(d', pc') := ExecTransition(d, id, a, a.pc.x); DeviceEffect(d, a.pc, d', pc')
  {
    TransitionOwner(d, id, a);
    hide OwnsHardware;
  }

  /** A transition keeps the latch and the owner known to it. */
  lemma TransitionKnowsLatch(d: Device, id: nat, a: Activity)
    requires a.pc.Tr? && KnowsDevice(d, a.task, a.pc) && RequestOk(a.pc) && Enabled(d, a.pc)
    ensures var Step(d', pc') := ExecTransition(d, id, a, a.pc.x);
            && (AfterLatch(pc') || d'.state == Parked ==> d'.parked)
            && (OwnsHardware(pc') ==> d'.owner == By(a.task))
  {
  }

  lemma TransitionKnows(d: Device, id: nat, a: Activity)
    requires a.pc.Tr? && KnowsDevice(d, a.task, a.pc) && RequestOk(a.pc) && Enabled(d, a.pc)
    ensures var Step(d', pc') := ExecTransition(d, id, a, a.pc.x); KnowsDevice(d', a.task, pc')
  {
    TransitionKnowsLatch(d, id, a);
  }

  lemma TransitionDevice(d: Device, id: nat, a: Activity)
    requires a.pc.Tr? && KnowsDevice(d, a.task, a.pc) && RequestOk(a.pc) && Enabled(d, a.pc)
    ensures var Step(d', pc') := ExecTransition(d, id, a, a.pc.x); DeviceStep(d, a, d', pc')
  {
    hide ExecTransition, DeviceEffect, KnowsDevice;
    TransitionEffect(d, id, a);
    TransitionKnows(d, id, a);
  }

  lemma EndLocks(d: Device, id: nat, a: Activity)
    requires a.pc.Te? && KnowsLocks(d, id, a.pc) && Enabled(d, a.pc)
    ensures var Step(d', pc') := ExecEnd(d, id, a.pc.e); LocksStep(d, id, a, d', pc')
  {
  }

  lemma EndDevice(d: Device, id: nat, a: Activity)
    requires a.pc.Te? && KnowsDevice(d, a.task, a.pc)
    ensures var Step(d', pc') := ExecEnd(d, id, a.pc.e); DeviceStep(d, a, d', pc')
  {
  }

  lemma LatchStep(d: Device, id: nat, a: Activity)
    requires a.pc.Lt? && KnowsLocks(d, id, a.pc) && KnowsDevice(d, a.task, a.pc) && Enabled(d, a.pc)
    ensures var Step(d', pc') := ExecLatch(d, id, a.pc.l, a.pc.u);
            LocksStep(d, id, a, d', pc') && DeviceStep(d, a, d', pc')
  {
  }

  lemma PublishTrLock(d: Device, id: nat, a: Activity)
    requires a.pc.Pb? && KnowsLocks(d, id, a.pc) && Enabled(d, a.pc)
    ensures var Step(d', pc') := ExecPublish(d, id, a, a.pc.p, a.pc.work, a.pc.took);
            && LockMove(d.trLock, d'.trLock, id, HoldsTr(a.pc), HoldsTr(pc')) && KnowsLock(d'.trLock, id, HoldsTr(pc'))
            && (pc'.Pb? && pc'.p.PbTrUnlock? ==> pc'.took)
  {
  }

  lemma PublishPubLock(d: Device, id: nat, a: Activity)
    requires a.pc.Pb? && KnowsLocks(d, id, a.pc) && Enabled(d, a.pc)
    ensures var Step(d', pc') := ExecPublish(d, id, a, a.pc.p, a.pc.work, a.pc.took);
            && LockMove(d.pubLock, d'.pubLock, id, HoldsPub(a.pc), HoldsPub(pc'))
            && KnowsLock(d'.pubLock, id, HoldsPub(pc'))
  {
  }

  lemma PublishLocks(d: Device, id: nat, a: Activity)
    requires a.pc.Pb? && KnowsLocks(d, id, a.pc) && Enabled(d, a.pc)
    ensures var Step(d', pc') := ExecPublish(d, id, a, a.pc.p, a.pc.work, a.pc.took); LocksStep(d, id, a, d', pc')
  {
    hide ExecPublish;
    PublishTrLock(d, id, a);
    PublishPubLock(d, id, a);
  }

  lemma PublishDevice(d: Device, id: nat, a: Activity)
    requires a.pc.Pb? && KnowsDevice(d, a.task, a.pc)
    ensures var Step(d', pc') := ExecPublish(d, id, a, a.pc.p, a.pc.work, a.pc.took); DeviceStep(d, a, d', pc')
  {
  }

  lemma CheckStep(d: Device, id: nat, a: Activity)
    requires a.pc.Ck? && KnowsLocks(d, id, a.pc) && KnowsDevice(d, a.task, a.pc)
    ensures var Step(d', pc') := ExecCheck(d, a.pc.c, a.pc.k); LocksStep(d, id, a, d', pc') && DeviceStep(d, a, d', pc')
  {
  }

  lemma WorkStep(d: Device, id: nat, a: Activity)
    requires a.pc.Wk? && KnowsLocks(d, id, a.pc) && KnowsDevice(d, a.task, a.pc)
    ensures var Step(d', pc') := ExecWork(d, a.pc.w); LocksStep(d, id, a, d', pc') && DeviceStep(d, a, d', pc')
  {
  }

  lemma StepEffect(d: Device, id: nat, a: Activity)
    requires Knows(d, id, a) && Enabled(d, a.pc)
    requires CountsTxn(a.pc) ==> d.txns > 0
    requires CountsReader(a.pc) ==> d.readers > 0
    ensures var Step(d', pc') := Exec(d, id, a);
            LocksStep(d, id, a, d', pc') && DeviceStep(d, a, d', pc') && CountEffect(d, a.pc, d', pc')
  {
    match a.pc
    case Txn(t) =>
      TxnLocks(d, id, a);
      TxnDevice(d, a);
      if CountsTxn(a.pc) { TxnCountsOut(d, a); } else { TxnCountsIn(d, a); }
    case Rd(r) =>
      ReaderLocks(d, id, a);
      ReaderDevice(d, a);
      if CountsReader(a.pc) { ReaderCountsOut(d, a); } else { ReaderCountsIn(d, a); }
    case Tr(x) => TransitionPlaces(d, id, a); TransitionLocks(d, id, a); TransitionDevice(d, id, a);
    case Te(e) => EndLocks(d, id, a); EndDevice(d, id, a);
    case Lt(l, u) => LatchStep(d, id, a);
    case Pb(p, work, took) => PublishLocks(d, id, a); PublishDevice(d, id, a);
    case Ck(c, k) => CheckStep(d, id, a);
    case Wk(w) => WorkStep(d, id, a);
  }

  /** The states in which a latched device can be found, and none of them admits. */
  predicate TerminalState(s: HwState) {
    s == Parked || s == ShuttingDown || s == Shutdown
  }

  /** Outside the locked section of the latch, a parked device is in a terminal state and closed. */
  predicate ParkShown(d: Device, latching: bool) {
    d.parked && !latching ==> TerminalState(d.state) && d.closing
  }

  predicate Latching(pc: Pc) {
    pc.Lt? && (pc.l.LClose? || pc.l.LState?)
  }

  /** `latching` says whether the other activities include one in that locked section. */
  lemma StepKeepsPark(d: Device, id: nat, a: Activity, latching: bool)
    requires KnowsDevice(d, a.task, a.pc) && RequestOk(a.pc) && Enabled(d, a.pc)
    requires latching ==> d.stLock.By? && !HoldsSt(a.pc)
    requires ParkShown(d, latching || Latching(a.pc))
    ensures var Step(d', pc') := Exec(d, id, a); ParkShown(d', latching || Latching(pc'))
  {
    match a.pc case Txn(t) => case Rd(r) => case Tr(x) => case Te(e) =>
    case Lt(l, u) => case Pb(p, work, took) => case Ck(c, k) => case Wk(w) => case Done(_) =>
  }

  lemma StepRequest(d: Device, id: nat, a: Activity)
    requires a.pc.Tr? && RequestOk(a.pc)
    ensures RequestOk(ExecTransition(d, id, a, a.pc.x).pc)
  {
  }

  predicate RoleStep(id: nat, pc: Pc, pc': Pc) {
    (RequestOk(pc') ==> KnowsSelf(id, pc')) && (pc'.Tr? ==> pc.Tr?)
  }

  lemma TxnRole(d: Device, id: nat, a: Activity)
    requires a.pc.Txn? && KnowsSelf(id, a.pc)
    requires CountsTxn(a.pc) ==> d.txns > 0
    ensures RoleStep(id, a.pc, ExecTxn(d, a, a.pc.t).pc)
  {
  }

  lemma ReaderRole(d: Device, id: nat, a: Activity)
    requires a.pc.Rd? && KnowsSelf(id, a.pc)
    requires CountsReader(a.pc) ==> d.readers > 0
    ensures RoleStep(id, a.pc, ExecReader(d, a, a.pc.r).pc)
  {
  }

  lemma TransitionRole(d: Device, id: nat, a: Activity)
    requires a.pc.Tr? && KnowsSelf(id, a.pc)
    ensures RoleStep(id, a.pc, ExecTransition(d, id, a, a.pc.x).pc)
  {
  }

  lemma EndRole(d: Device, id: nat, a: Activity)
    requires a.pc.Te? && KnowsSelf(id, a.pc)
    ensures RoleStep(id, a.pc, ExecEnd(d, id, a.pc.e).pc)
  {
  }

  lemma LatchRole(d: Device, id: nat, a: Activity)
    requires a.pc.Lt? && KnowsSelf(id, a.pc)
    ensures RoleStep(id, a.pc, ExecLatch(d, id, a.pc.l, a.pc.u).pc)
  {
  }

  lemma PublishRole(d: Device, id: nat, a: Activity)
    requires a.pc.Pb? && KnowsSelf(id, a.pc)
    ensures RoleStep(id, a.pc, ExecPublish(d, id, a, a.pc.p, a.pc.work, a.pc.took).pc)
  {
  }

  lemma CheckRole(d: Device, id: nat, a: Activity)
    requires a.pc.Ck? && KnowsSelf(id, a.pc)
    ensures RoleStep(id, a.pc, ExecCheck(d, a.pc.c, a.pc.k).pc)
  {
  }

  lemma WorkRole(d: Device, id: nat, a: Activity)
    requires a.pc.Wk? && KnowsSelf(id, a.pc)
    ensures RoleStep(id, a.pc, ExecWork(d, a.pc.w).pc)
  {
  }

  lemma StepRole(d: Device, id: nat, a: Activity)
    requires KnowsSelf(id, a.pc)
    requires CountsTxn(a.pc) ==> d.txns > 0
    requires CountsReader(a.pc) ==> d.readers > 0
    ensures RoleStep(id, a.pc, Exec(d, id, a).pc)
  {
    match a.pc
    case Txn(t) => TxnRole(d, id, a);
    case Rd(r) => ReaderRole(d, id, a);
    case Tr(x) => TransitionRole(d, id, a);
    case Te(e) => EndRole(d, id, a);
    case Lt(l, u) => LatchRole(d, id, a);
    case Pb(p, work, took) => PublishRole(d, id, a);
    case Ck(c, k) => CheckRole(d, id, a);
    case Wk(w) => WorkRole(d, id, a);
    case Done(_) =>
  }

  lemma StepSelf(d: Device, id: nat, a: Activity)
    requires KnowsSelf(id, a.pc)
    requires CountsTxn(a.pc) ==> d.txns > 0
    requires CountsReader(a.pc) ==> d.readers > 0
    ensures KnowsSelf(id, Exec(d, id, a).pc)
  {
    if a.pc.Tr? { StepRequest(d, id, a); }
    StepRole(d, id, a);
  }

  lemma TxnGate(d: Device, a: Activity)
    requires a.pc.Txn?
    ensures GateEffect(d, a, ExecTxn(d, a, a.pc.t).pc)
  {
  }

  lemma ReaderGate(d: Device, a: Activity)
    requires a.pc.Rd?
    ensures GateEffect(d, a, ExecReader(d, a, a.pc.r).pc)
  {
  }

  lemma TransitionGate(d: Device, id: nat, a: Activity)
    requires a.pc.Tr? && Enabled(d, a.pc)
    ensures GateEffect(d, a, ExecTransition(d, id, a, a.pc.x).pc)
  {
  }

  lemma EndGate(d: Device, id: nat, a: Activity)
    requires a.pc.Te? && Enabled(d, a.pc)
    ensures GateEffect(d, a, ExecEnd(d, id, a.pc.e).pc)
  {
  }

  lemma LatchGate(d: Device, id: nat, a: Activity)
    requires a.pc.Lt?
    ensures GateEffect(d, a, ExecLatch(d, id, a.pc.l, a.pc.u).pc)
  {
  }

  lemma PublishGate(d: Device, id: nat, a: Activity)
    requires a.pc.Pb? && Enabled(d, a.pc)
    ensures GateEffect(d, a, ExecPublish(d, id, a, a.pc.p, a.pc.work, a.pc.took).pc)
  {
  }

  lemma CheckGate(d: Device, a: Activity)
    requires a.pc.Ck?
    ensures GateEffect(d, a, ExecCheck(d, a.pc.c, a.pc.k).pc)
  {
  }

  lemma WorkGate(d: Device, a: Activity)
    requires a.pc.Wk?
    ensures GateEffect(d, a, ExecWork(d, a.pc.w).pc)
  {
  }

  lemma StepGate(d: Device, id: nat, a: Activity)
    requires Enabled(d, a.pc)
    ensures GateEffect(d, a, Exec(d, id, a).pc)
  {
    hide GateEffect;
    match a.pc
    case Txn(t) => TxnGate(d, a);
    case Rd(r) => ReaderGate(d, a);
    case Tr(x) => TransitionGate(d, id, a);
    case Te(e) => EndGate(d, id, a);
    case Lt(l, u) => LatchGate(d, id, a);
    case Pb(p, work, took) => PublishGate(d, id, a);
    case Ck(c, k) => CheckGate(d, a);
    case Wk(w) => WorkGate(d, a);
    case Done(_) =>
  }
}
