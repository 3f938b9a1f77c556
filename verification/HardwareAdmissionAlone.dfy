/** What one call of the admission protocol comes to when nobody else steps: which devices it
    is admitted on, what it is refused with, and what it leaves behind. */
module HardwareAdmissionAlone {
  import opened HardwareAdmission
  import opened HardwareAdmissionSafety

  /** The device and the call's place after `n` of its own steps, or fewer if it has to wait. */
  function Alone(d: Device, id: nat, a: Activity, n: nat): Step
    decreases n
  {
    if n == 0 || !Enabled(d, a.pc) then Step(d, a.pc)
    else
      var x := Exec(d, id, a);
      Alone(x.d, id, a.(pc := x.pc), n - 1)
  }

  /** One step of the call: what remains is what it does alone from there. */
  lemma Goes(d: Device, id: nat, a: Activity, n: nat, d': Device, pc': Pc)
    requires n > 0 && Enabled(d, a.pc) && Exec(d, id, a) == Step(d', pc')
    ensures Alone(d, id, a, n) == Alone(d', id, a.(pc := pc'), n - 1)
  {
  }

  /** Every run can go on with one call stepping alone. */
  lemma {:induction false} AloneIsARun(r: seq<System>, id: nat, n: nat) returns (x: seq<System>)
    requires Run(r) && |r| > 0 && id in Last(r).acts
    ensures Run(x) && r <= x
    ensures var y := Alone(Last(r).dev, id, Last(r).acts[id], n);
            Last(x) == System(y.d, Last(r).acts[id := Last(r).acts[id].(pc := y.pc)])
    decreases n
  {
    var s := Last(r);
    var a := s.acts[id];
    if n == 0 || !Enabled(s.dev, a.pc) {
      assert s.acts == s.acts[id := a.(pc := a.pc)];
      x := r;
    } else {
      var Step(d, pc) := Exec(s.dev, id, a);
      var t := System(d, s.acts[id := a.(pc := pc)]);
      assert StepBy(s, t, id);
      RunExtends(r, t);
      x := AloneIsARun(r + [t], id, n - 1);
      assert Last(r + [t]) == t && t.acts[id] == a.(pc := pc);
      var y := Alone(d, id, a.(pc := pc), n - 1);
      assert s.acts[id := a.(pc := pc)][id := a.(pc := y.pc)] == s.acts[id := a.(pc := y.pc)];
    }
  }

  // ---- who is admitted ----

  /** The task of the call owns a transition that is under way. */
  predicate InOwnTransition(d: Device, a: Activity) {
    d.state in {Resetting, Suspending, Resuming, ShuttingDown} && a.inTask && d.owner == By(a.task)
  }

  /** The documented result for a state that does not admit a call. */
  function DocumentedErrno(s: HwState): Errno
    requires s != Running
  {
    match s
    case Resetting => EBUSY
    case Suspending => EBUSY
    case Suspended => EHOSTDOWN
    case Resuming => EBUSY
    case ShuttingDown => ESHUTDOWN
    case Shutdown => ESHUTDOWN
    case Parked => EIO
  }

  lemma OpenTransaction(d: Device, id: nat, a: Activity)
    requires a.pc == Txn(Parked1) && !d.parked && d.state == Running && !d.closing
    ensures Alone(d, id, a, 8) == Step(d.(txns := d.txns + 1), Txn(Held))
  {
    Goes(d, id, a, 8, d, Txn(State1));
    Goes(d, id, a.(pc := Txn(State1)), 7, d, Txn(Closing1));
    Goes(d, id, a.(pc := Txn(Closing1)), 6, d, Txn(Inc));
    OpenTransactionCounts(d, id, a.(pc := Txn(Inc)));
  }

  lemma OpenTransactionCounts(d: Device, id: nat, a: Activity)
    requires a.pc == Txn(Inc) && !d.parked && d.state == Running && !d.closing
    ensures Alone(d, id, a, 5) == Step(d.(txns := d.txns + 1), Txn(Held))
  {
    var e := d.(txns := d.txns + 1);
    Goes(d, id, a, 5, e, Txn(State2));
    Goes(e, id, a.(pc := Txn(State2)), 4, e, Txn(OwnParked2(Running)));
    Goes(e, id, a.(pc := Txn(OwnParked2(Running))), 3, e, Txn(Parked2));
    Goes(e, id, a.(pc := Txn(Parked2)), 2, e, Txn(Closing2));
    Goes(e, id, a.(pc := Txn(Closing2)), 1, e, Txn(Held));
  }

  lemma OwnerTransaction(d: Device, id: nat, a: Activity)
    requires a.pc == Txn(Parked1) && !d.parked && InOwnTransition(d, a)
    ensures Alone(d, id, a, 8) == Step(d.(txns := d.txns + 1), Txn(Held))
  {
    var s := d.state;
    Goes(d, id, a, 8, d, Txn(State1));
    Goes(d, id, a.(pc := Txn(State1)), 7, d, Txn(OwnParked1(s)));
    Goes(d, id, a.(pc := Txn(OwnParked1(s))), 6, d, Txn(Owner1(s)));
    Goes(d, id, a.(pc := Txn(Owner1(s))), 5, d, Txn(Inc));
    OwnerTransactionCounts(d, id, a.(pc := Txn(Inc)));
  }

  lemma OwnerTransactionCounts(d: Device, id: nat, a: Activity)
    requires a.pc == Txn(Inc) && !d.parked && InOwnTransition(d, a)
    ensures Alone(d, id, a, 4) == Step(d.(txns := d.txns + 1), Txn(Held))
  {
    var e, s := d.(txns := d.txns + 1), d.state;
    Goes(d, id, a, 4, e, Txn(State2));
    Goes(e, id, a.(pc := Txn(State2)), 3, e, Txn(OwnParked2(s)));
    Goes(e, id, a.(pc := Txn(OwnParked2(s))), 2, e, Txn(Owner2(s)));
    Goes(e, id, a.(pc := Txn(Owner2(s))), 1, e, Txn(Held));
  }

  /** A transaction that meets no other step is admitted exactly on an unlatched device that is
      RUNNING and open, or in its own task's transition. It then has counted itself and changed
      nothing else; otherwise it has changed nothing at all and returns the documented errno,
      -EIO on a latched device and -EBUSY on a RUNNING one that is closing. */
  lemma TransactionOutcome(d: Device, id: nat, a: Activity)
    requires a.pc == Txn(Parked1)
    ensures !d.parked && ((d.state == Running && !d.closing) || InOwnTransition(d, a)) ==>
              Alone(d, id, a, 8) == Step(d.(txns := d.txns + 1), Txn(Held))
    ensures d.parked || !((d.state == Running && !d.closing) || InOwnTransition(d, a)) ==>
              var e := if d.parked then EIO else if d.state == Running then EBUSY else DocumentedErrno(d.state);
              Alone(d, id, a, 8) == Step(d, Done(Refused(e)))
  {
    if !d.parked && d.state == Running && !d.closing {
      OpenTransaction(d, id, a);
    } else if !d.parked && InOwnTransition(d, a) {
      OwnerTransaction(d, id, a);
    } else if d.parked {
      Goes(d, id, a, 8, d, Done(Refused(EIO)));
    } else {
      ClosedTransaction(d, id, a);
    }
  }

  lemma ClosedTransaction(d: Device, id: nat, a: Activity)
    requires a.pc == Txn(Parked1) && !d.parked
    requires !((d.state == Running && !d.closing) || InOwnTransition(d, a))
    ensures var e := if d.state == Running then EBUSY else DocumentedErrno(d.state);
            Alone(d, id, a, 8) == Step(d, Done(Refused(e)))
  {
    var s := d.state;
    Goes(d, id, a, 8, d, Txn(State1));
    if s == Running {
      Goes(d, id, a.(pc := Txn(State1)), 7, d, Txn(Closing1));
      Goes(d, id, a.(pc := Txn(Closing1)), 6, d, Done(Refused(EBUSY)));
    } else {
      var e := DocumentedErrno(s);
      Goes(d, id, a.(pc := Txn(State1)), 7, d, Txn(OwnParked1(s)));
      if s in {Resetting, Suspending, Resuming, ShuttingDown} {
        Goes(d, id, a.(pc := Txn(OwnParked1(s))), 6, d, Txn(Owner1(s)));
        Goes(d, id, a.(pc := Txn(Owner1(s))), 5, d, Done(Refused(e)));
      } else {
        Goes(d, id, a.(pc := Txn(OwnParked1(s))), 6, d, Done(Refused(e)));
      }
    }
  }

  lemma OpenReader(d: Device, id: nat, a: Activity)
    requires a.pc == Rd(RState1) && !d.parked && d.state == Running
    ensures Alone(d, id, a, 5) == Step(d.(readers := d.readers + 1), Rd(RHeld))
  {
    var e := d.(readers := d.readers + 1);
    Goes(d, id, a, 5, d, Rd(RParked1(Running)));
    Goes(d, id, a.(pc := Rd(RParked1(Running))), 4, d, Rd(RInc));
    Goes(d, id, a.(pc := Rd(RInc)), 3, e, Rd(RState2));
    Goes(e, id, a.(pc := Rd(RState2)), 2, e, Rd(RParked2));
    Goes(e, id, a.(pc := Rd(RParked2)), 1, e, Rd(RHeld));
  }

  lemma OwnerReader(d: Device, id: nat, a: Activity)
    requires a.pc == Rd(RState1) && !d.parked && InOwnTransition(d, a)
    ensures Alone(d, id, a, 8) == Step(d.(readers := d.readers + 1), Rd(RHeld))
  {
    var s := d.state;
    Goes(d, id, a, 8, d, Rd(RParked1(s)));
    Goes(d, id, a.(pc := Rd(RParked1(s))), 7, d, Rd(ROwnParked1(s)));
    Goes(d, id, a.(pc := Rd(ROwnParked1(s))), 6, d, Rd(ROwner1(s)));
    Goes(d, id, a.(pc := Rd(ROwner1(s))), 5, d, Rd(RInc));
    OwnerReaderCounts(d, id, a.(pc := Rd(RInc)));
  }

  lemma OwnerReaderCounts(d: Device, id: nat, a: Activity)
    requires a.pc == Rd(RInc) && !d.parked && InOwnTransition(d, a)
    ensures Alone(d, id, a, 4) == Step(d.(readers := d.readers + 1), Rd(RHeld))
  {
    var e, s := d.(readers := d.readers + 1), d.state;
    Goes(d, id, a, 4, e, Rd(RState2));
    Goes(e, id, a.(pc := Rd(RState2)), 3, e, Rd(ROwnParked2(s)));
    Goes(e, id, a.(pc := Rd(ROwnParked2(s))), 2, e, Rd(ROwner2(s)));
    Goes(e, id, a.(pc := Rd(ROwner2(s))), 1, e, Rd(RHeld));
  }

  lemma ClosedReader(d: Device, id: nat, a: Activity)
    requires a.pc == Rd(RState1) && (d.parked || (d.state != Running && !InOwnTransition(d, a)))
    ensures Alone(d, id, a, 8) == Step(d, Done(Refused(if d.parked then EIO else DocumentedErrno(d.state))))
  {
    var s := d.state;
    Goes(d, id, a, 8, d, Rd(RParked1(s)));
    if d.parked {
      Goes(d, id, a.(pc := Rd(RParked1(s))), 7, d, Done(Refused(EIO)));
    } else {
      var e := DocumentedErrno(s);
      Goes(d, id, a.(pc := Rd(RParked1(s))), 7, d, Rd(ROwnParked1(s)));
      if s in {Resetting, Suspending, Resuming, ShuttingDown} {
        Goes(d, id, a.(pc := Rd(ROwnParked1(s))), 6, d, Rd(ROwner1(s)));
        Goes(d, id, a.(pc := Rd(ROwner1(s))), 5, d, Done(Refused(e)));
      } else {
        Goes(d, id, a.(pc := Rd(ROwnParked1(s))), 6, d, Done(Refused(e)));
      }
    }
  }

  /** The same for a reader, which a closing gate does not stop. */
  lemma ReaderOutcome(d: Device, id: nat, a: Activity)
    requires a.pc == Rd(RState1)
    ensures !d.parked && d.state == Running ==>
              Alone(d, id, a, 5) == Step(d.(readers := d.readers + 1), Rd(RHeld))
    ensures !d.parked && InOwnTransition(d, a) ==>
              Alone(d, id, a, 8) == Step(d.(readers := d.readers + 1), Rd(RHeld))
    ensures d.parked || (d.state != Running && !InOwnTransition(d, a)) ==>
              Alone(d, id, a, 8) == Step(d, Done(Refused(if d.parked then EIO else DocumentedErrno(d.state))))
  {
    if d.parked || (d.state != Running && !InOwnTransition(d, a)) {
      ClosedReader(d, id, a);
    } else if d.state == Running {
      OpenReader(d, id, a);
    } else {
      OwnerReader(d, id, a);
    }
  }

  // ---- how an admitted or rolled back call leaves ----

  /** The queue check of whoever takes the transaction counter to zero. */
  function AfterCount(d: Device): Device {
    d.(queued := d.queued || (d.txns == 0 && d.pending && !d.running))
  }

  lemma CheckAlone(d: Device, id: nat, a: Activity, k: AfterCheck, n: nat)
    requires a.pc == Ck(Pending, k) && d.txns == 0 && n >= 3
    requires k.Return? || !AfterCount(d).queued
    ensures Alone(d, id, a, n) == Step(AfterCount(d), if k.Return? then Done(k.r) else Wk(Idle))
  {
    var pc := if k.Return? then Done(k.r) else Wk(Idle);
    if !d.pending {
      Goes(d, id, a, n, d, pc);
    } else {
      Goes(d, id, a, n, d, Ck(Running1, k));
      if d.running {
        Goes(d, id, a.(pc := Ck(Running1, k)), n - 1, d, pc);
      } else {
        Goes(d, id, a.(pc := Ck(Running1, k)), n - 1, d, Ck(Count, k));
        Goes(d, id, a.(pc := Ck(Count, k)), n - 2, d.(queued := true), pc);
      }
    }
  }

  /** The end of an admitted transaction takes back its count and succeeds; the last one hands a
      pending publication to the work queue unless the work item is running. */
  lemma TransactionEnd(d: Device, id: nat, a: Activity)
    requires a.pc == Txn(Held) && d.txns > 0
    ensures Alone(d, id, a, 5) == Step(AfterCount(d.(txns := d.txns - 1)), Done(Ok))
  {
    var e := d.(txns := d.txns - 1);
    Goes(d, id, a, 5, d, Txn(End));
    if d.txns == 1 {
      Goes(d, id, a.(pc := Txn(End)), 4, e, Ck(Pending, Return(Ok)));
      CheckAlone(e, id, a.(pc := Ck(Pending, Return(Ok))), Return(Ok), 3);
    } else {
      Goes(d, id, a.(pc := Txn(End)), 4, e, Done(Ok));
    }
  }

  lemma ReaderEnd(d: Device, id: nat, a: Activity)
    requires a.pc == Rd(RHeld) && d.readers > 0
    ensures Alone(d, id, a, 2) == Step(d.(readers := d.readers - 1), Done(Ok))
  {
    Goes(d, id, a, 2, d, Rd(REnd));
    Goes(d, id, a.(pc := Rd(REnd)), 1, d.(readers := d.readers - 1), Done(Ok));
  }

  /** A transaction that finds the device closed, latched or in a transition that is not its own
      after it has counted itself takes the count back, and is refused with the state's errno,
      or with -EBUSY if the state still shows RUNNING. */
  lemma TransactionRolledBack(d: Device, id: nat, a: Activity)
    requires a.pc == Txn(State2) && d.txns > 0
    requires d.parked || (if d.state == Running then d.closing else !InOwnTransition(d, a))
    ensures var e := if d.state == Running then EBUSY else DocumentedErrno(d.state);
            Alone(d, id, a, 8) == Step(AfterCount(d.(txns := d.txns - 1)), Done(Refused(e)))
  {
    var s := d.state;
    Goes(d, id, a, 8, d, Txn(OwnParked2(s)));
    if s == Running {
      Goes(d, id, a.(pc := Txn(OwnParked2(s))), 7, d, Txn(Parked2));
      if d.parked {
        Goes(d, id, a.(pc := Txn(Parked2)), 6, d, Txn(Rollback(s)));
        RollbackAlone(d, id, a.(pc := Txn(Rollback(s))), 5);
      } else {
        Goes(d, id, a.(pc := Txn(Parked2)), 6, d, Txn(Closing2));
        Goes(d, id, a.(pc := Txn(Closing2)), 5, d, Txn(Rollback(s)));
        RollbackAlone(d, id, a.(pc := Txn(Rollback(s))), 4);
      }
    } else if !d.parked && s in {Resetting, Suspending, Resuming, ShuttingDown} {
      Goes(d, id, a.(pc := Txn(OwnParked2(s))), 7, d, Txn(Owner2(s)));
      Goes(d, id, a.(pc := Txn(Owner2(s))), 6, d, Txn(Rollback(s)));
      RollbackAlone(d, id, a.(pc := Txn(Rollback(s))), 5);
    } else {
      Goes(d, id, a.(pc := Txn(OwnParked2(s))), 7, d, Txn(Rollback(s)));
      RollbackAlone(d, id, a.(pc := Txn(Rollback(s))), 6);
    }
  }

  lemma RollbackAlone(d: Device, id: nat, a: Activity, n: nat)
    requires a.pc.Txn? && a.pc.t.Rollback? && d.txns > 0 && n >= 4
    ensures var e := if a.pc.t.s == Running then EBUSY else DocumentedErrno(a.pc.t.s);
            Alone(d, id, a, n) == Step(AfterCount(d.(txns := d.txns - 1)), Done(Refused(e)))
  {
    var e := Refused(if a.pc.t.s == Running then EBUSY else DocumentedErrno(a.pc.t.s));
    var f := d.(txns := d.txns - 1);
    if d.txns == 1 {
      Goes(d, id, a, n, f, Ck(Pending, Return(e)));
      CheckAlone(f, id, a.(pc := Ck(Pending, Return(e))), Return(e), n - 1);
    } else {
      Goes(d, id, a, n, f, Done(e));
    }
  }

  /** The same for a reader; its errno for a state that still shows RUNNING is -EALREADY. */
  lemma ReaderRolledBack(d: Device, id: nat, a: Activity)
    requires a.pc == Rd(RState2) && d.readers > 0
    requires d.parked || (d.state != Running && !InOwnTransition(d, a))
    ensures var e := if d.state == Running then EALREADY else DocumentedErrno(d.state);
            Alone(d, id, a, 4) == Step(d.(readers := d.readers - 1), Done(Refused(e)))
  {
    if d.state == Running {
      ReaderMeetsLatchAlone(d, id, a);
    } else {
      ReaderMeetsTransition(d, id, a);
    }
  }

  lemma ReaderMeetsLatchAlone(d: Device, id: nat, a: Activity)
    requires a.pc == Rd(RState2) && d.readers > 0 && d.parked && d.state == Running
    ensures Alone(d, id, a, 4) == Step(d.(readers := d.readers - 1), Done(Refused(EALREADY)))
  {
    Goes(d, id, a, 4, d, Rd(RParked2));
    Goes(d, id, a.(pc := Rd(RParked2)), 3, d, Rd(ROwnParked2(Running)));
    Goes(d, id, a.(pc := Rd(ROwnParked2(Running))), 2, d, Rd(RRollback(Running)));
    Goes(d, id, a.(pc := Rd(RRollback(Running))), 1, d.(readers := d.readers - 1), Done(Refused(EALREADY)));
  }

  lemma ReaderMeetsTransition(d: Device, id: nat, a: Activity)
    requires a.pc == Rd(RState2) && d.readers > 0 && d.state != Running && (d.parked || !InOwnTransition(d, a))
    ensures Alone(d, id, a, 4) == Step(d.(readers := d.readers - 1), Done(Refused(DocumentedErrno(d.state))))
  {
    var s := d.state;
    Goes(d, id, a, 4, d, Rd(ROwnParked2(s)));
    if !d.parked && s in {Resetting, Suspending, Resuming, ShuttingDown} {
      Goes(d, id, a.(pc := Rd(ROwnParked2(s))), 3, d, Rd(ROwner2(s)));
      Goes(d, id, a.(pc := Rd(ROwner2(s))), 2, d, Rd(RRollback(s)));
      ReaderRollbackAlone(d, id, a.(pc := Rd(RRollback(s))), 1);
    } else {
      Goes(d, id, a.(pc := Rd(ROwnParked2(s))), 3, d, Rd(RRollback(s)));
      ReaderRollbackAlone(d, id, a.(pc := Rd(RRollback(s))), 2);
    }
  }

  lemma ReaderRollbackAlone(d: Device, id: nat, a: Activity, n: nat)
    requires a.pc.Rd? && a.pc.r.RRollback? && a.pc.r.s != Running && n > 0
    ensures Alone(d, id, a, n) == Step(d.(readers := d.readers - 1), Done(Refused(DocumentedErrno(a.pc.r.s))))
  {
    Goes(d, id, a, n, d.(readers := d.readers - 1), Done(Refused(DocumentedErrno(a.pc.r.s))));
  }

  /** A call on an open device that meets no other step leaves the device as it found it. */
  lemma TransactionRoundTrip(d: Device, id: nat, a: Activity)
    requires a.pc == Txn(Parked1) && !d.parked && d.state == Running && !d.closing && !d.pending && d.txns >= 0
    ensures Alone(d, id, a, 8).pc == Txn(Held)
    ensures var x := Alone(d, id, a, 8); Alone(x.d, id, a.(pc := x.pc), 5) == Step(d, Done(Ok))
  {
    OpenTransaction(d, id, a);
    TransactionEnd(d.(txns := d.txns + 1), id, a.(pc := Txn(Held)));
  }

  // ---- transitions ----

  predicate Free(d: Device) {
    d.trLock.Nobody? && d.stLock.Nobody? && d.txns == 0 && d.readers == 0
  }

  /** The device while a transition is held. */
  function HeldBy(d: Device, id: nat, task: nat, target: HwState): Device {
    d.(trLock := By(id), closing := true, owner := By(task), state := target)
  }

  lemma OrdinaryTransition(d: Device, id: nat, a: Activity, q: Request)
    requires a.pc == Tr(Lock(q)) && ValidRequest(q) && Free(d)
    requires !q.terminal && !d.parked && d.state == q.expected
    ensures Alone(d, id, a, 11) == Step(HeldBy(d, id, a.task, q.target), Tr(THeld(q)))
  {
    var d1 := d.(trLock := By(id));
    var d2 := d1.(closing := true);
    Goes(d, id, a, 11, d1, Tr(TParked0(q)));
    Goes(d1, id, a.(pc := Tr(TParked0(q))), 10, d1, Tr(TState0(q)));
    Goes(d1, id, a.(pc := Tr(TState0(q))), 9, d1, Tr(Close(q)));
    Goes(d1, id, a.(pc := Tr(Close(q))), 8, d2, Tr(WaitTxns(q)));
    Goes(d2, id, a.(pc := Tr(WaitTxns(q))), 7, d2, Tr(TParked1(q)));
    Goes(d2, id, a.(pc := Tr(TParked1(q))), 6, d2, Tr(Own(q)));
    OwnedTransition(d2, id, a.(pc := Tr(Own(q))), q);
  }

  lemma OwnedTransition(d: Device, id: nat, a: Activity, q: Request)
    requires a.pc == Tr(Own(q)) && ValidRequest(q) && d.readers == 0 && d.stLock.Nobody?
    requires !q.terminal && !d.parked && d.state == q.expected
    ensures Alone(d, id, a, 5) == Step(d.(owner := By(a.task), state := q.target), Tr(THeld(q)))
  {
    var d3 := d.(owner := By(a.task));
    var d4 := d3.(state := q.target);
    Goes(d, id, a, 5, d3, Tr(Publish(q)));
    Goes(d3, id, a.(pc := Tr(Publish(q))), 4, d4, Tr(WaitReaders(q)));
    DrainedTransition(d4, id, a.(pc := Tr(WaitReaders(q))), q);
  }

  lemma DrainedTransition(d: Device, id: nat, a: Activity, q: Request)
    requires a.pc == Tr(WaitReaders(q)) && !q.terminal && d.readers == 0 && !d.parked && d.state != Parked
    ensures Alone(d, id, a, 3) == Step(d, Tr(THeld(q)))
  {
    Goes(d, id, a, 3, d, Tr(TParked2(q)));
    Goes(d, id, a.(pc := Tr(TParked2(q))), 2, d, Tr(TState2(q)));
    Goes(d, id, a.(pc := Tr(TState2(q))), 1, d, Tr(THeld(q)));
  }

  lemma TerminalTransition(d: Device, id: nat, a: Activity, q: Request)
    requires a.pc == Tr(Lock(q)) && Free(d) && q.terminal
    ensures Alone(d, id, a, 7) == Step(HeldBy(d, id, a.task, q.target), Tr(THeld(q)))
  {
    var d1 := d.(trLock := By(id));
    var d2 := d1.(closing := true);
    Goes(d, id, a, 7, d1, Tr(TState0(q)));
    Goes(d1, id, a.(pc := Tr(TState0(q))), 6, d1, Tr(Close(q)));
    Goes(d1, id, a.(pc := Tr(Close(q))), 5, d2, Tr(WaitTxns(q)));
    Goes(d2, id, a.(pc := Tr(WaitTxns(q))), 4, d2, Tr(Own(q)));
    OwnedShutdown(d2, id, a.(pc := Tr(Own(q))), q);
  }

  lemma OwnedShutdown(d: Device, id: nat, a: Activity, q: Request)
    requires a.pc == Tr(Own(q)) && d.readers == 0 && d.stLock.Nobody? && q.terminal
    ensures Alone(d, id, a, 3) == Step(d.(owner := By(a.task), state := q.target), Tr(THeld(q)))
  {
    var d3 := d.(owner := By(a.task));
    var d4 := d3.(state := q.target);
    Goes(d, id, a, 3, d3, Tr(Publish(q)));
    Goes(d3, id, a.(pc := Tr(Publish(q))), 2, d4, Tr(WaitReaders(q)));
    Goes(d4, id, a.(pc := Tr(WaitReaders(q))), 1, d4, Tr(THeld(q)));
  }

  lemma RefusedTransition(d: Device, id: nat, a: Activity, q: Request)
    requires a.pc == Tr(Lock(q)) && d.trLock.Nobody? && !q.terminal && (d.parked || d.state != q.expected)
    ensures var e := if d.parked then EIO else if d.state == Running then EALREADY else DocumentedErrno(d.state);
            Alone(d, id, a, 4) == Step(d, Done(Refused(e)))
  {
    var d1 := d.(trLock := By(id));
    Goes(d, id, a, 4, d1, Tr(TParked0(q)));
    if d.parked {
      Goes(d1, id, a.(pc := Tr(TParked0(q))), 3, d1, Tr(Unlock(Refused(EIO))));
      Goes(d1, id, a.(pc := Tr(Unlock(Refused(EIO)))), 2, d, Done(Refused(EIO)));
    } else {
      Goes(d1, id, a.(pc := Tr(TParked0(q))), 3, d1, Tr(TState0(q)));
      WrongState(d1, id, a.(pc := Tr(TState0(q))), q);
    }
  }

  lemma WrongState(d: Device, id: nat, a: Activity, q: Request)
    requires a.pc == Tr(TState0(q)) && !q.terminal && d.state != q.expected
    ensures var e := if d.state == Running then EALREADY else DocumentedErrno(d.state);
            Alone(d, id, a, 2) == Step(d.(trLock := Nobody), Done(Refused(e)))
  {
    var e := Refused(if d.state == Running then EALREADY else DocumentedErrno(d.state));
    Goes(d, id, a, 2, d, Tr(Unlock(e)));
    Goes(d, id, a.(pc := Tr(Unlock(e))), 1, d.(trLock := Nobody), Done(e));
  }

  /** A transition that meets no other step is held exactly if it is the shutdown, or the device
      is unlatched and in the state it expects: the gate is closed, its task owns the hardware,
      and the state shows its target. Otherwise it has changed nothing and returns -EIO on a
      latched device, and the errno of the state it found, -EALREADY for RUNNING. */
  lemma TransitionOutcome(d: Device, id: nat, a: Activity, q: Request)
    requires a.pc == Tr(Lock(q)) && ValidRequest(q) && Free(d)
    ensures q.terminal ==> Alone(d, id, a, 7) == Step(HeldBy(d, id, a.task, q.target), Tr(THeld(q)))
    ensures !q.terminal && !d.parked && d.state == q.expected ==>
              Alone(d, id, a, 11) == Step(HeldBy(d, id, a.task, q.target), Tr(THeld(q)))
    ensures !q.terminal && (d.parked || d.state != q.expected) ==>
              var e := if d.parked then EIO else if d.state == Running then EALREADY else DocumentedErrno(d.state);
              Alone(d, id, a, 4) == Step(d, Done(Refused(e)))
  {
    if q.terminal {
      TerminalTransition(d, id, a, q);
    } else if d.parked || d.state != q.expected {
      RefusedTransition(d, id, a, q);
    } else {
      OrdinaryTransition(d, id, a, q);
    }
  }

  /** The end of a held transition frees the locks and the owner, and shows its final state, or
      PARKED instead if the device was latched meanwhile and is not shut down. The gate is open
      after an end to RUNNING, closed after an end to PARKED, and otherwise as it was. */
  lemma TransitionEnd(d: Device, id: nat, a: Activity, q: Request)
    requires a.pc == Tr(THeld(q)) && d.trLock == By(id) && d.stLock.Nobody? && d.txns == 0 && d.readers == 0
    requires q.final == Parked ==> d.parked
    ensures var f := if q.final != Shutdown && (d.parked || d.state == Parked) then Parked else q.final;
            var open := if f == Running then false else if f == Parked then true else d.closing;
            Alone(d, id, a, 7) ==
              Step(d.(owner := Nobody, state := f, closing := open, trLock := Nobody), Done(Ok))
  {
    var d1 := d.(owner := Nobody);
    Goes(d, id, a, 7, d, Te(EndTxns(q.final)));
    Goes(d, id, a.(pc := Te(EndTxns(q.final))), 6, d, Te(EndReaders(q.final)));
    Goes(d, id, a.(pc := Te(EndReaders(q.final))), 5, d, Te(EndOwner(q.final)));
    Goes(d, id, a.(pc := Te(EndOwner(q.final))), 4, d1, Te(EndPublish(q.final)));
    EndPublishes(d1, id, a.(pc := Te(EndPublish(q.final))), q.final);
  }

  lemma EndPublishes(d: Device, id: nat, a: Activity, final: HwState)
    requires a.pc == Te(EndPublish(final)) && d.trLock == By(id) && d.stLock.Nobody?
    ensures var f := if final != Shutdown && (d.parked || d.state == Parked) then Parked else final;
            var open := if f == Running then false else if f == Parked then true else d.closing;
            Alone(d, id, a, 3) == Step(d.(state := f, closing := open, trLock := Nobody), Done(Ok))
  {
    var f := if final != Shutdown && (d.parked || d.state == Parked) then Parked else final;
    var e := d.(state := f, stLock := By(id));
    Goes(d, id, a, 3, e, Te(EndClose(f)));
    EndCloses(e, id, a.(pc := Te(EndClose(f))), f);
  }

  lemma EndCloses(d: Device, id: nat, a: Activity, f: HwState)
    requires a.pc == Te(EndClose(f)) && d.trLock == By(id)
    ensures var open := if f == Running then false else if f == Parked then true else d.closing;
            Alone(d, id, a, 2) == Step(d.(closing := open, stLock := Nobody, trLock := Nobody), Done(Ok))
  {
    var open := if f == Running then false else if f == Parked then true else d.closing;
    var e := d.(closing := open, stLock := Nobody);
    Goes(d, id, a, 2, e, Te(EndUnlock));
    Goes(e, id, a.(pc := Te(EndUnlock)), 1, e.(trLock := Nobody), Done(Ok));
  }

  /** A reset that is begun and ended on an open device leaves it as it was, open. */
  lemma TransitionRoundTrip(d: Device, id: nat, a: Activity, q: Request)
    requires a.pc == Tr(Lock(q)) && ValidRequest(q) && Free(d) && !d.parked && d.state == Running && !d.closing
    requires d.owner.Nobody? && q.expected == Running && q.final == Running && !q.terminal
    ensures Alone(d, id, a, 11).pc == Tr(THeld(q))
    ensures var x := Alone(d, id, a, 11); Alone(x.d, id, a.(pc := x.pc), 7) == Step(d, Done(Ok))
  {
    OrdinaryTransition(d, id, a, q);
    TransitionEnd(HeldBy(d, id, a.task, q.target), id, a.(pc := Tr(THeld(q))), q);
  }

  /** A shutdown that meets no other step leaves the device in SHUTDOWN, closed and free, latched
      or not. */
  lemma ShutdownOutcome(d: Device, id: nat, a: Activity, q: Request)
    requires a.pc == Tr(Lock(q)) && ValidRequest(q) && Free(d) && q.terminal
    ensures Alone(d, id, a, 7).pc == Tr(THeld(q)) && Alone(d, id, a, 7).d.state == ShuttingDown
    ensures var x := Alone(d, id, a, 7);
            Alone(x.d, id, a.(pc := x.pc), 7) == Step(d.(state := Shutdown, closing := true, owner := Nobody), Done(Ok))
  {
    TerminalTransition(d, id, a, q);
    TransitionEnd(HeldBy(d, id, a.task, q.target), id, a.(pc := Tr(THeld(q))), q);
  }

  /** The requests the driver makes: a reset from RUNNING, a suspend from RUNNING, a resume from
      SUSPENDED, each back to where it may end, and the shutdown. */
  lemma RequestsMade(expected: HwState, target: HwState, final: HwState, terminal: bool)
    ensures ValidRequest(Request(expected, target, final, terminal)) <==>
              if terminal then target == ShuttingDown && final == Shutdown
              else
                (expected, target, final) in {
                  (Running, Resetting, Running), (Running, Resetting, Parked),
                  (Running, Suspending, Running), (Running, Suspending, Suspended), (Running, Suspending, Parked),
                  (Suspended, Resuming, Suspended), (Suspended, Resuming, Running), (Suspended, Resuming, Parked)}
  {
  }

  // ---- transitions that fail under way ----

  /** A state that a park leaves behind. */
  function Terminal(s: HwState): HwState {
    if s == Shutdown then Shutdown else Parked
  }

  /** A latch found behind the wait for transactions. */
  lemma TransitionFails(d: Device, id: nat, a: Activity, q: Request)
    requires a.pc == Tr(WaitTxns(q)) && !q.terminal && d.parked
    requires d.trLock == By(id) && d.stLock.Nobody? && d.txns == 0 && d.readers == 0
    ensures Alone(d, id, a, 5) == Step(d.(state := Terminal(d.state), trLock := Nobody), Done(Refused(EIO)))
  {
    var d1 := d.(state := Terminal(d.state));
    Goes(d, id, a, 5, d, Tr(TParked1(q)));
    Goes(d, id, a.(pc := Tr(TParked1(q))), 4, d, Tr(FailPublish));
    Goes(d, id, a.(pc := Tr(FailPublish)), 3, d1, Tr(FailReaders));
    Goes(d1, id, a.(pc := Tr(FailReaders)), 2, d1, Tr(Unlock(Refused(EIO))));
    Goes(d1, id, a.(pc := Tr(Unlock(Refused(EIO)))), 1, d1.(trLock := Nobody), Done(Refused(EIO)));
  }

  /** A latch, or the state it leaves, found behind the wait for readers. */
  lemma TransitionAborts(d: Device, id: nat, a: Activity, q: Request)
    requires a.pc == Tr(WaitReaders(q)) && !q.terminal && (d.parked || d.state == Parked)
    requires d.trLock == By(id) && d.stLock.Nobody? && d.readers == 0
    ensures Alone(d, id, a, 6) ==
            Step(d.(state := Terminal(d.state), owner := Nobody, trLock := Nobody), Done(Refused(EIO)))
  {
    Goes(d, id, a, 6, d, Tr(TParked2(q)));
    if d.parked {
      Goes(d, id, a.(pc := Tr(TParked2(q))), 5, d, Tr(AbortPublish));
      AbortSteps(d, id, a.(pc := Tr(AbortPublish)), 4);
    } else {
      Goes(d, id, a.(pc := Tr(TParked2(q))), 5, d, Tr(TState2(q)));
      Goes(d, id, a.(pc := Tr(TState2(q))), 4, d, Tr(AbortPublish));
      AbortSteps(d, id, a.(pc := Tr(AbortPublish)), 3);
    }
  }

  lemma AbortSteps(d: Device, id: nat, a: Activity, n: nat)
    requires a.pc == Tr(AbortPublish) && d.trLock == By(id) && d.stLock.Nobody? && n >= 3
    ensures Alone(d, id, a, n) ==
            Step(d.(state := Terminal(d.state), owner := Nobody, trLock := Nobody), Done(Refused(EIO)))
  {
    var d1 := d.(state := Terminal(d.state));
    var d2 := d1.(owner := Nobody);
    Goes(d, id, a, n, d1, Tr(AbortOwner));
    Goes(d1, id, a.(pc := Tr(AbortOwner)), n - 1, d2, Tr(Unlock(Refused(EIO))));
    Goes(d2, id, a.(pc := Tr(Unlock(Refused(EIO)))), n - 2, d2.(trLock := Nobody), Done(Refused(EIO)));
  }

  /** A state other than the expected one found at the publication. */
  lemma TransitionMismatch(d: Device, id: nat, a: Activity, q: Request)
    requires a.pc == Tr(Publish(q)) && !q.terminal && d.state != q.expected
    requires d.trLock == By(id) && d.stLock.Nobody?
    ensures var e := if d.state == Running then EALREADY else DocumentedErrno(d.state);
            Alone(d, id, a, 3) == Step(d.(owner := Nobody, trLock := Nobody), Done(Refused(e)))
  {
    var e := Refused(if d.state == Running then EALREADY else DocumentedErrno(d.state));
    var d1 := d.(owner := Nobody);
    Goes(d, id, a, 3, d, Tr(Mismatch(d.state)));
    Goes(d, id, a.(pc := Tr(Mismatch(d.state))), 2, d1, Tr(Unlock(e)));
    Goes(d1, id, a.(pc := Tr(Unlock(e))), 1, d1.(trLock := Nobody), Done(e));
  }

  // ---- the latch, the publisher and the work item ----

  function Latched(d: Device): Device {
    d.(parked := true, closing := true, state := Terminal(d.state))
  }

  lemma LatchSteps(d: Device, id: nat, a: Activity, u: LatchUse, n: nat)
    requires a.pc == Lt(Park, u) && d.stLock.Nobody? && n >= 3
    ensures var e := Latched(d).(demand := d.demand && u != LatchWork);
            var pc := match u {
              case LatchOnly => Done(Ok)
              case LatchRequest => Lt(Pend, u)
              case LatchPublish => Pb(PbOwned, false, false)
              case LatchWork => Pb(PbOwned, true, false)
            };
            Alone(d, id, a, n) == Alone(e, id, a.(pc := pc), n - 3)
  {
    var d1 := d.(parked := true, stLock := By(id), demand := d.demand && u != LatchWork);
    var d2 := d1.(closing := true);
    var e := Latched(d).(demand := d.demand && u != LatchWork);
    Goes(d, id, a, n, d1, Lt(LClose, u));
    Goes(d1, id, a.(pc := Lt(LClose, u)), n - 1, d2, Lt(LState, u));
    Goes(d2, id, a.(pc := Lt(LState, u)), n - 2, e,
         match u
         case LatchOnly => Done(Ok)
         case LatchRequest => Lt(Pend, u)
         case LatchPublish => Pb(PbOwned, false, false)
         case LatchWork => Pb(PbOwned, true, false));
  }

  /** The latch sets the latch, closes the gate and shows a terminal state, and nothing else. */
  lemma LatchOutcome(d: Device, id: nat, a: Activity)
    requires a.pc == Lt(Park, LatchOnly) && d.stLock.Nobody?
    ensures Alone(d, id, a, 3) == Step(Latched(d), Done(Ok))
  {
    LatchSteps(d, id, a, LatchOnly, 3);
  }

  /** A publication request latches, marks a publication as pending, and queues the work item
      exactly if no transaction is open and the work item is not running. */
  lemma RequestOutcome(d: Device, id: nat, a: Activity)
    requires a.pc == Lt(Park, LatchRequest) && d.stLock.Nobody?
    ensures Alone(d, id, a, 7) ==
            Step(Latched(d).(pending := true, demand := true, queued := d.queued || (d.txns == 0 && !d.running)),
                 Done(Ok))
  {
    var e := Latched(d).(pending := true, demand := true);
    LatchSteps(d, id, a, LatchRequest, 7);
    Goes(Latched(d), id, a.(pc := Lt(Pend, LatchRequest)), 4, e, Ck(Pending, Return(Ok)));
    Goes(e, id, a.(pc := Ck(Pending, Return(Ok))), 3, e, Ck(Running1, Return(Ok)));
    if e.running {
      Goes(e, id, a.(pc := Ck(Running1, Return(Ok))), 2, e, Done(Ok));
    } else {
      Goes(e, id, a.(pc := Ck(Running1, Return(Ok))), 2, e, Ck(Count, Return(Ok)));
      Goes(e, id, a.(pc := Ck(Count, Return(Ok))), 1, if e.txns == 0 then e.(queued := true) else e, Done(Ok));
    }
  }

  /** A publisher behind its latch waits for both counters and leaves the device as it was; only
      the transition's own task does not take the transition lock again. */
  lemma PublisherSteps(d: Device, id: nat, a: Activity, work: bool, n: nat)
    requires a.pc == Pb(PbOwned, work, false) && n >= 8
    requires d.pubLock.Nobody? && d.txns == 0 && d.readers == 0
    requires Owned(d, a) || d.trLock.Nobody?
    ensures Alone(d, id, a, n) ==
            Alone(d, id, a.(pc := if work then Wk(ClearRunning) else Done(Ok)), if Owned(d, a) then n - 6 else n - 8)
  {
    if Owned(d, a) {
      Goes(d, id, a, n, d, Pb(PbLock, work, false));
      PublisherWaits(d, id, a.(pc := Pb(PbLock, work, false)), work, false, n - 1);
    } else {
      Goes(d, id, a, n, d, Pb(PbTrLock, work, false));
      LockedPublisher(d, id, a.(pc := Pb(PbTrLock, work, false)), work, n - 1);
    }
  }

  lemma LockedPublisher(d: Device, id: nat, a: Activity, work: bool, n: nat)
    requires a.pc == Pb(PbTrLock, work, false) && n >= 7
    requires d.trLock.Nobody? && d.pubLock.Nobody? && d.txns == 0 && d.readers == 0
    ensures Alone(d, id, a, n) == Alone(d, id, a.(pc := if work then Wk(ClearRunning) else Done(Ok)), n - 7)
  {
    var d1 := d.(trLock := By(id));
    Goes(d, id, a, n, d1, Pb(PbLock, work, true));
    PublisherWaits(d1, id, a.(pc := Pb(PbLock, work, true)), work, true, n - 1);
    Goes(d1, id, a.(pc := Pb(PbTrUnlock, work, true)), n - 6, d, if work then Wk(ClearRunning) else Done(Ok));
  }

  lemma PublisherWaits(d: Device, id: nat, a: Activity, work: bool, took: bool, n: nat)
    requires a.pc == Pb(PbLock, work, took) && n >= 5
    requires d.pubLock.Nobody? && d.txns == 0 && d.readers == 0
    ensures var pc := if took then Pb(PbTrUnlock, work, took) else if work then Wk(ClearRunning) else Done(Ok);
            Alone(d, id, a, n) == Alone(d, id, a.(pc := pc), n - 5)
  {
    var e := d.(pubLock := By(id));
    Goes(d, id, a, n, e, Pb(PbTxns, work, took));
    Goes(e, id, a.(pc := Pb(PbTxns, work, took)), n - 1, e, Pb(PbReaders, work, took));
    Goes(e, id, a.(pc := Pb(PbReaders, work, took)), n - 2, e, Pb(PbClean, work, took));
    Goes(e, id, a.(pc := Pb(PbClean, work, took)), n - 3, e, Pb(PbUnlock, work, took));
    Goes(e, id, a.(pc := Pb(PbUnlock, work, took)), n - 4, d,
         if took then Pb(PbTrUnlock, work, took) else if work then Wk(ClearRunning) else Done(Ok));
  }

  /** A publisher that meets no other step latches and comes to its end. */
  lemma PublishOutcome(d: Device, id: nat, a: Activity)
    requires a.pc == Lt(Park, LatchPublish) && d.stLock.Nobody? && d.pubLock.Nobody?
    requires d.txns == 0 && d.readers == 0 && (Owned(d, a) || d.trLock.Nobody?)
    ensures Alone(d, id, a, 11) == Step(Latched(d), Done(Ok))
  {
    LatchSteps(d, id, a, LatchPublish, 11);
    PublisherSteps(Latched(d), id, a.(pc := Pb(PbOwned, false, false)), false, 8);
  }

  /** A queued work item serves the request: the device is latched, and nothing is queued,
      pending, running or demanded any more. */
  lemma WorkOutcome(d: Device, a: Activity)
    requires a.pc == Wk(Idle) && d.queued && d.stLock.Nobody? && d.pubLock.Nobody? && d.trLock.Nobody?
    requires d.txns == 0 && d.readers == 0 && !Owned(d, a)
    ensures Alone(d, 0, a, 16) ==
            Step(Latched(d).(queued := false, pending := false, running := false, demand := false), Wk(Idle))
  {
    var d1 := d.(queued := false);
    var d2 := d1.(running := true);
    var d3 := d2.(pending := false);
    Goes(d, 0, a, 16, d1, Wk(SetRunning));
    Goes(d1, 0, a.(pc := Wk(SetRunning)), 15, d2, Wk(ClearPending));
    Goes(d2, 0, a.(pc := Wk(ClearPending)), 14, d3, Lt(Park, LatchWork));
    WorkPublishes(d3, a.(pc := Lt(Park, LatchWork)));
  }

  lemma WorkPublishes(d: Device, a: Activity)
    requires a.pc == Lt(Park, LatchWork) && !d.queued && !d.pending && d.running
    requires d.stLock.Nobody? && d.pubLock.Nobody? && d.trLock.Nobody? && d.txns == 0 && d.readers == 0 && !Owned(d, a)
    ensures Alone(d, 0, a, 13) == Step(Latched(d).(running := false, demand := false), Wk(Idle))
  {
    LatchSteps(d, 0, a, LatchWork, 13);
    WorkWaits(Latched(d).(demand := false), a.(pc := Pb(PbOwned, true, false)), 10);
  }

  lemma WorkWaits(d: Device, a: Activity, n: nat)
    requires a.pc == Pb(PbOwned, true, false) && !d.queued && !d.pending && n >= 10
    requires d.pubLock.Nobody? && d.trLock.Nobody? && d.txns == 0 && d.readers == 0 && !Owned(d, a)
    ensures Alone(d, 0, a, n) == Step(d.(running := false), Wk(Idle))
  {
    PublisherSteps(d, 0, a, true, n);
    WorkEnds(d, a.(pc := Wk(ClearRunning)), n - 8);
  }

  lemma WorkEnds(d: Device, a: Activity, n: nat)
    requires a.pc == Wk(ClearRunning) && !d.queued && !d.pending && n >= 2
    ensures Alone(d, 0, a, n) == Step(d.(running := false), Wk(Idle))
  {
    Goes(d, 0, a, n, d.(running := false), Ck(Pending, WorkDone));
    Goes(d.(running := false), 0, a.(pc := Ck(Pending, WorkDone)), n - 1, d.(running := false), Wk(Idle));
  }
}
