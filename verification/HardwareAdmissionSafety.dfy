/** What every interleaving of the admission protocol keeps: exact counters, a
    permanent drain after parking, exclusive transitions, and no lost publication. */
module HardwareAdmissionSafety {
  import opened HardwareAdmission

  ghost function TxnSet(acts: map<nat, Activity>): set<nat> {
    set id | id in acts && CountsTxn(acts[id].pc)
  }

  ghost function ReaderSet(acts: map<nat, Activity>): set<nat> {
    set id | id in acts && CountsReader(acts[id].pc)
  }

  /** The owner field names the activity that holds the transition lock. */
  ghost predicate OwnerHoldsLock(s: System) {
    s.dev.owner.By? ==>
      && s.dev.trLock.By? && s.dev.trLock.id in s.acts
      && OwnsHardware(s.acts[s.dev.trLock.id].pc)
  }

  ghost predicate LockHoldersExist(s: System) {
    && (s.dev.trLock.By? ==> s.dev.trLock.id in s.acts)
    && (s.dev.stLock.By? ==> s.dev.stLock.id in s.acts)
    && (s.dev.pubLock.By? ==> s.dev.pubLock.id in s.acts)
  }

  /** A publisher past its waits leaves nobody admitted and nobody about to be. */
  predicate PublisherExcludes(a: Activity, b: Activity) {
    && (PublisherSawNoTxn(a.pc) ==> !HotTxn(b.pc))
    && (PublisherDrained(a.pc) ==> !HotReader(b.pc))
  }

  /** A transition past its waits shares the hardware with its own task only. */
  predicate TransitionExcludes(a: Activity, b: Activity) {
    && (TxnsDrained(a.pc) && b.pc == Txn(Held) ==> b.inTask && b.task == a.task)
    && (ReadersDrained(a.pc) && b.pc == Rd(RHeld) ==> b.inTask && b.task == a.task)
    && (ReadersDrained(a.pc) ==> b.pc != Rd(RParked2))
  }

  ghost predicate Drains(s: System) {
    forall i, j | i in s.acts && j in s.acts ::
      PublisherExcludes(s.acts[i], s.acts[j]) && TransitionExcludes(s.acts[i], s.acts[j])
  }

  /** Somebody will still look at the pending flag, or the work item already will publish. */
  ghost predicate PublicationAssured(s: System)
    requires 0 in s.acts
  {
    var d, work := s.dev, s.acts[0].pc;
    || WorkWillPublish(work)
    || (d.pending && (d.queued || WorkActive(work) || d.txns != 0 || exists i :: i in s.acts && s.acts[i].pc.Ck?))
  }

  ghost predicate SomeoneLatching(s: System) {
    exists i :: i in s.acts && Latching(s.acts[i].pc)
  }

  ghost predicate Inv(s: System) {
    && 0 in s.acts
    && (forall id | id in s.acts :: Knows(s.dev, id, s.acts[id]))
    && s.dev.txns == |TxnSet(s.acts)| && s.dev.readers == |ReaderSet(s.acts)|
    && LockHoldersExist(s) && OwnerHoldsLock(s)
    && Drains(s)
    && ParkShown(s.dev, SomeoneLatching(s))
    && (s.dev.running ==> WorkActive(s.acts[0].pc))
    && (s.dev.demand ==> PublicationAssured(s))
  }

  // ---- counting ----

  lemma TxnSetUpdate(acts: map<nat, Activity>, id: nat, a: Activity)
    ensures |TxnSet(acts[id := a])| ==
            |TxnSet(acts)| + Bit(CountsTxn(a.pc)) - Bit(id in acts && CountsTxn(acts[id].pc))
  {
    var before, after := TxnSet(acts), TxnSet(acts[id := a]);
    assert after - {id} == before - {id};
    assert |after| == |after - {id}| + Bit(id in after);
    assert |before| == |before - {id}| + Bit(id in before);
  }

  lemma ReaderSetUpdate(acts: map<nat, Activity>, id: nat, a: Activity)
    ensures |ReaderSet(acts[id := a])| ==
            |ReaderSet(acts)| + Bit(CountsReader(a.pc)) - Bit(id in acts && CountsReader(acts[id].pc))
  {
    var before, after := ReaderSet(acts), ReaderSet(acts[id := a]);
    assert after - {id} == before - {id};
    assert |after| == |after - {id}| + Bit(id in after);
    assert |before| == |before - {id}| + Bit(id in before);
  }

  lemma CountedIsPositive(s: System, id: nat)
    requires id in s.acts && s.dev.txns == |TxnSet(s.acts)| && s.dev.readers == |ReaderSet(s.acts)|
    ensures CountsTxn(s.acts[id].pc) ==> s.dev.txns > 0
    ensures CountsReader(s.acts[id].pc) ==> s.dev.readers > 0
  {
    assert CountsTxn(s.acts[id].pc) ==> id in TxnSet(s.acts);
    assert CountsReader(s.acts[id].pc) ==> id in ReaderSet(s.acts);
  }

  lemma CountsKept(s: System, id: nat, d': Device, pc': Pc)
    requires id in s.acts && s.dev.txns == |TxnSet(s.acts)| && s.dev.readers == |ReaderSet(s.acts)|
    requires CountEffect(s.dev, s.acts[id].pc, d', pc')
    ensures var acts := s.acts[id := s.acts[id].(pc := pc')];
            d'.txns == |TxnSet(acts)| && d'.readers == |ReaderSet(acts)|
  {
    TxnSetUpdate(s.acts, id, s.acts[id].(pc := pc'));
    ReaderSetUpdate(s.acts, id, s.acts[id].(pc := pc'));
  }

  // ---- one step ----

  /** What another activity knows survives a step. */
  lemma OthersKnow(d: Device, id: nat, a: Activity, d': Device, pc': Pc, j: nat, b: Activity)
    requires j != id && Knows(d, id, a) && Knows(d, j, b)
    requires LocksStep(d, id, a, d', pc') && DeviceStep(d, a, d', pc')
    ensures Knows(d', j, b)
  {
    assert HoldsTr(a.pc) ==> !HoldsTr(b.pc);
  }

  lemma OwnerKeepsLock(s: System, id: nat, d': Device, pc': Pc)
    requires id in s.acts && OwnerHoldsLock(s) && Knows(s.dev, id, s.acts[id])
    requires LocksStep(s.dev, id, s.acts[id], d', pc') && DeviceStep(s.dev, s.acts[id], d', pc')
    requires OwnsHardware(pc') ==> HoldsTr(pc')
    ensures OwnerHoldsLock(System(d', s.acts[id := s.acts[id].(pc := pc')]))
  {
  }

  /** A publisher and another activity, one of which has stepped. */
  lemma PublisherPairKept(d: Device, a: Activity, pc': Pc, b: Activity)
    requires PublisherExcludes(a, b) && PublisherExcludes(b, a) && GateEffect(d, a, pc')
    requires AfterLatch(b.pc) ==> d.parked
    requires CountsTxn(b.pc) ==> d.txns > 0
    requires CountsReader(b.pc) ==> d.readers > 0
    ensures PublisherExcludes(a.(pc := pc'), b) && PublisherExcludes(b, a.(pc := pc'))
  {
  }

  /** A transition and another activity, one of which has stepped. */
  lemma TransitionPairKept(d: Device, id: nat, a: Activity, pc': Pc, j: nat, b: Activity)
    requires TransitionExcludes(a, b) && TransitionExcludes(b, a) && GateEffect(d, a, pc')
    requires KnowsDevice(d, b.task, b.pc)
    requires CountsTxn(b.pc) ==> d.txns > 0
    requires CountsReader(b.pc) ==> d.readers > 0
    requires Owned(d, a) && TxnsDrained(b.pc) ==> b.task == a.task
    ensures TransitionExcludes(a.(pc := pc'), b) && TransitionExcludes(b, a.(pc := pc'))
  {
  }

  /** A pair in which one activity has stepped. */
  lemma PairKept(s: System, id: nat, pc': Pc, j: nat)
    requires id in s.acts && j in s.acts && Drains(s) && OwnerHoldsLock(s)
    requires Knows(s.dev, id, s.acts[id]) && Knows(s.dev, j, s.acts[j])
    requires s.dev.txns == |TxnSet(s.acts)| && s.dev.readers == |ReaderSet(s.acts)|
    requires GateEffect(s.dev, s.acts[id], pc')
    ensures var a := s.acts[id].(pc := pc');
            j != id ==>
              && PublisherExcludes(a, s.acts[j]) && TransitionExcludes(a, s.acts[j])
              && PublisherExcludes(s.acts[j], a) && TransitionExcludes(s.acts[j], a)
  {
    CountedIsPositive(s, j);
    var a, b := s.acts[id], s.acts[j];
    assert PublisherExcludes(a, b) && TransitionExcludes(a, b);
    assert PublisherExcludes(b, a) && TransitionExcludes(b, a);
    assert Owned(s.dev, a) && TxnsDrained(b.pc) ==> b.task == a.task by { OwnerIsDrained(s, a, j); }
    PublisherPairKept(s.dev, a, pc', b);
    TransitionPairKept(s.dev, id, a, pc', j, b);
  }

  lemma OwnerIsDrained(s: System, a: Activity, j: nat)
    requires j in s.acts && OwnerHoldsLock(s)
    requires KnowsLocks(s.dev, j, s.acts[j].pc) && KnowsDevice(s.dev, s.acts[j].task, s.acts[j].pc)
    ensures Owned(s.dev, a) && TxnsDrained(s.acts[j].pc) ==> s.acts[j].task == a.task
  {
    if Owned(s.dev, a) && TxnsDrained(s.acts[j].pc) { assert s.dev.trLock == By(j); }
  }

  lemma DrainsKept(s: System, id: nat, d': Device, pc': Pc)
    requires Inv(s) && id in s.acts && GateEffect(s.dev, s.acts[id], pc')
    ensures Drains(System(d', s.acts[id := s.acts[id].(pc := pc')]))
  {
    forall j | j in s.acts && j != id
      ensures var a := s.acts[id].(pc := pc');
              && PublisherExcludes(a, s.acts[j]) && TransitionExcludes(a, s.acts[j])
              && PublisherExcludes(s.acts[j], a) && TransitionExcludes(s.acts[j], a)
    {
      PairKept(s, id, pc', j);
    }
  }

  /** The running flag is up only inside the work item. */
  lemma RunningKept(d: Device, id: nat, a: Activity)
    requires Knows(d, id, a) && (id == 0 && d.running ==> WorkActive(a.pc))
    ensures var Step(d', pc') := Exec(d, id, a);
            d'.running ==> if id == 0 then WorkActive(pc') else d.running
  {
    match a.pc case Txn(t) => case Rd(r) => case Tr(x) => case Te(e) =>
    case Lt(l, u) => case Pb(p, work, took) => case Ck(c, k) => case Wk(w) => case Done(_) =>
  }

  /** Why a requested publication is assured after a step by an activity other than a check. */
  predicate AssuredBy(d: Device, work: Pc, checking: bool) {
    WorkWillPublish(work) || (d.pending && (d.queued || WorkActive(work) || d.txns != 0 || checking))
  }

  /** A call of an admission or transition function, or a publisher. */
  lemma CallerKeepsDemand(d: Device, id: nat, a: Activity, work: Pc, checking: bool)
    requires Knows(d, id, a) && (id == 0 ==> work == a.pc)
    requires (a.pc.Txn? || a.pc.Rd? || a.pc.Tr? || a.pc.Te? || a.pc.Pb?) && d.txns >= 0
    requires CountsTxn(a.pc) ==> d.txns > 0
    requires d.demand ==> AssuredBy(d, work, checking)
    ensures var Step(d', pc') := Exec(d, id, a);
            d'.demand ==> AssuredBy(d', if id == 0 then pc' else work, checking || pc'.Ck?)
  {
    if a.pc.Txn? && d.txns > 0 { TxnLast(d, a); }
  }

  lemma LatchKeepsDemand(d: Device, id: nat, a: Activity, work: Pc, checking: bool)
    requires Knows(d, id, a) && (id == 0 ==> work == a.pc) && a.pc.Lt?
    requires d.demand ==> AssuredBy(d, work, checking)
    ensures var Step(d', pc') := ExecLatch(d, id, a.pc.l, a.pc.u);
            d'.demand ==> AssuredBy(d', if id == 0 then pc' else work, checking || pc'.Ck?)
  {
  }

  lemma WorkKeepsDemand(d: Device, a: Activity, checking: bool)
    requires Knows(d, 0, a) && a.pc.Wk?
    requires d.demand ==> AssuredBy(d, a.pc, checking)
    ensures var Step(d', pc') := ExecWork(d, a.pc.w); d'.demand ==> AssuredBy(d', pc', checking || pc'.Ck?)
  {
  }

  /** A check that gives up leaves another reason behind. */
  lemma CheckKeepsDemand(d: Device, id: nat, a: Activity, work: Pc, checking: bool)
    requires Knows(d, id, a) && (id == 0 ==> work == a.pc) && a.pc.Ck?
    requires d.running ==> WorkActive(work)
    requires d.demand ==> AssuredBy(d, work, true)
    ensures var Step(d', pc') := ExecCheck(d, a.pc.c, a.pc.k);
            d'.demand ==> AssuredBy(d', if id == 0 then pc' else work, checking || pc'.Ck?)
  {
  }

  lemma StepKeepsDemand(d: Device, id: nat, a: Activity, work: Pc, checking: bool)
    requires Knows(d, id, a) && (id == 0 ==> work == a.pc)
    requires d.running ==> WorkActive(work)
    requires d.txns >= 0 && (CountsTxn(a.pc) ==> d.txns > 0)
    requires d.demand ==> AssuredBy(d, work, checking || a.pc.Ck?)
    ensures var Step(d', pc') := Exec(d, id, a);
            d'.demand ==> AssuredBy(d', if id == 0 then pc' else work, checking || pc'.Ck?)
  {
    match a.pc
    case Lt(l, u) => LatchKeepsDemand(d, id, a, work, checking);
    case Ck(c, k) => CheckKeepsDemand(d, id, a, work, checking);
    case Wk(w) => WorkKeepsDemand(d, a, checking);
    case Done(_) =>
    case _ => CallerKeepsDemand(d, id, a, work, checking);
  }

  lemma DemandKept(s: System, t: System, id: nat)
    requires 0 in s.acts && StepBy(s, t, id) && Knows(s.dev, id, s.acts[id])
    requires s.dev.txns == |TxnSet(s.acts)| && s.dev.readers == |ReaderSet(s.acts)|
    requires (s.dev.running ==> WorkActive(s.acts[0].pc)) && (s.dev.demand ==> PublicationAssured(s))
    ensures 0 in t.acts && (t.dev.demand ==> PublicationAssured(t))
  {
    var checking := exists i :: i in s.acts && i != id && s.acts[i].pc.Ck?;
    CountedIsPositive(s, id);
    if t.dev.demand {
      StepKeepsDemand(s.dev, id, s.acts[id], s.acts[0].pc, checking);
      if checking {
        var i :| i in s.acts && i != id && s.acts[i].pc.Ck?;
        assert t.acts[i].pc.Ck?;
      }
      assert t.acts[id].pc == Exec(s.dev, id, s.acts[id]).pc;
    }
  }

  lemma ParkKept(s: System, t: System, id: nat)
    requires StepBy(s, t, id) && ParkShown(s.dev, SomeoneLatching(s))
    requires forall i | i in s.acts :: Knows(s.dev, i, s.acts[i])
    ensures ParkShown(t.dev, SomeoneLatching(t))
  {
    var others := exists i :: i in s.acts && i != id && Latching(s.acts[i].pc);
    assert Knows(s.dev, id, s.acts[id]);
    if others {
      var i :| i in s.acts && i != id && Latching(s.acts[i].pc);
      assert Knows(s.dev, i, s.acts[i]);
      assert Latching(t.acts[i].pc);
    }
    StepKeepsPark(s.dev, id, s.acts[id], others);
    assert t.acts[id].pc == Exec(s.dev, id, s.acts[id]).pc;
  }

  lemma KnowledgeKept(s: System, id: nat, d': Device, pc': Pc)
    requires id in s.acts && (forall j | j in s.acts :: Knows(s.dev, j, s.acts[j]))
    requires LocksStep(s.dev, id, s.acts[id], d', pc') && DeviceStep(s.dev, s.acts[id], d', pc') && KnowsSelf(id, pc')
    ensures var acts := s.acts[id := s.acts[id].(pc := pc')]; forall j | j in acts :: Knows(d', j, acts[j])
  {
    forall j | j in s.acts && j != id ensures Knows(d', j, s.acts[j]) {
      OthersKnow(s.dev, id, s.acts[id], d', pc', j, s.acts[j]);
    }
  }

  lemma StepKeepsInv(s: System, t: System, id: nat)
    requires Inv(s) && StepBy(s, t, id)
    ensures Inv(t)
  {
    var a := s.acts[id];
    var Step(d', pc') := Exec(s.dev, id, a);
    assert Knows(s.dev, id, a);
    CountedIsPositive(s, id);
    StepEffect(s.dev, id, a);
    StepSelf(s.dev, id, a);
    StepGate(s.dev, id, a);
    KnowledgeKept(s, id, d', pc');
    CountsKept(s, id, d', pc');
    OwnerKeepsLock(s, id, d', pc');
    DrainsKept(s, id, d', pc');
    RunningKept(s.dev, id, a);
    DemandKept(s, t, id);
    ParkKept(s, t, id);
    assert t == System(d', s.acts[id := a.(pc := pc')]);
  }

  lemma EntryKnows(d: Device, id: nat, a: Activity)
    requires Entry(a.pc) && id != 0 && (d.state == Parked ==> d.parked)
    requires d.trLock != By(id) && d.stLock != By(id) && d.pubLock != By(id)
    ensures Knows(d, id, a) && !CountsTxn(a.pc) && !CountsReader(a.pc)
  {
  }

  lemma CallKeepsDrains(s: System, id: nat, a: Activity)
    requires Drains(s) && Entry(a.pc)
    ensures Drains(System(s.dev, s.acts[id := a]))
  {
  }

  lemma CallKeepsDemand(s: System, id: nat, a: Activity)
    requires id != 0 && id !in s.acts && 0 in s.acts && PublicationAssured(s)
    ensures PublicationAssured(System(s.dev, s.acts[id := a]))
  {
    if i :| i in s.acts && s.acts[i].pc.Ck? {
      assert s.acts[id := a][i].pc.Ck?;
    }
  }

  lemma CallKeepsPark(s: System, id: nat, a: Activity)
    requires id !in s.acts && ParkShown(s.dev, SomeoneLatching(s))
    ensures var t := System(s.dev, s.acts[id := a]); ParkShown(t.dev, SomeoneLatching(t))
  {
    if i :| i in s.acts && Latching(s.acts[i].pc) {
      assert Latching(s.acts[id := a][i].pc);
    }
  }

  lemma CallKeepsInv(s: System, t: System, id: nat, a: Activity)
    requires Inv(s) && Call(s, t, id, a)
    ensures Inv(t)
  {
    TxnSetUpdate(s.acts, id, a);
    ReaderSetUpdate(s.acts, id, a);
    assert Knows(s.dev, 0, s.acts[0]);
    EntryKnows(s.dev, id, a);
    CallKeepsDrains(s, id, a);
    CallKeepsPark(s, id, a);
    if s.dev.demand { CallKeepsDemand(s, id, a); }
  }

  // ---- whole runs ----

  lemma {:induction false} RunKeepsInv(r: seq<System>, i: nat)
    requires Run(r) && i < |r|
    ensures Inv(r[i])
  {
    if i == 0 {
      assert TxnSet(r[0].acts) == {} && ReaderSet(r[0].acts) == {};
    } else {
      RunKeepsInv(r, i - 1);
      var s, t := r[i - 1], r[i];
      assert NextAt(r, i - 1);
      if id :| StepBy(s, t, id) {
        StepKeepsInv(s, t, id);
      } else {
        var id, a :| Call(s, t, id, a);
        CallKeepsInv(s, t, id, a);
      }
    }
  }

  /** The counters are exactly the calls between increment and decrement, and the
      release functions never find a counter at zero. */
  lemma CountersExact(r: seq<System>, i: nat)
    requires Run(r) && i < |r|
    ensures r[i].dev.txns == |TxnSet(r[i].acts)| && r[i].dev.readers == |ReaderSet(r[i].acts)|
    ensures forall id | id in r[i].acts :: r[i].acts[id].pc != Done(Warned)
  {
    RunKeepsInv(r, i);
    forall id | id in r[i].acts ensures r[i].acts[id].pc != Done(Warned) {
      assert Knows(r[i].dev, id, r[i].acts[id]);
    }
  }

  /** Nobody uses the hardware, and nobody already past its last look at the latch will. */
  ghost predicate Quiet(s: System) {
    s.dev.parked && forall j | j in s.acts :: !HotTxn(s.acts[j].pc) && !HotReader(s.acts[j].pc)
  }

  lemma QuietKept(s: System, t: System)
    requires Inv(s) && Quiet(s) && Next(s, t)
    ensures Quiet(t)
  {
    if id :| StepBy(s, t, id) {
      assert Knows(s.dev, id, s.acts[id]);
      CountedIsPositive(s, id);
      StepGate(s.dev, id, s.acts[id]);
      StepEffect(s.dev, id, s.acts[id]);
    }
  }

  lemma DrainedIsQuiet(s: System, publisher: nat)
    requires Inv(s) && publisher in s.acts && PublisherDrained(s.acts[publisher].pc)
    ensures Quiet(s)
  {
    assert Knows(s.dev, publisher, s.acts[publisher]);
    forall id | id in s.acts ensures !HotTxn(s.acts[id].pc) && !HotReader(s.acts[id].pc) {
      assert PublisherExcludes(s.acts[publisher], s.acts[id]);
    }
  }

  lemma QuietNext(r: seq<System>, k: nat)
    requires Run(r) && k + 1 < |r|
    ensures Quiet(r[k]) ==> Quiet(r[k + 1])
  {
    RunKeepsInv(r, k);
    var s, t := r[k], r[k + 1];
    assert NextAt(r, k);
    if Quiet(s) { QuietKept(s, t); }
  }

  lemma {:induction false} QuietForever(r: seq<System>, i: nat, j: nat)
    requires Run(r) && i <= j < |r| && Quiet(r[i])
    ensures Quiet(r[j])
  {
    if i == j {
    } else {
      QuietForever(r, i, j - 1);
      QuietNext(r, j - 1);
    }
  }

  /** Once a publisher has latched the park, found no transaction and then no reader,
      no caller is admitted in that state or in any later state of the run. */
  lemma ParkedDrainIsPermanent(r: seq<System>, i: nat, j: nat, publisher: nat, id: nat)
    requires Run(r) && i <= j < |r| && id in r[j].acts
    requires publisher in r[i].acts && PublisherDrained(r[i].acts[publisher].pc)
    ensures r[j].dev.parked && r[j].acts[id].pc != Txn(Held) && r[j].acts[id].pc != Rd(RHeld)
  {
    RunKeepsInv(r, i);
    DrainedIsQuiet(r[i], publisher);
    QuietForever(r, i, j);
    assert !HotTxn(r[j].acts[id].pc) && !HotReader(r[j].acts[id].pc);
  }

  /** From the end of a transition's waits until it clears the owner field, at its failure or
      its end, every admitted transaction and reader is a call of its task, and no second
      transition owns the hardware. */
  lemma TransitionIsExclusive(r: seq<System>, i: nat, owner: nat, other: nat)
    requires Run(r) && i < |r| && owner in r[i].acts && other in r[i].acts
    requires OwnsHardware(r[i].acts[owner].pc) && ReadersDrained(r[i].acts[owner].pc)
    ensures r[i].acts[other].pc == Txn(Held) || r[i].acts[other].pc == Rd(RHeld) ==>
              r[i].acts[other].inTask && r[i].acts[other].task == r[i].acts[owner].task
    ensures OwnsHardware(r[i].acts[other].pc) ==> other == owner
  {
    RunKeepsInv(r, i);
    assert TransitionExcludes(r[i].acts[owner], r[i].acts[other]);
    assert Knows(r[i].dev, owner, r[i].acts[owner]) && Knows(r[i].dev, other, r[i].acts[other]);
  }

  /** A park is terminal and visible: once latched, and outside the latch's own locked
      section, the device shows a terminal state and stays closed, whatever transition
      was running or ends later. */
  lemma ParkIsTerminal(r: seq<System>, i: nat, j: nat)
    requires Run(r) && i <= j < |r| && r[i].dev.parked
    ensures r[j].dev.parked
    ensures r[j].dev.stLock == Nobody ==> TerminalState(r[j].dev.state) && r[j].dev.closing
  {
    ParkedForever(r, i, j);
    RunKeepsInv(r, j);
    if id :| id in r[j].acts && Latching(r[j].acts[id].pc) {
      assert Knows(r[j].dev, id, r[j].acts[id]);
    }
  }

  lemma ParkStays(s: System, t: System)
    requires Inv(s) && Next(s, t) && s.dev.parked
    ensures t.dev.parked
  {
    if id :| StepBy(s, t, id) {
      assert Knows(s.dev, id, s.acts[id]);
      CountedIsPositive(s, id);
      StepEffect(s.dev, id, s.acts[id]);
    }
  }

  lemma {:induction false} ParkedForever(r: seq<System>, i: nat, j: nat)
    requires Run(r) && i <= j < |r| && r[i].dev.parked
    ensures r[j].dev.parked
  {
    if i == j {
    } else {
      ParkedForever(r, i, j - 1);
      RunKeepsInv(r, j - 1);
      assert NextAt(r, j - 1);
      ParkStays(r[j - 1], r[j]);
    }
  }

  /** On the way to the refusal of a parked device, or refused so. */
  predicate HeadedForEio(pc: Pc) {
    pc == Rd(RState1) || (pc.Rd? && pc.r.RParked1?) || pc == Txn(Parked1) || pc == Done(Refused(EIO))
  }

  /** A reader or an ordinary transaction that begins on a latched device gets nothing but the
      documented -EIO. */
  lemma {:induction false} ParkedCallerGetsEio(r: seq<System>, i: nat, j: nat, id: nat)
    requires Run(r) && i <= j < |r| && id in r[i].acts && r[i].dev.parked && HeadedForEio(r[i].acts[id].pc)
    ensures id in r[j].acts && HeadedForEio(r[j].acts[id].pc)
  {
    if i == j {
    } else {
      ParkedCallerGetsEio(r, i, j - 1, id);
      ParkedForever(r, i, j - 1);
      assert NextAt(r, j - 1);
    }
  }

  /** A requested publication that has not begun is never forgotten: if no transaction is
      open, the work item is idle and no queue check is in flight, then it is queued. */
  lemma PublicationIsNotLost(r: seq<System>, i: nat)
    requires Run(r) && i < |r| && r[i].dev.demand
    requires r[i].dev.txns == 0
    requires forall id | id in r[i].acts :: !r[i].acts[id].pc.Ck?
    requires 0 in r[i].acts && r[i].acts[0].pc == Wk(Idle)
    ensures r[i].dev.queued && r[i].dev.pending
  {
    RunKeepsInv(r, i);
  }

  /** A reader ends with -EALREADY exactly when it is rolled back after reading RUNNING, and
      it then has met a parked device: that result stands for the park between its looks. */
  lemma RunningRollbackMeansParked(r: seq<System>, i: nat, reader: nat)
    requires Run(r) && i + 1 < |r| && reader in r[i].acts && reader in r[i + 1].acts
    requires r[i].acts[reader].pc.Rd? && r[i + 1].acts[reader].pc.Done?
    ensures r[i + 1].acts[reader].pc == Done(Refused(EALREADY)) <==> r[i].acts[reader].pc == Rd(RRollback(Running))
    ensures r[i + 1].acts[reader].pc == Done(Refused(EALREADY)) ==> r[i].dev.parked && r[i + 1].dev.parked
  {
    RunKeepsInv(r, i);
    assert NextAt(r, i);
    var s, t, a := r[i], r[i + 1], r[i].acts[reader];
    assert Knows(s.dev, reader, a);
    CountedIsPositive(s, reader);
    if id :| StepBy(s, t, id) {
      assert id == reader;
      ReaderEnds(s.dev, reader, a);
    }
  }

  lemma ReaderEnds(d: Device, id: nat, a: Activity)
    requires a.pc.Rd? && Knows(d, id, a) && ExecReader(d, a, a.pc.r).pc.Done?
    requires d.readers > 0 || a.pc.r != RHeld
    ensures ExecReader(d, a, a.pc.r).pc == Done(Refused(EALREADY)) <==> a.pc == Rd(RRollback(Running))
    ensures a.pc == Rd(RRollback(Running)) ==> d.parked
    ensures ExecReader(d, a, a.pc.r).d.parked == d.parked
  {
  }

  // ---- the refusal of a parked device ----

  function Last(r: seq<System>): System
    requires |r| > 0
  {
    r[|r| - 1]
  }

  lemma RunExtends(r: seq<System>, t: System)
    requires Run(r) && |r| > 0 && Next(Last(r), t)
    ensures Run(r + [t])
  {
    var x := r + [t];
    forall i: nat | i + 1 < |x| ensures NextAt(x, i) {
      if i + 1 < |r| { assert NextAt(r, i); }
    }
  }

  lemma {:induction false} BoundOf(ids: set<nat>) returns (n: nat)
    ensures forall id | id in ids :: id < n
  {
    if ids == {} {
      n := 0;
    } else {
      var id :| id in ids;
      var m := BoundOf(ids - {id});
      n := if m <= id then id + 1 else m;
      forall k | k in ids ensures k < n {
        if k != id { assert k in ids - {id}; }
      }
    }
  }

  /** Caller `id` on a device of state `st`, and an activity `l` on its way through the latch. */
  ghost predicate Meets(s: System, id: nat, a: Activity, l: nat, latch: LatchPc, st: HwState) {
    && id in s.acts && s.acts[id] == a && l in s.acts && l != id && s.acts[l].pc == Lt(latch, LatchOnly)
    && s.dev.state == st && (latch.Park? || latch.LClose? || latch.LState?)
    && (if latch.Park? then !s.dev.parked && s.dev.stLock.Nobody? else s.dev.parked)
    && (latch.LState? ==> s.dev.closing)
  }

  lemma CallerMoves(r: seq<System>, id: nat, a: Activity, l: nat, latch: LatchPc, st: HwState) returns (x: seq<System>)
    requires Run(r) && |r| > 0 && Meets(Last(r), id, a, l, latch, st) && (a.pc.Txn? || a.pc.Rd?)
    ensures Run(x) && r <= x && Meets(Last(x), id, a.(pc := Exec(Last(r).dev, id, a).pc), l, latch, st)
  {
    var s := Last(r);
    var Step(d, pc) := Exec(s.dev, id, a);
    var t := System(d, s.acts[id := a.(pc := pc)]);
    assert StepBy(s, t, id);
    RunExtends(r, t);
    x := r + [t];
  }

  lemma LatchMoves(r: seq<System>, id: nat, a: Activity, l: nat, latch: LatchPc, st: HwState) returns (x: seq<System>)
    requires Run(r) && |r| > 0 && Meets(Last(r), id, a, l, latch, st) && (latch.Park? || latch.LClose?)
    ensures Run(x) && r <= x && Meets(Last(x), id, a, l, if latch.Park? then LClose else LState, st)
  {
    var s := Last(r);
    var Step(d, pc) := Exec(s.dev, l, s.acts[l]);
    var t := System(d, s.acts[l := s.acts[l].(pc := pc)]);
    assert StepBy(s, t, l);
    RunExtends(r, t);
    x := r + [t];
  }

  /** The only holder of the state lock on an unlatched device is about to release it. */
  lemma StateLockIsFreed(r: seq<System>, id: nat, a: Activity) returns (x: seq<System>)
    requires Run(r) && |r| > 0 && id in Last(r).acts && Last(r).acts[id] == a && (a.pc.Txn? || a.pc.Rd?)
    requires !Last(r).dev.parked
    ensures Run(x) && r <= x && id in Last(x).acts && Last(x).acts[id] == a
    ensures var d := Last(x).dev; !d.parked && d.stLock.Nobody? && d.state == Last(r).dev.state
  {
    RunKeepsInv(r, |r| - 1);
    var s := Last(r);
    x := r;
    if s.dev.stLock.By? {
      var h := s.dev.stLock.id;
      assert Knows(s.dev, h, s.acts[h]) && HoldsSt(s.acts[h].pc) && !AfterLatch(s.acts[h].pc);
      assert s.acts[h].pc.Te? && s.acts[h].pc.e.EndClose?;
      var Step(d, pc) := Exec(s.dev, h, s.acts[h]);
      var t := System(d, s.acts[h := s.acts[h].(pc := pc)]);
      assert StepBy(s, t, h);
      RunExtends(r, t);
      x := r + [t];
    }
  }

  /** Somebody calls the latch. */
  lemma LatchCalls(r: seq<System>, id: nat, a: Activity) returns (x: seq<System>, l: nat)
    requires Run(r) && |r| > 0 && id in Last(r).acts && Last(r).acts[id] == a && (a.pc.Txn? || a.pc.Rd?)
    requires !Last(r).dev.parked
    ensures Run(x) && r <= x && Meets(Last(x), id, a, l, Park, Last(r).dev.state)
  {
    x := StateLockIsFreed(r, id, a);
    var s := Last(x);
    l := BoundOf(s.acts.Keys);
    var latch := Activity(0, true, Lt(Park, LatchOnly));
    var t := System(s.dev, s.acts[l := latch]);
    assert Call(s, t, l, latch);
    RunExtends(x, t);
    x := x + [t];
  }

  /** A reader that has read RUNNING reaches its second look at the latch. */
  lemma RunningReaderCounts(r: seq<System>, id: nat, a: Activity, l: nat) returns (x: seq<System>)
    requires Run(r) && |r| > 0 && Meets(Last(r), id, a.(pc := Rd(RParked1(Running))), l, Park, Running)
    ensures Run(x) && r <= x && Meets(Last(x), id, a.(pc := Rd(RParked2)), l, Park, Running)
  {
    x := CallerMoves(r, id, a.(pc := Rd(RParked1(Running))), l, Park, Running);
    x := CallerMoves(x, id, a.(pc := Rd(RInc)), l, Park, Running);
    x := CallerMoves(x, id, a.(pc := Rd(RState2)), l, Park, Running);
  }

  /** The latch falls between the two looks. */
  lemma RunningReaderMeetsLatch(r: seq<System>, id: nat, a: Activity, l: nat) returns (x: seq<System>)
    requires Run(r) && |r| > 0 && Meets(Last(r), id, a.(pc := Rd(RParked2)), l, Park, Running)
    ensures Run(x) && r <= x && Meets(Last(x), id, a.(pc := Done(Refused(EALREADY))), l, LClose, Running)
  {
    x := LatchMoves(r, id, a.(pc := Rd(RParked2)), l, Park, Running);
    x := CallerMoves(x, id, a.(pc := Rd(RParked2)), l, LClose, Running);
    x := CallerMoves(x, id, a.(pc := Rd(ROwnParked2(Running))), l, LClose, Running);
    x := CallerMoves(x, id, a.(pc := Rd(RRollback(Running))), l, LClose, Running);
  }

  /** A reader that begins on an unlatched device can be refused on a parked one with the
      errno of the state it began in: -EALREADY if that was RUNNING. */
  lemma ReaderMeetsLatch(r: seq<System>, id: nat) returns (x: seq<System>)
    requires Run(r) && |r| > 0 && id in Last(r).acts && Last(r).acts[id].pc == Rd(RState1)
    requires !Last(r).dev.parked
    ensures Run(x) && r <= x && id in Last(x).acts && Last(x).dev.parked
    ensures Last(x).acts[id].pc == Done(Refused(StateErrno(Last(r).dev.state)))
  {
    var a, st, l := Last(r).acts[id], Last(r).dev.state, 0;
    x, l := LatchCalls(r, id, a);
    x := CallerMoves(x, id, a, l, Park, st);
    if st == Running {
      x := RunningReaderCounts(x, id, a, l);
      x := RunningReaderMeetsLatch(x, id, a, l);
    } else {
      x := CallerMoves(x, id, a.(pc := Rd(RParked1(st))), l, Park, st);
      x := LatchMoves(x, id, a.(pc := Rd(ROwnParked1(st))), l, Park, st);
      x := CallerMoves(x, id, a.(pc := Rd(ROwnParked1(st))), l, LClose, st);
    }
  }

  /** The latch falls between a transaction's looks at the state and at the closed gate. */
  lemma RunningTransactionMeetsLatch(r: seq<System>, id: nat, a: Activity, l: nat) returns (x: seq<System>)
    requires Run(r) && |r| > 0 && Meets(Last(r), id, a.(pc := Txn(Closing1)), l, Park, Running)
    ensures Run(x) && r <= x && Meets(Last(x), id, a.(pc := Done(Refused(EBUSY))), l, LState, Running)
  {
    x := LatchMoves(r, id, a.(pc := Txn(Closing1)), l, Park, Running);
    x := LatchMoves(x, id, a.(pc := Txn(Closing1)), l, LClose, Running);
    x := CallerMoves(x, id, a.(pc := Txn(Closing1)), l, LState, Running);
  }

  /** The same for a transaction: -EBUSY if it began on a running device. */
  lemma TransactionMeetsLatch(r: seq<System>, id: nat) returns (x: seq<System>)
    requires Run(r) && |r| > 0 && id in Last(r).acts && Last(r).acts[id].pc == Txn(Parked1)
    requires !Last(r).dev.parked
    ensures Run(x) && r <= x && id in Last(x).acts && Last(x).dev.parked
    ensures var st := Last(r).dev.state;
            Last(x).acts[id].pc == Done(Refused(if st == Running then EBUSY else StateErrno(st)))
  {
    var a, st, l := Last(r).acts[id], Last(r).dev.state, 0;
    x, l := LatchCalls(r, id, a);
    x := CallerMoves(x, id, a, l, Park, st);
    x := CallerMoves(x, id, a.(pc := Txn(State1)), l, Park, st);
    if st == Running {
      x := RunningTransactionMeetsLatch(x, id, a, l);
    } else {
      x := LatchMoves(x, id, a.(pc := Txn(OwnParked1(st))), l, Park, st);
      x := CallerMoves(x, id, a.(pc := Txn(OwnParked1(st))), l, LClose, st);
    }
  }

  /** A run in which a reader refused on a parked device returns -EALREADY. */
  lemma ParkedReaderCanGetEalready() returns (r: seq<System>)
    ensures Run(r) && |r| > 0 && Last(r).dev.parked
    ensures 1 in Last(r).acts && Last(r).acts[1].pc == Done(Refused(EALREADY))
  {
    var s0 := System(Device(false, Running, false, Nobody, 0, 0, false, false, false, Nobody, Nobody, Nobody, false),
                     map[0 := Activity(0, true, Wk(Idle))]);
    var reader := Activity(1, true, Rd(RState1));
    var s1 := System(s0.dev, s0.acts[1 := reader]);
    assert Call(s0, s1, 1, reader);
    assert Run([s0]);
    RunExtends([s0], s1);
    r := ReaderMeetsLatch([s0] + [s1], 1);
  }

  /** The state shows PARKED on latched devices only. */
  lemma ParkedStateIsLatched(r: seq<System>, i: nat)
    requires Run(r) && i < |r|
    ensures r[i].dev.state == Parked ==> r[i].dev.parked
  {
    RunKeepsInv(r, i);
    assert Knows(r[i].dev, 0, r[i].acts[0]);
  }

  predicate RefusedWith(s: System, id: nat, e: Errno) {
    id in s.acts && s.acts[id].pc == Done(Refused(e))
  }

  /** Whatever happens after `r`, caller `id` is refused on a parked device with -EIO only. */
  ghost predicate OnlyEio(r: seq<System>, id: nat) {
    forall x: seq<System>, e | Run(x) && r <= x && Last(x).dev.parked && RefusedWith(Last(x), id, e) :: e == EIO
  }

  /** The documented refusal of a parked device is -EIO. A reader or an ordinary transaction
      can count on it exactly if the latch was set when it began. */
  lemma ParkedRefusalIsEioIff(r: seq<System>, id: nat)
    requires Run(r) && |r| > 0 && id in Last(r).acts
    requires Last(r).acts[id].pc == Rd(RState1) || Last(r).acts[id].pc == Txn(Parked1)
    ensures OnlyEio(r, id) <==> Last(r).dev.parked
  {
    var st := Last(r).dev.state;
    ParkedStateIsLatched(r, |r| - 1);
    if Last(r).dev.parked {
      forall x: seq<System>, e | Run(x) && r <= x && RefusedWith(Last(x), id, e) ensures e == EIO {
        assert x[|r| - 1] == Last(r);
        ParkedCallerGetsEio(x, |r| - 1, |x| - 1, id);
      }
    } else if Last(r).acts[id].pc.Rd? {
      var x := ReaderMeetsLatch(r, id);
      assert RefusedWith(Last(x), id, StateErrno(st));
    } else {
      var x := TransactionMeetsLatch(r, id);
      assert RefusedWith(Last(x), id, if st == Running then EBUSY else StateErrno(st));
    }
  }
}
