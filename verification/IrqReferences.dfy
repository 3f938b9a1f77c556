/** The logical interrupt references of the fence rings: who holds one, who releases it, and
    what a wake of the fence queue leaves behind.

    A step is what happens between two shared accesses that another CPU can observe: one
    change of a ring's reference count, or one decision of the holder of the fence queue's
    lock. Fences, the queue and the `held` marks change only under that lock; the counts
    also change under sequence waiters, at any moment. Where the code reads the terminal
    state and the published number one after the other, the step reads both at once: both
    only ever rise, so the pair of reads decides as one of the two moments would. */
module IrqReferences {

  const RINGS: nat := 8

  /** `acquired` and `released` count the interrupt references a fence took and gave back,
      `refs` the fence references its wait-queue entry took and that were not put yet,
      `pending` those of them that some caller still has to put after unlocking.
      `abandoned` marks a fence whose entry a timed-out wait removed. */
  datatype Fence = Fence(ring: nat, number: nat, enabled: bool, held: bool, queued: bool, signaled: bool,
                         abandoned: bool, acquired: nat, released: nat, refs: int, pending: int)

  /** A sequence waiter takes one reference for each of its rings and later gives them back. */
  datatype WaitPc = Acquiring(next: nat) | Sleeping | Releasing(next: nat)
  datatype Waiter = Waiter(targets: set<nat>, pc: WaitPc)

  datatype Stage = Asking | Scanning | Waking(todo: set<nat>) | Checking | Settling

  /** The holder of the fence queue's lock. A walk calls every entry of the queue; `due` are
      the entries that had to signal when it began, `all` says that these were all of them. */
  datatype Owner = Nobody | Enabling(fence: nat, stage: Stage) | Walking(todo: set<nat>, due: set<nat>, all: bool)

  /** `warned` is set when a reference is put that the count does not have. */
  datatype Sys = Sys(count: map<nat, int>, fences: map<nat, Fence>, waiters: map<nat, Waiter>,
                     owner: Owner, last: map<nat, nat>, terminal: bool, warned: bool)

  datatype Access = Granted | Delayed | Refused

  /** Operations of the lock's holder on one fence. */
  datatype Op =
    | EnableBegin
    | EnableAccess(access: Access)
    | EnableCheck
    | EnableFinish
    | Visit                // a walk calls the fence's queue entry
    | SignalAndRemove      // a poll or a terminal completion found the fence done
    | RemoveWait           // the end of a fence wait, whatever its outcome
    | CoreSignal           // the fence core signals a fence it polled
    | PutFence             // after unlocking: the put for a removed entry

  /** What an operation does: the fence, its ring's count, the lock. */
  datatype Use = Keep | Get | Put
  datatype Change = Change(fence: Fence, use: Use, owner: Owner)

  datatype Event =
    | Emit(f: nat, ring: nat, number: nat)
    | OnFence(f: nat, op: Op)
    | EnableScan(wake: bool)
    | EnableAwake
    | WalkBegin
    | WalkEnd
    | LatchTerminal
    | Publish(ring: nat, number: nat)
    | WaitBegin(w: nat, targets: set<nat>)
    | WaitStep(w: nat)
    | ResetCount(ring: nat)        // interrupt installation and removal

  // ---- the operations on one fence ----

  /** Give back the reference, if the fence holds one. */
  function Release(x: Fence, o: Owner): Change {
    if x.held then Change(x.(held := false, released := x.released + 1), Put, o) else Change(x, Keep, o)
  }

  /** Leave the queue and give back the reference, if the fence holds one; its queue
      reference is left to put. */
  function RemoveEntry(x: Fence, o: Owner): Change {
    if x.held then Release(x.(queued := false, pending := x.pending + 1), o) else Change(x, Keep, o)
  }

  /** The queue callback: signal and leave the queue if the fence is due. */
  function CheckSignaled(x: Fence, due: bool, o: Owner): Change {
    if !due then Change(x, Keep, o)
    else if x.held then Release(x.(signaled := true, queued := false, refs := x.refs - 1), o)
    else Change(x.(signaled := true), Keep, o)
  }

  /** The entries that the walk under way has still to call. */
  function Todo(o: Owner): set<nat> {
    match o
    case Nobody => {}
    case Enabling(_, stage) => if stage.Waking? then stage.todo else {}
    case Walking(todo, _, _) => todo
  }

  function Called(o: Owner, f: nat): Owner {
    match o
    case Nobody => o
    case Enabling(g, stage) => if stage.Waking? then Enabling(g, Waking(stage.todo - {f})) else o
    case Walking(todo, due, all) => Walking(todo - {f}, due, all)
  }

  predicate Allowed(o: Owner, f: nat, x: Fence, due: bool, op: Op) {
    match op
    case EnableBegin => o.Nobody? && !x.enabled && !x.signaled
    case EnableAccess(_) => o == Enabling(f, Asking)
    case EnableCheck => o == Enabling(f, Checking)
    case EnableFinish => o == Enabling(f, Settling)
    case Visit => f in Todo(o)
    case SignalAndRemove => o.Nobody? && due
    case RemoveWait => o.Nobody?
    case CoreSignal => o.Nobody? && due
    case PutFence => x.pending > 0
  }

  /** `due` says that the terminal state is latched or the fence's number is published. A false
      return of the enable callback makes the fence core signal the fence. */
  function Act(o: Owner, f: nat, x: Fence, due: bool, terminal: bool, op: Op): Change {
    match op
    case EnableBegin =>
      if due then Change(x.(enabled := true, signaled := true), Keep, Nobody)
      else Change(x.(enabled := true), Keep, Enabling(f, Asking))
    case EnableAccess(access) =>
      (match access
       case Granted => Change(x.(held := true, acquired := x.acquired + 1), Get, Enabling(f, Scanning))
       case Delayed => Change(x.(held := true, acquired := x.acquired + 1), Get, Enabling(f, Settling))
       case Refused => Change(x.(signaled := true), Keep, Nobody))
    case EnableCheck =>
      if due then Release(x.(signaled := true), Nobody) else Change(x, Keep, Enabling(f, Settling))
    case EnableFinish =>
      if terminal then Release(x.(signaled := true), Nobody)
      else Change(x.(queued := true, refs := x.refs + 1), Keep, Nobody)
    case Visit => CheckSignaled(x, due, Called(o, f))
    case SignalAndRemove => RemoveEntry(x.(signaled := true), o)
    case RemoveWait => RemoveEntry(x.(abandoned := x.abandoned || x.held), o)
    case CoreSignal => Change(x.(signaled := true), Keep, o)
    case PutFence => Change(x.(refs := x.refs - 1, pending := x.pending - 1), Keep, o)
  }

  // ---- the counts and the waiters ----

  function CountOf(s: Sys, ring: nat): int {
    if ring in s.count then s.count[ring] else 0
  }

  /** A put that finds no reference warns and leaves the count alone. */
  function UseCount(s: Sys, ring: nat, use: Use): Sys {
    match use
    case Keep => s
    case Get => s.(count := s.count[ring := CountOf(s, ring) + 1])
    case Put => if CountOf(s, ring) <= 0 then s.(warned := true) else s.(count := s.count[ring := CountOf(s, ring) - 1])
  }

  function WaiterStep(s: Sys, w: nat): Sys
    requires w in s.waiters
  {
    var x := s.waiters[w];
    match x.pc
    case Acquiring(n) =>
      if n >= RINGS then s.(waiters := s.waiters[w := x.(pc := Sleeping)])
      else UseCount(s, n, if n in x.targets then Get else Keep).(waiters := s.waiters[w := x.(pc := Acquiring(n + 1))])
    case Sleeping => s.(waiters := s.waiters[w := x.(pc := Releasing(0))])
    case Releasing(n) =>
      if n >= RINGS then s.(waiters := s.waiters - {w})
      else UseCount(s, n, if n in x.targets then Put else Keep).(waiters := s.waiters[w := x.(pc := Releasing(n + 1))])
  }

  // ---- the steps ----

  predicate Due(s: Sys, x: Fence) {
    s.terminal || (x.ring in s.last && s.last[x.ring] >= x.number)
  }

  function Queue(s: Sys): set<nat> {
    set f | f in s.fences && s.fences[f].queued
  }

  function DueQueue(s: Sys): set<nat> {
    set f | f in s.fences && s.fences[f].queued && Due(s, s.fences[f])
  }

  predicate Possible(s: Sys, e: Event) {
    match e
    case Emit(f, ring, _) => f !in s.fences && ring < RINGS
    case OnFence(f, op) => f in s.fences && Allowed(s.owner, f, s.fences[f], Due(s, s.fences[f]), op)
    case EnableScan(_) => s.owner.Enabling? && s.owner.stage.Scanning?
    case EnableAwake => s.owner.Enabling? && s.owner.stage == Waking({})
    case WalkBegin => s.owner.Nobody?
    case WalkEnd => s.owner.Walking? && s.owner.todo == {}
    case LatchTerminal => true
    case Publish(ring, number) => ring in s.last ==> s.last[ring] <= number
    case WaitBegin(w, targets) => w !in s.waiters && forall r | r in targets :: r < RINGS
    case WaitStep(w) => w in s.waiters
    case ResetCount(ring) => ring < RINGS
  }

  function ActOn(s: Sys, f: nat, op: Op): Change
    requires f in s.fences
  {
    Act(s.owner, f, s.fences[f], Due(s, s.fences[f]), s.terminal, op)
  }

  function Apply(s: Sys, e: Event): (t: Sys)
    requires Possible(s, e)
    ensures !e.OnFence? && !e.Emit? ==> t.fences == s.fences
    ensures s.terminal ==> t.terminal
    ensures !e.Publish? ==> t.last == s.last
  {
    match e
    case Emit(f, ring, number) =>
      s.(fences := s.fences[f := Fence(ring, number, false, false, false, false, false, 0, 0, 0, 0)])
    case OnFence(f, op) =>
      var c := ActOn(s, f, op);
      UseCount(s, s.fences[f].ring, c.use).(fences := s.fences[f := c.fence], owner := c.owner)
    case EnableScan(wake) => s.(owner := Enabling(s.owner.fence, if wake then Waking(Queue(s)) else Checking))
    case EnableAwake => s.(owner := Enabling(s.owner.fence, Checking))
    case WalkBegin => s.(owner := Walking(Queue(s), DueQueue(s), s.terminal))
    case WalkEnd => s.(owner := Nobody)
    case LatchTerminal => s.(terminal := true)
    case Publish(ring, number) => s.(last := s.last[ring := number])
    case WaitBegin(w, targets) => s.(waiters := s.waiters[w := Waiter(targets, Acquiring(0))])
    case WaitStep(w) => WaiterStep(s, w)
    case ResetCount(ring) => s.(count := s.count[ring := 0])
  }

  const Start: Sys := Sys(map[], map[], map[], Nobody, map[], false, false)

  // ---- the invariants ----

  function Bit(b: bool): nat {
    if b then 1 else 0
  }

  predicate HoldsFor(x: Fence, ring: nat) {
    x.held && x.ring == ring
  }

  predicate WaitsFor(w: Waiter, ring: nat) {
    ring in w.targets &&
    match w.pc
    case Acquiring(n) => ring < n
    case Sleeping => true
    case Releasing(n) => n <= ring
  }

  ghost function Holders(fs: map<nat, Fence>, ring: nat): set<nat> {
    set f | f in fs && HoldsFor(fs[f], ring)
  }

  ghost function Waiting(ws: map<nat, Waiter>, ring: nat): set<nat> {
    set w | w in ws && WaitsFor(ws[w], ring)
  }

  ghost predicate WaitersOk(s: Sys) {
    forall w | w in s.waiters :: forall r | r in s.waiters[w].targets :: r < RINGS
  }

  /** What one ring's count has to be. */
  ghost function Demand(s: Sys, ring: nat): nat {
    |Holders(s.fences, ring)| + |Waiting(s.waiters, ring)|
  }

  ghost predicate Counted(s: Sys) {
    && !s.warned
    && (forall ring: nat :: CountOf(s, ring) == Demand(s, ring))
    && WaitersOk(s)
  }

  predicate Enables(o: Owner, f: nat) {
    o.Enabling? && o.fence == f
  }

  /** The life of one fence's references. */
  predicate FenceOk(o: Owner, f: nat, x: Fence) {
    && x.released + Bit(x.held) == x.acquired <= Bit(x.enabled)
    && x.refs == Bit(x.queued) + x.pending && x.pending >= 0
    && (x.queued ==> x.held && !Enables(o, f))
    && (x.held ==> x.queued || Enables(o, f))
    && (Enables(o, f) ==> x.enabled && x.acquired == Bit(!o.stage.Asking?) && x.held == !o.stage.Asking?)
    && (x.enabled && !x.signaled && !x.abandoned ==> x.queued || Enables(o, f))
    && (x.abandoned ==> x.enabled && !x.queued && !Enables(o, f))
  }

  ghost predicate FencesOk(s: Sys) {
    && (s.owner.Enabling? ==> s.owner.fence in s.fences)
    && (forall f | f in s.fences :: FenceOk(s.owner, f, s.fences[f]))
    && (forall f | f in Todo(s.owner) :: f in s.fences && s.fences[f].queued)
  }

  /** A walk has settled every entry that was due and that it has already called. */
  ghost predicate WalkOk(s: Sys) {
    s.owner.Walking? ==>
      && (forall f | f in s.owner.due :: f in s.fences && Due(s, s.fences[f]))
      && (forall f | f in s.owner.due && f !in s.owner.todo :: s.fences[f].signaled && !s.fences[f].queued)
      && (s.owner.all ==> s.terminal && forall f | f in s.fences && s.fences[f].queued :: f in s.owner.due)
  }

  /** No fence is queued, and none will be. */
  ghost predicate Drained(s: Sys) {
    s.terminal && forall f | f in s.fences :: !s.fences[f].queued
  }

  // ---- counting ----

  lemma CountedApart(a: set<nat>, b: set<nat>, x: nat)
    requires a - {x} == b - {x}
    ensures |b| + Bit(x in a) == |a| + Bit(x in b)
  {
    assert |a| == |a - {x}| + Bit(x in a) && |b| == |b - {x}| + Bit(x in b);
  }

  lemma HoldersAfter(fs: map<nat, Fence>, f: nat, x: Fence, ring: nat)
    ensures |Holders(fs[f := x], ring)| + Bit(f in fs && HoldsFor(fs[f], ring)) ==
            |Holders(fs, ring)| + Bit(HoldsFor(x, ring))
  {
    var a, b := Holders(fs, ring), Holders(fs[f := x], ring);
    assert a - {f} == b - {f};
    CountedApart(a, b, f);
  }

  lemma WaitingAfter(ws: map<nat, Waiter>, w: nat, x: Waiter, ring: nat)
    ensures |Waiting(ws[w := x], ring)| + Bit(w in ws && WaitsFor(ws[w], ring)) ==
            |Waiting(ws, ring)| + Bit(WaitsFor(x, ring))
  {
    var a, b := Waiting(ws, ring), Waiting(ws[w := x], ring);
    assert a - {w} == b - {w};
    CountedApart(a, b, w);
  }

  /** A held reference is in the count, so giving it back never warns. */
  lemma HeldIsCounted(s: Sys, f: nat)
    requires Counted(s) && f in s.fences && s.fences[f].held
    ensures CountOf(s, s.fences[f].ring) > 0
  {
    assert f in Holders(s.fences, s.fences[f].ring);
    assert CountOf(s, s.fences[f].ring) == Demand(s, s.fences[f].ring);
  }

  /** An operation takes or gives back a reference exactly when the fence's mark changes. */
  lemma ActUses(o: Owner, f: nat, x: Fence, due: bool, terminal: bool, op: Op)
    requires FenceOk(o, f, x) && Allowed(o, f, x, due, op)
    ensures var c := Act(o, f, x, due, terminal, op);
            && c.fence.ring == x.ring
            && c.use == if c.fence.held == x.held then Keep else if x.held then Put else Get
  {
  }

  lemma FenceKeepsCounted(s: Sys, f: nat, op: Op)
    requires Counted(s) && FencesOk(s) && Possible(s, OnFence(f, op))
    ensures Counted(Apply(s, OnFence(f, op)))
  {
    var x, c, t := s.fences[f], ActOn(s, f, op), Apply(s, OnFence(f, op));
    ActUses(s.owner, f, x, Due(s, x), s.terminal, op);
    if x.held { HeldIsCounted(s, f); }
    forall ring: nat ensures CountOf(t, ring) == Demand(t, ring) {
      HoldersAfter(s.fences, f, c.fence, ring);
      assert CountOf(s, ring) == Demand(s, ring);
    }
  }

  lemma WaiterKeepsCounted(s: Sys, w: nat)
    requires Counted(s) && w in s.waiters
    ensures Counted(WaiterStep(s, w))
  {
    var x, t := s.waiters[w], WaiterStep(s, w);
    if x.pc.Releasing? && x.pc.next < RINGS && x.pc.next in x.targets {
      assert w in Waiting(s.waiters, x.pc.next);
      assert CountOf(s, x.pc.next) == Demand(s, x.pc.next);
    }
    forall ring: nat ensures CountOf(t, ring) == Demand(t, ring) {
      assert CountOf(s, ring) == Demand(s, ring);
      if w in t.waiters {
        WaitingAfter(s.waiters, w, t.waiters[w], ring);
        assert t.waiters == s.waiters[w := t.waiters[w]];
      } else {
        assert Waiting(t.waiters, ring) == Waiting(s.waiters, ring);
      }
    }
  }

  /** A count is only ever reset when it is zero; the code warns otherwise. */
  predicate Quiet(s: Sys, e: Event) {
    e.ResetCount? ==> CountOf(s, e.ring) == 0
  }

  lemma ApplyKeepsCounted(s: Sys, e: Event)
    requires Counted(s) && FencesOk(s) && Possible(s, e) && Quiet(s, e)
    ensures Counted(Apply(s, e))
  {
    var t := Apply(s, e);
    match e
    case OnFence(f, op) => FenceKeepsCounted(s, f, op);
    case WaitStep(w) => WaiterKeepsCounted(s, w);
    case Emit(f, _, _) =>
      forall ring: nat ensures CountOf(t, ring) == Demand(t, ring) {
        HoldersAfter(s.fences, f, t.fences[f], ring);
        assert CountOf(s, ring) == Demand(s, ring);
      }
    case WaitBegin(w, _) =>
      forall ring: nat ensures CountOf(t, ring) == Demand(t, ring) {
        WaitingAfter(s.waiters, w, t.waiters[w], ring);
        assert CountOf(s, ring) == Demand(s, ring);
      }
    case _ =>
      forall ring: nat ensures CountOf(t, ring) == Demand(t, ring) { assert CountOf(s, ring) == Demand(s, ring); }
  }

  // ---- each operation on one fence ----

  predicate EnableOp(op: Op) {
    op.EnableBegin? || op.EnableAccess? || op.EnableCheck? || op.EnableFinish?
  }

  lemma EnablingOk(o: Owner, f: nat, x: Fence, due: bool, terminal: bool, op: Op)
    requires FenceOk(o, f, x) && Allowed(o, f, x, due, op) && EnableOp(op)
    ensures var c := Act(o, f, x, due, terminal, op); FenceOk(c.owner, f, c.fence)
  {
  }

  lemma RemovalOk(o: Owner, f: nat, x: Fence, due: bool, terminal: bool, op: Op)
    requires FenceOk(o, f, x) && Allowed(o, f, x, due, op) && !EnableOp(op) && (op.Visit? ==> x.queued)
    ensures var c := Act(o, f, x, due, terminal, op); FenceOk(c.owner, f, c.fence)
  {
  }

  lemma ActOk(o: Owner, f: nat, x: Fence, due: bool, terminal: bool, op: Op)
    requires FenceOk(o, f, x) && Allowed(o, f, x, due, op) && (op.Visit? ==> x.queued)
    ensures var c := Act(o, f, x, due, terminal, op); FenceOk(c.owner, f, c.fence)
  {
    if EnableOp(op) { EnablingOk(o, f, x, due, terminal, op); } else { RemovalOk(o, f, x, due, terminal, op); }
  }

  /** What an operation leaves alone: the place of every other fence, a signal once given, a
      walk's goal, and the queue, which a fence joins only when its enabling ends without a
      terminal state, and leaves only under no walk or when the walk calls it. */
  lemma ActKeeps(o: Owner, f: nat, x: Fence, due: bool, terminal: bool, op: Op, g: nat)
    requires FenceOk(o, f, x) && Allowed(o, f, x, due, op)
    ensures var c := Act(o, f, x, due, terminal, op);
            && (f != g ==> Enables(c.owner, g) == Enables(o, g))
            && (f != g && Enables(o, g) ==> c.owner.stage.Asking? == o.stage.Asking?)
            && (c.owner.Enabling? ==> c.owner.fence == f || (o.Enabling? && o.fence == c.owner.fence))
            && (x.signaled ==> c.fence.signaled) && c.fence.number == x.number
            && (c.fence.queued && !x.queued ==> !terminal && !o.Walking?)
            && (x.queued && !c.fence.queued ==> f !in Todo(c.owner))
            && Todo(c.owner) == (if op.Visit? then Todo(o) - {f} else if op.PutFence? then Todo(o) else {})
            && (c.owner.Walking? ==> o.Walking? && c.owner.due == o.due && c.owner.all == o.all)
            && (op.Visit? && x.queued && due ==> c.fence.signaled && !c.fence.queued)
  {
  }

  lemma OnFenceKeepsFences(s: Sys, f: nat, op: Op)
    requires FencesOk(s) && Possible(s, OnFence(f, op))
    ensures FencesOk(Apply(s, OnFence(f, op)))
  {
    var x, t := s.fences[f], Apply(s, OnFence(f, op));
    ActOk(s.owner, f, x, Due(s, x), s.terminal, op);
    ActKeeps(s.owner, f, x, Due(s, x), s.terminal, op, f);
    forall g | g in t.fences && g != f ensures FenceOk(t.owner, g, t.fences[g]) {
      ActKeeps(s.owner, f, x, Due(s, x), s.terminal, op, g);
      assert FenceOk(s.owner, g, s.fences[g]);
    }
  }

  lemma ApplyKeepsFences(s: Sys, e: Event)
    requires FencesOk(s) && Possible(s, e)
    ensures FencesOk(Apply(s, e))
  {
    if e.OnFence? {
      OnFenceKeepsFences(s, e.f, e.op);
    } else {
      var t := Apply(s, e);
      forall f | f in t.fences ensures FenceOk(t.owner, f, t.fences[f]) {
        if f in s.fences {
          assert t.fences[f] == s.fences[f] && FenceOk(s.owner, f, s.fences[f]);
          assert Enables(t.owner, f) == Enables(s.owner, f);
        }
      }
    }
  }

  lemma OnFenceKeepsWalk(s: Sys, f: nat, op: Op)
    requires FencesOk(s) && WalkOk(s) && Possible(s, OnFence(f, op))
    ensures WalkOk(Apply(s, OnFence(f, op)))
  {
    var x, t := s.fences[f], Apply(s, OnFence(f, op));
    ActKeeps(s.owner, f, x, Due(s, x), s.terminal, op, f);
    ActUses(s.owner, f, x, Due(s, x), s.terminal, op);
    assert t.fences == s.fences[f := t.fences[f]] && t.last == s.last && t.terminal == s.terminal;
    assert Due(t, t.fences[f]) == Due(s, x);
  }

  /** Steps that change no fence keep what is due. */
  lemma FencesRest(s: Sys, e: Event, f: nat)
    requires Possible(s, e) && !e.OnFence? && f in s.fences
    ensures var t := Apply(s, e);
            f in t.fences && t.fences[f] == s.fences[f] && (Due(s, s.fences[f]) ==> Due(t, t.fences[f]))
  {
  }

  lemma OthersKeepWalk(s: Sys, e: Event)
    requires WalkOk(s) && Possible(s, e) && !e.OnFence? && !e.WalkBegin?
    ensures WalkOk(Apply(s, e))
  {
    var t := Apply(s, e);
    if t.owner.Walking? {
      forall f | f in s.owner.due ensures f in t.fences && t.fences[f] == s.fences[f] && Due(t, t.fences[f]) {
        FencesRest(s, e, f);
      }
      forall f | f in t.fences && t.fences[f].queued ensures f in s.fences && s.fences[f].queued {
        if f in s.fences { FencesRest(s, e, f); }
      }
    }
  }

  lemma ApplyKeepsWalk(s: Sys, e: Event)
    requires FencesOk(s) && WalkOk(s) && Possible(s, e)
    ensures WalkOk(Apply(s, e))
  {
    if e.OnFence? {
      OnFenceKeepsWalk(s, e.f, e.op);
    } else if !e.WalkBegin? {
      OthersKeepWalk(s, e);
    }
  }

  lemma ApplyKeepsDrained(s: Sys, e: Event)
    requires FencesOk(s) && Possible(s, e) && Drained(s)
    ensures Drained(Apply(s, e))
  {
    var t := Apply(s, e);
    forall f | f in t.fences ensures !t.fences[f].queued {
      if e.OnFence? && e.f == f { ActKeeps(s.owner, f, s.fences[f], Due(s, s.fences[f]), s.terminal, e.op, f); }
    }
  }

  // ---- runs ----

  ghost predicate NextAt(r: seq<Sys>, es: seq<Event>, i: nat)
    requires i + 1 < |r| && i < |es|
  {
    Possible(r[i], es[i]) && r[i + 1] == Apply(r[i], es[i])
  }

  ghost predicate Run(r: seq<Sys>, es: seq<Event>) {
    |r| == |es| + 1 && r[0] == Start && forall i: nat | i + 1 < |r| :: NextAt(r, es, i)
  }

  ghost predicate QuietAt(r: seq<Sys>, es: seq<Event>, i: nat)
    requires i < |r| && i < |es|
  {
    Quiet(r[i], es[i])
  }

  lemma {:induction false} RunKeepsFences(r: seq<Sys>, es: seq<Event>, i: nat)
    requires Run(r, es) && i < |r|
    ensures FencesOk(r[i]) && WalkOk(r[i])
  {
    if i == 0 {
    } else {
      RunKeepsFences(r, es, i - 1);
      assert NextAt(r, es, i - 1);
      ApplyKeepsFences(r[i - 1], es[i - 1]);
      ApplyKeepsWalk(r[i - 1], es[i - 1]);
    }
  }

  /** A count never exceeds what its ring's holders account for, and is never negative. */
  ghost predicate Covered(s: Sys) {
    forall ring: nat :: 0 <= CountOf(s, ring) <= Demand(s, ring)
  }

  lemma FenceKeepsCovered(s: Sys, f: nat, op: Op)
    requires Covered(s) && FencesOk(s) && Possible(s, OnFence(f, op))
    ensures Covered(Apply(s, OnFence(f, op)))
  {
    var x, c, t := s.fences[f], ActOn(s, f, op), Apply(s, OnFence(f, op));
    ActUses(s.owner, f, x, Due(s, x), s.terminal, op);
    forall ring: nat ensures 0 <= CountOf(t, ring) <= Demand(t, ring) {
      HoldersAfter(s.fences, f, c.fence, ring);
      assert 0 <= CountOf(s, ring) <= Demand(s, ring);
    }
  }

  lemma WaiterKeepsCovered(s: Sys, w: nat)
    requires Covered(s) && WaitersOk(s) && w in s.waiters
    ensures Covered(WaiterStep(s, w))
  {
    var x, t := s.waiters[w], WaiterStep(s, w);
    forall ring: nat ensures 0 <= CountOf(t, ring) <= Demand(t, ring) {
      assert 0 <= CountOf(s, ring) <= Demand(s, ring);
      if x.pc.Releasing? && x.pc.next >= RINGS {
        WaitingGone(s.waiters, w, ring);
      } else {
        WaitingAfter(s.waiters, w, t.waiters[w], ring);
        assert t.waiters == s.waiters[w := t.waiters[w]];
      }
    }
  }

  lemma WaitingGone(ws: map<nat, Waiter>, w: nat, ring: nat)
    requires w in ws && !WaitsFor(ws[w], ring)
    ensures Waiting(ws - {w}, ring) == Waiting(ws, ring)
  {
  }

  lemma ApplyKeepsCovered(s: Sys, e: Event)
    requires Covered(s) && FencesOk(s) && Possible(s, e) && WaitersOk(s)
    ensures Covered(Apply(s, e))
  {
    var t := Apply(s, e);
    match e
    case OnFence(f, op) => FenceKeepsCovered(s, f, op);
    case WaitStep(w) => WaiterKeepsCovered(s, w);
    case Emit(f, _, _) =>
      forall ring: nat ensures 0 <= CountOf(t, ring) <= Demand(t, ring) {
        HoldersAfter(s.fences, f, t.fences[f], ring);
        assert 0 <= CountOf(s, ring) <= Demand(s, ring);
      }
    case WaitBegin(w, _) =>
      forall ring: nat ensures 0 <= CountOf(t, ring) <= Demand(t, ring) {
        WaitingAfter(s.waiters, w, t.waiters[w], ring);
        assert 0 <= CountOf(s, ring) <= Demand(s, ring);
      }
    case _ =>
      forall ring: nat ensures 0 <= CountOf(t, ring) <= Demand(t, ring) {
        assert 0 <= CountOf(s, ring) <= Demand(s, ring);
      }
  }

  lemma {:induction false} CountIsCovered(r: seq<Sys>, es: seq<Event>, i: nat)
    requires Run(r, es) && i < |r|
    ensures Covered(r[i]) && WaitersOk(r[i])
  {
    if i == 0 {
    } else {
      CountIsCovered(r, es, i - 1);
      RunKeepsFences(r, es, i - 1);
      assert NextAt(r, es, i - 1);
      ApplyKeepsCovered(r[i - 1], es[i - 1]);
    }
  }

  lemma {:induction false} QuietKeepsCounted(r: seq<Sys>, es: seq<Event>, i: nat)
    requires Run(r, es) && i < |r| && forall k: nat | k < i :: QuietAt(r, es, k)
    ensures Counted(r[i])
  {
    if i == 0 {
    } else {
      QuietKeepsCounted(r, es, i - 1);
      RunKeepsFences(r, es, i - 1);
      assert NextAt(r, es, i - 1) && QuietAt(r, es, i - 1);
      ApplyKeepsCounted(r[i - 1], es[i - 1]);
    }
  }

  /** On every run whatever, each ring's count lies between zero and the number of its fences
      and sequence waiters that hold a reference. It is exactly that number, and no put ever
      finds it empty, as long as no count was reset while it was not zero. */
  lemma CountIsExact(r: seq<Sys>, es: seq<Event>, i: nat)
    requires Run(r, es) && i < |r|
    ensures Covered(r[i])
    ensures (forall k: nat | k < i :: QuietAt(r, es, k)) ==> Counted(r[i])
  {
    CountIsCovered(r, es, i);
    if forall k: nat | k < i :: QuietAt(r, es, k) { QuietKeepsCounted(r, es, i); }
  }

  /** Resetting a count keeps it exact exactly when the count was zero. */
  lemma ResetKeepsCountIff(s: Sys, ring: nat)
    requires Counted(s) && FencesOk(s) && ring < RINGS
    ensures Counted(Apply(s, ResetCount(ring))) <==> CountOf(s, ring) == 0
  {
    var t := Apply(s, ResetCount(ring));
    assert CountOf(s, ring) == Demand(s, ring) && CountOf(t, ring) == 0 && Demand(t, ring) == Demand(s, ring);
    if CountOf(s, ring) == 0 { ApplyKeepsCounted(s, ResetCount(ring)); }
  }

  /** Every interrupt reference is taken at most once per fence and given back exactly once,
      and every queue reference is put exactly once, whichever path gets there first. */
  lemma ReferencesAreReleasedOnce(r: seq<Sys>, es: seq<Event>, i: nat, f: nat)
    requires Run(r, es) && i < |r| && f in r[i].fences
    ensures var x := r[i].fences[f];
            && x.released + Bit(x.held) == x.acquired <= 1
            && x.refs == Bit(x.queued) + x.pending
            && (r[i].owner.Nobody? ==> x.held == x.queued)
  {
    RunKeepsFences(r, es, i);
    assert FenceOk(r[i].owner, f, r[i].fences[f]);
  }

  /** A fence whose signalling is enabled and that has not signalled is in the queue exactly if
      no fence wait has removed its entry. */
  lemma EnabledFencesAreWatchedIff(r: seq<Sys>, es: seq<Event>, i: nat, f: nat)
    requires Run(r, es) && i < |r| && r[i].owner.Nobody? && f in r[i].fences
    requires r[i].fences[f].enabled && !r[i].fences[f].signaled
    ensures r[i].fences[f].queued <==> !r[i].fences[f].abandoned
  {
    RunKeepsFences(r, es, i);
    assert FenceOk(r[i].owner, f, r[i].fences[f]);
  }

  // ---- what a wake leaves behind ----

  /** When a walk ends, every entry that was due when it began has signalled and is gone. */
  lemma WalkSettlesTheDue(r: seq<Sys>, es: seq<Event>, i: nat, f: nat)
    requires Run(r, es) && i < |es| && es[i].WalkEnd? && r[i].owner.Walking? && f in r[i].owner.due
    ensures f in r[i].fences && r[i].fences[f].signaled && !r[i].fences[f].held
  {
    RunKeepsFences(r, es, i);
    assert NextAt(r, es, i);
    assert FenceOk(r[i].owner, f, r[i].fences[f]);
  }

  /** The first complete walk that begins after the terminal state was latched empties the
      queue; the queue stays empty, and outside the lock only sequence waiters hold
      references from then on. */
  lemma {:induction false} TerminalWalkDrains(r: seq<Sys>, es: seq<Event>, i: nat, j: nat)
    requires Run(r, es) && i < |es| && es[i].WalkEnd? && r[i].owner.Walking? && r[i].owner.all
    requires i < j < |r|
    ensures Drained(r[j])
    ensures r[j].owner.Nobody? && (forall k: nat | k < j :: QuietAt(r, es, k)) ==>
              forall ring: nat :: CountOf(r[j], ring) == |Waiting(r[j].waiters, ring)|
    decreases j
  {
    RunKeepsFences(r, es, j - 1);
    RunKeepsFences(r, es, j);
    assert NextAt(r, es, j - 1);
    if j == i + 1 {
      assert WalkOk(r[i]);
    } else {
      TerminalWalkDrains(r, es, i, j - 1);
      ApplyKeepsDrained(r[j - 1], es[j - 1]);
    }
    if r[j].owner.Nobody? && forall k: nat | k < j :: QuietAt(r, es, k) {
      CountIsExact(r, es, j);
      NobodyHolds(r[j]);
    }
  }

  lemma NobodyHolds(s: Sys)
    requires Counted(s) && FencesOk(s) && Drained(s) && s.owner.Nobody?
    ensures forall ring: nat :: CountOf(s, ring) == |Waiting(s.waiters, ring)|
  {
    forall ring: nat ensures CountOf(s, ring) == |Waiting(s.waiters, ring)| {
      forall f | f in s.fences ensures !s.fences[f].held {
        assert FenceOk(s.owner, f, s.fences[f]);
      }
      assert Holders(s.fences, ring) == {};
      assert CountOf(s, ring) == Demand(s, ring);
    }
  }

  // ---- runs on which the simpler promises fail ----

  lemma RunExtends(r: seq<Sys>, es: seq<Event>, e: Event)
    requires Run(r, es) && Possible(r[|r| - 1], e)
    ensures Run(r + [Apply(r[|r| - 1], e)], es + [e])
  {
    var x, fs := r + [Apply(r[|r| - 1], e)], es + [e];
    forall i: nat | i + 1 < |x| ensures NextAt(x, fs, i) {
      if i + 1 < |r| { assert NextAt(r, es, i); }
    }
  }

  /** One more event. */
  lemma Then(r: seq<Sys>, es: seq<Event>, e: Event) returns (x: seq<Sys>, fs: seq<Event>)
    requires Run(r, es) && Possible(r[|r| - 1], e)
    ensures Run(x, fs) && r <= x && |x| == |r| + 1 && fs == es + [e] && x[|x| - 1] == Apply(r[|r| - 1], e)
  {
    RunExtends(r, es, e);
    x, fs := r + [Apply(r[|r| - 1], e)], es + [e];
  }

  /** A reachable count that is not zero when it is reset: the waiter's reference is lost. */
  lemma ResetCanLoseReferences() returns (r: seq<Sys>, es: seq<Event>)
    ensures Run(r, es) && |es| == 3 && !QuietAt(r, es, 2)
    ensures !Counted(r[3]) && CountOf(r[3], 0) == 0 && Demand(r[3], 0) == 1
  {
    r, es := [Start], [];
    r, es := Then(r, es, WaitBegin(7, {0}));
    assert r[1].waiters == map[7 := Waiter({0}, Acquiring(0))] && CountOf(r[1], 0) == 0 && r[1].fences == map[];
    r, es := Then(r, es, WaitStep(7));
    var s := r[2];
    assert s.waiters == map[7 := Waiter({0}, Acquiring(1))] && CountOf(s, 0) == 1 && s.fences == map[];
    r, es := Then(r, es, ResetCount(0));
    assert r[2] == s && es[2] == ResetCount(0);
    assert r[3].waiters == s.waiters && r[3].fences == s.fences && CountOf(r[3], 0) == 0;
    assert Waiting(r[3].waiters, 0) == {7} && Holders(r[3].fences, 0) == {};
    assert Demand(r[3], 0) == 1;
  }

  /** A fence whose wait ended first: its number is published and a complete wake passes, and
      it is still enabled, unsignalled and in no queue. */
  lemma AbandonedFenceMissesItsWake() returns (r: seq<Sys>, es: seq<Event>)
    ensures Run(r, es) && |es| == 10 && es[6] == OnFence(1, RemoveWait) && es[8] == WalkBegin && es[9] == WalkEnd
    ensures var s := r[10];
            && s.owner.Nobody? && 1 in s.fences && Due(s, s.fences[1])
            && s.fences[1].enabled && !s.fences[1].signaled && !s.fences[1].queued
  {
    r, es := [Start], [];
    r, es := Then(r, es, Emit(1, 0, 5));
    r, es := Then(r, es, OnFence(1, EnableBegin));
    r, es := Then(r, es, OnFence(1, EnableAccess(Granted)));
    r, es := Then(r, es, EnableScan(false));
    r, es := Then(r, es, OnFence(1, EnableCheck));
    r, es := Then(r, es, OnFence(1, EnableFinish));
    assert r[6].fences[1].queued;
    r, es := Then(r, es, OnFence(1, RemoveWait));
    r, es := Then(r, es, Publish(0, 5));
    assert r[8].fences == map[1 := r[8].fences[1]] && !r[8].fences[1].queued;
    r, es := Then(r, es, WalkBegin);
    assert r[9].owner.todo == {};
    r, es := Then(r, es, WalkEnd);
  }
}
