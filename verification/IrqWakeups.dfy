/** What the operations on the fence queue come to: which fences signal and why, what an enable
    leaves behind, and that no wake is lost between an enable and a publication. */
module IrqWakeups {
  import opened IrqReferences

  /** The fence has to signal: the device is terminal, or the number is published. */
  predicate IsDue(s: Sys, f: nat)
    requires f in s.fences
  {
    s.terminal || (s.fences[f].ring in s.last && s.last[s.fences[f].ring] >= s.fences[f].number)
  }

  // ---- one operation ----

  /** The fence has signalled and holds nothing: no interrupt reference and no queue entry. */
  predicate Settled(x: Fence) {
    x.signaled && !x.held && !x.queued
  }

  /** The fence signals and gives its interrupt reference back. */
  function GivenBack(fs: map<nat, Fence>, f: nat): map<nat, Fence>
    requires f in fs
  {
    fs[f := fs[f].(signaled := true, held := false, released := fs[f].released + 1)]
  }

  /** An enable that begins on a due fence settles it at once and takes nothing; otherwise it
      only marks the fence and asks for hardware access. */
  lemma EnableBegins(r: seq<Sys>, es: seq<Event>, i: nat, f: nat)
    requires Run(r, es) && i < |es| && es[i] == OnFence(f, EnableBegin)
    ensures f in r[i].fences && f in r[i + 1].fences && r[i + 1].count == r[i].count
    ensures if IsDue(r[i], f) then
              && Settled(r[i + 1].fences[f]) && r[i + 1].owner == Nobody
              && r[i + 1].fences == r[i].fences[f := r[i].fences[f].(enabled := true, signaled := true)]
            else r[i + 1].fences == r[i].fences[f := r[i].fences[f].(enabled := true)] &&
                 r[i + 1].owner == Enabling(f, Asking)
  {
    RunKeepsFences(r, es, i);
    assert NextAt(r, es, i);
    assert FenceOk(r[i].owner, f, r[i].fences[f]);
  }

  /** Access that is granted or delayed takes one reference of the fence's ring; a granted one
      goes on to scan the ring, a delayed one straight to the queue. A refusal settles the fence
      and takes nothing. */
  lemma EnableAsks(r: seq<Sys>, es: seq<Event>, i: nat, f: nat, access: Access)
    requires Run(r, es) && i < |es| && es[i] == OnFence(f, EnableAccess(access))
    ensures f in r[i].fences && f in r[i + 1].fences
    ensures access == Refused ==>
              && Settled(r[i + 1].fences[f]) && r[i + 1].owner == Nobody && r[i + 1].count == r[i].count
              && r[i + 1].fences == r[i].fences[f := r[i].fences[f].(signaled := true)]
    ensures access != Refused ==>
              var x := r[i].fences[f];
              && r[i + 1].fences == r[i].fences[f := x.(held := true, acquired := x.acquired + 1)]
              && r[i + 1].count == r[i].count[x.ring := CountOf(r[i], x.ring) + 1]
              && r[i + 1].owner == Enabling(f, if access == Granted then Scanning else Settling)
  {
    RunKeepsFences(r, es, i);
    assert NextAt(r, es, i);
    assert FenceOk(r[i].owner, f, r[i].fences[f]);
  }

  /** The second look, with the reference held: a fence that has become due is settled and gives
      its reference back; any other keeps it and goes on to the queue. */
  lemma EnableChecks(r: seq<Sys>, es: seq<Event>, i: nat, f: nat)
    requires Run(r, es) && i < |es| && es[i] == OnFence(f, EnableCheck)
    ensures f in r[i].fences && f in r[i + 1].fences && r[i].fences[f].held
    ensures if IsDue(r[i], f) then
              && Settled(r[i + 1].fences[f]) && r[i + 1].owner == Nobody
              && r[i + 1].fences == GivenBack(r[i].fences, f)
            else
              r[i + 1].fences == r[i].fences && r[i + 1].owner == Enabling(f, Settling) &&
              r[i + 1].count == r[i].count
  {
    RunKeepsFences(r, es, i);
    assert NextAt(r, es, i);
    assert FenceOk(r[i].owner, f, r[i].fences[f]);
  }

  /** The end of an enable: a terminal device settles the fence; otherwise it is in the queue,
      which has taken one reference to it. */
  lemma EnableEnds(r: seq<Sys>, es: seq<Event>, i: nat, f: nat)
    requires Run(r, es) && i < |es| && es[i] == OnFence(f, EnableFinish)
    ensures f in r[i].fences && f in r[i + 1].fences && r[i + 1].owner == Nobody
    ensures if r[i].terminal then Settled(r[i + 1].fences[f]) && r[i + 1].fences == GivenBack(r[i].fences, f)
            else
              var x := r[i].fences[f];
              r[i + 1].fences == r[i].fences[f := x.(queued := true, refs := x.refs + 1)] && x.held &&
              r[i + 1].count == r[i].count
  {
    RunKeepsFences(r, es, i);
    assert NextAt(r, es, i);
    assert FenceOk(r[i].owner, f, r[i].fences[f]);
  }

  /** A walk settles each due fence it calls and leaves every other as it is. */
  lemma VisitOutcome(r: seq<Sys>, es: seq<Event>, i: nat, f: nat)
    requires Run(r, es) && i < |es| && es[i] == OnFence(f, Visit)
    ensures f in r[i].fences && f in r[i + 1].fences
    ensures if IsDue(r[i], f) then
              && Settled(r[i + 1].fences[f])
              && var x := r[i].fences[f].(queued := false, refs := r[i].fences[f].refs - 1);
                 r[i + 1].fences == GivenBack(r[i].fences[f := x], f)
            else r[i + 1].fences == r[i].fences && r[i + 1].count == r[i].count
  {
    RunKeepsFences(r, es, i);
    assert NextAt(r, es, i);
    assert FenceOk(r[i].owner, f, r[i].fences[f]);
  }

  /** A poll or a completion settles its fence; the end of a wait takes the entry out without
      signalling. Either leaves the entry's fence reference to be put exactly if there was one. */
  lemma RemovalOutcome(r: seq<Sys>, es: seq<Event>, i: nat, f: nat, op: Op)
    requires Run(r, es) && i < |es| && es[i] == OnFence(f, op) && (op == SignalAndRemove || op == RemoveWait)
    ensures f in r[i].fences && f in r[i + 1].fences
    ensures var x, y := r[i].fences[f], r[i + 1].fences[f];
            && !y.queued && !y.held && y.signaled == (x.signaled || op == SignalAndRemove)
            && y.pending == x.pending + (if x.queued then 1 else 0) && y.refs == x.refs
            && y.released == x.released + (if x.queued then 1 else 0)
            && y.abandoned == (x.abandoned || (op == RemoveWait && x.queued))
            && y.enabled == x.enabled && y.acquired == x.acquired
            && r[i + 1].fences == r[i].fences[f := y] && r[i + 1].owner == Nobody
  {
    RunKeepsFences(r, es, i);
    assert NextAt(r, es, i);
    assert FenceOk(r[i].owner, f, r[i].fences[f]);
  }

  /** Each put takes one of the fence references that are left to put; a signal of the fence core
      on a due fence changes nothing else. Both are possible whenever they are called for. */
  lemma LateOperations(s: Sys, f: nat)
    requires f in s.fences
    ensures var x := s.fences[f];
            && (Possible(s, OnFence(f, PutFence)) <==> x.pending > 0)
            && (x.pending > 0 ==>
                  Apply(s, OnFence(f, PutFence)) ==
                    s.(fences := s.fences[f := x.(refs := x.refs - 1, pending := x.pending - 1)]))
            && (Possible(s, OnFence(f, CoreSignal)) <==> s.owner == Nobody && IsDue(s, f))
            && (s.owner == Nobody && IsDue(s, f) ==>
                  Apply(s, OnFence(f, CoreSignal)) == s.(fences := s.fences[f := x.(signaled := true)]))
  {
  }

  /** Nothing signals without a reason: where a fence has signalled, some operation found it due,
      or its enable was refused access. */
  lemma {:induction false} SignalsHaveReasons(r: seq<Sys>, es: seq<Event>, i: nat, f: nat) returns (k: nat)
    requires Run(r, es) && i < |r| && f in r[i].fences && r[i].fences[f].signaled
    ensures k < i && es[k].OnFence? && es[k].f == f && f in r[k].fences
    ensures IsDue(r[k], f) || es[k].op == EnableAccess(Refused)
  {
    k := 0;
    if i == 0 {
    } else {
      assert NextAt(r, es, i - 1);
      var s := r[i - 1];
      if f in s.fences && s.fences[f].signaled {
        k := SignalsHaveReasons(r, es, i - 1, f);
      } else {
        k := i - 1;
      }
    }
  }

  // ---- an enable and a walk that nothing disturbs ----

  /** An enable of a fresh fence that is not due, with access granted and nothing else in
      between, can run to its end: the fence is then queued, holds one reference of its ring and
      has not signalled, and nothing else has changed. */
  lemma EnableAlone(s: Sys, f: nat)
    requires s.owner == Nobody && f in s.fences && !s.fences[f].enabled && !s.fences[f].signaled && !IsDue(s, f)
    ensures Possible(s, OnFence(f, EnableBegin))
    ensures var s1 := Apply(s, OnFence(f, EnableBegin));
            Possible(s1, OnFence(f, EnableAccess(Granted))) &&
            var s2 := Apply(s1, OnFence(f, EnableAccess(Granted)));
            Possible(s2, EnableScan(false)) &&
            var s3 := Apply(s2, EnableScan(false));
            Possible(s3, OnFence(f, EnableCheck)) &&
            var s4 := Apply(s3, OnFence(f, EnableCheck));
            Possible(s4, OnFence(f, EnableFinish)) &&
            var x := s.fences[f];
            Apply(s4, OnFence(f, EnableFinish)) ==
              s.(fences := s.fences[f := x.(enabled := true, held := true, acquired := x.acquired + 1, queued := true,
                                            refs := x.refs + 1)],
                 count := s.count[x.ring := CountOf(s, x.ring) + 1])
  {
  }

  /** A walk under way can always be brought to its end. */
  lemma {:induction false} WalkFinishes(r: seq<Sys>, es: seq<Event>) returns (x: seq<Sys>, fs: seq<Event>)
    requires Run(r, es) && r[|r| - 1].owner.Walking?
    ensures Run(x, fs) && r <= x && es <= fs && |fs| > 0 && fs[|fs| - 1] == WalkEnd && x[|x| - 1].owner == Nobody
    decreases |r[|r| - 1].owner.todo|
  {
    var s := r[|r| - 1];
    if s.owner.todo == {} {
      x, fs := Then(r, es, WalkEnd);
    } else {
      var f :| f in s.owner.todo;
      RunKeepsFences(r, es, |r| - 1);
      x, fs := Then(r, es, OnFence(f, Visit));
      ActKeeps(s.owner, f, s.fences[f], Due(s, s.fences[f]), s.terminal, Visit, f);
      assert x[|x| - 1].owner == Called(s.owner, f);
      x, fs := WalkFinishes(x, fs);
    }
  }

  // ---- no wake is lost ----

  /** The moment an enable decided that its fence has to wait: its second look did not find it
      due, or its access was delayed, which schedules a check of its own. */
  ghost predicate DecidedToWait(r: seq<Sys>, es: seq<Event>, f: nat, k: nat) {
    && k < |es| && k < |r| && f in r[k].fences
    && ((es[k] == OnFence(f, EnableCheck) && !IsDue(r[k], f)) || es[k] == OnFence(f, EnableAccess(Delayed)))
  }

  lemma StepDecides(s: Sys, e: Event, f: nat)
    requires FencesOk(s) && Possible(s, e)
    requires f in s.fences ==> !s.fences[f].queued && s.owner != Enabling(f, Settling)
    requires var t := Apply(s, e); f in t.fences && (t.fences[f].queued || t.owner == Enabling(f, Settling))
    ensures f in s.fences
    ensures (e == OnFence(f, EnableCheck) && !IsDue(s, f)) || e == OnFence(f, EnableAccess(Delayed))
  {
    if e.OnFence? {
      if e.f == f {
        OwnStepDecides(s, f, e.op);
      } else {
        ActKeeps(s.owner, e.f, s.fences[e.f], Due(s, s.fences[e.f]), s.terminal, e.op, f);
      }
    }
  }

  lemma OwnStepDecides(s: Sys, f: nat, op: Op)
    requires Possible(s, OnFence(f, op)) && !s.fences[f].queued && s.owner != Enabling(f, Settling)
    requires var t := Apply(s, OnFence(f, op)); t.fences[f].queued || t.owner == Enabling(f, Settling)
    ensures (op == EnableCheck && !IsDue(s, f)) || op == EnableAccess(Delayed)
  {
  }

  /** A fence that is in the queue, or about to be, has passed that moment. */
  lemma {:induction false} QueuedWasExamined(r: seq<Sys>, es: seq<Event>, i: nat, f: nat) returns (k: nat)
    requires Run(r, es) && i < |r| && f in r[i].fences
    requires r[i].fences[f].queued || r[i].owner == Enabling(f, Settling)
    ensures k < i && DecidedToWait(r, es, f, k)
  {
    k := 0;
    if i == 0 {
    } else {
      assert NextAt(r, es, i - 1);
      RunKeepsFences(r, es, i - 1);
      var s := r[i - 1];
      if f in s.fences && (s.fences[f].queued || s.owner == Enabling(f, Settling)) {
        k := QueuedWasExamined(r, es, i - 1, f);
      } else {
        StepDecides(s, es[i - 1], f);
        k := i - 1;
      }
    }
  }

  lemma {:induction false} DueStays(r: seq<Sys>, es: seq<Event>, i: nat, j: nat, f: nat)
    requires Run(r, es) && i <= j < |r| && f in r[i].fences
    ensures f in r[j].fences && (IsDue(r[i], f) ==> IsDue(r[j], f))
    decreases j
  {
    if i == j {
    } else {
      DueStays(r, es, i, j - 1, f);
      assert NextAt(r, es, j - 1);
      RunKeepsFences(r, es, j - 1);
      StepKeepsDue(r[j - 1], es[j - 1], f);
    }
  }

  lemma StepKeepsDue(s: Sys, e: Event, f: nat)
    requires FencesOk(s) && Possible(s, e) && f in s.fences
    ensures var t := Apply(s, e); f in t.fences && (IsDue(s, f) ==> IsDue(t, f))
  {
    if e.OnFence? {
      var x := s.fences[e.f];
      ActKeeps(s.owner, e.f, x, Due(s, x), s.terminal, e.op, e.f);
      ActUses(s.owner, e.f, x, Due(s, x), s.terminal, e.op);
    } else {
      FencesRest(s, e, f);
    }
  }

  /** An enabled fence that has given up its reference never takes another. */
  ghost predicate Left(s: Sys, f: nat) {
    f in s.fences && s.fences[f].enabled && !s.fences[f].held && !s.fences[f].queued && !Enables(s.owner, f)
  }

  lemma StepKeepsLeft(s: Sys, e: Event, f: nat)
    requires FencesOk(s) && Possible(s, e) && Left(s, f)
    ensures Left(Apply(s, e), f)
  {
    assert FenceOk(s.owner, f, s.fences[f]);
    if e.OnFence? && e.f != f {
      ActKeeps(s.owner, e.f, s.fences[e.f], Due(s, s.fences[e.f]), s.terminal, e.op, f);
    }
  }

  lemma {:induction false} LeftForGood(r: seq<Sys>, es: seq<Event>, i: nat, j: nat, f: nat)
    requires Run(r, es) && i <= j < |r| && Left(r[i], f)
    ensures Left(r[j], f)
    decreases j
  {
    if i == j {
    } else {
      LeftForGood(r, es, i, j - 1, f);
      assert NextAt(r, es, j - 1);
      RunKeepsFences(r, es, j - 1);
      StepKeepsLeft(r[j - 1], es[j - 1], f);
    }
  }

  /** One walk from its beginning to its end. */
  ghost predicate WholeWalk(r: seq<Sys>, es: seq<Event>, a: nat, b: nat) {
    && a < b < |es| && b < |r| && es[a] == WalkBegin && es[b] == WalkEnd
    && forall j | a < j <= b :: r[j].owner.Walking?
  }

  lemma {:induction false} WalkKeepsItsGoal(r: seq<Sys>, es: seq<Event>, a: nat, b: nat, j: nat)
    requires Run(r, es) && WholeWalk(r, es, a, b) && a < j <= b
    ensures r[j].owner.due == DueQueue(r[a])
    decreases j
  {
    assert NextAt(r, es, j - 1);
    if j == a + 1 {
    } else {
      assert r[j - 1].owner.Walking?;
      WalkKeepsItsGoal(r, es, a, b, j - 1);
      RunKeepsFences(r, es, j - 1);
      StepKeepsGoal(r[j - 1], es[j - 1]);
    }
  }

  lemma StepKeepsGoal(s: Sys, e: Event)
    requires FencesOk(s) && Possible(s, e) && s.owner.Walking? && Apply(s, e).owner.Walking?
    ensures Apply(s, e).owner.due == s.owner.due
  {
    if e.OnFence? {
      ActKeeps(s.owner, e.f, s.fences[e.f], Due(s, s.fences[e.f]), s.terminal, e.op, e.f);
    }
  }

  /** A fence that a whole walk met queued and due has left the queue for good. */
  lemma WalkedFenceLeaves(r: seq<Sys>, es: seq<Event>, a: nat, b: nat, i: nat, f: nat)
    requires Run(r, es) && WholeWalk(r, es, a, b) && b < i < |r|
    requires f in r[a].fences && r[a].fences[f].queued && IsDue(r[a], f)
    ensures f in r[i].fences && !r[i].fences[f].queued
  {
    WalkKeepsItsGoal(r, es, a, b, b);
    WalkSettlesTheDue(r, es, b, f);
    RunKeepsFences(r, es, b);
    assert FenceOk(r[b].owner, f, r[b].fences[f]) && NextAt(r, es, b);
    assert FenceOk(r[a].owner, f, r[a].fences[f]) by { RunKeepsFences(r, es, a); }
    EnabledStays(r, es, a, b, f);
    assert Left(r[b + 1], f);
    LeftForGood(r, es, b + 1, i, f);
  }

  lemma {:induction false} EnabledStays(r: seq<Sys>, es: seq<Event>, i: nat, j: nat, f: nat)
    requires Run(r, es) && i <= j < |r| && f in r[i].fences && r[i].fences[f].enabled
    ensures f in r[j].fences && r[j].fences[f].enabled
    decreases j
  {
    if i == j {
    } else {
      EnabledStays(r, es, i, j - 1, f);
      assert NextAt(r, es, j - 1);
    }
  }

  /** The step at which a fence became due. */
  lemma {:induction false} BecameDue(r: seq<Sys>, es: seq<Event>, k: nat, i: nat, f: nat) returns (m: nat)
    requires Run(r, es) && k < i < |r| && f in r[k].fences && !IsDue(r[k], f)
    requires f in r[i].fences && IsDue(r[i], f)
    ensures k <= m < i && f in r[m].fences && f in r[m + 1].fences && !IsDue(r[m], f) && IsDue(r[m + 1], f)
    decreases i
  {
    DueStays(r, es, k, i - 1, f);
    if IsDue(r[i - 1], f) {
      m := BecameDue(r, es, k, i - 1, f);
    } else {
      m := i - 1;
    }
  }

  /** No wake is lost. A fence that waits in the queue although it is due became due after its
      enable had decided to wait, or its enable was delayed and has scheduled a check; and no
      walk that began after that moment has come to its end. The wake that the publication, the
      terminal latch or the scheduled check owes is still to come, or under way. */
  lemma NoWakeIsLost(r: seq<Sys>, es: seq<Event>, i: nat, f: nat) returns (k: nat, m: nat)
    requires Run(r, es) && i < |r| && r[i].owner.Nobody? && f in r[i].fences
    requires r[i].fences[f].queued && IsDue(r[i], f)
    ensures k <= m < i && DecidedToWait(r, es, f, k) && f in r[m].fences && f in r[m + 1].fences
    ensures if es[k] == OnFence(f, EnableAccess(Delayed)) then m == k
            else !IsDue(r[m], f) && IsDue(r[m + 1], f) && (es[m].Publish? || es[m].LatchTerminal?)
    ensures forall a: nat, b: nat | m < a && b < i :: WholeWalk(r, es, a, b) ==>
              f in r[a].fences && !IsDue(r[a], f)
  {
    k := QueuedWasExamined(r, es, i, f);
    assert NextAt(r, es, k);
    if es[k] == OnFence(f, EnableAccess(Delayed)) {
      m := k;
    } else {
      m := BecameDue(r, es, k, i, f);
      assert NextAt(r, es, m);
    }
    forall a: nat, b: nat | m < a && b < i && WholeWalk(r, es, a, b) ensures f in r[a].fences && !IsDue(r[a], f) {
      DueStays(r, es, k, a, f);
      if IsDue(r[a], f) { WalkMeetsNoWaiter(r, es, k, a, b, i, f); }
    }
  }

  /** A fence that had decided to wait and is due when a whole walk begins is not queued later. */
  lemma WalkMeetsNoWaiter(r: seq<Sys>, es: seq<Event>, k: nat, a: nat, b: nat, i: nat, f: nat)
    requires Run(r, es) && DecidedToWait(r, es, f, k) && k < a && WholeWalk(r, es, a, b) && b < i < |r|
    requires f in r[a].fences && IsDue(r[a], f)
    ensures f in r[i].fences && !r[i].fences[f].queued
  {
    RunKeepsFences(r, es, a);
    assert NextAt(r, es, a) && FenceOk(r[a].owner, f, r[a].fences[f]);
    RunKeepsFences(r, es, k);
    assert NextAt(r, es, k) && FenceOk(r[k].owner, f, r[k].fences[f]);
    EnabledStays(r, es, k, a, f);
    if r[a].fences[f].queued {
      WalkedFenceLeaves(r, es, a, b, i, f);
    } else {
      LeftForGood(r, es, a, i, f);
    }
  }

  // ---- a sequence waiter that nothing disturbs ----

  /** The system after `n` steps of one waiter. */
  function Waited(s: Sys, w: nat, n: nat): Sys
    decreases n
  {
    if n == 0 || w !in s.waiters then s else Waited(WaiterStep(s, w), w, n - 1)
  }

  /** One step of a waiter: its ring's count, its place, and nothing else. */
  lemma WaiterTakes(s: Sys, w: nat)
    requires w in s.waiters && s.waiters[w].pc.Acquiring? && s.waiters[w].pc.next < 8
    ensures var t, x := WaiterStep(s, w), s.waiters[w];
            && t == s.(count := t.count, waiters := s.waiters[w := x.(pc := Acquiring(x.pc.next + 1))])
            && forall ring: nat :: CountOf(t, ring) ==
                 CountOf(s, ring) + if ring == x.pc.next && ring in x.targets then 1 else 0
  {
  }

  lemma WaiterGives(s: Sys, w: nat)
    requires w in s.waiters && s.waiters[w].pc.Releasing? && s.waiters[w].pc.next < 8
    requires s.waiters[w].pc.next in s.waiters[w].targets ==> CountOf(s, s.waiters[w].pc.next) > 0
    ensures var t, x := WaiterStep(s, w), s.waiters[w];
            && t == s.(count := t.count, waiters := s.waiters[w := x.(pc := Releasing(x.pc.next + 1))])
            && forall ring: nat :: CountOf(t, ring) ==
                 CountOf(s, ring) - if ring == x.pc.next && ring in x.targets then 1 else 0
  {
  }

  /** A sequence wait takes one reference of each of its rings, of all eight, and sleeps. */
  lemma {:induction false} WaiterAcquires(s: Sys, w: nat, n: nat)
    requires w in s.waiters && s.waiters[w].pc.Acquiring? && s.waiters[w].pc.next + n == 9 && n > 0
    ensures var t, x := Waited(s, w, n), s.waiters[w];
            && t == s.(count := t.count, waiters := s.waiters[w := x.(pc := Sleeping)])
            && forall ring: nat :: CountOf(t, ring) ==
                 CountOf(s, ring) + if x.pc.next <= ring < 8 && ring in x.targets then 1 else 0
    decreases n
  {
    var t, x := WaiterStep(s, w), s.waiters[w];
    if n == 1 {
      assert Waited(t, w, 0) == t;
    } else {
      WaiterTakes(s, w);
      WaiterAcquires(t, w, n - 1);
      assert t.waiters[w := x.(pc := Sleeping)] == s.waiters[w := x.(pc := Sleeping)];
    }
  }

  /** Its end gives back exactly those references. */
  lemma {:induction false} WaiterReleases(s: Sys, w: nat, n: nat)
    requires w in s.waiters && s.waiters[w].pc.Releasing? && s.waiters[w].pc.next + n == 9 && n > 0
    requires forall ring | ring in s.waiters[w].targets && s.waiters[w].pc.next <= ring < 8 :: CountOf(s, ring) > 0
    ensures var t, x := Waited(s, w, n), s.waiters[w];
            && t == s.(count := t.count, waiters := s.waiters - {w})
            && forall ring: nat :: CountOf(t, ring) ==
                 CountOf(s, ring) - if x.pc.next <= ring < 8 && ring in x.targets then 1 else 0
    decreases n
  {
    var t := WaiterStep(s, w);
    if n == 1 {
      assert Waited(t, w, 0) == t;
    } else {
      WaiterGives(s, w);
      WaiterReleases(t, w, n - 1);
      assert t.waiters - {w} == s.waiters - {w};
    }
  }

  /** A sequence wait can begin for any rings below eight, and first takes nothing. */
  lemma WaitBegins(s: Sys, w: nat, targets: set<nat>)
    requires w !in s.waiters
    ensures Possible(s, WaitBegin(w, targets)) <==> forall ring | ring in targets :: ring < 8
    ensures Possible(s, WaitBegin(w, targets)) ==>
              Apply(s, WaitBegin(w, targets)) == s.(waiters := s.waiters[w := Waiter(targets, Acquiring(0))])
  {
  }

  /** A put gives back one reference, or warns and leaves the count if there is none. */
  lemma PutOutcome(s: Sys, ring: nat)
    ensures var t := UseCount(s, ring, Put);
            && t == s.(count := t.count, warned := s.warned || CountOf(s, ring) <= 0)
            && forall other: nat :: CountOf(t, other) ==
                 CountOf(s, other) - if other == ring && CountOf(s, ring) > 0 then 1 else 0
  {
  }

  // ---- the steps around the fences ----

  /** An activity scan under an enable that asks for a wake has every queued fence called before
      the second look; one that does not goes on to that look at once. */
  lemma ScanOutcome(s: Sys, f: nat, wake: bool)
    requires s.owner == Enabling(f, Scanning)
    ensures Possible(s, EnableScan(wake))
    ensures var t := Apply(s, EnableScan(wake));
            && t == s.(owner := t.owner) && t.owner.Enabling? && t.owner.fence == f
            && if wake then
                 && t.owner.stage.Waking?
                 && forall g :: g in t.owner.stage.todo <==> g in s.fences && s.fences[g].queued
               else t.owner.stage == Checking
  {
  }

  /** A wake from outside has every queued fence called, and owes a signal to those due. */
  lemma WalkOutcome(s: Sys)
    ensures Possible(s, WalkBegin) <==> s.owner == Nobody
    ensures s.owner == Nobody ==>
              var t := Apply(s, WalkBegin);
              && t == s.(owner := t.owner) && t.owner.Walking? && t.owner.all == s.terminal
              && (forall g :: g in t.owner.todo <==> g in s.fences && s.fences[g].queued)
              && (forall g :: g in t.owner.due <==> g in s.fences && s.fences[g].queued && IsDue(s, g))
  {
  }

  /** What the ring and the rest of the driver may do at any moment: emit a new fence on one of
      the eight rings, publish a number that is not lower, become terminal, reset a count. */
  lemma EnvironmentOutcome(s: Sys, f: nat, ring: nat, number: nat)
    ensures Possible(s, Emit(f, ring, number)) <==> f !in s.fences && ring < 8
    ensures Possible(s, Publish(ring, number)) <==> (ring in s.last ==> number >= s.last[ring])
    ensures Possible(s, LatchTerminal) && (Possible(s, ResetCount(ring)) <==> ring < 8)
    ensures f !in s.fences && ring < 8 ==>
              Apply(s, Emit(f, ring, number)) ==
                s.(fences := s.fences[f := Fence(ring, number, false, false, false, false, false, 0, 0, 0, 0)])
    ensures Possible(s, Publish(ring, number)) ==>
              Apply(s, Publish(ring, number)) == s.(last := s.last[ring := number])
    ensures Apply(s, LatchTerminal) == s.(terminal := true)
    ensures ring < 8 ==> Apply(s, ResetCount(ring)) == s.(count := s.count[ring := 0])
  {
  }
}
