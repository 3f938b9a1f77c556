/** Fence sequence publication on one ring: any number of CPU agents sample a 32-bit
    hardware counter, extend it to 64 bits, and publish it with a compare-and-exchange
    maximum, while the hardware retires fences and new fences are emitted.

    Every shared access (the two reads of `last_seq`, the read of the emitted number, the
    hardware sample, each exchange) is a step of its own; any two steps of different agents
    may be interleaved. */
module FenceSequence {

  const WRAP: nat := 0x1_0000_0000
  const SAMPLE_BOUND: nat := 12

  function High(x: nat): nat {
    x - x % WRAP
  }

  /** A 32-bit sample placed in the upper half of `last`, or of `emitted` when that would
      lie behind `last`. */
  function Extend(last: nat, sample: nat, emitted: nat): nat {
    var target := High(last) + sample;
    if target < last then High(emitted) + sample else target
  }

  predicate Publishable(last: nat, target: nat, emitted: nat) {
    last < target <= emitted
  }

  // ---- the publication loop in its own shape ----

  function Max(x: nat, y: nat): nat {
    if x < y then y else x
  }

  function Highest(start: nat, values: seq<nat>): (h: nat)
    ensures h >= start && forall v | v in values :: v <= h
    ensures h == start || h in values
  {
    if values == [] then start
    else
      assert values == values[..|values| - 1] + [values[|values| - 1]];
      Max(Highest(start, values[..|values| - 1]), values[|values| - 1])
  }

  class FenceDriver {
    var lastSeq: nat

    /** The exchange, preceded by what a rival publishes just before it. */
    method CompareExchange(expected: nat, target: nat, rival: nat) returns (observed: nat)
      modifies this
      ensures observed == Max(old(lastSeq), rival)
      ensures lastSeq == if observed == expected then target else observed
    {
      lastSeq := Max(lastSeq, rival);
      observed := lastSeq;
      if observed == expected { lastSeq := target; }
    }

    /** `rivals[k]` is published by others right before this call's exchange number `k`;
        the number that was used up is returned beside the result. */
    method PublishLastSeq(target: nat, rivals: seq<nat>) returns (installed: bool, used: nat)
      modifies this
      ensures used <= |rivals| && lastSeq == Max(Highest(old(lastSeq), rivals[..used]), target)
      ensures installed <==> target > Highest(old(lastSeq), rivals[..used])
    {
      used := 0;
      var published := lastSeq;
      while published < target
        invariant used <= |rivals| && published == lastSeq == Highest(old(lastSeq), rivals[..used])
        decreases target - published
      {
        var rival := if used < |rivals| then rivals[used] else 0;
        assert used < |rivals| ==> rivals[..used + 1][..used] == rivals[..used];
        var observed := CompareExchange(published, target, rival);
        if used < |rivals| { used := used + 1; }
        if observed == published { return true, used; }
        published := observed;
      }
      installed := false;
    }
  }

  // ---- any number of agents ----

  /** Where an agent is in the activity scan. `count` is its publications so far; `first`,
      `firstAt` and `retries` describe the current publication loop, and `seenAt` is the
      history length when `published` was read. */
  datatype Pc =
    | Idle
    | Entered(last: nat, count: nat)
    | Sampling(last: nat, emitted: nat, count: nat)
    | Publishing(target: nat, count: nat)
    | Comparing(target: nat, published: nat, seenAt: nat, first: nat, firstAt: nat, retries: nat, count: nat)
    | Finished(wake: bool)

  /** `hw` is the number of fences the hardware has retired, of which it shows the low 32
      bits. `installed` is the history of the values of `last`. */
  datatype Ring = Ring(hw: nat, emitted: nat, last: nat, installed: seq<nat>, agents: map<nat, Pc>)

  datatype Step =
    | Emit
    | Retire(upTo: nat)
    | ForceCompletion
    | Scan(id: nat)

  /** One agent step: the new value of `last` and the agent's next place. */
  datatype Moved = Moved(last: nat, pc: Pc)

  function Published(target: nat, count: nat): Pc {
    if count + 1 < SAMPLE_BOUND then Entered(target, count + 1) else Finished(true)
  }

  function Move(s: Ring, pc: Pc): Moved {
    match pc
    case Idle => Moved(s.last, Entered(s.last, 0))
    case Entered(last, count) => Moved(s.last, Sampling(last, s.emitted, count))
    case Sampling(last, emitted, count) =>
      var target := Extend(last, s.hw % WRAP, emitted);
      Moved(s.last, if Publishable(last, target, emitted) then Publishing(target, count) else Finished(count > 0))
    case Publishing(target, count) =>
      Moved(s.last, Comparing(target, s.last, |s.installed|, s.last, |s.installed|, 0, count))
    case Comparing(target, published, _, first, firstAt, retries, count) =>
      if published >= target then Moved(s.last, Finished(count > 0))
      else if s.last == published then Moved(target, Published(target, count))
      else Moved(s.last, Comparing(target, s.last, |s.installed|, first, firstAt, retries + 1, count))
    case Finished(_) => Moved(s.last, Idle)
  }

  function PcOf(s: Ring, id: nat): Pc {
    if id in s.agents then s.agents[id] else Idle
  }

  predicate Possible(s: Ring, e: Step) {
    e.Retire? ==> s.hw <= e.upTo <= s.emitted
  }

  function Apply(s: Ring, e: Step): Ring {
    match e
    case Emit => s.(emitted := s.emitted + 1)
    case Retire(upTo) => s.(hw := upTo)
    case ForceCompletion => s.(hw := s.emitted)
    case Scan(id) =>
      var m := Move(s, PcOf(s, id));
      s.(last := m.last, agents := s.agents[id := m.pc],
         installed := if m.last == s.last then s.installed else s.installed + [m.last])
  }

  ghost predicate NextAt(r: seq<Ring>, es: seq<Step>, i: nat)
    requires i + 1 < |r| && i < |es|
  {
    Possible(r[i], es[i]) && r[i + 1] == Apply(r[i], es[i])
  }

  ghost predicate Run(r: seq<Ring>, es: seq<Step>) {
    && |r| == |es| + 1
    && r[0].last <= r[0].hw <= r[0].emitted && r[0].installed == [r[0].last] && r[0].agents == map[]
    && forall i: nat | i + 1 < |r| :: NextAt(r, es, i)
  }

  /** Fewer than 2^32 fences are in flight. */
  predicate InWindow(s: Ring) {
    s.emitted < s.hw + WRAP
  }

  // ---- the 64-bit extension of a sample ----

  lemma HighOrder(x: nat, y: nat)
    requires x <= y
    ensures High(x) <= High(y) && (High(x) != High(y) ==> High(x) + WRAP <= High(y))
    ensures x == High(x) + x % WRAP
  {
  }

  /** While the fences emitted since the last publication fit one turn of the 32-bit counter,
      the extension of a sample is exactly the number the hardware has reached. */
  lemma ExtensionIsExact(last: nat, hw: nat, emitted: nat)
    requires last <= hw <= emitted < last + 0x1_0000_0000
    ensures Extend(last, hw % 0x1_0000_0000, emitted) == hw
  {
    HighOrder(last, hw);
    HighOrder(hw, emitted);
  }

  /** A scan would publish a number the hardware has not reached exactly if the sample lies
      behind the published number within its turn and the emitted number is at least a full
      turn ahead of the hardware, with an offset no smaller than the sample's. */
  lemma OvershootsIff(last: nat, hw: nat, emitted: nat)
    requires last <= hw
    ensures var target := Extend(last, hw % WRAP, emitted);
            (Publishable(last, target, emitted) && target > hw) <==>
              && hw % 0x1_0000_0000 < last % 0x1_0000_0000 && hw % 0x1_0000_0000 <= emitted % 0x1_0000_0000
              && emitted >= hw + 0x1_0000_0000
  {
    HighOrder(last, hw);
    if hw <= emitted { HighOrder(hw, emitted); } else { HighOrder(emitted, hw); }
  }

  /** Such inputs exist, so the window is not a formality. */
  lemma OvershootIsPossible() returns (last: nat, hw: nat, emitted: nat)
    ensures last <= hw <= emitted
    ensures var target := Extend(last, hw % WRAP, emitted); Publishable(last, target, emitted) && target > hw
  {
    last, hw, emitted := 5, WRAP + 3, 2 * WRAP + 3;
  }

  // ---- history of the published number ----

  ghost predicate Increasing(s: seq<nat>) {
    forall i, j | 0 <= i < j < |s| :: s[i] < s[j]
  }

  ghost predicate AgentOk(s: Ring, pc: Pc) {
    match pc
    case Idle => true
    case Entered(last, count) => last <= s.last && count < SAMPLE_BOUND
    case Sampling(last, emitted, count) => last <= s.last && emitted <= s.emitted && count < SAMPLE_BOUND
    case Publishing(_, count) => count < SAMPLE_BOUND
    case Comparing(_, published, seenAt, first, firstAt, retries, count) =>
      && count < SAMPLE_BOUND && 0 < firstAt && firstAt + retries <= seenAt <= |s.installed|
      && first + retries <= published == s.installed[seenAt - 1]
    case Finished(_) => true
  }

  ghost predicate HistoryOk(s: Ring) {
    && |s.installed| > 0 && s.last == s.installed[|s.installed| - 1] && Increasing(s.installed)
    && forall id | id in s.agents :: AgentOk(s, s.agents[id])
  }

  lemma HistoryTop(s: Ring, k: nat)
    requires HistoryOk(s) && k < |s.installed|
    ensures s.installed[k] <= s.last && (s.installed[k] == s.last ==> k == |s.installed| - 1)
  {
  }

  lemma ApplyKeepsHistory(s: Ring, e: Step)
    requires HistoryOk(s) && Possible(s, e)
    ensures HistoryOk(Apply(s, e)) && s.last <= Apply(s, e).last && s.installed <= Apply(s, e).installed
  {
    var t := Apply(s, e);
    if e.Scan? {
      var pc := PcOf(s, e.id);
      assert AgentOk(s, pc);
      if pc.Comparing? { HistoryTop(s, pc.seenAt - 1); }
      assert AgentOk(t, t.agents[e.id]);
    }
    forall id | id in t.agents && (e.Scan? ==> id != e.id) ensures AgentOk(t, t.agents[id]) {
      assert AgentOk(s, s.agents[id]);
    }
  }

  lemma {:induction false} RunKeepsHistory(r: seq<Ring>, es: seq<Step>, i: nat, j: nat)
    requires Run(r, es) && i <= j < |r|
    ensures HistoryOk(r[j]) && r[i].last <= r[j].last && r[i].installed <= r[j].installed
    decreases j
  {
    if j == 0 {
    } else {
      RunKeepsHistory(r, es, if i < j then i else j - 1, j - 1);
      assert NextAt(r, es, j - 1);
      ApplyKeepsHistory(r[j - 1], es[j - 1]);
    }
  }

  /** Under any interleaving the published number never goes down, and it is the maximum of
      its starting value and everything ever installed. */
  lemma LastSeqIsMaximum(r: seq<Ring>, es: seq<Step>, i: nat, j: nat)
    requires Run(r, es) && i <= j < |r|
    ensures r[i].last <= r[j].last && r[j].last in r[j].installed && r[j].installed[0] == r[0].last
    ensures forall v | v in r[j].installed :: v <= r[j].last
  {
    RunKeepsHistory(r, es, i, j);
    RunKeepsHistory(r, es, 0, j);
    forall v | v in r[j].installed ensures v <= r[j].last {
      var k :| 0 <= k < |r[j].installed| && r[j].installed[k] == v;
      HistoryTop(r[j], k);
    }
  }

  predicate InPublication(pc: Pc, target: nat) {
    (pc.Publishing? || pc.Comparing?) && pc.target == target
  }

  /** A publication that returns, whether it installed its number or met a newer one, leaves
      the published number at least at its argument, from then on. */
  lemma PublicationHolds(r: seq<Ring>, es: seq<Step>, i: nat, j: nat, id: nat, target: nat)
    requires Run(r, es) && i < j < |r|
    requires InPublication(PcOf(r[i], id), target) && !InPublication(PcOf(r[i + 1], id), target)
    ensures r[j].last >= target
  {
    RunKeepsHistory(r, es, i, i);
    RunKeepsHistory(r, es, i + 1, j);
    assert NextAt(r, es, i);
    assert AgentOk(r[i], PcOf(r[i], id));
    if PcOf(r[i], id).Comparing? { HistoryTop(r[i], PcOf(r[i], id).seenAt - 1); }
  }

  /** A publication loop fails at most one exchange per install by others since its first
      read, and at most one per unit by which it saw the published number rise; so it ends
      after fewer failures than its argument exceeds the number it first read. A scan
      publishes at most twelve times. */
  lemma RetriesAreCharged(r: seq<Ring>, es: seq<Step>, i: nat, id: nat)
    requires Run(r, es) && i < |r| && PcOf(r[i], id).Comparing?
    ensures var pc := PcOf(r[i], id);
            && pc.retries <= |r[i].installed| - pc.firstAt
            && pc.retries <= pc.published - pc.first
            && (pc.published < pc.target ==> pc.retries < pc.target - pc.first)
            && pc.count < 12
  {
    RunKeepsHistory(r, es, i, i);
    assert AgentOk(r[i], PcOf(r[i], id));
  }

  // ---- no fence is signalled early ----

  ghost predicate Sound(s: Ring) {
    && s.last <= s.hw <= s.emitted
    && forall id | id in s.agents && (s.agents[id].Publishing? || s.agents[id].Comparing?) ::
         s.agents[id].target <= s.hw
  }

  lemma ApplyKeepsSound(s: Ring, e: Step)
    requires HistoryOk(s) && Sound(s) && InWindow(s) && Possible(s, e)
    ensures Sound(Apply(s, e))
  {
    if e.Scan? {
      var pc := PcOf(s, e.id);
      assert AgentOk(s, pc);
      if pc.Sampling? { OvershootsIff(pc.last, s.hw, pc.emitted); }
    }
  }

  lemma {:induction false} RunKeepsSound(r: seq<Ring>, es: seq<Step>, i: nat)
    requires Run(r, es) && i < |r| && forall k | 0 <= k < i :: InWindow(r[k])
    ensures Sound(r[i])
  {
    if i == 0 {
    } else {
      RunKeepsSound(r, es, i - 1);
      RunKeepsHistory(r, es, i - 1, i - 1);
      assert NextAt(r, es, i - 1);
      ApplyKeepsSound(r[i - 1], es[i - 1]);
    }
  }

  /** No fence signals before the hardware has reached it, in any interleaving of scans,
      emissions and retirements, as long as fewer than 2^32 fences are in flight. */
  lemma NoFenceSignalsEarly(r: seq<Ring>, es: seq<Step>, i: nat, fence: nat)
    requires Run(r, es) && i < |r| && (forall k | 0 <= k < i :: r[k].emitted < r[k].hw + 0x1_0000_0000)
    requires r[i].last >= fence
    ensures r[i].hw >= fence
  {
    assert forall k | 0 <= k < i :: InWindow(r[k]);
    RunKeepsSound(r, es, i);
  }

  /** The hardware's and the emitter's side: each emission takes the next number, and what has
      retired never goes back nor passes what was emitted. */
  lemma EnvironmentSteps(r: seq<Ring>, es: seq<Step>, i: nat)
    requires Run(r, es) && i < |es|
    ensures r[i + 1].emitted == r[i].emitted + if es[i].Emit? then 1 else 0
    ensures match es[i]
            case Retire(upTo) => r[i].hw <= r[i + 1].hw == upTo <= r[i].emitted
            case ForceCompletion => r[i + 1].hw == r[i].emitted
            case _ => r[i + 1].hw == r[i].hw
  {
    assert NextAt(r, es, i);
  }

  /** Retiring any number of emitted fences is possible. */
  lemma RetiringIsPossible(s: Ring, upTo: nat)
    requires s.hw <= upTo <= s.emitted
    ensures Possible(s, Retire(upTo))
  {
  }

  // ---- what a scan reports ----

  /** The numbers that the scan under way, or just finished, of one agent has installed. */
  ghost function Installs(r: seq<Ring>, es: seq<Step>, i: nat, id: nat): nat
    requires Run(r, es) && i < |r|
  {
    if i == 0 then 0
    else if es[i - 1] != Scan(id) then Installs(r, es, i - 1, id)
    else if PcOf(r[i - 1], id).Idle? || PcOf(r[i - 1], id).Finished? then 0
    else Installs(r, es, i - 1, id) + if r[i].last != r[i - 1].last then 1 else 0
  }

  /** An agent's count is what its scan has installed, and its report says whether that is
      anything. */
  predicate Reports(pc: Pc, installs: nat) {
    match pc
    case Idle => installs == 0
    case Entered(_, count) => count == installs
    case Sampling(_, _, count) => count == installs
    case Publishing(_, count) => count == installs
    case Comparing(_, _, _, _, _, _, count) => count == installs
    case Finished(wake) => wake <==> installs > 0
  }

  /** A scan asks for a wake exactly if it has itself installed a newer number, and an install is
      its last step exactly if it is the twelfth; otherwise it samples again from there. */
  lemma {:induction false} ScanReports(r: seq<Ring>, es: seq<Step>, i: nat, id: nat)
    requires Run(r, es) && i < |r|
    ensures Reports(PcOf(r[i], id), Installs(r, es, i, id)) && Installs(r, es, i, id) <= 12
    ensures i > 0 && es[i - 1] == Scan(id) && r[i].last != r[i - 1].last ==>
              PcOf(r[i], id) == if Installs(r, es, i, id) == 12 then Finished(true)
                                else Entered(r[i].last, Installs(r, es, i, id))
  {
    if i == 0 {
    } else {
      ScanReports(r, es, i - 1, id);
      RunKeepsHistory(r, es, i - 1, i - 1);
      assert NextAt(r, es, i - 1);
      assert AgentOk(r[i - 1], PcOf(r[i - 1], id));
    }
  }

  /** A scan of a ring whose hardware shows nothing newer reports nothing and changes nothing. */
  lemma IdleScan(s: Ring, id: nat)
    requires s.last == s.hw <= s.emitted < s.last + 0x1_0000_0000 && PcOf(s, id).Idle?
    ensures var t := Apply(Apply(Apply(s, Scan(id)), Scan(id)), Scan(id));
            t == s.(agents := t.agents) && PcOf(t, id) == Finished(false)
  {
    ExtensionIsExact(s.last, s.hw, s.emitted);
  }

  /** An undisturbed scan publishes what the hardware has reached. */
  lemma ScanCatchesUp(s: Ring, id: nat)
    requires s.last < s.hw <= s.emitted < s.last + WRAP && PcOf(s, id).Idle?
    ensures var a := Apply(Apply(Apply(s, Scan(id)), Scan(id)), Scan(id));
            Apply(Apply(a, Scan(id)), Scan(id)).last == s.hw
  {
    ExtensionIsExact(s.last, s.hw, s.emitted);
    var s1 := Apply(s, Scan(id));
    var s2 := Apply(s1, Scan(id));
    var s3 := Apply(s2, Scan(id));
    assert s3.agents[id] == Publishing(s.hw, 0);
    var s4 := Apply(s3, Scan(id));
    assert s4.last == s.last && s4.agents[id].Comparing?;
  }
}
