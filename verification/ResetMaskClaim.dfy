/** The one-shot claim of the reset-mask selector: any number of claimers race a
    writer that arms, re-arms and disarms one shared slot.

    A claimer reads the slot, gives up on baseline or an out-of-range value, and
    otherwise exchanges the value it read for baseline, starting over when the
    exchange fails. Read, exchange and store are single sequentially consistent
    accesses; everything between two of them may be interleaved. */
module ResetMaskClaim {

  /** `torn` selects the earlier shape: read, then store baseline without comparing. */
  datatype Config = Config(baseline: nat, count: nat, torn: bool)

  /** `at` is the history position of the operation the call performed. */
  datatype ClaimPc = Ready | Loaded(sel: nat, readAt: nat) | Returned(value: nat, at: nat)

  /** One call of the claim function, with the history length and the number of slot
      writes at its start, and its failed exchanges so far. */
  datatype Claim = Claim(pc: ClaimPc, calledAt: nat, writesBefore: nat, retries: nat)

  datatype Op = Store(v: nat) | Take(id: nat, r: nat)

  /** `history` and `writes` are history variables: the operations in the order in which
      they took effect, and the number of times the slot was written. */
  datatype System = System(slot: nat, claims: map<nat, Claim>, history: seq<Op>, writes: nat)

  predicate Armed(c: Config, v: nat) {
    v != c.baseline && v < c.count
  }

  function ReadStep(c: Config, s: System, id: nat): System
    requires id in s.claims && s.claims[id].pc.Ready?
  {
    if Armed(c, s.slot) then
      s.(claims := s.claims[id := s.claims[id].(pc := Loaded(s.slot, s.writes))])
    else
      s.(claims := s.claims[id := s.claims[id].(pc := Returned(c.baseline, |s.history|))],
         history := s.history + [Take(id, c.baseline)])
  }

  function ExchangeStep(c: Config, s: System, id: nat): System
    requires id in s.claims && s.claims[id].pc.Loaded?
  {
    var k := s.claims[id];
    if s.slot == k.pc.sel || c.torn then
      System(c.baseline, s.claims[id := k.(pc := Returned(k.pc.sel, |s.history|))],
             s.history + [Take(id, k.pc.sel)], s.writes + 1)
    else
      s.(claims := s.claims[id := k.(pc := Ready, retries := k.retries + 1)])
  }

  function StoreStep(s: System, v: nat): System {
    s.(slot := v, history := s.history + [Store(v)], writes := s.writes + 1)
  }

  function CallStep(s: System, id: nat): System {
    s.(claims := s.claims[id := Claim(Ready, |s.history|, s.writes, 0)])
  }

  ghost predicate Next(c: Config, s: System, t: System) {
    || (exists v :: t == StoreStep(s, v))
    || (exists id :: id !in s.claims && t == CallStep(s, id))
    || (exists id :: id in s.claims && s.claims[id].pc.Ready? && t == ReadStep(c, s, id))
    || (exists id :: id in s.claims && s.claims[id].pc.Loaded? && t == ExchangeStep(c, s, id))
  }

  ghost predicate NextAt(c: Config, r: seq<System>, i: nat)
    requires i + 1 < |r|
  {
    Next(c, r[i], r[i + 1])
  }

  ghost predicate Run(c: Config, r: seq<System>) {
    && |r| > 0 && r[0] == System(r[0].slot, map[], [], 0)
    && forall i: nat | i + 1 < |r| :: NextAt(c, r, i)
  }

  // ---- the sequential object the claim loop stands for ----

  /** An atomic take-and-reset: the armed selection, leaving baseline; otherwise
      baseline, leaving the slot alone. */
  function TakeResult(c: Config, slot: nat): nat {
    if Armed(c, slot) then slot else c.baseline
  }

  function After(c: Config, slot: nat, op: Op): nat {
    match op
    case Store(v) => v
    case Take(_, _) => if Armed(c, slot) then c.baseline else slot
  }

  /** The slot after the first `k` operations of `h`. */
  function SlotAt(c: Config, start: nat, h: seq<Op>, k: nat): nat
    requires k <= |h|
  {
    if k == 0 then start else After(c, SlotAt(c, start, h, k - 1), h[k - 1])
  }

  /** Every take in `h` returns what the sequential object returns. */
  ghost predicate Legal(c: Config, start: nat, h: seq<Op>) {
    forall k | 0 <= k < |h| && h[k].Take? :: h[k].r == TakeResult(c, SlotAt(c, start, h, k))
  }

  lemma {:induction false} SlotAtAgrees(c: Config, start: nat, h: seq<Op>, g: seq<Op>, k: nat)
    requires k <= |h| && h <= g
    ensures SlotAt(c, start, h, k) == SlotAt(c, start, g, k)
  {
    if k == 0 {
    } else {
      SlotAtAgrees(c, start, h, g, k - 1);
    }
  }

  lemma LegalExtends(c: Config, start: nat, h: seq<Op>, op: Op)
    requires Legal(c, start, h)
    requires op.Take? ==> op.r == TakeResult(c, SlotAt(c, start, h, |h|))
    ensures Legal(c, start, h + [op])
    ensures SlotAt(c, start, h + [op], |h| + 1) == After(c, SlotAt(c, start, h, |h|), op)
  {
    forall k | 0 <= k <= |h| ensures SlotAt(c, start, h + [op], k) == SlotAt(c, start, h, k) {
      SlotAtAgrees(c, start, h, h + [op], k);
    }
  }

  // ---- the invariant ----

  function One(b: bool): nat {
    if b then 1 else 0
  }

  ghost predicate ClaimOk(c: Config, s: System, id: nat, k: Claim) {
    && k.calledAt <= |s.history| && k.writesBefore + k.retries <= s.writes
    && match k.pc {
      case Ready => true
      case Loaded(sel, readAt) =>
        && Armed(c, sel) && k.writesBefore + k.retries <= readAt <= s.writes
        && (s.slot != sel ==> readAt < s.writes)
      case Returned(v, at) => k.calledAt <= at < |s.history| && s.history[at] == Take(id, v)
    }
  }

  ghost predicate Inv(c: Config, start: nat, s: System) {
    && Legal(c, start, s.history)
    && s.slot == SlotAt(c, start, s.history, |s.history|)
    && (forall id | id in s.claims :: ClaimOk(c, s, id, s.claims[id]))
    && (forall k | 0 <= k < |s.history| && s.history[k].Take? ::
          s.history[k].id in s.claims && s.claims[s.history[k].id].pc == Returned(s.history[k].r, k))
  }

  lemma OperationKeepsInv(c: Config, start: nat, s: System, op: Op, t: System)
    requires Inv(c, start, s) && t.history == s.history + [op] && t.slot == After(c, s.slot, op)
    requires t.writes == s.writes + One(t.slot != s.slot || op.Store?)
    requires op.Take? ==> op.r == TakeResult(c, s.slot) && op.id in s.claims && !s.claims[op.id].pc.Returned?
    requires t.claims == match op {
        case Store(_) => s.claims
        case Take(id, v) => s.claims[id := s.claims[id].(pc := Returned(v, |s.history|))]
      }
    ensures Inv(c, start, t)
  {
    LegalExtends(c, start, s.history, op);
    forall id | id in t.claims ensures ClaimOk(c, t, id, t.claims[id]) {
      assert ClaimOk(c, s, id, s.claims[id]);
    }
  }

  lemma NextKeepsInv(c: Config, start: nat, s: System, t: System)
    requires !c.torn && Inv(c, start, s) && Next(c, s, t)
    ensures Inv(c, start, t)
  {
    if v :| t == StoreStep(s, v) {
      OperationKeepsInv(c, start, s, Store(v), t);
    } else if id :| id !in s.claims && t == CallStep(s, id) {
    } else if id :| id in s.claims && s.claims[id].pc.Ready? && t == ReadStep(c, s, id) {
      if !Armed(c, s.slot) { OperationKeepsInv(c, start, s, Take(id, c.baseline), t); }
    } else if id :| id in s.claims && s.claims[id].pc.Loaded? && t == ExchangeStep(c, s, id) {
      assert ClaimOk(c, s, id, s.claims[id]);
      if s.slot == s.claims[id].pc.sel { OperationKeepsInv(c, start, s, Take(id, s.slot), t); }
    }
  }

  lemma {:induction false} RunKeepsInv(c: Config, r: seq<System>, i: nat)
    requires !c.torn && Run(c, r) && i < |r|
    ensures Inv(c, r[0].slot, r[i])
  {
    if i == 0 {
    } else {
      RunKeepsInv(c, r, i - 1);
      assert NextAt(c, r, i - 1);
      NextKeepsInv(c, r[0].slot, r[i - 1], r[i]);
    }
  }

  // ---- what the claim loop promises ----

  /** The claim loop refines the atomic take-and-reset. In every reachable state the slot is
      the sequential object's after `history`, every take has the sequential object's result,
      each returned call owns exactly one operation of the history, and that operation took
      effect after the call began. */
  lemma ClaimIsAtomic(c: Config, r: seq<System>, i: nat)
    requires !c.torn && Run(c, r) && i < |r|
    ensures var s := r[i];
            && Legal(c, r[0].slot, s.history)
            && s.slot == SlotAt(c, r[0].slot, s.history, |s.history|)
            && (forall id | id in s.claims && s.claims[id].pc.Returned? ::
                  var k := s.claims[id];
                  k.calledAt <= k.pc.at < |s.history| && s.history[k.pc.at] == Take(id, k.pc.value))
            && (forall m, n | 0 <= m < n < |s.history| && s.history[m].Take? && s.history[n].Take? ::
                  s.history[m].id != s.history[n].id)
  {
    RunKeepsInv(c, r, i);
    forall id | id in r[i].claims && r[i].claims[id].pc.Returned?
      ensures var k := r[i].claims[id];
              k.calledAt <= k.pc.at < |r[i].history| && r[i].history[k.pc.at] == Take(id, k.pc.value)
    {
      assert ClaimOk(c, r[i], id, r[i].claims[id]);
    }
  }

  /** A call never fails more exchanges than the slot was written since the call began, and
      an exchange fails only if the slot was written since the read before it. */
  lemma RetriesAreCharged(c: Config, r: seq<System>, i: nat, id: nat)
    requires !c.torn && Run(c, r) && i < |r| && id in r[i].claims
    ensures var s, k := r[i], r[i].claims[id];
            && k.retries <= s.writes - k.writesBefore
            && (k.pc.Loaded? && s.slot != k.pc.sel ==> k.pc.readAt < s.writes)
  {
    RunKeepsInv(c, r, i);
    assert ClaimOk(c, r[i], id, r[i].claims[id]);
  }

  // ---- what a claim returns ----

  /** A claim that nothing disturbs: an armed, in-range selection is returned and the slot reset
      to baseline; any other slot gives baseline and is left as it is. */
  lemma UndisturbedClaim(c: Config, s: System, id: nat)
    requires id in s.claims && s.claims[id].pc.Ready?
    ensures var t := ReadStep(c, s, id);
            if s.slot != c.baseline && s.slot < c.count then
              && t.claims[id].pc.Loaded?
              && var u := ExchangeStep(c, t, id);
                 u.claims[id].pc == Returned(s.slot, |s.history|) && u.slot == c.baseline
            else t.claims[id].pc == Returned(c.baseline, |s.history|) && t.slot == s.slot
  {
  }

  /** In every run, a claim that read an armed, in-range selection and finds the slot unwritten
      since returns it and leaves baseline. */
  lemma UnwrittenClaimSucceeds(c: Config, r: seq<System>, i: nat, j: nat, id: nat)
    requires !c.torn && Run(c, r) && i < j && j + 1 < |r| && id in r[i].claims && r[i].claims[id].pc.Ready?
    requires r[i].slot != c.baseline && r[i].slot < c.count && r[i + 1] == ReadStep(c, r[i], id)
    requires id in r[j].claims && r[j].claims[id] == r[i + 1].claims[id] && r[j].writes == r[i].writes
    requires r[j + 1] == ExchangeStep(c, r[j], id)
    ensures r[j + 1].claims[id].pc == Returned(r[i].slot, |r[j].history|) && r[j + 1].slot == c.baseline
  {
    RunKeepsInv(c, r, j);
    assert ClaimOk(c, r[j], id, r[j].claims[id]);
  }

  /** The object that the history of every run is a history of: a store sets the slot; a take of
      an armed, in-range selection returns it and leaves baseline; any other take returns
      baseline and leaves the slot. */
  lemma HistoryIsSequential(c: Config, r: seq<System>, i: nat, k: nat)
    requires !c.torn && Run(c, r) && i < |r| && k < |r[i].history|
    ensures var h, start := r[i].history, r[0].slot;
            var before, after := SlotAt(c, start, h, k), SlotAt(c, start, h, k + 1);
            match h[k]
            case Store(v) => after == v
            case Take(_, v) =>
              if before != c.baseline && before < c.count then v == before && after == c.baseline
              else v == c.baseline && after == before
    ensures SlotAt(c, r[0].slot, r[i].history, 0) == r[0].slot
    ensures SlotAt(c, r[0].slot, r[i].history, |r[i].history|) == r[i].slot
  {
    RunKeepsInv(c, r, i);
  }

  // ---- conservation of arms ----

  function Arms(c: Config, h: seq<Op>, k: nat): nat
    requires k <= |h|
  {
    if k == 0 then 0 else Arms(c, h, k - 1) + (if h[k - 1].Store? && Armed(c, h[k - 1].v) then 1 else 0)
  }

  function Claims(c: Config, h: seq<Op>, k: nat): nat
    requires k <= |h|
  {
    if k == 0 then 0 else Claims(c, h, k - 1) + (if h[k - 1].Take? && h[k - 1].r != c.baseline then 1 else 0)
  }

  /** Armed selections that a later store overwrote or disarmed. */
  function Displaced(c: Config, start: nat, h: seq<Op>, k: nat): nat
    requires k <= |h|
  {
    if k == 0 then 0
    else Displaced(c, start, h, k - 1) + (if h[k - 1].Store? && Armed(c, SlotAt(c, start, h, k - 1)) then 1 else 0)
  }

  lemma {:induction false} LegalConservesArms(c: Config, start: nat, h: seq<Op>, k: nat)
    requires Legal(c, start, h) && k <= |h|
    ensures One(Armed(c, start)) + Arms(c, h, k) ==
            Claims(c, h, k) + Displaced(c, start, h, k) + One(Armed(c, SlotAt(c, start, h, k)))
  {
    if k == 0 {
    } else {
      LegalConservesArms(c, start, h, k - 1);
    }
  }

  /** Every arm is claimed once, or displaced by a later store, or still in the slot. */
  lemma ArmsAreConserved(c: Config, r: seq<System>, i: nat)
    requires !c.torn && Run(c, r) && i < |r|
    ensures var h := r[i].history;
            One(Armed(c, r[0].slot)) + Arms(c, h, |h|) ==
            Claims(c, h, |h|) + Displaced(c, r[0].slot, h, |h|) + One(Armed(c, r[i].slot))
  {
    RunKeepsInv(c, r, i);
    LegalConservesArms(c, r[0].slot, r[i].history, |r[i].history|);
  }

  /** The last store before position `k`, or -1 for the selection the slot started with. */
  function SourceOf(h: seq<Op>, k: nat): (m: int)
    requires k <= |h|
    ensures -1 <= m < k && (m >= 0 ==> h[m].Store?)
    ensures forall n | m < n < k :: h[n].Take?
  {
    if k == 0 then -1 else if h[k - 1].Store? then k - 1 else SourceOf(h, k - 1)
  }

  lemma {:induction false} SlotFollowsSource(c: Config, start: nat, h: seq<Op>, k: nat)
    requires Legal(c, start, h) && k <= |h|
    ensures var m, slot := SourceOf(h, k), SlotAt(c, start, h, k);
            Armed(c, slot) ==>
              && slot == (if m < 0 then start else h[m].v)
              && forall n | m < n < k :: h[n].r == c.baseline
  {
    if k == 0 {
    } else {
      SlotFollowsSource(c, start, h, k - 1);
    }
  }

  /** A claim returns the armed, in-range value of the last store, and two claims never share
      a store: the store behind the later claim came after the earlier claim. */
  lemma ClaimsAreOneShot(c: Config, r: seq<System>, i: nat, j: nat, k: nat)
    requires !c.torn && Run(c, r) && i < |r|
    requires j < k < |r[i].history|
    requires r[i].history[j].Take? && r[i].history[j].r != c.baseline
    requires r[i].history[k].Take? && r[i].history[k].r != c.baseline
    ensures var h := r[i].history;
            var m := SourceOf(h, k);
            j < m && h[m] == Store(h[k].r) && Armed(c, h[k].r)
  {
    RunKeepsInv(c, r, i);
    SlotFollowsSource(c, r[0].slot, r[i].history, k);
  }

  // ---- a slot no claim may consume ----

  lemma {:induction false} HistoryGrows(c: Config, r: seq<System>, i: nat, j: nat)
    requires Run(c, r) && i <= j < |r|
    ensures r[i].history <= r[j].history
    decreases j
  {
    if j == i {
    } else {
      HistoryGrows(c, r, i, j - 1);
      assert NextAt(c, r, j - 1);
    }
  }

  lemma {:induction false} TakesLeaveUnarmed(c: Config, start: nat, h: seq<Op>, n: nat, k: nat)
    requires Legal(c, start, h) && n <= k <= |h| && !Armed(c, SlotAt(c, start, h, n))
    requires forall m | n <= m < k :: h[m].Take?
    ensures SlotAt(c, start, h, k) == SlotAt(c, start, h, n)
    ensures forall m | n <= m < k :: h[m].r == c.baseline
    decreases k
  {
    if k == n {
    } else {
      TakesLeaveUnarmed(c, start, h, n, k - 1);
    }
  }

  /** An out-of-range selector is never consumed. From any moment at which the slot holds one
      (or baseline), and for as long as nothing is stored, every claim that returns returns
      baseline, and the slot keeps its value. */
  lemma OutOfRangeStays(c: Config, r: seq<System>, i: nat, j: nat)
    requires !c.torn && Run(c, r) && i <= j < |r|
    requires r[i].slot >= c.count || r[i].slot == c.baseline
    requires forall m | |r[i].history| <= m < |r[j].history| :: r[j].history[m].Take?
    ensures r[j].slot == r[i].slot
    ensures forall id | id in r[j].claims && r[j].claims[id].pc.Returned? ::
              r[j].claims[id].pc.at >= |r[i].history| ==> r[j].claims[id].pc.value == c.baseline
  {
    var start, h, g := r[0].slot, r[i].history, r[j].history;
    RunKeepsInv(c, r, i);
    RunKeepsInv(c, r, j);
    HistoryGrows(c, r, i, j);
    SlotAtAgrees(c, start, h, g, |h|);
    TakesLeaveUnarmed(c, start, g, |h|, |g|);
    forall id | id in r[j].claims && r[j].claims[id].pc.Returned? && r[j].claims[id].pc.at >= |h|
      ensures r[j].claims[id].pc.value == c.baseline
    {
      assert ClaimOk(c, r[j], id, r[j].claims[id]);
    }
  }

  /** The torn shape breaks the law: one arm, two claims of it. */
  lemma TornConsumesTwice(c: Config, v: nat) returns (r: seq<System>)
    requires c.torn && Armed(c, v)
    ensures Run(c, r) && |r| > 0 && !Armed(c, r[0].slot)
    ensures var h := r[|r| - 1].history; Arms(c, h, |h|) == 1 && Claims(c, h, |h|) == 2
  {
    var s0 := System(c.baseline, map[], [], 0);
    var s1 := CallStep(s0, 1);
    var s2 := CallStep(s1, 2);
    var s3 := StoreStep(s2, v);
    var s4 := ReadStep(c, s3, 1);
    var s5 := ReadStep(c, s4, 2);
    var s6 := ExchangeStep(c, s5, 1);
    var s7 := ExchangeStep(c, s6, 2);
    r := [s0, s1, s2, s3, s4, s5, s6, s7];
    var h := s7.history;
    assert h == [Store(v), Take(1, v), Take(2, v)];
    assert Arms(c, h, 0) == 0 && Arms(c, h, 1) == 1 && Arms(c, h, 2) == 1 && Arms(c, h, 3) == 1;
    assert Claims(c, h, 0) == 0 && Claims(c, h, 1) == 0 && Claims(c, h, 2) == 1 && Claims(c, h, 3) == 2;
  }
}
