/** The walk of the command-stream checker over an indirect buffer.

    The loop takes one packet after the other. The check of a register, and the checker of a
    type-3 packet, may take further packets themselves: a relocation, or the two packets that
    follow a wait for a vertical line. What the checks decide is arbitrary; what they take is
    read from the buffer as the code reads it. */
module CommandStream {
  import opened Packet0

  const WAIT_UNTIL: nat := 0x1720
  const WAIT_CRTC_VLINE: nat := 8
  const NOP: nat := 0x10

  /** Who took a packet: the loop, a relocation lookup, or a vertical-line wait. */
  datatype Role = Stream | Relocation | VlineWait | VlineNext
  datatype Taken = Taken(p: Packet, role: Role)

  datatype State = State(idx: nat, calls: seq<Call>, taken: seq<Taken>)

  /** What a check does with the packets behind its own, one action after the other. `chunk`
      says whether there is a relocation chunk, `stale` is what the register field of a packet
      without a register happens to hold, `late` the result once the packets are taken. */
  datatype Op = NextReloc(chunk: bool, late: int) | Vline(stale: Word, late: int)
  datatype Reply = Reply(ops: seq<Op>, result: int)

  /** A result, or a read outside the register bitmap or the buffer. */
  datatype Outcome = Done(result: int) | BitmapOverrun | BufferOverrun
  datatype Ran = Ran(o: Outcome, s: State)

  datatype Parsed = Refused | Got(p: Packet)

  /** The packet at an index of the buffer: its type is known and it ends inside the buffer. */
  function PacketAt(ib: seq<Word>, at: nat, beforeR600: bool): (r: Parsed)
    ensures r.Got? ==> at < |ib| && r.p == Decoded(ib[at], at, beforeR600) && at + r.p.count + 2 <= |ib|
  {
    if at >= |ib| then Refused
    else
      var p := Decoded(ib[at], at, beforeR600);
      if p.kind == 1 || p.count + 1 + at >= |ib| then Refused else Got(p)
  }

  function Take(s: State, p: Packet, role: Role): State
    requires p.count >= -1
  {
    s.(idx := s.idx + p.count + 2, taken := s.taken + [Taken(p, role)])
  }

  // ---- what the walk computes ----

  function RunNextReloc(ib: seq<Word>, s: State, chunk: bool, late: int): (x: Ran)
    ensures x.s.idx >= s.idx
  {
    if !chunk then Ran(Done(-EINVAL), s)
    else match PacketAt(ib, s.idx, true)
      case Refused => Ran(Done(-EINVAL), s)
      case Got(p) =>
        var t := Take(s, p, Relocation);
        Ran(Done(if p.kind != 3 || p.opcode != NOP then -EINVAL else late), t)
  }

  /** The wait packet is recognised by its register and count; of the packet behind it only
      the extent is looked at, and the dword behind its header. */
  function RunVline(ib: seq<Word>, s: State, stale: Word, late: int): (x: Ran)
    ensures x.s.idx >= s.idx
  {
    match PacketAt(ib, s.idx, true)
    case Refused => Ran(Done(-EINVAL), s)
    case Got(w) =>
      if (if w.kind == 0 then w.reg else stale) != WAIT_UNTIL || w.count != 0 then Ran(Done(-EINVAL), s)
      else if ib[s.idx + 1] != WAIT_CRTC_VLINE then Ran(Done(-EINVAL), s)
      else match PacketAt(ib, s.idx + 2, true)
        case Refused => Ran(Done(-EINVAL), s)
        case Got(n) =>
          var t := Take(Take(s, w, VlineWait), n, VlineNext);
          Ran(if s.idx + 3 < |ib| then Done(late) else BufferOverrun, t)
  }

  function RunOp(ib: seq<Word>, s: State, op: Op): (x: Ran)
    ensures x.s.idx >= s.idx
  {
    match op
    case NextReloc(chunk, late) => RunNextReloc(ib, s, chunk, late)
    case Vline(stale, late) => RunVline(ib, s, stale, late)
  }

  /** One check: its actions in order up to the first that fails, then its own result. */
  function RunReply(ib: seq<Word>, s: State, ops: seq<Op>, result: int): (x: Ran)
    ensures x.s.idx >= s.idx
    decreases |ops|
  {
    if ops == [] then Ran(Done(result), s)
    else
      var x := RunOp(ib, s, ops[0]);
      if x.o != Done(0) then x else RunReply(ib, x.s, ops[1..], result)
  }

  lemma ReplyStep(ib: seq<Word>, s: State, ops: seq<Op>, k: nat, result: int)
    requires k < |ops|
    ensures var x := RunOp(ib, s, ops[k]);
            RunReply(ib, s, ops[k..], result) == if x.o != Done(0) then x else RunReply(ib, x.s, ops[k + 1..], result)
  {
    assert ops[k..][1..] == ops[k + 1..];
  }

  function RunCheck(ib: seq<Word>, s: State, c: Call, reply: Reply): (x: Ran)
    ensures x.s.idx >= s.idx
  {
    RunReply(ib, s.(calls := s.calls + [c]), reply.ops, reply.result)
  }

  /** The register walk of a type-0 packet from iteration `i`. */
  function RunPacket(ib: seq<Word>, auth: seq<Word>, checks: nat -> Reply, p: Packet, i: nat, s: State): (x: Ran)
    requires p.count >= 0
    ensures x.s.idx >= s.idx
    decreases p.count + 1 - i
  {
    if i > p.count then Ran(Done(0), s)
    else if RegAt(p, i) / 128 >= |auth| then Ran(BitmapOverrun, s)
    else if !Checked(auth, RegAt(p, i)) then
      if p.oneReg then Ran(Done(0), s) else RunPacket(ib, auth, checks, p, i + 1, s)
    else
      var x := RunCheck(ib, s, Call(p.idx + 1 + i, RegAt(p, i)), checks(|s.calls|));
      if x.o != Done(0) then x else RunPacket(ib, auth, checks, p, i + 1, x.s)
  }

  /** What the loop does with the packet it took. */
  function RunTaken(ib: seq<Word>, auth: seq<Word>, checks: nat -> Reply, others: nat -> Reply, p: Packet,
                    s: State): (x: Ran)
    requires p.kind == 0 ==> p.count >= 0
    ensures x.s.idx >= s.idx
  {
    if p.kind == 0 then
      if Admitted(p, |auth|) then RunPacket(ib, auth, checks, p, 0, s) else Ran(Done(-EINVAL), s)
    else if p.kind == 3 then RunReply(ib, s, others(|s.taken|).ops, others(|s.taken|).result)
    else Ran(Done(0), s)
  }

  /** The loop over the buffer. `checks(k)` answers the k-th register check and `others(k)` the
      checker of a type-3 packet that is the k-th packet taken. */
  function RunStream(ib: seq<Word>, auth: seq<Word>, checks: nat -> Reply, others: nat -> Reply, s: State): Ran
    decreases |ib| - s.idx
  {
    match PacketAt(ib, s.idx, true)
    case Refused => Ran(Done(-EINVAL), s)
    case Got(p) =>
      var x := RunTaken(ib, auth, checks, others, p, Take(s, p, Stream));
      if x.o != Done(0) || x.s.idx >= |ib| then x else RunStream(ib, auth, checks, others, x.s)
  }

  const Opened: State := State(0, [], [])

  // ---- the code ----

  class CsParser {
    const ib: seq<Word>
    const checks: nat -> Reply
    const others: nat -> Reply
    var idx: nat
    var calls: seq<Call>
    var taken: seq<Taken>

    function Now(): State
      reads this
    {
      State(idx, calls, taken)
    }

    constructor (buffer: seq<Word>, onCheck: nat -> Reply, onOther: nat -> Reply)
      ensures ib == buffer && checks == onCheck && others == onOther && Now() == Opened
    {
      ib, checks, others, idx, calls, taken := buffer, onCheck, onOther, 0, [], [];
    }

    /** The packet at an index. It is refused exactly if the index is behind the buffer, the
        type is 1, or the packet does not end inside the buffer. */
    method PacketParse(at: nat, beforeR600: bool) returns (r: int, p: Packet)
      ensures r == 0 || r == -22
      ensures r == 0 <==>
                at < |ib| && ib[at] / 0x4000_0000 != 1 && at + Decoded(ib[at], at, beforeR600).count + 2 <= |ib|
      ensures r == 0 ==> p == Decoded(ib[at], at, beforeR600)
      ensures PacketAt(ib, at, beforeR600) == if r == 0 then Got(p) else Refused
    {
      p := Packet(at, 1, 0, 0, 0, false);
      if at >= |ib| { return -EINVAL, p; }
      p := Decoded(ib[at], at, beforeR600);
      if p.kind == 1 { return -EINVAL, p; }
      if p.count + 1 + at >= |ib| { return -EINVAL, p; }
      r := 0;
    }

    method NextReloc(chunk: bool, late: int) returns (o: Outcome)
      modifies this`idx, this`taken
      ensures Ran(o, Now()) == RunNextReloc(ib, old(Now()), chunk, late)
    {
      if !chunk { return Done(-EINVAL); }
      var r, p := PacketParse(idx, true);
      if r != 0 { return Done(r); }
      idx, taken := idx + p.count + 2, taken + [Taken(p, Relocation)];
      if p.kind != 3 || p.opcode != NOP { return Done(-EINVAL); }
      o := Done(late);
    }

    method ParseVline(stale: Word, late: int) returns (o: Outcome)
      modifies this`idx, this`taken
      ensures Ran(o, Now()) == RunVline(ib, old(Now()), stale, late)
    {
      var r, wait := PacketParse(idx, true);
      if r != 0 { return Done(r); }
      var reg := if wait.kind == 0 then wait.reg else stale;
      if reg != WAIT_UNTIL || wait.count != 0 { return Done(-EINVAL); }
      if ib[wait.idx + 1] != WAIT_CRTC_VLINE { return Done(-EINVAL); }
      var next;
      r, next := PacketParse(idx + wait.count + 2, true);
      if r != 0 { return Done(r); }
      var crtc := idx + 3;
      idx, taken := idx + wait.count + 2, taken + [Taken(wait, VlineWait)];
      idx, taken := idx + next.count + 2, taken + [Taken(next, VlineNext)];
      o := if crtc < |ib| then Done(late) else BufferOverrun;
    }

    method Answer(ops: seq<Op>, result: int) returns (o: Outcome)
      modifies this`idx, this`taken
      ensures Ran(o, Now()) == RunReply(ib, old(Now()), ops, result)
    {
      ghost var goal := RunReply(ib, Now(), ops, result);
      assert ops[0..] == ops;
      for k := 0 to |ops|
        invariant RunReply(ib, Now(), ops[k..], result) == goal
        invariant calls == old(calls)
      {
        ghost var before := Now();
        ReplyStep(ib, before, ops, k, result);
        match ops[k] {
          case NextReloc(chunk, late) => o := NextReloc(chunk, late);
          case Vline(stale, late) => o := ParseVline(stale, late);
        }
        assert Ran(o, Now()) == RunOp(ib, before, ops[k]);
        if o != Done(0) { return; }
      }
      o := Done(result);
    }

    method CheckRegister(c: Call) returns (o: Outcome)
      modifies this
      ensures Ran(o, Now()) == RunCheck(ib, old(Now()), c, checks(|old(calls)|))
    {
      var reply := checks(|calls|);
      calls := calls + [c];
      o := Answer(reply.ops, reply.result);
    }

    method ParsePacket0(p: Packet, auth: seq<Word>) returns (o: Outcome)
      requires p.kind == 0 && p.count >= 0
      modifies this
      ensures Ran(o, Now()) == RunTaken(ib, auth, checks, others, p, old(Now()))
    {
      var index, reg := p.idx + 1, p.reg;
      if p.oneReg {
        if reg / 128 >= |auth| { return Done(-EINVAL); }
      } else {
        if (reg + p.count * 4) % WRAP / 128 >= |auth| { return Done(-EINVAL); }
      }
      var i := 0;
      while i <= p.count
        invariant 0 <= i <= p.count + 1 && index == p.idx + 1 + i && reg == RegAt(p, i)
        invariant RunPacket(ib, auth, checks, p, i, Now()) == RunPacket(ib, auth, checks, p, 0, old(Now()))
      {
        var j := reg / 128;
        if j >= |auth| { return BitmapOverrun; }
        var m := Checked(auth, reg);
        if m {
          o := CheckRegister(Call(index, reg));
          if o != Done(0) { return; }
        }
        RegNext(p, i);
        if p.oneReg {
          if !m { break; }
        } else {
          reg := (reg + 4) % WRAP;
        }
        i, index := i + 1, index + 1;
      }
      o := Done(0);
    }

    method ParseTaken(p: Packet, auth: seq<Word>) returns (o: Outcome)
      requires p.kind <= 3 && p.kind != 1 && (p.kind == 0 ==> p.count >= 0)
      modifies this
      ensures Ran(o, Now()) == RunTaken(ib, auth, checks, others, p, old(Now()))
    {
      match p.kind
      case 0 => o := ParsePacket0(p, auth);
      case 2 => o := Done(0);
      case _ => o := Answer(others(|taken|).ops, others(|taken|).result);
    }

    /** The loop over the buffer. A buffer that passes from its start is tiled by the packets
        taken, and its register checks are those of the loop's own type-0 packets. */
    method Parse(auth: seq<Word>) returns (o: Outcome)
      modifies this
      ensures Ran(o, Now()) == RunStream(ib, auth, checks, others, old(Now()))
      ensures old(Now()) == Opened ==> !o.BitmapOverrun? && (o.BufferOverrun? <==> EndsInFiller(ib, taken))
      ensures old(Now()) == Opened && o.BufferOverrun? ==> FillerBehindWait(ib)
      ensures old(Now()) == Opened && o == Done(0) ==>
                && Tiles(taken, |ib|) && Genuine(ib, taken) && AllSeen(taken)
                && AllInBounds(StreamOf(taken), |auth|) && calls == AllChecks(StreamOf(taken), auth)
    {
      AcceptedStreamIsAccounted(ib, auth, checks, others);
      OverrunsBehindFillerIff(ib, auth, checks, others);
      while true
        invariant RunStream(ib, auth, checks, others, Now()) == RunStream(ib, auth, checks, others, old(Now()))
        decreases |ib| - idx
      {
        ghost var before := Now();
        var r, p := PacketParse(idx, true);
        if r != 0 { return Done(r); }
        StreamStep(ib, auth, checks, others, before);
        idx, taken := idx + p.count + 2, taken + [Taken(p, Stream)];
        assert Now() == Take(before, p, Stream);
        o := ParseTaken(p, auth);
        if o != Done(0) { return; }
        if idx >= |ib| { return; }
      }
    }
  }

  lemma StreamStep(ib: seq<Word>, auth: seq<Word>, checks: nat -> Reply, others: nat -> Reply, s: State)
    requires PacketAt(ib, s.idx, true).Got?
    ensures var p := PacketAt(ib, s.idx, true).p;
            var x := RunTaken(ib, auth, checks, others, p, Take(s, p, Stream));
            RunStream(ib, auth, checks, others, s) ==
              if x.o != Done(0) || x.s.idx >= |ib| then x else RunStream(ib, auth, checks, others, x.s)
  {
  }

  /** A relocation lookup succeeds up to its record exactly if there is a relocation chunk and
      the dword at the position heads a type-3 packet with opcode 0x10 that ends in the buffer;
      the position is then behind that packet. Anything else is -EINVAL. */
  lemma RelocationIff(ib: seq<Word>, s: State, chunk: bool, late: int)
    ensures var x := RunNextReloc(ib, s, chunk, late);
            if chunk && s.idx < |ib| && ib[s.idx] / 0x4000_0000 == 3 && ib[s.idx] / 0x100 % 0x100 == 0x10 &&
               s.idx + ib[s.idx] / 0x1_0000 % 0x4000 + 2 <= |ib|
            then x.o == Done(late) && x.s.idx == s.idx + ib[s.idx] / 0x1_0000 % 0x4000 + 2
            else x.o == Done(-22)
  {
  }

  /** A wait that begins with a type-0 packet is recognised exactly if that packet writes one
      value, 8, to register 0x1720, and the dword behind it heads a packet, of any type but 1,
      that ends in the buffer; the position is then behind both. Anything else is -EINVAL. */
  lemma VlineIff(ib: seq<Word>, s: State, stale: Word, late: int)
    requires s.idx < |ib| && ib[s.idx] / 0x4000_0000 == 0
    ensures var x := RunVline(ib, s, stale, late);
            if && s.idx + 2 < |ib| && ib[s.idx] % 0x2000 == 0x5c8 && ib[s.idx] / 0x1_0000 % 0x4000 == 0
               && ib[s.idx + 1] == 8 && ib[s.idx + 2] / 0x4000_0000 != 1
               && (ib[s.idx + 2] / 0x4000_0000 != 2 ==> s.idx + ib[s.idx + 2] / 0x1_0000 % 0x4000 + 4 <= |ib|)
            then
              && x.o == (if s.idx + 3 < |ib| then Done(late) else BufferOverrun)
              && x.s.idx == s.idx + 2 +
                   if ib[s.idx + 2] / 0x4000_0000 == 2 then 1 else ib[s.idx + 2] / 0x1_0000 % 0x4000 + 2
            else x.o == Done(-22) && x.s == s
  {
  }

  // ---- which packets are taken, and by whom ----

  /** The packets lie end to end from the start of the buffer to `to`. */
  predicate Tiles(taken: seq<Taken>, to: nat) {
    if taken == [] then to == 0
    else
      var last := taken[|taken| - 1].p;
      last.count >= -1 && last.idx + last.count + 2 == to && Tiles(taken[..|taken| - 1], last.idx)
  }

  /** Every packet taken is the packet the buffer holds at its place. */
  ghost predicate Genuine(ib: seq<Word>, taken: seq<Taken>) {
    forall t | t in taken :: PacketAt(ib, t.p.idx, true) == Got(t.p)
  }

  ghost predicate Placed(ib: seq<Word>, s: State) {
    s.idx <= |ib| && Tiles(s.taken, s.idx) && Genuine(ib, s.taken)
  }

  lemma TakeKeepsPlaced(ib: seq<Word>, s: State, role: Role)
    requires Placed(ib, s) && PacketAt(ib, s.idx, true).Got?
    ensures Placed(ib, Take(s, PacketAt(ib, s.idx, true).p, role))
  {
    var t := Take(s, PacketAt(ib, s.idx, true).p, role);
    assert t.taken[..|s.taken|] == s.taken;
  }

  /** The packets the loop itself took, in order. */
  function StreamOf(taken: seq<Taken>): (ps: seq<Packet>)
  {
    if taken == [] then []
    else
      var last := taken[|taken| - 1];
      StreamOf(taken[..|taken| - 1]) + if last.role.Stream? then [last.p] else []
  }

  lemma StreamGrows(taken: seq<Taken>, t: Taken)
    ensures StreamOf(taken + [t]) == StreamOf(taken) + if t.role.Stream? then [t.p] else []
  {
    assert (taken + [t])[..|taken|] == taken;
  }

  /** What a packet taken by a check was seen to be. */
  predicate Seen(t: Taken) {
    match t.role
    case Stream => true
    case Relocation => t.p.kind == 3 && t.p.opcode == NOP
    case VlineWait => t.p.count == 0 && (t.p.kind == 0 ==> t.p.reg == WAIT_UNTIL)
    case VlineNext => true
  }

  ghost predicate AllSeen(taken: seq<Taken>) {
    forall t | t in taken :: Seen(t)
  }

  /** A wait is taken together with the packet behind it, and that packet with its wait. */
  predicate Paired(taken: seq<Taken>)
    decreases |taken|
  {
    taken == [] ||
    var n := |taken| - 1;
    match taken[n].role
    case Stream => Paired(taken[..n])
    case Relocation => Paired(taken[..n])
    case VlineWait => false
    case VlineNext =>
      && n > 0 && taken[n - 1].role.VlineWait? && taken[n].p.idx == taken[n - 1].p.idx + 2
      && Paired(taken[..n - 1])
  }

  lemma PairedGrows(taken: seq<Taken>, t: Taken)
    requires Paired(taken) && (t.role.Stream? || t.role.Relocation?)
    ensures Paired(taken + [t])
  {
    assert (taken + [t])[..|taken|] == taken;
  }

  lemma PairedGrowsByTwo(taken: seq<Taken>, w: Taken, t: Taken)
    requires Paired(taken) && w.role.VlineWait? && t.role.VlineNext? && t.p.idx == w.p.idx + 2
    ensures Paired(taken + [w] + [t])
  {
    assert (taken + [w] + [t])[..|taken|] == taken;
  }

  /** The packet taken behind a wait, and the wait in front of such a packet. */
  lemma {:induction false} PartnerOf(taken: seq<Taken>, t: Taken) returns (u: Taken)
    requires Paired(taken) && t in taken && (t.role.VlineWait? || t.role.VlineNext?)
    ensures u in taken
    ensures if t.role.VlineWait? then u.role.VlineNext? && u.p.idx == t.p.idx + 2
            else u.role.VlineWait? && t.p.idx == u.p.idx + 2
    decreases |taken|
  {
    var n := |taken| - 1;
    if taken[n].role.VlineNext? {
      if t == taken[n] {
        u := taken[n - 1];
      } else if t == taken[n - 1] {
        u := taken[n];
      } else {
        assert t in taken[..n - 1];
        u := PartnerOf(taken[..n - 1], t);
      }
    } else {
      assert t in taken[..n];
      u := PartnerOf(taken[..n], t);
    }
  }

  /** A buffer that ends in a one-dword filler behind a one-value packet holding the wait. */
  predicate FillerBehindWait(ib: seq<Word>) {
    && |ib| >= 3 && ib[|ib| - 1] / 0x4000_0000 == 2
    && ib[|ib| - 2] == WAIT_CRTC_VLINE && ib[|ib| - 3] / 0x1_0000 % 0x4000 == 0
  }

  /** The last packet taken is a one-dword filler in the buffer's last place, behind a wait. */
  ghost predicate EndsInFiller(ib: seq<Word>, taken: seq<Taken>) {
    taken != [] &&
    var last := taken[|taken| - 1];
    last.role.VlineNext? && last.p.kind == 2 && last.p.idx == |ib| - 1
  }

  /** What a part of the walk does to the packets taken: it adds packets in place, none of them
      for the loop, each seen to be what it was taken for; and it leaves the buffer exactly if
      the last packet it took is the filler. */
  ghost predicate Moved(ib: seq<Word>, s: State, x: Ran) {
    && (Placed(ib, s) ==> Placed(ib, x.s)) && StreamOf(x.s.taken) == StreamOf(s.taken)
    && (x.o == Done(0) && AllSeen(s.taken) ==> AllSeen(x.s.taken))
    && (Paired(s.taken) ==> Paired(x.s.taken))
    && (x.o.BufferOverrun? ==> FillerBehindWait(ib))
    && (!EndsInFiller(ib, s.taken) ==> (x.o.BufferOverrun? <==> EndsInFiller(ib, x.s.taken)))
  }

  lemma MovedOn(ib: seq<Word>, s: State, x: Ran, y: Ran)
    requires Moved(ib, s, x) && x.o == Done(0) && Moved(ib, x.s, y)
    ensures Moved(ib, s, y)
  {
  }

  /** What the actions of a check do: no register is looked up. */
  ghost predicate ByCheck(ib: seq<Word>, s: State, x: Ran) {
    Moved(ib, s, x) && x.s.calls == s.calls && !x.o.BitmapOverrun?
  }

  /** What a relocation adds to the packets taken. */
  lemma RelocTakes(ib: seq<Word>, s: State, p: Packet)
    ensures var t := Taken(p, Relocation);
            && (Paired(s.taken) ==> Paired(s.taken + [t])) && StreamOf(s.taken + [t]) == StreamOf(s.taken)
            && !EndsInFiller(ib, s.taken + [t])
            && (AllSeen(s.taken) && Seen(t) ==> AllSeen(s.taken + [t]))
  {
    if Paired(s.taken) { PairedGrows(s.taken, Taken(p, Relocation)); }
    StreamGrows(s.taken, Taken(p, Relocation));
  }

  lemma RelocByCheck(ib: seq<Word>, s: State, chunk: bool, late: int)
    ensures ByCheck(ib, s, RunNextReloc(ib, s, chunk, late))
  {
    if chunk && PacketAt(ib, s.idx, true).Got? {
      if Placed(ib, s) { TakeKeepsPlaced(ib, s, Relocation); }
      RelocTakes(ib, s, PacketAt(ib, s.idx, true).p);
    }
  }

  lemma OpByCheck(ib: seq<Word>, s: State, op: Op)
    ensures ByCheck(ib, s, RunOp(ib, s, op))
  {
    match op
    case NextReloc(chunk, late) => RelocByCheck(ib, s, chunk, late);
    case Vline(stale, late) => if RunVline(ib, s, stale, late).s != s { VlineByCheck(ib, s, stale, late); }
  }

  /** Where a wait leaves the buffer. */
  lemma VlineEnds(ib: seq<Word>, s: State, stale: Word, late: int)
    requires RunVline(ib, s, stale, late).s != s
    ensures var x := RunVline(ib, s, stale, late);
            && (x.o.BufferOverrun? ==> FillerBehindWait(ib))
            && (x.o.BufferOverrun? <==> EndsInFiller(ib, x.s.taken))
  {
  }

  /** What a wait adds to the packets taken. */
  lemma VlineTakes(ib: seq<Word>, s: State, stale: Word, late: int)
    requires RunVline(ib, s, stale, late).s != s
    ensures var x := RunVline(ib, s, stale, late);
            && (Paired(s.taken) ==> Paired(x.s.taken)) && StreamOf(x.s.taken) == StreamOf(s.taken)
  {
    var w, n := Taken(PacketAt(ib, s.idx, true).p, VlineWait), Taken(PacketAt(ib, s.idx + 2, true).p, VlineNext);
    if Paired(s.taken) { PairedGrowsByTwo(s.taken, w, n); }
    StreamGrows(s.taken, w);
    StreamGrows(s.taken + [w], n);
  }

  lemma VlineByCheck(ib: seq<Word>, s: State, stale: Word, late: int)
    requires RunVline(ib, s, stale, late).s != s
    ensures ByCheck(ib, s, RunVline(ib, s, stale, late))
  {
    if Placed(ib, s) {
      TakeKeepsPlaced(ib, s, VlineWait);
      TakeKeepsPlaced(ib, Take(s, PacketAt(ib, s.idx, true).p, VlineWait), VlineNext);
    }
    VlineTakes(ib, s, stale, late);
    VlineEnds(ib, s, stale, late);
  }

  lemma {:induction false} ReplyByCheck(ib: seq<Word>, s: State, ops: seq<Op>, result: int)
    ensures ByCheck(ib, s, RunReply(ib, s, ops, result))
    decreases |ops|
  {
    if ops == [] {
    } else {
      OpByCheck(ib, s, ops[0]);
      var x := RunOp(ib, s, ops[0]);
      if x.o == Done(0) { ReplyByCheck(ib, x.s, ops[1..], result); }
    }
  }

  // ---- the checks of one packet ----

  /** The calls of a register walk: the checks of its first `n` iterations, all of them on
      success. */
  ghost predicate Walked(auth: seq<Word>, p: Packet, before: seq<Call>, x: Ran, n: nat)
    requires p.count >= 0
  {
    && n <= p.count + 1 && InBounds(p, |auth|, n) && x.s.calls == before + Checks(p, auth, n)
    && (x.o == Done(0) ==> n == p.count + 1)
    && (x.o.BitmapOverrun? ==> !InBounds(p, |auth|, p.count + 1))
  }

  lemma CheckWalks(ib: seq<Word>, auth: seq<Word>, p: Packet, i: nat, before: seq<Call>, s: State, reply: Reply)
    requires p.count >= 0 && i <= p.count && InBounds(p, |auth|, i) && s.calls == before + Checks(p, auth, i)
    requires RegAt(p, i) / 128 < |auth| && Checked(auth, RegAt(p, i))
    ensures InBounds(p, |auth|, i + 1)
    ensures var x := RunCheck(ib, s, Call(p.idx + 1 + i, RegAt(p, i)), reply);
            x.s.calls == before + Checks(p, auth, i + 1) && !x.o.BitmapOverrun?
  {
    NextCheck(p, auth, i, before, s.calls);
    var t := s.(calls := s.calls + [Call(p.idx + 1 + i, RegAt(p, i))]);
    ReplyByCheck(ib, t, reply.ops, reply.result);
  }

  /** A clear bit: the walk goes on, or a repeated register has nothing more to check. */
  lemma ClearWalks(ib: seq<Word>, auth: seq<Word>, checks: nat -> Reply, p: Packet, i: nat, before: seq<Call>, s: State)
    requires p.count >= 0 && i <= p.count && InBounds(p, |auth|, i) && s.calls == before + Checks(p, auth, i)
    requires RegAt(p, i) / 128 < |auth| && !Checked(auth, RegAt(p, i))
    ensures InBounds(p, |auth|, i + 1) && s.calls == before + Checks(p, auth, i + 1)
    ensures p.oneReg ==> Walked(auth, p, before, RunPacket(ib, auth, checks, p, i, s), p.count + 1)
    ensures !p.oneReg ==> RunPacket(ib, auth, checks, p, i, s) == RunPacket(ib, auth, checks, p, i + 1, s)
  {
    NextCheck(p, auth, i, before, s.calls);
    if p.oneReg {
      RepeatedClear(p, auth, p.count + 1);
      RepeatedClear(p, auth, i);
    }
  }

  lemma CheckedStep(ib: seq<Word>, auth: seq<Word>, checks: nat -> Reply, p: Packet, i: nat, s: State)
    requires p.count >= 0 && i <= p.count && RegAt(p, i) / 128 < |auth| && Checked(auth, RegAt(p, i))
    ensures var x := RunCheck(ib, s, Call(p.idx + 1 + i, RegAt(p, i)), checks(|s.calls|));
            RunPacket(ib, auth, checks, p, i, s) ==
              if x.o != Done(0) then x else RunPacket(ib, auth, checks, p, i + 1, x.s)
  {
  }

  lemma {:induction false} PacketMoves(ib: seq<Word>, auth: seq<Word>, checks: nat -> Reply, p: Packet, i: nat,
                                       s: State)
    requires p.count >= 0
    ensures Moved(ib, s, RunPacket(ib, auth, checks, p, i, s))
    decreases p.count + 1 - i
  {
    if i > p.count || RegAt(p, i) / 128 >= |auth| {
    } else if !Checked(auth, RegAt(p, i)) {
      if !p.oneReg { PacketMoves(ib, auth, checks, p, i + 1, s); }
    } else {
      var c, reply := Call(p.idx + 1 + i, RegAt(p, i)), checks(|s.calls|);
      var x := RunCheck(ib, s, c, reply);
      ReplyByCheck(ib, s.(calls := s.calls + [c]), reply.ops, reply.result);
      CheckedStep(ib, auth, checks, p, i, s);
      if x.o == Done(0) {
        PacketMoves(ib, auth, checks, p, i + 1, x.s);
        MovedOn(ib, s, x, RunPacket(ib, auth, checks, p, i + 1, x.s));
      }
    }
  }

  /** The walk at its end, or before a register outside the bitmap. */
  lemma EndWalks(ib: seq<Word>, auth: seq<Word>, checks: nat -> Reply, p: Packet, i: nat, before: seq<Call>, s: State)
    requires p.count >= 0 && i <= p.count + 1 && InBounds(p, |auth|, i) && s.calls == before + Checks(p, auth, i)
    requires i > p.count || RegAt(p, i) / 128 >= |auth|
    ensures Walked(auth, p, before, RunPacket(ib, auth, checks, p, i, s), i)
  {
  }

  /** A checked register: the check ends the walk, or the walk goes on behind it. */
  lemma CheckedWalks(ib: seq<Word>, auth: seq<Word>, checks: nat -> Reply, p: Packet, i: nat, before: seq<Call>,
                     s: State)
    requires p.count >= 0 && i <= p.count && InBounds(p, |auth|, i) && s.calls == before + Checks(p, auth, i)
    requires RegAt(p, i) / 128 < |auth| && Checked(auth, RegAt(p, i))
    ensures var x := RunCheck(ib, s, Call(p.idx + 1 + i, RegAt(p, i)), checks(|s.calls|));
            var y := RunPacket(ib, auth, checks, p, i, s);
            && InBounds(p, |auth|, i + 1) && x.s.calls == before + Checks(p, auth, i + 1)
            && if x.o == Done(0) then y == RunPacket(ib, auth, checks, p, i + 1, x.s)
               else Walked(auth, p, before, y, i + 1)
  {
    CheckWalks(ib, auth, p, i, before, s, checks(|s.calls|));
    CheckedStep(ib, auth, checks, p, i, s);
  }

  /** One iteration: it ends the walk, or leaves the rest of it to the next one from `t`. */
  lemma WalkStep(ib: seq<Word>, auth: seq<Word>, checks: nat -> Reply, p: Packet, i: nat, before: seq<Call>, s: State)
    returns (ends: bool, n: nat, t: State)
    requires p.count >= 0 && i <= p.count + 1 && InBounds(p, |auth|, i) && s.calls == before + Checks(p, auth, i)
    ensures ends ==> Walked(auth, p, before, RunPacket(ib, auth, checks, p, i, s), n)
    ensures !ends ==> i <= p.count && InBounds(p, |auth|, i + 1) && t.calls == before + Checks(p, auth, i + 1)
    ensures !ends ==> RunPacket(ib, auth, checks, p, i, s) == RunPacket(ib, auth, checks, p, i + 1, t)
  {
    if i > p.count || RegAt(p, i) / 128 >= |auth| {
      EndWalks(ib, auth, checks, p, i, before, s);
      ends, n, t := true, i, s;
    } else if !Checked(auth, RegAt(p, i)) {
      ClearWalks(ib, auth, checks, p, i, before, s);
      ends, n, t := p.oneReg, p.count + 1, s;
    } else {
      CheckedWalks(ib, auth, checks, p, i, before, s);
      var x := RunCheck(ib, s, Call(p.idx + 1 + i, RegAt(p, i)), checks(|s.calls|));
      ends, n, t := x.o != Done(0), i + 1, x.s;
    }
  }

  lemma {:induction false} PacketWalks(ib: seq<Word>, auth: seq<Word>, checks: nat -> Reply, p: Packet, i: nat,
                                       before: seq<Call>, s: State)
    returns (n: nat)
    requires p.count >= 0 && i <= p.count + 1
    requires InBounds(p, |auth|, i) && s.calls == before + Checks(p, auth, i)
    ensures Walked(auth, p, before, RunPacket(ib, auth, checks, p, i, s), n)
    decreases p.count + 1 - i
  {
    var ends, m, t := WalkStep(ib, auth, checks, p, i, before, s);
    if ends {
      n := m;
    } else {
      n := PacketWalks(ib, auth, checks, p, i + 1, before, t);
    }
  }

  /** The part of a walk from `s` that ends in `x` ends with a check, made and run from `u`. */
  ghost predicate EndsWithCheck(ib: seq<Word>, checks: nat -> Reply, s: State, u: State, x: Ran) {
    && |s.calls| < |x.s.calls| && u.calls == x.s.calls[..|x.s.calls| - 1]
    && x == RunCheck(ib, u, x.s.calls[|x.s.calls| - 1], checks(|u.calls|))
  }

  lemma {:induction false} StopIsACheck(ib: seq<Word>, auth: seq<Word>, checks: nat -> Reply, p: Packet, i: nat,
                                        s: State)
    returns (u: State)
    requires p.count >= 0
    requires var x := RunPacket(ib, auth, checks, p, i, s); x.o != Done(0) && !x.o.BitmapOverrun?
    ensures EndsWithCheck(ib, checks, s, u, RunPacket(ib, auth, checks, p, i, s))
    decreases p.count + 1 - i
  {
    if !Checked(auth, RegAt(p, i)) {
      u := StopIsACheck(ib, auth, checks, p, i + 1, s);
    } else {
      var c, reply := Call(p.idx + 1 + i, RegAt(p, i)), checks(|s.calls|);
      var x := RunCheck(ib, s, c, reply);
      ReplyByCheck(ib, s.(calls := s.calls + [c]), reply.ops, reply.result);
      CheckedStep(ib, auth, checks, p, i, s);
      if x.o == Done(0) { u := StopIsACheck(ib, auth, checks, p, i + 1, x.s); } else { u := s; }
    }
  }

  /** The register walk of a type-0 packet: a refusal comes before any check; an admitted walk
      makes the checks of its first `n` iterations in order, all of them on success, and leaves
      the bitmap only if the admission test does not bound it. Any other end is that of the last
      check made: run from `u`, it refused or left the buffer. */
  lemma WalkMakesTheChecks(ib: seq<Word>, auth: seq<Word>, checks: nat -> Reply, others: nat -> Reply, p: Packet,
                           s: State)
    returns (n: nat, u: State)
    requires p.kind == 0 && p.count >= 0
    ensures var x := RunTaken(ib, auth, checks, others, p, s);
            && (!Admitted(p, |auth|) ==> x == Ran(Done(-EINVAL), s))
            && (Admitted(p, |auth|) ==>
                  && n <= p.count + 1 && InBounds(p, |auth|, n) && x.s.calls == s.calls + Checks(p, auth, n)
                  && (x.o == Done(0) ==> n == p.count + 1)
                  && (x.o.BitmapOverrun? ==> Wraps(p) && |auth| < ALL_ENTRIES)
                  && (x.o != Done(0) && !x.o.BitmapOverrun? ==> EndsWithCheck(ib, checks, s, u, x)))
  {
    n, u := 0, s;
    if Admitted(p, |auth|) {
      n := PacketWalks(ib, auth, checks, p, 0, s.calls, s);
      AdmissionIsEnoughIff(p, |auth|);
      var x := RunPacket(ib, auth, checks, p, 0, s);
      if x.o != Done(0) && !x.o.BitmapOverrun? { u := StopIsACheck(ib, auth, checks, p, 0, s); }
    }
  }

  // ---- checks that let everything pass ----

  /** Checks that take nothing and find nothing wrong. */
  ghost predicate Clean(checks: nat -> Reply) {
    forall k: nat :: checks(k) == Reply([], 0)
  }

  lemma {:induction false} CleanWalk(ib: seq<Word>, auth: seq<Word>, checks: nat -> Reply, p: Packet, i: nat,
                                     s: State)
    requires p.count >= 0 && i <= p.count + 1 && InBounds(p, |auth|, i) && Clean(checks)
    ensures var x := RunPacket(ib, auth, checks, p, i, s);
            && x.o == (if InBounds(p, |auth|, p.count + 1) then Done(0) else BitmapOverrun)
            && x.s.idx == s.idx && x.s.taken == s.taken
    decreases p.count + 1 - i
  {
    if i > p.count || RegAt(p, i) / 128 >= |auth| {
    } else if !Checked(auth, RegAt(p, i)) {
      if !p.oneReg { CleanWalk(ib, auth, checks, p, i + 1, s); }
    } else {
      CheckedStep(ib, auth, checks, p, i, s);
      CleanWalk(ib, auth, checks, p, i + 1, s.(calls := s.calls + [Call(p.idx + 1 + i, RegAt(p, i))]));
    }
  }

  /** One check for each of a packet's count + 1 values, in order: of the same register if it is
      repeated, and else of registers four apart. */
  ghost predicate OneCallEach(p: Packet, before: seq<Call>, after: seq<Call>) {
    && |after| == |before| + p.count + 1 && before <= after
    && forall i | 0 <= i <= p.count ::
         after[|before| + i] == Call(p.idx + 1 + i, if p.oneReg then p.reg else (p.reg + 4 * i) % 0x1_0000_0000)
  }

  /** With checks that let everything pass, a type-0 packet is refused exactly by the admission
      test; once admitted it succeeds exactly if its offset does not wrap around or the bitmap
      covers every register, and else leaves the bitmap. With a bitmap of ones a success has
      made one check for each of its count + 1 values, in order, and a refusal none. */
  lemma CleanPacketResult(ib: seq<Word>, auth: seq<Word>, checks: nat -> Reply, others: nat -> Reply, p: Packet,
                          s: State)
    requires p.kind == 0 && p.count >= 0 && Clean(checks)
    ensures var x := RunTaken(ib, auth, checks, others, p, s);
            var last := if p.oneReg then p.reg else (p.reg + 4 * p.count) % 0x1_0000_0000;
            && x.o == (if last / 128 >= |auth| then Done(-22)
                       else if p.oneReg || p.reg + 4 * p.count < 0x1_0000_0000 || |auth| >= 0x200_0000 then Done(0)
                       else BitmapOverrun)
            && x.s.idx == s.idx && x.s.taken == s.taken
            && (x.o == Done(-22) ==> x.s.calls == s.calls)
            && (x.o == Done(0) && (forall j | 0 <= j < |auth| :: auth[j] == 0xffff_ffff) ==>
                  OneCallEach(p, s.calls, x.s.calls))
  {
    if Admitted(p, |auth|) {
      AdmissionIsEnoughIff(p, |auth|);
      CleanWalk(ib, auth, checks, p, 0, s);
      if InBounds(p, |auth|, p.count + 1) && forall j | 0 <= j < |auth| :: auth[j] == 0xffff_ffff {
        OnesWalkCalls(ib, auth, checks, p, s);
      }
    }
  }

  lemma OnesWalkCalls(ib: seq<Word>, auth: seq<Word>, checks: nat -> Reply, p: Packet, s: State)
    requires p.count >= 0 && InBounds(p, |auth|, p.count + 1) && Clean(checks)
    requires forall j | 0 <= j < |auth| :: auth[j] == 0xffff_ffff
    ensures var x := RunPacket(ib, auth, checks, p, 0, s);
            OneCallEach(p, s.calls, x.s.calls)
  {
    CleanWalk(ib, auth, checks, p, 0, s);
    var n := PacketWalks(ib, auth, checks, p, 0, s.calls, s);
    AllOnesChecksAll(p, auth, p.count + 1);
  }

  // ---- the whole buffer ----

  /** The walk so far is in order: packets in place, each loop packet checked, each packet that
      a check took seen to be what the check took it for. */
  ghost predicate InOrder(ib: seq<Word>, auth: seq<Word>, s: State) {
    && Placed(ib, s) && AllSeen(s.taken) && Paired(s.taken) && !EndsInFiller(ib, s.taken)
    && AllInBounds(StreamOf(s.taken), |auth|) && s.calls == AllChecks(StreamOf(s.taken), auth)
  }

  /** The loop's own packet, in place. */
  lemma TakeInPlace(ib: seq<Word>, auth: seq<Word>, s: State)
    requires InOrder(ib, auth, s) && PacketAt(ib, s.idx, true).Got?
    ensures var t := Take(s, PacketAt(ib, s.idx, true).p, Stream);
            Placed(ib, t) && AllSeen(t.taken) && Paired(t.taken) && !EndsInFiller(ib, t.taken)
  {
    TakeKeepsPlaced(ib, s, Stream);
    PairedGrows(s.taken, Taken(PacketAt(ib, s.idx, true).p, Stream));
  }

  /** The loop's own packet, with its checks to come. */
  lemma TakeInOrder(ib: seq<Word>, auth: seq<Word>, s: State)
    requires InOrder(ib, auth, s) && PacketAt(ib, s.idx, true).Got?
    requires var p := PacketAt(ib, s.idx, true).p; p.kind == 0 ==> InBounds(p, |auth|, p.count + 1)
    ensures var p := PacketAt(ib, s.idx, true).p;
            var t := Take(s, p, Stream);
            && AllInBounds(StreamOf(t.taken), |auth|)
            && AllChecks(StreamOf(t.taken), auth) == s.calls + if p.kind == 0 then Checks(p, auth, p.count + 1) else []
  {
    var p := PacketAt(ib, s.idx, true).p;
    StreamGrows(s.taken, Taken(p, Stream));
    AllChecksGrow(StreamOf(s.taken), auth, p);
  }

  /** What the loop does with its packet moves on and makes its checks. */
  lemma TakenMoves(ib: seq<Word>, auth: seq<Word>, checks: nat -> Reply, others: nat -> Reply, p: Packet, t: State)
    requires p.kind == 0 ==> p.count >= 0 && (Admitted(p, |auth|) ==> InBounds(p, |auth|, p.count + 1))
    ensures var x := RunTaken(ib, auth, checks, others, p, t);
            && Moved(ib, t, x) && !x.o.BitmapOverrun?
            && (x.o == Done(0) && p.kind == 0 ==>
                  InBounds(p, |auth|, p.count + 1) && x.s.calls == t.calls + Checks(p, auth, p.count + 1))
            && (p.kind != 0 ==> x.s.calls == t.calls)
  {
    if p.kind == 0 {
      if Admitted(p, |auth|) {
        PacketMoves(ib, auth, checks, p, 0, t);
        var n := PacketWalks(ib, auth, checks, p, 0, t.calls, t);
      }
    } else if p.kind == 3 {
      ReplyByCheck(ib, t, others(|t.taken|).ops, others(|t.taken|).result);
    }
  }

  lemma TakenInOrder(ib: seq<Word>, auth: seq<Word>, checks: nat -> Reply, others: nat -> Reply, s: State)
    requires InOrder(ib, auth, s) && PacketAt(ib, s.idx, true).Got?
    ensures var p := PacketAt(ib, s.idx, true).p;
            var x := RunTaken(ib, auth, checks, others, p, Take(s, p, Stream));
            && (x.o == Done(0) ==> InOrder(ib, auth, x.s))
            && !x.o.BitmapOverrun? && Placed(ib, x.s)
            && (x.o.BufferOverrun? ==> FillerBehindWait(ib))
            && (x.o.BufferOverrun? <==> EndsInFiller(ib, x.s.taken))
  {
    var p := PacketAt(ib, s.idx, true).p;
    var t := Take(s, p, Stream);
    var x := RunTaken(ib, auth, checks, others, p, t);
    if p.kind == 0 { ParsedNeverOverruns(p, |auth|); }
    TakeInPlace(ib, auth, s);
    TakenMoves(ib, auth, checks, others, p, t);
    if x.o == Done(0) {
      TakeInOrder(ib, auth, s);
      assert s.calls + [] == s.calls;
      MovedInOrder(ib, auth, t, x);
    }
  }

  /** A part of the walk that passes leaves the walk in order if it has made the checks due. */
  lemma MovedInOrder(ib: seq<Word>, auth: seq<Word>, t: State, x: Ran)
    requires Moved(ib, t, x) && x.o == Done(0)
    requires Placed(ib, t) && AllSeen(t.taken) && Paired(t.taken) && !EndsInFiller(ib, t.taken)
    requires AllInBounds(StreamOf(t.taken), |auth|) && x.s.calls == AllChecks(StreamOf(t.taken), auth)
    ensures InOrder(ib, auth, x.s)
  {
  }

  lemma {:induction false} StreamInOrder(ib: seq<Word>, auth: seq<Word>, checks: nat -> Reply, others: nat -> Reply,
                                         s: State)
    requires InOrder(ib, auth, s)
    ensures var x := RunStream(ib, auth, checks, others, s);
            && (x.o == Done(0) ==> InOrder(ib, auth, x.s) && x.s.idx == |ib|)
            && !x.o.BitmapOverrun? && Placed(ib, x.s)
            && (x.o.BufferOverrun? ==> FillerBehindWait(ib))
            && (x.o.BufferOverrun? <==> EndsInFiller(ib, x.s.taken))
    decreases |ib| - s.idx
  {
    match PacketAt(ib, s.idx, true)
    case Refused =>
    case Got(p) =>
      TakenInOrder(ib, auth, checks, others, s);
      var x := RunTaken(ib, auth, checks, others, p, Take(s, p, Stream));
      if x.o == Done(0) && x.s.idx < |ib| { StreamInOrder(ib, auth, checks, others, x.s); }
  }

  /** A buffer that passes is tiled end to end by the loop's packets and those its checks took;
      the register checks made are exactly those of the loop's type-0 packets, in order; every
      other packet is a relocation NOP, a vertical-line wait, or the packet behind such a wait. */
  lemma AcceptedStreamIsAccounted(ib: seq<Word>, auth: seq<Word>, checks: nat -> Reply, others: nat -> Reply)
    ensures var x := RunStream(ib, auth, checks, others, Opened);
            x.o == Done(0) ==>
              && Tiles(x.s.taken, |ib|) && Genuine(ib, x.s.taken) && AllSeen(x.s.taken) && Paired(x.s.taken)
              && AllInBounds(StreamOf(x.s.taken), |auth|) && x.s.calls == AllChecks(StreamOf(x.s.taken), auth)
  {
    StreamInOrder(ib, auth, checks, others, Opened);
  }

  /** A type-0 packet that is taken but not by the loop, so that none of its registers is
      checked as such. */
  predicate Unchecked(t: Taken) {
    t.p.kind == 0 && !t.role.Stream?
  }

  /** Only vertical-line waits, packets of one value to WAIT_UNTIL, are unchecked. */
  ghost predicate OnlyWaitsUnchecked(taken: seq<Taken>) {
    forall t | t in taken && Unchecked(t) :: t.role.VlineWait? && t.p.reg == WAIT_UNTIL && t.p.count == 0
  }

  /** No wait has a type-0 header in the dword behind it. */
  ghost predicate NoRegistersBehindWaits(ib: seq<Word>, taken: seq<Taken>) {
    forall t | t in taken && t.role.VlineWait? :: t.p.idx + 2 < |ib| && ib[t.p.idx + 2] / 0x4000_0000 != 0
  }

  /** A wait and the packet taken behind it, as the buffer has them. */
  lemma BehindWait(ib: seq<Word>, taken: seq<Taken>, t: Taken) returns (u: Taken)
    requires Genuine(ib, taken) && Paired(taken) && t in taken && (t.role.VlineWait? || t.role.VlineNext?)
    ensures u in taken
    ensures var w, n := if t.role.VlineWait? then t else u, if t.role.VlineWait? then u else t;
            && w.role.VlineWait? && n.role.VlineNext?
            && w.p.idx + 2 < |ib| && n.p.kind == ib[w.p.idx + 2] / 0x4000_0000
  {
    u := PartnerOf(taken, t);
    var n := if t.role.VlineWait? then u else t;
    assert PacketAt(ib, n.p.idx, true) == Got(n.p);
  }

  lemma UncheckedIff(ib: seq<Word>, taken: seq<Taken>)
    requires Genuine(ib, taken) && AllSeen(taken) && Paired(taken)
    ensures OnlyWaitsUnchecked(taken) <==> NoRegistersBehindWaits(ib, taken)
  {
    if OnlyWaitsUnchecked(taken) {
      forall t | t in taken && t.role.VlineWait?
        ensures t.p.idx + 2 < |ib| && ib[t.p.idx + 2] / 0x4000_0000 != 0
      {
        var u := BehindWait(ib, taken, t);
        assert !Unchecked(u);
      }
    }
    if NoRegistersBehindWaits(ib, taken) {
      forall t | t in taken && Unchecked(t) ensures t.role.VlineWait? && t.p.reg == WAIT_UNTIL && t.p.count == 0 {
        assert Seen(t);
        if t.role.VlineNext? { var u := BehindWait(ib, taken, t); }
      }
    }
  }

  /** The only unchecked type-0 packets of a buffer that passes are vertical-line waits, exactly
      if no wait has a type-0 header behind it; the code looks at the extent of that packet only. */
  lemma OnlyWaitsUncheckedIff(ib: seq<Word>, auth: seq<Word>, checks: nat -> Reply, others: nat -> Reply)
    requires RunStream(ib, auth, checks, others, Opened).o == Done(0)
    ensures var taken := RunStream(ib, auth, checks, others, Opened).s.taken;
            OnlyWaitsUnchecked(taken) <==> NoRegistersBehindWaits(ib, taken)
  {
    AcceptedStreamIsAccounted(ib, auth, checks, others);
    UncheckedIff(ib, RunStream(ib, auth, checks, others, Opened).s.taken);
  }

  /** No walk leaves the register bitmap. A walk reads outside its buffer exactly if the last
      packet it took is a one-dword filler in the last place, behind a wait; so never in a buffer
      that does not end that way. */
  lemma OverrunsBehindFillerIff(ib: seq<Word>, auth: seq<Word>, checks: nat -> Reply, others: nat -> Reply)
    ensures var x := RunStream(ib, auth, checks, others, Opened);
            && !x.o.BitmapOverrun?
            && (x.o.BufferOverrun? <==> EndsInFiller(ib, x.s.taken))
            && (x.o.BufferOverrun? ==> FillerBehindWait(ib))
  {
    StreamInOrder(ib, auth, checks, others, Opened);
  }

  /** For one wait the condition is exact: with a wait in place and a packet behind it, the read
      leaves the buffer exactly if that packet is a filler in the last place. */
  lemma VlineOverrunsIff(ib: seq<Word>, s: State, stale: Word, late: int)
    requires RunVline(ib, s, stale, late).s != s
    ensures RunVline(ib, s, stale, late).o.BufferOverrun? <==> s.idx + 2 == |ib| - 1 && ib[s.idx + 2] / 0x4000_0000 == 2
  {
  }

  // ---- streams on which the simpler promises fail ----

  /** A write to the vertical-line trigger register, a wait, and whatever stands behind it. */
  function VlineStream(tail: seq<Word>): seq<Word> {
    [0x86, 0, 0x5c8, WAIT_CRTC_VLINE] + tail
  }

  function FullBitmap(): seq<Word> {
    seq(5, _ => WRAP - 1)
  }

  const Waits: nat -> Reply := _ => Reply([Vline(0, 0)], 0)

  lemma VlineStreamRuns(tail: seq<Word>, others: nat -> Reply)
    requires PacketAt(VlineStream(tail), 4, true).Got? && PacketAt(VlineStream(tail), 4, true).p.count + 2 == |tail|
    ensures var ib := VlineStream(tail);
            var x := RunStream(ib, FullBitmap(), Waits, others, Opened);
            var next := PacketAt(ib, 4, true).p;
            && x.o == (if |tail| > 1 then Done(0) else BufferOverrun) && x.s.calls == [Call(1, 0x218)]
            && x.s.taken == [Taken(Decoded(0x86, 0, true), Stream), Taken(Decoded(0x5c8, 2, true), VlineWait),
                             Taken(next, VlineNext)]
  {
    var ib, auth := VlineStream(tail), FullBitmap();
    var p := PacketAt(ib, 0, true).p;
    assert p == Packet(0, 0, 0x218, 0, 0, false);
    var s := Take(Opened, p, Stream);
    assert RegAt(p, 0) == 0x218;
    FullWord(auth[4], 6);
    assert Checked(auth, 0x218);
    var t := s.(calls := [Call(1, 0x218)]);
    var v := RunVline(ib, t, 0, 0);
    assert PacketAt(ib, 2, true) == Got(Packet(2, 0, WAIT_UNTIL, 0, 0, false));
    assert v.s.idx == |ib| && v.s.calls == [Call(1, 0x218)];
    assert [Vline(0, 0)][1..] == [];
    assert RunReply(ib, t, [Vline(0, 0)], 0) == v;
    assert RunCheck(ib, s, Call(1, 0x218), Waits(0)) == v;
    assert RunPacket(ib, auth, Waits, p, 0, s) == if v.o == Done(0) then RunPacket(ib, auth, Waits, p, 1, v.s) else v;
  }

  lemma ZeroHeader(tail: seq<Word>)
    requires |tail| == 2 && tail[0] == 0
    ensures PacketAt(VlineStream(tail), 4, true) == Got(Packet(4, 0, 0, 0, 0, false))
  {
    assert VlineStream(tail)[4] == tail[0];
  }

  /** A buffer that passes although a type-0 packet behind the wait gets no check, whichever
      display controller the dword in that packet names. */
  lemma PacketBehindWaitCanBeUnchecked(crtc: Word, others: nat -> Reply) returns (t: Taken)
    ensures var x := RunStream(VlineStream([0, crtc]), FullBitmap(), Waits, others, Opened);
            x.o == Done(0) && t in x.s.taken && Unchecked(t) && t.p.reg != WAIT_UNTIL
  {
    t := Taken(Packet(4, 0, 0, 0, 0, false), VlineNext);
    ZeroHeader([0, crtc]);
    VlineStreamRuns([0, crtc], others);
  }

  /** A buffer on which a read leaves it. */
  lemma FillerBehindWaitOverruns(others: nat -> Reply)
    ensures RunStream(VlineStream([0x8000_0000]), FullBitmap(), Waits, others, Opened).o == BufferOverrun
  {
    VlineStreamRuns([0x8000_0000], others);
  }
}
