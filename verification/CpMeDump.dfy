/** The CP microengine RAM dump: `seq_file` callbacks whose position encodes the header,
    the 256 data records, the ordinary end, and three terminal records with their ends.

    The callbacks are methods of `SeqFile`. Their caller, the kernel's sequence-file core,
    is a state machine that may drop a shown record for lack of room and present it again
    later, and may hand its buffer to the reader between any two records. The device flags
    and the lock outcome are arbitrary at every call. `Serve` calls the callbacks turn by turn
    and goes through the runs of that state machine, and through all of them. */
module CpMeDump {

  const LIMIT: nat := 0x100
  const TERMINAL_DISARMED: nat := LIMIT + 2
  const TERMINAL_PARKED: nat := LIMIT + 4
  const TERMINAL_SUSPENDED: nat := LIMIT + 6

  /** The three values one terminal test reads, each read once. */
  datatype Flags = Flags(parked: bool, suspended: bool, dumpArm: int)

  /** The register contents behind an admitted lock, or the refusal. */
  datatype Lock = Granted(datah: nat, datal: nat) | Denied(parked: bool, suspended: bool)

  datatype Line =
    | Schema
    | Row(addr: nat, datah: nat, datal: nat)
    | TerminalStatus(position: nat)
    | Refusal(parked: bool, suspended: bool)

  datatype Record = EndOfFile | Header | AtPosition

  function TerminalPosition(f: Flags): nat {
    if f.parked then TERMINAL_PARKED
    else if f.suspended then TERMINAL_SUSPENDED
    else if f.dumpArm != 1 then TERMINAL_DISARMED
    else 0
  }

  predicate IsTerminal(position: nat) {
    position == TERMINAL_DISARMED || position == TERMINAL_PARKED || position == TERMINAL_SUSPENDED
  }

  /** Positions 1 to 256 stand for the addresses 0 to 255. */
  predicate IsData(position: nat) {
    1 <= position <= LIMIT
  }

  /** The ordinary end and the ends behind the three terminal records. */
  predicate IsEnd(position: nat) {
    position == LIMIT + 1 || (position > 0 && IsTerminal(position - 1))
  }

  // ---- the three callbacks as functions of position and buffer ----

  datatype Moved = Moved(index: nat, record: Record)

  function Start(index: nat, f: Flags): Moved {
    if index == 0 then Moved(index, Header)
    else if IsTerminal(index) then Moved(index, AtPosition)
    else if index > LIMIT then Moved(index, EndOfFile)
    else if TerminalPosition(f) != 0 then Moved(TerminalPosition(f), AtPosition)
    else Moved(index, AtPosition)
  }

  function After(index: nat, f: Flags): Moved {
    if IsTerminal(index) || index + 1 > LIMIT then Moved(index + 1, EndOfFile)
    else if TerminalPosition(f) != 0 then Moved(TerminalPosition(f), AtPosition)
    else Moved(index + 1, AtPosition)
  }

  datatype Shown = Shown(index: nat, buf: seq<Line>)

  function EmitSchema(buf: seq<Line>): seq<Line> {
    if buf == [] then [Schema] else buf
  }

  function Show(index: nat, buf: seq<Line>, v: Record, f: Flags, l: Lock): Shown {
    if v == Header then Shown(index, EmitSchema(buf))
    else if IsTerminal(index) then Shown(index, buf + [TerminalStatus(index)])
    else if TerminalPosition(f) != 0 then Shown(TerminalPosition(f), buf + [TerminalStatus(TerminalPosition(f))])
    else match l
      case Denied(p, s) => Shown(index, EmitSchema(buf) + if buf == [] then [Refusal(p, s)] else [])
      case Granted(h, w) => Shown(index, EmitSchema(buf) + [Row(if index > 0 then index - 1 else 0, h, w)])
  }

  // ---- the sequence-file core around the callbacks ----

  datatype Phase = Rest | ToShow(v: Record) | ToAdvance

  /** `out` is what the reader has received. */
  datatype File = File(index: nat, phase: Phase, buf: seq<Line>, out: seq<Line>)

  function Flush(s: File): File {
    s.(phase := Rest, out := s.out + s.buf, buf := [])
  }

  function AtRecord(s: File, m: Moved): File {
    if m.record == EndOfFile then Flush(s.(index := m.index)) else s.(index := m.index, phase := ToShow(m.record))
  }

  datatype Event =
    | Begin(f: Flags)               // a read starts, or restarts with a larger buffer
    | Keep(f: Flags, l: Lock)       // a record is shown and fits
    | Drop(f: Flags, l: Lock)       // a record is shown, does not fit, and is taken back
    | Advance(f: Flags)
    | Deliver                       // the buffer is full before the next record is shown

  predicate Possible(s: File, e: Event) {
    match e
    case Begin(_) => s.phase.Rest?
    case Keep(_, _) | Drop(_, _) | Deliver => s.phase.ToShow?
    case Advance(_) => s.phase.ToAdvance?
  }

  function Apply(s: File, e: Event): File
    requires Possible(s, e)
  {
    match e
    case Begin(f) => AtRecord(s, Start(s.index, f))
    case Keep(f, l) =>
      var x := Show(s.index, s.buf, s.phase.v, f, l);
      s.(index := x.index, phase := ToAdvance, buf := x.buf)
    case Drop(f, l) => Flush(s.(index := Show(s.index, s.buf, s.phase.v, f, l).index))
    case Advance(f) => AtRecord(s, After(s.index, f))
    case Deliver => Flush(s)
  }

  const Opened: File := File(0, Rest, [], [])

  /** The events of `es` are possible one after the other from `s`. */
  ghost predicate Plays(s: File, es: seq<Event>)
    decreases |es|
  {
    es == [] || (Possible(s, es[0]) && Plays(Apply(s, es[0]), es[1..]))
  }

  function Play(s: File, es: seq<Event>): File
    requires Plays(s, es)
    decreases |es|
  {
    if es == [] then s else Play(Apply(s, es[0]), es[1..])
  }

  /** Everything shown so far that was not taken back. */
  function Lines(s: File): seq<Line> {
    s.out + s.buf
  }

  // ---- the invariant ----

  /** Lines that start with the schema line, hold no terminal record, and whose rows have
      strictly increasing addresses below `bound - 1`. */
  ghost predicate Body(ls: seq<Line>, bound: nat) {
    && ls != [] && ls[0] == Schema
    && (forall i | 0 <= i < |ls| :: !ls[i].TerminalStatus?)
    && (forall i | 0 <= i < |ls| && ls[i].Row? :: ls[i].addr + 1 < bound)
    && (forall i, j | 0 <= i < j < |ls| && ls[i].Row? && ls[j].Row? :: ls[i].addr < ls[j].addr)
  }

  /** A body followed by one terminal record. */
  ghost predicate Ended(ls: seq<Line>, terminal: nat) {
    |ls| > 0 && ls[|ls| - 1] == TerminalStatus(terminal) && Body(ls[..|ls| - 1], LIMIT + 1)
  }

  /** The lines of a file at a position, before or after the record there was kept. */
  ghost predicate Holds(index: nat, kept: bool, ls: seq<Line>) {
    if index == 0 then if kept then Body(ls, 1) else ls == []
    else if IsData(index) then Body(ls, if kept then index + 1 else index)
    else if IsTerminal(index) then if kept then Ended(ls, index) else Body(ls, LIMIT + 1)
    else !kept && IsEnd(index) && if index == LIMIT + 1 then Body(ls, index) else Ended(ls, index - 1)
  }

  ghost predicate Inv(s: File) {
    && Holds(s.index, s.phase.ToAdvance?, Lines(s))
    && (s.phase.Rest? ==> s.buf == [])
    && (s.phase.ToShow? ==>
          if s.phase.v == Header then s.index == 0 else s.phase.v == AtPosition && s.index > 0 && !IsEnd(s.index))
  }

  /** Starting and advancing keep the lines; showing extends them. */
  lemma MoveHolds(index: nat, kept: bool, ls: seq<Line>, f: Flags)
    requires Holds(index, kept, ls)
    ensures !kept ==> Holds(Start(index, f).index, false, ls)
    ensures kept ==> Holds(After(index, f).index, false, ls)
  {
  }

  lemma BodyGrows(ls: seq<Line>, more: seq<Line>, index: nat)
    requires Body(ls, index) && |more| <= 2
    requires forall i | 0 <= i < |more| ::
             !more[i].TerminalStatus? && (more[i].Row? ==> i == |more| - 1 && more[i].addr == index - 1)
    ensures Body(ls + more, index + 1)
  {
  }

  lemma ShowHolds(index: nat, out: seq<Line>, buf: seq<Line>, v: Record, f: Flags, l: Lock)
    requires Holds(index, false, out + buf) && !IsEnd(index)
    requires if v == Header then index == 0 else index > 0
    ensures var x := Show(index, buf, v, f, l); Holds(x.index, true, out + x.buf) && Holds(x.index, false, out + buf)
  {
    var x := Show(index, buf, v, f, l);
    if v == Header {
      assert out + x.buf == [Schema];
    } else if IsTerminal(index) || TerminalPosition(f) != 0 {
      assert (out + x.buf)[..|out + buf|] == out + buf;
    } else {
      var more := x.buf[|buf|..];
      assert out + x.buf == (out + buf) + more;
      BodyGrows(out + buf, more, index);
    }
  }

  lemma ApplyKeepsInv(s: File, e: Event)
    requires Inv(s) && Possible(s, e)
    ensures Inv(Apply(s, e))
  {
    assert s.out + s.buf + [] == s.out + s.buf;
    match e
    case Begin(f) => MoveHolds(s.index, false, Lines(s), f);
    case Advance(f) => MoveHolds(s.index, true, Lines(s), f);
    case Keep(f, l) => ShowHolds(s.index, s.out, s.buf, s.phase.v, f, l);
    case Drop(f, l) => ShowHolds(s.index, s.out, s.buf, s.phase.v, f, l);
    case Deliver =>
  }

  lemma {:induction false} PlayKeepsInv(s: File, es: seq<Event>)
    requires Inv(s) && Plays(s, es)
    ensures Inv(Play(s, es))
    decreases |es|
  {
    if es == [] {
    } else {
      ApplyKeepsInv(s, es[0]);
      PlayKeepsInv(Apply(s, es[0]), es[1..]);
    }
  }

  // ---- the callbacks and the core that calls them ----

  /** What the environment decides when the core takes one turn: the device flags, the lock's
      outcome, whether the buffer is handed over before the next record is shown, and whether
      the record then shown fits. */
  datatype Turn = Turn(f: Flags, l: Lock, full: bool, fits: bool)

  function EventOf(s: File, t: Turn): Event {
    match s.phase
    case Rest => Begin(t.f)
    case ToShow(_) => if t.full then Deliver else if t.fits then Keep(t.f, t.l) else Drop(t.f, t.l)
    case ToAdvance => Advance(t.f)
  }

  /** The events that the turns of `ts` bring about. */
  function Script(s: File, ts: seq<Turn>): seq<Event>
    decreases |ts|
  {
    if ts == [] then [] else [EventOf(s, ts[0])] + Script(Apply(s, EventOf(s, ts[0])), ts[1..])
  }

  lemma {:induction false} ScriptPlays(s: File, ts: seq<Turn>)
    ensures Plays(s, Script(s, ts))
    ensures ts != [] ==>
              var t := Apply(s, EventOf(s, ts[0]));
              && Plays(t, Script(t, ts[1..]))
              && Play(s, Script(s, ts)) == Play(t, Script(t, ts[1..]))
    decreases |ts|
  {
    if ts == [] {
    } else {
      var t := Apply(s, EventOf(s, ts[0]));
      ScriptPlays(t, ts[1..]);
      assert Script(s, ts)[1..] == Script(t, ts[1..]);
    }
  }

  /** Every run of the core is what some turns bring about. */
  lemma {:induction false} EveryPlayIsServed(s: File, es: seq<Event>) returns (ts: seq<Turn>)
    requires Plays(s, es)
    ensures Script(s, ts) == es
    decreases |es|
  {
    if es == [] {
      ts := [];
    } else {
      var rest := EveryPlayIsServed(Apply(s, es[0]), es[1..]);
      var any, denied := Flags(false, false, 0), Denied(false, false);
      var t := match es[0]
        case Begin(f) => Turn(f, denied, false, false)
        case Keep(f, l) => Turn(f, l, false, true)
        case Drop(f, l) => Turn(f, l, false, false)
        case Advance(f) => Turn(f, denied, false, false)
        case Deliver => Turn(any, denied, true, false);
      ts := [t] + rest;
      assert ts[1..] == rest && EventOf(s, t) == es[0];
    }
  }

  /** The open file: the position, what the core does next, the lines that wait in its buffer
      and those the reader has received. */
  class SeqFile {
    var index: nat
    var phase: Phase
    var buf: seq<Line>
    var out: seq<Line>

    constructor ()
      ensures State() == Opened
    {
      index, phase, buf, out := 0, Rest, [], [];
    }

    function State(): File
      reads this
    {
      File(index, phase, buf, out)
    }

    method SeqStart(f: Flags) returns (v: Record)
      modifies this`index
      ensures Moved(index, v) == Start(old(index), f)
    {
      if index == 0 { return Header; }
      if IsTerminal(index) { return AtPosition; }
      if index > LIMIT { return EndOfFile; }
      var terminal := TerminalPosition(f);
      if terminal != 0 { index := terminal; }
      v := AtPosition;
    }

    method SeqNext(f: Flags) returns (v: Record)
      modifies this`index
      ensures Moved(index, v) == After(old(index), f)
    {
      var wasTerminal := IsTerminal(index);
      index := index + 1;
      if wasTerminal { return EndOfFile; }
      if index > LIMIT { return EndOfFile; }
      var terminal := TerminalPosition(f);
      if terminal != 0 { index := terminal; }
      v := AtPosition;
    }

    method LockHardware(l: Lock) returns (denied: bool)
      modifies this`buf
      ensures denied == l.Denied?
      ensures buf == EmitSchema(old(buf)) + if l.Denied? && old(buf) == [] then [Refusal(l.parked, l.suspended)] else []
    {
      var first := buf == [];
      if first { buf := [Schema]; }
      if l.Denied? && first { buf := buf + [Refusal(l.parked, l.suspended)]; }
      denied := l.Denied?;
    }

    method SeqShow(v: Record, f: Flags, l: Lock)
      requires v != EndOfFile && (v == AtPosition ==> index > 0)
      modifies this`index, this`buf
      ensures Shown(index, buf) == Show(old(index), old(buf), v, f, l)
    {
      if v == Header {
        if buf == [] { buf := [Schema]; }
        return;
      }
      if IsTerminal(index) {
        buf := buf + [TerminalStatus(index)];
        return;
      }
      var terminal := TerminalPosition(f);
      if terminal != 0 {
        index := terminal;
        buf := buf + [TerminalStatus(terminal)];
        return;
      }
      var denied := LockHardware(l);
      if denied { return; }
      buf := buf + [Row(index - 1, l.datah, l.datal)];
    }

    /** The core hands its buffer to the reader. */
    method HandOver()
      modifies this`phase, this`buf, this`out
      ensures State() == Flush(old(State()))
    {
      phase, out, buf := Rest, out + buf, [];
    }

    method TakeTurn(t: Turn)
      requires Inv(State())
      modifies this
      ensures State() == Apply(old(State()), EventOf(old(State()), t))
    {
      if phase.ToShow? {
        if t.full {
          HandOver();
        } else {
          var waiting := buf;
          SeqShow(phase.v, t.f, t.l);
          if t.fits {
            phase := ToAdvance;
          } else {
            buf := waiting;
            HandOver();
          }
        }
      } else {
        var v: Record;
        if phase.Rest? { v := SeqStart(t.f); } else { v := SeqNext(t.f); }
        if v == EndOfFile { HandOver(); } else { phase := ToShow(v); }
      }
    }

    /** The core calls the callbacks turn after turn: the file goes through the run its turns
        bring about. */
    method Serve(turns: seq<Turn>)
      requires Inv(State())
      modifies this
      ensures Plays(old(State()), Script(old(State()), turns))
      ensures State() == Play(old(State()), Script(old(State()), turns)) && Inv(State())
    {
      ghost var s0 := State();
      ScriptPlays(s0, turns);
      var i := 0;
      while i < |turns|
        invariant i <= |turns| && Inv(State())
        invariant Plays(State(), Script(State(), turns[i..]))
        invariant Play(State(), Script(State(), turns[i..])) == Play(s0, Script(s0, turns))
      {
        ScriptPlays(State(), turns[i..]);
        ApplyKeepsInv(State(), EventOf(State(), turns[i]));
        TakeTurn(turns[i]);
        assert turns[i..][1..] == turns[i + 1..];
        i := i + 1;
      }
    }
  }

  // ---- what every dump promises ----

  /** The shape of everything the reader has received or will receive next: the schema line
      first, rows with strictly increasing addresses below 0x100, and at most one terminal
      record, of one of the three kinds, with nothing after it. */
  lemma DumpShape(es: seq<Event>)
    requires Plays(Opened, es)
    ensures var ls := Lines(Play(Opened, es));
            && (ls != [] ==> ls[0] == Schema)
            && (forall i | 0 <= i < |ls| && ls[i].Row? :: ls[i].addr < LIMIT)
            && (forall i, j | 0 <= i < j < |ls| && ls[i].Row? && ls[j].Row? :: ls[i].addr < ls[j].addr)
            && (forall i | 0 <= i < |ls| && ls[i].TerminalStatus? :: i == |ls| - 1 && IsTerminal(ls[i].position))
  {
    PlayKeepsInv(Opened, es);
    var s := Play(Opened, es);
    var ls := Lines(s);
    if Ended(ls, s.index) || (s.index > 0 && Ended(ls, s.index - 1)) {
      assert forall i | 0 <= i < |ls| - 1 :: ls[i] == ls[..|ls| - 1][i];
    }
  }

  // ---- what the lines of a dump report ----

  /** The flags ask for the terminal record at `position`: a latched device has 0x104, otherwise
      a suspended one 0x106, otherwise a dump that is not armed 0x102. */
  predicate Asks(f: Flags, position: nat) {
    if f.parked then position == 0x104
    else if f.suspended then position == 0x106
    else f.dumpArm != 1 && position == 0x102
  }

  /** Nothing stops a record. */
  predicate Quiet(f: Flags) {
    !f.parked && !f.suspended && f.dumpArm == 1
  }

  /** The file stands before an address, or at the header: nothing has ended it. */
  predicate Running(s: File) {
    s.index <= 0x100
  }

  predicate Tests(s: File, e: Event) {
    match e
    case Begin(_) => s.index > 0
    case Advance(_) => s.index < 0x100
    case Keep(_, _) => s.phase.ToShow? && s.phase.v == AtPosition
    case Drop(_, _) => s.phase.ToShow? && s.phase.v == AtPosition
    case Deliver => false
  }

  /** One event at a running file: whenever it looks at the flags, it takes the terminal position
      they ask for; only an advance moves on otherwise, by one. */
  lemma FlagsDecide(s: File, e: Event)
    requires Inv(s) && Possible(s, e) && Running(s)
    ensures var t := Apply(s, e);
            if Tests(s, e) && !Quiet(e.f) then Asks(e.f, t.index)
            else t.index == s.index + if e.Advance? then 1 else 0
  {
  }

  lemma {:induction false} PrefixPlays(s: File, es: seq<Event>, k: nat)
    requires Plays(s, es) && k <= |es|
    ensures Plays(s, es[..k])
    decreases k
  {
    if k == 0 {
    } else {
      PrefixPlays(Apply(s, es[0]), es[1..], k - 1);
      assert es[..k][1..] == es[1..][..k - 1];
    }
  }

  /** The file in front of event `k`. */
  function Before(s: File, es: seq<Event>, k: nat): File
    requires Plays(s, es) && k <= |es|
    decreases k
  {
    if k == 0 then s else Before(Apply(s, es[0]), es[1..], k - 1)
  }

  lemma LinesGrow(s: File, e: Event)
    requires Possible(s, e)
    ensures Lines(s) <= Lines(Apply(s, e))
  {
    assert s.out + s.buf + [] == s.out + s.buf;
    if e.Keep? {
      var x := Show(s.index, s.buf, s.phase.v, e.f, e.l);
      assert s.buf <= x.buf;
    }
  }

  lemma {:induction false} LinesStay(s: File, es: seq<Event>)
    requires Plays(s, es)
    ensures Lines(s) <= Lines(Play(s, es))
    decreases |es|
  {
    if es == [] {
    } else {
      LinesGrow(s, es[0]);
      LinesStay(Apply(s, es[0]), es[1..]);
    }
  }

  /** The event that kept a line. */
  ghost predicate KeptBy(s: File, es: seq<Event>, k: nat, i: nat)
    requires Plays(s, es)
  {
    && k < |es| && es[k].Keep? && Possible(Before(s, es, k), es[k])
    && var t := Before(s, es, k);
       |Lines(t)| <= i < |Lines(Apply(t, es[k]))| && i < |Lines(Play(s, es))|
       && Lines(Apply(t, es[k]))[i] == Lines(Play(s, es))[i] && Inv(t)
  }

  lemma {:induction false} LineIsKept(s: File, es: seq<Event>, i: nat) returns (k: nat)
    requires Inv(s) && Plays(s, es) && |Lines(s)| <= i < |Lines(Play(s, es))|
    ensures KeptBy(s, es, k, i)
    decreases |es|
  {
    k := 0;
    if es == [] {
    } else {
      var t := Apply(s, es[0]);
      ApplyKeepsInv(s, es[0]);
      LinesStay(t, es[1..]);
      if i < |Lines(t)| {
        assert !es[0].Keep? ==> Lines(t) == Lines(s) by { assert s.out + s.buf + [] == s.out + s.buf; }
      } else {
        var j := LineIsKept(t, es[1..], i);
        k := j + 1;
      }
    }
  }

  /** What the lines of one kept record are. */
  lemma KeptLine(t: File, e: Event, i: nat)
    requires Inv(t) && Possible(t, e) && e.Keep? && |Lines(t)| <= i < |Lines(Apply(t, e))|
    ensures match Lines(Apply(t, e))[i]
            case Schema => t.buf == []
            case Row(addr, datah, datal) =>
              e.l == Granted(datah, datal) && t.index == addr + 1 && t.phase.v == AtPosition && Quiet(e.f)
            case TerminalStatus(p) => if Running(t) then Asks(e.f, p) else t.index == p
            case Refusal(parked, suspended) => e.l == Denied(parked, suspended) && Quiet(e.f)
  {
    var x := Show(t.index, t.buf, t.phase.v, e.f, e.l);
    assert Lines(Apply(t, e)) == t.out + x.buf;
    assert Lines(Apply(t, e))[i] == x.buf[i - |t.out|];
  }

  /** Every row of every dump was shown at the position of its address, under flags that admit
      it, by a granted lock, and carries the two words that lock gave, the high word first. A
      refusal line carries the two flags of the lock that was denied. */
  lemma RowsCarryTheirWords(es: seq<Event>, i: nat) returns (k: nat)
    requires Plays(Opened, es) && i < |Lines(Play(Opened, es))|
    ensures k < |es| && es[k].Keep?
    ensures match Lines(Play(Opened, es))[i]
            case Row(addr, datah, datal) =>
              es[k].l == Granted(datah, datal) && Before(Opened, es, k).index == addr + 1 && Quiet(es[k].f)
            case Refusal(parked, suspended) => es[k].l == Denied(parked, suspended) && Quiet(es[k].f)
            case _ => true
  {
    k := LineIsKept(Opened, es, i);
    KeptLine(Before(Opened, es, k), es[k], i);
  }

  /** Where a file got its terminal position. */
  lemma {:induction false} EndHasACause(s: File, es: seq<Event>, p: nat) returns (k: nat)
    requires Inv(s) && Plays(s, es) && Running(s) && Doomed(Play(s, es), p)
    ensures k < |es| && Running(Before(s, es, k)) && !es[k].Deliver? && Asks(es[k].f, p)
    decreases |es|
  {
    k := 0;
    if es == [] {
    } else {
      var t := Apply(s, es[0]);
      ApplyKeepsInv(s, es[0]);
      FlagsDecide(s, es[0]);
      if Running(t) {
        var j := EndHasACause(t, es[1..], p);
        k := j + 1;
      } else {
        if t.index == 0x101 { EndStays(t, es[1..]); } else { TerminalIsSticky(t, es[1..], t.index); }
      }
    }
  }

  /** The terminal record a dump ends with is the one its first terminal test asked for: 0x104
      if that test found the device latched, otherwise 0x106 if suspended, otherwise 0x102 if
      the dump was not armed. */
  lemma TerminalRecordHasItsCause(es: seq<Event>, i: nat) returns (k: nat)
    requires Plays(Opened, es) && i < |Lines(Play(Opened, es))| && Lines(Play(Opened, es))[i].TerminalStatus?
    ensures k < |es| && Running(Before(Opened, es, k)) && !es[k].Deliver?
    ensures Asks(es[k].f, Lines(Play(Opened, es))[i].position)
  {
    PlayKeepsInv(Opened, es);
    var t := Play(Opened, es);
    var ls := Lines(t);
    var p := ls[i].position;
    if Ended(ls, t.index) {
      assert i == |ls| - 1 by { assert forall j | 0 <= j < |ls| - 1 :: ls[j] == ls[..|ls| - 1][j]; }
      k := EndHasACause(Opened, es, p);
    } else {
      assert t.index > 0 && Ended(ls, t.index - 1);
      assert i == |ls| - 1 by { assert forall j | 0 <= j < |ls| - 1 :: ls[j] == ls[..|ls| - 1][j]; }
      k := EndHasACause(Opened, es, p);
    }
  }

  /** Everything a reader receives from a dump, whatever the environment does at each turn. */
  method Dump(turns: seq<Turn>) returns (ls: seq<Line>)
    ensures ls != [] ==> ls[0] == Schema
    ensures forall i | 0 <= i < |ls| && ls[i].Row? :: ls[i].addr < LIMIT
    ensures forall i, j | 0 <= i < j < |ls| && ls[i].Row? && ls[j].Row? :: ls[i].addr < ls[j].addr
    ensures forall i | 0 <= i < |ls| && ls[i].TerminalStatus? :: i == |ls| - 1 && IsTerminal(ls[i].position)
  {
    var file := new SeqFile();
    file.Serve(turns);
    DumpShape(Script(Opened, turns));
    ls := file.out + file.buf;
  }

  /** A terminal position, once reached, is final: whatever the flags do afterwards, the
      position stays there until its record is kept, the record is of that kind, and then
      the file ends. */
  ghost predicate Doomed(s: File, terminal: nat) {
    IsTerminal(terminal) && (s.index == terminal || (s.index == terminal + 1 && s.phase.Rest?))
  }

  lemma ApplyKeepsDoom(s: File, e: Event, terminal: nat)
    requires Inv(s) && Possible(s, e) && Doomed(s, terminal)
    ensures Doomed(Apply(s, e), terminal)
  {
    if e.Advance? { assert s.index == terminal; }
  }

  /** A doomed file holds no terminal record of another kind. */
  lemma DoomedLines(s: File, terminal: nat)
    requires Inv(s) && Doomed(s, terminal)
    ensures forall i | 0 <= i < |Lines(s)| && Lines(s)[i].TerminalStatus? :: Lines(s)[i].position == terminal
  {
    var ls := Lines(s);
    if !Body(ls, LIMIT + 1) {
      assert Ended(ls, terminal);
      assert forall i | 0 <= i < |ls| - 1 :: ls[i] == ls[..|ls| - 1][i];
    }
  }

  lemma {:induction false} TerminalIsSticky(s: File, es: seq<Event>, terminal: nat)
    requires Inv(s) && Plays(s, es) && Doomed(s, terminal)
    ensures var t := Play(s, es);
            && Doomed(t, terminal)
            && forall i | 0 <= i < |Lines(t)| && Lines(t)[i].TerminalStatus? :: Lines(t)[i].position == terminal
    decreases |es|
  {
    if es == [] {
      DoomedLines(s, terminal);
    } else {
      ApplyKeepsInv(s, es[0]);
      ApplyKeepsDoom(s, es[0], terminal);
      TerminalIsSticky(Apply(s, es[0]), es[1..], terminal);
    }
  }

  /** The end of the file stays the end: no later read shows anything. */
  lemma {:induction false} EndStays(s: File, es: seq<Event>)
    requires Inv(s) && Plays(s, es) && IsEnd(s.index)
    ensures var t := Play(s, es); t.index == s.index && Lines(t) == Lines(s) && t.phase.Rest?
    decreases |es|
  {
    if es == [] {
    } else {
      ApplyKeepsInv(s, es[0]);
      EndStays(Apply(s, es[0]), es[1..]);
    }
  }

  /** How many more records can be kept from a position. */
  function Remaining(s: File): nat {
    if IsEnd(s.index) then 0
    else if IsTerminal(s.index) then if s.phase.ToAdvance? then 0 else 1
    else if s.index > LIMIT then 0
    else LIMIT + 2 - s.index - (if s.phase.ToAdvance? then 1 else 0)
  }

  function Kept(es: seq<Event>): nat {
    if es == [] then 0 else (if es[0].Keep? then 1 else 0) + Kept(es[1..])
  }

  /** The dump terminates: every kept record uses up one of at most 258, whatever the
      environment does and however often records are taken back. */
  lemma {:induction false} DumpTerminates(s: File, es: seq<Event>)
    requires Inv(s) && Plays(s, es)
    ensures Kept(es) + Remaining(Play(s, es)) <= Remaining(s) <= LIMIT + 2
    decreases |es|
  {
    if es == [] {
    } else {
      ApplyKeepsInv(s, es[0]);
      DumpTerminates(Apply(s, es[0]), es[1..]);
    }
  }

  // ---- an undisturbed device ----

  function Rows(ls: seq<Line>): seq<nat> {
    if ls == [] then []
    else Rows(ls[..|ls| - 1]) + if ls[|ls| - 1].Row? then [ls[|ls| - 1].addr] else []
  }

  predicate Admits(e: Event) {
    match e
    case Begin(f) => Quiet(f)
    case Advance(f) => Quiet(f)
    case Keep(f, l) => Quiet(f) && l.Granted?
    case Drop(f, l) => Quiet(f)
    case Deliver => true
  }

  function UpTo(n: nat): seq<nat> {
    seq(n, i => i)
  }

  /** Rows shown so far, as a function of the position, when nothing interferes. */
  ghost predicate Complete(s: File) {
    && !IsTerminal(s.index) && (IsEnd(s.index) ==> s.index == LIMIT + 1)
    && Rows(Lines(s)) == UpTo(if s.index == 0 then 0 else if s.phase.ToAdvance? then s.index else s.index - 1)
  }

  lemma RowsAppend(ls: seq<Line>, line: Line)
    ensures Rows(ls + [line]) == Rows(ls) + if line.Row? then [line.addr] else []
  {
    assert (ls + [line])[..|ls|] == ls;
  }

  /** The rows a kept record adds when the gate and the lock admit it. */
  lemma ShowRows(out: seq<Line>, buf: seq<Line>, index: nat, v: Record, f: Flags, l: Lock)
    requires !IsTerminal(index) && TerminalPosition(f) == 0 && l.Granted? && (v != Header ==> index > 0)
    ensures var x := Show(index, buf, v, f, l);
            Rows(out + x.buf) == Rows(out + buf) + (if v == Header then [] else [index - 1])
  {
    assert Rows(out + EmitSchema(buf)) == Rows(out + buf) by {
      if buf == [] {
        assert out + [] == out;
        RowsAppend(out, Schema);
      }
    }
    if v != Header {
      var row := Row(index - 1, l.datah, l.datal);
      RowsAppend(out + EmitSchema(buf), row);
      assert out + (EmitSchema(buf) + [row]) == (out + EmitSchema(buf)) + [row];
    }
  }

  lemma ApplyKeepsComplete(s: File, e: Event)
    requires Inv(s) && Possible(s, e) && Complete(s) && Admits(e)
    ensures Complete(Apply(s, e))
  {
    if e.Keep? { KeepCompletes(s, e); } else { assert Lines(Apply(s, e)) == Lines(s); }
  }

  lemma KeepCompletes(s: File, e: Event)
    requires Inv(s) && Possible(s, e) && Complete(s) && Admits(e) && e.Keep?
    ensures Complete(Apply(s, e))
  {
    ShowRows(s.out, s.buf, s.index, s.phase.v, e.f, e.l);
    assert s.index > 0 ==> UpTo(s.index) == UpTo(s.index - 1) + [s.index - 1];
  }

  lemma {:induction false} PlayKeepsComplete(s: File, es: seq<Event>)
    requires Inv(s) && Plays(s, es) && Complete(s) && forall i | 0 <= i < |es| :: Admits(es[i])
    ensures Complete(Play(s, es))
    decreases |es|
  {
    if es == [] {
    } else {
      ApplyKeepsInv(s, es[0]);
      ApplyKeepsComplete(s, es[0]);
      PlayKeepsComplete(Apply(s, es[0]), es[1..]);
    }
  }

  /** If the gate and the lock always admit, a dump read to its end shows the addresses 0 to
      255 once each and in order, however the core splits, drops and repeats its records. */
  lemma UndisturbedDumpIsComplete(es: seq<Event>)
    requires Plays(Opened, es) && forall i | 0 <= i < |es| :: Admits(es[i])
    ensures var s := Play(Opened, es); IsEnd(s.index) ==> Rows(Lines(s)) == UpTo(LIMIT)
  {
    PlayKeepsInv(Opened, es);
    assert Rows(Lines(Opened)) == UpTo(0);
    PlayKeepsComplete(Opened, es);
  }

  // ---- the schema line ----

  function Schemas(ls: seq<Line>): nat {
    if ls == [] then 0 else Schemas(ls[..|ls| - 1]) + if ls[|ls| - 1] == Schema then 1 else 0
  }

  /** The data records kept into an empty buffer: each repeats the schema line. */
  function ColdRows(s: File, es: seq<Event>): nat
    requires Plays(s, es)
    decreases |es|
  {
    if es == [] then 0
    else
      (match es[0]
       case Keep(f, _) =>
         if s.buf == [] && s.phase.v == AtPosition && !IsTerminal(s.index) && TerminalPosition(f) == 0 then 1 else 0
       case _ => 0)
      + ColdRows(Apply(s, es[0]), es[1..])
  }

  lemma SchemasAppend(ls: seq<Line>, line: Line)
    ensures Schemas(ls + [line]) == Schemas(ls) + if line == Schema then 1 else 0
  {
    assert (ls + [line])[..|ls|] == ls;
  }

  lemma OtherLineAppends(out: seq<Line>, buf: seq<Line>, line: Line)
    requires line != Schema
    ensures Schemas(out + (buf + [line])) == Schemas(out + buf)
  {
    assert out + (buf + [line]) == (out + buf) + [line];
    SchemasAppend(out + buf, line);
  }

  lemma SchemaEmitted(out: seq<Line>, buf: seq<Line>)
    ensures Schemas(out + EmitSchema(buf)) == Schemas(out + buf) + if buf == [] then 1 else 0
  {
    if buf == [] {
      assert out + [] == out;
      SchemasAppend(out, Schema);
    }
  }

  /** The schema lines a shown record adds. */
  lemma ShowSchemas(out: seq<Line>, buf: seq<Line>, index: nat, v: Record, f: Flags, l: Lock)
    requires v == Header ==> index == 0
    ensures var x := Show(index, buf, v, f, l);
            Schemas(out + x.buf) == Schemas(out + buf) +
              if buf == [] && (v == Header || (!IsTerminal(index) && TerminalPosition(f) == 0)) then 1 else 0
  {
    SchemaEmitted(out, buf);
    if v != Header {
      if IsTerminal(index) {
        OtherLineAppends(out, buf, TerminalStatus(index));
      } else if TerminalPosition(f) != 0 {
        OtherLineAppends(out, buf, TerminalStatus(TerminalPosition(f)));
      } else if l.Granted? {
        OtherLineAppends(out, EmitSchema(buf), Row(if index > 0 then index - 1 else 0, l.datah, l.datal));
      } else if buf == [] {
        OtherLineAppends(out, EmitSchema(buf), Refusal(l.parked, l.suspended));
      } else {
        assert EmitSchema(buf) + [] == buf;
      }
    }
  }

  /** The schema line is not one record, as the header comment of the dump has it: besides the
      header it is repeated by every data record shown into an empty buffer, and by nothing else. */
  lemma {:induction false} SchemaLineCount(s: File, es: seq<Event>)
    requires Inv(s) && Plays(s, es)
    ensures var t := Play(s, es);
            Schemas(Lines(t)) - Schemas(Lines(s)) ==
              ColdRows(s, es) + (if t.index > 0 || t.phase.ToAdvance? then 1 else 0)
              - (if s.index > 0 || s.phase.ToAdvance? then 1 else 0)
    decreases |es|
  {
    if es == [] {
    } else {
      ApplyKeepsInv(s, es[0]);
      if es[0].Keep? {
        ShowSchemas(s.out, s.buf, s.index, s.phase.v, es[0].f, es[0].l);
      } else {
        assert Lines(Apply(s, es[0])) == Lines(s);
      }
      SchemaLineCount(Apply(s, es[0]), es[1..]);
    }
  }

  /** A dump carries exactly one schema line iff no data record was shown into an empty buffer. */
  lemma OneSchemaLineIff(es: seq<Event>)
    requires Plays(Opened, es) && Lines(Play(Opened, es)) != []
    ensures Schemas(Lines(Play(Opened, es))) == 1 <==> ColdRows(Opened, es) == 0
  {
    PlayKeepsInv(Opened, es);
    SchemaLineCount(Opened, es);
  }

  /** A reader with a small buffer does see the schema line twice. */
  lemma SchemaLineCanRepeat() returns (es: seq<Event>)
    ensures Plays(Opened, es) && Schemas(Lines(Play(Opened, es))) == 2
  {
    var ok, lock := Flags(false, false, 1), Granted(0, 0);
    var s1 := Apply(Opened, Begin(ok));
    var s2 := Apply(s1, Keep(ok, lock));
    var s3 := Apply(s2, Advance(ok));
    var s4 := Apply(s3, Deliver);
    var s5 := Apply(s4, Begin(ok));
    var s6 := Apply(s5, Keep(ok, lock));
    assert Lines(s6) == [Schema, Schema, Row(0, 0, 0)];
    SchemasAppend([], Schema); SchemasAppend([Schema], Schema); SchemasAppend([Schema, Schema], Row(0, 0, 0));
    assert [] + [Schema] == [Schema] && [Schema] + [Schema] == [Schema, Schema];
    assert [Schema, Schema] + [Row(0, 0, 0)] == [Schema, Schema, Row(0, 0, 0)];
    es := [Begin(ok), Keep(ok, lock), Advance(ok), Deliver, Begin(ok), Keep(ok, lock)];
    PlaysSix(es, s1, s2, s3, s4, s5, s6);
  }

  lemma PlaysSix(es: seq<Event>, s1: File, s2: File, s3: File, s4: File, s5: File, s6: File)
    requires |es| == 6
    requires Possible(Opened, es[0]) && s1 == Apply(Opened, es[0]) && Possible(s1, es[1]) && s2 == Apply(s1, es[1])
    requires Possible(s2, es[2]) && s3 == Apply(s2, es[2]) && Possible(s3, es[3]) && s4 == Apply(s3, es[3])
    requires Possible(s4, es[4]) && s5 == Apply(s4, es[4]) && Possible(s5, es[5]) && s6 == Apply(s5, es[5])
    ensures Plays(Opened, es) && Play(Opened, es) == s6
  {
    assert Plays(s6, es[6..]) && Play(s6, es[6..]) == s6;
    assert es[5..][1..] == es[6..] && Plays(s5, es[5..]) && Play(s5, es[5..]) == s6;
    assert es[4..][1..] == es[5..] && Plays(s4, es[4..]) && Play(s4, es[4..]) == s6;
    assert es[3..][1..] == es[4..] && Plays(s3, es[3..]) && Play(s3, es[3..]) == s6;
    assert es[2..][1..] == es[3..] && Plays(s2, es[2..]) && Play(s2, es[2..]) == s6;
    assert es[1..][1..] == es[2..] && Plays(s1, es[1..]) && Play(s1, es[1..]) == s6;
  }
}
