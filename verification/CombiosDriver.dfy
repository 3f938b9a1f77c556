/** The driver's side of the COMBIOS image: bounded reads that latch a failure, image
    admission, the table preflights, and the interpreter that runs a preflighted table.
    The ROM script's side stands beside it, and the two are shown to agree. */
module CombiosDriver {
  import opened CombiosTables

  const MAX_ROM_BYTES: nat := 0x100000
  const SIGNATURE: seq<Byte> := [0x55, 0xaa]
  const PCIR: seq<Byte> := [0x50, 0x43, 0x49, 0x52]
  const ATOM: seq<Byte> := [0x41, 0x54, 0x4f, 0x4d]
  const MOTA: seq<Byte> := [0x4d, 0x4f, 0x54, 0x41]

  function U32(image: seq<Byte>, offset: nat): nat
    requires offset + 4 <= |image|
  {
    U16(image, offset) + 0x10000 * U16(image, offset + 2)
  }

  predicate IsAtomHeader(image: seq<Byte>, header: nat)
    requires header + 8 <= |image|
  {
    image[header + 4..header + 8] == ATOM || image[header + 4..header + 8] == MOTA
  }

  datatype Admission = Admitted(size: nat, header: nat) | Rejected

  /** The size the first image of a ROM declares, or 0 if the ROM is not admitted. */
  function DeclaredSize(rom: seq<Byte>): (size: nat)
    ensures size <= |rom|
  {
    if |rom| < 0x1a || rom[..2] != SIGNATURE then 0
    else
      var pcir := U16(rom, 0x18);
      if pcir + 0x18 > |rom| then 0
      else if rom[pcir..pcir + 4] != PCIR then 0
      else
        var size := U16(rom, pcir + 0x10) * 512;
        if size > |rom| || pcir + 0x18 > size || rom[pcir + 0x14] != 0 then 0 else size
  }

  /** The place of the COMBIOS header in an image, or 0 if there is none. */
  function HeaderOf(image: seq<Byte>): (header: nat)
    ensures header > 0 ==> header + 8 <= |image|
  {
    if 0x48 + 2 > |image| then 0
    else
      var header := U16(image, 0x48);
      if header + 8 > |image| || IsAtomHeader(image, header) then 0 else header
  }

  /** The admission of a ROM: the declared size of its first image and the place of the
      COMBIOS header, with the image cut to the declared size before the header is looked up. */
  function AdmitImage(rom: seq<Byte>): Admission {
    if DeclaredSize(rom) == 0 then Rejected
    else
      var header := HeaderOf(rom[..DeclaredSize(rom)]);
      if header == 0 then Rejected else Admitted(DeclaredSize(rom), header)
  }

  /** The ROM script's admission, which has a size ceiling besides. */
  function AdmitPciImage(rom: seq<Byte>): Admission {
    if 0 < |rom| <= MAX_ROM_BYTES then AdmitImage(rom) else Rejected
  }

  datatype Offset = At(offset: nat) | NoTable

  /** The ROM script's lookup of one of the header's table offsets. */
  function TableOffset(image: seq<Byte>, header: nat, slot: nat): Offset {
    if header + 7 > |image| then NoTable
    else if slot >= image[header + 6] then NoTable
    else if header + slot + 2 > |image| then NoTable
    else At(U16(image, header + slot))
  }

  /** A slot that the header's own size byte leaves out. */
  predicate SlotAbsent(image: seq<Byte>, header: nat, slot: nat) {
    header + 7 <= |image| && slot >= image[header + 6]
  }

  /** The tables both sides walk, a header slot and its format each. */
  const TABLES: seq<(nat, Format)> := [(0x0c, Mmio), (0x46, Pll), (0x4e, Mmio), (0x52, Pll)]

  predicate TableOk(t: Format, image: seq<Byte>, offset: nat) {
    offset == 0 || Walk(t, image, offset).Accepted?
  }

  /** The ROM script's verdict on a ROM. */
  predicate ValidateRom(rom: seq<Byte>) {
    var a := AdmitPciImage(rom);
    && a.Admitted?
    && forall k | 0 <= k < |TABLES| :: TableHolds(rom[..a.size], a.header, TABLES[k].0, TABLES[k].1)
  }

  predicate TableHolds(image: seq<Byte>, header: nat, slot: nat, t: Format) {
    var o := TableOffset(image, header, slot);
    o.At? && TableOk(t, image, o.offset)
  }

  // ---- what both verdicts look at, byte by byte ----

  /** The little-endian word at an offset. */
  predicate IsWord(image: seq<Byte>, offset: nat, v: nat) {
    offset + 2 <= |image| && v == (image[offset] as int) + 256 * (image[offset + 1] as int)
  }

  /** A PCI data structure at `pcir` for a legacy first image of `size` bytes. */
  predicate PciDataFor(rom: seq<Byte>, pcir: nat, size: nat) {
    && pcir + 0x18 <= size <= |rom|
    && rom[pcir] == 0x50 && rom[pcir + 1] == 0x43 && rom[pcir + 2] == 0x49 && rom[pcir + 3] == 0x52
    && size == 512 * ((rom[pcir + 0x10] as int) + 256 * (rom[pcir + 0x11] as int)) && rom[pcir + 0x14] == 0
  }

  /** A ROM header whose data structure is for a legacy first image of `size` bytes. */
  predicate PciImage(rom: seq<Byte>, size: nat) {
    && |rom| >= 0x1a && rom[0] == 0x55 && rom[1] == 0xaa
    && PciDataFor(rom, (rom[0x18] as int) + 256 * (rom[0x19] as int), size)
  }

  /** A COMBIOS header: inside the image, and without the ATOM mark in either byte order. */
  predicate CombiosHeader(rom: seq<Byte>, size: nat, header: nat) {
    && 0x4a <= size <= |rom| && IsWord(rom, 0x48, header) && 0 < header && header + 8 <= size
    && !(rom[header + 4] == 0x41 && rom[header + 5] == 0x54 && rom[header + 6] == 0x4f && rom[header + 7] == 0x4d)
    && !(rom[header + 4] == 0x4d && rom[header + 5] == 0x4f && rom[header + 6] == 0x54 && rom[header + 7] == 0x41)
  }

  lemma DeclaredIff(rom: seq<Byte>, size: nat)
    requires size > 0
    ensures DeclaredSize(rom) == size <==> PciImage(rom, size)
  {
    if |rom| >= 0x1a {
      assert rom[..2] == [rom[0], rom[1]];
      var pcir := U16(rom, 0x18);
      if pcir + 0x18 <= |rom| {
        assert rom[pcir..pcir + 4] == [rom[pcir], rom[pcir + 1], rom[pcir + 2], rom[pcir + 3]];
      }
    }
  }

  lemma HeaderIff(rom: seq<Byte>, size: nat, header: nat)
    requires header > 0 && size <= |rom|
    ensures HeaderOf(rom[..size]) == header <==> CombiosHeader(rom, size, header)
  {
    var image := rom[..size];
    if 0x4a <= size && U16(image, 0x48) + 8 <= size {
      var h := U16(image, 0x48);
      assert image[h + 4..h + 8] == [rom[h + 4], rom[h + 5], rom[h + 6], rom[h + 7]];
    }
  }

  /** Exactly which ROMs are admitted, and with which size and header. */
  lemma AdmittedIff(rom: seq<Byte>, size: nat, header: nat)
    requires size > 0 && header > 0
    ensures AdmitImage(rom) == Admitted(size, header) <==> PciImage(rom, size) && CombiosHeader(rom, size, header)
  {
    DeclaredIff(rom, size);
    if size <= |rom| { HeaderIff(rom, size, header); }
  }

  lemma AdmissionIsPositive(rom: seq<Byte>)
    ensures AdmitImage(rom).Admitted? ==> AdmitImage(rom).size > 0 && AdmitImage(rom).header > 0
  {
  }

  /** A header slot inside the header's size byte, whose table is absent or accepted. */
  predicate SlotHolds(image: seq<Byte>, header: nat, slot: nat, t: Format) {
    && header + 7 <= |image| && slot < image[header + 6] && header + slot + 2 <= |image|
    && var offset := (image[header + slot] as int) + 256 * (image[header + slot + 1] as int);
       offset == 0 || Walk(t, image, offset).Accepted?
  }

  /** The script's verdict: a ROM of at most a mebibyte, admitted, with the MMIO tables of slots
      0x0c and 0x4e and the PLL tables of slots 0x46 and 0x52. */
  lemma ScriptVerdict(rom: seq<Byte>)
    ensures ValidateRom(rom) <==>
              && |rom| <= 0x10_0000 && AdmitImage(rom).Admitted?
              && var image, header := rom[..AdmitImage(rom).size], AdmitImage(rom).header;
                 && SlotHolds(image, header, 0x0c, Mmio) && SlotHolds(image, header, 0x46, Pll)
                 && SlotHolds(image, header, 0x4e, Mmio) && SlotHolds(image, header, 0x52, Pll)
  {
    assert TABLES[0] == (0x0c, Mmio) && TABLES[1] == (0x46, Pll);
    assert TABLES[2] == (0x4e, Mmio) && TABLES[3] == (0x52, Pll);
    var a := AdmitImage(rom);
    if a.Admitted? {
      var image := rom[..a.size];
      SlotsAgree(image, a.header, 0x0c, Mmio);
      SlotsAgree(image, a.header, 0x46, Pll);
      SlotsAgree(image, a.header, 0x4e, Mmio);
      SlotsAgree(image, a.header, 0x52, Pll);
    }
  }

  lemma SlotsAgree(image: seq<Byte>, header: nat, slot: nat, t: Format)
    ensures TableHolds(image, header, slot, t) <==> SlotHolds(image, header, slot, t)
  {
  }

  // ---- what running an MMIO table does ----

  /** Register effects of one command; the register values themselves are not modelled. */
  datatype Effect =
    | Write(addr: nat, value: nat)
    | Mask(addr: nat, andMask: nat, orMask: nat)
    | DelayFor(time: nat)
    | Poll(addr: nat, tries: nat)
    | Nothing

  function Meaning(c: Command): Effect
    requires WellFormed(Mmio, c)
  {
    var kind, addr := c.entry / 0x2000, c.entry % 0x2000;
    if kind <= 1 then Write(addr, U32(c.payload, 0))
    else if kind <= 3 then Mask(addr, U32(c.payload, 0), U32(c.payload, 4))
    else if kind == 4 then DelayFor(U16(c.payload, 0))
    else if kind == 5 then Poll(addr, U16(c.payload, 0))
    else Nothing
  }

  /** The bytes of a 16-bit and of a 32-bit value, low byte first. */
  function Bytes2(v: nat): seq<Byte>
    requires v < 0x1_0000
  {
    [v % 256, v / 256]
  }

  function Bytes4(v: nat): seq<Byte>
    requires v < 0x1_0000_0000
  {
    [v % 256, v / 256 % 256, v / 65536 % 256, v / 16777216]
  }

  predicate Expressible(e: Effect) {
    match e
    case Write(addr, value) => addr < 0x2000 && value < 0x1_0000_0000
    case Mask(addr, andMask, orMask) => addr < 0x2000 && andMask < 0x1_0000_0000 && orMask < 0x1_0000_0000
    case DelayFor(time) => time < 0x1_0000
    case Poll(addr, tries) => addr < 0x2000 && tries < 0x1_0000
    case Nothing => true
  }

  /** A command for an effect. A write and a masked write have two kinds each; `other` chooses
      the second, and fills the ignored bits of a delay and of a command without effect. */
  function CommandFor(e: Effect, other: bool): Command
    requires Expressible(e)
  {
    var bit := if other then 1 else 0;
    match e
    case Write(addr, value) => Command(addr + bit * 0x2000, Bytes4(value))
    case Mask(addr, andMask, orMask) => Command(0x4000 + addr + bit * 0x2000, Bytes4(andMask) + Bytes4(orMask))
    case DelayFor(time) => Command(0x8000 + bit, Bytes2(time))
    case Poll(addr, tries) => Command(0xa000 + addr, Bytes2(tries))
    case Nothing => Command(0xc000 + bit * 0x2000, [])
  }

  /** Every effect comes back from its command: the register, the mask before the value, and the
      low byte first. */
  lemma EffectsRoundTrip(e: Effect, other: bool)
    requires Expressible(e) && CommandFor(e, other).entry != 0
    ensures WellFormed(Mmio, CommandFor(e, other)) && Meaning(CommandFor(e, other)) == e
  {
    var c := CommandFor(e, other);
    match e {
      case Write(addr, value) => WordRoundTrip(value, c.payload, 0);
      case Mask(addr, andMask, orMask) =>
        WordRoundTrip(andMask, c.payload, 0);
        WordRoundTrip(orMask, c.payload, 4);
      case DelayFor(time) =>
      case Poll(addr, tries) =>
      case Nothing =>
    }
  }

  lemma WordRoundTrip(v: nat, image: seq<Byte>, offset: nat)
    requires v < 0x1_0000_0000 && offset + 4 <= |image| && image[offset..offset + 4] == Bytes4(v)
    ensures U32(image, offset) == v
  {
    var b := Bytes4(v);
    assert forall k | 0 <= k < 4 :: image[offset + k] == image[offset..offset + 4][k] == b[k];
    assert image[offset] == b[0] && image[offset + 1] == b[1] && image[offset + 2] == b[2] && image[offset + 3] == b[3];
    assert v / 65536 / 256 == v / 16777216 && v / 256 == v / 65536 * 256 + v / 256 % 256;
  }

  function Meanings(cs: seq<Command>): (es: seq<Effect>)
    requires AllWellFormed(Mmio, cs)
    ensures |es| == |cs|
  {
    if cs == [] then []
    else
      assert WellFormed(Mmio, cs[0]);
      [Meaning(cs[0])] + Meanings(cs[1..])
  }

  /** An interpreter of an accepted table that has performed `done` and stands at `offset`. */
  ghost predicate OnTrack(image: seq<Byte>, table: nat, offset: nat, done: seq<Effect>) {
    && Walk(Mmio, image, table).Accepted? && AllWellFormed(Mmio, Decode(Mmio, image, table))
    && Walk(Mmio, image, offset).Accepted? && AllWellFormed(Mmio, Decode(Mmio, image, offset))
    && done + Meanings(Decode(Mmio, image, offset)) == Meanings(Decode(Mmio, image, table))
  }

  lemma OnTrackStarts(image: seq<Byte>, table: nat)
    requires Walk(Mmio, image, table).Accepted?
    ensures OnTrack(image, table, table, [])
  {
    DecodeInverts(Mmio, image, table);
  }

  lemma OnTrackEnds(image: seq<Byte>, table: nat, offset: nat, done: seq<Effect>)
    requires OnTrack(image, table, offset, done) && U16(image, offset) == 0
    ensures done == Meanings(Decode(Mmio, image, table))
  {
  }

  /** The first command of an accepted table, and the rest. */
  lemma FirstCommand(image: seq<Byte>, offset: nat)
    requires Walk(Mmio, image, offset).Accepted? && U16(image, offset) != 0
    ensures var entry := U16(image, offset);
            var next := offset + 2 + Payload(Mmio, entry);
            && next <= |image| && Walk(Mmio, image, next).Accepted?
            && Decode(Mmio, image, offset) == [Command(entry, image[offset + 2..next])] + Decode(Mmio, image, next)
  {
  }

  lemma MeaningsSplit(c: Command, cs: seq<Command>)
    requires AllWellFormed(Mmio, [c] + cs)
    ensures WellFormed(Mmio, c) && AllWellFormed(Mmio, cs) && Meanings([c] + cs) == [Meaning(c)] + Meanings(cs)
  {
    assert ([c] + cs)[0] == c && ([c] + cs)[1..] == cs;
    assert forall i | 0 <= i < |cs| :: cs[i] == ([c] + cs)[i + 1];
  }

  lemma OnTrackSteps(image: seq<Byte>, table: nat, offset: nat, done: seq<Effect>, next: nat, e: Effect)
    requires OnTrack(image, table, offset, done) && U16(image, offset) != 0
    requires next == offset + 2 + Payload(Mmio, U16(image, offset))
    requires next <= |image| ==> e == Meaning(Command(U16(image, offset), image[offset + 2..next]))
    ensures next <= |image| && OnTrack(image, table, next, done + [e])
  {
    FirstCommand(image, offset);
    MeaningsSplit(Command(U16(image, offset), image[offset + 2..next]), Decode(Mmio, image, next));
    assert done + [e] + Meanings(Decode(Mmio, image, next)) == done + ([e] + Meanings(Decode(Mmio, image, next)));
  }

  /** A table that will be refused stays so until its end is passed. */
  lemma RefusalPropagates(image: seq<Byte>, offset: nat)
    requires Walk(Mmio, image, offset).Refused? && offset + 2 <= |image|
    ensures U16(image, offset) != 0
    ensures var next := offset + 2 + Payload(Mmio, U16(image, offset));
            next > |image| || Walk(Mmio, image, next).Refused?
  {
  }

  /** An interpreter of any table: on track, with no failure of its own, or bound to fail. */
  ghost predicate Tracks(image: seq<Byte>, table: nat, offset: nat, done: seq<Effect>, failed: bool, before: bool) {
    if Walk(Mmio, image, table).Accepted? then failed == before && OnTrack(image, table, offset, done)
    else Walk(Mmio, image, offset).Refused? || failed
  }

  lemma TracksSteps(image: seq<Byte>, table: nat, offset: nat, done: seq<Effect>, failed: bool, before: bool,
                    next: nat, e: Effect, after: bool)
    requires Tracks(image, table, offset, done, failed, before)
    requires offset + 2 <= |image| && U16(image, offset) != 0 && next == offset + 2 + Payload(Mmio, U16(image, offset))
    requires next <= |image| ==> after == failed && e == Meaning(Command(U16(image, offset), image[offset + 2..next]))
    requires failed ==> after
    ensures Tracks(image, table, next, done + [e], after, before)
  {
    if Walk(Mmio, image, table).Accepted? {
      OnTrackSteps(image, table, offset, done, next, e);
    } else if !failed {
      RefusalPropagates(image, offset);
    }
  }

  // ---- the driver ----

  class Bios {
    const rom: seq<Byte>
    var size: nat
    var header: nat
    var isAtom: bool
    var parseFailed: bool

    /** The image as the driver bounds it: the first `size` bytes of what was copied. */
    ghost predicate Valid()
      reads this
    {
      size <= |rom|
    }

    function Image(): seq<Byte>
      requires Valid()
      reads this
    {
      rom[..size]
    }

    constructor (bytes: seq<Byte>)
      ensures Valid() && rom == bytes && size == |bytes| && !parseFailed
    {
      rom, size, header, isAtom, parseFailed := bytes, |bytes|, 0, false, false;
    }

    method SpanValid(offset: nat, length: nat) returns (ok: bool)
      requires Valid()
      modifies this`parseFailed
      ensures ok <==> offset + length <= size
      ensures parseFailed == (old(parseFailed) || !ok)
    {
      if offset > size || length > size - offset {
        parseFailed := true;
        return false;
      }
      ok := true;
    }

    method ReadU8(offset: nat) returns (v: nat)
      requires Valid()
      modifies this`parseFailed
      ensures v == if offset < size then Image()[offset] else 0
      ensures parseFailed == (old(parseFailed) || offset >= size)
    {
      var ok := SpanValid(offset, 1);
      v := if ok then rom[offset] else 0;
    }

    method ReadU16(offset: nat) returns (v: nat)
      requires Valid()
      modifies this`parseFailed
      ensures v == if offset + 2 <= size then U16(Image(), offset) else 0
      ensures parseFailed == (old(parseFailed) || offset + 2 > size)
    {
      var ok := SpanValid(offset, 2);
      v := if ok then U16(rom, offset) else 0;
    }

    method ReadU32(offset: nat) returns (v: nat)
      requires Valid()
      modifies this`parseFailed
      ensures v == if offset + 4 <= size then U32(Image(), offset) else 0
      ensures parseFailed == (old(parseFailed) || offset + 4 > size)
    {
      var ok := SpanValid(offset, 4);
      v := if ok then U32(rom, offset) else 0;
    }

    /** Admission of the copied ROM. A ROM is admitted as a COMBIOS image exactly when
        `AdmitImage` admits it, whatever its size. */
    method GetBios() returns (ok: bool)
      requires Valid() && size == |rom| && !parseFailed
      modifies this
      ensures Valid()
      ensures ok ==> size == DeclaredSize(rom) > 0 && 0x4a <= size && 0 < header == U16(rom, 0x48) && header + 8 <= size
      ensures ok ==> !parseFailed && (isAtom <==> IsAtomHeader(rom, header))
      ensures ok && !isAtom <==> AdmitImage(rom).Admitted?
      ensures AdmitImage(rom).Admitted? ==> AdmitImage(rom) == Admitted(size, header)
    {
      isAtom := false;
      var span := SpanValid(0, 0x1a);
      if !span { return false; }
      assert rom[..2] == [rom[0], rom[1]];
      if rom[0] != 0x55 || rom[1] != 0xaa { return false; }
      assert Image() == rom;
      var pcir := ReadU16(0x18);
      span := SpanValid(pcir, 0x18);
      if !span || rom[pcir..pcir + 4] != PCIR { return false; }
      var declared := ReadU16(pcir + 0x10);
      var imageSize := declared * 512;
      if imageSize == 0 || imageSize > size || pcir > imageSize || 0x18 > imageSize - pcir { return false; }
      size := imageSize;
      var code := ReadU8(pcir + 0x14);
      if code != 0 { return false; }
      assert size == DeclaredSize(rom);
      span := SpanValid(0x48, 2);
      if !span { return false; }
      var start := ReadU16(0x48);
      if start == 0 { return false; }
      span := SpanValid(start, 8);
      if !span { return false; }
      header := start;
      isAtom := IsAtomHeader(rom, start);
      assert Image()[start + 4..start + 8] == rom[start + 4..start + 8];
      ok := true;
    }

    /** The driver's lookup of an absolute table offset: where the script finds one, the same
        one; no table for a slot beyond the header's own size byte; otherwise a failure. */
    method GetTableOffset(slot: nat) returns (offset: nat)
      requires Valid() && slot != 0
      modifies this`parseFailed
      ensures parseFailed <==> old(parseFailed) ||
                               (TableOffset(Image(), header, slot).NoTable? && !SlotAbsent(Image(), header, slot))
      ensures offset == if !parseFailed && TableOffset(Image(), header, slot).At?
                        then TableOffset(Image(), header, slot).offset else 0
    {
      if parseFailed { return 0; }
      offset := 0;
      var bound := ReadU8(header + 6);
      if slot < bound { offset := ReadU16(header + slot); }
      if parseFailed { return 0; }
    }

    method ValidateMmioTable(table: nat) returns (ok: bool)
      requires Valid()
      modifies this`parseFailed
      ensures ok <==> table == 0 || (!old(parseFailed) && Walk(Mmio, Image(), table).Accepted?)
      ensures parseFailed == (old(parseFailed) || !ok)
    {
      if table == 0 { return true; }
      var offset := table;
      while true
        invariant parseFailed == old(parseFailed)
        invariant table <= offset && Walk(Mmio, Image(), offset).Accepted? == Walk(Mmio, Image(), table).Accepted?
        invariant offset > table ==> !parseFailed
        decreases size - offset
      {
        var entry := ReadU16(offset);
        if parseFailed { return false; }
        if entry == 0 { return true; }
        offset := offset + 2;
        var payload := match entry / 0x2000 {
          case 0 => 4 case 1 => 4 case 2 => 8 case 3 => 8 case 4 => 2 case 5 => 2 case _ => 0
        };
        var span := SpanValid(offset, payload);
        if !span { return false; }
        offset := offset + payload;
      }
    }

    method ValidatePllTable(table: nat) returns (ok: bool)
      requires Valid()
      modifies this`parseFailed
      ensures ok <==> table == 0 || (!old(parseFailed) && Walk(Pll, Image(), table).Accepted?)
      ensures parseFailed == (old(parseFailed) || !ok)
    {
      if table == 0 { return true; }
      var offset := table;
      while true
        invariant parseFailed == old(parseFailed)
        invariant table <= offset && Walk(Pll, Image(), offset).Accepted? == Walk(Pll, Image(), table).Accepted?
        invariant offset > table ==> !parseFailed
        decreases size - offset
      {
        var entry := ReadU8(offset);
        if parseFailed { return false; }
        if entry == 0 { return true; }
        offset := offset + 1;
        var payload := if entry / 0x40 == 0 then 4 else if entry / 0x40 == 1 then 3 else 0;
        var span := SpanValid(offset, payload);
        if !span { return false; }
        offset := offset + payload;
      }
    }

    method ValidateRamResetTable(table: nat) returns (ok: bool)
      requires Valid()
      modifies this`parseFailed
      ensures ok <==> table == 0 || (!old(parseFailed) && Walk(RamReset, Image(), table).Accepted?)
      ensures parseFailed == (old(parseFailed) || !ok)
    {
      if table == 0 { return true; }
      var offset := table;
      while true
        invariant parseFailed == old(parseFailed)
        invariant table <= offset
        invariant Walk(RamReset, Image(), offset).Accepted? == Walk(RamReset, Image(), table).Accepted?
        invariant offset > table ==> !parseFailed
        decreases size - offset
      {
        var entry := ReadU8(offset);
        if parseFailed { return false; }
        if entry == 0xff { return true; }
        offset := offset + 1;
        if entry != 0x0f {
          var span := SpanValid(offset, 2);
          if !span { return false; }
          offset := offset + 2;
        }
      }
    }

    /** One command of the interpreter, at its payload. */
    method RunCommand(entry: nat, at: nat) returns (e: Effect, next: nat)
      requires Valid() && 0 < entry < 0x10000
      modifies this`parseFailed
      ensures next == at + Payload(Mmio, entry)
      ensures next > size && at < next ==> parseFailed
      ensures next <= size ==> parseFailed == old(parseFailed) && e == Meaning(Command(entry, Image()[at..next]))
      ensures old(parseFailed) ==> parseFailed
    {
      var addr := entry % 0x2000;
      match entry / 0x2000
      case 0 => { var v := ReadU32(at); e, next := Write(addr, v), at + 4; }
      case 1 => { var v := ReadU32(at); e, next := Write(addr, v), at + 4; }
      case 2 => { var m := ReadU32(at); var o := ReadU32(at + 4); e, next := Mask(addr, m, o), at + 8; }
      case 3 => { var m := ReadU32(at); var o := ReadU32(at + 4); e, next := Mask(addr, m, o), at + 8; }
      case 4 => { var v := ReadU16(at); e, next := DelayFor(v), at + 2; }
      case 5 => { var v := ReadU16(at); e, next := Poll(addr, v), at + 2; }
      case _ => { e, next := Nothing, at; }
    }

    /** The interpreter. On a table that passed its preflight it performs the effects of
        exactly the encoded commands, in order, and reads nothing outside the image; on any
        other table it still terminates, and leaves the failure latched. */
    method ParseMmioTable(table: nat) returns (effects: seq<Effect>)
      requires Valid()
      modifies this`parseFailed
      ensures table == 0 ==> effects == [] && parseFailed == old(parseFailed)
      ensures table != 0 && Walk(Mmio, Image(), table).Accepted? ==>
                && parseFailed == old(parseFailed)
                && AllWellFormed(Mmio, Decode(Mmio, Image(), table))
                && effects == Meanings(Decode(Mmio, Image(), table))
      ensures table != 0 && Walk(Mmio, Image(), table).Refused? ==> parseFailed
    {
      effects := [];
      if table == 0 { return; }
      var offset := table;
      ghost var image, before := Image(), parseFailed;
      if Walk(Mmio, image, table).Accepted? { OnTrackStarts(image, table); }
      while true
        invariant Image() == image && |image| == size
        invariant Tracks(image, table, offset, effects, parseFailed, before)
        decreases if offset <= size then size - offset else 0
      {
        var entry := ReadU16(offset);
        if entry == 0 {
          if Walk(Mmio, image, table).Accepted? { OnTrackEnds(image, table, offset, effects); }
          return;
        }
        entry := ReadU16(offset);
        ghost var failed := parseFailed;
        var e, next := RunCommand(entry, offset + 2);
        TracksSteps(image, table, offset, effects, failed, before, next, e, parseFailed);
        effects, offset := effects + [e], next;
      }
    }
  }

  // ---- the two sides agree ----

  /** What the driver makes of one table: readable where present, and accepted. */
  predicate SlotOk(image: seq<Byte>, header: nat, k: nat)
    requires k < |TABLES|
  {
    var o := TableOffset(image, header, TABLES[k].0);
    if o.At? then TableOk(TABLES[k].1, image, o.offset) else SlotAbsent(image, header, TABLES[k].0)
  }

  /** The driver's verdict. A few machines skip the dynamic-clock table, the last of the four. */
  predicate PreflightOk(rom: seq<Byte>, skipDynClk: bool) {
    var a := AdmitImage(rom);
    a.Admitted? && SlotsOk(rom[..a.size], a.header, skipDynClk)
  }

  predicate SlotsOk(image: seq<Byte>, header: nat, skipDynClk: bool) {
    SlotOk(image, header, 0) && SlotOk(image, header, 1) && SlotOk(image, header, 2) &&
    (skipDynClk || SlotOk(image, header, 3))
  }

  ghost predicate AllSlotsPresent(rom: seq<Byte>) {
    var a := AdmitImage(rom);
    a.Admitted? && forall k | 0 <= k < |TABLES| :: TableOffset(rom[..a.size], a.header, TABLES[k].0).At?
  }

  /** The driver's preflight of a copied ROM: every offset is looked up before any table is
      walked. */
  method Preflight(rom: seq<Byte>, skipDynClk: bool) returns (ok: bool)
    ensures ok <==> PreflightOk(rom, skipDynClk)
  {
    var bios := new Bios(rom);
    ok := bios.GetBios();
    if !ok || bios.isAtom { return false; }
    ghost var image, header := bios.Image(), bios.header;
    var init1 := bios.GetTableOffset(TABLES[0].0);
    var pll := bios.GetTableOffset(TABLES[1].0);
    var init2 := bios.GetTableOffset(TABLES[2].0);
    var dynClk := 0;
    if !skipDynClk { dynClk := bios.GetTableOffset(TABLES[3].0); }
    if bios.parseFailed {
      assert !SlotsOk(image, header, skipDynClk);
      return false;
    }
    assert SlotOk(image, header, 0) <==> TableOk(Mmio, image, init1);
    assert SlotOk(image, header, 1) <==> TableOk(Pll, image, pll);
    assert SlotOk(image, header, 2) <==> TableOk(Mmio, image, init2);
    assert !skipDynClk ==> (SlotOk(image, header, 3) <==> TableOk(Pll, image, dynClk));
    ok := bios.ValidateMmioTable(init1);
    if !ok { return; }
    ok := bios.ValidatePllTable(pll);
    if !ok { return; }
    ok := bios.ValidateMmioTable(init2);
    if !ok { return; }
    ok := bios.ValidatePllTable(dynClk);
  }

  /** The two sides agree up to what the script asks for besides: a ROM within its ceiling, on
      which all four slots lie inside the header. The skipped table only widens the gap. */
  lemma ScriptIsPreflightIff(rom: seq<Byte>)
    ensures ValidateRom(rom) <==> |rom| <= 0x10_0000 && PreflightOk(rom, false) && AllSlotsPresent(rom)
    ensures PreflightOk(rom, false) ==> PreflightOk(rom, true)
  {
  }

  /** One byte of a ROM whose COMBIOS header, at 0x60, declares no size of its own. */
  function SmallHeaderByte(i: nat): Byte {
    match i
    case 0x00 => 0x55
    case 0x01 => 0xaa
    case 0x18 => 0x20
    case 0x20 => 0x50
    case 0x21 => 0x43
    case 0x22 => 0x49
    case 0x23 => 0x52
    case 0x30 => 0x01
    case 0x48 => 0x60
    case _ => 0x00
  }

  /** A ROM that passes the driver's preflight with no table at all, and that the script rejects. */
  lemma SmallHeaderPassesPreflight() returns (rom: seq<Byte>)
    ensures |rom| == 512 && PreflightOk(rom, false) && !ValidateRom(rom)
  {
    rom := seq(512, i requires 0 <= i => SmallHeaderByte(i));
    assert rom[..2] == SIGNATURE && rom[0x20..0x24] == PCIR;
    assert U16(rom, 0x18) == 0x20 && U16(rom, 0x30) == 1 && DeclaredSize(rom) == 512;
    assert rom[..512] == rom && U16(rom, 0x48) == 0x60 && rom[0x64..0x68][0] == 0;
    assert AdmitImage(rom) == Admitted(512, 0x60);
    forall k | 0 <= k < |TABLES|
      ensures SlotOk(rom[..512], 0x60, k) && TableOffset(rom[..512], 0x60, TABLES[k].0).NoTable?
    {
    }
    assert TableOffset(rom[..512], 0x60, TABLES[0].0).NoTable?;
  }

  /** A table accepted on the image that admission cuts out of a ROM is accepted with the same
      commands on the whole ROM. */
  lemma AcceptedOnFullRom(rom: seq<Byte>, t: Format, offset: nat)
    requires AdmitPciImage(rom).Admitted? && Walk(t, rom[..AdmitPciImage(rom).size], offset).Accepted?
    ensures var image := rom[..AdmitPciImage(rom).size];
            && Walk(t, rom, offset) == Walk(t, image, offset)
            && Decode(t, rom, offset) == Decode(t, image, offset)
  {
    WalkUnderTruncation(t, rom, AdmitPciImage(rom).size, offset);
  }

  /** What admission depends on lies inside the admitted image: every ROM with the same first
      `size` bytes is admitted alike. */
  lemma AdmissionIsLocal(rom: seq<Byte>, other: seq<Byte>)
    requires AdmitPciImage(rom).Admitted? && |other| <= MAX_ROM_BYTES
    requires var size := AdmitPciImage(rom).size; size <= |other| && other[..size] == rom[..size]
    ensures AdmitPciImage(other) == AdmitPciImage(rom)
  {
    var size := AdmitPciImage(rom).size;
    assert forall i | 0 <= i < size :: other[i] == other[..size][i] == rom[..size][i] == rom[i];
    var pcir := U16(rom, 0x18);
    assert other[..2] == other[..size][..2] == rom[..2];
    assert other[pcir..pcir + 4] == other[..size][pcir..pcir + 4] == rom[pcir..pcir + 4];
  }
}
