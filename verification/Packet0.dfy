/** Command-stream packets: decoding a header, and the checks a type-0 packet's registers get
    against the safe-register bitmap. Register arithmetic is that of 32-bit unsigned words,
    with wrap-around. */
module Packet0 {
  import opened BitMasks

  type Word = x: int | 0 <= x < 0x1_0000_0000

  const WRAP: nat := 0x1_0000_0000
  const EINVAL: int := 22
  /** Entries of a bitmap that covers every 32-bit register offset. */
  const ALL_ENTRIES: nat := 0x200_0000

  /** A parsed packet. A type-2 packet has count -1; only a type-0 packet has a register, and
      only a type-3 packet an opcode. */
  datatype Packet = Packet(idx: nat, kind: nat, reg: Word, opcode: nat, count: int, oneReg: bool)

  /** One call of the register check: the buffer index of the value, and the register. */
  datatype Call = Call(idx: nat, reg: Word)

  /** The register of iteration `i`. */
  function RegAt(p: Packet, i: nat): Word {
    if p.oneReg then p.reg else (p.reg + 4 * i) % WRAP
  }

  /** The admission test, on the register of the last iteration. */
  predicate Admitted(p: Packet, entries: nat)
    requires p.count >= 0
  {
    RegAt(p, p.count) / 128 < entries
  }

  ghost predicate InBounds(p: Packet, entries: nat, n: nat) {
    forall i: nat | i < n :: RegAt(p, i) / 128 < entries
  }

  predicate Checked(auth: seq<Word>, reg: Word)
    requires reg / 128 < |auth|
  {
    Bit(auth[reg / 128], reg / 4 % 32)
  }

  /** The checks of the first `n` iterations, if none refuses. */
  ghost function Checks(p: Packet, auth: seq<Word>, n: nat): (cs: seq<Call>)
    requires InBounds(p, |auth|, n)
    ensures |cs| <= n && forall k | 0 <= k < |cs| :: p.idx < cs[k].idx <= p.idx + n
  {
    if n == 0 then []
    else Checks(p, auth, n - 1) + CheckAt(p, auth, n - 1)
  }

  function CheckAt(p: Packet, auth: seq<Word>, i: nat): seq<Call>
    requires RegAt(p, i) / 128 < |auth|
  {
    if Checked(auth, RegAt(p, i)) then [Call(p.idx + 1 + i, RegAt(p, i))] else []
  }

  lemma RegNext(p: Packet, i: nat)
    ensures RegAt(p, i + 1) == if p.oneReg then RegAt(p, i) else (RegAt(p, i) + 4) % WRAP
  {
  }

  /** One more iteration, appended to the calls made before. */
  lemma NextCheck(p: Packet, auth: seq<Word>, i: nat, before: seq<Call>, calls: seq<Call>)
    requires InBounds(p, |auth|, i) && RegAt(p, i) / 128 < |auth| && calls == before + Checks(p, auth, i)
    ensures InBounds(p, |auth|, i + 1)
    ensures before + Checks(p, auth, i + 1) ==
              if Checked(auth, RegAt(p, i)) then calls + [Call(p.idx + 1 + i, RegAt(p, i))] else calls
  {
    assert before + (Checks(p, auth, i) + CheckAt(p, auth, i)) == calls + CheckAt(p, auth, i);
    assert calls + [] == calls;
  }

  /** Header fields: type in bits 30-31, count in 16-29, the repeat flag in 15, the register
      in the low 13 bits (16 from R600 on) in units of four, the opcode in bits 8-15. */
  function Decoded(header: Word, at: nat, beforeR600: bool): (p: Packet)
    ensures p.idx == at && p.count >= -1 && (p.count == -1 <==> p.kind == 2)
  {
    var kind := header / 0x4000_0000;
    var count := header / 0x1_0000 % 0x4000;
    if kind == 0 then
      var reg := if beforeR600 then header % 0x2000 * 4 else header % 0x1_0000 * 4;
      Packet(at, 0, reg, 0, count, beforeR600 && header / 0x8000 % 2 == 1)
    else if kind == 2 then Packet(at, 2, 0, 0, -1, false)
    else Packet(at, kind, 0, header / 0x100 % 0x100, count, false)
  }

  /** A register write decodes to the register, count and repeat flag it was made of; bits 13 and
      14 are ignored. */
  lemma DecodesRegisterWrite(base: nat, spare: nat, one: bool, count: nat, at: nat)
    requires base < 0x2000 && spare < 4 && count < 0x4000
    ensures var header := count * 0x1_0000 + (if one then 0x8000 else 0) + spare * 0x2000 + base;
            Decoded(header, at, true) == Packet(at, 0, 4 * base, 0, count, one)
  {
    var flag := if one then 1 else 0;
    var header := count * 0x1_0000 + flag * 0x8000 + spare * 0x2000 + base;
    assert header / 0x2000 == count * 8 + flag * 4 + spare && header % 0x2000 == base;
    assert header / 0x8000 == count * 2 + flag && header / 0x1_0000 == count;
  }

  /** From R600 on the register has sixteen bits, and there is no repeat flag. */
  lemma DecodesWideRegisterWrite(base: nat, count: nat, at: nat)
    requires base < 0x1_0000 && count < 0x4000
    ensures Decoded(count * 0x1_0000 + base, at, false) == Packet(at, 0, 4 * base, 0, count, false)
  {
  }

  /** A type-3 packet decodes to its opcode and count; the low byte is ignored. */
  lemma DecodesCommand(opcode: nat, low: nat, count: nat, at: nat, beforeR600: bool)
    requires opcode < 0x100 && low < 0x100 && count < 0x4000
    ensures var header := 0xc000_0000 + count * 0x1_0000 + opcode * 0x100 + low;
            Decoded(header, at, beforeR600) == Packet(at, 3, 0, opcode, count, false)
  {
    var header := 0xc000_0000 + count * 0x1_0000 + opcode * 0x100 + low;
    assert header / 0x1_0000 == 0xc000 + count && header / 0x100 == (0xc000 + count) * 0x100 + opcode;
  }

  /** A filler is one dword, whatever its other bits; type 1 is known by its top bits too. */
  lemma DecodesFillers(rest: nat, at: nat, beforeR600: bool)
    requires rest < 0x4000_0000
    ensures Decoded(0x8000_0000 + rest, at, beforeR600) == Packet(at, 2, 0, 0, -1, false)
    ensures Decoded(0x4000_0000 + rest, at, beforeR600).kind == 1
  {
  }

  // ---- the safe-register bitmap ----

  lemma {:induction false} SingleBit(b: nat, d: nat)
    ensures Bit(Pow2(b), d) <==> d == b
  {
    if b == 0 {
      if d > 0 { NoBits(d - 1); }
    } else if d > 0 {
      SingleBit(b - 1, d - 1);
    }
  }

  /** A bitmap with one bit set, bit `b` of word `w`, has exactly the register at offset
      `128 * w + 4 * b` checked. */
  lemma OneRegisterBitmap(auth: seq<Word>, w: nat, b: nat, reg: Word)
    requires w < |auth| && b < 32 && reg / 128 < |auth|
    requires auth[w] == Pow2(b) && forall j | 0 <= j < |auth| && j != w :: auth[j] == 0
    ensures Checked(auth, reg) <==> reg - reg % 4 == 128 * w + 4 * b
  {
    SingleBit(b, reg / 4 % 32);
    NoBits(reg / 4 % 32);
    assert reg / 128 == reg / 4 / 32;
  }

  lemma {:induction false} RepeatedClear(p: Packet, auth: seq<Word>, n: nat)
    requires p.oneReg && p.reg / 128 < |auth| && !Checked(auth, p.reg)
    ensures InBounds(p, |auth|, n) && Checks(p, auth, n) == []
  {
    if n == 0 {
    } else {
      RepeatedClear(p, auth, n - 1);
    }
  }

  // ---- when admission is enough ----

  predicate Wraps(p: Packet) {
    !p.oneReg && p.reg + 4 * p.count >= WRAP
  }

  /** The walk reaches the last words of the register space before it wraps. */
  lemma WrapTouchesTheTop(p: Packet)
    requires Wraps(p) && p.count >= 0
    ensures exists i: nat :: i <= p.count && RegAt(p, i) / 128 == ALL_ENTRIES - 1
  {
    var i := (WRAP - 1 - p.reg) / 4;
    assert p.reg + 4 * i < WRAP <= p.reg + 4 * i + 4;
    assert RegAt(p, i) == p.reg + 4 * i;
  }

  /** Admission bounds every register of the walk exactly if the offset does not wrap around,
      or the bitmap covers the whole register space. */
  lemma AdmissionIsEnoughIff(p: Packet, entries: nat)
    requires p.count >= 0 && Admitted(p, entries)
    ensures InBounds(p, entries, p.count + 1) <==> !Wraps(p) || entries >= ALL_ENTRIES
  {
    if Wraps(p) {
      WrapTouchesTheTop(p);
    } else if !p.oneReg {
      forall i: nat | i <= p.count ensures RegAt(p, i) / 128 < entries {
        assert p.reg + 4 * i <= p.reg + 4 * p.count < WRAP;
        assert RegAt(p, i) == p.reg + 4 * i && RegAt(p, p.count) == p.reg + 4 * p.count;
      }
    }
  }

  /** A walk that wraps and is admitted although it leaves its bitmap. */
  lemma WrapIsPossible() returns (p: Packet)
    ensures p.count >= 0 && Admitted(p, 1) && !InBounds(p, 1, p.count + 1)
  {
    p := Packet(0, 0, 0xffff_fffc, 0, 1, false);
    assert RegAt(p, 0) / 128 >= 1;
  }

  /** Headers cannot express such a walk: for every parsed packet admission is enough. */
  lemma ParsedNeverOverruns(p: Packet, entries: nat)
    requires exists header: Word, before: bool :: p == Decoded(header, p.idx, before) && p.kind == 0
    ensures Admitted(p, entries) ==> InBounds(p, entries, p.count + 1)
  {
    if Admitted(p, entries) { AdmissionIsEnoughIff(p, entries); }
  }

  /** A bitmap of ones has every iteration checked: count + 1 calls, in order. */
  lemma {:induction false} AllOnesChecksAll(p: Packet, auth: seq<Word>, n: nat)
    requires InBounds(p, |auth|, n) && forall j | 0 <= j < |auth| :: auth[j] == WRAP - 1
    ensures |Checks(p, auth, n)| == n
    ensures forall i | 0 <= i < n :: Checks(p, auth, n)[i] == Call(p.idx + 1 + i, RegAt(p, i))
  {
    if n == 0 {
    } else {
      AllOnesChecksAll(p, auth, n - 1);
      FullWord(auth[RegAt(p, n - 1) / 128], RegAt(p, n - 1) / 4 % 32);
    }
  }

  lemma FullWord(word: Word, d: nat)
    requires word == WRAP - 1 && d < 32
    ensures Bit(word, d)
  {
    AllOnes(32, d);
    assert Pow2(8) == 0x100 && Pow2(16) == 0x1_0000 && Pow2(24) == 0x100_0000;
    assert Pow2(32) == WRAP;
  }

  // ---- lists of packets ----

  /** Every type-0 packet stays inside the bitmap. */
  ghost predicate AllInBounds(packets: seq<Packet>, entries: nat) {
    forall p | p in packets && p.kind == 0 :: p.count >= 0 && InBounds(p, entries, p.count + 1)
  }

  /** The checks of a list of packets, in order. */
  ghost function AllChecks(packets: seq<Packet>, auth: seq<Word>): seq<Call>
    requires AllInBounds(packets, |auth|)
  {
    if packets == [] then []
    else
      var last := packets[|packets| - 1];
      AllChecks(packets[..|packets| - 1], auth) + if last.kind == 0 then Checks(last, auth, last.count + 1) else []
  }

  lemma AllChecksGrow(packets: seq<Packet>, auth: seq<Word>, p: Packet)
    requires AllInBounds(packets, |auth|) && (p.kind == 0 ==> p.count >= 0 && InBounds(p, |auth|, p.count + 1))
    ensures AllInBounds(packets + [p], |auth|)
    ensures AllChecks(packets + [p], auth) ==
            AllChecks(packets, auth) + if p.kind == 0 then Checks(p, auth, p.count + 1) else []
  {
    assert (packets + [p])[..|packets|] == packets;
  }
}
