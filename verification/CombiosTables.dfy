/** The variable-length command tables of a COMBIOS image: how a walk reads one, and the
    encoder it inverts.

    Three formats share one shape: a command is an entry of fixed width followed by a payload
    whose size the entry's top bits choose, and a terminator entry ends the table. */
module CombiosTables {

  type Byte = x: int | 0 <= x < 256

  datatype Format = Mmio | Pll | RamReset

  function Width(t: Format): nat {
    if t.Mmio? then 2 else 1
  }

  function Terminator(t: Format): nat {
    if t.RamReset? then 0xff else 0
  }

  /** Payload bytes behind an entry that is not the terminator. */
  function Payload(t: Format, entry: nat): nat {
    match t
    case Mmio =>
      var kind := entry / 0x2000;
      if kind <= 1 then 4 else if kind <= 3 then 8 else if kind <= 5 then 2 else 0
    case Pll =>
      var kind := entry / 0x40;
      if kind == 0 then 4 else if kind == 1 then 3 else 0
    case RamReset => if entry == 0x0f then 0 else 2
  }

  function U16(image: seq<Byte>, offset: nat): nat
    requires offset + 2 <= |image|
  {
    (image[offset] as int) + 0x100 * (image[offset + 1] as int)
  }

  function Entry(t: Format, image: seq<Byte>, offset: nat): nat
    requires offset + Width(t) <= |image|
  {
    if t.Mmio? then U16(image, offset) else image[offset]
  }

  datatype Walked = Accepted(count: nat, end: nat) | Refused

  /** The walk from `offset`: the number of commands and the offset behind the terminator,
      or a refusal because the image ends too soon. */
  function Walk(t: Format, image: seq<Byte>, offset: nat): Walked
    decreases |image| - offset
  {
    if offset + Width(t) > |image| then Refused
    else
      var entry := Entry(t, image, offset);
      if entry == Terminator(t) then Accepted(0, offset + Width(t))
      else
        var next := offset + Width(t) + Payload(t, entry);
        if next > |image| then Refused
        else match Walk(t, image, next)
          case Refused => Refused
          case Accepted(count, end) => Accepted(count + 1, end)
  }

  // ---- the two validators as loops ----

  method ValidateMmio(image: seq<Byte>, start: nat) returns (r: Walked)
    ensures r == Walk(Mmio, image, start)
  {
    var offset, commands := start, 0;
    while true
      invariant start <= offset && Ahead(Walk(Mmio, image, offset), commands) == Walk(Mmio, image, start)
      decreases |image| - offset
    {
      if offset + 2 > |image| { return Refused; }
      var entry := U16(image, offset);
      if entry == 0 { return Accepted(commands, offset + 2); }
      offset := offset + 2;
      var payload := [4, 4, 8, 8, 2, 2, 0, 0][entry / 0x2000];
      if offset + payload > |image| { return Refused; }
      offset := offset + payload;
      commands := commands + 1;
    }
  }

  method ValidatePll(image: seq<Byte>, start: nat) returns (r: Walked)
    ensures r == Walk(Pll, image, start)
  {
    var offset, commands := start, 0;
    while true
      invariant start <= offset && Ahead(Walk(Pll, image, offset), commands) == Walk(Pll, image, start)
      decreases |image| - offset
    {
      if offset >= |image| { return Refused; }
      var entry := image[offset];
      if entry == 0 { return Accepted(commands, offset + 1); }
      offset := offset + 1;
      var payload := [4, 3, 0, 0][entry / 0x40];
      if offset + payload > |image| { return Refused; }
      offset := offset + payload;
      commands := commands + 1;
    }
  }

  /** A walk seen from `n` commands earlier. */
  function Ahead(w: Walked, n: nat): Walked {
    match w
    case Refused => Refused
    case Accepted(count, end) => Accepted(count + n, end)
  }

  // ---- the encoder ----

  datatype Command = Command(entry: nat, payload: seq<Byte>)

  predicate WellFormed(t: Format, c: Command) {
    c.entry != Terminator(t) && c.entry < (if t.Mmio? then 0x10000 else 0x100) && |c.payload| == Payload(t, c.entry)
  }

  ghost predicate AllWellFormed(t: Format, cs: seq<Command>) {
    forall i | 0 <= i < |cs| :: WellFormed(t, cs[i])
  }

  function EncodeEntry(t: Format, entry: nat): (bytes: seq<Byte>)
    requires entry < if t.Mmio? then 0x10000 else 0x100
    ensures |bytes| == Width(t) && Entry(t, bytes, 0) == entry
  {
    if t.Mmio? then [entry % 0x100, entry / 0x100] else [entry]
  }

  function Encode(t: Format, cs: seq<Command>): seq<Byte>
    requires AllWellFormed(t, cs)
  {
    if cs == [] then EncodeEntry(t, Terminator(t))
    else
      assert WellFormed(t, cs[0]);
      EncodeEntry(t, cs[0].entry) + cs[0].payload + Encode(t, cs[1..])
  }

  /** The commands of an accepted table. */
  function Decode(t: Format, image: seq<Byte>, offset: nat): (cs: seq<Command>)
    requires Walk(t, image, offset).Accepted?
    decreases |image| - offset
  {
    var entry := Entry(t, image, offset);
    if entry == Terminator(t) then []
    else
      var next := offset + Width(t) + Payload(t, entry);
      [Command(entry, image[offset + Width(t)..next])] + Decode(t, image, next)
  }

  /** The bytes of `table` stand at `offset`. */
  predicate Holds(image: seq<Byte>, offset: nat, table: seq<Byte>) {
    offset + |table| <= |image| && image[offset..offset + |table|] == table
  }

  lemma HoldsParts(image: seq<Byte>, offset: nat, a: seq<Byte>, b: seq<Byte>)
    ensures Holds(image, offset, a + b) <==> Holds(image, offset, a) && Holds(image, offset + |a|, b)
  {
    if Holds(image, offset, a + b) {
      assert image[offset..offset + |a|] == image[offset..offset + |a + b|][..|a|];
      assert image[offset + |a|..offset + |a| + |b|] == image[offset..offset + |a + b|][|a|..];
    }
    if Holds(image, offset, a) && Holds(image, offset + |a|, b) {
      assert image[offset..offset + |a + b|] == image[offset..offset + |a|] + image[offset + |a|..offset + |a| + |b|];
    }
  }

  lemma EntryHolds(t: Format, image: seq<Byte>, offset: nat, entry: nat)
    requires entry < if t.Mmio? then 0x10000 else 0x100
    requires offset + Width(t) <= |image|
    ensures Holds(image, offset, EncodeEntry(t, entry)) <==> Entry(t, image, offset) == entry
  {
    var bytes := EncodeEntry(t, entry);
    assert image[offset..offset + Width(t)] == if t.Mmio? then [image[offset], image[offset + 1]] else [image[offset]];
  }

  /** The encoding of one command and a rest, where it stands. */
  lemma HoldsCommand(t: Format, image: seq<Byte>, offset: nat, c: Command, rest: seq<Byte>)
    requires WellFormed(t, c)
    ensures var next := offset + Width(t) + Payload(t, c.entry);
            Holds(image, offset, EncodeEntry(t, c.entry) + c.payload + rest) <==>
              && next <= |image| && Entry(t, image, offset) == c.entry
              && image[offset + Width(t)..next] == c.payload && Holds(image, next, rest)
  {
    HoldsParts(image, offset, EncodeEntry(t, c.entry) + c.payload, rest);
    HoldsParts(image, offset, EncodeEntry(t, c.entry), c.payload);
    if offset + Width(t) <= |image| { EntryHolds(t, image, offset, c.entry); }
  }

  /** Accepted bytes are exactly the encoding of the commands read from them. */
  lemma {:induction false} DecodeInverts(t: Format, image: seq<Byte>, offset: nat)
    requires Walk(t, image, offset).Accepted?
    ensures var cs, w := Decode(t, image, offset), Walk(t, image, offset);
            && AllWellFormed(t, cs) && |cs| == w.count
            && Holds(image, offset, Encode(t, cs)) && w.end == offset + |Encode(t, cs)|
    decreases |image| - offset
  {
    var entry := Entry(t, image, offset);
    if entry == Terminator(t) {
      EntryHolds(t, image, offset, entry);
    } else {
      var next := offset + Width(t) + Payload(t, entry);
      DecodeInverts(t, image, next);
      var cs := Decode(t, image, offset);
      assert cs[1..] == Decode(t, image, next);
      HoldsCommand(t, image, offset, cs[0], Encode(t, cs[1..]));
    }
  }

  lemma WalkOne(t: Format, image: seq<Byte>, offset: nat, c: Command)
    requires WellFormed(t, c) && offset + Width(t) <= |image| && Entry(t, image, offset) == c.entry
    requires var next := offset + Width(t) + Payload(t, c.entry);
             next <= |image| && image[offset + Width(t)..next] == c.payload && Walk(t, image, next).Accepted?
    ensures var w := Walk(t, image, offset + Width(t) + Payload(t, c.entry));
            Walk(t, image, offset) == Accepted(w.count + 1, w.end)
    ensures Decode(t, image, offset) == [c] + Decode(t, image, offset + Width(t) + Payload(t, c.entry))
  {
  }

  /** The walk inverts the encoder wherever the encoding stands, whatever surrounds it. */
  lemma {:induction false} EncodingIsAccepted(t: Format, image: seq<Byte>, offset: nat, cs: seq<Command>)
    requires AllWellFormed(t, cs) && Holds(image, offset, Encode(t, cs))
    ensures Walk(t, image, offset) == Accepted(|cs|, offset + |Encode(t, cs)|)
    ensures Decode(t, image, offset) == cs
    decreases |cs|
  {
    if cs == [] {
      EntryHolds(t, image, offset, Terminator(t));
    } else {
      assert WellFormed(t, cs[0]);
      HoldsCommand(t, image, offset, cs[0], Encode(t, cs[1..]));
      EncodingIsAccepted(t, image, offset + Width(t) + Payload(t, cs[0].entry), cs[1..]);
      WalkOne(t, image, offset, cs[0]);
      assert cs == [cs[0]] + cs[1..];
    }
  }

  // ---- what follows ----

  /** A walk accepts a place in an image exactly if some table is encoded there. */
  lemma AcceptsExactlyTheEncodings(t: Format, image: seq<Byte>, offset: nat, count: nat, end: nat)
    ensures Walk(t, image, offset) == Accepted(count, end) <==>
            exists cs ::
              && AllWellFormed(t, cs) && |cs| == count
              && end == offset + |Encode(t, cs)| && Holds(image, offset, Encode(t, cs))
  {
    if Walk(t, image, offset).Accepted? { DecodeInverts(t, image, offset); }
    forall cs | AllWellFormed(t, cs) && Holds(image, offset, Encode(t, cs))
      ensures Walk(t, image, offset) == Accepted(|cs|, offset + |Encode(t, cs)|)
    {
      EncodingIsAccepted(t, image, offset, cs);
    }
  }

  /** No table is encoded by a prefix of another table's encoding. */
  lemma EncodingIsPrefixFree(t: Format, a: seq<Command>, b: seq<Command>)
    requires AllWellFormed(t, a) && AllWellFormed(t, b) && Encode(t, a) <= Encode(t, b)
    ensures a == b
  {
    EncodingIsAccepted(t, Encode(t, b), 0, a);
    EncodingIsAccepted(t, Encode(t, b), 0, b);
  }

  /** The result depends on the walked bytes alone. */
  lemma WalkIsLocal(t: Format, image: seq<Byte>, other: seq<Byte>, offset: nat)
    requires Walk(t, image, offset).Accepted?
    requires var end := Walk(t, image, offset).end;
             end <= |other| && forall i | offset <= i < end && i < |image| :: other[i] == image[i]
    ensures Walk(t, other, offset) == Walk(t, image, offset)
    ensures Decode(t, other, offset) == Decode(t, image, offset)
  {
    DecodeInverts(t, image, offset);
    var cs := Decode(t, image, offset);
    assert Holds(other, offset, Encode(t, cs)) by {
      assert other[offset..offset + |Encode(t, cs)|] == image[offset..offset + |Encode(t, cs)|];
    }
    EncodingIsAccepted(t, other, offset, cs);
  }

  /** Cutting an image keeps exactly the walks that end inside the cut, with their result. */
  lemma WalkUnderTruncation(t: Format, image: seq<Byte>, size: nat, offset: nat)
    requires size <= |image|
    ensures var full, cut := Walk(t, image, offset), Walk(t, image[..size], offset);
            && (cut.Accepted? <==> full.Accepted? && full.end <= size)
            && (cut.Accepted? ==> cut == full && Decode(t, image[..size], offset) == Decode(t, image, offset))
  {
    var cut := image[..size];
    if Walk(t, cut, offset).Accepted? {
      DecodeInverts(t, cut, offset);
      WalkIsLocal(t, cut, image, offset);
    } else if Walk(t, image, offset).Accepted? && Walk(t, image, offset).end <= size {
      WalkIsLocal(t, image, cut, offset);
    }
  }

  /** An accepted table of `count` commands fills at least its entries and terminator, and
      ends inside the image. */
  lemma {:induction false} CountIsBounded(t: Format, image: seq<Byte>, offset: nat)
    requires Walk(t, image, offset).Accepted?
    ensures var w := Walk(t, image, offset); Width(t) * (w.count + 1) <= w.end - offset && w.end <= |image|
    decreases |image| - offset
  {
    var entry := Entry(t, image, offset);
    if entry == Terminator(t) {
    } else {
      CountIsBounded(t, image, offset + Width(t) + Payload(t, entry));
    }
  }
}
