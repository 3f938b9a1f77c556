/** The TCL-bypass vertex-width decision: whether the vertex elements a command stream
    declares deliver as many dwords as its output format requires.

    The decision walks at most 16 packed element halves and remembers their destinations in
    a 32-bit mask. It is compared here with what it means on the list of decoded elements. */
module TclBypassVtx {
  import opened BitMasks

  /** Registers are 32-bit words; their fields are read off by division and remainder. */
  type Word = x: int | 0 <= x < 0x1_0000_0000

  const IDENTITY_HALF: nat := 0xF688
  const XY01_HALF: nat := 0xFB08
  const FLOAT_2: nat := 1
  const FLOAT_4: nat := 3
  const ELEMENTS: nat := 16

  datatype Inputs = Inputs(
    tclBypassSeen: bool, fmt0Seen: bool, fmt1Seen: bool, vtxSizeSeen: bool,
    pscCntlSeen: nat, pscExtSeen: nat, primWalk: nat,
    fmt0: Word, fmt1: Word, vtxSize: nat, pscCntl: seq<Word>, pscExt: seq<Word>)

  predicate WellFormed(i: Inputs) {
    |i.pscCntl| == 8 && |i.pscExt| == 8
  }

  datatype Reason =
    | None | PinMissing | PrimWalkImmediate | PositionAbsent | Fmt0BeyondModeled | Fmt1Undecoded
    | ComponentAbove4 | PscWordUnwritten | SkipDwords | SelectorUnmodeled | DstVecDuplicate
    | NoLastVec | WidthUnknowable | FetchOverfeed

  datatype Verdict = Decline | Pass | Reject

  /** The widths are reported once the decision has reached its comparison. */
  datatype Widths = Unset | Widths(required: nat, fetch: nat)
  datatype Decision = Decision(verdict: Verdict, why: Reason, widths: Widths)

  // ---- decoding ----

  /** The 3-bit count of texture coordinate `k`. */
  function Component(fmt1: nat, k: nat): nat {
    if k == 0 then fmt1 % 8 else Component(fmt1 / 8, k - 1)
  }

  datatype Selector = Identity | Xy01 | Unmodeled

  datatype Element = Element(written: bool, dataType: nat, skips: bool, dst: nat, selector: Selector, last: bool)

  function Half(word: Word, odd: bool): nat {
    if odd then word / 0x10000 else word % 0x10000
  }

  function SelectorOf(half: nat): Selector {
    if half == IDENTITY_HALF then Identity else if half == XY01_HALF then Xy01 else Unmodeled
  }

  function Decode(cntl: nat, ext: nat, written: bool): Element {
    Element(written, cntl % 0x10, cntl / 0x10 % 0x10 != 0, cntl / 0x100 % 0x20, SelectorOf(ext), cntl / 0x2000 % 2 == 1)
  }

  function At(i: Inputs, e: nat): (x: Element)
    requires WellFormed(i) && e < ELEMENTS
    ensures x.dst < 32
  {
    Decode(Half(i.pscCntl[e / 2], e % 2 == 1), Half(i.pscExt[e / 2], e % 2 == 1),
           Bit(i.pscCntlSeen, e / 2) && Bit(i.pscExtSeen, e / 2))
  }

  /** The sixteen element halves. */
  function Elements(i: Inputs): (es: seq<Element>)
    requires WellFormed(i)
    ensures |es| == ELEMENTS && forall e | 0 <= e < ELEMENTS :: es[e] == At(i, e)
  {
    seq(ELEMENTS, e requires 0 <= e < ELEMENTS => At(i, e))
  }

  // ---- what the element list means ----

  /** An element whose fetch and delivery the decision knows how to count, or whose plain
      fetch it may leave uncounted. */
  predicate Modeled(x: Element) {
    x.selector.Identity? || (x.selector.Xy01? && x.dataType == FLOAT_2)
  }

  predicate Good(x: Element) {
    x.written && !x.skips && Modeled(x)
  }

  predicate WidthKnown(x: Element) {
    x.selector.Xy01? || x.dataType <= FLOAT_4
  }

  function FetchOf(x: Element): nat {
    if x.selector.Xy01? then 2 else if x.dataType <= FLOAT_4 then x.dataType + 1 else 0
  }

  function DeliveryOf(x: Element): nat {
    if x.selector.Xy01? then 4 else FetchOf(x)
  }

  /** The elements up to and including the first one marked last; all of them if none is. */
  function List(es: seq<Element>): (l: seq<Element>)
    ensures |l| <= |es| && l == es[..|l|]
    ensures forall k | 0 <= k < |l| - 1 :: !l[k].last
  {
    if es == [] then [] else if es[0].last then [es[0]] else [es[0]] + List(es[1..])
  }

  /** The list is closed, all its elements are understood, and no two share a destination. */
  ghost predicate ListOk(l: seq<Element>) {
    && l != [] && l[|l| - 1].last
    && (forall e | 0 <= e < |l| :: Good(l[e]))
    && (forall d, e | 0 <= d < e < |l| :: l[d].dst != l[e].dst)
  }

  ghost predicate AllIdentity(l: seq<Element>) {
    forall e | 0 <= e < |l| :: l[e].selector.Identity?
  }

  ghost predicate AllKnown(l: seq<Element>) {
    forall e | 0 <= e < |l| :: WidthKnown(l[e])
  }

  function Fetch(l: seq<Element>): nat {
    if l == [] then 0 else FetchOf(l[0]) + Fetch(l[1..])
  }

  function Delivery(l: seq<Element>): nat {
    if l == [] then 0 else DeliveryOf(l[0]) + Delivery(l[1..])
  }

  function TexDwords(fmt1: nat, n: nat): nat
    requires n <= 8
  {
    if n == 0 then 0 else TexDwords(fmt1, n - 1) + Component(fmt1, n - 1)
  }

  predicate HasColor(i: Inputs) {
    i.fmt0 / 2 % 2 == 1
  }

  /** The dwords the output format needs; `color` is what COLOR_0 is taken to add. */
  function Required(i: Inputs, color: nat): nat {
    4 + (if HasColor(i) then color else 0) + TexDwords(i.fmt1, 8)
  }

  function Premise(i: Inputs): Reason {
    if !i.tclBypassSeen || !i.fmt0Seen || !i.fmt1Seen || !i.vtxSizeSeen then PinMissing
    else if i.primWalk == 3 then PrimWalkImmediate
    else if i.fmt0 % 2 == 0 then PositionAbsent
    else if i.fmt0 / 4 != 0 then Fmt0BeyondModeled
    else if i.fmt1 / 0x1000000 != 0 then Fmt1Undecoded
    else None
  }

  ghost predicate ComponentsOk(i: Inputs) {
    forall k | 0 <= k < 8 :: Component(i.fmt1, k) <= 4
  }

  /** What has to hold before any width is compared. */
  ghost predicate InScope(i: Inputs)
    requires WellFormed(i)
  {
    var l := List(Elements(i));
    Premise(i) == None && ComponentsOk(i) && ListOk(l) && (AllIdentity(l) || AllKnown(l))
  }

  // ---- the scan over the elements ----

  datatype Scanned = Scanned(why: Reason, fetch: nat, delivered: nat, identity: bool, known: bool)

  function Ahead(x: Scanned, s: Scanned): Scanned {
    if s.why != None then s
    else Scanned(None, x.fetch + s.fetch, x.delivered + s.delivered, x.identity && s.identity, x.known && s.known)
  }

  function Step(x: Element): Scanned {
    Scanned(None, FetchOf(x), DeliveryOf(x), x.selector.Identity?, WidthKnown(x))
  }

  function Refused(why: Reason): Scanned {
    Scanned(why, 0, 0, true, true)
  }

  predicate Taken(es: seq<Element>, e: nat, d: nat)
    requires e <= |es|
  {
    exists k | 0 <= k < e :: es[k].dst == d
  }

  /** The scan from element `e`, behind elements that have taken their destinations. */
  function Scan(es: seq<Element>, e: nat): Scanned
    requires e <= |es|
    decreases |es| - e
  {
    if e == |es| then Refused(NoLastVec)
    else
      var x := es[e];
      if !x.written then Refused(PscWordUnwritten)
      else if x.skips then Refused(SkipDwords)
      else if Taken(es, e, x.dst) then Refused(DstVecDuplicate)
      else if !Modeled(x) then Refused(SelectorUnmodeled)
      else if x.last then Step(x)
      else Ahead(Step(x), Scan(es, e + 1))
  }

  ghost function Decide(i: Inputs, color: nat): Decision
    requires WellFormed(i)
  {
    if Premise(i) != None then Decision(Decline, Premise(i), Unset)
    else if !ComponentsOk(i) then Decision(Decline, ComponentAbove4, Unset)
    else Compare(Scan(Elements(i), 0), i.vtxSize, Required(i, color))
  }

  function Compare(s: Scanned, vtxSize: nat, required: nat): Decision {
    if s.why != None then Decision(Decline, s.why, Unset)
    else if s.identity then Decision(if vtxSize < required then Reject else Pass, None, Widths(required, vtxSize))
    else if !s.known then Decision(Decline, WidthUnknowable, Unset)
    else if vtxSize > s.fetch then Decision(Decline, FetchOverfeed, Widths(required, s.fetch))
    else Decision(if vtxSize < s.fetch || s.delivered < required then Reject else Pass, None, Widths(required, s.fetch))
  }

  // ---- the decision as the kernel computes it ----

  /** The mask has bit `d` set for exactly the destinations `d` of the first `e` elements. */
  ghost predicate MaskOf(mask: nat, es: seq<Element>, e: nat)
    requires e <= |es|
  {
    forall d: nat :: Bit(mask, d) <==> Taken(es, e, d)
  }

  lemma MaskGrows(mask: nat, es: seq<Element>, e: nat)
    requires e < |es| && MaskOf(mask, es, e) && !Bit(mask, es[e].dst)
    ensures MaskOf(WithBit(mask, es[e].dst), es, e + 1)
  {
    var grown := WithBit(mask, es[e].dst);
    forall d: nat ensures Bit(grown, d) <==> Taken(es, e + 1, d) {
      WithBitSets(mask, es[e].dst, d);
      assert Taken(es, e + 1, d) <==> Taken(es, e, d) || es[e].dst == d;
    }
  }

  /** The required width, or a component count above four. */
  method RequiredWidth(i: Inputs, color: nat) returns (ok: bool, required: nat)
    ensures ok <==> ComponentsOk(i)
    ensures ok ==> required == Required(i, color)
  {
    required := 4;
    if HasColor(i) { required := required + color; }
    ghost var base := required;
    for k := 0 to 8
      invariant required == base + TexDwords(i.fmt1, k)
      invariant forall j | 0 <= j < k :: Component(i.fmt1, j) <= 4
    {
      var count := Component(i.fmt1, k);
      if count > 4 { return false, 0; }
      required := required + count;
    }
    ok := true;
  }

  /** The walk has passed the first `e` elements and has gathered `acc` from them. */
  ghost predicate Gathered(es: seq<Element>, e: nat, acc: Scanned)
    requires e <= |es|
  {
    acc.why == None && Scan(es, 0) == Ahead(acc, Scan(es, e))
  }

  lemma GatherOne(es: seq<Element>, e: nat, acc: Scanned)
    requires e < |es| && Gathered(es, e, acc)
    requires Good(es[e]) && !Taken(es, e, es[e].dst)
    ensures if es[e].last then Scan(es, 0) == Ahead(acc, Step(es[e])) else Gathered(es, e + 1, Ahead(acc, Step(es[e])))
  {
  }

  /** The walk over the element halves, with the destinations in a bit mask. */
  method Walk(i: Inputs) returns (s: Scanned)
    requires WellFormed(i)
    ensures s == Scan(Elements(i), 0)
  {
    ghost var es := Elements(i);
    var fetch: nat, delivered: nat, identityOnly, widthsKnown := 0, 0, true, true;
    var dstVecMask: nat := 0;
    forall d: nat ensures !Bit(0, d) { NoBits(d); }
    for e := 0 to ELEMENTS
      invariant MaskOf(dstVecMask, es, e)
      invariant Gathered(es, e, Scanned(None, fetch, delivered, identityOnly, widthsKnown))
    {
      var x := At(i, e);
      assert es[e] == x;
      if !x.written { return Refused(PscWordUnwritten); }
      if x.skips { return Refused(SkipDwords); }
      if Bit(dstVecMask, x.dst) { return Refused(DstVecDuplicate); }
      MaskGrows(dstVecMask, es, e);
      dstVecMask := WithBit(dstVecMask, x.dst);
      ghost var acc := Scanned(None, fetch, delivered, identityOnly, widthsKnown);
      if x.selector.Identity? {
        if x.dataType <= FLOAT_4 {
          fetch := fetch + x.dataType + 1;
          delivered := delivered + x.dataType + 1;
        } else {
          widthsKnown := false;
        }
      } else if x.selector.Xy01? && x.dataType == FLOAT_2 {
        identityOnly := false;
        fetch := fetch + 2;
        delivered := delivered + 4;
      } else {
        return Refused(SelectorUnmodeled);
      }
      GatherOne(es, e, acc);
      assert Ahead(acc, Step(x)) == Scanned(None, fetch, delivered, identityOnly, widthsKnown);
      if x.last { return Scanned(None, fetch, delivered, identityOnly, widthsKnown); }
    }
    s := Refused(NoLastVec);
  }

  /** `color` is 4 in the kernel; the shape that misses COLOR_0's width has 0. */
  method Check(i: Inputs, color: nat) returns (r: Decision)
    requires WellFormed(i)
    ensures r == Decide(i, color)
  {
    var why := Premise(i);
    if why != None { return Decision(Decline, why, Unset); }
    var ok, required := RequiredWidth(i, color);
    if !ok { return Decision(Decline, ComponentAbove4, Unset); }
    var s := Walk(i);
    if s.why != None { return Decision(Decline, s.why, Unset); }
    if !s.identity && !s.known { return Decision(Decline, WidthUnknowable, Unset); }
    var delivered, fetch := s.delivered, s.fetch;
    if s.identity { delivered, fetch := i.vtxSize, i.vtxSize; }
    if !s.identity {
      if i.vtxSize < fetch { return Decision(Reject, None, Widths(required, fetch)); }
      if i.vtxSize != fetch { return Decision(Decline, FetchOverfeed, Widths(required, fetch)); }
    }
    r := Decision(if delivered < required then Reject else Pass, None, Widths(required, fetch));
  }

  // ---- the scan is the list ----

  /** The rest of the list from `e`, beside the destinations taken before. */
  ghost predicate SuffixOk(es: seq<Element>, e: nat)
    requires e <= |es|
  {
    var l := List(es[e..]);
    && l != [] && l[|l| - 1].last
    && (forall k | 0 <= k < |l| :: Good(l[k]) && !Taken(es, e + k, l[k].dst))
  }

  lemma SuffixStep(es: seq<Element>, e: nat)
    requires e < |es| && !es[e].last
    ensures List(es[e..]) == [es[e]] + List(es[e + 1..])
    ensures SuffixOk(es, e) <==> Good(es[e]) && !Taken(es, e, es[e].dst) && SuffixOk(es, e + 1)
  {
    assert es[e..][1..] == es[e + 1..];
    var l, m := List(es[e..]), List(es[e + 1..]);
    if SuffixOk(es, e) {
      assert forall k | 0 <= k < |m| :: m[k] == l[k + 1];
    }
    if Good(es[e]) && !Taken(es, e, es[e].dst) && SuffixOk(es, e + 1) {
      forall k | 0 <= k < |l| ensures Good(l[k]) && !Taken(es, e + k, l[k].dst) {
        if k > 0 { assert l[k] == m[k - 1] && Good(m[k - 1]) && !Taken(es, e + 1 + (k - 1), m[k - 1].dst); }
      }
    }
  }

  /** What an accepted scan has to report about a list. */
  ghost predicate Summary(s: Scanned, l: seq<Element>) {
    s.fetch == Fetch(l) && s.delivered == Delivery(l) && (s.identity <==> AllIdentity(l)) && (s.known <==> AllKnown(l))
  }

  lemma SummaryStep(x: Element, s: Scanned, l: seq<Element>)
    requires Summary(s, l) && s.why == None
    ensures Summary(Ahead(Step(x), s), [x] + l)
  {
    assert ([x] + l)[1..] == l;
    assert forall k | 0 <= k < |l| :: ([x] + l)[k + 1] == l[k];
  }

  lemma {:induction false} ScanIsList(es: seq<Element>, e: nat)
    requires e <= |es|
    ensures Scan(es, e).why == None <==> SuffixOk(es, e)
    ensures SuffixOk(es, e) ==> Summary(Scan(es, e), List(es[e..]))
    decreases |es| - e
  {
    if e == |es| {
    } else {
      if es[e].last {
        assert List(es[e..]) == [es[e]];
        SummaryStep(es[e], Scanned(None, 0, 0, true, true), []);
        assert [es[e]] + [] == [es[e]];
        if SuffixOk(es, e) { assert Good(List(es[e..])[0]) && !Taken(es, e + 0, List(es[e..])[0].dst); }
      } else {
        SuffixStep(es, e);
        ScanIsList(es, e + 1);
        if SuffixOk(es, e) { SummaryStep(es[e], Scan(es, e + 1), List(es[e + 1..])); }
      }
    }
  }

  /** The mask's verdict is pairwise distinctness of the destinations. */
  lemma SuffixIsListOk(es: seq<Element>)
    ensures SuffixOk(es, 0) <==> ListOk(List(es))
  {
    assert es[0..] == es;
    var l := List(es);
    assert l == es[..|l|];
    if ListOk(l) {
      forall k | 0 <= k < |l| ensures !Taken(es, 0 + k, l[k].dst) {
        assert forall j | 0 <= j < k :: es[j] == l[j];
      }
    }
    if SuffixOk(es, 0) {
      forall d, e | 0 <= d < e < |l| ensures l[d].dst != l[e].dst {
        assert !Taken(es, 0 + e, l[e].dst) && es[d] == l[d];
      }
    }
  }

  /** An element list delivers at least what it fetches. */
  lemma {:induction false} DeliveryCoversFetch(l: seq<Element>)
    requires forall e | 0 <= e < |l| :: Good(l[e])
    ensures Delivery(l) >= Fetch(l)
  {
    if l == [] {
    } else {
      DeliveryCoversFetch(l[1..]);
    }
  }

  /** The delivered width of a stream, and what it fetches. */
  ghost function DeliveredWidth(i: Inputs): nat
    requires WellFormed(i)
  {
    var l := List(Elements(i));
    if AllIdentity(l) then i.vtxSize else Delivery(l)
  }

  ghost function FetchWidth(i: Inputs): nat
    requires WellFormed(i)
  {
    var l := List(Elements(i));
    if AllIdentity(l) then i.vtxSize else Fetch(l)
  }

  /** The verdict, stated on the decoded list: it passes exactly the streams in scope that
      feed what the list fetches and deliver what the format requires, and rejects exactly
      those in scope that fall short of either. A reason is given exactly for a decline. */
  lemma VerdictMeaning(i: Inputs, color: nat)
    requires WellFormed(i)
    ensures var d := Decide(i, color);
            && (d.verdict == Pass <==>
                  InScope(i) && i.vtxSize == FetchWidth(i) && DeliveredWidth(i) >= Required(i, color))
            && (d.verdict == Reject <==>
                  InScope(i) && (i.vtxSize < FetchWidth(i) ||
                    (i.vtxSize == FetchWidth(i) && DeliveredWidth(i) < Required(i, color))))
            && (d.verdict == Decline <==> d.why != None)
            && (d.verdict != Decline ==> d.widths == Widths(Required(i, color), FetchWidth(i)))
  {
    ScanMeaning(Elements(i));
    if ListOk(List(Elements(i))) { DeliveryCoversFetch(List(Elements(i))); }
  }

  /** The scan accepts exactly the lists that are understood, and sums them up. */
  lemma ScanMeaning(es: seq<Element>)
    ensures Scan(es, 0).why == None <==> ListOk(List(es))
    ensures ListOk(List(es)) ==> Summary(Scan(es, 0), List(es))
  {
    ScanIsList(es, 0);
    SuffixIsListOk(es);
    assert es[0..] == es;
  }

  lemma RestOfList(es: seq<Element>, other: seq<Element>, e: nat)
    requires |es| == |other| && e < |es| && !es[e].last && List(es[e..]) <= other[e..]
    ensures List(es[e + 1..]) <= other[e + 1..]
  {
    SuffixStep(es, e);
    var l, m, rest := List(es[e..]), List(es[e + 1..]), other[e..];
    assert m == l[1..] && rest[1..] == other[e + 1..];
    assert forall k | 0 <= k < |m| :: m[k] == l[k + 1] && l[k + 1] == rest[k + 1];
  }

  lemma {:induction false} ScanIsLocal(es: seq<Element>, other: seq<Element>, e: nat)
    requires |es| == |other| && e <= |es| && es[..e] == other[..e]
    requires List(es[e..]) <= other[e..]
    ensures Scan(other, e) == Scan(es, e)
    decreases |es| - e
  {
    if e == |es| {
    } else {
      var l, rest := List(es[e..]), other[e..];
      assert l[0] == rest[0] && es[e] == other[e];
      assert forall d :: Taken(es, e, d) <==> Taken(other, e, d) by {
        assert forall k | 0 <= k < e :: es[k] == es[..e][k] && other[k] == other[..e][k];
      }
      if !es[e].last {
        RestOfList(es, other, e);
        assert es[..e + 1] == es[..e] + [es[e]] && other[..e + 1] == other[..e] + [other[e]];
        ScanIsLocal(es, other, e + 1);
      }
    }
  }

  lemma SameFormat(i: Inputs, other: Inputs, color: nat)
    requires other == i.(pscCntl := other.pscCntl, pscExt := other.pscExt,
                         pscCntlSeen := other.pscCntlSeen, pscExtSeen := other.pscExtSeen)
    ensures Premise(other) == Premise(i) && (ComponentsOk(other) <==> ComponentsOk(i)) &&
            Required(other, color) == Required(i, color)
  {
  }

  /** Nothing behind the last element matters: neither the words there nor whether they were
      written. */
  lemma TailIsIrrelevant(i: Inputs, other: Inputs, color: nat)
    requires WellFormed(i) && WellFormed(other)
    requires other == i.(pscCntl := other.pscCntl, pscExt := other.pscExt,
                         pscCntlSeen := other.pscCntlSeen, pscExtSeen := other.pscExtSeen)
    requires List(Elements(i)) <= Elements(other)
    ensures Decide(other, color) == Decide(i, color)
  {
    SameFormat(i, other, color);
    var es, os := Elements(i), Elements(other);
    assert es[0..] == es && os[0..] == os;
    ScanIsLocal(es, os, 0);
  }

  // ---- what the registers say ----

  /** An element half is made of a data type in bits 0 to 3, a skip in bits 4 to 7, a destination
      in bits 8 to 12 and the last mark in bit 13; bits 14 and 15 are ignored. The selector half
      is identity as 0xf688, XY01 as 0xfb08, and otherwise not modeled. */
  lemma DecodesElement(dataType: nat, skip: nat, dst: nat, last: bool, spare: nat, half: nat, written: bool)
    requires dataType < 16 && skip < 16 && dst < 32 && spare < 4
    ensures var cntl := dataType + 0x10 * skip + 0x100 * dst + (if last then 0x2000 else 0) + 0x4000 * spare;
            Decode(cntl, half, written) ==
              Element(written, dataType, skip != 0, dst,
                      if half == 0xf688 then Identity else if half == 0xfb08 then Xy01 else Unmodeled, last)
  {
    var mark := if last then 1 else 0;
    var cntl := dataType + 0x10 * skip + 0x100 * dst + 0x2000 * mark + 0x4000 * spare;
    assert cntl / 0x10 == skip + 0x10 * dst + 0x200 * mark + 0x400 * spare;
    assert cntl / 0x100 == dst + 0x20 * (mark + 2 * spare) && cntl / 0x2000 == mark + 2 * spare;
  }

  /** Eight words hold sixteen elements, the even one of each pair in the low half; an element is
      written if both of its words are. */
  lemma DecodesWords(i: Inputs, k: nat, low: nat, high: nat, extLow: nat, extHigh: nat)
    requires |i.pscCntl| == 8 && |i.pscExt| == 8 && k < 8
    requires low < 0x10000 && high < 0x10000 && extLow < 0x10000 && extHigh < 0x10000
    requires i.pscCntl[k] == low + 0x10000 * high && i.pscExt[k] == extLow + 0x10000 * extHigh
    ensures WellFormed(i) && |Elements(i)| == 16
    ensures Elements(i)[2 * k] == Decode(low, extLow, Bit(i.pscCntlSeen, k) && Bit(i.pscExtSeen, k))
    ensures Elements(i)[2 * k + 1] == Decode(high, extHigh, Bit(i.pscCntlSeen, k) && Bit(i.pscExtSeen, k))
  {
    var e, o := 2 * k, 2 * k + 1;
    assert e / 2 == k && e % 2 == 0 && o / 2 == k && o % 2 == 1;
    Halves(i.pscCntl[k], low, high);
    Halves(i.pscExt[k], extLow, extHigh);
    assert Elements(i)[e] == At(i, e) && Elements(i)[o] == At(i, o);
  }

  lemma Halves(word: Word, low: nat, high: nat)
    requires low < 0x10000 && high < 0x10000 && word == low + 0x10000 * high
    ensures Half(word, false) == low && Half(word, true) == high
  {
  }

  /** The word of eight texture coordinate counts. */
  function CountsWord(counts: seq<nat>): nat {
    if counts == [] then 0 else counts[0] + 8 * CountsWord(counts[1..])
  }

  lemma {:induction false} DecodesCounts(counts: seq<nat>, k: nat)
    requires k < |counts| && forall j | 0 <= j < |counts| :: counts[j] < 8
    ensures Component(CountsWord(counts), k) == counts[k]
    decreases k
  {
    var rest := CountsWord(counts[1..]);
    assert (counts[0] + 8 * rest) % 8 == counts[0] && (counts[0] + 8 * rest) / 8 == rest;
    if k == 0 {
    } else {
      DecodesCounts(counts[1..], k - 1);
    }
  }

  function Sum(counts: seq<nat>): nat {
    if counts == [] then 0 else Sum(counts[..|counts| - 1]) + counts[|counts| - 1]
  }

  lemma {:induction false} CountsAddUp(fmt1: nat, counts: seq<nat>, n: nat)
    requires n <= |counts| <= 8 && forall j | 0 <= j < n :: Component(fmt1, j) == counts[j]
    ensures TexDwords(fmt1, n) == Sum(counts[..n])
  {
    if n == 0 {
    } else {
      CountsAddUp(fmt1, counts, n - 1);
      assert counts[..n][..n - 1] == counts[..n - 1];
    }
  }

  /** The output format: bit 0 of its first word is the position, bit 1 the color, and any other
      bit is beyond the model; its second word holds eight counts in its low 24 bits. The
      decision declines for the first of the reasons that applies, in the order of the premises;
      what it then requires is four dwords, four more for a color, and the counts. */
  lemma FormatMeaning(i: Inputs, position: bool, color: bool, beyond: nat, counts: seq<nat>)
    requires |counts| == 8 && forall j | 0 <= j < 8 :: counts[j] < 8
    requires i.fmt0 == (if position then 1 else 0) + (if color then 2 else 0) + 4 * beyond
    requires CountsWord(counts) < 0x1000000 && i.fmt1 == CountsWord(counts)
    ensures Premise(i) ==
              if !(i.tclBypassSeen && i.fmt0Seen && i.fmt1Seen && i.vtxSizeSeen) then PinMissing
              else if i.primWalk == 3 then PrimWalkImmediate
              else if !position then PositionAbsent
              else if beyond > 0 then Fmt0BeyondModeled
              else None
    ensures HasColor(i) == color
    ensures ComponentsOk(i) <==> forall j | 0 <= j < 8 :: counts[j] <= 4
    ensures Required(i, 4) == 4 + (if color then 4 else 0) + Sum(counts)
  {
    CountsMeaning(i.fmt1, counts);
    assert HasColor(i) == color && i.fmt0 / 4 == beyond;
  }

  lemma CountsMeaning(fmt1: nat, counts: seq<nat>)
    requires |counts| == 8 && (forall j | 0 <= j < 8 :: counts[j] < 8) && fmt1 == CountsWord(counts)
    ensures forall j | 0 <= j < 8 :: Component(fmt1, j) == counts[j]
    ensures TexDwords(fmt1, 8) == Sum(counts)
  {
    forall j | 0 <= j < 8 ensures Component(fmt1, j) == counts[j] { DecodesCounts(counts, j); }
    CountsAddUp(fmt1, counts, 8);
    assert counts[..8] == counts;
  }

  /** A count beyond the eighth coordinate is not decoded. */
  lemma UpperBitsDecline(i: Inputs, low: nat, upper: nat)
    requires low < 0x1000000 && i.fmt1 == low + 0x1000000 * upper
    requires i.tclBypassSeen && i.fmt0Seen && i.fmt1Seen && i.vtxSizeSeen && i.primWalk != 3
    requires i.fmt0 == 1 || i.fmt0 == 3
    ensures Premise(i) == if upper > 0 then Fmt1Undecoded else None
  {
    assert i.fmt1 / 0x1000000 == upper;
  }

  /** The element widths: a plain float element of type 0 to 3 fetches and delivers one to four
      dwords; an XY01 element has type 1, fetches two and delivers four. */
  lemma WidthsMeaning(x: Element)
    ensures Good(x) <==> x.written && !x.skips && (x.selector.Identity? || (x.selector.Xy01? && x.dataType == 1))
    ensures Good(x) && x.selector.Xy01? ==> WidthKnown(x) && FetchOf(x) == 2 && DeliveryOf(x) == 4
    ensures Good(x) && x.selector.Identity? ==> (WidthKnown(x) <==> x.dataType <= 3)
    ensures Good(x) && x.selector.Identity? && x.dataType <= 3 ==>
              FetchOf(x) == x.dataType + 1 && DeliveryOf(x) == x.dataType + 1
  {
  }

  /** The inputs of a stream of two plain four-float elements. */
  function TwoElements(fmt0: Word, fmt1: Word, vtxSize: nat): Inputs {
    Inputs(true, true, true, true, 1, 1, 0, fmt0, fmt1, vtxSize,
           [0x2203_0003, 0, 0, 0, 0, 0, 0, 0], [0xf688_f688, 0, 0, 0, 0, 0, 0, 0])
  }

  lemma TwoElementsScan(i: Inputs)
    requires i == TwoElements(i.fmt0, i.fmt1, i.vtxSize)
    ensures WellFormed(i) && Scan(Elements(i), 0) == Scanned(None, 8, 8, true, true)
  {
    DecodesWords(i, 0, 3, 0x2203, 0xf688, 0xf688);
    DecodesElement(3, 0, 0, false, 0, 0xf688, true);
    DecodesElement(3, 0, 2, true, 0, 0xf688, true);
    var es := Elements(i);
    assert Bit(1, 0) && es[2 * 0] == Element(true, 3, false, 0, Identity, false);
    assert es[2 * 0 + 1] == Element(true, 3, false, 2, Identity, true);
    assert Scan(es, 1) == Step(es[1]) by { assert !Taken(es, 1, 2); }
    assert !Taken(es, 0, 0);
  }

  lemma TwoElementsVerdict(i: Inputs, color: bool, counts: seq<nat>, required: nat)
    requires i == TwoElements(i.fmt0, i.fmt1, i.vtxSize) && i.fmt0 == (if color then 3 else 1)
    requires |counts| == 8 && (forall j | 0 <= j < 8 :: counts[j] <= 4) && i.fmt1 == CountsWord(counts) < 0x1000000
    requires required == 4 + (if color then 4 else 0) + Sum(counts)
    ensures Decide(i, 4) == Decision(if i.vtxSize < required then Reject else Pass, None, Widths(required, i.vtxSize))
  {
    TwoElementsScan(i);
    FormatMeaning(i, true, color, 0, counts);
  }

  /** The two retained captures the decision is anchored on: position and color in eight dwords
      pass, and position with two four-count texture coordinates needs twelve and is rejected
      with eight, the shape that hung. */
  lemma RetainedCaptures()
    ensures Decide(TwoElements(3, 0, 8), 4) == Decision(Pass, None, Widths(8, 8))
    ensures Decide(TwoElements(1, 36, 12), 4) == Decision(Pass, None, Widths(12, 12))
    ensures Decide(TwoElements(1, 36, 8), 4) == Decision(Reject, None, Widths(12, 8))
  {
    var none := NoCounts();
    TwoElementsVerdict(TwoElements(3, 0, 8), true, none, 8);
    var two := TwoCounts();
    TwoElementsVerdict(TwoElements(1, 36, 12), false, two, 12);
    TwoElementsVerdict(TwoElements(1, 36, 8), false, two, 12);
  }

  lemma NoCounts() returns (counts: seq<nat>)
    ensures |counts| == 8 && (forall j | 0 <= j < 8 :: counts[j] <= 4) && CountsWord(counts) == 0 && Sum(counts) == 0
  {
    counts := seq(8, _ => 0);
    TrailingZeros([], 8);
    assert [] + counts == counts;
  }

  lemma TwoCounts() returns (counts: seq<nat>)
    ensures |counts| == 8 && (forall j | 0 <= j < 8 :: counts[j] <= 4) && CountsWord(counts) == 36 && Sum(counts) == 8
  {
    var zeros := seq(6, _ => 0);
    counts := [4, 4] + zeros;
    TrailingZeros([4, 4], 6);
    assert [4, 4][..1] == [4] && [4][..0] == [];
    assert counts[1..] == [4] + zeros && ([4] + zeros)[1..] == zeros;
    assert CountsWord(counts[1..]) == 4;
  }

  lemma {:induction false} TrailingZeros(counts: seq<nat>, n: nat)
    ensures CountsWord(seq(n, _ => 0)) == 0 && Sum(counts + seq(n, _ => 0)) == Sum(counts)
    decreases n
  {
    var zeros := seq(n, _ => 0);
    if n == 0 {
      assert counts + zeros == counts;
    } else {
      TrailingZeros(counts, n - 1);
      var fewer := seq(n - 1, _ => 0);
      assert zeros[1..] == fewer && (counts + zeros)[..|counts| + n - 1] == counts + fewer;
    }
  }

  // ---- the known-bad shapes ----

  /** Missing COLOR_0's four dwords changes the verdict exactly on streams in scope that have
      COLOR_0, feed what they fetch, and deliver less than required but by at most four. */
  lemma Color0MissDiffersIff(i: Inputs)
    requires WellFormed(i)
    ensures Decide(i, 0).verdict != Decide(i, 4).verdict <==>
              && HasColor(i) && InScope(i) && i.vtxSize == FetchWidth(i)
              && Required(i, 4) - 4 <= DeliveredWidth(i) < Required(i, 4)
    ensures Decide(i, 0).verdict != Decide(i, 4).verdict ==>
            Decide(i, 4).verdict == Reject && Decide(i, 0).verdict == Pass
  {
    VerdictMeaning(i, 0);
    VerdictMeaning(i, 4);
  }

  /** The selector-blind shape: the supplied size is taken as the delivered width. */
  method CheckIdentityAssumption(i: Inputs) returns (v: Verdict)
    requires WellFormed(i)
    ensures v == IdentityAssumption(i)
  {
    if i.pscCntlSeen == 0 || i.pscExtSeen == 0 || Premise(i) != None || HasColor(i) { return Decline; }
    var ok, required := RequiredWidth(i, 4);
    if !ok { return Decline; }
    v := if i.vtxSize < required then Reject else Pass;
  }

  ghost function IdentityAssumption(i: Inputs): Verdict {
    if i.pscCntlSeen == 0 || i.pscExtSeen == 0 || Premise(i) != None || HasColor(i) || !ComponentsOk(i) then Decline
    else if i.vtxSize < Required(i, 4) then Reject
    else Pass
  }

  /** Where the kernel decides on a stream without COLOR_0, the selector-blind shape errs in
      two ways only: it rejects a synthesized stream whose fetch is below the required width
      although its delivery meets it, and it passes one that underfeeds its fetch. */
  lemma IdentityAssumptionErrsIff(i: Inputs)
    requires WellFormed(i) && !HasColor(i) && Decide(i, 4).verdict != Decline
    ensures IdentityAssumption(i) != Decide(i, 4).verdict <==>
              !AllIdentity(List(Elements(i))) && (
                (i.vtxSize == FetchWidth(i) && i.vtxSize < Required(i, 4) <= DeliveredWidth(i)) ||
                Required(i, 4) <= i.vtxSize < FetchWidth(i))
  {
    VerdictMeaning(i, 4);
    var l := List(Elements(i));
    DeliveryCoversFetch(l);
    assert l[0] == Elements(i)[0] == At(i, 0) && Good(l[0]);
  }
}
