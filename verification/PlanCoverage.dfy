/** The cover of plan mechanisms by build features: every mechanism of the plan, or each part
    of a split one, belongs to exactly one feature of the right tier. */
module PlanCoverage {

  /** A plan row such as B11, and the names of the parts of the split rows. */
  datatype Commit = Commit(series: char, number: nat)
  datatype Name =
    | Production | Unsafe | Passive | Hazard | Pll | FirstRead | StatusPair | StatusCensus | CacheCtlstat
    | ForceClock | VapCensus | VapBurstCensus | TableReader | TlbFaultInjection | Other(id: nat)

  /** A source mechanism token: a plan row, or one part of a split row. */
  datatype Part = Whole | Named(name: Name)
  datatype Token = Token(commit: Commit, part: Part)

  datatype Feature = Feature(tier: nat, tokens: seq<Token>)

  const PROD: nat := 0
  const OBSERVE_DEV: nat := 1
  const PROBE_DEV: nat := 2
  const MUTATE_DEV: nat := 3

  /** The split rows: the tier of each part, and the part whose tier is the row's profile. */
  datatype Splits = Splits(tiers: map<Commit, map<Name, nat>>, planPart: map<Commit, Name>)

  function Split(): Splits {
    Splits(
      map[Commit('B', 11) := map[Production := PROD, Unsafe := MUTATE_DEV],
          Commit('M', 3) := map[Passive := OBSERVE_DEV, Hazard := PROBE_DEV],
          Commit('M', 10) := map[Pll := PROBE_DEV, FirstRead := PROBE_DEV, StatusPair := PROBE_DEV,
                                 StatusCensus := PROBE_DEV, CacheCtlstat := PROBE_DEV],
          Commit('M', 11) := map[ForceClock := MUTATE_DEV, VapCensus := MUTATE_DEV, VapBurstCensus := MUTATE_DEV],
          Commit('M', 24) := map[TableReader := OBSERVE_DEV, TlbFaultInjection := MUTATE_DEV]],
      map[Commit('B', 11) := Production, Commit('M', 3) := Hazard, Commit('M', 10) := Pll,
          Commit('M', 11) := ForceClock, Commit('M', 24) := TableReader])
  }

  /** Every split row names the part that carries its profile. */
  ghost predicate WellFormed(t: Splits) {
    forall c | c in t.tiers :: c in t.planPart && t.planPart[c] in t.tiers[c]
  }

  lemma SplitWellFormed()
    ensures WellFormed(Split())
  {
  }

  /** The tokens the plan asks for. */
  predicate Wanted(plans: map<Commit, nat>, t: Splits, x: Token) {
    && x.commit in plans
    && if x.commit in t.tiers then x.part.Named? && x.part.name in t.tiers[x.commit] else x.part.Whole?
  }

  /** The tier the owner of a token must have. */
  function TierFor(plans: map<Commit, nat>, t: Splits, x: Token): nat
    requires Wanted(plans, t, x)
  {
    if x.commit in t.tiers then t.tiers[x.commit][x.part.name] else plans[x.commit]
  }

  // ---- the cover ----

  /** One occurrence of a token: its place in its feature's list. */
  predicate Occurs(fs: seq<Feature>, x: Token, f: nat, k: nat) {
    f < |fs| && k < |fs[f].tokens| && fs[f].tokens[k] == x
  }

  ghost predicate OwnedByOne(fs: seq<Feature>, x: Token, tier: nat) {
    exists f: nat, k: nat :: Occurs(fs, x, f, k) && fs[f].tier == tier &&
      forall g: nat, m: nat | Occurs(fs, x, g, m) :: g == f && m == k
  }

  /** An exact cover: only wanted tokens occur, each wanted token occurs exactly once and in a
      feature of the tier the plan asks for, and a split row's profile is the tier of its
      retained part. */
  ghost predicate ExactCover(fs: seq<Feature>, plans: map<Commit, nat>, t: Splits)
    requires WellFormed(t)
  {
    && (forall x: Token, f: nat, k: nat | Occurs(fs, x, f, k) :: Wanted(plans, t, x))
    && (forall x: Token | Wanted(plans, t, x) :: OwnedByOne(fs, x, TierFor(plans, t, x)))
    && (forall c | c in plans && c in t.tiers :: plans[c] == t.tiers[c][t.planPart[c]])
  }

  // ---- the dictionaries of the check ----

  datatype Tables = Tables(
    owners: map<Token, nat>, tiers: map<Commit, seq<nat>>, parts: map<Commit, set<Part>>,
    partTiers: map<Commit, map<Name, nat>>)

  function NoTables(plans: map<Commit, nat>, t: Splits): Tables {
    Tables(map[], map c | c in plans :: [], map c | c in plans :: {}, map c | c in t.tiers :: map[])
  }

  predicate Shaped(d: Tables, plans: map<Commit, nat>, t: Splits) {
    d.tiers.Keys == plans.Keys && d.parts.Keys == plans.Keys && d.partTiers.Keys == t.tiers.Keys
  }

  ghost predicate PartsRecord(parts: map<Commit, set<Part>>, got: map<Token, nat>) {
    forall c, p: Part | c in parts :: p in parts[c] <==> Token(c, p) in got
  }

  ghost predicate PartTiersRecord(rows: map<Commit, map<Name, nat>>, got: map<Token, nat>) {
    forall c, n: Name | c in rows ::
      (n in rows[c] <==> Token(c, Named(n)) in got) && (n in rows[c] ==> rows[c][n] == got[Token(c, Named(n))])
  }

  ghost predicate TiersRecord(tiers: map<Commit, seq<nat>>, t: Splits, got: map<Token, nat>) {
    forall c | c in tiers && c !in t.tiers :: tiers[c] == if Token(c, Whole) in got then [got[Token(c, Whole)]] else []
  }

  /** What the tables hold when exactly the tokens in `got` have been seen, once each, in
      features of these tiers. */
  ghost predicate Record(d: Tables, plans: map<Commit, nat>, t: Splits, got: map<Token, nat>) {
    && Shaped(d, plans, t) && d.owners.Keys == got.Keys
    && (forall x | x in got :: Wanted(plans, t, x))
    && PartsRecord(d.parts, got) && PartTiersRecord(d.partTiers, got) && TiersRecord(d.tiers, t, got)
  }

  /** One token of feature `f`, recorded. */
  function Add(d: Tables, x: Token, f: nat, tier: nat): Tables
    requires x.commit in d.tiers && x.commit in d.parts && (x.part.Named? ==> x.commit in d.partTiers)
  {
    Tables(
      d.owners[x := f],
      d.tiers[x.commit := d.tiers[x.commit] + [tier]],
      d.parts[x.commit := d.parts[x.commit] + {x.part}],
      if x.part.Named? then AddPart(d.partTiers, x.commit, x.part.name, tier) else d.partTiers)
  }

  function AddPart(rows: map<Commit, map<Name, nat>>, c: Commit, n: Name, tier: nat): map<Commit, map<Name, nat>>
    requires c in rows
  {
    var row: map<Name, nat> := map m | m in rows[c].Keys + {n} :: if m == n then tier else rows[c][m];
    rows[c := row]
  }

  lemma AddKeepsParts(parts: map<Commit, set<Part>>, got: map<Token, nat>, x: Token, tier: nat)
    requires PartsRecord(parts, got) && x.commit in parts
    ensures PartsRecord(parts[x.commit := parts[x.commit] + {x.part}], got[x := tier])
  {
    var after, more := parts[x.commit := parts[x.commit] + {x.part}], got[x := tier];
    forall c, p: Part | c in after ensures p in after[c] <==> Token(c, p) in more {
      assert Token(c, p) == x <==> c == x.commit && p == x.part;
    }
  }

  lemma AddKeepsPartTiers(rows: map<Commit, map<Name, nat>>, got: map<Token, nat>, x: Token, tier: nat)
    requires PartTiersRecord(rows, got) && (x.part.Named? ==> x.commit in rows)
    ensures PartTiersRecord(if x.part.Named? then AddPart(rows, x.commit, x.part.name, tier) else rows, got[x := tier])
  {
    var after := if x.part.Named? then AddPart(rows, x.commit, x.part.name, tier) else rows;
    var more := got[x := tier];
    forall c, n: Name | c in after
      ensures (n in after[c] <==> Token(c, Named(n)) in more) &&
              (n in after[c] ==> after[c][n] == more[Token(c, Named(n))])
    {
      assert Token(c, Named(n)) == x <==> c == x.commit && x.part == Named(n);
      assert c in rows;
    }
  }

  lemma AddKeepsTiers(tiers: map<Commit, seq<nat>>, t: Splits, got: map<Token, nat>, x: Token, tier: nat)
    requires TiersRecord(tiers, t, got) && x.commit in tiers && x !in got && (x.commit !in t.tiers ==> x.part.Whole?)
    ensures TiersRecord(tiers[x.commit := tiers[x.commit] + [tier]], t, got[x := tier])
  {
  }

  lemma AddKeepsShape(d: Tables, plans: map<Commit, nat>, t: Splits, x: Token, f: nat, tier: nat)
    requires Shaped(d, plans, t) && Wanted(plans, t, x)
    ensures Shaped(Add(d, x, f, tier), plans, t) && Add(d, x, f, tier).owners.Keys == d.owners.Keys + {x}
  {
  }

  lemma AddKeepsRecord(d: Tables, plans: map<Commit, nat>, t: Splits, got: map<Token, nat>, x: Token, f: nat, tier: nat)
    requires Record(d, plans, t, got) && Wanted(plans, t, x) && x !in got
    ensures Record(Add(d, x, f, tier), plans, t, got[x := tier])
  {
    AddKeepsShape(d, plans, t, x, f, tier);
    AddKeepsParts(d.parts, got, x, tier);
    AddKeepsPartTiers(d.partTiers, got, x, tier);
    AddKeepsTiers(d.tiers, t, got, x, tier);
  }

  function MaxOf(s: seq<nat>): (m: nat)
    requires s != []
    ensures m in s && forall x | x in s :: x <= m
  {
    if |s| == 1 then s[0]
    else
      assert s == [s[0]] + s[1..];
      var m := MaxOf(s[1..]);
      if s[0] > m then s[0] else m
  }

  function NamedParts(row: map<Name, nat>): set<Part> {
    set n | n in row :: Named(n)
  }

  /** What the second pass asks of one row. */
  predicate RowOk(d: Tables, plans: map<Commit, nat>, t: Splits, c: Commit)
    requires Shaped(d, plans, t) && c in plans && (c in t.tiers ==> c in t.planPart && t.planPart[c] in t.tiers[c])
  {
    if c in t.tiers then
      d.parts[c] == NamedParts(t.tiers[c]) && d.partTiers[c] == t.tiers[c] && plans[c] == t.tiers[c][t.planPart[c]]
    else d.parts[c] == {Whole} && d.tiers[c] != [] && MaxOf(d.tiers[c]) == plans[c]
  }

  /** The same, on the tokens seen. */
  ghost predicate RowCovered(plans: map<Commit, nat>, t: Splits, got: map<Token, nat>, c: Commit)
    requires WellFormed(t) && c in plans
  {
    && (forall p: Part | Wanted(plans, t, Token(c, p)) ::
          Token(c, p) in got && got[Token(c, p)] == TierFor(plans, t, Token(c, p)))
    && (c in t.tiers ==> plans[c] == t.tiers[c][t.planPart[c]])
  }

  lemma WholeRow(d: Tables, plans: map<Commit, nat>, t: Splits, got: map<Token, nat>, c: Commit)
    requires Record(d, plans, t, got) && WellFormed(t) && c in plans && c !in t.tiers
    ensures RowOk(d, plans, t, c) <==> RowCovered(plans, t, got, c)
  {
    var x := Token(c, Whole);
    assert Wanted(plans, t, x);
    forall p: Part | p in d.parts[c] ensures p == Whole { assert Wanted(plans, t, Token(c, p)); }
    assert Whole in d.parts[c] <==> x in got;
    if x in got {
      assert d.parts[c] == {Whole} && d.tiers[c] == [got[x]];
    }
  }

  lemma SplitRow(d: Tables, plans: map<Commit, nat>, t: Splits, got: map<Token, nat>, c: Commit)
    requires Record(d, plans, t, got) && WellFormed(t) && c in plans && c in t.tiers
    ensures RowOk(d, plans, t, c) <==> RowCovered(plans, t, got, c)
  {
    var row, seen := t.tiers[c], d.partTiers[c];
    forall n: Name | n in seen ensures n in row { assert Wanted(plans, t, Token(c, Named(n))); }
    forall n: Name | n in row ensures Wanted(plans, t, Token(c, Named(n))) {}
    if RowCovered(plans, t, got, c) {
      forall n: Name | n in row ensures n in seen && seen[n] == row[n] {
        var x := Token(c, Named(n));
        assert x in got && got[x] == TierFor(plans, t, x);
      }
      assert seen == row;
      PartsFollow(d, plans, t, got, c);
    }
    if RowOk(d, plans, t, c) {
      forall p: Part | Wanted(plans, t, Token(c, p))
        ensures Token(c, p) in got && got[Token(c, p)] == TierFor(plans, t, Token(c, p))
      {
        assert p.name in seen;
      }
    }
  }

  lemma PartsFollow(d: Tables, plans: map<Commit, nat>, t: Splits, got: map<Token, nat>, c: Commit)
    requires Record(d, plans, t, got) && c in plans && c in t.tiers && d.partTiers[c] == t.tiers[c]
    ensures d.parts[c] == NamedParts(t.tiers[c])
  {
    forall p: Part ensures p in d.parts[c] <==> p in NamedParts(t.tiers[c]) {
      if p in d.parts[c] {
        assert Wanted(plans, t, Token(c, p));
        assert p == Named(p.name);
      }
      if p in NamedParts(t.tiers[c]) {
        var n :| n in t.tiers[c] && p == Named(n);
        assert n in d.partTiers[c];
      }
    }
  }

  // ---- the tokens seen ----

  /** The occurrences before token `k` of feature `f`. */
  predicate Before(g: nat, m: nat, f: nat, k: nat) {
    g < f || (g == f && m < k)
  }

  /** `got` is exactly what occurs before that place, and nothing occurs twice there. */
  ghost predicate Seen(fs: seq<Feature>, f: nat, k: nat, got: map<Token, nat>) {
    && (forall x: Token, g: nat, m: nat | Occurs(fs, x, g, m) && Before(g, m, f, k) :: x in got && got[x] == fs[g].tier)
    && (forall x | x in got :: exists g: nat, m: nat :: Occurs(fs, x, g, m) && Before(g, m, f, k))
    && (forall x: Token, g: nat, m: nat, h: nat, n: nat |
          Occurs(fs, x, g, m) && Before(g, m, f, k) && Occurs(fs, x, h, n) && Before(h, n, f, k) ::
          g == h && m == n)
  }

  lemma SeenOne(fs: seq<Feature>, f: nat, k: nat, got: map<Token, nat>)
    requires Seen(fs, f, k, got) && f < |fs| && k < |fs[f].tokens| && fs[f].tokens[k] !in got
    ensures Seen(fs, f, k + 1, got[fs[f].tokens[k] := fs[f].tier])
  {
    var x := fs[f].tokens[k];
    assert Occurs(fs, x, f, k);
    var more := got[x := fs[f].tier];
    forall y | y in more ensures exists g: nat, m: nat :: Occurs(fs, y, g, m) && Before(g, m, f, k + 1) {
      if y != x {
        var g: nat, m: nat :| Occurs(fs, y, g, m) && Before(g, m, f, k);
        assert Before(g, m, f, k + 1);
      } else {
        assert Before(f, k, f, k + 1);
      }
    }
    forall y: Token, g: nat, m: nat | Occurs(fs, y, g, m) && Before(g, m, f, k + 1)
      ensures (Before(g, m, f, k) && y in got && y != x) || (g == f && m == k && y == x)
    {
    }
  }

  lemma SeenFeature(fs: seq<Feature>, f: nat, got: map<Token, nat>)
    requires f < |fs| && Seen(fs, f, |fs[f].tokens|, got)
    ensures Seen(fs, f + 1, 0, got)
  {
    forall y: Token, g: nat, m: nat | Occurs(fs, y, g, m)
      ensures Before(g, m, f + 1, 0) <==> Before(g, m, f, |fs[f].tokens|)
    {
    }
  }

  /** A repeated or unwanted token spoils the cover. */
  lemma Spoiled(fs: seq<Feature>, f: nat, k: nat, got: map<Token, nat>, plans: map<Commit, nat>, t: Splits)
    requires Seen(fs, f, k, got) && f < |fs| && k < |fs[f].tokens| && WellFormed(t)
    requires !Wanted(plans, t, fs[f].tokens[k]) || fs[f].tokens[k] in got
    ensures !ExactCover(fs, plans, t)
  {
    var x := fs[f].tokens[k];
    assert Occurs(fs, x, f, k);
    if x in got {
      var g: nat, m: nat :| Occurs(fs, x, g, m) && Before(g, m, f, k);
    }
  }

  lemma AllSeen(fs: seq<Feature>, got: map<Token, nat>, plans: map<Commit, nat>, t: Splits)
    requires Seen(fs, |fs|, 0, got) && WellFormed(t) && forall x | x in got :: Wanted(plans, t, x)
    ensures ExactCover(fs, plans, t) <==> forall c | c in plans :: RowCovered(plans, t, got, c)
  {
    forall x: Token, f: nat, k: nat | Occurs(fs, x, f, k) ensures x in got && got[x] == fs[f].tier {
      assert Before(f, k, |fs|, 0);
    }
    forall x: Token, tier: nat ensures OwnedByOne(fs, x, tier) <==> x in got && got[x] == tier {
      if x in got {
        var f: nat, k: nat :| Occurs(fs, x, f, k) && Before(f, k, |fs|, 0);
        forall g: nat, m: nat | Occurs(fs, x, g, m) ensures g == f && m == k {
          assert Before(g, m, |fs|, 0);
        }
      }
    }
    if forall c | c in plans :: RowCovered(plans, t, got, c) {
      forall x: Token | Wanted(plans, t, x) ensures OwnedByOne(fs, x, TierFor(plans, t, x)) {
        assert RowCovered(plans, t, got, x.commit) && Wanted(plans, t, Token(x.commit, x.part));
      }
    }
  }

  lemma NothingSeen(fs: seq<Feature>, plans: map<Commit, nat>, t: Splits)
    ensures Record(NoTables(plans, t), plans, t, map[]) && Seen(fs, 0, 0, map[])
  {
  }

  /** The tables agree with the tokens before a place. */
  ghost predicate Progress(fs: seq<Feature>, plans: map<Commit, nat>, t: Splits, f: nat, k: nat, d: Tables,
                           got: map<Token, nat>)
  {
    Record(d, plans, t, got) && Seen(fs, f, k, got)
  }

  /** One token: recorded, or found to spoil the cover. */
  method Take(fs: seq<Feature>, plans: map<Commit, nat>, t: Splits, f: nat, k: nat, d: Tables,
              ghost got: map<Token, nat>)
    returns (ok: bool, after: Tables, ghost more: map<Token, nat>)
    requires WellFormed(t) && f < |fs| && k < |fs[f].tokens| && Progress(fs, plans, t, f, k, d, got)
    ensures if ok then Progress(fs, plans, t, f, k + 1, after, more) else !ExactCover(fs, plans, t)
  {
    var x := fs[f].tokens[k];
    if !Wanted(plans, t, x) || x in d.owners {
      Spoiled(fs, f, k, got, plans, t);
      return false, d, got;
    }
    SeenOne(fs, f, k, got);
    AddKeepsRecord(d, plans, t, got, x, f, fs[f].tier);
    return true, Add(d, x, f, fs[f].tier), got[x := fs[f].tier];
  }

  /** The first pass, over the features: it fills the tables, or meets a token that spoils
      the cover. */
  method Collect(fs: seq<Feature>, plans: map<Commit, nat>, t: Splits)
    returns (ok: bool, d: Tables, ghost got: map<Token, nat>)
    requires WellFormed(t)
    ensures if ok then Progress(fs, plans, t, |fs|, 0, d, got) else !ExactCover(fs, plans, t)
  {
    d, got := NoTables(plans, t), map[];
    NothingSeen(fs, plans, t);
    for f := 0 to |fs|
      invariant Progress(fs, plans, t, f, 0, d, got)
    {
      for k := 0 to |fs[f].tokens|
        invariant Progress(fs, plans, t, f, k, d, got)
      {
        ok, d, got := Take(fs, plans, t, f, k, d, got);
        if !ok { return; }
      }
      SeenFeature(fs, f, got);
    }
    ok := true;
  }

  /** The second pass, over the plan rows. */
  method CheckRows(d: Tables, plans: map<Commit, nat>, order: seq<Commit>, t: Splits, ghost got: map<Token, nat>)
    returns (ok: bool)
    requires Record(d, plans, t, got) && WellFormed(t) && forall c :: c in order <==> c in plans
    ensures ok <==> forall c | c in plans :: RowCovered(plans, t, got, c)
  {
    for n := 0 to |order|
      invariant forall k | 0 <= k < n :: RowCovered(plans, t, got, order[k])
    {
      var c := order[n];
      assert c in order;
      if c in t.tiers { SplitRow(d, plans, t, got, c); } else { WholeRow(d, plans, t, got, c); }
      if !RowOk(d, plans, t, c) { return false; }
    }
    ok := true;
  }

  /** The check accepts exactly the exact covers. `order` is the plan's row order. */
  method ValidatePlanCoverage(fs: seq<Feature>, plans: map<Commit, nat>, order: seq<Commit>, t: Splits)
    returns (ok: bool)
    requires WellFormed(t) && forall c :: c in order <==> c in plans
    ensures ok <==> ExactCover(fs, plans, t)
  {
    var d: Tables;
    ghost var got;
    ok, d, got := Collect(fs, plans, t);
    if ok {
      AllSeen(fs, got, plans, t);
      ok := CheckRows(d, plans, order, t, got);
    }
  }

  /** The check on the rows that the plan splits. */
  method ValidatePlan(fs: seq<Feature>, plans: map<Commit, nat>, order: seq<Commit>) returns (ok: bool)
    requires forall c :: c in order <==> c in plans
    ensures WellFormed(Split()) && (ok <==> ExactCover(fs, plans, Split()))
  {
    SplitWellFormed();
    ok := ValidatePlanCoverage(fs, plans, order, Split());
  }

  // ---- the shipped plan and the shipped policy ----

  /** The profiles that the shipped plan gives the split rows. */
  const SHIPPED_PLAN: map<Commit, nat> :=
    map[Commit('B', 11) := 0, Commit('M', 3) := 2, Commit('M', 10) := 2, Commit('M', 11) := 3, Commit('M', 24) := 1]

  /** The features of the shipped policy that own a part of a split row, with their tiers. */
  function ShippedFeature(k: nat): Feature
    requires k < 14
  {
    match k
    case 0 => Feature(0, [Token(Commit('B', 11), Named(Production))])
    case 1 => Feature(3, [Token(Commit('B', 11), Named(Unsafe))])
    case 2 => Feature(1, [Token(Commit('M', 24), Named(TableReader))])
    case 3 => Feature(3, [Token(Commit('M', 24), Named(TlbFaultInjection))])
    case 4 => Feature(1, [Token(Commit('M', 3), Named(Passive))])
    case 5 => Feature(2, [Token(Commit('M', 3), Named(Hazard))])
    case 6 => Feature(2, [Token(Commit('M', 10), Named(StatusPair))])
    case 7 => Feature(2, [Token(Commit('M', 10), Named(CacheCtlstat))])
    case 8 => Feature(2, [Token(Commit('M', 10), Named(StatusCensus))])
    case 9 => Feature(2, [Token(Commit('M', 10), Named(Pll))])
    case 10 => Feature(2, [Token(Commit('M', 10), Named(FirstRead))])
    case 11 => Feature(3, [Token(Commit('M', 11), Named(ForceClock))])
    case 12 => Feature(3, [Token(Commit('M', 11), Named(VapCensus))])
    case _ => Feature(3, [Token(Commit('M', 11), Named(VapBurstCensus))])
  }

  function ShippedFeatures(): (fs: seq<Feature>)
    ensures |fs| == 14 && forall k | 0 <= k < 14 :: fs[k] == ShippedFeature(k)
  {
    seq(14, k requires 0 <= k < 14 => ShippedFeature(k))
  }

  function PlaceOf(n: Name): nat {
    match n
    case Production => 0
    case Unsafe => 1
    case TableReader => 2
    case TlbFaultInjection => 3
    case Passive => 4
    case Hazard => 5
    case StatusPair => 6
    case CacheCtlstat => 7
    case StatusCensus => 8
    case Pll => 9
    case FirstRead => 10
    case ForceClock => 11
    case VapCensus => 12
    case VapBurstCensus => 13
    case Other(_) => 14
  }

  lemma ShippedTokenMatches(k: nat)
    requires k < 14
    ensures var x := ShippedFeature(k).tokens[0];
            && |ShippedFeature(k).tokens| == 1 && x.part.Named? && PlaceOf(x.part.name) == k
            && Wanted(SHIPPED_PLAN, Split(), x) && TierFor(SHIPPED_PLAN, Split(), x) == ShippedFeature(k).tier
  {
  }

  lemma WantedIsShipped(x: Token)
    requires Wanted(SHIPPED_PLAN, Split(), x)
    ensures x.part.Named? && PlaceOf(x.part.name) < 14 && ShippedFeature(PlaceOf(x.part.name)).tokens[0] == x
  {
  }

  /** The shipped policy covers the split rows of the shipped plan exactly: the compiled table of
      parts agrees with both, part by part and tier by tier. */
  lemma ShippedSplitIsExact()
    ensures WellFormed(Split()) && ExactCover(ShippedFeatures(), SHIPPED_PLAN, Split())
  {
    SplitWellFormed();
    var fs := ShippedFeatures();
    forall x: Token, f: nat, k: nat | Occurs(fs, x, f, k) ensures Wanted(SHIPPED_PLAN, Split(), x) {
      ShippedTokenMatches(f);
    }
    forall x: Token | Wanted(SHIPPED_PLAN, Split(), x) ensures OwnedByOne(fs, x, TierFor(SHIPPED_PLAN, Split(), x)) {
      WantedIsShipped(x);
      var place := PlaceOf(x.part.name);
      ShippedTokenMatches(place);
      assert Occurs(fs, x, place, 0);
      forall g: nat, m: nat | Occurs(fs, x, g, m) ensures g == place && m == 0 { ShippedTokenMatches(g); }
    }
  }
}
