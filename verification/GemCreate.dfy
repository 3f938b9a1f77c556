/** Buffer object creation: hardware access around an allocation that is retried in a wider
    domain and once more after the aperture was repacked. What the allocator and the
    repacking answer is arbitrary. */
module GemCreate {

  const ENOMEM: int := 12
  const ERESTARTSYS: int := 512
  const PAGE_SIZE: nat := 4096

  /** Placement domains: bit 0 CPU, bit 1 GTT, bit 2 VRAM. */
  const GTT: nat := 2
  const VRAM: nat := 4

  predicate HasGtt(domain: nat) {
    domain / 2 % 2 == 1
  }

  /** One call of the allocator: where it was asked to place, how aligned, what it answered. */
  datatype Attempt = Attempt(domain: nat, alignment: nat, result: int)

  datatype Compaction = Compaction(result: int, readmitted: nat)

  /** What the callees answer: admission, the allocator at each attempt, the repacking. */
  datatype Answers = Answers(access: int, create: nat -> int, compact: Compaction)

  class Device {
    /** Open hardware accesses, and what was done under them. */
    var open: nat
    var attempts: seq<Attempt>
    var compactions: nat
    /** The objects of the device, by the attempt that created them. */
    var objects: seq<nat>

    constructor ()
      ensures open == 0 && attempts == [] && compactions == 0 && objects == []
    {
      open, attempts, compactions, objects := 0, [], 0, [];
    }

    method AccessBegin(a: Answers) returns (r: int)
      modifies this`open
      ensures r == a.access && open == old(open) + if r == 0 then 1 else 0
    {
      r := a.access;
      if r == 0 { open := open + 1; }
    }

    method AccessEnd()
      requires open > 0
      modifies this`open
      ensures open == old(open) - 1
    {
      open := open - 1;
    }

    /** The allocator runs only under hardware access. */
    method BoCreate(a: Answers, domain: nat, alignment: nat) returns (r: int)
      requires open > 0
      modifies this`attempts
      ensures r == a.create(|old(attempts)|) && attempts == old(attempts) + [Attempt(domain, alignment, r)]
    {
      r := a.create(|attempts|);
      attempts := attempts + [Attempt(domain, alignment, r)];
    }

    method Compact(a: Answers) returns (c: Compaction)
      requires open > 0
      modifies this`compactions
      ensures c == a.compact && compactions == old(compactions) + 1
    {
      c := a.compact;
      compactions := compactions + 1;
    }

    /** Creates an object, or reports why not. Whatever the callees answer, there are at most
        three attempts and one repacking, every access begun is ended, and the object list
        grows exactly when an attempt succeeded, which is then the last. */
    method ObjectCreate(a: Answers, size: nat, alignment: nat, domain: nat, limit: nat) returns (r: int)
      requires open == 0 && attempts == [] && compactions == 0
      modifies this
      ensures open == 0
      ensures size > limit ==> r == -12 && attempts == []
      ensures size <= limit && a.access != 0 ==> r == a.access && attempts == []
      ensures size <= limit && a.access == 0 ==>
              Retried(a, attempts, domain, compactions) && r == attempts[|attempts| - 1].result
      ensures forall k | 0 <= k < |attempts| ::
                attempts[k].alignment == if alignment < 4096 then 4096 else alignment
      ensures objects == if attempts != [] && r == 0 then old(objects) + [|attempts| - 1] else old(objects)
    {
      var aligned, repacked := if alignment < PAGE_SIZE then PAGE_SIZE else alignment, false;
      var placement: nat := domain;
      if size > limit { return -ENOMEM; }
      r := AccessBegin(a);
      if r != 0 { return; }
      while true
        invariant open == 1 && objects == old(objects)
        invariant compactions == if repacked then 1 else 0
        invariant Pending(a, attempts, domain, placement, repacked)
        invariant forall k | 0 <= k < |attempts| :: attempts[k].alignment == aligned
        decreases placement == VRAM, !repacked
      {
        r := BoCreate(a, placement, aligned);
        if r == 0 { break; }
        if r != -ERESTARTSYS {
          if placement == VRAM {
            placement := placement + GTT;
            continue;
          }
          if r == -ENOMEM && !repacked && HasGtt(placement) {
            repacked := true;
            var report := Compact(a);
            if report.result == 0 && report.readmitted != 0 { continue; }
          }
        }
        AccessEnd();
        return;
      }
      objects := objects + [|attempts| - 1];
      AccessEnd();
    }
  }

  /** The retries so far explain the next attempt's placement. */
  ghost predicate Pending(a: Answers, made: seq<Attempt>, domain: nat, placement: nat, repacked: bool) {
    && placement == (if |made| > 0 && domain == VRAM then VRAM + GTT else domain)
    && |made| == (if |made| > 0 && domain == VRAM then 1 else 0) + (if repacked then 1 else 0)
    && (forall k | 0 <= k < |made| ::
          made[k].result == a.create(k) && made[k].domain == if k == 0 then domain else placement)
    && (forall k | 0 <= k < |made| :: made[k].result != 0 && made[k].result != -ERESTARTSYS)
    && (repacked ==>
          && |made| > 0 && made[|made| - 1].result == -ENOMEM && HasGtt(placement)
          && a.compact.result == 0 && a.compact.readmitted != 0)
    && (repacked && domain == VRAM ==> |made| == 2)
  }

  /** What one creation's attempts look like: the first in the requested domain; a second only
      where VRAM alone was refused, with GTT added, or after a repacking that readmitted
      something; every attempt but the last a refusal other than an interruption. A final want
      of room in GTT means that the repacking was tried and could not help. */
  ghost predicate Retried(a: Answers, made: seq<Attempt>, domain: nat, compactions: nat) {
    && 1 <= |made| <= (if domain == 4 then 3 else 2) && compactions <= 1
    && made[0].domain == domain
    && (forall k | 0 <= k < |made| :: made[k].result == a.create(k))
    && (forall k | 1 <= k < |made| :: made[k].domain == if domain == 4 then 6 else domain)
    && (forall k | 0 <= k < |made| - 1 :: made[k].result != 0 && made[k].result != -512)
    && (|made| == (if domain == 4 then 3 else 2) ==>
          compactions == 1 && made[|made| - 2].result == -12 && a.compact.result == 0 && a.compact.readmitted != 0)
    && (compactions == 1 ==> exists k :: 0 <= k < |made| && made[k].result == -12 && made[k].domain / 2 % 2 == 1)
    && (domain == 4 && |made| == 1 ==> made[0].result == 0 || made[0].result == -512)
    && (made[|made| - 1].result == -12 && made[|made| - 1].domain / 2 % 2 == 1 ==>
          && compactions == 1
          && (|made| == (if domain == 4 then 3 else 2) || a.compact.result != 0 || a.compact.readmitted == 0))
  }
}
