/** The walk that makes a freshly mapped range write-back: page tables with three leaf sizes. */
module PageWalk {
  import opened Options

  /** Pages under one middle-level entry and under one upper-level entry. */
  const MID := 512
  const BIG := 0x4_0000
  /** Pages under one top-level entry. */
  const TOP := 0x800_0000

  /** A raw entry, taken apart: the present bit 0, write-through bit 3, cache-disable bit 4, bit 7
      (the page attribute of small pages, the size bit of large ones), bit 12 (the page attribute of
      large pages, an address bit of small ones) and the rest. */
  datatype Word = Word(present: bool, pwt: bool, pcd: bool, bit7: bool, bit12: bool, rest: nat)

  datatype Entry = Absent | Leaf(v: Word) | Table

  /** `top` holds the usable top-level slots; the other levels are indexed by the number of their
      piece of the address space, and `pte` holds raw words by page number. */
  datatype Tables = Tables(top: set<nat>, pud: map<nat, Entry>, pmd: map<nat, Entry>, pte: map<nat, Word>)

  /** A large leaf with cache-disable, write-through and its page attribute cleared. */
  function ClearLarge(v: Word): Word {
    v.(pcd := false, pwt := false, bit12 := false)
  }

  function ClearSmall(v: Word): Word {
    v.(pcd := false, pwt := false, bit7 := false)
  }

  // ── What the walk should do ────────────────────────────────────────────────

  predicate PudLive(t: Tables, i: nat) {
    i / 512 in t.top && i in t.pud
  }

  predicate PmdLive(t: Tables, j: nat) {
    PudLive(t, j / 512) && t.pud[j / 512].Table? && j in t.pmd
  }

  predicate PteLive(t: Tables, p: nat) {
    PmdLive(t, p / 512) && t.pmd[p / 512].Table? && p in t.pte && t.pte[p].present
  }

  /** The k-th piece of `size` pages covers some page of [a, b). */
  predicate Covers(k: nat, size: nat, a: nat, b: nat)
    requires size > 0
  {
    a < b && a / size <= k <= (b - 1) / size
  }

  lemma {:induction false} CoversMeans(k: nat, size: nat, a: nat, b: nat)
    requires size in {MID, BIG}
    ensures Covers(k, size, a, b) <==> exists p | a <= p < b :: p / size == k
  {
    if Covers(k, size, a, b) {
      var p := if a / size == k then a else k * size;
      assert a <= p < b && p / size == k;
    }
  }

  function PudAfter(t: Tables, i: nat, a: nat, b: nat): Entry
    requires i in t.pud
  {
    if PudLive(t, i) && t.pud[i].Leaf? && Covers(i, BIG, a, b) then Leaf(ClearLarge(t.pud[i].v)) else t.pud[i]
  }

  function PmdAfter(t: Tables, j: nat, a: nat, b: nat): Entry
    requires j in t.pmd
  {
    if PmdLive(t, j) && t.pmd[j].Leaf? && Covers(j, MID, a, b) then Leaf(ClearLarge(t.pmd[j].v)) else t.pmd[j]
  }

  function PteAfter(t: Tables, p: nat, a: nat, b: nat): Word
    requires p in t.pte
  {
    if PteLive(t, p) && a <= p < b then ClearSmall(t.pte[p]) else t.pte[p]
  }

  /** Every present leaf that covers a page of [a, b) has its cache bits cleared; nothing else in
      the tables differs. */
  ghost predicate Cleared(t: Tables, t': Tables, a: nat, b: nat) {
    t'.top == t.top && ClearedPud(t, t'.pud, a, b) && ClearedPmd(t, t'.pmd, a, b) && ClearedPte(t, t'.pte, a, b)
  }

  ghost predicate ClearedPud(t: Tables, pud: map<nat, Entry>, a: nat, b: nat) {
    pud.Keys == t.pud.Keys && forall i | i in t.pud :: pud[i] == PudAfter(t, i, a, b)
  }

  ghost predicate ClearedPmd(t: Tables, pmd: map<nat, Entry>, a: nat, b: nat) {
    pmd.Keys == t.pmd.Keys && forall j | j in t.pmd :: pmd[j] == PmdAfter(t, j, a, b)
  }

  ghost predicate ClearedPte(t: Tables, pte: map<nat, Word>, a: nat, b: nat) {
    pte.Keys == t.pte.Keys && forall p | p in t.pte :: pte[p] == PteAfter(t, p, a, b)
  }

  // ── One step of the walk ───────────────────────────────────────────────────

  datatype Where = Nowhere | Upper(i: nat) | Middle(j: nat) | Small(p: nat)

  /** The leaf the walk finds for page `a`. */
  function Find(t: Tables, a: nat): Where {
    if a / TOP !in t.top || a / BIG !in t.pud || t.pud[a / BIG].Absent? then Nowhere
    else if t.pud[a / BIG].Leaf? then Upper(a / BIG)
    else if a / MID !in t.pmd || t.pmd[a / MID].Absent? then Nowhere
    else if t.pmd[a / MID].Leaf? then Middle(a / MID)
    else if a !in t.pte || !t.pte[a].present then Nowhere
    else Small(a)
  }

  /** The next page the walk looks at. */
  function Stop(w: Where, a: nat): nat {
    match w
    case Upper(i) => (i + 1) * BIG
    case Middle(j) => (j + 1) * MID
    case _ => a + 1
  }

  /** What finding a leaf means, and that every page up to the next stop is in the same one. */
  lemma {:induction false} FindMeans(t: Tables, a: nat)
    ensures var w := Find(t, a);
            && a < Stop(w, a)
            && (w.Upper? <==> PudLive(t, a / BIG) && t.pud[a / BIG].Leaf?)
            && (w.Middle? <==> PmdLive(t, a / MID) && t.pmd[a / MID].Leaf?)
            && (w.Small? <==> PteLive(t, a))
            && (w.Upper? ==> w.i == a / BIG) && (w.Middle? ==> w.j == a / MID) && (w.Small? ==> w.p == a)
  {
    assert a / BIG / 512 == a / TOP && a / MID / 512 == a / BIG;
  }

  /** Clearing keeps the shape of the tables, so the walk finds the same leaves. */
  lemma {:induction false} SameShape(t: Tables, t': Tables, a: nat, b: nat, x: nat)
    requires Cleared(t, t', a, b)
    ensures Find(t', x) == Find(t, x)
  {
  }

  function ClearAt(t: Tables, w: Where): Tables
    requires w.Upper? ==> w.i in t.pud && t.pud[w.i].Leaf?
    requires w.Middle? ==> w.j in t.pmd && t.pmd[w.j].Leaf?
    requires w.Small? ==> w.p in t.pte
  {
    match w
    case Nowhere => t
    case Upper(i) => t.(pud := t.pud[i := Leaf(ClearLarge(t.pud[i].v))])
    case Middle(j) => t.(pmd := t.pmd[j := Leaf(ClearLarge(t.pmd[j].v))])
    case Small(p) => t.(pte := t.pte[p := ClearSmall(t.pte[p])])
  }

  function Min(a: nat, b: nat): nat {
    if a < b then a else b
  }

  /** The pieces at one level that a step newly covers: only the one holding `x`. */
  lemma {:induction false} NewlyCovered(size: nat, k: nat, a: nat, x: nat, y: nat)
    requires size in {MID, BIG} && a <= x < y <= (x / size + 1) * size
    ensures Covers(k, size, a, y) <==> Covers(k, size, a, x) || k == x / size
  {
  }

  /** The step from page `x` to page `y`, past the leaf found for `x` or to the end of the range. */
  ghost predicate Step(t: Tables, a: nat, x: nat, y: nat) {
    a <= x < y <= Stop(Find(t, x), x)
  }

  lemma {:induction false} StepPud(t: Tables, pud: map<nat, Entry>, a: nat, x: nat, y: nat, i: nat)
    requires ClearedPud(t, pud, a, x) && Step(t, a, x, y) && i in t.pud
    ensures PudAfter(t, i, a, y) == if Find(t, x) == Upper(i) then Leaf(ClearLarge(t.pud[i].v)) else pud[i]
    ensures Find(t, x) == Upper(i) ==> pud[i].Leaf? && ClearLarge(pud[i].v) == ClearLarge(t.pud[i].v)
  {
    FindMeans(t, x);
    assert x / MID / 512 == x / BIG;
    NewlyCovered(BIG, i, a, x, y);
  }

  lemma {:induction false} StepPmd(t: Tables, pmd: map<nat, Entry>, a: nat, x: nat, y: nat, j: nat)
    requires ClearedPmd(t, pmd, a, x) && Step(t, a, x, y) && j in t.pmd
    ensures PmdAfter(t, j, a, y) == if Find(t, x) == Middle(j) then Leaf(ClearLarge(t.pmd[j].v)) else pmd[j]
    ensures Find(t, x) == Middle(j) ==> pmd[j].Leaf? && ClearLarge(pmd[j].v) == ClearLarge(t.pmd[j].v)
  {
    FindMeans(t, x);
    if Find(t, x).Upper? {
      // Under a large leaf there is no live middle entry.
      assert Covers(j, MID, x, y) ==> j / 512 == x / BIG;
      assert Covers(j, MID, a, y) <==> Covers(j, MID, a, x) || Covers(j, MID, x, y);
    } else {
      NewlyCovered(MID, j, a, x, y);
    }
  }

  lemma {:induction false} StepPte(t: Tables, pte: map<nat, Word>, a: nat, x: nat, y: nat, p: nat)
    requires ClearedPte(t, pte, a, x) && Step(t, a, x, y) && p in t.pte
    ensures PteAfter(t, p, a, y) == if Find(t, x) == Small(p) then ClearSmall(t.pte[p]) else pte[p]
    ensures Find(t, x) == Small(p) ==> pte[p] == t.pte[p]
  {
    FindMeans(t, x);
    assert p / 512 / 512 == p / BIG;
    // Under a large leaf there is no live page entry.
    assert x <= p < y && Find(t, x).Upper? ==> p / BIG == x / BIG;
    assert x <= p < y && Find(t, x).Middle? ==> p / MID == x / MID;
  }

  lemma {:induction false} StepPuds(t: Tables, pud: map<nat, Entry>, a: nat, x: nat, y: nat)
    requires ClearedPud(t, pud, a, x) && Step(t, a, x, y)
    ensures var w := Find(t, x);
            if w.Upper? then w.i in pud && pud[w.i].Leaf?
                             && ClearedPud(t, pud[w.i := Leaf(ClearLarge(pud[w.i].v))], a, y)
            else ClearedPud(t, pud, a, y)
  {
    FindMeans(t, x);
    forall i | i in t.pud
      ensures PudAfter(t, i, a, y) == if Find(t, x) == Upper(i) then Leaf(ClearLarge(pud[i].v)) else pud[i]
    {
      StepPud(t, pud, a, x, y, i);
    }
  }

  lemma {:induction false} StepPmds(t: Tables, pmd: map<nat, Entry>, a: nat, x: nat, y: nat)
    requires ClearedPmd(t, pmd, a, x) && Step(t, a, x, y)
    ensures var w := Find(t, x);
            if w.Middle? then w.j in pmd && pmd[w.j].Leaf?
                              && ClearedPmd(t, pmd[w.j := Leaf(ClearLarge(pmd[w.j].v))], a, y)
            else ClearedPmd(t, pmd, a, y)
  {
    FindMeans(t, x);
    forall j | j in t.pmd
      ensures PmdAfter(t, j, a, y) == if Find(t, x) == Middle(j) then Leaf(ClearLarge(pmd[j].v)) else pmd[j]
    {
      StepPmd(t, pmd, a, x, y, j);
    }
  }

  lemma {:induction false} StepPtes(t: Tables, pte: map<nat, Word>, a: nat, x: nat, y: nat)
    requires ClearedPte(t, pte, a, x) && Step(t, a, x, y)
    ensures var w := Find(t, x);
            if w.Small? then w.p in pte && ClearedPte(t, pte[w.p := ClearSmall(pte[w.p])], a, y)
            else ClearedPte(t, pte, a, y)
  {
    FindMeans(t, x);
    forall p | p in t.pte
      ensures PteAfter(t, p, a, y) == if Find(t, x) == Small(p) then ClearSmall(pte[p]) else pte[p]
    {
      StepPte(t, pte, a, x, y, p);
    }
  }

  /** One step clears exactly what the pages it passes require. */
  lemma {:induction false} StepClears(t: Tables, t': Tables, a: nat, x: nat, y: nat)
    requires Cleared(t, t', a, x) && Step(t, a, x, y)
    ensures var w := Find(t, x);
            && (w.Upper? ==> w.i in t'.pud && t'.pud[w.i].Leaf?) && (w.Middle? ==> w.j in t'.pmd && t'.pmd[w.j].Leaf?)
            && (w.Small? ==> w.p in t'.pte) && Cleared(t, ClearAt(t', w), a, y)
  {
    StepPuds(t, t'.pud, a, x, y);
    StepPmds(t, t'.pmd, a, x, y);
    StepPtes(t, t'.pte, a, x, y);
  }

  // ── What that means for a page ─────────────────────────────────────────────

  /** The word of the leaf that maps page `x`. */
  function LeafWord(t: Tables, x: nat): Option<Word> {
    match Find(t, x)
    case Nowhere => None
    case Upper(i) => Some(t.pud[i].v)
    case Middle(j) => Some(t.pmd[j].v)
    case Small(p) => Some(t.pte[p])
  }

  /** Cacheable as write-back: the cache bits and the page attribute, wherever the leaf has it, are off. */
  predicate WriteBack(w: Where, v: Word) {
    !v.pcd && !v.pwt && (if w.Small? then !v.bit7 else !v.bit12)
  }

  /** The present bit, the address and the other bits, the size bit of a large leaf among them. */
  predicate SameMapping(w: Where, v: Word, v': Word) {
    v'.present == v.present && v'.rest == v.rest && (if w.Small? then v'.bit12 == v.bit12 else v'.bit7 == v.bit7)
  }

  /** Every page keeps its leaf and what it maps to. Every mapped page of the range ends write-back, and a
      page whose leaf maps no page of the range is as it was. */
  lemma {:induction false} PageBecomesWriteBack(t: Tables, t': Tables, a: nat, b: nat, x: nat)
    requires Cleared(t, t', a, b)
    ensures var w := Find(t, x);
            && Find(t', x) == w && LeafWord(t', x).None? == LeafWord(t, x).None?
            && (LeafWord(t, x).Some? ==>
                  var v, v' := LeafWord(t, x).value, LeafWord(t', x).value;
                  && SameMapping(w, v, v') && (a <= x < b ==> WriteBack(w, v'))
                  && ((forall y | a <= y < b :: Find(t, y) != w) ==> v' == v))
  {
    SameShape(t, t', a, b, x);
    FindMeans(t, x);
    var w := Find(t, x);
    if w.Upper? && Covers(w.i, BIG, a, b) {
      CoversMeans(w.i, BIG, a, b);
      var y :| a <= y < b && y / BIG == w.i;
      FindMeans(t, y);
    } else if w.Middle? && Covers(w.j, MID, a, b) {
      CoversMeans(w.j, MID, a, b);
      var y :| a <= y < b && y / MID == w.j;
      FindMeans(t, y);
    }
  }

  /** A process's page tables. */
  class Mm {
    var tables: Tables

    /** Clears the cache bits of every present leaf over [start, end) and of nothing else, although
        it skips over large leaves. */
    method ForceWriteBack(start: nat, end: nat)
      modifies this
      ensures Cleared(old(tables), tables, start, end)
    {
      var a := start;
      ghost var t0 := tables;
      while a < end
        invariant start <= a && Cleared(t0, tables, start, Min(a, end))
        decreases end - a
      {
        SameShape(t0, tables, start, a, a);
        FindMeans(t0, a);
        var w := Find(tables, a);
        StepClears(t0, tables, start, a, Min(Stop(w, a), end));
        tables := ClearAt(tables, w);
        a := Stop(w, a);
      }
    }
  }
}
