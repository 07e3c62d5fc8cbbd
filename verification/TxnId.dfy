/** The transaction-id allocator of the virtqueue transport: a bitmap of slots and an epoch. */
module TxnId {
  import opened Bits

  const SLOTS := 4096
  const EPOCHS := 0x10_0000

  /** The slot of the t-th probe: 32-bit addition, then the low twelve bits. */
  function Probe(seed: nat, t: nat): (slot: nat)
    ensures slot < SLOTS
  {
    ((seed + t) % TWO32) % SLOTS
  }

  predicate Takes(bm: seq<bool>, seed: nat, t: nat)
    requires |bm| == SLOTS
  {
    Probe(seed, t) != 0 && !bm[Probe(seed, t)]
  }

  /** The first probe from `t` on that finds a clear slot, or SLOTS. */
  function FirstTaken(bm: seq<bool>, seed: nat, t: nat): (r: nat)
    requires |bm| == SLOTS && t <= SLOTS
    ensures t <= r <= SLOTS && (r < SLOTS ==> Takes(bm, seed, r))
    ensures forall u | t <= u < r :: !Takes(bm, seed, u)
    decreases SLOTS - t
  {
    if t == SLOTS || Takes(bm, seed, t) then t else FirstTaken(bm, seed, t + 1)
  }

  /** The id made of a seed's epoch and a slot. */
  function IdOf(seed: nat, slot: nat): nat {
    (seed / SLOTS) % EPOCHS * SLOTS + slot
  }

  /** The id handed out for a seed on a bitmap; 0 when there is none. */
  function Pick(bm: seq<bool>, seed: nat): nat
    requires |bm| == SLOTS
  {
    var t := FirstTaken(bm, seed, 0);
    if t == SLOTS then 0 else IdOf(seed, Probe(seed, t))
  }

  lemma {:induction false} ProbeAt(seed: nat, t: nat)
    ensures Probe(seed, t) == (seed + t) % SLOTS
  {
    var x := seed + t;
    assert x == TWO32 * (x / TWO32) + x % TWO32;
    assert TWO32 * (x / TWO32) == SLOTS * (0x10_0000 * (x / TWO32));
  }

  /** Every slot is probed. */
  lemma {:induction false} ProbeReaches(seed: nat, slot: nat)
    requires slot < SLOTS
    ensures exists t | 0 <= t < SLOTS :: Probe(seed, t) == slot
  {
    var s := seed % SLOTS;
    var t := if slot >= s then slot - s else slot + SLOTS - s;
    ProbeAt(seed, t);
    assert (seed + t) % SLOTS == slot;
    assert Probe(seed, t) == slot;
  }

  lemma {:induction false} IdParts(seed: nat, slot: nat)
    requires seed < TWO32 && 0 < slot < SLOTS
    ensures 0 < IdOf(seed, slot) < TWO32 && IdOf(seed, slot) % SLOTS == slot && IdOf(seed, slot) / SLOTS == seed / SLOTS
  {
  }

  /** Allocation fails exactly when all 4095 usable slots are taken; otherwise the id is non-zero,
      its slot was clear, and it carries the seed's epoch. */
  lemma {:induction false} PickExact(bm: seq<bool>, seed: nat)
    requires |bm| == SLOTS && seed < TWO32
    ensures Pick(bm, seed) == 0 <==> forall i | 0 < i < SLOTS :: bm[i]
    ensures var id := Pick(bm, seed);
            id != 0 ==> id < TWO32 && 0 < id % SLOTS && !bm[id % SLOTS] && id / SLOTS == seed / SLOTS
  {
    var t := FirstTaken(bm, seed, 0);
    if t < SLOTS {
      IdParts(seed, Probe(seed, t));
      assert !bm[Probe(seed, t)];
    } else {
      forall i | 0 < i < SLOTS
        ensures bm[i]
      {
        ProbeReaches(seed, i);
        var u :| 0 <= u < SLOTS && Probe(seed, u) == i;
        assert !Takes(bm, seed, u);
      }
    }
  }

  /** Two allocations that got the same slot got different ids exactly when their seeds are of
      different epochs. */
  lemma {:induction false} SlotReuse(bm: seq<bool>, seed: nat, bm': seq<bool>, seed': nat)
    requires |bm| == SLOTS && |bm'| == SLOTS && seed < TWO32 && seed' < TWO32
    requires Pick(bm, seed) != 0 && Pick(bm', seed') != 0 && Pick(bm, seed) % SLOTS == Pick(bm', seed') % SLOTS
    ensures Pick(bm, seed) != Pick(bm', seed') <==> seed / SLOTS != seed' / SLOTS
  {
    PickExact(bm, seed);
    PickExact(bm', seed');
  }

  /** One slot in use: two consecutive seeds, with the first id freed in between, give the same id. */
  lemma {:induction false} SlotReuseExample(bm: seq<bool>)
    requires |bm| == SLOTS && forall i | 0 <= i < SLOTS :: bm[i] == (i == 5)
    ensures Pick(bm, 5) == Pick(bm, 6) == 6
  {
    assert Probe(5, 0) == 5 && Probe(5, 1) == 6 && Probe(6, 0) == 6;
    assert !Takes(bm, 5, 0) && Takes(bm, 5, 1) && Takes(bm, 6, 0);
    assert FirstTaken(bm, 5, 0) == FirstTaken(bm, 5, 1) == 1 && FirstTaken(bm, 6, 0) == 0;
  }

  /** The module-wide counter and bitmap; `out` is the ids handed out and not yet freed. */
  class Allocator {
    var next: nat
    const bm: array<bool>
    ghost var out: set<nat>

    ghost predicate Valid()
      reads this, bm
    {
      && bm.Length == SLOTS && next < TWO32
      && (forall id | id in out :: 0 < id < TWO32 && id % SLOTS != 0 && bm[id % SLOTS])
      && (forall a, b | a in out && b in out && a % SLOTS == b % SLOTS :: a == b)
      && (forall i | 0 < i < SLOTS && bm[i] :: exists id :: id in out && id % SLOTS == i)
    }

    constructor ()
      ensures Valid() && out == {} && next == 0
    {
      next := 0;
      bm := new bool[SLOTS](_ => false);
      out := {};
    }

    /** A fresh non-zero id, distinct from every id outstanding, or 0 when all slots are taken. */
    method Alloc() returns (id: nat)
      requires Valid()
      modifies this, bm
      ensures Valid() && next == (old(next) + 1) % TWO32 && id == Pick(old(bm[..]), next)
      ensures id == 0 <==> forall i | 0 < i < SLOTS :: old(bm[i])
      ensures id == 0 ==> bm[..] == old(bm[..]) && out == old(out)
      ensures id != 0 ==> id !in old(out) && out == old(out) + {id} && bm[..] == old(bm[..])[id % SLOTS := true]
    {
      next := (next + 1) % TWO32;
      var seed := next;
      var t := 0;
      PickExact(bm[..], seed);
      while t < SLOTS
        invariant t <= SLOTS && FirstTaken(bm[..], seed, 0) == FirstTaken(bm[..], seed, t)
        invariant bm[..] == old(bm[..])
      {
        var slot := Probe(seed, t);
        if slot != 0 && !bm[slot] {
          id := Take(seed, slot);
          return;
        }
        t := t + 1;
      }
      id := 0;
    }

    /** Sets the bit of a clear slot and hands out its id. */
    method Take(seed: nat, slot: nat) returns (id: nat)
      requires Valid() && seed < TWO32 && 0 < slot < SLOTS && !bm[slot]
      modifies this`out, bm
      ensures Valid() && id == IdOf(seed, slot) != 0 && id % SLOTS == slot
      ensures id !in old(out) && out == old(out) + {id} && bm[..] == old(bm[..])[slot := true]
    {
      id := IdOf(seed, slot);
      IdParts(seed, slot);
      bm[slot] := true;
      out := out + {id};
    }

    /** Clears the owner's bit and no other; ids without a slot are ignored. */
    method Free(id: nat)
      requires Valid() && (id in out || id % SLOTS == 0)
      modifies this, bm
      ensures Valid() && next == old(next) && out == old(out) - {id}
      ensures bm[..] == if id % SLOTS == 0 then old(bm[..]) else old(bm[..])[id % SLOTS := false]
    {
      var slot := id % SLOTS;
      if slot == 0 {
        return;
      }
      bm[slot] := false;
      out := out - {id};
      forall i | 0 < i < SLOTS && bm[i]
        ensures exists x :: x in out && x % SLOTS == i
      {
        var x :| x in old(out) && x % SLOTS == i;
        assert x in out;
      }
    }
  }
}
