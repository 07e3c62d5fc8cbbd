/** The open-addressing index of anonymous mappings: linear probing over a fixed table. */
module HashIndex {

  const SIZE := 0x1_0000

  function Hash(k: nat): nat {
    (k / 4096) % SIZE
  }

  /** The i-th slot probed for a key. */
  function Slot(k: nat, i: nat): (s: nat)
    requires i < SIZE
    ensures s < SIZE && s == (Hash(k) + i) % SIZE
  {
    if Hash(k) + i < SIZE then Hash(k) + i else Hash(k) + i - SIZE
  }

  /** The probe at which a key meets a slot. */
  function Steps(k: nat, s: nat): (i: nat)
    requires s < SIZE
    ensures i < SIZE && Slot(k, i) == s
  {
    if Hash(k) <= s then s - Hash(k) else s + SIZE - Hash(k)
  }

  lemma {:induction false} StepsUnique(k: nat, i: nat)
    requires i < SIZE
    ensures Steps(k, Slot(k, i)) == i
  {
  }

  /** The first probe from `i` on that meets an empty slot or the key, or SIZE. */
  function Scan(t: seq<nat>, k: nat, i: nat): (r: nat)
    requires |t| == SIZE && i <= SIZE
    ensures i <= r <= SIZE && (r < SIZE ==> t[Slot(k, r)] == 0 || t[Slot(k, r)] == k)
    ensures forall j: nat | i <= j < r :: t[Slot(k, j)] != 0 && t[Slot(k, j)] != k
    decreases SIZE - i
  {
    if i == SIZE || t[Slot(k, i)] == 0 || t[Slot(k, i)] == k then i else Scan(t, k, i + 1)
  }

  /** Keys occur once, and no empty slot lies on a key's way from its hash to its place. */
  ghost predicate Probed(t: seq<nat>)
    requires |t| == SIZE
  {
    && (forall s, s' | 0 <= s < SIZE && 0 <= s' < SIZE && t[s] == t[s'] != 0 :: s == s')
    && (forall s, i | 0 <= s < SIZE && t[s] != 0 && 0 <= i < Steps(t[s], s) :: t[Slot(t[s], i)] != 0)
  }

  /** The scan for a key that is in the table stops at the key. */
  lemma {:induction false} ScanFinds(t: seq<nat>, k: nat, s: nat)
    requires |t| == SIZE && Probed(t) && k != 0 && s < SIZE && t[s] == k
    ensures Scan(t, k, 0) < SIZE && Slot(k, Scan(t, k, 0)) == s
  {
    var r, d := Scan(t, k, 0), Steps(k, s);
    assert t[Slot(k, d)] == k;
    if r < d {
      assert t[Slot(t[s], r)] != 0;
      StepsUnique(k, r);
    }
  }

  /** Writing a key where its scan stops keeps the table probed. */
  lemma {:induction false} AddKeeps(t: seq<nat>, k: nat)
    requires |t| == SIZE && Probed(t) && k != 0 && Scan(t, k, 0) < SIZE
    ensures Probed(t[Slot(k, Scan(t, k, 0)) := k])
  {
    var r := Scan(t, k, 0);
    var s0 := Slot(k, r);
    var t' := t[s0 := k];
    StepsUnique(k, r);
    forall s, s' | 0 <= s < SIZE && 0 <= s' < SIZE && t'[s] == t'[s'] != 0
      ensures s == s'
    {
      if t[s] == k {
        ScanFinds(t, k, s);
      }
      if t[s'] == k {
        ScanFinds(t, k, s');
      }
    }
    forall s, i | 0 <= s < SIZE && t'[s] != 0 && 0 <= i < Steps(t'[s], s)
      ensures t'[Slot(t'[s], i)] != 0
    {
      if s == s0 {
        assert t[Slot(k, i)] != 0;
      } else {
        assert t[Slot(t[s], i)] != 0;
      }
    }
  }

  ghost predicate Full(t: seq<nat>) {
    forall s | 0 <= s < |t| :: t[s] != 0
  }

  /** The table, with the finite map it stands for. */
  class AnonIndex {
    const base: array<nat>
    const len: array<nat>
    ghost var contents: map<nat, nat>

    ghost predicate Valid()
      reads this, base, len
    {
      && base.Length == SIZE && len.Length == SIZE && base != len && Probed(base[..])
      && (forall s | 0 <= s < SIZE && base[s] != 0 :: base[s] in contents && contents[base[s]] == len[s])
      && (forall k | k in contents :: k != 0 && exists s :: 0 <= s < SIZE && base[s] == k)
    }

    constructor ()
      ensures Valid() && contents == map[]
    {
      base := new nat[SIZE](_ => 0);
      len := new nat[SIZE](_ => 0);
      contents := map[];
    }

    /** The probing loop that adding and finding share. */
    method Locate(k: nat) returns (i: nat)
      requires base.Length == SIZE
      ensures i == Scan(base[..], k, 0)
    {
      i := 0;
      while i < SIZE && base[Slot(k, i)] != 0 && base[Slot(k, i)] != k
        invariant i <= SIZE && Scan(base[..], k, 0) == Scan(base[..], k, i)
      {
        i := i + 1;
      }
    }

    /** Adds or replaces; a new key in a full table, and the key 0, are dropped. */
    method Add(k: nat, n: nat)
      requires Valid()
      modifies this, base, len
      ensures Valid()
      ensures contents == if k == 0 || (k !in old(contents) && Full(old(base[..]))) then old(contents)
                          else old(contents)[k := n]
    {
      var i := Locate(k);
      if i < SIZE {
        Store(k, n, Slot(k, i));
      } else {
        NoRoomFor(k);
      }
    }

    lemma {:induction false} NoRoomFor(k: nat)
      requires Valid() && Scan(base[..], k, 0) == SIZE
      ensures Full(base[..]) && k !in contents
    {
      NoRoom(base[..], k);
      assert forall s | 0 <= s < SIZE :: base[..][s] == base[s];
    }

    /** Writes the slot where the scan stopped. */
    method Store(k: nat, n: nat, s: nat)
      requires Valid() && s < SIZE && Scan(base[..], k, 0) < SIZE && s == Slot(k, Scan(base[..], k, 0))
      modifies this, base, len
      ensures Valid() && contents == if k == 0 then old(contents) else old(contents)[k := n]
      ensures !Full(old(base[..])) || k in old(contents)
    {
      if k != 0 {
        AddKeeps(base[..], k);
        contents := contents[k := n];
      }
      base[s] := k;
      len[s] := n;
      assert base[..] == old(base[..])[s := k];
      forall x | x in contents
        ensures x != 0 && exists s' :: 0 <= s' < SIZE && base[s'] == x
      {
        if x != k {
          var s' :| 0 <= s' < SIZE && old(base[s']) == x;
          assert base[s'] == x;
        } else {
          assert base[s] == x;
        }
      }
      forall s' | 0 <= s' < SIZE && base[s'] != 0
        ensures base[s'] in contents && contents[base[s']] == len[s']
      {
        assert base[s'] == k ==> base[..][s'] == base[..][s];
      }
    }

    /** The last length added for the key, and 0 for every other key. */
    method Find(k: nat) returns (n: nat)
      requires Valid()
      ensures n == if k in contents then contents[k] else 0
    {
      var i := Locate(k);
      Absent(base[..], k);
      assert forall s | 0 <= s < SIZE :: base[..][s] == base[s];
      n := if i < SIZE && base[Slot(k, i)] != 0 then len[Slot(k, i)] else 0;
    }
  }

  /** A scan that finds nowhere to stop: the key is absent and the table is full. */
  lemma {:induction false} NoRoom(t: seq<nat>, k: nat)
    requires |t| == SIZE && Scan(t, k, 0) == SIZE
    ensures Full(t) && forall s | 0 <= s < SIZE :: t[s] != k
  {
    forall s | 0 <= s < SIZE
      ensures t[s] != 0 && t[s] != k
    {
      assert t[Slot(k, Steps(k, s))] == t[s];
    }
  }

  /** A scan that stops elsewhere than at the key means the key is absent. */
  lemma {:induction false} Absent(t: seq<nat>, k: nat)
    requires |t| == SIZE && Probed(t)
    ensures k != 0 && !(Scan(t, k, 0) < SIZE && t[Slot(k, Scan(t, k, 0))] == k) ==>
              forall s | 0 <= s < SIZE :: t[s] != k
  {
    if k != 0 && !(Scan(t, k, 0) < SIZE && t[Slot(k, Scan(t, k, 0))] == k) {
      forall s | 0 <= s < SIZE
        ensures t[s] != k
      {
        if t[s] == k {
          ScanFinds(t, k, s);
        }
      }
    }
  }
}
