/** The per-session cache of range-validation results: sixteen entries, replaced round-robin. */
module VCache {
  import opened Bits
  import opened Options

  const ENTRIES := 16

  datatype Key = Key(base: nat, len: nat)
  datatype Entry = Entry(key: Key, status: nat, valid: bool)

  /** A result the host gave for a key. */
  datatype Result = Result(key: Key, status: nat)

  /** How many insertions ago slot `k` was written, when the next slot is `next`. */
  function Age(next: nat, k: nat): nat
    requires next < ENTRIES && k < ENTRIES
  {
    if k < next then next - 1 - k else next + ENTRIES - 1 - k
  }

  /** What slot `k` should hold, for the results forwarded since the last clear, oldest first. */
  predicate Holds(e: Entry, log: seq<Result>, age: nat) {
    if age < |log| then e == Entry(log[|log| - 1 - age].key, log[|log| - 1 - age].status, true) else !e.valid
  }

  /** The results still cached: the last sixteen. */
  function Recent(log: seq<Result>): seq<Result> {
    if |log| <= ENTRIES then log else log[|log| - ENTRIES..]
  }

  ghost predicate DistinctKeys(log: seq<Result>) {
    forall i, j | 0 <= i < j < |log| :: log[i].key != log[j].key
  }

  /** The status of the last result forwarded for a key, if it is among the recent ones. */
  ghost predicate LastFor(log: seq<Result>, key: Key, status: nat) {
    exists i | 0 <= i < |log| ::
      log[i] == Result(key, status) && |log| - ENTRIES <= i && forall j | i < j < |log| :: log[j].key != key
  }

  /** The results that stay cached when another is remembered: the last fifteen. */
  function Staying(log: seq<Result>): seq<Result> {
    if |log| < ENTRIES then log else log[|log| - ENTRIES + 1..]
  }

  ghost predicate HasKey(log: seq<Result>, key: Key) {
    exists i | 0 <= i < |log| :: log[i].key == key
  }

  /** Remembering a result keeps the cached keys distinct exactly when its key is not among those that
      stay. */
  lemma {:induction false} DistinctGrows(log: seq<Result>, r: Result)
    requires DistinctKeys(Recent(log))
    ensures DistinctKeys(Recent(log + [r])) <==> !HasKey(Staying(log), r.key)
  {
    var stay, new_ := Staying(log), Recent(log + [r]);
    assert new_ == stay + [r];
    if |log| < ENTRIES {
      assert stay == Recent(log);
    } else {
      assert stay == Recent(log)[1..];
    }
    if i :| 0 <= i < |stay| && stay[i].key == r.key {
      assert new_[i].key == new_[|stay|].key;
    }
  }

  lemma {:induction false} StayingIsRecent(log: seq<Result>, key: Key)
    ensures HasKey(Staying(log), key) ==> HasKey(Recent(log), key)
  {
    if i :| 0 <= i < |Staying(log)| && Staying(log)[i].key == key {
      var j := if |log| < ENTRIES then i else i + 1;
      assert Recent(log)[j].key == key;
    }
  }

  class Cache {
    const entries: array<Entry>
    var next: nat
    ghost var log: seq<Result>

    ghost predicate Valid()
      reads this, entries
    {
      && entries.Length == ENTRIES && next < TWO32
      && (forall k | 0 <= k < ENTRIES :: Holds(entries[k], log, Age(next % ENTRIES, k)))
    }

    /** No key is cached twice. */
    ghost predicate Distinct()
      reads this
    {
      DistinctKeys(Recent(log))
    }

    constructor ()
      ensures Valid() && Distinct() && log == []
    {
      entries := new Entry[ENTRIES](_ => Entry(Key(0, 0), 0, false));
      next := 0;
      log := [];
    }

    /** Teardown of a range, or a new migration: nothing cached survives. */
    method Clear()
      requires Valid()
      modifies this, entries
      ensures Valid() && Distinct() && log == [] && next == old(next)
    {
      var k := 0;
      while k < ENTRIES
        invariant k <= ENTRIES && next == old(next)
        invariant forall j | 0 <= j < k :: !entries[j].valid
      {
        entries[k] := entries[k].(valid := false);
        k := k + 1;
      }
      log := [];
    }

    /** A hit exactly when the key is among the last sixteen results since the last clear, with a status
        the host gave for it: the last one, as long as no key is cached twice. */
    method Lookup(key: Key) returns (r: Option<nat>)
      requires Valid()
      ensures r.Some? <==> HasKey(Recent(log), key)
      ensures r.Some? ==> Result(key, r.value) in Recent(log)
      ensures r.Some? && Distinct() ==> LastFor(log, key, r.value)
    {
      var k := 0;
      while k < ENTRIES
        invariant k <= ENTRIES
        invariant forall j | 0 <= j < k :: !(entries[j].valid && entries[j].key == key)
      {
        if entries[k].valid && entries[k].key == key {
          HitIsRecent(log, Age(next % ENTRIES, k), key, entries[k]);
          if Distinct() {
            HitIsLast(log, Age(next % ENTRIES, k), key, entries[k]);
          }
          return Some(entries[k].status);
        }
        k := k + 1;
      }
      r := None;
      forall i | 0 <= i < |Recent(log)|
        ensures Recent(log)[i].key != key
      {
        var age := |Recent(log)| - 1 - i;
        var slot := SlotOf(next % ENTRIES, age);
        assert Holds(entries[slot], log, age);
      }
    }

    /** Remembers a result in the slot of the oldest. */
    method Insert(key: Key, status: nat)
      requires Valid()
      modifies this, entries
      ensures Valid() && log == old(log) + [Result(key, status)]
      ensures old(Distinct()) ==> (Distinct() <==> !HasKey(Staying(old(log)), key))
    {
      Put(key, status);
      if old(Distinct()) {
        DistinctGrows(old(log), Result(key, status));
      }
    }

    method Put(key: Key, status: nat)
      requires Valid()
      modifies this, entries
      ensures Valid() && log == old(log) + [Result(key, status)]
    {
      var slot := next % ENTRIES;
      var after := if next + 1 == TWO32 then 0 else next + 1;
      Rotate(next, after);
      entries[slot] := Entry(key, status, true);
      log := log + [Result(key, status)];
      next := after;
      forall k | 0 <= k < ENTRIES
        ensures Holds(entries[k], log, Age(next % ENTRIES, k))
      {
        if k != slot {
          assert Holds(entries[k], old(log), Age(slot, k));
        }
      }
    }

    /** One validation request; `hostRet`, `hostKey` and `hostStatus` are what the host would answer. What
        is remembered is the range in the answer; if that is the caller's, no key is ever cached twice. */
    method Validate(key: Key, hostRet: int, hostKey: Key, hostStatus: nat) returns (ret: int, status: nat)
      requires Valid()
      modifies this, entries
      ensures Valid() && (old(Distinct()) && (hostRet == 0 ==> hostKey == key) ==> Distinct())
      ensures HasKey(Recent(old(log)), key) ==>
                ret == 0 && log == old(log) && Result(key, status) in Recent(log)
                && (Distinct() ==> LastFor(log, key, status))
      ensures !HasKey(Recent(old(log)), key) ==>
                ret == hostRet && status == hostStatus
                && log == if hostRet == 0 then old(log) + [Result(hostKey, hostStatus)] else old(log)
    {
      var hit := Lookup(key);
      if hit.Some? {
        return 0, hit.value;
      }
      StayingIsRecent(log, key);
      if hostRet == 0 {
        Insert(hostKey, hostStatus);
      }
      return hostRet, hostStatus;
    }
  }

  function SlotOf(next: nat, age: nat): (k: nat)
    requires next < ENTRIES && age < ENTRIES
    ensures k < ENTRIES && Age(next, k) == age
  {
    if age < next then next - 1 - age else next + ENTRIES - 1 - age
  }

  /** Advancing the counter, also past 2^32, makes every other slot one older. */
  lemma {:induction false} Rotate(next: nat, after: nat)
    requires next < TWO32 && after == if next + 1 == TWO32 then 0 else next + 1
    ensures var s, s' := next % ENTRIES, after % ENTRIES;
            && Age(s', s) == 0
            && forall k | 0 <= k < ENTRIES && k != s :: Age(s', k) == Age(s, k) + 1
  {
  }

  lemma {:induction false} HitIsRecent(log: seq<Result>, age: nat, key: Key, e: Entry)
    requires age < ENTRIES && Holds(e, log, age) && e.valid && e.key == key
    ensures HasKey(Recent(log), key) && Result(key, e.status) in Recent(log)
  {
    var first := if |log| <= ENTRIES then 0 else |log| - ENTRIES;
    assert Recent(log)[|log| - 1 - age - first] == Result(key, e.status);
  }

  lemma {:induction false} HitIsLast(log: seq<Result>, age: nat, key: Key, e: Entry)
    requires age < ENTRIES && Holds(e, log, age) && e.valid && e.key == key && DistinctKeys(Recent(log))
    ensures LastFor(log, key, e.status)
  {
    var i := |log| - 1 - age;
    var first := if |log| <= ENTRIES then 0 else |log| - ENTRIES;
    assert log[i] == Result(key, e.status);
    forall j | i < j < |log|
      ensures log[j].key != key
    {
      assert Recent(log)[i - first] == log[i] && Recent(log)[j - first] == log[j];
    }
  }
}
