/** Which parameter layouts a host driver uses: parsing its version and picking a table row. */
module Abi {
  import opened Bits

  /** Sizes and offsets that differ between driver versions. */
  datatype Profile = Profile(
    id: nat, mapExtSize: nat, mapExtFdOff: nat, semPoolSize: nat, chanAlloc: nat, vaspaceAlloc: nat,
    memAlloc: nat, nv00deAlloc: nat, nvos46Size: nat, nvos46StatusOff: nat)

  const PROFILES: seq<Profile> := [
    Profile(515, 1200, 1184, 1184, 304, 48, 120, 0, 56, 48),
    Profile(525, 1200, 1184, 1184, 304, 48, 120, 4, 56, 48),
    Profile(535, 1200, 1184, 1184, 360, 48, 120, 4, 56, 48),
    Profile(545, 1200, 1184, 1184, 360, 48, 128, 8, 56, 48),
    Profile(550, 9264, 9248, 9248, 360, 48, 128, 8, 56, 48),
    Profile(570, 9264, 9248, 9248, 368, 48, 128, 8, 56, 48),
    Profile(580, 9264, 9248, 9248, 368, 56, 128, 8, 64, 56),
    Profile(610, 9264, 9248, 9248, 376, 56, 128, 8, 64, 56)
  ]

  /** The profile id of a driver version. */
  function IdForVersion(major: nat, minor: nat, patch: nat): nat {
    if major == 0 then 570
    else if major <= 520 then 515
    else if major <= 530 then 525
    else if major == 535 then if (minor == 43 && patch < 8) || minor == 54 then 525 else 535
    else if major < 545 then 535
    else if major < 550 then 545
    else if major == 550 then if minor == 40 && patch < 53 then 545 else 550
    else if major <= 565 then 550
    else if major <= 579 then 570
    else if major < 610 then 580
    else 610
  }

  predicate IsRow(id: nat) {
    exists i | 0 <= i < |PROFILES| :: PROFILES[i].id == id
  }

  /** Every version has a row of its own id: the lookup never falls back on its default. */
  lemma {:induction false} EveryVersionHasARow(major: nat, minor: nat, patch: nat)
    ensures IsRow(IdForVersion(major, minor, patch))
  {
    assert PROFILES[0].id == 515 && PROFILES[1].id == 525 && PROFILES[2].id == 535 && PROFILES[3].id == 545;
    assert PROFILES[4].id == 550 && PROFILES[5].id == 570 && PROFILES[6].id == 580 && PROFILES[7].id == 610;
  }

  /** From 515 on, a version gets a row that first appeared after its own branch exactly in the gaps
      521-524, 531-534 and 566-569, where no driver was published. */
  lemma {:induction false} NewerRowOnlyInGaps(major: nat, minor: nat, patch: nat)
    requires major >= 515
    ensures IdForVersion(major, minor, patch) > major
            <==> 521 <= major <= 524 || 531 <= major <= 534 || 566 <= major <= 569
  {
  }

  /** The newest row that is not newer than the version's branch. */
  ghost predicate IsLatest(id: nat, major: nat) {
    IsRow(id) && id <= major && forall i | 0 <= i < |PROFILES| && PROFILES[i].id <= major :: PROFILES[i].id <= id
  }

  /** Builds of two branches that still had the layout of the row before. */
  predicate EarlyBuild(major: nat, minor: nat, patch: nat) {
    || (major == 535 && ((minor == 43 && patch < 8) || minor == 54))
    || (major == 550 && minor == 40 && patch < 53)
  }

  /** A version gets the newest row its branch can have, exactly unless it falls in a gap or is one of
      the early builds. */
  lemma {:induction false} LatestRow(major: nat, minor: nat, patch: nat)
    requires major >= 515
    ensures IsLatest(IdForVersion(major, minor, patch), major)
            <==> && !(521 <= major <= 524 || 531 <= major <= 534 || 566 <= major <= 569)
                 && !EarlyBuild(major, minor, patch)
  {
    EveryVersionHasARow(major, minor, patch);
    NewerRowOnlyInGaps(major, minor, patch);
    assert PROFILES[2].id == 535 && PROFILES[4].id == 550;
    assert forall i | 0 <= i < |PROFILES| :: PROFILES[i].id in {515, 525, 535, 545, 550, 570, 580, 610};
  }

  /** The oldest row that is newer than the branch, and the newest that is older. */
  ghost predicate IsNextAbove(id: nat, major: nat) {
    IsRow(id) && major < id && forall i | 0 <= i < |PROFILES| && major < PROFILES[i].id :: id <= PROFILES[i].id
  }

  ghost predicate IsNextBelow(id: nat, major: nat) {
    IsRow(id) && id < major && forall i | 0 <= i < |PROFILES| && PROFILES[i].id < major :: PROFILES[i].id <= id
  }

  /** The row of every version: 570 if the version is unknown, the oldest row for a branch before all
      rows, the next row up in a gap, the row before its branch's for an early build, and otherwise the
      newest row the branch can have. */
  lemma {:induction false} RowExact(major: nat, minor: nat, patch: nat)
    ensures var id := IdForVersion(major, minor, patch);
            if major == 0 then id == 570
            else if major < 515 || 521 <= major <= 524 || 531 <= major <= 534 || 566 <= major <= 569 then
              IsNextAbove(id, major)
            else if EarlyBuild(major, minor, patch) then IsNextBelow(id, major)
            else IsLatest(id, major)
  {
    EveryVersionHasARow(major, minor, patch);
    assert forall i | 0 <= i < |PROFILES| :: PROFILES[i].id in {515, 525, 535, 545, 550, 570, 580, 610};
  }

  /** Fields lie inside the structures whose sizes the same row gives. */
  lemma {:induction false} RowsConsistent(i: nat)
    requires i < |PROFILES|
    ensures PROFILES[i].mapExtFdOff + 4 <= PROFILES[i].mapExtSize
    ensures PROFILES[i].nvos46StatusOff + 4 <= PROFILES[i].nvos46Size
  {
    assert i == 0 || i == 1 || i == 2 || i == 3 || i == 4 || i == 5 || i == 6 || i == 7;
  }

  /** The table lookup: the row with the id, or the 570 row. */
  method ById(id: nat) returns (p: Profile)
    ensures p in PROFILES && (IsRow(id) ==> p.id == id) && (!IsRow(id) ==> p.id == 570)
  {
    var i, dflt := 0, 0;
    while i < |PROFILES|
      invariant i <= |PROFILES| && dflt < |PROFILES|
      invariant forall j | 0 <= j < i :: PROFILES[j].id != id
      invariant (i > 5 ==> PROFILES[dflt].id == 570)
    {
      if PROFILES[i].id == id {
        return PROFILES[i];
      }
      if PROFILES[i].id == 570 {
        dflt := i;
      }
      assert PROFILES[5].id == 570;
      i := i + 1;
    }
    p := PROFILES[dflt];
  }

  // ── Version strings ────────────────────────────────────────────────────────

  predicate IsDigit(c: char) {
    '0' <= c <= '9'
  }

  function DigitValue(c: char): nat
    requires IsDigit(c)
  {
    c as int - '0' as int
  }

  /** Where the digits from `i` on end. */
  function RunEnd(s: string, i: nat): (e: nat)
    requires i <= |s|
    ensures i <= e <= |s| && (e < |s| ==> !IsDigit(s[e]))
    ensures forall k | i <= k < e :: IsDigit(s[k])
    decreases |s| - i
  {
    if i < |s| && IsDigit(s[i]) then RunEnd(s, i + 1) else i
  }

  /** The number a stretch of digits stands for. */
  function Value(s: string, i: nat, e: nat): nat
    requires i <= e <= |s| && forall k | i <= k < e :: IsDigit(s[k])
    decreases e
  {
    if i == e then 0 else 10 * Value(s, i, e - 1) + DigitValue(s[e - 1])
  }

  /** The component that starts at `i`, in 32-bit arithmetic. */
  function Component(s: string, i: nat): nat
    requires i <= |s|
  {
    Value(s, i, RunEnd(s, i)) % TWO32
  }

  /** Where the component after the one at `i` starts, if a dot follows. */
  function After(s: string, i: nat): int
    requires i <= |s|
  {
    if RunEnd(s, i) < |s| && s[RunEnd(s, i)] == '.' then RunEnd(s, i) + 1 else -1
  }

  /** The three components; missing ones are 0. */
  function Version(s: string): (nat, nat, nat) {
    var i1 := After(s, 0);
    if i1 < 0 then (Component(s, 0), 0, 0) else
      var i2 := After(s, i1);
      (Component(s, 0), Component(s, i1), if i2 < 0 then 0 else Component(s, i2))
  }

  lemma {:induction false} Shift32(x: nat, d: nat)
    ensures ((x % TWO32) * 10 + d) % TWO32 == (10 * x + d) % TWO32
  {
    var q, r := x / TWO32, x % TWO32;
    assert x == TWO32 * q + r;
    assert 10 * x + d == TWO32 * (10 * q) + (10 * r + d);
    ModPlus(10 * q, 10 * r + d);
  }

  lemma {:induction false} ModPlus(k: nat, y: nat)
    ensures (TWO32 * k + y) % TWO32 == y % TWO32
  {
    if k > 0 {
      ModPlus(k - 1, y);
    }
  }

  /** One component, digit by digit. */
  method ReadComponent(s: string, start: nat) returns (v: nat, pos: nat)
    requires start <= |s|
    ensures v == Component(s, start) && pos == RunEnd(s, start)
  {
    v, pos := 0, start;
    while pos < |s| && IsDigit(s[pos])
      invariant start <= pos <= |s| && RunEnd(s, start) == RunEnd(s, pos)
      invariant forall k | start <= k < pos :: IsDigit(s[k])
      invariant v == Value(s, start, pos) % TWO32
    {
      Shift32(Value(s, start, pos), DigitValue(s[pos]));
      v := (v * 10 + DigitValue(s[pos])) % TWO32;
      pos := pos + 1;
    }
  }

  method ParseVersion(s: string) returns (major: nat, minor: nat, patch: nat)
    ensures (major, minor, patch) == Version(s)
  {
    var pos;
    minor, patch := 0, 0;
    major, pos := ReadComponent(s, 0);
    if pos == |s| || s[pos] != '.' {
      return;
    }
    minor, pos := ReadComponent(s, pos + 1);
    if pos == |s| || s[pos] != '.' {
      return;
    }
    patch, pos := ReadComponent(s, pos + 1);
  }

  /** The row for a version string: always the exact row of its version's id. */
  method ForVersion(s: string) returns (p: Profile)
    ensures p in PROFILES && p.id == IdForVersion(Version(s).0, Version(s).1, Version(s).2)
  {
    var major, minor, patch := ParseVersion(s);
    EveryVersionHasARow(major, minor, patch);
    p := ById(IdForVersion(major, minor, patch));
  }

  // ── Printing and parsing are inverse ───────────────────────────────────────

  function Digit(d: nat): char
    requires d < 10
  {
    ('0' as int + d) as char
  }

  function Decimal(n: nat): (s: string)
    ensures |s| > 0 && forall k | 0 <= k < |s| :: IsDigit(s[k])
  {
    if n < 10 then [Digit(n)] else Decimal(n / 10) + [Digit(n % 10)]
  }

  lemma {:induction false} ValueLocal(s: string, i: nat, e: nat, t: string, j: nat)
    requires i <= e <= |s| && j + (e - i) <= |t| && (forall k | i <= k < e :: IsDigit(s[k]))
    requires forall k | i <= k < e :: s[k] == t[j + (k - i)]
    ensures forall k | j <= k < j + (e - i) :: IsDigit(t[k])
    ensures Value(s, i, e) == Value(t, j, j + (e - i))
    decreases e
  {
    forall k | j <= k < j + (e - i)
      ensures IsDigit(t[k])
    {
      assert s[i + (k - j)] == t[k];
    }
    if i < e {
      ValueLocal(s, i, e - 1, t, j);
    }
  }

  lemma {:induction false} DecimalValue(n: nat)
    ensures Value(Decimal(n), 0, |Decimal(n)|) == n
  {
    var s := Decimal(n);
    if n >= 10 {
      var t := Decimal(n / 10);
      DecimalValue(n / 10);
      ValueLocal(t, 0, |t|, s, 0);
    } else {
      assert Value(s, 0, 0) == 0;
    }
  }

  /** A printed number followed by something that is no digit reads back. */
  lemma {:induction false} ReadsBack(s: string, i: nat, n: nat)
    requires n < TWO32 && i + |Decimal(n)| <= |s| && s[i..i + |Decimal(n)|] == Decimal(n)
    requires i + |Decimal(n)| < |s| ==> !IsDigit(s[i + |Decimal(n)|])
    ensures RunEnd(s, i) == i + |Decimal(n)| && Component(s, i) == n
  {
    var d := Decimal(n);
    var w := s[i..i + |d|];
    forall k | i <= k < i + |d|
      ensures s[k] == d[k - i]
    {
      assert w[k - i] == s[k];
    }
    RunIs(s, i, i + |d|);
    DigitsMatch(s, i, d);
    DecimalValue(n);
  }

  lemma {:induction false} DigitsMatch(s: string, i: nat, d: string)
    requires i + |d| <= |s| && (forall k | 0 <= k < |d| :: IsDigit(d[k]))
    requires forall k | i <= k < i + |d| :: s[k] == d[k - i]
    ensures forall k | i <= k < i + |d| :: IsDigit(s[k])
    ensures Value(d, 0, |d|) == Value(s, i, i + |d|)
  {
    forall k | 0 <= k < |d|
      ensures d[k] == s[i + (k - 0)]
    {
      assert s[i + k] == d[i + k - i];
    }
    ValueLocal(d, 0, |d|, s, i);
  }

  lemma {:induction false} RunIs(s: string, i: nat, e: nat)
    requires i <= e <= |s| && (forall k | i <= k < e :: IsDigit(s[k])) && (e < |s| ==> !IsDigit(s[e]))
    ensures RunEnd(s, i) == e
    decreases e - i
  {
    if i < e {
      RunIs(s, i + 1, e);
    }
  }

  /** Where three dotted parts are in their concatenation. */
  lemma {:induction false} DottedParts(x: string, y: string, z: string, rest: string)
    ensures var s := x + "." + y + "." + z + rest;
            var i, j := |x| + 1, |x| + 1 + |y| + 1;
            && |s| == j + |z| + |rest|
            && s[0..|x|] == x && s[|x|] == '.' && s[i..i + |y|] == y && s[i + |y|] == '.' && s[j..j + |z|] == z
            && (rest != [] ==> s[j + |z|] == rest[0])
  {
  }

  /** Three printed components, with anything after them, parse back to themselves. */
  lemma {:induction false} VersionRoundTrip(a: nat, b: nat, c: nat, rest: string)
    requires a < TWO32 && b < TWO32 && c < TWO32 && (rest != [] ==> !IsDigit(rest[0]))
    ensures Version(Decimal(a) + "." + Decimal(b) + "." + Decimal(c) + rest) == (a, b, c)
  {
    var x, y, z := Decimal(a), Decimal(b), Decimal(c);
    DottedParts(x, y, z, rest);
    VersionOf(x + "." + y + "." + z + rest, a, b, c);
  }

  lemma {:induction false} VersionOf(s: string, a: nat, b: nat, c: nat)
    requires a < TWO32 && b < TWO32 && c < TWO32
    requires var i := |Decimal(a)| + 1;
             var j := i + |Decimal(b)| + 1;
             && j + |Decimal(c)| <= |s| && s[0..i - 1] == Decimal(a) && s[i - 1] == '.'
             && s[i..j - 1] == Decimal(b) && s[j - 1] == '.' && s[j..j + |Decimal(c)|] == Decimal(c)
             && (j + |Decimal(c)| < |s| ==> !IsDigit(s[j + |Decimal(c)|]))
    ensures Version(s) == (a, b, c)
  {
    var i := |Decimal(a)| + 1;
    var j := i + |Decimal(b)| + 1;
    ReadsBack(s, 0, a);
    ReadsBack(s, i, b);
    ReadsBack(s, j, c);
  }
}
