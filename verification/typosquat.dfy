/** The package firewall's typosquat check: an O(n) shortcut for "edit distance exactly one", and what it
    misses when names are not ASCII. Names are byte strings, as Go indexes them. */
module Typosquat {
  import opened Text

  type Name = seq<Byte>

  // ----- The reference: Levenshtein distance

  function Min3(a: nat, b: nat, c: nat): nat {
    if a <= b && a <= c then a else if b <= c then b else c
  }

  function Lev(a: Name, b: Name): nat {
    if a == [] then |b|
    else if b == [] then |a|
    else Min3(Lev(a[1..], b) + 1, Lev(a, b[1..]) + 1, Lev(a[1..], b[1..]) + if a[0] == b[0] then 0 else 1)
  }

  lemma {:induction false} LevSymmetric(a: Name, b: Name)
    ensures Lev(a, b) == Lev(b, a)
    decreases |a| + |b|
  {
    if a == [] || b == [] {
    } else {
      LevSymmetric(a[1..], b);
      LevSymmetric(a, b[1..]);
      LevSymmetric(a[1..], b[1..]);
    }
  }

  lemma {:induction false} LevAtLeast(a: Name, b: Name)
    ensures Lev(a, b) >= |a| - |b| && Lev(a, b) >= |b| - |a|
    decreases |a| + |b|
  {
    if a == [] || b == [] {
    } else {
      LevAtLeast(a[1..], b);
      LevAtLeast(a, b[1..]);
      LevAtLeast(a[1..], b[1..]);
    }
  }

  lemma {:induction false} LevZero(a: Name, b: Name)
    ensures Lev(a, b) == 0 <==> a == b
  {
    if a == [] || b == [] {
    } else {
      LevZero(a[1..], b[1..]);
      assert a == [a[0]] + a[1..] && b == [b[0]] + b[1..];
    }
  }

  // ----- Equal lengths: one substitution

  function Hamming(a: Name, b: Name): nat
    requires |a| == |b|
  {
    if a == [] then 0 else Hamming(a[1..], b[1..]) + if a[0] == b[0] then 0 else 1
  }

  lemma {:induction false} HammingZero(a: Name, b: Name)
    requires |a| == |b|
    ensures Hamming(a, b) == 0 <==> a == b
  {
    if a == [] {
    } else {
      HammingZero(a[1..], b[1..]);
      assert a == [a[0]] + a[1..] && b == [b[0]] + b[1..];
    }
  }

  lemma {:induction false} LevByHamming(a: Name, b: Name)
    requires |a| == |b|
    ensures Lev(a, b) <= 1 <==> Hamming(a, b) <= 1
  {
    if a == [] {
    } else {
      LevAtLeast(a[1..], b);
      LevAtLeast(a, b[1..]);
      LevByHamming(a[1..], b[1..]);
      LevZero(a[1..], b[1..]);
      HammingZero(a[1..], b[1..]);
    }
  }

  // ----- Lengths that differ by one: one insertion

  /** Aligned greedily, `b` is `a` with one byte inserted. */
  predicate Inserted(a: Name, b: Name)
    requires |b| == |a| + 1
  {
    a == [] || (if a[0] == b[0] then Inserted(a[1..], b[1..]) else a == b[1..])
  }

  lemma {:induction false} InsertedFront(a: Name, b: Name)
    requires |b| == |a| + 1 && a == b[1..]
    ensures Inserted(a, b)
  {
    if a != [] && a[0] == b[0] {
      assert a[1..] == b[1..][1..];
      InsertedFront(a[1..], b[1..]);
    }
  }

  lemma {:induction false} LevByInsertion(a: Name, b: Name)
    requires |b| == |a| + 1
    ensures Lev(a, b) <= 1 <==> Inserted(a, b)
  {
    if a == [] {
    } else {
      LevAtLeast(a[1..], b);
      LevAtLeast(a[1..], b[1..]);
      LevZero(a, b[1..]);
      LevByInsertion(a[1..], b[1..]);
      if a == b[1..] {
        InsertedFront(a, b);
      }
    }
  }

  // ----- Distance one is a single edit

  /** The names differ in byte `i` and nowhere else. */
  ghost predicate ChangedAt(a: Name, b: Name, i: nat) {
    i < |a| == |b| && a[i] != b[i] && forall k | 0 <= k < |a| && k != i :: a[k] == b[k]
  }

  /** `b` is `a` with a byte put in at `i`. */
  ghost predicate AddedAt(a: Name, b: Name, i: nat) {
    && i <= |a| && |b| == |a| + 1
    && (forall k | 0 <= k < i :: b[k] == a[k])
    && (forall k | i < k < |b| :: b[k] == a[k - 1])
  }

  lemma {:induction false} HammingOne(a: Name, b: Name)
    requires |a| == |b|
    ensures Hamming(a, b) == 1 <==> exists i: nat :: ChangedAt(a, b, i)
  {
    if a == [] {
    } else {
      HammingOne(a[1..], b[1..]);
      HammingZero(a[1..], b[1..]);
      assert forall i | 0 < i < |a| :: a[1..][i - 1] == a[i] && b[1..][i - 1] == b[i];
      if a[0] == b[0] {
        if i: nat :| ChangedAt(a[1..], b[1..], i) {
          assert ChangedAt(a, b, i + 1);
        }
        if i: nat :| ChangedAt(a, b, i) {
          assert ChangedAt(a[1..], b[1..], i - 1);
        }
      } else if a[1..] == b[1..] {
        assert ChangedAt(a, b, 0);
      }
    }
  }

  lemma {:induction false} InsertedIsOneAdded(a: Name, b: Name)
    requires |b| == |a| + 1
    ensures Inserted(a, b) <==> exists i: nat :: AddedAt(a, b, i)
  {
    if a == [] {
      assert AddedAt(a, b, 0);
    } else if a[0] == b[0] {
      InsertedIsOneAdded(a[1..], b[1..]);
      if i: nat :| AddedAt(a[1..], b[1..], i) {
        AddedFurther(a, b, i);
      }
      if i: nat :| AddedAt(a, b, i) {
        AddedFurther(a, b, if i == 0 then 0 else i - 1);
      }
    } else {
      assert a == b[1..] <==> AddedAt(a, b, 0);
      assert forall i: nat | AddedAt(a, b, i) :: i == 0;
    }
  }

  /** Behind equal first bytes. */
  lemma AddedFurther(a: Name, b: Name, i: nat)
    requires |b| == |a| + 1 && a != [] && a[0] == b[0]
    ensures AddedAt(a[1..], b[1..], i) <==> AddedAt(a, b, i + 1)
    ensures AddedAt(a, b, 0) ==> AddedAt(a, b, 1)
  {
    var a', b' := a[1..], b[1..];
    assert (forall k | 0 < k < |a| :: a'[k - 1] == a[k]) && forall k | 0 < k < |b| :: b'[k - 1] == b[k];
    if AddedAt(a', b', i) {
      forall k | i + 1 < k < |b| ensures b[k] == a[k - 1] {
        assert b'[k - 1] == a'[k - 2];
      }
      forall k | 0 <= k < i + 1 ensures b[k] == a[k] {
        assert k > 0 ==> b'[k - 1] == a'[k - 1];
      }
    }
  }

  /** Distance one is one byte changed, added or removed. */
  lemma LevOneIsOneEdit(a: Name, b: Name)
    ensures Lev(a, b) == 1 <==> exists i: nat :: ChangedAt(a, b, i) || AddedAt(a, b, i) || AddedAt(b, a, i)
  {
    LevZero(a, b);
    LevAtLeast(a, b);
    LevSymmetric(a, b);
    if |a| == |b| {
      LevByHamming(a, b);
      HammingZero(a, b);
      HammingOne(a, b);
    } else if |b| == |a| + 1 {
      LevByInsertion(a, b);
      InsertedIsOneAdded(a, b);
    } else if |a| == |b| + 1 {
      LevByInsertion(b, a);
      InsertedIsOneAdded(b, a);
    }
  }

  // ----- What ranging over a Go string visits

  predicate Continues(s: Name, i: nat, lo: int, hi: int) {
    i < |s| && lo <= s[i] <= hi
  }

  /** The width of the rune decoded at byte `i`; a byte that starts no valid encoding counts alone. */
  function RuneWidth(s: Name, i: nat): (w: nat)
    requires i < |s|
    ensures 1 <= w <= 4 && i + w <= |s|
  {
    var c := s[i];
    if 0xC2 <= c <= 0xDF then
      if Continues(s, i + 1, 0x80, 0xBF) then 2 else 1
    else if 0xE0 <= c <= 0xEF then
      if Continues(s, i + 1, if c == 0xE0 then 0xA0 else 0x80, if c == 0xED then 0x9F else 0xBF)
         && Continues(s, i + 2, 0x80, 0xBF) then 3 else 1
    else if 0xF0 <= c <= 0xF4 then
      if Continues(s, i + 1, if c == 0xF0 then 0x90 else 0x80, if c == 0xF4 then 0x8F else 0xBF)
         && Continues(s, i + 2, 0x80, 0xBF) && Continues(s, i + 3, 0x80, 0xBF) then 4 else 1
    else 1
  }

  /** The bytes from `i` on begin with an encoded character of `w` bytes. */
  ghost predicate Encodes(s: Name, i: nat, w: nat) {
    i + w <= |s| && exists c: char :: |Utf8Char(c)| == w && Utf8Char(c) == s[i..i + w]
  }

  predicate Following(b: Byte) {
    0x80 <= b <= 0xBF
  }

  lemma EncodedBytes(c: char)
    ensures var b := Utf8Char(c);
      && 1 <= |b| <= 4
      && (|b| == 1 ==> b[0] < 0x80)
      && (|b| == 2 ==> 0xC2 <= b[0] <= 0xDF && Following(b[1]))
      && (|b| == 3 ==> 0xE0 <= b[0] <= 0xEF && Following(b[1]) && Following(b[2])
                       && (b[0] == 0xE0 ==> b[1] >= 0xA0) && (b[0] == 0xED ==> b[1] <= 0x9F))
      && (|b| == 4 ==> 0xF0 <= b[0] <= 0xF4 && Following(b[1]) && Following(b[2]) && Following(b[3])
                       && (b[0] == 0xF0 ==> b[1] >= 0x90) && (b[0] == 0xF4 ==> b[1] <= 0x8F))
  {
  }

  lemma EncodingHasWidth(s: Name, i: nat, c: char)
    requires i < |s| && i + |Utf8Char(c)| <= |s| && Utf8Char(c) == s[i..i + |Utf8Char(c)|]
    ensures RuneWidth(s, i) == |Utf8Char(c)|
  {
    EncodedBytes(c);
    hide Utf8Char;
    assert forall k | 0 <= k < |Utf8Char(c)| :: s[i + k] == Utf8Char(c)[k];
  }

  lemma Decode2(b0: Byte, b1: Byte) returns (c: char)
    requires 0xC2 <= b0 <= 0xDF && 0x80 <= b1 <= 0xBF
    ensures Utf8Char(c) == [b0, b1]
  {
    var x: int, y: int := b0 - 0xC0, b1 - 0x80;
    var n := 64 * x + y;
    assert n / 64 == x && n % 64 == y;
    c := n as char;
  }

  lemma Decode3(b0: Byte, b1: Byte, b2: Byte) returns (c: char)
    requires 0xE0 <= b0 <= 0xEF && 0x80 <= b1 <= 0xBF && 0x80 <= b2 <= 0xBF
    requires (b0 == 0xE0 ==> b1 >= 0xA0) && (b0 == 0xED ==> b1 <= 0x9F)
    ensures Utf8Char(c) == [b0, b1, b2]
  {
    var x: int, y: int, z: int := b0 - 0xE0, b1 - 0x80, b2 - 0x80;
    var n := 4096 * x + 64 * y + z;
    assert n / 64 == 64 * x + y && n % 64 == z && n / 4096 == x;
    c := n as char;
  }

  lemma Decode4(b0: Byte, b1: Byte, b2: Byte, b3: Byte) returns (c: char)
    requires 0xF0 <= b0 <= 0xF4 && 0x80 <= b1 <= 0xBF && 0x80 <= b2 <= 0xBF && 0x80 <= b3 <= 0xBF
    requires (b0 == 0xF0 ==> b1 >= 0x90) && (b0 == 0xF4 ==> b1 <= 0x8F)
    ensures Utf8Char(c) == [b0, b1, b2, b3]
  {
    var x: int, y: int, z: int, w: int := b0 - 0xF0, b1 - 0x80, b2 - 0x80, b3 - 0x80;
    var n := 0x4_0000 * x + 4096 * y + 64 * z + w;
    assert n / 64 == 4096 * x + 64 * y + z && n % 64 == w && n / 4096 == 64 * x + y && n / 0x4_0000 == x;
    c := n as char;
  }

  /** A wide rune is an encoded character. */
  lemma WidthHasEncoding(s: Name, i: nat)
    requires i < |s| && RuneWidth(s, i) > 1
    ensures Encodes(s, i, RuneWidth(s, i))
  {
    var w := RuneWidth(s, i);
    var c: char;
    if w == 2 {
      c := Decode2(s[i], s[i + 1]);
      assert s[i..i + w] == [s[i], s[i + 1]];
    } else if w == 3 {
      c := Decode3(s[i], s[i + 1], s[i + 2]);
      assert s[i..i + w] == [s[i], s[i + 1], s[i + 2]];
    } else {
      c := Decode4(s[i], s[i + 1], s[i + 2], s[i + 3]);
      assert s[i..i + w] == [s[i], s[i + 1], s[i + 2], s[i + 3]];
    }
    hide Utf8Char, RuneWidth;
  }

  /** The width of a rune is that of the character encoded there in UTF-8, and one where none is. */
  lemma RuneWidthDecodes(s: Name, i: nat, w: nat)
    requires i < |s| && w > 1
    ensures RuneWidth(s, i) == w <==> Encodes(s, i, w)
  {
    if RuneWidth(s, i) == w {
      WidthHasEncoding(s, i);
    }
    if Encodes(s, i, w) {
      var c: char :| |Utf8Char(c)| == w && Utf8Char(c) == s[i..i + w];
      EncodingHasWidth(s, i, c);
    }
  }

  /** Differing positions from `i` on, among those where a rune of `a` starts. */
  function SeenDiffs(a: Name, b: Name, i: nat): nat
    requires |a| == |b| && i <= |a|
    decreases |a| - i
  {
    if i == |a| then 0 else SeenDiffs(a, b, i + RuneWidth(a, i)) + if a[i] == b[i] then 0 else 1
  }

  /** Reading the name rune by rune comes by byte `i`. */
  ghost predicate RuneStart(a: Name, i: nat) {
    i == 0 || exists j: nat | j < i && j < |a| :: RuneStart(a, j) && j + RuneWidth(a, j) == i
  }

  /** Runes do not overlap. */
  lemma {:induction false} NextRune(a: Name, i: nat, j: nat)
    requires i < j && i < |a| && RuneStart(a, i) && RuneStart(a, j)
    ensures i + RuneWidth(a, i) <= j
    decreases i + j
  {
    var p: nat :| p < j && p < |a| && RuneStart(a, p) && p + RuneWidth(a, p) == j;
    if i < p {
      NextRune(a, i, p);
    } else if p < i {
      NextRune(a, p, i);
    }
  }

  /** Where runes of `a` start, from `from` on, at which the names differ. */
  ghost function DifferingStarts(a: Name, b: Name, from: nat): set<nat>
    requires |a| == |b|
  {
    set k | from <= k < |a| && RuneStart(a, k) && a[k] != b[k]
  }

  lemma StartsFrom(a: Name, b: Name, i: nat)
    requires |a| == |b| && i < |a| && RuneStart(a, i)
    ensures var next := i + RuneWidth(a, i);
      && RuneStart(a, next) && i !in DifferingStarts(a, b, next)
      && DifferingStarts(a, b, i) == DifferingStarts(a, b, next) + if a[i] != b[i] then {i} else {}
  {
    var next := i + RuneWidth(a, i);
    assert RuneStart(a, next);
    forall k | i < k < |a| && RuneStart(a, k) ensures next <= k {
      NextRune(a, i, k);
    }
    hide RuneStart, RuneWidth;
  }

  lemma {:induction false} SeenFrom(a: Name, b: Name, i: nat)
    requires |a| == |b| && i <= |a| && RuneStart(a, i)
    ensures SeenDiffs(a, b, i) == |DifferingStarts(a, b, i)|
    decreases |a| - i
  {
    if i == |a| {
      assert DifferingStarts(a, b, i) == {};
    } else {
      hide RuneStart, RuneWidth, DifferingStarts;
      StartsFrom(a, b, i);
      SeenFrom(a, b, i + RuneWidth(a, i));
    }
  }

  /** What is seen: the rune starts of the first name at which the bytes differ. */
  lemma SeenExactlyWhen(a: Name, b: Name)
    requires |a| == |b|
    ensures SeenDiffs(a, b, 0) == |set k | 0 <= k < |a| && RuneStart(a, k) && a[k] != b[k]|
  {
    SeenFrom(a, b, 0);
    assert DifferingStarts(a, b, 0) == set k | 0 <= k < |a| && RuneStart(a, k) && a[k] != b[k];
  }

  /** Differing positions the loop never looks at. */
  function HiddenDiffs(a: Name, b: Name): int
    requires |a| == |b|
  {
    Hamming(a, b) - SeenDiffs(a, b, 0)
  }

  lemma {:induction false} HammingSplits(a: Name, b: Name, i: nat)
    requires |a| == |b| && i < |a|
    ensures Hamming(a[i..], b[i..]) == Hamming(a[i + 1..], b[i + 1..]) + if a[i] == b[i] then 0 else 1
  {
    assert a[i..][1..] == a[i + 1..] && b[i..][1..] == b[i + 1..];
  }

  lemma {:induction false} HammingShrinks(a: Name, b: Name, i: nat, j: nat)
    requires |a| == |b| && i <= j <= |a|
    ensures Hamming(a[j..], b[j..]) <= Hamming(a[i..], b[i..])
    decreases j - i
  {
    if i == j {
    } else {
      HammingSplits(a, b, i);
      HammingShrinks(a, b, i + 1, j);
    }
  }

  lemma {:induction false} SeenAtMostHamming(a: Name, b: Name, i: nat)
    requires |a| == |b| && i <= |a|
    ensures SeenDiffs(a, b, i) <= Hamming(a[i..], b[i..])
    decreases |a| - i
  {
    if i == |a| {
    } else {
      HammingSplits(a, b, i);
      HammingShrinks(a, b, i + 1, i + RuneWidth(a, i));
      SeenAtMostHamming(a, b, i + RuneWidth(a, i));
    }
  }

  /** No rune of the name takes more than one byte. */
  predicate SingleBytes(a: Name) {
    forall i | 0 <= i < |a| :: RuneWidth(a, i) == 1
  }

  predicate Ascii(a: Name)
    ensures Ascii(a) ==> SingleBytes(a)
  {
    forall i | 0 <= i < |a| :: a[i] < 0x80
  }

  lemma {:induction false} SingleHidesNothingFrom(a: Name, b: Name, i: nat)
    requires |a| == |b| && i <= |a| && SingleBytes(a)
    ensures SeenDiffs(a, b, i) == Hamming(a[i..], b[i..])
    decreases |a| - i
  {
    if i == |a| {
    } else {
      HammingSplits(a, b, i);
      SingleHidesNothingFrom(a, b, i + 1);
    }
  }

  lemma SingleHidesNothing(a: Name, b: Name)
    requires |a| == |b| && SingleBytes(a)
    ensures HiddenDiffs(a, b) == 0
  {
    SingleHidesNothingFrom(a, b, 0);
    assert a[0..] == a && b[0..] == b;
  }

  // ----- The check

  /** The check gives the right answer: lengths differ, or the differences hidden inside runes of `a` do not
      change whether there is exactly one. */
  predicate Reliable(a: Name, b: Name) {
    |a| != |b| || HiddenDiffs(a, b) == 0 || SeenDiffs(a, b, 0) >= 2
        || (SeenDiffs(a, b, 0) == 0 && HiddenDiffs(a, b) >= 2)
  }

  predicate Within1(a: Name, b: Name) {
    if |a| == |b| then SeenDiffs(a, b, 0) == 1
    else if |b| == |a| + 1 then Inserted(a, b)
    else |a| == |b| + 1 && Inserted(b, a)
  }

  /** The shortcut agrees with the full distance exactly on the reliable pairs. */
  lemma Within1ExactlyWhen(a: Name, b: Name)
    ensures (Within1(a, b) <==> Lev(a, b) == 1) <==> Reliable(a, b)
  {
    LevZero(a, b);
    LevAtLeast(a, b);
    if |a| == |b| {
      SeenAtMostHamming(a, b, 0);
      assert a[0..] == a && b[0..] == b;
      LevByHamming(a, b);
      HammingZero(a, b);
    } else if |b| == |a| + 1 {
      LevByInsertion(a, b);
    } else if |a| == |b| + 1 {
      LevByInsertion(b, a);
      LevSymmetric(a, b);
    }
  }

  /** For a first name of single bytes, such as an ASCII one, or names of different lengths, the check is the full
      distance, whichever way round. */
  lemma Within1IsDistanceOne(a: Name, b: Name)
    requires SingleBytes(a) || |a| != |b|
    ensures Within1(a, b) <==> Lev(a, b) == 1
    ensures SingleBytes(b) || |a| != |b| ==> (Within1(a, b) <==> Within1(b, a))
  {
    Within1ExactlyWhen(a, b);
    Within1ExactlyWhen(b, a);
    LevSymmetric(a, b);
    if |a| == |b| {
      SingleHidesNothing(a, b);
      if SingleBytes(b) {
        SingleHidesNothing(b, a);
      }
    }
  }

  /** One byte exchanged is one edit. */
  lemma OneByteOff(a: Name, i: nat, c: Byte)
    requires i < |a| && a[i] != c
    ensures Lev(a, a[i := c]) == 1
  {
    HammingOneOff(a, i, c);
    LevByHamming(a, a[i := c]);
    LevZero(a, a[i := c]);
    assert a[i := c][i] == c;
  }

  lemma {:induction false} HammingOneOff(a: Name, i: nat, c: Byte)
    requires i < |a| && a[i] != c
    ensures Hamming(a, a[i := c]) == 1
  {
    var b := a[i := c];
    if i == 0 {
      assert b[1..] == a[1..];
      HammingZero(a[1..], b[1..]);
    } else {
      assert b[1..] == a[1..][i - 1 := c];
      HammingOneOff(a[1..], i - 1, c);
    }
  }

  /** From a rune start on, nothing is seen of a difference that lies before it. */
  lemma {:induction false} NothingSeenBehind(a: Name, i: nat, c: Byte, from: nat)
    requires i < from <= |a|
    ensures SeenDiffs(a, a[i := c], from) == 0
    decreases |a| - from
  {
    if from == |a| {
    } else {
      NothingSeenBehind(a, i, c, from + RuneWidth(a, from));
    }
  }

  /** The second byte of the first wide rune is never looked at. */
  lemma {:induction false} SecondByteIsHidden(a: Name, wide: nat, c: Byte, from: nat)
    requires from <= wide < |a| && RuneWidth(a, wide) > 1 && forall i | 0 <= i < wide :: RuneWidth(a, i) == 1
    ensures SeenDiffs(a, a[wide + 1 := c], from) == 0
    decreases wide - from
  {
    if from == wide {
      NothingSeenBehind(a, wide + 1, c, wide + RuneWidth(a, wide));
    } else {
      SecondByteIsHidden(a, wide, c, from + 1);
    }
  }

  lemma FirstWide(a: Name) returns (wide: nat)
    requires !SingleBytes(a)
    ensures wide < |a| && RuneWidth(a, wide) > 1 && forall i | 0 <= i < wide :: RuneWidth(a, i) == 1
  {
    var w :| 0 <= w < |a| && RuneWidth(a, w) != 1;
    wide := 0;
    while RuneWidth(a, wide) == 1
      invariant wide <= w && forall i | 0 <= i < wide :: RuneWidth(a, i) == 1
      decreases w - wide
    {
      wide := wide + 1;
    }
  }

  /** A name with a wide rune has a neighbour that the check misses. */
  lemma WideNameIsMissed(a: Name) returns (b: Name)
    requires !SingleBytes(a)
    ensures Lev(a, b) == 1 && !Within1(a, b)
  {
    var wide := FirstWide(a);
    var c: Byte := if a[wide + 1] == 0 then 1 else 0;
    b := a[wide + 1 := c];
    OneByteOff(a, wide + 1, c);
    SecondByteIsHidden(a, wide, c, 0);
  }

  /** The check is right about a name, whatever it is compared with, exactly when the name has no rune of more than
      one byte. */
  lemma RightForNameExactlyWhen(a: Name)
    ensures (forall b :: Within1(a, b) <==> Lev(a, b) == 1) <==> SingleBytes(a)
  {
    if SingleBytes(a) {
      forall b ensures Within1(a, b) <==> Lev(a, b) == 1 {
        Within1IsDistanceOne(a, b);
      }
    } else {
      var b := WideNameIsMissed(a);
    }
  }

  /** Two one-letter names, e acute and e grave, are one byte apart, yet the check misses it; and it can depend on
      the order. */
  lemma NonAsciiMisses()
    ensures Lev([0xC3, 0xA9], [0xC3, 0xA8]) == 1 && !Within1([0xC3, 0xA9], [0xC3, 0xA8])
    ensures !Within1([0xC3, 0xA9], [0xC3, 0x41]) && Within1([0xC3, 0x41], [0xC3, 0xA9])
  {
    var acute: Name, grave: Name, broken: Name := [0xC3, 0xA9], [0xC3, 0xA8], [0xC3, 0x41];
    assert acute[1..] == [0xA9] && grave[1..] == [0xA8] && acute[1..][1..] == grave[1..][1..] == [];
    assert Hamming(acute[1..], grave[1..]) == 1;
    LevByHamming(acute, grave);
    LevZero(acute, grave);
    assert RuneWidth(acute, 0) == 2 && RuneWidth(broken, 0) == 1 && RuneWidth(broken, 1) == 1;
    assert SeenDiffs(acute, grave, 2) == 0 && SeenDiffs(acute, broken, 2) == 0;
    assert SeenDiffs(broken, acute, 2) == 0 && SeenDiffs(broken, acute, 1) == 1;
  }

  method EditDistanceWithin1(x: Name, y: Name) returns (r: bool)
    ensures r <==> Within1(x, y)
    ensures SingleBytes(x) || |x| != |y| ==> (r <==> Lev(x, y) == 1)
    ensures (r <==> Lev(x, y) == 1) <==> Reliable(x, y)
    // names of one length: the bytes differ at exactly one place where a rune of the first starts
    ensures |x| == |y| ==> (r <==> |set k | 0 <= k < |x| && RuneStart(x, k) && x[k] != y[k]| == 1)
  {
    if |x| == |y| {
      SeenExactlyWhen(x, y);
    }
    hide RuneStart;
    if SingleBytes(x) || |x| != |y| {
      Within1IsDistanceOne(x, y);
    }
    Within1ExactlyWhen(x, y);
    var a, b := x, y;
    var la, lb := |a|, |b|;
    if la > lb {
      a, b := b, a;
      la, lb := lb, la;
    }
    if lb - la > 1 {
      return false;
    }
    if la == lb {
      var diffs, i := 0, 0;
      while i < la
        invariant i <= la && diffs <= 1 && diffs + SeenDiffs(a, b, i) == SeenDiffs(a, b, 0)
      {
        if a[i] != b[i] {
          diffs := diffs + 1;
          if diffs > 1 {
            return false;
          }
        }
        i := i + RuneWidth(a, i);
      }
      return diffs == 1;
    }
    for i := 0 to la
      invariant Inserted(a[i..], b[i..]) == Inserted(a, b)
    {
      assert a[i..][1..] == a[i + 1..] && b[i..][1..] == b[i + 1..];
      if a[i] != b[i] {
        return a[i..] == b[i + 1..];
      }
    }
    return true;
  }

  method NearMiss(a: Name, b: Name) returns (r: bool)
    ensures r <==> a != b && Within1(a, b)
  {
    if a == b {
      return false;
    }
    r := EditDistanceWithin1(a, b);
  }

  // ----- The firewall

  /** Go's case folding, which is not modelled: any equivalence test and any lowering may stand in. */
  datatype Folding = Folding(equal: (Name, Name) -> bool, lower: Name -> Name)

  datatype Policy = Policy(denied: map<string, seq<Name>>, allowed: map<string, seq<Name>>,
                           popular: map<string, seq<Name>>, riskyParts: seq<Name>)

  datatype Verdict = DenyListed | DenyTyposquat(popular: Name) | ReviewRisky(part: Name) | ReviewUnlisted | Allow

  function Lookup(m: map<string, seq<Name>>, ecosystem: string): seq<Name> {
    if ecosystem in m then m[ecosystem] else []
  }

  predicate Listed(fold: Folding, names: seq<Name>, name: Name) {
    exists n | n in names :: fold.equal(n, name)
  }

  predicate ContainsPart(s: Name, part: Name) {
    part <= s || (s != [] && ContainsPart(s[1..], part))
  }

  /** The part is some stretch of the name. */
  ghost predicate Occurs(s: Name, part: Name) {
    exists i | 0 <= i <= |s| :: part <= s[i..]
  }

  lemma {:induction false} ContainsExactlyWhen(s: Name, part: Name)
    ensures ContainsPart(s, part) <==> Occurs(s, part)
    decreases |s|
  {
    assert s[0..] == s;
    if s == [] {
    } else {
      ContainsExactlyWhen(s[1..], part);
      assert forall i | 0 < i <= |s| :: s[1..][i - 1..] == s[i..];
      if ContainsPart(s[1..], part) {
        var i :| 0 <= i <= |s[1..]| && part <= s[1..][i..];
        assert part <= s[i + 1..];
      }
      if exists i | 0 <= i <= |s| :: part <= s[i..] {
        var i :| 0 <= i <= |s| && part <= s[i..];
        if i > 0 {
          assert part <= s[1..][i - 1..];
        }
      }
    }
  }

  predicate Squats(name: Name, popular: Name) {
    name != popular && Within1(name, popular)
  }

  /** Exactly when a name has no wide rune, it squats a popular one just if a single edit turns one into the other. */
  lemma SquattersAreCaughtExactlyWhen(name: Name)
    ensures (forall popular :: Squats(name, popular) <==> Lev(name, popular) == 1) <==> SingleBytes(name)
  {
    LevZero(name, name);
    Within1ExactlyWhen(name, name);
    forall b ensures Squats(name, b) <==> Within1(name, b) {
      if b == name {
        HammingZero(name, name);
        SeenAtMostHamming(name, name, 0);
        assert name[0..] == name;
      }
    }
    RightForNameExactlyWhen(name);
    hide Lev, Squats, SingleBytes;
  }

  method Contains(fold: Folding, names: seq<Name>, name: Name) returns (r: bool)
    ensures r <==> Listed(fold, names, name)
  {
    for i := 0 to |names|
      invariant forall n | n in names[..i] :: !fold.equal(n, name)
    {
      if fold.equal(names[i], name) {
        return true;
      }
    }
    return false;
  }

  /** A name is allowed exactly when nothing speaks against it, and is denied as a typosquat only of a popular name
      it squats. */
  method ScreenPackage(fold: Folding, p: Policy, ecosystem: string, name: Name) returns (v: Verdict)
    // denied: the name is on the ecosystem's deny list
    ensures v == DenyListed <==>
              ecosystem in p.denied && exists n | n in p.denied[ecosystem] :: fold.equal(n, name)
    // else denied: it is near a popular name, which is named
    ensures v.DenyTyposquat? <==>
              v != DenyListed && ecosystem in p.popular && exists q | q in p.popular[ecosystem] :: Squats(name, q)
    ensures v.DenyTyposquat? ==> v.popular in p.popular[ecosystem] && Squats(name, v.popular)
    // else to be reviewed: a risky part occurs somewhere in it, case folded
    ensures v.ReviewRisky? <==>
              && v != DenyListed && !v.DenyTyposquat?
              && exists part | part in p.riskyParts && part != [] :: Occurs(fold.lower(name), fold.lower(part))
    ensures v.ReviewRisky? ==> v.part in p.riskyParts && Occurs(fold.lower(name), fold.lower(v.part))
    // else allowed, unless the ecosystem has an allow list that lacks it
    ensures v == Allow <==>
              && v != DenyListed && !v.DenyTyposquat? && !v.ReviewRisky?
              && (ecosystem in p.allowed && p.allowed[ecosystem] != [] ==>
                    exists n | n in p.allowed[ecosystem] :: fold.equal(n, name))
    // an allowed ASCII name, or any without wide runes, is never one edit away from a popular name
    ensures v == Allow && Ascii(name) && ecosystem in p.popular ==>
              forall q | q in p.popular[ecosystem] :: Lev(name, q) != 1
    ensures v == Allow && SingleBytes(name) && ecosystem in p.popular ==>
              forall q | q in p.popular[ecosystem] :: Lev(name, q) != 1
  {
    var denied := Contains(fold, Lookup(p.denied, ecosystem), name);
    if denied {
      return DenyListed;
    }
    var popular := Lookup(p.popular, ecosystem);
    for i := 0 to |popular|
      invariant forall q | q in popular[..i] :: !Squats(name, q)
    {
      if name != popular[i] {
        var near := NearMiss(name, popular[i]);
        if near {
          assert Squats(name, popular[i]);
          return DenyTyposquat(popular[i]);
        }
      }
    }
    for i := 0 to |p.riskyParts|
      invariant forall part | part in p.riskyParts[..i] && part != [] :: !Occurs(fold.lower(name), fold.lower(part))
    {
      var part := p.riskyParts[i];
      ContainsExactlyWhen(fold.lower(name), fold.lower(part));
      if part != [] && ContainsPart(fold.lower(name), fold.lower(part)) {
        return ReviewRisky(part);
      }
    }
    SquattersAreCaughtExactlyWhen(name);
    var allowed := Lookup(p.allowed, ecosystem);
    var listed := Contains(fold, allowed, name);
    if |allowed| > 0 && !listed {
      return ReviewUnlisted;
    }
    return Allow;
  }
}
