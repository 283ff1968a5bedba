/** String facts shared by the models: white-space trimming, keys joined with a
    NUL separator, and the byte-wise order Go uses to compare strings. */
module Text {

  datatype Option<+T> = None | Some(value: T)

  type Byte = b: int | 0 <= b < 256

  const NUL: char := '\0'

  /** The characters Go's unicode.IsSpace accepts. */
  predicate IsSpace(c: char) {
    || c in "\t\n\r "
    || c as int in {0x0B, 0x0C, 0x85, 0xA0, 0x1680, 0x2028, 0x2029, 0x202F, 0x205F, 0x3000}
    || 0x2000 <= c as int <= 0x200A
  }

  function TrimLeft(s: string): string {
    if s != "" && IsSpace(s[0]) then TrimLeft(s[1..]) else s
  }

  function TrimRight(s: string): string {
    if s != "" && IsSpace(s[|s| - 1]) then TrimRight(s[..|s| - 1]) else s
  }

  function TrimSpace(s: string): string {
    TrimRight(TrimLeft(s))
  }

  /** No character of the string survives trimming. */
  predicate Blank(s: string) {
    forall i | 0 <= i < |s| :: IsSpace(s[i])
  }

  lemma {:induction false} TrimLeftBlank(s: string)
    ensures Blank(TrimLeft(s)) <==> Blank(s)
    ensures Blank(s) ==> TrimLeft(s) == ""
  {
    if s == "" || !IsSpace(s[0]) {
    } else {
      TrimLeftBlank(s[1..]);
      assert s == [s[0]] + s[1..];
    }
  }

  lemma {:induction false} TrimRightBlank(s: string)
    ensures Blank(TrimRight(s)) <==> Blank(s)
    ensures Blank(s) ==> TrimRight(s) == ""
  {
    if s == "" || !IsSpace(s[|s| - 1]) {
    } else {
      TrimRightBlank(s[..|s| - 1]);
      assert s == s[..|s| - 1] + [s[|s| - 1]];
    }
  }

  /** Trimming empties a string exactly when it is blank, and what it leaves of any other string is not blank. */
  lemma TrimSpaceBlank(s: string)
    ensures TrimSpace(s) == "" <==> Blank(s)
    ensures Blank(TrimSpace(s)) <==> Blank(s)
  {
    TrimLeftBlank(s);
    TrimRightBlank(TrimLeft(s));
  }

  /** What trimming removes, and that nothing more could be removed. */
  lemma {:induction false} TrimLeftMeaning(s: string) returns (left: string)
    ensures s == left + TrimLeft(s) && Blank(left)
    ensures TrimLeft(s) != "" ==> !IsSpace(TrimLeft(s)[0])
  {
    if s == "" || !IsSpace(s[0]) {
      left := "";
      assert "" + s == s;
    } else {
      var more := TrimLeftMeaning(s[1..]);
      left := [s[0]] + more;
      assert s == [s[0]] + s[1..] && [s[0]] + (more + TrimLeft(s)) == left + TrimLeft(s);
    }
  }

  lemma {:induction false} TrimRightMeaning(s: string) returns (right: string)
    ensures s == TrimRight(s) + right && Blank(right)
    ensures TrimRight(s) != "" ==> !IsSpace(TrimRight(s)[|TrimRight(s)| - 1])
  {
    if s == "" || !IsSpace(s[|s| - 1]) {
      right := "";
      assert s + "" == s;
    } else {
      var more := TrimRightMeaning(s[..|s| - 1]);
      right := more + [s[|s| - 1]];
      assert s == s[..|s| - 1] + [s[|s| - 1]] && (TrimRight(s) + more) + [s[|s| - 1]] == TrimRight(s) + right;
    }
  }

  /** Trimming cuts blanks off both ends, and no blank is left there. */
  lemma TrimSpaceMeaning(s: string) returns (left: string, right: string)
    ensures s == left + TrimSpace(s) + right && Blank(left) && Blank(right)
    ensures var core := TrimSpace(s); core != "" ==> !IsSpace(core[0]) && !IsSpace(core[|core| - 1])
  {
    left := TrimLeftMeaning(s);
    var rest, core := TrimLeft(s), TrimSpace(s);
    right := TrimRightMeaning(rest);
    assert left + (core + right) == left + core + right;
    if core != "" {
      assert rest[0] == core[0];
    }
  }

  function Joined(a: string, sep: char, b: string): string {
    a + [sep] + b
  }

  /** Where the pieces of a joined string are. */
  lemma JoinedParts(a: string, sep: char, b: string)
    ensures var j := Joined(a, sep, b);
      && |j| == |a| + 1 + |b| && j[..|a|] == a && j[|a|] == sep && j[|a| + 1..] == b
      && (forall k | 0 <= k < |a| :: j[k] in a)
      && (forall k | |a| < k < |j| :: j[k] in b)
  {
    var j := Joined(a, sep, b);
    forall k | |a| < k < |j| ensures j[k] in b {
      assert j[k] == b[k - |a| - 1];
    }
  }

  /** Joined strings that agree, with halves of the same length, have the same halves. */
  lemma JoinedSame(a1: string, b1: string, a2: string, b2: string, sep: char)
    requires Joined(a1, sep, b1) == Joined(a2, sep, b2) && |a1| == |a2|
    ensures a1 == a2 && b1 == b2
  {
    JoinedParts(a1, sep, b1);
    JoinedParts(a2, sep, b2);
  }

  /** A pair joined by a separator its second half is free of can be taken apart again. */
  lemma JoinInjectiveSuffix(a1: string, b1: string, a2: string, b2: string, sep: char)
    requires sep !in b1 && sep !in b2 && Joined(a1, sep, b1) == Joined(a2, sep, b2)
    ensures a1 == a2 && b1 == b2
  {
    assert |a1| == |a2| by {
      JoinedParts(a1, sep, b1);
      JoinedParts(a2, sep, b2);
      hide Joined;
    }
    JoinedSame(a1, b1, a2, b2, sep);
  }

  /** Likewise when the first halves are free of it. */
  lemma JoinInjectivePrefix(a1: string, b1: string, a2: string, b2: string, sep: char)
    requires sep !in a1 && sep !in a2 && Joined(a1, sep, b1) == Joined(a2, sep, b2)
    ensures a1 == a2 && b1 == b2
  {
    assert |a1| == |a2| by {
      JoinedParts(a1, sep, b1);
      JoinedParts(a2, sep, b2);
      hide Joined;
    }
    JoinedSame(a1, b1, a2, b2, sep);
  }

  /** Go's string comparison `a < b`. */
  predicate Less(a: string, b: string) {
    b != "" && (a == "" || a[0] < b[0] || (a[0] == b[0] && Less(a[1..], b[1..])))
  }

  /** The strings agree before `k`, and there `a` ends or has the smaller character. */
  ghost predicate SmallerAt(a: string, b: string, k: nat) {
    k <= |a| && k < |b| && (forall j | 0 <= j < k :: a[j] == b[j]) && (k == |a| || a[k] < b[k])
  }

  lemma {:induction false} LessExactlyWhen(a: string, b: string)
    ensures Less(a, b) <==> exists k: nat :: SmallerAt(a, b, k)
  {
    if a == "" || b == "" || a[0] != b[0] {
      assert Less(a, b) <==> SmallerAt(a, b, 0);
      assert forall k: nat | SmallerAt(a, b, k) :: k == 0;
    } else {
      LessExactlyWhen(a[1..], b[1..]);
      if k: nat :| SmallerAt(a[1..], b[1..], k) {
        SmallerFurther(a, b, k);
      }
      if k: nat :| SmallerAt(a, b, k) {
        SmallerFurther(a, b, k - 1);
      }
    }
  }

  lemma SmallerFurther(a: string, b: string, k: nat)
    requires a != "" && b != "" && a[0] == b[0]
    ensures SmallerAt(a, b, k + 1) <==> SmallerAt(a[1..], b[1..], k)
  {
    assert (forall j | 0 < j < |a| :: a[1..][j - 1] == a[j]) && forall j | 0 < j < |b| :: b[1..][j - 1] == b[j];
    if SmallerAt(a[1..], b[1..], k) {
      forall j | 0 <= j < k + 1 ensures a[j] == b[j] {
        assert j > 0 ==> a[1..][j - 1] == b[1..][j - 1];
      }
    }
  }

  lemma {:induction false} LessTotal(a: string, b: string)
    ensures Less(a, b) || a == b || Less(b, a)
    ensures !(Less(a, b) && (a == b || Less(b, a)))
  {
    if a == "" || b == "" || a[0] != b[0] {
    } else {
      LessTotal(a[1..], b[1..]);
      assert a == [a[0]] + a[1..] && b == [b[0]] + b[1..];
    }
  }

  lemma {:induction false} LessTransitive(a: string, b: string, c: string)
    requires Less(a, b) && Less(b, c)
    ensures Less(a, c)
  {
    if a != "" && a[0] == b[0] == c[0] {
      LessTransitive(a[1..], b[1..], c[1..]);
    }
  }

  // ----- UTF-8 (RFC 3629, section 3), the bytes Go indexes

  function Utf8Char(c: char): seq<Byte> {
    var n := c as int;
    if n < 0x80 then [n]
    else if n < 0x800 then [0xC0 + n / 64, 0x80 + n % 64]
    else if n < 0x1_0000 then [0xE0 + n / 4096, 0x80 + n / 64 % 64, 0x80 + n % 64]
    else [0xF0 + n / 0x4_0000, 0x80 + n / 4096 % 64, 0x80 + n / 64 % 64, 0x80 + n % 64]
  }

  function Utf8(s: string): seq<Byte> {
    if s == "" then [] else Utf8Char(s[0]) + Utf8(s[1..])
  }

  /** ASCII text is its own encoding. */
  lemma {:induction false} AsciiUtf8(s: string)
    requires forall i | 0 <= i < |s| :: s[i] as int < 0x80
    ensures |Utf8(s)| == |s| && forall i | 0 <= i < |s| :: Utf8(s)[i] == s[i] as int
  {
    if s == "" {
    } else {
      AsciiUtf8(s[1..]);
    }
  }
}
