/** String operations the modelled Python code relies on: `<=` on `str`, `list.sort`,
    `str.split`, the `in` substring test, `%0Nd` formatting and `int()` on a string. */
module Text {
  import opened Wrappers

  // ---------------------------------------------------------------------------
  // Python's ordering of `str`: code point by code point, a proper prefix first.

  predicate LexLe(a: string, b: string)
    decreases |a|
  {
    if |a| == 0 then true
    else if |b| == 0 then false
    else if a[0] == b[0] then LexLe(a[1..], b[1..])
    else a[0] < b[0]
  }

  lemma {:induction false} LexLeReflexive(a: string)
    ensures LexLe(a, a)
    decreases |a|
  {
    if |a| > 0 {
      LexLeReflexive(a[1..]);
    }
  }

  lemma {:induction false} LexLeTotal(a: string, b: string)
    ensures LexLe(a, b) || LexLe(b, a)
    decreases |a|
  {
    if |a| > 0 && |b| > 0 && a[0] == b[0] {
      LexLeTotal(a[1..], b[1..]);
    }
  }

  lemma {:induction false} LexLeAntisymmetric(a: string, b: string)
    requires LexLe(a, b) && LexLe(b, a)
    ensures a == b
    decreases |a|
  {
    if |a| > 0 && |b| > 0 {
      LexLeAntisymmetric(a[1..], b[1..]);
      assert a == [a[0]] + a[1..] && b == [b[0]] + b[1..];
    }
  }

  lemma {:induction false} LexLeTransitive(a: string, b: string, c: string)
    requires LexLe(a, b) && LexLe(b, c)
    ensures LexLe(a, c)
    decreases |a|
  {
    if |a| > 0 && |b| > 0 && |c| > 0 && a[0] == b[0] && b[0] == c[0] {
      LexLeTransitive(a[1..], b[1..], c[1..]);
    }
  }

  /** Comparing two strings whose first parts have equal length: the first parts decide,
      unless they are equal, in which case the rest decides. */
  lemma {:induction false} LexLeAppend(a: string, b: string, x: string, y: string)
    requires |a| == |b|
    ensures LexLe(a + x, b + y) == if a == b then LexLe(x, y) else LexLe(a, b)
    decreases |a|
  {
    if |a| > 0 {
      assert (a + x)[0] == a[0] && (b + y)[0] == b[0];
      assert (a + x)[1..] == a[1..] + x && (b + y)[1..] == b[1..] + y;
      LexLeAppend(a[1..], b[1..], x, y);
      if a[0] == b[0] {
        assert a == [a[0]] + a[1..] && b == [b[0]] + b[1..];
        assert (a == b) == (a[1..] == b[1..]);
      }
    } else {
      assert a + x == x && b + y == y;
    }
  }

  // ---------------------------------------------------------------------------
  // `list.sort()` on names, and the largest name.

  ghost predicate Sorted(s: seq<string>) {
    forall i, j :: 0 <= i < j < |s| ==> LexLe(s[i], s[j])
  }

  function Insert(x: string, s: seq<string>): (r: seq<string>)
    ensures multiset(r) == multiset(s) + multiset{x}
    ensures |r| == |s| + 1
  {
    if |s| == 0 then [x]
    else if LexLe(x, s[0]) then [x] + s
    else
      assert s == [s[0]] + s[1..];
      [s[0]] + Insert(x, s[1..])
  }

  /** The list sorted in ascending order (an insertion sort; `list.sort` is stable, which
      cannot be told apart on strings). */
  function SortNames(s: seq<string>): (r: seq<string>)
    ensures multiset(r) == multiset(s)
    ensures |r| == |s|
  {
    if |s| == 0 then []
    else
      assert s == [s[0]] + s[1..];
      Insert(s[0], SortNames(s[1..]))
  }

  lemma {:induction false} InsertSorted(x: string, s: seq<string>)
    requires Sorted(s)
    ensures Sorted(Insert(x, s))
    decreases |s|
  {
    if |s| == 0 {
    } else if LexLe(x, s[0]) {
      InsertAtFront(x, s);
    } else {
      LexLeTotal(x, s[0]);
      InsertSorted(x, s[1..]);
      InsertBelowAll(s[0], x, s[1..]);
      PrependBound(s[0], Insert(x, s[1..]));
    }
  }

  lemma InsertAtFront(x: string, s: seq<string>)
    requires Sorted(s) && |s| > 0 && LexLe(x, s[0])
    ensures Sorted([x] + s)
  {
    var r := [x] + s;
    forall i, j | 0 <= i < j < |r| ensures LexLe(r[i], r[j]) {
      if i == 0 && j > 1 {
        LexLeTransitive(x, s[0], s[j - 1]);
      }
    }
  }

  /** A bound below x and below every name of s stays below every name of Insert(x, s). */
  lemma InsertBelowAll(lo: string, x: string, s: seq<string>)
    requires LexLe(lo, x) && forall i :: 0 <= i < |s| ==> LexLe(lo, s[i])
    ensures forall k :: 0 <= k < |Insert(x, s)| ==> LexLe(lo, Insert(x, s)[k])
  {
    var t := Insert(x, s);
    forall k | 0 <= k < |t| ensures LexLe(lo, t[k]) {
      assert t[k] in multiset(t);
      if t[k] != x {
        assert t[k] in multiset(s);
        var m :| 0 <= m < |s| && s[m] == t[k];
      }
    }
  }

  lemma PrependBound(lo: string, t: seq<string>)
    requires Sorted(t) && forall k :: 0 <= k < |t| ==> LexLe(lo, t[k])
    ensures Sorted([lo] + t)
  {
    var r := [lo] + t;
    forall i, j | 0 <= i < j < |r| ensures LexLe(r[i], r[j]) {
      if i > 0 {
        assert r[i] == t[i - 1] && r[j] == t[j - 1];
      } else {
        assert r[j] == t[j - 1];
      }
    }
  }

  lemma {:induction false} SortNamesSorted(s: seq<string>)
    ensures Sorted(SortNames(s))
    decreases |s|
  {
    if |s| > 0 {
      SortNamesSorted(s[1..]);
      InsertSorted(s[0], SortNames(s[1..]));
    }
  }

  /** The lexicographically largest name of a non-empty list. */
  function LexMax(s: seq<string>): string
    requires |s| > 0
  {
    if |s| == 1 then s[0]
    else
      var m := LexMax(s[1..]);
      if LexLe(s[0], m) then m else s[0]
  }

  ghost predicate IsLexMax(x: string, s: seq<string>) {
    x in s && forall y :: y in s ==> LexLe(y, x)
  }

  lemma {:induction false} LexMaxIsMaximum(s: seq<string>)
    requires |s| > 0
    ensures IsLexMax(LexMax(s), s)
    decreases |s|
  {
    if |s| == 1 {
      LexLeReflexive(s[0]);
    } else {
      LexMaxIsMaximum(s[1..]);
      var m := LexMax(s[1..]);
      assert s == [s[0]] + s[1..];
      LexLeReflexive(s[0]);
      LexLeTotal(s[0], m);
      if !LexLe(s[0], m) {
        forall y | y in s ensures LexLe(y, s[0]) {
          if y != s[0] {
            LexLeTransitive(y, m, s[0]);
          }
        }
      }
    }
  }

  /** There is only one largest name. */
  lemma LexMaxUnique(x: string, y: string, s: seq<string>)
    requires IsLexMax(x, s) && IsLexMax(y, s)
    ensures x == y
  {
    LexLeAntisymmetric(x, y);
  }

  /** The last entry of the sorted list is the largest name: `all.sort(); all[-1]`. */
  lemma SortedLastIsLexMax(s: seq<string>)
    requires |s| > 0
    ensures SortNames(s)[|s| - 1] == LexMax(s)
  {
    var t := SortNames(s);
    SortNamesSorted(s);
    SortedLastIsMax(t);
    SameElementsKeepMax(t[|t| - 1], t, s);
    LexMaxIsMaximum(s);
    LexMaxUnique(t[|t| - 1], LexMax(s), s);
  }

  lemma SortedLastIsMax(t: seq<string>)
    requires |t| > 0 && Sorted(t)
    ensures IsLexMax(t[|t| - 1], t)
  {
    forall y | y in t ensures LexLe(y, t[|t| - 1]) {
      var k :| 0 <= k < |t| && t[k] == y;
      if k == |t| - 1 {
        LexLeReflexive(y);
      }
    }
  }

  lemma SameElementsKeepMax(x: string, t: seq<string>, s: seq<string>)
    requires multiset(t) == multiset(s) && IsLexMax(x, t)
    ensures IsLexMax(x, s)
  {
    assert x in multiset(t);
    forall y | y in s ensures LexLe(y, x) {
      assert y in multiset(t);
    }
  }

  // ---------------------------------------------------------------------------
  // `str.split(sep)` with an explicit one-character separator, and its inverse `sep.join`.

  function Split(s: string, sep: char): (r: seq<string>)
    ensures |r| >= 1
    decreases |s|
  {
    if |s| == 0 then [""]
    else
      var rest := Split(s[1..], sep);
      if s[0] == sep then [""] + rest
      else [[s[0]] + rest[0]] + rest[1..]
  }

  function Join(fields: seq<string>, sep: char): string
    requires |fields| >= 1
  {
    if |fields| == 1 then fields[0]
    else fields[0] + [sep] + Join(fields[1..], sep)
  }

  /** Splitting loses nothing: joining the fields again gives back the string. */
  lemma {:induction false} JoinSplit(s: string, sep: char)
    ensures Join(Split(s, sep), sep) == s
    decreases |s|
  {
    if |s| > 0 {
      JoinSplit(s[1..], sep);
      var rest := Split(s[1..], sep);
      if s[0] == sep {
        assert [""] + rest == [""] + rest;
        assert Join([""] + rest, sep) == "" + [sep] + Join(rest, sep);
      } else if |rest| == 1 {
        assert [s[0]] + s[1..] == s;
      } else {
        assert rest == [rest[0]] + rest[1..];
        var r := [[s[0]] + rest[0]] + rest[1..];
        assert r[1..] == rest[1..];
        assert Join(rest, sep) == rest[0] + [sep] + Join(rest[1..], sep);
        assert [s[0]] + s[1..] == s;
      }
    }
  }

  /** No field contains the separator. */
  lemma {:induction false} SplitFieldsAvoidSeparator(s: string, sep: char)
    ensures forall f :: f in Split(s, sep) ==> sep !in f
    decreases |s|
  {
    if |s| > 0 {
      SplitFieldsAvoidSeparator(s[1..], sep);
      var rest := Split(s[1..], sep);
      if s[0] != sep {
        assert rest[0] in rest;
        var r := [[s[0]] + rest[0]] + rest[1..];
        forall f | f in r ensures sep !in f {
          if f != r[0] {
            assert f in rest[1..];
            var k :| 0 <= k < |rest[1..]| && rest[1..][k] == f;
            assert rest[k + 1] == f;
          }
        }
      }
    }
  }

  /** A string without the separator is a single field. */
  lemma {:induction false} SplitWithoutSeparator(s: string, sep: char)
    requires sep !in s
    ensures Split(s, sep) == [s]
    decreases |s|
  {
    if |s| > 0 {
      assert sep !in s[1..] by {
        forall k | 0 <= k < |s[1..]| ensures s[1..][k] != sep { assert s[k + 1] == s[1..][k]; }
      }
      SplitWithoutSeparator(s[1..], sep);
      assert [s[0]] + s[1..] == s;
    }
  }

  /** Splitting at a separator concatenates the fields of both sides. */
  lemma {:induction false} SplitAtSeparator(a: string, sep: char, t: string)
    ensures Split(a + [sep] + t, sep) == Split(a, sep) + Split(t, sep)
    decreases |a|
  {
    var w := a + [sep] + t;
    if |a| == 0 {
      assert w == [sep] + t;
      assert w[1..] == t;
    } else {
      assert w[0] == a[0] && w[1..] == a[1..] + [sep] + t;
      SplitAtSeparator(a[1..], sep, t);
    }
  }

  // ---------------------------------------------------------------------------
  // The `in` test on strings.

  /** `sub in s` on Python strings. */
  predicate Contains(s: string, sub: string)
    decreases |s|
  {
    if |sub| > |s| then false
    else s[..|sub|] == sub || Contains(s[1..], sub)
  }

  /** `sub` occurs in `s` starting at index `i`. */
  predicate OccursAt(s: string, sub: string, i: int) {
    0 <= i <= |s| - |sub| && s[i..i + |sub|] == sub
  }

  lemma {:induction false} ContainsIff(s: string, sub: string)
    ensures Contains(s, sub) <==> exists i :: OccursAt(s, sub, i)
    decreases |s|
  {
    if |sub| <= |s| {
      assert OccursAt(s, sub, 0) <==> s[..|sub|] == sub;
      if |s| > 0 {
        ContainsIff(s[1..], sub);
        if Contains(s[1..], sub) {
          var i :| OccursAt(s[1..], sub, i);
          assert s[i + 1..i + 1 + |sub|] == s[1..][i..i + |sub|];
          assert OccursAt(s, sub, i + 1);
        }
        if exists i :: OccursAt(s, sub, i) {
          var i :| OccursAt(s, sub, i);
          if i > 0 {
            assert s[1..][i - 1..i - 1 + |sub|] == s[i..i + |sub|];
            assert OccursAt(s[1..], sub, i - 1);
          }
        }
      }
    }
  }

  lemma ContainsSuffix(p: string, sub: string)
    ensures Contains(p + sub, sub)
  {
    var s := p + sub;
    assert s[|p|..|p| + |sub|] == sub;
    assert OccursAt(s, sub, |p|);
    ContainsIff(s, sub);
  }

  // ---------------------------------------------------------------------------
  // Decimal digits: `"%0*d" % (width, n)` for n >= 0, and reading them back.

  function Pow10(k: nat): nat {
    if k == 0 then 1 else 10 * Pow10(k - 1)
  }

  predicate IsDigit(c: char) {
    '0' <= c <= '9'
  }

  predicate AllDigits(s: string) {
    forall i :: 0 <= i < |s| ==> IsDigit(s[i])
  }

  function DigitChar(d: nat): (c: char)
    requires d < 10
  {
    (48 + d) as char
  }

  function Zeros(k: nat): string {
    seq(k, _ => '0')
  }

  /** `n` in decimal, padded on the left with zeros to at least `width` characters. */
  function Pad(n: nat, width: nat): string
    decreases n
  {
    if n < 10 then Zeros(if width > 1 then width - 1 else 0) + [DigitChar(n)]
    else Pad(n / 10, if width > 1 then width - 1 else 0) + [DigitChar(n % 10)]
  }

  /** `str(n)` / `f"{n}"` for n >= 0. */
  function Decimal(n: nat): string {
    Pad(n, 1)
  }

  /** The value of a string of decimal digits (leading zeros allowed). */
  function DigitsValue(s: string): nat
    requires AllDigits(s)
  {
    if |s| == 0 then 0
    else DigitsValue(s[..|s| - 1]) * 10 + (s[|s| - 1] as int - 48)
  }

  lemma {:induction false} PadIsDigits(n: nat, width: nat)
    ensures AllDigits(Pad(n, width)) && |Pad(n, width)| >= 1 && |Pad(n, width)| >= width
    decreases n
  {
    if n >= 10 {
      PadIsDigits(n / 10, if width > 1 then width - 1 else 0);
    }
  }

  /** Pad is fixed-width below 10^width. */
  lemma {:induction false} PadWidth(n: nat, width: nat)
    requires width >= 1 && n < Pow10(width)
    ensures |Pad(n, width)| == width
    decreases n
  {
    if n >= 10 {
      assert width > 1;
      PadWidth(n / 10, width - 1);
    }
  }

  lemma {:induction false} ZerosValue(k: nat)
    ensures AllDigits(Zeros(k)) && DigitsValue(Zeros(k)) == 0
  {
    if k > 0 {
      assert Zeros(k)[..k - 1] == Zeros(k - 1);
      ZerosValue(k - 1);
    }
  }

  /** Reading the padded digits back gives the number. */
  lemma {:induction false} PadValue(n: nat, width: nat)
    ensures AllDigits(Pad(n, width)) && DigitsValue(Pad(n, width)) == n
    decreases n
  {
    PadIsDigits(n, width);
    var p := Pad(n, width);
    if n < 10 {
      var z := Zeros(if width > 1 then width - 1 else 0);
      ZerosValue(if width > 1 then width - 1 else 0);
      assert p[..|p| - 1] == z;
    } else {
      var q := Pad(n / 10, if width > 1 then width - 1 else 0);
      PadValue(n / 10, if width > 1 then width - 1 else 0);
      assert p[..|p| - 1] == q;
    }
  }

  /** From width 2 on, the padded form is the padded form of n / 10 followed by the last digit. */
  lemma PadStep(n: nat, width: nat)
    requires width >= 2
    ensures Pad(n, width) == Pad(n / 10, width - 1) + [DigitChar(n % 10)]
  {
    if n < 10 {
      assert Zeros(width - 2) + [DigitChar(0)] == Zeros(width - 1);
    }
  }

  /** On equal-width padded numbers the string order is the numeric order. */
  lemma {:induction false} PadOrder(a: nat, b: nat, width: nat)
    requires width >= 1 && a < Pow10(width) && b < Pow10(width)
    ensures LexLe(Pad(a, width), Pad(b, width)) <==> a <= b
    decreases width
  {
    if width == 1 {
      assert Pad(a, 1) == [DigitChar(a)] && Pad(b, 1) == [DigitChar(b)];
    } else {
      PadStep(a, width);
      PadStep(b, width);
      var pa, pb := Pad(a / 10, width - 1), Pad(b / 10, width - 1);
      PadWidth(a / 10, width - 1);
      PadWidth(b / 10, width - 1);
      LexLeAppend(pa, pb, [DigitChar(a % 10)], [DigitChar(b % 10)]);
      PadOrder(a / 10, b / 10, width - 1);
      if pa == pb {
        PadValue(a / 10, width - 1);
        PadValue(b / 10, width - 1);
        assert a / 10 == b / 10;
      } else {
        assert a / 10 != b / 10;
      }
    }
  }

  // ---------------------------------------------------------------------------
  // `int(text)` for a decimal string.

  /** The ASCII characters that `int()` skips around the number: space, tab, line feed,
      vertical tab, form feed and carriage return. */
  predicate IsSpace(c: char) {
    c == ' ' || c == '\t' || c == '\n' || c == '\r' || c == 11 as char || c == 12 as char
  }

  function TrimStart(s: string): string
    decreases |s|
  {
    if |s| > 0 && IsSpace(s[0]) then TrimStart(s[1..]) else s
  }

  function TrimEnd(s: string): string
    decreases |s|
  {
    if |s| > 0 && IsSpace(s[|s| - 1]) then TrimEnd(s[..|s| - 1]) else s
  }

  /** `int(text)`: optional surrounding whitespace, an optional sign, then one or more
      decimal digits; anything else raises ValueError (None here). */
  function PyInt(text: string): Option<int> {
    var t := TrimEnd(TrimStart(text));
    if |t| > 0 && (t[0] == '+' || t[0] == '-') then
      if |t| > 1 && AllDigits(t[1..]) then
        var magnitude: int := DigitsValue(t[1..]);
        Some(if t[0] == '-' then -magnitude else magnitude)
      else None
    else if |t| > 0 && AllDigits(t) then Some(DigitsValue(t))
    else None
  }

  lemma {:induction false} PyIntOfDigits(s: string)
    requires |s| > 0 && AllDigits(s)
    ensures PyInt(s) == Some(DigitsValue(s))
  {
    assert !IsSpace(s[0]) && !IsSpace(s[|s| - 1]);
    assert TrimStart(s) == s;
    assert TrimEnd(s) == s;
  }

  /** `int()` reads back what `%0Nd` wrote. */
  lemma PyIntOfPad(n: nat, width: nat)
    ensures PyInt(Pad(n, width)) == Some(n)
  {
    PadValue(n, width);
    PadIsDigits(n, width);
    PyIntOfDigits(Pad(n, width));
  }

  lemma {:induction false} TrimEndKeepsFirst(s: string)
    requires |s| > 0 && !IsSpace(s[0])
    ensures |TrimEnd(s)| > 0 && TrimEnd(s)[0] == s[0]
    decreases |s|
  {
    if IsSpace(s[|s| - 1]) {
      TrimEndKeepsFirst(s[..|s| - 1]);
    }
  }

  /** `int()` raises on a string whose first character is neither whitespace, a sign nor a digit. */
  lemma PyIntRejectsNonNumeric(s: string)
    requires |s| > 0 && !IsSpace(s[0]) && !IsDigit(s[0]) && s[0] != '+' && s[0] != '-'
    ensures PyInt(s) == None
  {
    assert TrimStart(s) == s;
    TrimEndKeepsFirst(s);
  }

  /** `int()` rejects a string without digits, such as the empty one. */
  lemma PyIntRejectsEmpty()
    ensures PyInt("") == None
  {
  }

  /** Two distinct numbers never print alike: `%0Nd` is injective. */
  lemma PadInjective(a: nat, b: nat, width: nat)
    requires Pad(a, width) == Pad(b, width)
    ensures a == b
  {
    PadValue(a, width);
    PadValue(b, width);
  }

  // ---------------------------------------------------------------------------
  // Taking concatenations apart.

  lemma CancelPrefix(a: string, x: string, b: string, y: string)
    requires |a| == |b| && a + x == b + y
    ensures a == b && x == y
  {
    assert a == (a + x)[..|a|];
    assert b == (b + y)[..|b|];
    assert x == (a + x)[|a|..];
    assert y == (b + y)[|b|..];
  }

  lemma CancelSuffix(x: string, a: string, y: string, b: string)
    requires |a| == |b| && x + a == y + b
    ensures a == b && x == y
  {
    assert |x| == |y|;
    CancelPrefix(x, a, y, b);
  }
}
