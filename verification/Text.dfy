/** Strings as the kernel uses them: ordered, trimmed, case-folded and printed. */
module Text {
  import opened Base

  /** Byte order of UTF-8 strings, which is code point order. */
  predicate Leq(a: string, b: string) {
    a == [] || (b != [] && (a[0] < b[0] || (a[0] == b[0] && Leq(a[1..], b[1..]))))
  }

  /** The first character in which two strings differ. */
  ghost predicate DiffersFirstAt(a: string, b: string, i: nat) {
    i < |a| && i < |b| && a[..i] == b[..i] && a[i] != b[i]
  }

  /** A string comes before its extensions, and before strings with a greater first difference. */
  lemma {:induction false} LeqMeans(a: string, b: string)
    ensures Leq(a, b) <==> a <= b || exists i: nat :: DiffersFirstAt(a, b, i) && a[i] as int < b[i] as int
  {
    if a != [] && b != [] {
      if a[0] == b[0] {
        LeqMeans(a[1..], b[1..]);
        assert a <= b <==> a[1..] <= b[1..];
        forall i: nat ensures DiffersFirstAt(a, b, i + 1) <==> DiffersFirstAt(a[1..], b[1..], i) {
          if i < |a| - 1 && i < |b| - 1 {
            assert a[..i + 1] == [a[0]] + a[1..][..i] && b[..i + 1] == [b[0]] + b[1..][..i];
            assert a[..i + 1][1..] == a[1..][..i] && b[..i + 1][1..] == b[1..][..i];
          }
        }
        ShiftDifference(a, b);
      } else {
        assert DiffersFirstAt(a, b, 0);
        assert forall i: nat :: i > 0 && DiffersFirstAt(a, b, i) ==> a[..i][0] == b[..i][0];
      }
    }
  }

  lemma ShiftDifference(a: string, b: string)
    requires a != [] && b != [] && a[0] == b[0]
    requires forall i: nat :: DiffersFirstAt(a, b, i + 1) <==> DiffersFirstAt(a[1..], b[1..], i)
    ensures (exists i: nat :: DiffersFirstAt(a, b, i) && a[i] as int < b[i] as int) <==>
      exists i: nat :: DiffersFirstAt(a[1..], b[1..], i) && a[1..][i] as int < b[1..][i] as int
  {
    if i: nat :| DiffersFirstAt(a, b, i) && a[i] as int < b[i] as int {
      assert i > 0;
      assert DiffersFirstAt(a, b, (i - 1) + 1) && a[1..][i - 1] == a[i] && b[1..][i - 1] == b[i];
    }
    if i: nat :| DiffersFirstAt(a[1..], b[1..], i) && a[1..][i] as int < b[1..][i] as int {
      assert DiffersFirstAt(a, b, i + 1);
    }
  }

  lemma {:induction false} LeqReflexive(a: string)
    ensures Leq(a, a)
  {
    if a != [] { LeqReflexive(a[1..]); }
  }

  lemma {:induction false} LeqTotal(a: string, b: string)
    ensures Leq(a, b) || Leq(b, a)
  {
    if a != [] && b != [] { LeqTotal(a[1..], b[1..]); }
  }

  lemma {:induction false} LeqAntisymmetric(a: string, b: string)
    requires Leq(a, b) && Leq(b, a)
    ensures a == b
  {
    if a != [] && b != [] {
      LeqAntisymmetric(a[1..], b[1..]);
      assert a == [a[0]] + a[1..] && b == [b[0]] + b[1..];
    }
  }

  lemma {:induction false} LeqTransitive(a: string, b: string, c: string)
    requires Leq(a, b) && Leq(b, c)
    ensures Leq(a, c)
  {
    if a != [] && b != [] && c != [] && a[0] == b[0] == c[0] {
      LeqTransitive(a[1..], b[1..], c[1..]);
    }
  }

  ghost predicate IsLeast(m: string, s: set<string>) {
    m in s && forall x :: x in s ==> Leq(m, x)
  }

  lemma {:induction false} LeastExists(s: set<string>)
    requires s != {}
    ensures exists m :: IsLeast(m, s)
    decreases |s|
  {
    var x :| x in s;
    LeqReflexive(x);
    if s == {x} {
      assert IsLeast(x, s);
    } else {
      var rest := s - {x};
      assert s == rest + {x};
      LeastExists(rest);
      var m :| IsLeast(m, rest);
      LeqTotal(m, x);
      if Leq(m, x) {
        assert IsLeast(m, s);
      } else {
        forall y | y in s ensures Leq(x, y) {
          if y != x { LeqTransitive(x, m, y); }
        }
        assert IsLeast(x, s);
      }
    }
  }

  lemma LeastUnique(m: string, n: string, s: set<string>)
    requires IsLeast(m, s) && IsLeast(n, s)
    ensures m == n
  {
    LeqAntisymmetric(m, n);
  }

  /** The first key of a non-empty ordered map. */
  ghost function LeastOf(s: set<string>): (m: string)
    requires s != {}
    ensures IsLeast(m, s)
  {
    LeastExists(s);
    var m: string :| IsLeast(m, s);
    m
  }

  /** The keys of an ordered map in the order its iterator yields them. */
  ghost function SortedKeys(s: set<string>): (r: seq<string>)
    decreases |s|
  {
    if s == {} then [] else [LeastOf(s)] + SortedKeys(s - {LeastOf(s)})
  }

  ghost predicate Ascending(r: seq<string>) {
    forall i, j :: 0 <= i < j < |r| ==> Leq(r[i], r[j])
  }

  lemma PrependLeast(m: string, r: seq<string>, s: set<string>)
    requires IsLeast(m, s) && Elems(r) == s - {m} && NoDup(r) && Ascending(r)
    ensures Elems([m] + r) == s && NoDup([m] + r) && Ascending([m] + r)
  {
    assert forall i :: 0 <= i < |r| ==> r[i] in Elems(r);
    assert Elems([m] + r) == {m} + Elems(r);
  }

  lemma {:induction false} SortedKeysSorted(s: set<string>)
    ensures Elems(SortedKeys(s)) == s && NoDup(SortedKeys(s)) && Ascending(SortedKeys(s))
    decreases |s|
  {
    if s != {} {
      SortedKeysSorted(s - {LeastOf(s)});
      PrependLeast(LeastOf(s), SortedKeys(s - {LeastOf(s)}), s);
    }
  }

  /** The ascending enumeration of a set is unique. */
  lemma {:induction false} SortedKeysUnique(r: seq<string>)
    requires NoDup(r) && Ascending(r)
    ensures r == SortedKeys(Elems(r))
  {
    if r != [] {
      var rest := r[1..];
      assert r == [r[0]] + rest;
      SortedKeysUnique(rest);
      assert Elems(r) - {r[0]} == Elems(rest);
      LeqReflexive(r[0]);
      assert IsLeast(r[0], Elems(r));
      LeastUnique(r[0], LeastOf(Elems(r)), Elems(r));
    }
  }

  /** Iterating an ordered map: its keys in ascending order. */
  method KeysInOrder(s: set<string>) returns (r: seq<string>)
    ensures r == SortedKeys(s)
  {
    r := [];
    var rest := s;
    while rest != {}
      invariant r + SortedKeys(rest) == SortedKeys(s)
      decreases |rest|
    {
      LeastExists(rest);
      var m :| m in rest && forall x :: x in rest ==> Leq(m, x);
      assert IsLeast(m, rest);
      LeastUnique(m, LeastOf(rest), rest);
      assert SortedKeys(rest) == [m] + SortedKeys(rest - {m});
      r := r + [m];
      rest := rest - {m};
    }
  }

  // ----- Trimming and case folding -----

  /** The characters with the White_Space property. */
  predicate IsWhitespace(c: char) {
    var n := c as int;
    || 9 <= n <= 13 || n == 0x20 || n == 0x85 || n == 0xA0 || n == 0x1680 || 0x2000 <= n <= 0x200A
    || n == 0x2028 || n == 0x2029 || n == 0x202F || n == 0x205F || n == 0x3000
  }

  function TrimStart(s: string): string {
    if s != [] && IsWhitespace(s[0]) then TrimStart(s[1..]) else s
  }

  function TrimEnd(s: string): string {
    if s != [] && IsWhitespace(s[|s| - 1]) then TrimEnd(s[..|s| - 1]) else s
  }

  function Trim(s: string): string {
    TrimEnd(TrimStart(s))
  }

  /** No whitespace at either end. */
  predicate IsTrimmed(s: string) {
    s == [] || (!IsWhitespace(s[0]) && !IsWhitespace(s[|s| - 1]))
  }

  lemma {:induction false} TrimStartTrims(s: string)
    ensures var t := TrimStart(s); t == [] || !IsWhitespace(t[0])
  {
    if s != [] && IsWhitespace(s[0]) { TrimStartTrims(s[1..]); }
  }

  lemma {:induction false} TrimEndTrims(s: string)
    ensures var t := TrimEnd(s); t <= s && (t == [] || !IsWhitespace(t[|t| - 1]))
  {
    if s != [] && IsWhitespace(s[|s| - 1]) { TrimEndTrims(s[..|s| - 1]); }
  }

  lemma TrimTrims(s: string)
    ensures IsTrimmed(Trim(s))
  {
    TrimStartTrims(s);
    TrimEndTrims(TrimStart(s));
  }

  lemma TrimmedUnchanged(s: string)
    requires IsTrimmed(s)
    ensures Trim(s) == s
  {
  }

  lemma {:induction false} TrimStartKeeps(s: string, i: nat)
    requires i < |s| && !IsWhitespace(s[i])
    ensures TrimStart(s) != [] && s[i] in TrimStart(s)
  {
    if IsWhitespace(s[0]) {
      assert s[1..][i - 1] == s[i];
      TrimStartKeeps(s[1..], i - 1);
    }
  }

  lemma {:induction false} TrimEndKeeps(s: string, i: nat)
    requires i < |s| && !IsWhitespace(s[i])
    ensures TrimEnd(s) != []
  {
    if IsWhitespace(s[|s| - 1]) { TrimEndKeeps(s[..|s| - 1], i); }
  }

  /** Trimming leaves something of a string that is not blank. */
  lemma TrimKeeps(s: string, i: nat)
    requires i < |s| && !IsWhitespace(s[i])
    ensures Trim(s) != []
  {
    TrimStartKeeps(s, i);
    var t := TrimStart(s);
    var j :| 0 <= j < |t| && t[j] == s[i];
    TrimEndKeeps(t, j);
  }

  function LowerChar(c: char): char {
    if 'A' <= c <= 'Z' then (c as int + 32) as char else c
  }

  function UpperChar(c: char): char {
    if 'a' <= c <= 'z' then (c as int - 32) as char else c
  }

  function Lower(s: string): (r: string)
    ensures |r| == |s| && forall i :: 0 <= i < |s| ==> r[i] == LowerChar(s[i])
  {
    if s == [] then [] else [LowerChar(s[0])] + Lower(s[1..])
  }

  function Upper(s: string): (r: string)
    ensures |r| == |s| && forall i :: 0 <= i < |s| ==> r[i] == UpperChar(s[i])
  {
    if s == [] then [] else [UpperChar(s[0])] + Upper(s[1..])
  }

  /** Normal form of names: normalizing twice changes nothing. */
  lemma LowerTrimIdempotent(s: string)
    ensures Lower(Trim(Lower(Trim(s)))) == Lower(Trim(s))
  {
    var t := Lower(Trim(s));
    TrimTrims(s);
    assert IsTrimmed(t);
    TrimmedUnchanged(t);
    assert Lower(t) == t;
  }

  lemma UpperTrimIdempotent(s: string)
    ensures Upper(Trim(Upper(Trim(s)))) == Upper(Trim(s))
    ensures Trim(Upper(Trim(s))) == Upper(Trim(s))
  {
    var t := Upper(Trim(s));
    TrimTrims(s);
    assert IsTrimmed(t);
    TrimmedUnchanged(t);
    assert Upper(t) == t;
  }

  // ----- Spellings of one name -----

  /** The same character up to the case of a Latin letter, by code points. */
  predicate CaseVariant(a: char, b: char) {
    var m, n := a as int, b as int;
    m == n || (0x41 <= m <= 0x5A && n == m + 0x20) || (0x41 <= n <= 0x5A && m == n + 0x20)
  }

  lemma FoldsCase(a: char, b: char)
    ensures LowerChar(a) == LowerChar(b) <==> CaseVariant(a, b)
    ensures UpperChar(a) == UpperChar(b) <==> CaseVariant(a, b)
  {
  }

  /** Lower case has no capitals left, and differs from the string in capitals only; upper case alike. */
  lemma CaseMeans(s: string, i: nat)
    requires i < |s|
    ensures !(0x41 <= Lower(s)[i] as int <= 0x5A) && !(0x61 <= Upper(s)[i] as int <= 0x7A)
    ensures Lower(s)[i] == s[i] <==> !(0x41 <= s[i] as int <= 0x5A)
    ensures Upper(s)[i] == s[i] <==> !(0x61 <= s[i] as int <= 0x7A)
    ensures CaseVariant(Lower(s)[i], s[i]) && CaseVariant(Upper(s)[i], s[i])
  {
  }

  lemma WhitespaceIs(c: char)
    ensures IsWhitespace(c) <==> c as int in {
      0x9, 0xA, 0xB, 0xC, 0xD, 0x20, 0x85, 0xA0, 0x1680,
      0x2000, 0x2001, 0x2002, 0x2003, 0x2004, 0x2005, 0x2006, 0x2007, 0x2008, 0x2009, 0x200A,
      0x2028, 0x2029, 0x202F, 0x205F, 0x3000}
  {
  }

  predicate Blank(s: string) {
    forall i :: 0 <= i < |s| ==> IsWhitespace(s[i])
  }

  /** `t` is `s` without surrounding whitespace. */
  ghost predicate Spells(s: string, t: string) {
    IsTrimmed(t) && exists front, back :: Blank(front) && Blank(back) && s == front + t + back
  }

  lemma {:induction false} TrimStartCuts(s: string) returns (front: string)
    ensures Blank(front) && s == front + TrimStart(s)
  {
    if s != [] && IsWhitespace(s[0]) {
      var rest := TrimStartCuts(s[1..]);
      front := [s[0]] + rest;
      assert s == [s[0]] + s[1..];
    } else {
      front := [];
    }
  }

  lemma {:induction false} TrimEndCuts(s: string) returns (back: string)
    ensures Blank(back) && s == TrimEnd(s) + back
  {
    if s != [] && IsWhitespace(s[|s| - 1]) {
      var rest := TrimEndCuts(s[..|s| - 1]);
      back := rest + [s[|s| - 1]];
      assert s == s[..|s| - 1] + [s[|s| - 1]];
    } else {
      back := [];
    }
  }

  lemma {:induction false} TrimStartUnique(front: string, t: string)
    requires Blank(front) && (t == [] || !IsWhitespace(t[0]))
    ensures TrimStart(front + t) == t
  {
    if front == [] {
      assert front + t == t;
    } else {
      assert (front + t)[1..] == front[1..] + t;
      TrimStartUnique(front[1..], t);
    }
  }

  lemma {:induction false} TrimEndUnique(t: string, back: string)
    requires Blank(back) && (t == [] || !IsWhitespace(t[|t| - 1]))
    ensures TrimEnd(t + back) == t
  {
    if back == [] {
      assert t + back == t;
    } else {
      var n := |back| - 1;
      assert (t + back)[..|t + back| - 1] == t + back[..n];
      TrimEndUnique(t, back[..n]);
    }
  }

  lemma {:induction false} BlankVanishes(s: string)
    requires Blank(s)
    ensures TrimStart(s) == []
  {
    if s != [] { BlankVanishes(s[1..]); }
  }

  /** Trimming removes all surrounding whitespace and nothing else. */
  lemma TrimMeans(s: string, t: string)
    ensures Trim(s) == t <==> Spells(s, t)
  {
    TrimTrims(s);
    var a := TrimStartCuts(s);
    var b := TrimEndCuts(TrimStart(s));
    assert s == a + Trim(s) + b;
    assert Spells(s, Trim(s));
    if Spells(s, t) {
      var front, back :| Blank(front) && Blank(back) && s == front + t + back;
      if t == [] {
        assert s == front + back;
        BlankVanishes(s);
      } else {
        assert s == front + (t + back);
        TrimStartUnique(front, t + back);
        TrimEndUnique(t, back);
      }
    }
  }

  /** Nothing is left of a string exactly when it is whitespace throughout. */
  lemma BlankIff(s: string)
    ensures Trim(s) == "" <==> Blank(s)
  {
    if Blank(s) {
      BlankVanishes(s);
    } else {
      var i :| 0 <= i < |s| && !IsWhitespace(s[i]);
      TrimKeeps(s, i);
    }
  }

  /** The same name up to the case of Latin letters and surrounding whitespace. */
  ghost predicate SpelledAlike(a: string, b: string) {
    exists x, y :: Spells(a, x) && Spells(b, y) && |x| == |y| && forall i :: 0 <= i < |x| ==> CaseVariant(x[i], y[i])
  }

  ghost predicate SamePlaces(x: string, y: string) {
    |x| == |y| && forall i :: 0 <= i < |x| ==> CaseVariant(x[i], y[i])
  }

  lemma AlikeIsSamePlaces(a: string, b: string)
    ensures SpelledAlike(a, b) <==> SamePlaces(Trim(a), Trim(b))
  {
    hide Trim, Spells, CaseVariant;
    TrimMeans(a, Trim(a));
    TrimMeans(b, Trim(b));
    forall s, t | Spells(a, s) && Spells(b, t) ensures s == Trim(a) && t == Trim(b) {
      TrimMeans(a, s);
      TrimMeans(b, t);
    }
  }

  lemma LowerAlike(x: string, y: string)
    ensures Lower(x) == Lower(y) <==> SamePlaces(x, y)
  {
    hide LowerChar, UpperChar, CaseVariant, Lower;
    forall i | 0 <= i < |x| && i < |y| ensures CaseVariant(x[i], y[i]) <==> Lower(x)[i] == Lower(y)[i] {
      FoldsCase(x[i], y[i]);
    }
    assert |Lower(x)| == |x| && |Lower(y)| == |y|;
  }

  lemma UpperAlike(x: string, y: string)
    ensures Upper(x) == Upper(y) <==> SamePlaces(x, y)
  {
    hide LowerChar, UpperChar, CaseVariant, Upper;
    forall i | 0 <= i < |x| && i < |y| ensures CaseVariant(x[i], y[i]) <==> Upper(x)[i] == Upper(y)[i] {
      FoldsCase(x[i], y[i]);
    }
    assert |Upper(x)| == |x| && |Upper(y)| == |y|;
  }

  /** Two names normalize alike exactly when they are spellings of one name. */
  lemma NormalFormsIff(a: string, b: string)
    ensures Lower(Trim(a)) == Lower(Trim(b)) <==> SpelledAlike(a, b)
    ensures Upper(Trim(a)) == Upper(Trim(b)) <==> SpelledAlike(a, b)
  {
    hide Trim, SamePlaces, SpelledAlike, Lower, Upper;
    AlikeIsSamePlaces(a, b);
    LowerAlike(Trim(a), Trim(b));
    UpperAlike(Trim(a), Trim(b));
  }

  // ----- Decimal numbers -----

  function Digit(d: nat): char
    requires d < 10
  {
    ('0' as int + d) as char
  }

  /** The decimal digits of a number, as `to_string` prints them. */
  function Print(n: nat): (r: string)
    ensures r != [] && forall i :: 0 <= i < |r| ==> '0' <= r[i] <= '9'
  {
    if n < 10 then [Digit(n)] else Print(n / 10) + [Digit(n % 10)]
  }

  predicate AllDigits(s: string) {
    forall i :: 0 <= i < |s| ==> '0' <= s[i] <= '9'
  }

  /** The number written by a string of digits. */
  function ValueOf(s: string): nat
    requires AllDigits(s)
  {
    if s == [] then 0 else ValueOf(s[..|s| - 1]) * 10 + (s[|s| - 1] as int - '0' as int)
  }

  /** Reads a 64-bit number: an optional plus sign, then at least one digit. */
  function ParseU64(s: string): Option<u64> {
    var digits := if s != [] && s[0] == '+' then s[1..] else s;
    if digits == [] || !AllDigits(digits) then None
    else
      var n := ValueOf(digits);
      if n < U64_LIMIT then Some(n) else None
  }

  lemma {:induction false} ValueOfPrint(n: nat)
    ensures ValueOf(Print(n)) == n
  {
    if n >= 10 {
      ValueOfPrint(n / 10);
      assert Print(n)[..|Print(n)| - 1] == Print(n / 10);
    } else {
      assert Print(n)[..0] == [];
    }
  }

  /** Printing and reading back. */
  lemma ParsePrint(n: u64)
    ensures ParseU64(Print(n)) == Some(n)
  {
    ValueOfPrint(n);
  }
}
