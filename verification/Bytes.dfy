/** The byte encodings shared by every canonical format of the kernel. */
module Bytes {
  import opened Base

  /** 256 to the power `k`. */
  ghost function Radix(k: nat): nat {
    if k == 0 then 1 else 256 * Radix(k - 1)
  }

  /** The `k` low-order bytes of `n`, most significant first. */
  function BigEndian(n: nat, k: nat): (r: seq<byte>)
    ensures |r| == k
  {
    if k == 0 then [] else BigEndian(n / 256, k - 1) + [n % 256]
  }

  lemma {:induction false} BigEndianInjective(m: nat, n: nat, k: nat)
    requires m < Radix(k) && n < Radix(k) && BigEndian(m, k) == BigEndian(n, k)
    ensures m == n
  {
    if k > 0 {
      var a, b := BigEndian(m / 256, k - 1), BigEndian(n / 256, k - 1);
      assert BigEndian(m, k)[..k - 1] == a && BigEndian(n, k)[..k - 1] == b;
      assert BigEndian(m, k)[k - 1] == m % 256 && BigEndian(n, k)[k - 1] == n % 256;
      assert m / 256 < Radix(k - 1) && n / 256 < Radix(k - 1);
      BigEndianInjective(m / 256, n / 256, k - 1);
    }
  }

  /** Writing the high and the low half separately writes the whole number. */
  lemma {:induction false} BigEndianHalves(hi: nat, lo: nat, j: nat, k: nat)
    requires lo < Radix(k)
    ensures BigEndian(hi * Radix(k) + lo, j + k) == BigEndian(hi, j) + BigEndian(lo, k)
    decreases k
  {
    if k == 0 {
      assert hi * Radix(0) + lo == hi;
    } else {
      var n := hi * Radix(k) + lo;
      assert n == 256 * (hi * Radix(k - 1) + lo / 256) + lo % 256;
      assert n / 256 == hi * Radix(k - 1) + lo / 256 && n % 256 == lo % 256;
      assert lo / 256 < Radix(k - 1);
      BigEndianHalves(hi, lo / 256, j, k - 1);
    }
  }

  lemma RadixOfWord()
    ensures Radix(1) == 256 && Radix(4) == 0x1_0000_0000 && Radix(8) == U64_LIMIT && Radix(16) == U128_LIMIT
  {
    assert Radix(2) == 0x1_0000 && Radix(3) == 0x100_0000;
    assert Radix(5) == 0x100_0000_0000 && Radix(6) == 0x1_0000_0000_0000 && Radix(7) == 0x100_0000_0000_0000;
    assert Radix(9) == 256 * Radix(8) && Radix(10) == 256 * Radix(9) && Radix(11) == 256 * Radix(10);
    assert Radix(12) == 256 * Radix(11) && Radix(13) == 256 * Radix(12) && Radix(14) == 256 * Radix(13);
    assert Radix(15) == 256 * Radix(14) && Radix(16) == 256 * Radix(15);
  }

  /** The UTF-8 form of a character. */
  function Utf8Char(c: char): seq<byte> {
    var n := c as int;
    if n < 0x80 then [n]
    else if n < 0x800 then [0xC0 + n / 64, 0x80 + n % 64]
    else if n < 0x1_0000 then [0xE0 + n / 4096, 0x80 + n / 64 % 64, 0x80 + n % 64]
    else [0xF0 + n / 262144, 0x80 + n / 4096 % 64, 0x80 + n / 64 % 64, 0x80 + n % 64]
  }

  /** The bytes of a string, as `str::as_bytes` gives them. */
  function Utf8(s: string): seq<byte> {
    if s == [] then [] else Utf8Char(s[0]) + Utf8(s[1..])
  }

  /** The payload of the `i`-th byte of a UTF-8 sequence. */
  function Tail(b: seq<byte>, i: nat): int {
    if i < |b| then b[i] as int - 0x80 else 0
  }

  /** The code point at the front of a stream of UTF-8 bytes, and its number of bytes. */
  function FirstChar(b: seq<byte>): (int, nat)
    requires b != []
  {
    var lead := b[0] as int;
    if lead < 0x80 then (lead, 1)
    else if lead < 0xE0 then ((lead - 0xC0) * 64 + Tail(b, 1), 2)
    else if lead < 0xF0 then ((lead - 0xE0) * 4096 + Tail(b, 1) * 64 + Tail(b, 2), 3)
    else ((lead - 0xF0) * 262144 + Tail(b, 1) * 4096 + Tail(b, 2) * 64 + Tail(b, 3), 4)
  }

  lemma FirstCharOf(c: char, rest: seq<byte>)
    ensures FirstChar(Utf8Char(c) + rest) == (c as int, |Utf8Char(c)|)
  {
    var n, b := c as int, Utf8Char(c) + rest;
    if n < 0x80 {
    } else if n < 0x800 {
      assert b[0] == 0xC0 + n / 64 && b[1] == 0x80 + n % 64;
    } else if n < 0x1_0000 {
      assert b[0] == 0xE0 + n / 4096 && b[1] == 0x80 + n / 64 % 64 && b[2] == 0x80 + n % 64;
      assert n / 64 / 64 == n / 4096;
    } else {
      assert b[0] == 0xF0 + n / 262144 && b[1] == 0x80 + n / 4096 % 64 && b[2] == 0x80 + n / 64 % 64;
      assert b[3] == 0x80 + n % 64;
      assert n / 64 / 64 == n / 4096 && n / 4096 / 64 == n / 262144;
    }
  }

  /** Different strings have different bytes. */
  lemma {:induction false} Utf8Injective(a: string, b: string)
    requires Utf8(a) == Utf8(b)
    ensures a == b
  {
    if a != [] && b != [] {
      FirstCharOf(a[0], Utf8(a[1..]));
      FirstCharOf(b[0], Utf8(b[1..]));
      var k := |Utf8Char(a[0])|;
      assert Utf8(a)[k..] == Utf8(a[1..]) && Utf8(b)[k..] == Utf8(b[1..]);
      Utf8Injective(a[1..], b[1..]);
      assert a == [a[0]] + a[1..] && b == [b[0]] + b[1..];
    }
  }

  /** A length that fits the 64-bit length prefix, as every length in memory does. */
  ghost predicate FitsPrefix(n: nat) {
    n < U64_LIMIT
  }

  function Word(n: nat): (r: seq<byte>)
    ensures |r| == 8
  {
    BigEndian(n, 8)
  }

  function Flag(b: bool): seq<byte> {
    if b then [1] else [0]
  }

  /** A length-prefixed string. */
  function Str(s: string): seq<byte> {
    Word(|Utf8(s)|) + Utf8(s)
  }

  ghost predicate StrFits(s: string) {
    FitsPrefix(|Utf8(s)|)
  }

  /** Encodings one after the other, without a length prefix. */
  function Items<T>(enc: T -> seq<byte>, xs: seq<T>): seq<byte> {
    if xs == [] then [] else enc(xs[0]) + Items(enc, xs[1..])
  }

  /** A length-prefixed list. */
  function List<T>(enc: T -> seq<byte>, xs: seq<T>): seq<byte> {
    Word(|xs|) + Items(enc, xs)
  }

  lemma SplitAt<T>(k: nat, a: seq<T>, r: seq<T>, b: seq<T>, s: seq<T>)
    requires |a| == k && |b| == k && a + r == b + s
    ensures a == b && r == s
  {
    assert a == (a + r)[..k] && b == (b + s)[..k];
    assert r == (a + r)[k..] && s == (b + s)[k..];
  }

  lemma WordSeparates(m: nat, n: nat, r: seq<byte>, s: seq<byte>)
    requires FitsPrefix(m) && FitsPrefix(n) && Word(m) + r == Word(n) + s
    ensures m == n && r == s
  {
    SplitAt(8, Word(m), r, Word(n), s);
    RadixOfWord();
    BigEndianInjective(m, n, 8);
  }

  lemma FlagSeparates(m: bool, n: bool, r: seq<byte>, s: seq<byte>)
    requires Flag(m) + r == Flag(n) + s
    ensures m == n && r == s
  {
    SplitAt(1, Flag(m), r, Flag(n), s);
  }

  lemma StrSeparates(a: string, b: string, r: seq<byte>, s: seq<byte>)
    requires StrFits(a) && StrFits(b) && Str(a) + r == Str(b) + s
    ensures a == b && r == s
  {
    assert Str(a) + r == Word(|Utf8(a)|) + (Utf8(a) + r);
    assert Str(b) + s == Word(|Utf8(b)|) + (Utf8(b) + s);
    WordSeparates(|Utf8(a)|, |Utf8(b)|, Utf8(a) + r, Utf8(b) + s);
    SplitAt(|Utf8(a)|, Utf8(a), r, Utf8(b), s);
    Utf8Injective(a, b);
  }

  /** No stream starts with the encodings of two different items. */
  ghost predicate Separates<T(!new)>(enc: T -> seq<byte>, x: T, y: T) {
    forall r, s :: enc(x) + r == enc(y) + s ==> x == y && r == s
  }

  lemma {:induction false} ItemsSeparate<T(!new)>(enc: T -> seq<byte>, xs: seq<T>, ys: seq<T>,
                                                  r: seq<byte>, s: seq<byte>)
    requires |xs| == |ys| && Items(enc, xs) + r == Items(enc, ys) + s
    requires forall x, y :: x in xs && y in ys ==> Separates(enc, x, y)
    ensures xs == ys && r == s
  {
    if xs == [] {
      assert Items(enc, xs) + r == r && Items(enc, ys) + s == s;
    } else {
      var p, q := Items(enc, xs[1..]) + r, Items(enc, ys[1..]) + s;
      assert Items(enc, xs) + r == enc(xs[0]) + p;
      assert Items(enc, ys) + s == enc(ys[0]) + q;
      assert Separates(enc, xs[0], ys[0]);
      ItemsSeparate(enc, xs[1..], ys[1..], r, s);
      assert xs == [xs[0]] + xs[1..] && ys == [ys[0]] + ys[1..];
    }
  }

  lemma ListSeparates<T(!new)>(enc: T -> seq<byte>, xs: seq<T>, ys: seq<T>, r: seq<byte>, s: seq<byte>)
    requires FitsPrefix(|xs|) && FitsPrefix(|ys|) && List(enc, xs) + r == List(enc, ys) + s
    requires forall x, y :: x in xs && y in ys ==> Separates(enc, x, y)
    ensures xs == ys && r == s
  {
    assert List(enc, xs) + r == Word(|xs|) + (Items(enc, xs) + r);
    assert List(enc, ys) + s == Word(|ys|) + (Items(enc, ys) + s);
    WordSeparates(|xs|, |ys|, Items(enc, xs) + r, Items(enc, ys) + s);
    ItemsSeparate(enc, xs, ys, r, s);
  }

  lemma {:induction false} ItemsSnoc<T>(enc: T -> seq<byte>, xs: seq<T>, x: T)
    ensures Items(enc, xs + [x]) == Items(enc, xs) + enc(x)
  {
    if xs == [] {
      assert xs + [x] == [x];
      assert Items(enc, [x]) == enc(x) + Items(enc, [x][1..]);
    } else {
      ItemsSnoc(enc, xs[1..], x);
      assert (xs + [x])[1..] == xs[1..] + [x];
    }
  }

  /** One turn of a loop that writes the items of a list behind `start`. */
  lemma ItemsStep<T>(enc: T -> seq<byte>, start: seq<byte>, xs: seq<T>, i: nat)
    requires i < |xs|
    ensures (start + Items(enc, xs[..i])) + enc(xs[i]) == start + Items(enc, xs[..i + 1])
  {
    assert xs[..i + 1] == xs[..i] + [xs[i]];
    ItemsSnoc(enc, xs[..i], xs[i]);
  }
}
