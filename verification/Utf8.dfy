/** UTF-8 byte offsets in a text, as far as slicing a string by bytes is concerned. */
module Utf8 {
  import opened Wrappers
  import opened Blake3

  /** The bytes of one character. */
  function Encode(c: char): (bs: bytes)
    ensures 1 <= |bs| <= 4 && (|bs| == 1 <==> c as int < 0x80)
    ensures forall i :: 0 <= i < |bs| ==> (IsContinuation(bs[i]) <==> i > 0)
  {
    var n := c as int;
    if n < 0x80 then [n as byte]
    else if n < 0x800 then [(0xC0 + n / 0x40) as byte, Tail(n)]
    else if n < 0x10000 then [(0xE0 + n / 0x1000) as byte, Tail(n / 0x40), Tail(n)]
    else [(0xF0 + n / 0x40000) as byte, Tail(n / 0x1000), Tail(n / 0x40), Tail(n)]
  }

  /** Six bits a byte: what a continuation byte carries. */
  function Low(b: byte): int {
    b as int - 0x80
  }

  /** The character can be computed back from its bytes, which are as few as possible. */
  lemma EncodeReadsBack(c: char)
    ensures var n, bs := c as int, Encode(c);
            && (n < 0x80 ==> |bs| == 1 && bs[0] as int == n)
            && (0x80 <= n < 0x800 ==> |bs| == 2 && (bs[0] as int - 0xC0) * 0x40 + Low(bs[1]) == n)
            && (0x800 <= n < 0x10000 ==>
                  |bs| == 3 && ((bs[0] as int - 0xE0) * 0x40 + Low(bs[1])) * 0x40 + Low(bs[2]) == n)
            && (0x10000 <= n ==>
                  |bs| == 4 && (((bs[0] as int - 0xF0) * 0x40 + Low(bs[1])) * 0x40 + Low(bs[2])) * 0x40 + Low(bs[3]) == n)
  {
    var n := c as int;
    SixBits(n);
    if n >= 0x800 {
      SixBits(n / 0x40);
      Deeper(n, 0x40);
      if n >= 0x10000 {
        SixBits(n / 0x1000);
        Deeper(n, 0x1000);
      }
    }
  }

  lemma SixBits(n: nat)
    ensures n == n / 0x40 * 0x40 + n % 0x40 && Low(Tail(n)) == n % 0x40
  {
  }

  lemma Deeper(n: nat, k: nat)
    requires k == 0x40 || k == 0x1000
    ensures n / k / 0x40 == n / (k * 0x40)
  {
  }

  function Tail(n: nat): byte {
    (0x80 + n % 0x40) as byte
  }

  predicate IsContinuation(b: byte) {
    0x80 <= b < 0xC0
  }

  function Bytes(s: string): bytes {
    if s == "" then [] else Encode(s[0]) + Bytes(s[1..])
  }

  /** `str::len`. */
  function Size(s: string): nat {
    |Bytes(s)|
  }

  /** `str::is_char_boundary`. */
  predicate IsBoundary(s: string, n: nat) {
    n == Size(s) || (n < Size(s) && !IsContinuation(Bytes(s)[n]))
  }

  /** Indexing a string by a range of bytes; without a value it panics. */
  function Slice(s: string, from: nat, to: nat): (r: Option<bytes>)
    requires from <= to
    ensures r.Some? ==> |r.value| == to - from
  {
    if IsBoundary(s, from) && IsBoundary(s, to) then Some(Bytes(s)[from..to]) else None
  }

  lemma FirstBoundary(s: string)
    ensures IsBoundary(s, 0)
  {
    if s != "" {
      assert Bytes(s)[0] == Encode(s[0])[0];
    }
  }

  /** The byte offsets a string may be cut at are the sizes of its prefixes. */
  lemma {:induction false} BoundaryMeaning(s: string, n: nat)
    ensures IsBoundary(s, n) <==> exists k :: 0 <= k <= |s| && Size(s[..k]) == n
  {
    if s == "" {
      assert s[..0] == "";
    } else if n < |Encode(s[0])| {
      assert s[..0] == "";
      forall k | 0 < k <= |s|
        ensures Size(s[..k]) > n
      {
        PrefixSize(s, k);
      }
      if n == 0 {
        assert Size(s[..0]) == 0;
      }
    } else {
      var rest, m := s[1..], n - |Encode(s[0])|;
      BoundaryMeaning(rest, m);
      forall k | 0 < k <= |s|
        ensures Size(s[..k]) == |Encode(s[0])| + Size(rest[..k - 1])
      {
        PrefixSize(s, k);
      }
      if k :| 0 <= k <= |rest| && Size(rest[..k]) == m {
        assert Size(s[..k + 1]) == n;
      }
      if k :| 0 <= k <= |s| && Size(s[..k]) == n {
        assert s[..0] == "";
        assert Size(rest[..k - 1]) == m;
      }
    }
  }

  lemma PrefixSize(s: string, k: nat)
    requires 0 < k <= |s|
    ensures Size(s[..k]) == |Encode(s[0])| + Size(s[1..][..k - 1])
  {
    assert s[..k][1..] == s[1..][..k - 1];
  }

  predicate Ascii(s: string) {
    forall i :: 0 <= i < |s| ==> (s[i] as int) < 0x80
  }

  /** In an ASCII text bytes are characters. */
  lemma {:induction false} AsciiBytes(s: string)
    requires Ascii(s)
    ensures Size(s) == |s| && forall i :: 0 <= i < |s| ==> Bytes(s)[i] as int == s[i] as int
  {
    if s != "" {
      AsciiBytes(s[1..]);
    }
  }

  lemma {:induction false} BytesAppend(a: string, b: string)
    ensures Bytes(a + b) == Bytes(a) + Bytes(b)
  {
    if a == "" {
      assert a + b == b;
    } else {
      assert (a + b)[1..] == a[1..] + b;
      BytesAppend(a[1..], b);
      assert Encode(a[0]) + (Bytes(a[1..]) + Bytes(b)) == Encode(a[0]) + Bytes(a[1..]) + Bytes(b);
    }
  }
}
