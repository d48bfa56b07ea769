/** Bytes, machine integers and the two byte orders used on the USB/IP stream
    (big-endian words) and in USB structures (little-endian). */
module Bytes {
  type byte = b: int | 0 <= b < 0x100
  type u16 = n: int | 0 <= n < 0x1_0000
  type u32 = n: int | 0 <= n < 0x1_0000_0000
  type i32 = n: int | -0x8000_0000 <= n < 0x8000_0000

  const U32_MAX: u32 := 0xffff_ffff

  datatype Option<+T> = None | Some(value: T)

  function Min(a: nat, b: nat): nat {
    if a <= b then a else b
  }

  function Zeros(n: nat): (bs: seq<byte>) {
    seq(n, _ => 0)
  }

  lemma Associative<T>(a: seq<T>, b: seq<T>, c: seq<T>)
    ensures a + (b + c) == a + b + c
  {}

  // --- Big-endian words ---

  function Be32(n: u32): (bs: seq<byte>)
    ensures |bs| == 4
  {
    [n / 0x100_0000, n / 0x1_0000 % 0x100, n / 0x100 % 0x100, n % 0x100]
  }

  function Be16(n: u16): (bs: seq<byte>)
    ensures |bs| == 2
  {
    [n / 0x100, n % 0x100]
  }

  /** The big-endian word that starts at offset `at`. */
  function U32At(bs: seq<byte>, at: nat): (n: u32)
    requires at + 4 <= |bs|
  {
    var a: int, b: int, c: int, d: int := bs[at], bs[at + 1], bs[at + 2], bs[at + 3];
    a * 0x100_0000 + b * 0x1_0000 + c * 0x100 + d
  }

  function U16At(bs: seq<byte>, at: nat): (n: u16)
    requires at + 2 <= |bs|
  {
    var a: int, b: int := bs[at], bs[at + 1];
    a * 0x100 + b
  }

  lemma Digits(n: u32)
    ensures n == n / 0x100_0000 * 0x100_0000 + n / 0x1_0000 % 0x100 * 0x1_0000 + n / 0x100 % 0x100 * 0x100 + n % 0x100
  {
    var hi, lo := n / 0x1_0000, n % 0x1_0000;
    assert hi / 0x100 == n / 0x100_0000 && lo % 0x100 == n % 0x100 && lo / 0x100 == n / 0x100 % 0x100;
  }

  lemma Be32Inverse(n: u32, rest: seq<byte>)
    ensures U32At(Be32(n) + rest, 0) == n
  {
    var bs := Be32(n) + rest;
    assert bs[0] == n / 0x100_0000 && bs[1] == n / 0x1_0000 % 0x100;
    assert bs[2] == n / 0x100 % 0x100 && bs[3] == n % 0x100;
    Digits(n);
  }

  lemma Be32OfU32At(bs: seq<byte>)
    requires |bs| == 4
    ensures Be32(U32At(bs, 0)) == bs
  {
    var n := U32At(bs, 0);
    var a: int, b: int, c: int := bs[0], bs[1], bs[2];
    assert n / 0x100 == a * 0x1_0000 + b * 0x100 + c;
    assert n / 0x1_0000 == a * 0x100 + b;
    assert n / 0x100_0000 == a;
  }

  /** A header is a run of big-endian words followed by raw bytes. */
  function Words(ws: seq<u32>): (bs: seq<byte>)
    ensures |bs| == 4 * |ws|
  {
    if ws == [] then [] else Be32(ws[0]) + Words(ws[1..])
  }

  lemma {:induction false} WordAt(ws: seq<u32>, rest: seq<byte>, i: nat)
    requires i < |ws|
    ensures U32At(Words(ws) + rest, 4 * i) == ws[i]
  {
    var tail := Words(ws[1..]) + rest;
    assert Words(ws) + rest == Be32(ws[0]) + tail;
    if i == 0 {
      Be32Inverse(ws[0], tail);
    } else {
      WordAt(ws[1..], rest, i - 1);
      var bs, at := Be32(ws[0]) + tail, 4 * i;
      assert bs[at] == tail[at - 4] && bs[at + 1] == tail[at - 3];
      assert bs[at + 2] == tail[at - 2] && bs[at + 3] == tail[at - 1];
    }
  }

  /** The converse: any `4 * n` bytes are the encoding of the words read from them. */
  lemma {:induction false} WordsOf(bs: seq<byte>, n: nat)
    requires |bs| == 4 * n
    ensures bs == Words(seq(n, i requires 0 <= i < n => U32At(bs, 4 * i)))
  {
    var ws := seq(n, i requires 0 <= i < n => U32At(bs, 4 * i));
    if n > 0 {
      WordsOf(bs[4..], n - 1);
      assert ws[1..] == seq(n - 1, i requires 0 <= i < n - 1 => U32At(bs[4..], 4 * i));
      Be32OfU32At(bs[..4]);
      assert U32At(bs[..4], 0) == ws[0];
      assert bs == bs[..4] + bs[4..];
    }
  }

  // --- Two's complement ---

  function WordOfI32(i: i32): (w: u32) {
    if i < 0 then i + 0x1_0000_0000 else i
  }

  function I32OfWord(w: u32): (i: i32) {
    if w >= 0x8000_0000 then w - 0x1_0000_0000 else w
  }

  // --- Little-endian ---

  function Le16(n: u16): (bs: seq<byte>)
    ensures |bs| == 2
  {
    [n % 0x100, n / 0x100]
  }

  function U16LeAt(bs: seq<byte>, at: nat): (n: u16)
    requires at + 2 <= |bs|
  {
    var a: int, b: int := bs[at], bs[at + 1];
    a + b * 0x100
  }

  function Le32(n: u32): (bs: seq<byte>)
    ensures |bs| == 4
  {
    [n % 0x100, n / 0x100 % 0x100, n / 0x1_0000 % 0x100, n / 0x100_0000]
  }

  function U32LeAt(bs: seq<byte>, at: nat): (n: u32)
    requires at + 4 <= |bs|
  {
    var a: int, b: int, c: int, d: int := bs[at], bs[at + 1], bs[at + 2], bs[at + 3];
    a + b * 0x100 + c * 0x1_0000 + d * 0x100_0000
  }
}
