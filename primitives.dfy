/**
 * Fixed-width integers, string measures and the form of trie keys, shared by the tracker and
 * the message handler.
 */
module Primitives {

  /** Rust's `u8`. */
  type u8 = x: int | 0 <= x < 0x100

  /** Rust's `u32` (tab identifiers, frame lengths). */
  type u32 = x: int | 0 <= x < 0x1_0000_0000

  /** Bytes taken by `c` in UTF-8 (Rust's `char::len_utf8`). */
  function Utf8Width(c: char): (w: nat)
    ensures 1 <= w <= 4
    ensures w == 1 <==> (c as int) < 0x80
  {
    if (c as int) < 0x80 then 1
    else if (c as int) < 0x800 then 2
    else if (c as int) < 0x1_0000 then 3
    else 4
  }

  /** Byte length of the UTF-8 encoding of `s`: what Rust's `str::len` measures. */
  function Utf8Len(s: string): (n: nat)
    ensures |s| <= n <= 4 * |s|
    ensures n == 0 <==> s == []
  {
    if s == [] then 0 else Utf8Width(s[0]) + Utf8Len(s[1..])
  }

  /** A key of the URL trie as URL parsing produces it: not empty and free of `/`. */
  predicate KeyOk(k: string) {
    k != [] && '/' !in k
  }

  ghost predicate AllKeysOk(keys: seq<string>) {
    forall i :: 0 <= i < |keys| ==> KeyOk(keys[i])
  }

  /** The decimal digit for `d`. */
  function Digit(d: nat): char
    requires d < 10
  {
    "0123456789"[d]
  }

  /** Decimal rendering of `n`, as Rust's `Display` for unsigned integers writes it. */
  function DecimalString(n: nat): (s: string)
    ensures 0 < |s|
    ensures forall i :: 0 <= i < |s| ==> '0' <= s[i] <= '9'
    ensures n > 0 ==> s[0] != '0'
  {
    if n < 10 then [Digit(n)] else DecimalString(n / 10) + [Digit(n % 10)]
  }
}
