/**
  The variable-length "moon num" code of moon_runtime.c and the id lists built
  from it.  On the wire a number is |2B|2B|4B, low part first, each part carrying
  a flag in its top bit that says whether the next one follows.
 */
module MoonNum {

  import opened Options
  import opened Bytes

  const B15: int := 0x8000
  const B30: int := 0x4000_0000
  const B31: int := 0x8000_0000
  const B61: int := 0x2000_0000_0000_0000
  const B62: int := 0x4000_0000_0000_0000
  const B64: int := 0x1_0000_0000_0000_0000

  // ---------- Little-endian parts ----------

  function Le16(x: nat): (s: seq<Byte>)
    requires x < 0x1_0000
    ensures |s| == 2
  {
    [x % 256, x / 256]
  }

  function Le32(x: nat): (s: seq<Byte>)
    requires x < 0x1_0000_0000
    ensures |s| == 4
  {
    Le16(x % 0x1_0000) + Le16(x / 0x1_0000)
  }

  function From16(s: seq<Byte>): nat
    requires |s| >= 2
  {
    (s[0] as int) + 256 * (s[1] as int)
  }

  function From32(s: seq<Byte>): nat
    requires |s| >= 4
  {
    From16(s) + 0x1_0000 * From16(s[2..])
  }

  lemma LeRoundTrip16(x: nat, tail: seq<Byte>)
    requires x < 0x1_0000
    ensures From16(Le16(x) + tail) == x && (Le16(x) + tail)[2..] == tail
  {
  }

  lemma LeRoundTrip32(x: nat, tail: seq<Byte>)
    requires x < 0x1_0000_0000
    ensures From32(Le32(x) + tail) == x && (Le32(x) + tail)[4..] == tail
  {
    var lo, hi := x % 0x1_0000, x / 0x1_0000;
    assert Le32(x) + tail == Le16(lo) + (Le16(hi) + tail);
    LeRoundTrip16(lo, Le16(hi) + tail);
    LeRoundTrip16(hi, tail);
  }

  // ---------- One number ----------

  // convert_to_moon_num: numbers of 62 bits and more are refused.
  function Encode(n: nat): Option<seq<Byte>> {
    if n >= B62 then None
    else if n < B15 then Some(Le16(n))
    else
      var first := Le16(n % B15 + B15);
      if n < B30 then Some(first + Le16(n / B15))
      else
        var second := Le16(n / B15 % B15 + B15);
        var third := Le32(n / B30 % B31 + (if n >= B61 then B31 else 0));
        Some(first + second + third)
  }

  // get_from_moon_num: the number and what follows it, or None on a short buffer.
  function Decode(s: seq<Byte>): Option<(nat, seq<Byte>)> {
    if |s| < 2 then None
    else
      var a := From16(s);
      if a < B15 then Some((a, s[2..]))
      else if |s| < 4 then None
      else
        var b := From16(s[2..]);
        var low := a % B15 + b % B15 * B15;
        if b < B15 then Some((low, s[4..]))
        else if |s| < 8 then None
        else
          var c := From32(s[4..]);
          Some((low + c % B31 * B30 + (if c >= B31 then B61 else 0), s[8..]))
  }

  lemma DecodeThird(a: nat, b: nat, c: nat, tail: seq<Byte>)
    requires B15 <= a < 0x1_0000 && B15 <= b < 0x1_0000 && c < 0x1_0000_0000
    ensures Decode(Le16(a) + Le16(b) + Le32(c) + tail)
         == Some((a % B15 + b % B15 * B15 + c % B31 * B30 + (if c >= B31 then B61 else 0), tail))
  {
    hide Le16, Le32, From16, From32;
    var s := Le16(a) + Le16(b) + Le32(c) + tail;
    assert s == Le16(a) + (Le16(b) + (Le32(c) + tail));
    LeRoundTrip16(a, Le16(b) + (Le32(c) + tail));
    LeRoundTrip16(b, Le32(c) + tail);
    LeRoundTrip32(c, tail);
    assert s[2..] == Le16(b) + (Le32(c) + tail) && s[4..] == Le32(c) + tail && s[8..] == tail;
  }

  lemma SplitLarge(n: nat)
    requires B30 <= n < B62
    ensures var c := n / B30 % B31 + (if n >= B61 then B31 else 0);
            && c < 0x1_0000_0000
            && n == n % B15 + n / B15 % B15 * B15 + c % B31 * B30 + (if c >= B31 then B61 else 0)
  {
    assert n / B30 == n / B15 / B15;
  }

  lemma RoundTripMedium(n: nat, tail: seq<Byte>)
    requires B15 <= n < B30
    ensures Encode(n).Some? && |Encode(n).value| == 4
    ensures Decode(Encode(n).value + tail) == Some((n, tail))
  {
    var a, b := n % B15 + B15, n / B15;
    var s := Le16(a) + Le16(b) + tail;
    assert s == Le16(a) + (Le16(b) + tail);
    LeRoundTrip16(a, Le16(b) + tail);
    LeRoundTrip16(b, tail);
    assert s[4..] == s[2..][2..];
    assert a % B15 + b % B15 * B15 == n;
  }

  lemma RoundTripLarge(n: nat, tail: seq<Byte>)
    requires B30 <= n < B62
    ensures Encode(n).Some? && |Encode(n).value| == 8
    ensures Decode(Encode(n).value + tail) == Some((n, tail))
  {
    hide Decode, Le16, Le32;
    var a, b := n % B15 + B15, n / B15 % B15 + B15;
    var c := n / B30 % B31 + (if n >= B61 then B31 else 0);
    SplitLarge(n);
    DecodeThird(a, b, c, tail);
    assert Encode(n).value == Le16(a) + Le16(b) + Le32(c);
    assert a % B15 == n % B15 && b % B15 == n / B15 % B15;
  }

  // Every number below 2^62 comes back, and exactly the bytes after it are left;
  // the code takes 2, 4 or 8 bytes.
  lemma RoundTrip(n: nat, tail: seq<Byte>)
    requires n < B62
    ensures Encode(n).Some?
    ensures Decode(Encode(n).value + tail) == Some((n, tail))
    ensures |Encode(n).value| == if n < B15 then 2 else if n < B30 then 4 else 8
  {
    if n < B15 {
      LeRoundTrip16(n, tail);
    } else if n < B30 {
      RoundTripMedium(n, tail);
    } else {
      RoundTripLarge(n, tail);
    }
  }

  // The bytes themselves: little-endian parts of 15, 15 and 31 bits, low part first, with
  // the top bit of a part set if and only if the number goes on above it.
  lemma Layout(n: nat)
    requires n < B62
    ensures Encode(n).Some? && |Encode(n).value| >= (if n < B15 then 2 else if n < B30 then 4 else 8)
    ensures var s := Encode(n).value;
            && s[0] as int + 0x100 * s[1] as int == n % B15 + (if n < B15 then 0 else B15)
            && (n >= B15 ==> s[2] as int + 0x100 * s[3] as int == n / B15 % B15 + (if n < B30 then 0 else B15))
            && (n >= B30 ==>
                  s[4] as int + 0x100 * s[5] as int + 0x1_0000 * (s[6] as int + 0x100 * s[7] as int) ==
                  n / B30 % B31 + (if n < B61 then 0 else B31))
  {
    if n >= B30 {
      var c := n / B30 % B31 + (if n >= B61 then B31 else 0);
      assert Encode(n).value[4..] == Le16(c % 0x1_0000) + Le16(c / 0x1_0000);
    }
  }
}
