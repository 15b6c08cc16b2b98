/** UTF-8 with replacement of malformed input, as `str.encode` and `bytes.decode(errors="replace")`. */
module Utf8 {
  import opened Base64

  const REPLACEMENT: char := '\U{FFFD}'

  /** The number spelled by up to four base-64 digits. */
  function Point(a: int, b: int, c: int, d: int): int { 262144 * a + 4096 * b + 64 * c + d }

  lemma PointDigits(n: nat)
    requires n < 0x11_0000
    ensures Point(n / 262144, n / 4096 % 64, n / 64 % 64, n % 64) == n
    ensures n < 0x1_0000 ==> n / 262144 == 0 && n / 4096 % 64 == n / 4096
    ensures n < 0x800 ==> n / 4096 == 0 && n / 64 % 64 == n / 64
  {
    assert n / 4096 == n / 64 / 64 && n / 262144 == n / 4096 / 64;
  }

  function EncodeChar(c: char): (bs: seq<Octet>)
    ensures 1 <= |bs| <= 4
  {
    var n := c as int;
    if n < 0x80 then [n]
    else if n < 0x800 then [0xC0 + n / 64, 0x80 + n % 64]
    else if n < 0x1_0000 then [0xE0 + n / 4096, 0x80 + n / 64 % 64, 0x80 + n % 64]
    else [0xF0 + n / 262144, 0x80 + n / 4096 % 64, 0x80 + n / 64 % 64, 0x80 + n % 64]
  }

  function Utf8Encode(s: string): seq<Octet> {
    if s == "" then [] else EncodeChar(s[0]) + Utf8Encode(s[1..])
  }

  /** How many continuation octets a lead octet announces; 0 when it cannot lead. */
  function Announced(b: Octet): nat {
    if 0xC2 <= b <= 0xDF then 1 else if 0xE0 <= b <= 0xEF then 2 else if 0xF0 <= b <= 0xF4 then 3 else 0
  }

  /** The second octet of a sequence is narrowed to exclude overlong forms, surrogates and values
      above U+10FFFF. */
  predicate SecondOk(lead: Octet, b: Octet) {
    (if lead == 0xE0 then 0xA0 else if lead == 0xF0 then 0x90 else 0x80) <= b
      <= (if lead == 0xED then 0x9F else if lead == 0xF4 then 0x8F else 0xBF)
  }

  predicate Continues(b: Octet) { 0x80 <= b <= 0xBF }

  /** The number of octets after the lead that continue a well-formed sequence. */
  function Followers(bs: seq<Octet>): (k: nat)
    requires bs != []
    ensures k <= Announced(bs[0]) && k < |bs|
  {
    var need := Announced(bs[0]);
    if need < 1 || |bs| < 2 || !SecondOk(bs[0], bs[1]) then 0
    else if need < 2 || |bs| < 3 || !Continues(bs[2]) then 1
    else if need < 3 || |bs| < 4 || !Continues(bs[3]) then 2
    else 3
  }

  /** Decodes one character, or replaces one maximal malformed prefix. */
  function DecodeOne(bs: seq<Octet>): (r: (char, nat))
    requires bs != []
    ensures 1 <= r.1 <= |bs|
  {
    var lead, need, k := bs[0], Announced(bs[0]), Followers(bs);
    if lead < 0x80 then (lead as char, 1)
    else if need == 0 || k < need then (REPLACEMENT, k + 1)
    else if need == 1 then (Point(0, 0, lead - 0xC0, bs[1] - 0x80) as char, 2)
    else if need == 2 then (Point(0, lead - 0xE0, bs[1] - 0x80, bs[2] - 0x80) as char, 3)
    else (Point(lead - 0xF0, bs[1] - 0x80, bs[2] - 0x80, bs[3] - 0x80) as char, 4)
  }

  function Utf8Decode(bs: seq<Octet>): string {
    if bs == [] then "" else var (c, k) := DecodeOne(bs); [c] + Utf8Decode(bs[k..])
  }

  lemma DecodeShort(c: char, rest: seq<Octet>)
    requires c as int < 0x800
    ensures DecodeOne(EncodeChar(c) + rest) == (c, |EncodeChar(c)|)
  {
    PointDigits(c as int);
  }

  lemma DecodeThree(c: char, rest: seq<Octet>)
    requires 0x800 <= c as int < 0x1_0000
    ensures DecodeOne(EncodeChar(c) + rest) == (c, 3)
  {
    var n, bs := c as int, EncodeChar(c) + rest;
    PointDigits(n);
    assert bs[0] == 0xE0 + n / 4096 && bs[1] == 0x80 + n / 64 % 64 && bs[2] == 0x80 + n % 64;
    assert Followers(bs) == 2;
  }

  lemma DecodeFour(c: char, rest: seq<Octet>)
    requires 0x1_0000 <= c as int
    ensures DecodeOne(EncodeChar(c) + rest) == (c, 4)
  {
    var n, bs := c as int, EncodeChar(c) + rest;
    PointDigits(n);
    assert bs[0] == 0xF0 + n / 262144 && bs[1] == 0x80 + n / 4096 % 64;
    assert bs[2] == 0x80 + n / 64 % 64 && bs[3] == 0x80 + n % 64;
    assert Followers(bs) == 3;
  }

  lemma DecodeEncodedChar(c: char, rest: seq<Octet>)
    ensures DecodeOne(EncodeChar(c) + rest) == (c, |EncodeChar(c)|)
  {
    if c as int < 0x800 {
      DecodeShort(c, rest);
    } else if c as int < 0x1_0000 {
      DecodeThree(c, rest);
    } else {
      DecodeFour(c, rest);
    }
  }

  /** Decoding undoes encoding for every string of Unicode scalar values. */
  lemma {:induction false} Utf8RoundTrip(s: string)
    ensures Utf8Decode(Utf8Encode(s)) == s
  {
    if s != "" {
      var rest := Utf8Encode(s[1..]);
      DecodeEncodedChar(s[0], rest);
      var bs := EncodeChar(s[0]) + rest;
      assert bs[|EncodeChar(s[0])|..] == rest;
      Utf8RoundTrip(s[1..]);
      assert s == [s[0]] + s[1..];
    }
  }

  // ---------------------------------------------------------------- malformed input

  /** The octets start with the whole encoding of `c`. */
  predicate StartsWhole(bs: seq<Octet>, c: char) {
    |EncodeChar(c)| <= |bs| && bs[..|EncodeChar(c)|] == EncodeChar(c)
  }

  /** The first `m` octets are the start of the encoding of `c`. */
  predicate StartsLike(bs: seq<Octet>, m: nat, c: char) {
    m <= |bs| && m <= |EncodeChar(c)| && bs[..m] == EncodeChar(c)[..m]
  }

  lemma EncodedShape(c: char)
    ensures var e := EncodeChar(c);
            && Announced(e[0]) == |e| - 1
            && (|e| > 1 ==> e[0] >= 0x80 && SecondOk(e[0], e[1]))
            && (|e| > 2 ==> Continues(e[2])) && (|e| > 3 ==> Continues(e[3]))
  {
    PointDigits(c as int);
  }

  lemma PointEncoded(a: nat, b: nat, c: nat, d: nat)
    requires b < 64 && c < 64 && d < 64
    ensures var n := Point(a, b, c, d);
            n / 262144 == a && n / 4096 % 64 == b && n / 64 % 64 == c && n % 64 == d && n / 4096 == 64 * a + b
                && n / 64 == 4096 * a + 64 * b + c
  {
    var n := Point(a, b, c, d);
    assert n / 64 == 4096 * a + 64 * b + c;
    assert n / 64 / 64 == 64 * a + b && n / 64 / 64 / 64 == a;
    assert n / 64 / 64 == n / 4096 && n / 4096 / 64 == n / 262144;
  }

  /** The character of a well-formed sequence of two, three or four octets. */
  lemma TwoEncoded(lead: Octet, b: Octet)
    requires Announced(lead) == 1 && SecondOk(lead, b)
    ensures EncodeChar(Point(0, 0, lead - 0xC0, b - 0x80) as char) == [lead, b]
  {
    PointEncoded(0, 0, lead - 0xC0, b - 0x80);
  }

  lemma ThreeEncoded(lead: Octet, b: Octet, c: Octet)
    requires Announced(lead) == 2 && SecondOk(lead, b) && Continues(c)
    ensures var n := Point(0, lead - 0xE0, b - 0x80, c - 0x80);
            0x800 <= n < 0x1_0000 && !(0xD800 <= n < 0xE000) && EncodeChar(n as char) == [lead, b, c]
  {
    PointEncoded(0, lead - 0xE0, b - 0x80, c - 0x80);
  }

  lemma FourEncoded(lead: Octet, b: Octet, c: Octet, d: Octet)
    requires Announced(lead) == 3 && SecondOk(lead, b) && Continues(c) && Continues(d)
    ensures var n := Point(lead - 0xF0, b - 0x80, c - 0x80, d - 0x80);
            0x1_0000 <= n < 0x11_0000 && EncodeChar(n as char) == [lead, b, c, d]
  {
    PointEncoded(lead - 0xF0, b - 0x80, c - 0x80, d - 0x80);
  }

  /** What is not replaced is a whole encoding. */
  lemma DecodedWhole(bs: seq<Octet>)
    requires bs != [] && (bs[0] < 0x80 || (Announced(bs[0]) > 0 && Followers(bs) == Announced(bs[0])))
    ensures StartsWhole(bs, DecodeOne(bs).0)
  {
    var need := Announced(bs[0]);
    if need == 1 {
      TwoEncoded(bs[0], bs[1]);
    } else if need == 2 {
      ThreeEncoded(bs[0], bs[1], bs[2]);
    } else if need == 3 {
      FourEncoded(bs[0], bs[1], bs[2], bs[3]);
    }
  }

  /** A broken sequence is the start of some encoding. */
  lemma BrokenStart(bs: seq<Octet>) returns (c: char)
    requires bs != [] && 0 < Followers(bs) < Announced(bs[0])
    ensures StartsLike(bs, Followers(bs) + 1, c)
  {
    var lead, k := bs[0], Followers(bs);
    if Announced(lead) == 2 {
      ThreeEncoded(lead, bs[1], 0x80);
      c := Point(0, lead - 0xE0, bs[1] - 0x80, 0) as char;
    } else {
      var third := if k == 2 then bs[2] else 0x80;
      FourEncoded(lead, bs[1], third, 0x80);
      c := Point(lead - 0xF0, bs[1] - 0x80, third - 0x80, 0) as char;
    }
  }

  lemma LongestStart(bs: seq<Octet>, m: nat, c: char)
    requires bs != [] && StartsLike(bs, m, c) && m < |EncodeChar(c)|
    ensures m <= Followers(bs) + 1
  {
    var e := EncodeChar(c);
    EncodedShape(c);
    assert forall i | 0 <= i < m :: bs[i] == bs[..m][i] == e[..m][i] == e[i];
  }

  /** Decoding one character, for any octets: a whole encoding is taken as its character; if there is none, the
      replacement character stands for the longest start of an encoding, or for one octet. */
  lemma DecodeOneExactly(bs: seq<Octet>)
    requires bs != []
    ensures var (c, k) := DecodeOne(bs);
            if exists d :: StartsWhole(bs, d) then StartsWhole(bs, c) && k == |EncodeChar(c)|
            else
              && c == REPLACEMENT && (k == 1 || exists d :: StartsLike(bs, k, d))
              && forall m: nat, d | StartsLike(bs, m, d) :: m <= k
  {
    if d :| StartsWhole(bs, d) {
      var n := |EncodeChar(d)|;
      DecodeEncodedChar(d, bs[n..]);
      assert bs == EncodeChar(d) + bs[n..];
    } else {
      if bs[0] < 0x80 || (Announced(bs[0]) > 0 && Followers(bs) == Announced(bs[0])) {
        DecodedWhole(bs);
        assert false;
      }
      if Followers(bs) > 0 {
        var d := BrokenStart(bs);
      }
      forall m: nat, d | StartsLike(bs, m, d) ensures m <= DecodeOne(bs).1 {
        if m == |EncodeChar(d)| {
          assert StartsWhole(bs, d);
        } else {
          LongestStart(bs, m, d);
        }
      }
    }
  }
}
