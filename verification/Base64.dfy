/** The URL-safe base64 alphabet without padding, big-endian octet strings, and the
    Base64urlUInt encoding that a key set publishes (section 2 of RFC 7518). */
module Base64 {
  import opened Text

  type Octet = n: nat | n < 256

  // ---------------------------------------------------------------- letters

  type Sextet = n: nat | n < 64

  function Letter(v: Sextet): (c: char)
    ensures c != '=' && !IsSpace(c) && c as int < 128
  {
    if v < 26 then ('A' as int + v) as char
    else if v < 52 then ('a' as int + v - 26) as char
    else if v < 62 then ('0' as int + v - 52) as char
    else if v == 62 then '-' else '_'
  }

  function Value(c: char): Option<Sextet> {
    if 'A' <= c <= 'Z' then Some(c as int - 'A' as int)
    else if 'a' <= c <= 'z' then Some(c as int - 'a' as int + 26)
    else if '0' <= c <= '9' then Some(c as int - '0' as int + 52)
    else if c == '-' then Some(62) else if c == '_' then Some(63) else None
  }

  lemma ValueOfLetter(v: Sextet)
    ensures Value(Letter(v)) == Some(v)
  {
  }

  // ---------------------------------------------------------------- encoding

  /** The letters of the encoding, before padding. */
  function Letters(bs: seq<Octet>): (s: string)
    ensures |s| == (4 * |bs| + 2) / 3
    ensures forall c | c in s :: c != '=' && !IsSpace(c) && c as int < 128
  {
    if bs == [] then ""
    else if |bs| == 1 then [Letter(bs[0] / 4), Letter(bs[0] % 4 * 16)]
    else if |bs| == 2 then
      [Letter(bs[0] / 4), Letter(bs[0] % 4 * 16 + bs[1] / 16), Letter(bs[1] % 16 * 4)]
    else
      Group(bs[0], bs[1], bs[2]) + Letters(bs[3..])
  }

  /** `base64.urlsafe_b64encode`. */
  function Encode(bs: seq<Octet>): string { Letters(bs) + Padding(|bs|) }

  function Padding(n: nat): string { if n % 3 == 1 then "==" else if n % 3 == 2 then "=" else "" }

  /** `s.rstrip("=")`. */
  function StripPad(s: string): string {
    if s != "" && s[|s| - 1] == '=' then StripPad(s[..|s| - 1]) else s
  }

  predicate AllPad(s: string) { forall c | c in s :: c == '=' }

  lemma {:induction false} StripPadSuffix(s: string, pad: string)
    requires AllPad(pad)
    requires s == "" || s[|s| - 1] != '='
    ensures StripPad(s + pad) == s
  {
    if pad == "" {
      assert s + pad == s;
    } else {
      var n := |pad| - 1;
      assert pad[n] in pad;
      assert forall c | c in pad[..n] :: c in pad;
      assert (s + pad)[..|s + pad| - 1] == s + pad[..n];
      StripPadSuffix(s, pad[..n]);
    }
  }

  function Unpadded(bs: seq<Octet>): string { StripPad(Encode(bs)) }

  /** Stripping the padding leaves the letters, so `=` never stands for data. */
  lemma UnpaddedIsLetters(bs: seq<Octet>)
    ensures Unpadded(bs) == Letters(bs)
    ensures StripPad(Letters(bs)) == Letters(bs)
  {
    hide Letters, StripPad;
    var s := Letters(bs);
    if s != "" {
      assert s[|s| - 1] in s;
    }
    StripPadSuffix(s, Padding(|bs|));
    StripPadSuffix(s, "");
    assert s + "" == s;
  }

  // ---------------------------------------------------------------- decoding

  function First(a: Sextet, b: Sextet): Octet { a * 4 + b / 16 }

  function Second(b: Sextet, c: Sextet): Octet { b % 16 * 16 + c / 4 }

  function Third(c: Sextet, d: Sextet): Octet { c % 4 * 64 + d }

  function DecodeTail(s: string): Option<seq<Octet>>
    requires |s| < 4
  {
    if s == "" then Some([])
    else if |s| == 1 then None
    else match (Value(s[0]), Value(s[1]))
      case (Some(a), Some(b)) =>
        if |s| == 2 then Some([First(a, b)])
        else (match Value(s[2])
              case Some(c) => Some([First(a, b), Second(b, c)])
              case None => None)
      case _ => None
  }

  /** Decodes an unpadded base64url string. */
  function Decode(s: string): Option<seq<Octet>> {
    if |s| < 4 then DecodeTail(s)
    else match (Value(s[0]), Value(s[1]), Value(s[2]), Value(s[3]), Decode(s[4..]))
      case (Some(a), Some(b), Some(c), Some(d), Some(rest)) =>
        Some([First(a, b), Second(b, c), Third(c, d)] + rest)
      case _ => None
  }

  lemma RegroupThree(x: Octet, y: Octet, z: Octet)
    ensures var a: Sextet, b: Sextet, c: Sextet, d: Sextet := x / 4, x % 4 * 16 + y / 16, y % 16 * 4 + z / 64, z % 64;
            x == First(a, b) && y == Second(b, c) && z == Third(c, d)
  {
  }

  /** The four letters of three octets. */
  function Group(x: Octet, y: Octet, z: Octet): string {
    [Letter(x / 4), Letter(x % 4 * 16 + y / 16), Letter(y % 16 * 4 + z / 64), Letter(z % 64)]
  }

  lemma DecodeGroup(x: Octet, y: Octet, z: Octet, rest: string)
    requires Decode(rest).Some?
    ensures Decode(Group(x, y, z) + rest) == Some([x, y, z] + Decode(rest).value)
  {
    hide Letter, Value, First, Second, Third;
    RegroupThree(x, y, z);
    ValueOfLetter(x / 4);
    ValueOfLetter(x % 4 * 16 + y / 16);
    ValueOfLetter(y % 16 * 4 + z / 64);
    ValueOfLetter(z % 64);
    assert (Group(x, y, z) + rest)[4..] == rest;
  }

  lemma DecodeRest(x: Octet, y: Octet)
    ensures Decode(Letters([x])) == Some([x])
    ensures Decode(Letters([x, y])) == Some([x, y])
  {
    hide Letter, Value, First, Second;
    RegroupThree(x, y, 0);
    RegroupThree(x, 0, 0);
    ValueOfLetter(x / 4);
    ValueOfLetter(x % 4 * 16);
    ValueOfLetter(x % 4 * 16 + y / 16);
    ValueOfLetter(y % 16 * 4);
  }

  /** Decoding undoes encoding for octet strings of every length. */
  lemma {:induction false} DecodeLetters(bs: seq<Octet>)
    ensures Decode(Letters(bs)) == Some(bs)
  {
    hide DecodeTail, Letter, Value;
    if 1 <= |bs| <= 2 {
      DecodeRest(bs[0], bs[|bs| - 1]);
      assert bs == if |bs| == 1 then [bs[0]] else [bs[0], bs[1]];
    } else if bs == [] {
      assert Decode("") == DecodeTail("");
      DecodeNothing();
    } else {
      DecodeLetters(bs[3..]);
      DecodeGroup(bs[0], bs[1], bs[2], Letters(bs[3..]));
      assert bs == [bs[0], bs[1], bs[2]] + bs[3..];
    }
  }

  lemma DecodeNothing()
    ensures DecodeTail("") == Some([])
  {
  }

  lemma DecodeUnpadded(bs: seq<Octet>)
    ensures Decode(Unpadded(bs)) == Some(bs)
  {
    UnpaddedIsLetters(bs);
    DecodeLetters(bs);
  }

  lemma UnpaddedInjective(xs: seq<Octet>, ys: seq<Octet>)
    requires Unpadded(xs) == Unpadded(ys)
    ensures xs == ys
  {
    DecodeUnpadded(xs);
    DecodeUnpadded(ys);
  }

  // ---------------------------------------------------------------- what the letters mean

  /** The alphabet of section 5 of RFC 4648. */
  const ALPHABET := "ABCDEFGHIJKLMNOPQRSTUVWXYZ" + "abcdefghijklmnopqrstuvwxyz" + "0123456789-_"

  lemma Alphabet(v: Sextet)
    ensures |ALPHABET| == 64
    ensures ALPHABET[v] == if v < 26 then "ABCDEFGHIJKLMNOPQRSTUVWXYZ"[v]
                           else if v < 52 then "abcdefghijklmnopqrstuvwxyz"[v - 26] else "0123456789-_"[v - 52]
  {
  }

  lemma Capitals(v: nat)
    requires v < 26
    ensures "ABCDEFGHIJKLMNOPQRSTUVWXYZ"[v] as int == 'A' as int + v
    ensures "abcdefghijklmnopqrstuvwxyz"[v] as int == 'a' as int + v
  {
  }

  /** A letter stands for its position in the alphabet, and no other character stands for anything. */
  lemma LettersExactly(v: Sextet, c: char)
    ensures Letter(v) == ALPHABET[v]
    ensures Value(c) == Some(v) <==> c == ALPHABET[v]
  {
    Alphabet(v);
    if v < 52 {
      Capitals(if v < 26 then v else v - 26);
    }
    hide ALPHABET;
  }

  /** The number a text spells whose characters are digits to the base of 64. */
  function Spelled(s: string): Option<nat> {
    if s == "" then Some(0)
    else match (Spelled(s[..|s| - 1]), Value(s[|s| - 1]))
      case (Some(n), Some(v)) => Some(64 * n + v)
      case _ => None
  }

  lemma SpelledSnoc(s: string, v: Sextet)
    ensures Spelled(s + [Letter(v)]) == match Spelled(s) case Some(n) => Some(64 * n + v) case None => None
  {
    ValueOfLetter(v);
    assert (s + [Letter(v)])[..|s|] == s;
  }

  lemma {:induction false} LettersAppend(a: seq<Octet>, b: seq<Octet>)
    requires |a| % 3 == 0
    ensures Letters(a + b) == Letters(a) + Letters(b)
  {
    hide Letter;
    if a == [] {
      assert a + b == b;
    } else {
      assert (a + b)[3..] == a[3..] + b;
      LettersAppend(a[3..], b);
    }
  }

  lemma FromBytesSnoc(a: seq<Octet>, x: Octet)
    ensures FromBytes(a + [x]) == 256 * FromBytes(a) + x
  {
    assert (a + [x])[..|a|] == a;
  }

  lemma GroupSpelled(s: string, n: nat, x: Octet, y: Octet, z: Octet)
    requires Spelled(s) == Some(n)
    ensures Spelled(s + Group(x, y, z)) == Some(256 * (256 * (256 * n + x) + y) + z)
  {
    var a: Sextet, b: Sextet, c: Sextet, d: Sextet := x / 4, x % 4 * 16 + y / 16, y % 16 * 4 + z / 64, z % 64;
    hide Letter, Value, Spelled;
    SpelledSnoc(s, a);
    SpelledSnoc(s + [Letter(a)], b);
    SpelledSnoc(s + [Letter(a)] + [Letter(b)], c);
    SpelledSnoc(s + [Letter(a)] + [Letter(b)] + [Letter(c)], d);
    assert s + Group(x, y, z) == s + [Letter(a)] + [Letter(b)] + [Letter(c)] + [Letter(d)];
  }

  lemma OneSpelled(s: string, n: nat, x: Octet)
    requires Spelled(s) == Some(n)
    ensures Spelled(s + Letters([x])) == Some((256 * n + x) * 16)
  {
    var a: Sextet, b: Sextet := x / 4, x % 4 * 16;
    assert Letters([x]) == [Letter(a), Letter(b)];
    hide Letter, Value, Spelled, Letters;
    SpelledSnoc(s, a);
    SpelledSnoc(s + [Letter(a)], b);
    assert s + Letters([x]) == s + [Letter(a)] + [Letter(b)];
  }

  lemma TwoSpelled(s: string, n: nat, x: Octet, y: Octet)
    requires Spelled(s) == Some(n)
    ensures Spelled(s + Letters([x, y])) == Some((256 * (256 * n + x) + y) * 4)
  {
    var a: Sextet, b: Sextet, c: Sextet := x / 4, x % 4 * 16 + y / 16, y % 16 * 4;
    assert Letters([x, y]) == [Letter(a), Letter(b), Letter(c)];
    hide Letter, Value, Spelled, Letters;
    SpelledSnoc(s, a);
    SpelledSnoc(s + [Letter(a)], b);
    SpelledSnoc(s + [Letter(a)] + [Letter(b)], c);
    assert s + Letters([x, y]) == s + [Letter(a)] + [Letter(b)] + [Letter(c)];
  }

  lemma ThreeLetters(x: Octet, y: Octet, z: Octet)
    ensures Letters([x, y, z]) == Group(x, y, z)
  {
    assert [x, y, z][3..] == [] && Letters([]) == "";
    hide Letter;
  }

  lemma ThreeNumber(a: seq<Octet>, x: Octet, y: Octet, z: Octet)
    ensures FromBytes(a + [x, y]) == 256 * (256 * FromBytes(a) + x) + y
    ensures FromBytes(a + [x, y, z]) == 256 * (256 * (256 * FromBytes(a) + x) + y) + z
  {
    FromBytesSnoc(a, x);
    FromBytesSnoc(a + [x], y);
    FromBytesSnoc(a + [x] + [y], z);
    hide FromBytes;
    assert a + [x, y] == a + [x] + [y] && a + [x, y, z] == a + [x] + [y] + [z];
  }

  /** The letters spell the number of the octets, filled up with zero bits to a whole letter. */
  predicate SpellsNumber(bs: seq<Octet>) {
    Spelled(Letters(bs)) == Some(FromBytes(bs) * if |bs| % 3 == 1 then 16 else if |bs| % 3 == 2 then 4 else 1)
  }

  lemma OneMore(a: seq<Octet>, x: Octet)
    requires |a| % 3 == 0 && SpellsNumber(a)
    ensures SpellsNumber(a + [x])
  {
    hide Letter, Value, Spelled, Letters, FromBytes;
    LettersAppend(a, [x]);
    FromBytesSnoc(a, x);
    OneSpelled(Letters(a), FromBytes(a), x);
  }

  lemma TwoMore(a: seq<Octet>, x: Octet, y: Octet)
    requires |a| % 3 == 0 && SpellsNumber(a)
    ensures SpellsNumber(a + [x, y])
  {
    hide Letter, Value, Spelled, Letters, FromBytes;
    LettersAppend(a, [x, y]);
    ThreeNumber(a, x, y, 0);
    TwoSpelled(Letters(a), FromBytes(a), x, y);
  }

  lemma ThreeMore(a: seq<Octet>, x: Octet, y: Octet, z: Octet)
    requires |a| % 3 == 0 && SpellsNumber(a)
    ensures SpellsNumber(a + [x, y, z])
  {
    hide Letter, Value, Spelled, Letters, FromBytes, Group;
    LettersAppend(a, [x, y, z]);
    ThreeLetters(x, y, z);
    ThreeNumber(a, x, y, z);
    GroupSpelled(Letters(a), FromBytes(a), x, y, z);
  }

  /** Encoding keeps the number: for octet strings of every length. */
  lemma {:induction false} LettersSpell(bs: seq<Octet>)
    ensures SpellsNumber(bs)
    decreases |bs|
  {
    if bs != [] {
      hide *;
      var k := if |bs| % 3 == 0 then 3 else |bs| % 3;
      var a, b := bs[..|bs| - k], bs[|bs| - k..];
      assert bs == a + b && |a| % 3 == 0;
      LettersSpell(a);
      if k == 1 {
        assert b == [b[0]];
        OneMore(a, b[0]);
      } else if k == 2 {
        assert b == [b[0], b[1]];
        TwoMore(a, b[0], b[1]);
      } else {
        assert b == [b[0], b[1], b[2]];
        ThreeMore(a, b[0], b[1], b[2]);
      }
    }
  }

  // ---------------------------------------------------------------- integers as octet strings

  function BitLength(n: nat): nat { if n == 0 then 0 else 1 + BitLength(n / 2) }

  /** The length `(bit_length + 7) // 8` that the key set uses. */
  function OctetLength(n: nat): nat { (BitLength(n) + 7) / 8 }

  /** `n.to_bytes(length, byteorder="big")`. */
  function ToBytes(n: nat, length: nat): (bs: seq<Octet>)
    ensures |bs| == length
  {
    if length == 0 then [] else ToBytes(n / 256, length - 1) + [n % 256]
  }

  /** The integer an octet string stands for, most significant octet first. */
  function FromBytes(bs: seq<Octet>): nat {
    if bs == [] then 0 else 256 * FromBytes(bs[..|bs| - 1]) + bs[|bs| - 1]
  }

  function B64u(n: nat): string { Unpadded(ToBytes(n, OctetLength(n))) }

  lemma OctetLengthStep(n: nat)
    requires n > 0
    ensures OctetLength(n) == 1 + OctetLength(n / 256)
  {
    if n < 256 {
      assert BitLength(n) <= 8 by {
        assert n / 2 < 128 && n / 4 < 64 && n / 8 < 32 && n / 16 < 16;
        BitLengthHalves(n);
      }
    } else {
      BitLengthHalves(n);
    }
  }

  lemma BitLengthHalves(n: nat)
    ensures n >= 128 ==> BitLength(n) == 8 + BitLength(n / 256)
    ensures 0 < n < 256 ==> 1 <= BitLength(n) <= 8
  {
    var a := n / 2; var b := a / 2; var c := b / 2; var d := c / 2;
    var e := d / 2; var f := e / 2; var g := f / 2; var h := g / 2;
    assert h == n / 256 && g == n / 128;
    assert BitLength(n) <= 1 + BitLength(a) <= 2 + BitLength(b) <= 3 + BitLength(c) <= 4 + BitLength(d);
    assert 4 + BitLength(d) <= 5 + BitLength(e) <= 6 + BitLength(f) <= 7 + BitLength(g) <= 8 + BitLength(h);
  }

  /** Reading the published octets back gives the number. */
  lemma {:induction false} FromToBytes(n: nat)
    ensures FromBytes(ToBytes(n, OctetLength(n))) == n
  {
    if n > 0 {
      OctetLengthStep(n);
      FromToBytes(n / 256);
      var bs := ToBytes(n, OctetLength(n));
      assert bs[..|bs| - 1] == ToBytes(n / 256, OctetLength(n / 256));
    } else {
      assert ToBytes(n, OctetLength(n)) == [];
    }
  }

  /** No shorter octet string stands for the same number. */
  lemma {:induction false} OctetLengthMinimal(n: nat, bs: seq<Octet>)
    requires FromBytes(bs) == n
    ensures OctetLength(n) <= |bs|
  {
    if n > 0 {
      OctetLengthStep(n);
      OctetLengthMinimal(n / 256, bs[..|bs| - 1]);
    }
  }

  /** Base64urlUInt: decoding gives the number back, from the shortest octet string there is. */
  lemma B64uRoundTrip(n: nat)
    requires n > 0
    ensures var bs := Decode(B64u(n));
            && bs.Some? && FromBytes(bs.value) == n && B64u(n) != ""
            && forall other :: FromBytes(other) == n ==> |bs.value| <= |other|
  {
    DecodeUnpadded(ToBytes(n, OctetLength(n)));
    FromToBytes(n);
    OctetLengthStep(n);
    UnpaddedIsLetters(ToBytes(n, OctetLength(n)));
    forall other | FromBytes(other) == n ensures OctetLength(n) <= |other| {
      OctetLengthMinimal(n, other);
    }
  }

  lemma B64uInjective(m: nat, n: nat)
    requires B64u(m) == B64u(n)
    ensures m == n
  {
    UnpaddedInjective(ToBytes(m, OctetLength(m)), ToBytes(n, OctetLength(n)));
    FromToBytes(m);
    FromToBytes(n);
  }
}
