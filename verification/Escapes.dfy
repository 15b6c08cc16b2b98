/** How the query of a URL is read: percent-encoded octets in either letter case, fields, and duplicates. */
module Escapes {
  import opened Text
  import opened Base64
  import opened Utf8
  import opened UrlParts
  import opened Urls

  // ---------------------------------------------------------------- octets

  /** `c` is the hexadecimal digit of `v`, in one of its two spellings. */
  predicate Spells(c: char, v: nat) {
    v < 16 && (c == "0123456789abcdef"[v] || c == "0123456789ABCDEF"[v])
  }

  lemma DigitSpelled(v: nat)
    requires v < 16
    ensures "0123456789abcdef"[v] == if v < 10 then ('0' as int + v) as char else ('a' as int + v - 10) as char
    ensures "0123456789ABCDEF"[v] == if v < 10 then ('0' as int + v) as char else ('A' as int + v - 10) as char
  {
  }

  /** The digits that are read are those of the two spellings, and stand for their positions. */
  lemma HexExactly(c: char, v: nat)
    ensures HexValue(c) == Some(v) <==> Spells(c, v)
  {
    if v < 16 {
      DigitSpelled(v);
    }
  }

  predicate IsHex(c: char) { exists v | 0 <= v < 16 :: Spells(c, v) }

  lemma HexIsValue(c: char)
    ensures HexValue(c).Some? <==> IsHex(c)
  {
    if HexValue(c).Some? {
      HexExactly(c, HexValue(c).value);
    }
    forall v: nat | Spells(c, v) ensures HexValue(c).Some? {
      HexExactly(c, v);
    }
  }

  /** The text does not start with a hexadecimal digit. */
  predicate StartsPlain(s: string) { s == "" || HexValue(s[0]).None? }

  /** The text starts with a percent sign and two digits. */
  predicate Triplet(s: string) { |s| >= 3 && s[0] == '%' && HexValue(s[1]).Some? && HexValue(s[2]).Some? }

  /** The octet a text starts with, and the number of characters that stand for it. */
  function FirstOctet(s: string): (r: (Octet, nat))
    requires s != "" && Ascii(s)
    ensures 1 <= r.1 <= |s|
  {
    if Triplet(s) then (HexByte(s[1], s[2])[0], 3) else (s[0] as int, 1)
  }

  lemma BytesFirst(s: string)
    requires s != "" && Ascii(s)
    ensures var (o, k) := FirstOctet(s); UnquoteBytes(s) == [o] + UnquoteBytes(s[k..])
  {
  }

  lemma FirstOfFront(a: string, b: string)
    requires a != "" && Ascii(a) && Ascii(a + b) && StartsPlain(b)
    ensures FirstOctet(a + b) == FirstOctet(a)
  {
    var s := a + b;
    hide HexValue, HexByte;
    assert forall i | 0 <= i < |a| :: s[i] == a[i];
    assert b != "" ==> s[|a|] == b[0];
  }

  lemma Associates<T>(x: seq<T>, y: seq<T>, z: seq<T>)
    ensures x + y + z == x + (y + z)
  {
  }

  lemma DropFront(a: string, b: string, k: nat)
    requires k <= |a|
    ensures (a + b)[k..] == a[k..] + b
  {
  }

  lemma AsciiRest(a: string, k: nat)
    requires Ascii(a) && k <= |a|
    ensures Ascii(a[k..])
  {
  }

  lemma AsciiBoth(a: string, b: string)
    ensures Ascii(a + b) <==> Ascii(a) && Ascii(b)
  {
    assert forall i | 0 <= i < |a| :: (a + b)[i] == a[i];
    assert forall i | 0 <= i < |b| :: (a + b)[|a| + i] == b[i];
  }

  lemma {:induction false} UnquoteBytesAppend(a: string, b: string)
    requires Ascii(a + b) && Ascii(a) && Ascii(b) && StartsPlain(b)
    ensures UnquoteBytes(a + b) == UnquoteBytes(a) + UnquoteBytes(b)
  {
    if a == "" {
      assert a + b == b;
    } else {
      hide *;
      var (o, k) := FirstOctet(a);
      FirstOfFront(a, b);
      BytesFirst(a);
      BytesFirst(a + b);
      DropFront(a, b, k);
      AsciiRest(a, k);
      AsciiBoth(a[k..], b);
      UnquoteBytesAppend(a[k..], b);
      Associates([o], UnquoteBytes(a[k..]), UnquoteBytes(b));
    }
  }

  /** A triplet is read as the octet of its two digits, in either case and inside any text. */
  lemma TripletIsOctet(pre: string, h: char, l: char, post: string, v: nat, w: nat)
    requires Ascii(pre) && Ascii(post) && Spells(h, v) && Spells(l, w)
    ensures var s := pre + ['%', h, l] + post;
            Ascii(s) && UnquoteBytes(s) == UnquoteBytes(pre) + [16 * v + w] + UnquoteBytes(post)
  {
    HexExactly(h, v);
    HexExactly(l, w);
    var t := ['%', h, l] + post;
    assert t[3..] == post && pre + t == pre + ['%', h, l] + post;
    hide Spells;
    UnquoteBytesAppend(pre, t);
  }

  /** A percent sign that no two digits follow stands for itself, inside any text. */
  lemma LonePercent(pre: string, post: string)
    requires Ascii(pre) && Ascii(post) && !(|post| >= 2 && IsHex(post[0]) && IsHex(post[1]))
    ensures Ascii(pre + "%" + post)
    ensures UnquoteBytes(pre + "%" + post) == UnquoteBytes(pre) + ['%' as int] + UnquoteBytes(post)
  {
    var t := "%" + post;
    assert t[1..] == post && pre + t == pre + "%" + post;
    if |post| >= 2 {
      HexIsValue(post[0]);
      HexIsValue(post[1]);
      assert t[1] == post[0] && t[2] == post[1];
    }
    hide IsHex;
    UnquoteBytesAppend(pre, t);
  }

  // ---------------------------------------------------------------- triplets in field text

  lemma {:induction false} DecodeBefore(a: seq<Octet>, b: seq<Octet>)
    requires b == [] || b[0] < 0x80
    ensures Utf8Decode(a + b) == Utf8Decode(a) + Utf8Decode(b)
    decreases |a|
  {
    if a == [] {
      assert a + b == b;
    } else {
      var k := DecodeOne(a).1;
      SameFirst(a, b);
      assert (a + b)[k..] == a[k..] + b;
      DecodeBefore(a[k..], b);
    }
  }

  lemma SameFirst(a: seq<Octet>, b: seq<Octet>)
    requires a != [] && (b == [] || b[0] < 0x80)
    ensures DecodeOne(a + b) == DecodeOne(a)
  {
    var s := a + b;
    assert forall i | 0 <= i < |a| :: s[i] == a[i];
    assert b != [] ==> s[|a|] == b[0];
    assert Followers(s) == Followers(a);
  }

  /** The ASCII run in front of a text. */
  function Run(s: string): (r: string)
    ensures Ascii(r)
  {
    s[..AsciiLength(s)]
  }

  /** The text starts with an ASCII character, is read from there as if it stood alone, and starts with an
      octet below 128. */
  predicate StartsAfresh(s: string) {
    s == "" || (Run(s) != "" && StartsPlain(s) && UnquoteBytes(Run(s)) != [] && UnquoteBytes(Run(s))[0] < 0x80)
  }

  lemma UnquoteRun(s: string)
    ensures Unquote(s) == Utf8Decode(UnquoteBytes(Run(s))) + Unquote(s[AsciiLength(s)..])
  {
    if s != "" && s[0] as int >= 128 {
      assert Run(s) == "" && s[0..] == s;
    } else if s == "" {
      assert Run(s) == "";
    }
  }

  lemma {:induction false} AsciiLengthAppend(a: string, b: string)
    ensures AsciiLength(a + b) == if AsciiLength(a) < |a| then AsciiLength(a) else |a| + AsciiLength(b)
  {
    if a == "" {
      assert a + b == b;
    } else {
      assert (a + b)[1..] == a[1..] + b;
      AsciiLengthAppend(a[1..], b);
    }
  }

  lemma UnquoteHigh(s: string)
    requires s != "" && s[0] as int >= 128
    ensures Unquote(s) == [s[0]] + Unquote(s[1..])
  {
  }

  /** Both texts have the same first run, which is all that is decoded first. */
  lemma UnquoteFirstRun(a: string, b: string)
    requires 0 < AsciiLength(a) < |a|
    ensures var n := AsciiLength(a);
            && Unquote(a) == Utf8Decode(UnquoteBytes(Run(a))) + Unquote(a[n..])
            && Unquote(a + b) == Utf8Decode(UnquoteBytes(Run(a))) + Unquote(a[n..] + b)
  {
    AsciiLengthAppend(a, b);
    UnquoteRun(a);
    UnquoteRun(a + b);
    var s, n := a + b, AsciiLength(a);
    hide Unquote, Utf8Decode, UnquoteBytes, AsciiLength;
    assert s[..n] == a[..n] && s[n..] == a[n..] + b;
  }

  lemma UnquoteOneRun(a: string, b: string)
    requires AsciiLength(a) == |a| && StartsAfresh(b)
    ensures Unquote(a + b) == Unquote(a) + Unquote(b)
  {
    OneRun(a, b);
    UnquoteRun(a);
    UnquoteRun(b);
    UnquoteRun(a + b);
    hide *;
    var x, y, z := Utf8Decode(UnquoteBytes(a)), Utf8Decode(UnquoteBytes(Run(b))), Unquote(b[AsciiLength(b)..]);
    Associates(x, y, z);
    assert x + "" == x;
  }

  lemma {:induction false} UnquoteAppend(a: string, b: string)
    requires StartsAfresh(b)
    ensures Unquote(a + b) == Unquote(a) + Unquote(b)
    decreases |a|
  {
    var n := AsciiLength(a);
    var k := if n == 0 then 1 else n;
    assert a != "" && a[0] as int < 128 ==> n > 0;
    if a == "" {
      assert a + b == b && Unquote(a) == "";
    } else if n == |a| {
      UnquoteOneRun(a, b);
    } else {
      var head := if n == 0 then [a[0]] else Utf8Decode(UnquoteBytes(Run(a)));
      if n == 0 {
        assert (a + b)[1..] == a[1..] + b;
        UnquoteHigh(a);
        UnquoteHigh(a + b);
      } else {
        UnquoteFirstRun(a, b);
      }
      hide Unquote, Utf8Decode, UnquoteBytes, AsciiLength, StartsAfresh;
      UnquoteAppend(a[k..], b);
      Associates(head, Unquote(a[k..]), Unquote(b));
    }
  }

  /** An ASCII text runs into what follows. */
  lemma RunsTogether(a: string, b: string)
    requires AsciiLength(a) == |a|
    ensures Run(a) == a && Run(a + b) == a + Run(b) && (a + b)[AsciiLength(a + b)..] == b[AsciiLength(b)..]
    ensures Unquote(a[|a|..]) == ""
  {
    AsciiLengthAppend(a, b);
    hide AsciiLength;
    assert a[..|a|] == a;
  }

  lemma OneRun(a: string, b: string)
    requires AsciiLength(a) == |a| && StartsAfresh(b)
    ensures Run(a) == a && (a + b)[AsciiLength(a + b)..] == b[AsciiLength(b)..] && Unquote(a[|a|..]) == ""
    ensures Utf8Decode(UnquoteBytes(Run(a + b))) == Utf8Decode(UnquoteBytes(a)) + Utf8Decode(UnquoteBytes(Run(b)))
  {
    RunsTogether(a, b);
    RunAfresh(b);
    hide *;
    AsciiBoth(a, Run(b));
    UnquoteBytesAppend(a, Run(b));
    DecodeBefore(UnquoteBytes(a), UnquoteBytes(Run(b)));
  }

  lemma RunAfresh(b: string)
    requires StartsAfresh(b)
    ensures StartsPlain(Run(b))
    ensures UnquoteBytes(Run(b)) == [] || UnquoteBytes(Run(b))[0] < 0x80
  {
    hide HexValue;
  }

  lemma {:induction false} SpacedAppend(a: string, b: string, c: string)
    ensures PlusToSpace(a + b + c) == PlusToSpace(a) + PlusToSpace(b) + PlusToSpace(c)
  {
    PlusToSpaceAppend(a + b, c);
    PlusToSpaceAppend(a, b);
  }

  lemma FieldIsUnquoted(s: string)
    ensures DecodeField(s) == Unquote(PlusToSpace(s))
  {
    hide Unquote, PlusToSpace;
  }

  /** A triplet for a character below 128 is read as that character, in either case and inside any text. */
  lemma TripletIsCharacter(pre: string, h: char, l: char, post: string, v: nat, w: nat)
    requires Spells(h, v) && Spells(l, w) && v < 8
    ensures DecodeField(pre + ['%', h, l] + post) == DecodeField(pre) + [(16 * v + w) as char] + DecodeField(post)
  {
    HexExactly(h, v);
    HexExactly(l, w);
    PlusIsPlain(h, l);
    FieldIsUnquoted(pre);
    FieldIsUnquoted(post);
    FieldIsUnquoted(pre + ['%', h, l] + post);
    hide *;
    var t, p := ['%', h, l], PlusToSpace(post);
    SpacedAppend(pre, t, post);
    TripletFirst(h, l, p, v, w);
    UnquoteAppend(PlusToSpace(pre), t + p);
    Associates(PlusToSpace(pre), t, p);
    Associates(Unquote(PlusToSpace(pre)), [(16 * v + w) as char], Unquote(p));
  }

  lemma PlusIsPlain(h: char, l: char)
    requires HexValue(h).Some? && HexValue(l).Some?
    ensures PlusToSpace(['%', h, l]) == ['%', h, l]
  {
    PlusToSpaceFixed(['%', h, l]);
  }

  lemma TripletRun(h: char, l: char, rest: string)
    requires HexValue(h).Some? && HexValue(l).Some?
    ensures var t := ['%', h, l];
            && Run(t + rest) == t + Run(rest) && (t + rest)[AsciiLength(t + rest)..] == rest[AsciiLength(rest)..]
  {
    var t := ['%', h, l];
    assert Ascii(t);
    AsciiLengthAll(t);
    AsciiLengthAppend(t, rest);
    hide HexValue, AsciiLength;
  }

  lemma TripletBytes(h: char, l: char, rest: string, v: nat, w: nat)
    requires HexValue(h) == Some(v) && HexValue(l) == Some(w) && Ascii(rest)
    ensures var s := ['%', h, l] + rest; Ascii(s) && UnquoteBytes(s) == [16 * v + w] + UnquoteBytes(rest)
  {
    assert (['%', h, l] + rest)[3..] == rest;
  }

  lemma AsciiOctetFirst(b: Octet, rest: seq<Octet>)
    requires b < 0x80
    ensures Utf8Decode([b] + rest) == [b as char] + Utf8Decode(rest)
  {
    assert ([b] + rest)[1..] == rest;
  }

  lemma TripletFirst(h: char, l: char, rest: string, v: nat, w: nat)
    requires HexValue(h) == Some(v) && HexValue(l) == Some(w) && v < 8
    ensures var s := ['%', h, l] + rest; StartsAfresh(s) && Unquote(s) == [(16 * v + w) as char] + Unquote(rest)
  {
    var s, tail := ['%', h, l] + rest, rest[AsciiLength(rest)..];
    TripletRun(h, l, rest);
    TripletBytes(h, l, Run(rest), v, w);
    UnquoteRun(s);
    UnquoteRun(rest);
    TripletAfresh(h, l, rest, v, w);
    AsciiOctetFirst(16 * v + w, UnquoteBytes(Run(rest)));
    hide *;
    Associates([(16 * v + w) as char], Utf8Decode(UnquoteBytes(Run(rest))), Unquote(tail));
  }

  lemma TripletAfresh(h: char, l: char, rest: string, v: nat, w: nat)
    requires HexValue(h) == Some(v) && HexValue(l) == Some(w) && v < 8
    ensures StartsAfresh(['%', h, l] + rest)
  {
    var s := ['%', h, l] + rest;
    TripletRun(h, l, rest);
    TripletBytes(h, l, Run(rest), v, w);
    assert HexValue('%').None?;
    hide UnquoteBytes, AsciiLength, HexValue;
  }

  // ---------------------------------------------------------------- letter case

  /** The capital spelling of a hexadecimal digit. */
  function Capital(c: char): (d: char)
    ensures HexValue(d) == HexValue(c) && (HexValue(c).None? ==> d == c)
  {
    if 'a' <= c <= 'f' then ('A' as int + c as int - 'a' as int) as char else c
  }

  /** The text with its triplets in capitals, the normal form of section 6.2.2.1 of RFC 3986. */
  function Raised(s: string): string {
    if s == "" then ""
    else if Triplet(s) then ['%', Capital(s[1]), Capital(s[2])] + Raised(s[3..])
    else [s[0]] + Raised(s[1..])
  }

  /** Digits stay digits of the same value, and all other characters stay as they are. */
  predicate Alike(s: string, t: string) {
    |s| == |t| && forall i | 0 <= i < |s| :: HexValue(t[i]) == HexValue(s[i]) && (HexValue(s[i]).None? ==> t[i] == s[i])
  }

  lemma {:induction false} RaisedAlike(s: string)
    ensures Alike(s, Raised(s))
  {
    hide HexValue, Capital;
    if s != "" {
      var k := if Triplet(s) then 3 else 1;
      var rest := Raised(s[k..]);
      RaisedAlike(s[k..]);
      assert Raised(s)[k..] == rest && |Raised(s)| == k + |rest|;
      forall i | 0 <= i < |s|
        ensures HexValue(Raised(s)[i]) == HexValue(s[i]) && (HexValue(s[i]).None? ==> Raised(s)[i] == s[i])
      {
        if i >= k {
          assert Raised(s)[i] == rest[i - k] && s[i] == s[k..][i - k];
        }
      }
    }
  }

  lemma AlikeFirst(s: string, t: string)
    requires Alike(s, t) && s != "" && Ascii(s) && Ascii(t)
    requires Triplet(s) || t[0] == s[0]
    ensures FirstOctet(t) == FirstOctet(s)
  {
    assert HexValue('%').None?;
    hide HexValue;
  }

  lemma AsciiFront(s: string)
    ensures forall i | 0 <= i < AsciiLength(s) :: s[i] as int < 128
  {
    var n := AsciiLength(s);
    assert forall i | 0 <= i < n :: s[..n][i] == s[i];
  }

  lemma AlikeAscii(s: string, t: string)
    requires Alike(s, t)
    ensures AsciiLength(s) == AsciiLength(t) && (Ascii(s) <==> Ascii(t))
  {
    forall i | 0 <= i < |s| ensures s[i] as int < 128 <==> t[i] as int < 128 {
      assert HexValue(t[i]) == HexValue(s[i]);
    }
    AsciiFront(s);
    AsciiFront(t);
    hide HexValue, Alike, AsciiLength;
  }

  lemma RaisedRest(s: string)
    requires s != "" && Ascii(s)
    ensures var k := FirstOctet(s).1; Raised(s)[k..] == Raised(s[k..]) && (Triplet(s) || Raised(s)[0] == s[0])
  {
    hide HexValue, Capital, HexByte;
  }

  lemma {:induction false} RaisedBytes(s: string)
    requires Ascii(s)
    ensures Ascii(Raised(s)) && UnquoteBytes(Raised(s)) == UnquoteBytes(s)
  {
    RaisedAlike(s);
    AlikeAscii(s, Raised(s));
    if s != "" {
      var k := FirstOctet(s).1;
      assert |Raised(s)| == |s|;
      hide *;
      RaisedRest(s);
      AlikeFirst(s, Raised(s));
      BytesFirst(s);
      BytesFirst(Raised(s));
      AsciiRest(s, k);
      RaisedBytes(s[k..]);
    }
  }

  lemma RaisedFirst(s: string)
    requires s != ""
    ensures Raised(s) == if Triplet(s) then ['%', Capital(s[1]), Capital(s[2])] + Raised(s[3..])
        else [s[0]] + Raised(s[1..])
  {
  }

  lemma TripletFront(a: string, b: string)
    requires a != "" && StartsPlain(b)
    ensures Triplet(a + b) <==> Triplet(a)
  {
    hide HexValue;
    assert forall i | 0 <= i < |a| :: (a + b)[i] == a[i];
    assert b != "" ==> (a + b)[|a|] == b[0];
  }

  lemma {:induction false} RaisedAppend(a: string, b: string)
    requires StartsPlain(b)
    ensures Raised(a + b) == Raised(a) + Raised(b)
  {
    if a == "" {
      assert a + b == b;
    } else {
      var k := if Triplet(a) then 3 else 1;
      var head := if Triplet(a) then ['%', Capital(a[1]), Capital(a[2])] else [a[0]];
      TripletFront(a, b);
      RaisedFirst(a);
      RaisedFirst(a + b);
      assert Triplet(a) ==> |a| >= 3 && (a + b)[1] == a[1] && (a + b)[2] == a[2];
      hide Raised, HexValue, Capital, Triplet, StartsPlain;
      DropFront(a, b, k);
      RaisedAppend(a[k..], b);
      Associates(head, Raised(a[k..]), Raised(b));
    }
  }

  /** At a character that is no digit the text may be cut before it is raised or after. */
  lemma RaisedCut(s: string, i: nat)
    requires i < |s| && HexValue(s[i]).None? && s[i] != '%'
    ensures |Raised(s)| == |s| && Raised(s)[i] == s[i]
    ensures Raised(s)[..i] == Raised(s[..i]) && Raised(s)[i + 1..] == Raised(s[i + 1..])
    ensures Raised(s)[i..] == Raised(s[i..])
  {
    var a, b, c := s[..i], s[i..], s[i + 1..];
    assert s == a + b && b[0] == s[i] && b[1..] == c;
    RaisedAppend(a, b);
    RaisedAlike(a);
    RaisedAlike(c);
    RaisedFirst(b);
    hide HexValue, Raised;
    assert Raised(b) == [s[i]] + Raised(c);
  }

  lemma {:induction false} RaisedUnquote(s: string)
    ensures Unquote(Raised(s)) == Unquote(s)
    decreases |s|
  {
    var t, n := Raised(s), AsciiLength(s);
    RaisedAlike(s);
    AlikeAscii(s, t);
    UnquoteRun(s);
    UnquoteRun(t);
    if s != "" {
      if n == |s| {
        assert s[..n] == s && t[..n] == t && s[n..] == "" && t[n..] == "";
        hide Unquote, UnquoteBytes, Utf8Decode, Raised;
        RaisedBytes(s);
      } else {
        assert HexValue(s[n]).None? && s[n] != '%';
        RaisedCut(s, n);
        if n > 0 {
          hide Unquote, UnquoteBytes, Utf8Decode, Raised, HexValue;
          RaisedBytes(s[..n]);
          RaisedUnquote(s[n..]);
        } else {
          UnquoteHigh(s);
          UnquoteHigh(t);
          hide Unquote, UnquoteBytes, Utf8Decode, Raised, HexValue;
          RaisedUnquote(s[1..]);
        }
      }
    }
  }

  lemma {:induction false} SpacedPointwise(s: string)
    ensures |PlusToSpace(s)| == |s| && forall i | 0 <= i < |s| :: PlusToSpace(s)[i] == if s[i] == '+' then ' ' else s[i]
  {
    if s != "" {
      SpacedPointwise(s[1..]);
    }
  }

  lemma SpacedTriplet(s: string)
    ensures Triplet(PlusToSpace(s)) <==> Triplet(s)
  {
    SpacedPointwise(s);
    assert HexValue('+').None? && HexValue(' ').None?;
    hide HexValue, PlusToSpace;
  }

  lemma {:induction false} RaisedSpaced(s: string)
    ensures PlusToSpace(Raised(s)) == Raised(PlusToSpace(s))
  {
    if s != "" {
      var t := PlusToSpace(s);
      var k := if Triplet(s) then 3 else 1;
      var head := if Triplet(s) then ['%', Capital(s[1]), Capital(s[2])] else [s[0]];
      SpacedTriplet(s);
      SpacedPointwise(s);
      SpacedPointwise(s[k..]);
      SpacedPointwise(head);
      assert t[k..] == PlusToSpace(s[k..]);
      assert Triplet(s) ==> s[1] != '+' && s[2] != '+' && head[1] != '+' && head[2] != '+';
      RaisedFirst(s);
      RaisedFirst(t);
      hide Raised, PlusToSpace, HexValue, Capital;
      RaisedSpaced(s[k..]);
      PlusToSpaceAppend(head, Raised(s[k..]));
      assert PlusToSpace(head) == if Triplet(s) then head else [t[0]];
    }
  }

  /** The letter case of triplets does not matter to what a field reads as. */
  lemma RaisedField(s: string)
    ensures DecodeField(Raised(s)) == DecodeField(s)
  {
    RaisedSpaced(s);
    RaisedUnquote(PlusToSpace(s));
    hide Unquote, PlusToSpace, Raised;
  }

  lemma AlikeIndex(s: string, t: string, c: char)
    requires Alike(s, t) && HexValue(c).None?
    ensures IndexOf(s, c) == IndexOf(t, c)
  {
    forall i | 0 <= i < |s| ensures s[i] == c <==> t[i] == c {
      assert HexValue(t[i]) == HexValue(s[i]);
    }
    hide HexValue, Alike;
    var i, j := IndexOf(s, c), IndexOf(t, c);
  }

  lemma RaisedEmpty()
    ensures Raised("") == ""
  {
  }

  lemma RaisedSplit(s: string, c: char)
    requires HexValue(c).None? && c != '%'
    ensures IndexOf(Raised(s), c) == IndexOf(s, c) && |Raised(s)| == |s|
    ensures Before(Raised(s), c) == Raised(Before(s, c)) && After(Raised(s), c) == Raised(After(s, c))
  {
    hide HexValue, Raised, IndexOf;
    RaisedAlike(s);
    AlikeIndex(s, Raised(s), c);
    var i := IndexOf(s, c);
    hide Alike;
    if i < |s| {
      RaisedCut(s, i);
    } else {
      assert s[..|s|] == s && Raised(s)[..|s|] == Raised(s);
      RaisedEmpty();
    }
  }

  lemma RaisedPair(segment: string)
    ensures ParsePair(Raised(segment)) == ParsePair(segment)
  {
    assert HexValue('=').None?;
    RaisedSplit(segment, '=');
    RaisedField(Before(segment, '='));
    RaisedField(After(segment, '='));
    hide Raised, DecodeField;
  }

  lemma {:induction false} RaisedQuery(query: string)
    ensures ParseQuery(Raised(query)) == ParseQuery(query)
    decreases |query|
  {
    assert HexValue('&').None?;
    RaisedSplit(query, '&');
    var i := IndexOf(query, '&');
    hide Raised, ParsePair, HexValue;
    RaisedPair(query[..i]);
    if i < |query| {
      RaisedQuery(query[i + 1..]);
    }
  }

  /** Two URLs whose queries differ only in the letter case of triplets, and not otherwise as they are parsed,
      come out alike, whatever is appended. */
  lemma CaseOfTriplets(check: AuthorityCheck, url: string, other: string, params: map<string, string>)
    ensures var p, q := Parse(check, url), Parse(check, other);
            p.Some? && q.Some? && q.value == p.value.(query := q.value.query)
            && Raised(q.value.query) == Raised(p.value.query) ==>
              && Params(q.value) == Params(p.value)
              && AppendQuery(check, other, params) == AppendQuery(check, url, params)
  {
    hide Parse, Raised, ParseQuery, ToMap, Print, Unparse;
    var p, q := Parse(check, url), Parse(check, other);
    if p.Some? && q.Some? {
      RaisedQuery(p.value.query);
      RaisedQuery(q.value.query);
    }
  }

  // ---------------------------------------------------------------- fields and duplicates

  function Pairs(segments: seq<string>): seq<Pair> {
    if segments == [] then []
    else (if segments[0] == "" then [] else [ParsePair(segments[0])]) + Pairs(segments[1..])
  }

  /** A query is read segment by segment between its ampersands, and empty segments are skipped. */
  lemma {:induction false} SegmentsRead(segments: seq<string>)
    requires segments != [] && forall x | x in segments :: Lacks(x, '&')
    ensures ParseQuery(Join("&", segments)) == Pairs(segments)
  {
    var s := segments[0];
    hide ParsePair;
    if |segments| == 1 {
      IndexOfNone(s, '&');
      assert s[..|s|] == s && segments[1..] == [];
    } else {
      var rest := Join("&", segments[1..]);
      IndexOfFirst(s, '&', rest);
      assert Join("&", segments) == s + ['&'] + rest;
      assert (s + ['&'] + rest)[..|s|] == s && (s + ['&'] + rest)[|s| + 1..] == rest;
      SegmentsRead(segments[1..]);
    }
  }

  /** A segment is a name and a value around its first equals sign, or a name with an empty value. */
  lemma SegmentRead(name: string, v: string)
    requires Lacks(name, '=')
    ensures ParsePair(name + "=" + v) == (DecodeField(name), DecodeField(v))
    ensures ParsePair(name) == (DecodeField(name), "")
  {
    IndexOfFirst(name, '=', v);
    IndexOfNone(name, '=');
    assert name + "=" + v == name + ['='] + v;
    assert DecodeField("") == "";
    hide DecodeField;
  }

  /** Of several values for one name the last one counts. */
  lemma {:induction false} LastCounts(pairs: seq<Pair>, i: nat)
    requires i < |pairs| && forall j | i < j < |pairs| :: pairs[j].0 != pairs[i].0
    ensures pairs[i].0 in ToMap(pairs) && ToMap(pairs)[pairs[i].0] == pairs[i].1
  {
    var n := |pairs| - 1;
    if i < n {
      LastCounts(pairs[..n], i);
    }
  }

  lemma {:induction false} OnlyGiven(pairs: seq<Pair>, name: string)
    ensures name in ToMap(pairs) <==> exists i :: 0 <= i < |pairs| && pairs[i].0 == name
  {
    if pairs != [] {
      var n := |pairs| - 1;
      OnlyGiven(pairs[..n], name);
      if name in ToMap(pairs[..n]) {
        var i :| 0 <= i < n && pairs[..n][i].0 == name;
        assert pairs[i].0 == name;
      }
      forall i | 0 <= i < |pairs| && pairs[i].0 == name ensures name in ToMap(pairs) {
        assert i < n ==> pairs[..n][i].0 == name;
      }
    }
  }

  // ---------------------------------------------------------------- what is printed

  lemma {:induction false} QuoteAppend(a: string, b: string)
    ensures Quote(a + b) == Quote(a) + Quote(b)
  {
    hide QuoteChar;
    if a == "" {
      assert a + b == b;
    } else {
      assert (a + b)[1..] == a[1..] + b;
      QuoteAppend(a[1..], b);
    }
  }

  /** Capitals already: the triplets of the text are in their normal form. */
  predicate InCapitals(s: string) { Raised(s) == s }

  lemma CapitalDigit(v: nat)
    requires v < 16
    ensures Capital(HexDigit(v)) == HexDigit(v) && HexValue(HexDigit(v)) == Some(v)
    ensures HexDigit(v) == "0123456789ABCDEF"[v]
  {
    DigitSpelled(v);
  }

  lemma {:induction false} PercentInCapitals(bs: seq<Octet>, rest: string)
    requires InCapitals(rest)
    ensures InCapitals(Percent(bs) + rest)
  {
    if bs == [] {
      assert Percent(bs) + rest == rest;
    } else {
      var h, l, tail := HexDigit(bs[0] / 16), HexDigit(bs[0] % 16), Percent(bs[1..]) + rest;
      CapitalDigit(bs[0] / 16);
      CapitalDigit(bs[0] % 16);
      PercentInCapitals(bs[1..], rest);
      TripletInCapitals(h, l, tail);
      assert Percent(bs) == ['%', h, l] + Percent(bs[1..]);
      hide *;
      Associates(['%', h, l], Percent(bs[1..]), rest);
    }
  }

  lemma TripletInCapitals(h: char, l: char, tail: string)
    requires HexValue(h).Some? && HexValue(l).Some? && Capital(h) == h && Capital(l) == l && InCapitals(tail)
    ensures InCapitals(['%', h, l] + tail)
  {
    hide HexValue, Capital;
    var s := ['%', h, l] + tail;
    assert s[3..] == tail;
    RaisedFirst(s);
  }

  lemma PlainInCapitals(c: char, rest: string)
    requires InCapitals(rest) && c != '%'
    ensures InCapitals([c] + rest)
  {
    assert ([c] + rest)[1..] == rest;
    RaisedFirst([c] + rest);
  }

  /** What is printed is in the normal form for triplets: a space is a plus sign, letters, digits and `-._~` stay,
      and every other character is the triplets, in capitals, of its octets in UTF-8. */
  lemma {:induction false} QuotedInCapitals(s: string)
    ensures InCapitals(Quote(s))
  {
    if s != "" {
      var c, rest := s[0], Quote(s[1..]);
      QuotedInCapitals(s[1..]);
      if Unreserved(c) || c == ' ' {
        PlainInCapitals(if c == ' ' then '+' else c, rest);
      } else {
        PercentInCapitals(EncodeChar(c), rest);
      }
    }
  }

  /** Exactly the texts of unreserved characters are printed as they are. */
  lemma {:induction false} QuotedUnchanged(s: string)
    ensures |Quote(s)| >= |s|
    ensures Quote(s) == s <==> forall i | 0 <= i < |s| :: Unreserved(s[i])
  {
    if s != "" {
      var c, rest := s[0], Quote(s[1..]);
      QuotedUnchanged(s[1..]);
      QuoteCharShape(c);
      hide QuoteChar, Unreserved;
      assert Quote(s) == QuoteChar(c) + rest && s == [c] + s[1..];
      assert forall i | 0 <= i < |s| - 1 :: s[1..][i] == s[i + 1];
      if Quote(s) == s {
        assert |QuoteChar(c)| == 1 && Quote(s)[0] == QuoteChar(c)[0] && Quote(s)[1..] == rest;
      }
      if forall i | 0 <= i < |s| :: Unreserved(s[i]) {
        assert Unreserved(s[0]);
      }
    }
  }

  lemma QuoteCharShape(c: char)
    ensures |QuoteChar(c)| >= 1 && (Unreserved(c) <==> QuoteChar(c) == [c])
    ensures |QuoteChar(c)| == 1 && QuoteChar(c)[0] == c ==> Unreserved(c)
    ensures QuoteChar(' ') == "+"
  {
    if !Unreserved(c) && c != ' ' {
      var bs := EncodeChar(c);
      assert |Percent(bs)| >= 3;
    }
  }
}
