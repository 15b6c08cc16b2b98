/** Python string primitives the authorization server leans on: whitespace, `split`, `strip`,
    `join`, code-point order, `sorted` of a set of strings, decimal printing and lower-casing. */
module Text {

  datatype Option<+T> = None | Some(value: T)

  /** The characters `str.isspace` accepts, which are the ones `split()` and `strip()` remove. */
  predicate IsSpace(c: char) {
    var n := c as int;
    || 0x09 <= n <= 0x0D || 0x1C <= n <= 0x20 || n == 0x85 || n == 0xA0 || n == 0x1680
    || 0x2000 <= n <= 0x200A || n == 0x2028 || n == 0x2029 || n == 0x202F || n == 0x205F || n == 0x3000
  }

  predicate AllSpace(s: string) { forall c | c in s :: IsSpace(c) }

  /** A non-empty word without whitespace: what section 3.3 of RFC 6749 needs of a scope-token
      for a space-separated list to be readable back. */
  predicate IsToken(s: string) { s != "" && forall c | c in s :: !IsSpace(c) }

  /** The unreserved characters of RFC 3986, which are also those of a PKCE code verifier. */
  predicate Unreserved(c: char) {
    'A' <= c <= 'Z' || 'a' <= c <= 'z' || '0' <= c <= '9' || c == '-' || c == '.' || c == '_' || c == '~'
  }

  predicate Ascii(s: string) { forall i | 0 <= i < |s| :: s[i] as int < 128 }

  predicate AllTokens(xs: seq<string>) { forall x | x in xs :: IsToken(x) }

  function Elems<T>(xs: seq<T>): set<T> { set x | x in xs }

  // ---------------------------------------------------------------- split and join

  function WordLength(s: string): (n: nat)
    ensures n <= |s|
    ensures forall c | c in s[..n] :: !IsSpace(c)
    ensures n < |s| ==> IsSpace(s[n])
  {
    if s == "" || IsSpace(s[0]) then 0 else 1 + WordLength(s[1..])
  }

  function Split(s: string): (words: seq<string>)
    ensures AllTokens(words)
    decreases |s|
  {
    if s == "" then []
    else if IsSpace(s[0]) then Split(s[1..])
    else var n := WordLength(s); [s[..n]] + Split(s[n..])
  }

  function Join(sep: string, xs: seq<string>): string {
    if xs == [] then "" else if |xs| == 1 then xs[0] else xs[0] + sep + Join(sep, xs[1..])
  }

  function Words(xs: seq<string>): seq<string> {
    if xs == [] then [] else Split(xs[0]) + Words(xs[1..])
  }

  lemma {:induction false} WordLengthStops(w: string, rest: string)
    requires forall c | c in w :: !IsSpace(c)
    requires rest == "" || IsSpace(rest[0])
    ensures WordLength(w + rest) == |w|
  {
    if w == "" {
      assert w + rest == rest;
    } else {
      assert w[0] in w;
      assert (w + rest)[1..] == w[1..] + rest;
      WordLengthStops(w[1..], rest);
    }
  }

  lemma SplitToken(w: string)
    requires IsToken(w)
    ensures Split(w) == [w]
  {
    assert w[0] in w;
    WordLengthStops(w, "");
    assert w + "" == w;
  }

  lemma {:induction false} SplitSpaced(a: string, b: string)
    ensures Split(a + " " + b) == Split(a) + Split(b)
    decreases |a|
  {
    assert IsSpace(' ');
    hide IsSpace;
    var s := a + " " + b;
    if a == "" {
      assert s[1..] == b;
    } else if IsSpace(a[0]) {
      assert s[1..] == a[1..] + " " + b;
      SplitSpaced(a[1..], b);
    } else {
      var n := WordLength(a);
      var w, rest := a[..n], a[n..] + " " + b;
      assert s == w + rest;
      WordLengthStops(w, rest);
      assert s[..n] == w && s[n..] == rest;
      SplitSpaced(a[n..], b);
    }
  }

  /** Splitting a joined list splits each entry in turn. */
  lemma {:induction false} SplitJoin(xs: seq<string>)
    ensures Split(Join(" ", xs)) == Words(xs)
  {
    if |xs| == 1 {
      assert xs[1..] == [];
    } else if xs != [] {
      SplitSpaced(xs[0], Join(" ", xs[1..]));
      SplitJoin(xs[1..]);
    }
  }

  lemma {:induction false} WordsOfTokens(xs: seq<string>)
    requires AllTokens(xs)
    ensures Words(xs) == xs
  {
    if xs != [] {
      SplitToken(xs[0]);
      WordsOfTokens(xs[1..]);
    }
  }

  /** The round trip of a space-separated list of scope-tokens. */
  lemma SplitJoinTokens(xs: seq<string>)
    requires AllTokens(xs)
    ensures Split(Join(" ", xs)) == xs
  {
    SplitJoin(xs);
    WordsOfTokens(xs);
  }

  lemma {:induction false} WordsMember(xs: seq<string>, w: string)
    ensures w in Words(xs) <==> exists x :: x in xs && w in Split(x)
  {
    if xs != [] {
      WordsMember(xs[1..], w);
      forall x | x in xs && w in Split(x) ensures w in Words(xs) {
        assert x == xs[0] || x in xs[1..];
      }
      if w in Words(xs) {
        if w in Split(xs[0]) {
          assert xs[0] in xs;
        } else {
          var x :| x in xs[1..] && w in Split(x);
          assert x in xs;
        }
      }
    }
  }

  // ---------------------------------------------------------------- cutting at a character

  function IndexOf(s: string, c: char): (i: nat)
    ensures i <= |s| && (forall j | 0 <= j < i :: s[j] != c) && (i < |s| ==> s[i] == c)
  {
    if s == "" || s[0] == c then 0
    else
      IndexOf(s[1..], c) + 1
  }

  predicate Lacks(s: string, c: char) { forall i | 0 <= i < |s| :: s[i] != c }

  function Before(s: string, c: char): string { s[..IndexOf(s, c)] }

  function After(s: string, c: char): string {
    var i := IndexOf(s, c);
    if i < |s| then s[i + 1..] else ""
  }

  lemma {:induction false} IndexOfFirst(a: string, c: char, b: string)
    requires Lacks(a, c)
    ensures IndexOf(a + [c] + b, c) == |a|
    ensures Before(a + [c] + b, c) == a && After(a + [c] + b, c) == b
  {
    if a != "" {
      assert (a + [c] + b)[1..] == a[1..] + [c] + b;
      IndexOfFirst(a[1..], c, b);
    }
  }

  lemma IndexOfNone(a: string, c: char)
    requires Lacks(a, c)
    ensures Before(a, c) == a && After(a, c) == ""
  {
    assert IndexOf(a, c) == |a|;
  }

  // ---------------------------------------------------------------- strip

  function LStrip(s: string): string {
    if s != "" && IsSpace(s[0]) then LStrip(s[1..]) else s
  }

  function RStrip(s: string): string {
    if s != "" && IsSpace(s[|s| - 1]) then RStrip(s[..|s| - 1]) else s
  }

  function Strip(s: string): string { RStrip(LStrip(s)) }

  predicate Stripped(s: string) { s == "" || (!IsSpace(s[0]) && !IsSpace(s[|s| - 1])) }

  lemma {:induction false} LStripPrefix(pre: string, s: string)
    requires AllSpace(pre)
    ensures LStrip(pre + s) == LStrip(s)
  {
    if pre == "" {
      assert pre + s == s;
    } else {
      assert pre[0] in pre;
      assert (pre + s)[1..] == pre[1..] + s;
      LStripPrefix(pre[1..], s);
    }
  }

  lemma {:induction false} RStripSuffix(s: string, post: string)
    requires AllSpace(post)
    ensures RStrip(s + post) == RStrip(s)
  {
    if post == "" {
      assert s + post == s;
    } else {
      var n := |post| - 1;
      assert post[n] in post;
      assert (s + post)[..|s + post| - 1] == s + post[..n];
      RStripSuffix(s, post[..n]);
    }
  }

  /** Whitespace added around a trimmed string is exactly what `strip` removes. */
  lemma StripPadded(pre: string, s: string, post: string)
    requires AllSpace(pre) && AllSpace(post) && Stripped(s)
    ensures Strip(pre + s + post) == s
  {
    assert pre + s + post == pre + (s + post);
    LStripPrefix(pre, s + post);
    if s == "" {
      assert s + post == post + "";
      LStripPrefix(post, "");
    } else {
      RStripSuffix(s, post);
    }
  }

  lemma {:induction false} RStripIsStripped(s: string)
    requires s == "" || !IsSpace(s[0])
    ensures Stripped(RStrip(s))
  {
    if s != "" && IsSpace(s[|s| - 1]) {
      RStripIsStripped(s[..|s| - 1]);
    }
  }

  lemma {:induction false} LStripHead(s: string)
    ensures LStrip(s) == "" || !IsSpace(LStrip(s)[0])
  {
    if s != "" && IsSpace(s[0]) {
      LStripHead(s[1..]);
    }
  }

  lemma StripIsStripped(s: string)
    ensures Stripped(Strip(s))
  {
    LStripHead(s);
    RStripIsStripped(LStrip(s));
  }

  // ---------------------------------------------------------------- code-point order and sorted()

  predicate Leq(a: string, b: string) {
    a == "" || (b != "" && (a[0] < b[0] || (a[0] == b[0] && Leq(a[1..], b[1..]))))
  }

  lemma {:induction false} LeqTotal(a: string, b: string)
    ensures Leq(a, b) || Leq(b, a)
  {
    if a != "" && b != "" && a[0] == b[0] {
      LeqTotal(a[1..], b[1..]);
    }
  }

  lemma {:induction false} LeqAntisymmetric(a: string, b: string)
    requires Leq(a, b) && Leq(b, a)
    ensures a == b
  {
    if a != "" {
      LeqAntisymmetric(a[1..], b[1..]);
      assert a == [a[0]] + a[1..] && b == [b[0]] + b[1..];
    }
  }

  lemma {:induction false} LeqTransitive(a: string, b: string, c: string)
    requires Leq(a, b) && Leq(b, c)
    ensures Leq(a, c)
  {
    if a != "" && a[0] == b[0] == c[0] {
      LeqTransitive(a[1..], b[1..], c[1..]);
    }
  }

  predicate IsLeast(m: string, s: set<string>) { m in s && forall y | y in s :: Leq(m, y) }

  lemma {:induction false} LeastExists(s: set<string>)
    requires s != {}
    ensures exists m :: IsLeast(m, s)
  {
    var x :| x in s;
    LeqTotal(x, x);
    if s == {x} {
      assert IsLeast(x, s);
    } else {
      LeastExists(s - {x});
      var m :| IsLeast(m, s - {x});
      LeqTotal(m, x);
      if Leq(m, x) {
        assert IsLeast(m, s);
      } else {
        forall y | y in s ensures Leq(x, y) {
          if y != x { LeqTransitive(x, m, y); }
        }
        assert IsLeast(x, s);
      }
    }
  }

  lemma LeastUnique(s: set<string>)
    ensures forall a, b | IsLeast(a, s) && IsLeast(b, s) :: a == b
  {
    forall a, b | IsLeast(a, s) && IsLeast(b, s) ensures a == b { LeqAntisymmetric(a, b); }
  }

  function Least(s: set<string>): (m: string)
    requires s != {}
    ensures IsLeast(m, s)
  {
    LeastExists(s);
    LeastUnique(s);
    var m :| m in s && IsLeast(m, s);
    m
  }

  predicate Ascending(xs: seq<string>) {
    forall i, j | 0 <= i < j < |xs| :: Leq(xs[i], xs[j]) && xs[i] != xs[j]
  }

  /** `sorted(s)` for a set of strings. */
  function Sorted(s: set<string>): (xs: seq<string>)
    ensures Elems(xs) == s && |xs| == |s| && Ascending(xs)
  {
    if s == {} then [] else
      var m := Least(s);
      var rest := Sorted(s - {m});
      AscendingCons(m, rest, s);
      [m] + rest
  }

  /** `sorted(m)` for a dictionary. */
  function SortedKeys(m: map<string, string>): (keys: seq<string>)
    ensures forall k :: k in keys <==> k in m
  {
    assert forall k :: k in Sorted(m.Keys) <==> k in Elems(Sorted(m.Keys));
    Sorted(m.Keys)
  }

  lemma AscendingCons(m: string, rest: seq<string>, s: set<string>)
    requires IsLeast(m, s) && Elems(rest) == s - {m} && Ascending(rest)
    ensures Ascending([m] + rest) && Elems([m] + rest) == s
  {
    var xs := [m] + rest;
    assert Elems(xs) == {m} + Elems(rest);
    forall i, j | 0 <= i < j < |xs| ensures Leq(xs[i], xs[j]) && xs[i] != xs[j] {
      assert xs[j] == rest[j - 1] && rest[j - 1] in Elems(rest);
      if i > 0 { assert xs[i] == rest[i - 1]; }
    }
  }

  /** There is only one ascending listing of a set: `sorted` does not depend on how the set was built. */
  lemma {:induction false} AscendingUnique(xs: seq<string>, ys: seq<string>)
    requires Ascending(xs) && Ascending(ys) && Elems(xs) == Elems(ys)
    ensures xs == ys
  {
    ElemsEmpty(xs);
    ElemsEmpty(ys);
    if xs != [] {
      assert xs[0] in Elems(ys) && ys[0] in Elems(xs);
      var i :| 0 <= i < |ys| && ys[i] == xs[0];
      var j :| 0 <= j < |xs| && xs[j] == ys[0];
      if i != 0 && j != 0 { LeqAntisymmetric(xs[0], ys[0]); }
      assert xs[0] == ys[0];
      TailElems(xs);
      TailElems(ys);
      AscendingUnique(xs[1..], ys[1..]);
      assert xs == [xs[0]] + xs[1..] && ys == [ys[0]] + ys[1..];
    }
  }

  lemma ElemsEmpty<T>(xs: seq<T>)
    ensures Elems(xs) == {} <==> xs == []
  {
    if xs != [] {
      assert xs[0] in Elems(xs);
    }
  }

  lemma TailElems(xs: seq<string>)
    requires xs != [] && Ascending(xs)
    ensures Elems(xs[1..]) == Elems(xs) - {xs[0]}
  {
    assert xs == [xs[0]] + xs[1..];
  }

  // ---------------------------------------------------------------- decimal printing

  function Digit(d: nat): char
    requires d < 10
  {
    "0123456789"[d]
  }

  function DecimalNat(n: nat): (s: string)
    ensures s != "" && forall c | c in s :: '0' <= c <= '9'
  {
    if n < 10 then [Digit(n)] else DecimalNat(n / 10) + [Digit(n % 10)]
  }

  /** `str(n)` for an integer. */
  function Decimal(n: int): string {
    if n < 0 then "-" + DecimalNat(-n) else DecimalNat(n)
  }

  /** Reads decimal digits from left to right, after those that `before` stands for. */
  function ReadDigits(s: string, before: nat): Option<nat> {
    if s == "" then Some(before)
    else if '0' <= s[0] <= '9' then ReadDigits(s[1..], 10 * before + (s[0] as int - '0' as int))
    else None
  }

  function ReadDecimal(s: string): Option<int> {
    var negative := s != "" && s[0] == '-';
    var size := ReadDigits(if negative then s[1..] else s, 0);
    if size.None? then None else
      var n: int := size.value;
      Some(if negative then -n else n)
  }

  lemma {:induction false} ReadDigitsSnoc(s: string, c: char, before: nat)
    requires '0' <= c <= '9'
    ensures ReadDigits(s + [c], before)
         == match ReadDigits(s, before)
            case Some(n) => Some(10 * n + (c as int - '0' as int))
            case None => None
    decreases |s|
  {
    if s == "" {
      assert s + [c] == [c];
      assert [c][1..] == "";
    } else {
      assert (s + [c])[1..] == s[1..] + [c];
      if '0' <= s[0] <= '9' {
        ReadDigitsSnoc(s[1..], c, 10 * before + (s[0] as int - '0' as int));
      }
    }
  }

  lemma DigitIs(d: nat)
    requires d < 10
    ensures '0' <= Digit(d) <= '9' && Digit(d) as int - '0' as int == d
  {
  }

  lemma {:induction false} NaturalReadsBack(n: nat)
    ensures ReadDigits(DecimalNat(n), 0) == Some(n)
    ensures DecimalNat(n)[0] == '0' ==> n == 0
  {
    DigitIs(n % 10);
    if n < 10 {
      ReadDigitsSnoc("", Digit(n), 0);
      assert "" + [Digit(n)] == [Digit(n)];
    } else {
      NaturalReadsBack(n / 10);
      ReadDigitsSnoc(DecimalNat(n / 10), Digit(n % 10), 0);
    }
  }

  /** A printed integer reads back from left to right, and has no leading zero. */
  lemma DecimalReadsBack(n: int)
    ensures ReadDecimal(Decimal(n)) == Some(n)
    ensures n != 0 ==> Decimal(n)[0] != '0' && (n < 0 ==> Decimal(n)[1] != '0')
  {
    var s := DecimalNat(if n < 0 then -n else n);
    NaturalReadsBack(if n < 0 then -n else n);
    assert s[0] in s;
    if n < 0 {
      assert Decimal(n)[1..] == s;
    }
  }

  /** Distinct integers print differently. */
  lemma DecimalInjective(m: int, n: int)
    requires Decimal(m) == Decimal(n)
    ensures m == n
  {
    DecimalReadsBack(m);
    DecimalReadsBack(n);
  }

  // ---------------------------------------------------------------- lower-casing

  /** A case table maps a character to its lower-case spelling, which may be several characters. */
  type CaseTable = char -> string

  /** What the Unicode tables guarantee: lower-case spellings are fixed points, whitespace is
      untouched and never produced, and lower-case ASCII text stays as it is. */
  ghost predicate CaseTableOk(lower: CaseTable) {
    && (forall c: char | IsSpace(c) :: lower(c) == [c])
    && (forall c: char | !IsSpace(c) :: lower(c) != "")
    && (forall c: char, d: char | d in lower(c) :: lower(d) == [d] && (IsSpace(d) ==> IsSpace(c)))
    && (forall c: char | '-' <= c <= '9' || c == '@' || 'a' <= c <= 'z' :: lower(c) == [c])
  }

  function Lower(lower: CaseTable, s: string): string {
    if s == "" then "" else lower(s[0]) + Lower(lower, s[1..])
  }

  lemma {:induction false} LowerFixed(lower: CaseTable, s: string)
    requires forall c | c in s :: lower(c) == [c]
    ensures Lower(lower, s) == s
  {
    if s != "" {
      assert s[0] in s;
      LowerFixed(lower, s[1..]);
    }
  }

  lemma {:induction false} LowerAppend(lower: CaseTable, a: string, b: string)
    ensures Lower(lower, a + b) == Lower(lower, a) + Lower(lower, b)
  {
    if a == "" {
      assert a + b == b;
    } else {
      assert (a + b)[1..] == a[1..] + b;
      LowerAppend(lower, a[1..], b);
    }
  }

  lemma {:induction false} LowerCharacters(lower: CaseTable, s: string)
    requires CaseTableOk(lower)
    ensures forall d | d in Lower(lower, s) :: lower(d) == [d]
  {
    if s != "" {
      LowerCharacters(lower, s[1..]);
    }
  }

  lemma LowerIdempotent(lower: CaseTable, s: string)
    requires CaseTableOk(lower)
    ensures Lower(lower, Lower(lower, s)) == Lower(lower, s)
  {
    LowerCharacters(lower, s);
    LowerFixed(lower, Lower(lower, s));
  }

  lemma LowerStripped(lower: CaseTable, s: string)
    requires CaseTableOk(lower) && Stripped(s)
    ensures Stripped(Lower(lower, s))
  {
    if s != "" {
      var n := |s| - 1;
      assert s == s[..n] + [s[n]];
      LowerAppend(lower, s[..n], [s[n]]);
      assert Lower(lower, [s[n]]) == lower(s[n]) + Lower(lower, "") == lower(s[n]);
      var l := lower(s[n]);
      assert l[|l| - 1] in l;
      var f := lower(s[0]);
      assert f[0] in f;
    }
  }

  /** `s.strip().lower()`, the form under which e-mail addresses are stored and looked up. */
  function Normal(lower: CaseTable, s: string): string { Lower(lower, Strip(s)) }

  /** Normalising is idempotent. */
  lemma NormalIdempotent(lower: CaseTable, s: string)
    requires CaseTableOk(lower)
    ensures Normal(lower, Normal(lower, s)) == Normal(lower, s)
  {
    var n := Normal(lower, s);
    StripIsStripped(s);
    LowerStripped(lower, Strip(s));
    StripPadded("", n, "");
    assert "" + n + "" == n;
    LowerIdempotent(lower, Strip(s));
  }

  /** Every spelling of an address that differs from it in letter case and outer whitespace only
      has the same normal form. */
  lemma NormalVariant(lower: CaseTable, pre: string, spelling: string, post: string)
    requires AllSpace(pre) && AllSpace(post) && Stripped(spelling)
    ensures Normal(lower, pre + spelling + post) == Lower(lower, spelling)
  {
    StripPadded(pre, spelling, post);
  }
}
