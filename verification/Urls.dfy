/** Merging parameters into the query string of a redirect URI. */
module Urls {
  import opened Text
  import opened Base64
  import opened Utf8
  import opened UrlParts

  // ---------------------------------------------------------------- percent-encoding

  function HexDigit(v: nat): char
    requires v < 16
  {
    if v < 10 then ('0' as int + v) as char else ('A' as int + v - 10) as char
  }

  function HexValue(c: char): Option<nat> {
    if '0' <= c <= '9' then Some(c as int - '0' as int)
    else if 'A' <= c <= 'F' then Some(c as int - 'A' as int + 10)
    else if 'a' <= c <= 'f' then Some(c as int - 'a' as int + 10)
    else None
  }

  function Percent(bs: seq<Octet>): string {
    if bs == [] then "" else ['%', HexDigit(bs[0] / 16), HexDigit(bs[0] % 16)] + Percent(bs[1..])
  }

  function QuoteChar(c: char): string {
    if Unreserved(c) then [c] else if c == ' ' then "+" else Percent(EncodeChar(c))
  }

  /** `quote_plus`. */
  function Quote(s: string): string {
    if s == "" then "" else QuoteChar(s[0]) + Quote(s[1..])
  }

  function PlusToSpace(s: string): string {
    if s == "" then "" else [if s[0] == '+' then ' ' else s[0]] + PlusToSpace(s[1..])
  }

  /** `unquote_to_bytes` on ASCII text: a `%` not followed by two hex digits stands for itself. */
  function UnquoteBytes(s: string): seq<Octet>
    requires Ascii(s)
  {
    if s == "" then []
    else if s[0] == '%' && |s| >= 3 && HexValue(s[1]).Some? && HexValue(s[2]).Some? then
      HexByte(s[1], s[2]) + UnquoteBytes(s[3..])
    else [s[0] as int] + UnquoteBytes(s[1..])
  }

  function HexByte(h: char, l: char): seq<Octet>
    requires HexValue(h).Some? && HexValue(l).Some?
  {
    [16 * HexValue(h).value + HexValue(l).value]
  }

  function AsciiLength(s: string): (n: nat)
    ensures n <= |s| && Ascii(s[..n])
    ensures n < |s| ==> s[n] as int >= 128
  {
    if s == "" || s[0] as int >= 128 then 0
    else
      var n := AsciiLength(s[1..]);
      assert s[..n + 1] == [s[0]] + s[1..][..n];
      n + 1
  }

  /** `unquote`: every maximal ASCII run is percent-decoded and read as UTF-8, other characters pass. */
  function Unquote(s: string): string
    decreases |s|
  {
    if s == "" then ""
    else if s[0] as int >= 128 then [s[0]] + Unquote(s[1..])
    else var n := AsciiLength(s); Utf8Decode(UnquoteBytes(s[..n])) + Unquote(s[n..])
  }

  function DecodeField(s: string): string { Unquote(PlusToSpace(s)) }

  lemma {:induction false} PlusToSpaceAppend(a: string, b: string)
    ensures PlusToSpace(a + b) == PlusToSpace(a) + PlusToSpace(b)
  {
    if a == "" {
      assert a + b == b;
    } else {
      assert (a + b)[1..] == a[1..] + b;
      PlusToSpaceAppend(a[1..], b);
    }
  }

  lemma {:induction false} PlusToSpaceFixed(s: string)
    requires forall i | 0 <= i < |s| :: s[i] != '+'
    ensures PlusToSpace(s) == s
  {
    if s != "" {
      PlusToSpaceFixed(s[1..]);
    }
  }

  /** Visible ASCII characters, and none of those that structure a URL. */
  predicate Clean(s: string) {
    forall i | 0 <= i < |s| :: 0x20 < s[i] as int < 128 && s[i] != '&' && s[i] != '=' && s[i] != '#' && s[i] != '?'
  }

  predicate Visible(s: string) { forall i | 0 <= i < |s| :: !Blank(s[i]) }

  lemma {:induction false} PercentCharacters(bs: seq<Octet>)
    ensures Clean(Percent(bs)) && PlusToSpace(Percent(bs)) == Percent(bs)
  {
    if bs != [] {
      PercentCharacters(bs[1..]);
      var head := ['%', HexDigit(bs[0] / 16), HexDigit(bs[0] % 16)];
      PlusToSpaceAppend(head, Percent(bs[1..]));
      PlusToSpaceFixed(head);
    }
  }

  lemma {:induction false} PlusToSpaceAscii(s: string)
    requires Ascii(s)
    ensures Ascii(PlusToSpace(s))
  {
    if s != "" {
      PlusToSpaceAscii(s[1..]);
    }
  }

  /** A quoted string holds none of the characters that structure a URL. */
  lemma {:induction false} QuoteCharacters(s: string)
    ensures Clean(Quote(s)) && Ascii(PlusToSpace(Quote(s)))
  {
    if s != "" {
      QuoteCharacters(s[1..]);
      PercentCharacters(EncodeChar(s[0]));
      assert Clean(QuoteChar(s[0]));
      PlusToSpaceAscii(Quote(s));
    }
  }

  lemma HexPair(b: Octet)
    ensures HexValue(HexDigit(b / 16)).Some? && HexValue(HexDigit(b % 16)).Some?
    ensures HexByte(HexDigit(b / 16), HexDigit(b % 16)) == [b]
  {
  }

  lemma UnquoteTriple(b: Octet, tail: string)
    requires Ascii(tail)
    ensures var s := ['%', HexDigit(b / 16), HexDigit(b % 16)] + tail;
            Ascii(s) && UnquoteBytes(s) == [b] + UnquoteBytes(tail)
  {
    hide HexValue, HexByte;
    HexPair(b);
    var s := ['%', HexDigit(b / 16), HexDigit(b % 16)] + tail;
    assert s[3..] == tail;
  }

  lemma {:induction false} UnquotePercent(bs: seq<Octet>, rest: string)
    requires Ascii(rest)
    ensures Ascii(Percent(bs) + rest) && UnquoteBytes(Percent(bs) + rest) == bs + UnquoteBytes(rest)
  {
    hide UnquoteBytes, HexDigit;
    if bs == [] {
      assert Percent(bs) + rest == rest;
    } else {
      var head, tail := ['%', HexDigit(bs[0] / 16), HexDigit(bs[0] % 16)], Percent(bs[1..]) + rest;
      UnquotePercent(bs[1..], rest);
      UnquoteTriple(bs[0], tail);
      assert Percent(bs) + rest == head + tail;
      assert bs == [bs[0]] + bs[1..];
    }
  }

  lemma {:induction false} UnquoteQuotedBytes(s: string)
    requires Ascii(PlusToSpace(Quote(s)))
    ensures UnquoteBytes(PlusToSpace(Quote(s))) == Utf8Encode(s)
  {
    if s != "" {
      var rest := PlusToSpace(Quote(s[1..]));
      QuoteCharacters(s[1..]);
      PlusToSpaceAppend(QuoteChar(s[0]), Quote(s[1..]));
      UnquoteQuotedBytes(s[1..]);
      PercentCharacters(EncodeChar(s[0]));
      if !Unreserved(s[0]) && s[0] != ' ' {
        UnquotePercent(EncodeChar(s[0]), rest);
      } else {
        var q := PlusToSpace(QuoteChar(s[0])) + rest;
        assert q[0] == s[0] && q[1..] == rest;
      }
    }
  }

  lemma AsciiLengthAll(s: string)
    requires Ascii(s)
    ensures AsciiLength(s) == |s|
  {
  }

  /** Percent-encoding round trip, for every string. */
  lemma DecodeQuoted(s: string)
    ensures DecodeField(Quote(s)) == s
  {
    var q := PlusToSpace(Quote(s));
    QuoteCharacters(s);
    UnquoteQuotedBytes(s);
    Utf8RoundTrip(s);
    if q != "" {
      AsciiLengthAll(q);
      assert q[..|q|] == q && q[|q|..] == "";
      assert Unquote(q) == s + Unquote("") == s;
    }
  }

  // ---------------------------------------------------------------- query strings

  type Pair = (string, string)

  function ParsePair(segment: string): Pair {
    (DecodeField(Before(segment, '=')), DecodeField(After(segment, '=')))
  }

  /** `parse_qsl(query, keep_blank_values=True)`: empty segments are skipped. */
  function ParseQuery(query: string): seq<Pair>
    decreases |query|
  {
    var i := IndexOf(query, '&');
    (if i == 0 then [] else [ParsePair(query[..i])])
      + (if i < |query| then ParseQuery(query[i + 1..]) else [])
  }

  /** `dict(pairs)`: the last duplicate wins. */
  function ToMap(pairs: seq<Pair>): map<string, string> {
    if pairs == [] then map[]
    else
      var n := |pairs| - 1;
      ToMap(pairs[..n])[pairs[n].0 := pairs[n].1]
  }

  function PrintPair(k: string, v: string): string { Quote(k) + "=" + Quote(v) }

  function PrintKeys(keys: seq<string>, m: map<string, string>): string
    requires forall k | k in keys :: k in m
  {
    if keys == [] then ""
    else if |keys| == 1 then PrintPair(keys[0], m[keys[0]])
    else PrintPair(keys[0], m[keys[0]]) + "&" + PrintKeys(keys[1..], m)
  }

  function PairsOf(keys: seq<string>, m: map<string, string>): seq<Pair>
    requires forall k | k in keys :: k in m
  {
    if keys == [] then [] else [(keys[0], m[keys[0]])] + PairsOf(keys[1..], m)
  }

  /** `urlencode(sorted(m.items()))`. */
  function Print(m: map<string, string>): string { PrintKeys(SortedKeys(m), m) }

  /** The three parts of a URL as text: before the query, the query, and the fragment. */
  function Base(url: string): string { Before(Before(url, '#'), '?') }

  function Query(url: string): string { After(Before(url, '#'), '?') }

  function Fragment(url: string): string { After(url, '#') }

  function Assemble(base: string, query: string, fragment: string): string {
    base + (if query != "" then "?" + query else "") + (if fragment != "" then "#" + fragment else "")
  }

  /** A bracket without its counterpart is refused here, the rest by the check. */
  predicate AuthorityOk(check: AuthorityCheck, netloc: string) {
    && (Lacks(netloc, '[') <==> Lacks(netloc, ']'))
    && (!Lacks(netloc, '[') || !Ascii(netloc) ==> check(netloc))
  }

  /** `urlparse`; `None` is its `ValueError`. Every other component ends before the first `#` or `?`. */
  function Parse(check: AuthorityCheck, url: string): Option<Parts> {
    var u := Cleaned(url);
    var p := Cut(Base(u));
    if AuthorityOk(check, p.netloc) then Some(PartsOf(p, Query(u), Fragment(u))) else None
  }

  /** `urlunparse`. */
  function Unparse(parts: Parts): string { Assemble(Front(parts), parts.query, parts.fragment) }

  /** The parameters of a query string, the last of several with one name. */
  function Params(parts: Parts): map<string, string> { ToMap(ParseQuery(parts.query)) }

  function WithParams(parts: Parts, params: map<string, string>): Parts {
    parts.(query := Print(Params(parts) + params))
  }

  /** `append_query_params`. */
  function AppendQuery(check: AuthorityCheck, url: string, params: map<string, string>): Option<string> {
    match Parse(check, url) case None => None case Some(parts) => Some(Unparse(WithParams(parts, params)))
  }

  // ---------------------------------------------------------------- the round trip

  lemma PrintedPairText(k: string, v: string)
    ensures PrintPair(k, v) != "" && Lacks(PrintPair(k, v), '&') && Lacks(PrintPair(k, v), '#')
        && Visible(PrintPair(k, v))
  {
    QuoteCharacters(k);
    QuoteCharacters(v);
    hide Quote;
  }

  lemma PrintPairParses(k: string, v: string)
    ensures ParsePair(PrintPair(k, v)) == (k, v)
    ensures PrintPair(k, v) != "" && Lacks(PrintPair(k, v), '&') && Lacks(PrintPair(k, v), '#')
        && Visible(PrintPair(k, v))
  {
    PrintedPairText(k, v);
    QuoteCharacters(k);
    DecodeQuoted(k);
    DecodeQuoted(v);
    hide Quote, DecodeField;
    assert PrintPair(k, v) == Quote(k) + ['='] + Quote(v);
    IndexOfFirst(Quote(k), '=', Quote(v));
  }

  lemma {:induction false} PrintedKeysParse(keys: seq<string>, m: map<string, string>)
    requires forall k | k in keys :: k in m
    ensures ParseQuery(PrintKeys(keys, m)) == PairsOf(keys, m)
    ensures Lacks(PrintKeys(keys, m), '#') && Visible(PrintKeys(keys, m))
  {
    if keys != [] {
      var seg := PrintPair(keys[0], m[keys[0]]);
      PrintPairParses(keys[0], m[keys[0]]);
      PrintedKeysParse(keys[1..], m);
      if |keys| == 1 {
        IndexOfNone(seg, '&');
        assert seg[..|seg|] == seg;
        assert PairsOf(keys[1..], m) == [];
      } else {
        var rest := PrintKeys(keys[1..], m);
        IndexOfFirst(seg, '&', rest);
        assert seg + "&" + rest == seg + ['&'] + rest;
        assert (seg + "&" + rest)[..|seg|] == seg && (seg + "&" + rest)[|seg| + 1..] == rest;
      }
    }
  }

  lemma {:induction false} ToMapOfPairs(keys: seq<string>, m: map<string, string>)
    requires forall k | k in keys :: k in m
    ensures ToMap(PairsOf(keys, m)) == map k | k in Elems(keys) :: m[k]
    decreases |keys|
  {
    if keys != [] {
      var n := |keys| - 1;
      PairsOfAt(keys, m);
      assert PairsOf(keys, m)[..n] == PairsOf(keys[..n], m) by {
        PairsOfAt(keys[..n], m);
      }
      ToMapOfPairs(keys[..n], m);
      assert keys == keys[..n] + [keys[n]];
      assert Elems(keys) == Elems(keys[..n]) + {keys[n]};
    }
  }

  lemma {:induction false} PairsOfAt(keys: seq<string>, m: map<string, string>)
    requires forall k | k in keys :: k in m
    ensures |PairsOf(keys, m)| == |keys|
    ensures forall i | 0 <= i < |keys| :: PairsOf(keys, m)[i] == (keys[i], m[keys[i]])
  {
    if keys != [] {
      PairsOfAt(keys[1..], m);
    }
  }

  /** Parsing a printed parameter map gives the parameters back, in ascending key order. */
  lemma PrintedQueryParses(m: map<string, string>)
    ensures ParseQuery(Print(m)) == PairsOf(SortedKeys(m), m)
    ensures ToMap(ParseQuery(Print(m))) == m
    ensures Lacks(Print(m), '#') && Visible(Print(m))
  {
    PrintedKeysParse(SortedKeys(m), m);
    ToMapOfPairs(SortedKeys(m), m);
    assert Elems(SortedKeys(m)) == m.Keys;
  }

  lemma AssembledParts(base: string, query: string, fragment: string)
    requires Lacks(base, '#') && Lacks(base, '?') && Lacks(query, '#')
    ensures var url := Assemble(base, query, fragment);
            Base(url) == base && Query(url) == query && Fragment(url) == fragment
  {
    var url, front := Assemble(base, query, fragment), base + (if query != "" then "?" + query else "");
    if fragment != "" {
      assert url == front + ['#'] + fragment;
      IndexOfFirst(front, '#', fragment);
    } else {
      assert url == front;
      IndexOfNone(front, '#');
    }
    if query != "" {
      assert front == base + ['?'] + query;
      IndexOfFirst(base, '?', query);
    } else {
      assert front == base;
      IndexOfNone(base, '?');
    }
  }

  /** What stands before the query is cut from there, so it has none of the delimiters. */
  lemma BaseIsCut(url: string)
    ensures Lacks(Base(url), '#') && Lacks(Base(url), '?')
    ensures forall c | c in Base(url) :: c in url
    ensures forall c | c in Fragment(url) :: c in url
    ensures Base(url) != "" ==> url != "" && Base(url)[0] == url[0]
  {
  }

  /** None of the characters that end the base or are dropped. */
  predicate Harmless(s: string) { Lacks(s, '#') && Lacks(s, '?') && forall i | 0 <= i < |s| :: !Unsafe(s[i]) }

  lemma HarmlessAppend(a: string, b: string)
    ensures Harmless(a + b) <==> Harmless(a) && Harmless(b)
  {
    assert forall i | 0 <= i < |a| :: (a + b)[i] == a[i];
    assert forall i | 0 <= i < |b| :: (a + b)[|a| + i] == b[i];
  }

  lemma LowerIsHarmless(s: string)
    requires SchemeOk(s)
    ensures Harmless(LowerScheme(s)) && (s != "" ==> !Blank(LowerScheme(s)[0]))
  {
  }

  lemma RestIsHarmless(p: Pieces)
    ensures Harmless(WrittenRest(p)) <==> Harmless(p.netloc) && Harmless(p.tail)
  {
    HarmlessAppend(p.netloc, p.tail);
    HarmlessAppend("//", p.netloc + p.tail);
    assert "" + (p.netloc + p.tail) == p.netloc + p.tail;
    assert Harmless("//");
  }

  lemma WrittenIsHarmless(p: Pieces)
    requires Harmless(p.scheme)
    ensures Harmless(Written(p)) <==> Harmless(p.netloc) && Harmless(p.tail)
  {
    RestIsHarmless(p);
    HarmlessAppend(p.scheme + [':'], WrittenRest(p));
    HarmlessAppend(p.scheme, [':']);
    assert Harmless([':']);
    hide Harmless;
  }

  /** A written text begins with its scheme, a slash, or its tail. */
  lemma WrittenBegins(p: Pieces)
    requires RestOk(p)
    ensures Written(p) != "" ==>
              Written(p)[0] == if p.scheme != "" then p.scheme[0] else if p.slashes || p.tail == "" then '/'
                  else p.tail[0]
  {
  }

  lemma SchemeIsHarmless(s: string)
    requires SchemeOk(s)
    ensures Harmless(s)
  {
  }

  /** The printed tail is the written one, or all but its final semicolon. */
  lemma PrintedTail(p: Pieces, query: string, fragment: string) returns (n: nat)
    requires PiecesOk(p)
    ensures n <= |p.tail| && Printed(PartsOf(p, query, fragment)).tail == p.tail[..n]
    ensures n == 0 && p.tail != "" ==> p.tail == ";"
  {
    var parts := PartsOf(p, query, fragment);
    PrintedOk(p, query, fragment);
    TailPrinted(parts.scheme, p.tail);
    LoneIsLast(parts.scheme, p.tail);
    n := |p.tail| - if LoneSemicolon(parts.scheme, p.tail) then 1 else 0;
    hide UsesNetloc, UsesParams, PathOf, ParamsOf, TailOf, LoneSemicolon, LowerScheme, PiecesOk;
    assert p.tail[..|p.tail|] == p.tail;
  }

  lemma PrintedHarmless(p: Pieces, query: string, fragment: string)
    requires PiecesOk(p) && Harmless(Written(p))
    ensures Harmless(Front(PartsOf(p, query, fragment)))
  {
    var q := Printed(PartsOf(p, query, fragment));
    var n := PrintedTail(p, query, fragment);
    SchemeIsHarmless(p.scheme);
    LowerIsHarmless(p.scheme);
    WrittenIsHarmless(p);
    WrittenIsHarmless(q);
    assert p.tail == p.tail[..n] + p.tail[n..];
    HarmlessAppend(p.tail[..n], p.tail[n..]);
    hide Harmless, UsesNetloc, PathOf, ParamsOf, TailOf, LowerScheme, PiecesOk, Written;
  }

  predicate BeginsVisibly(s: string) { s != "" ==> !Blank(s[0]) }

  lemma PrintedBegins(p: Pieces, query: string, fragment: string)
    requires PiecesOk(p) && BeginsVisibly(Written(p))
    ensures BeginsVisibly(Front(PartsOf(p, query, fragment)))
  {
    var q := Printed(PartsOf(p, query, fragment));
    var n := PrintedTail(p, query, fragment);
    PrintedOk(p, query, fragment);
    LowerIsHarmless(p.scheme);
    WrittenBegins(p);
    WrittenBegins(q);
    hide UsesNetloc, PathOf, ParamsOf, TailOf, LowerScheme, Written, Harmless, SchemeOk, SchemeLength, Lacks;
    if q.scheme == "" && !q.slashes && q.tail != "" {
      assert q.tail[0] == p.tail[0];
    }
  }

  /** The printed text has no delimiters, blanks in front, tabs or line breaks that the written has not. */
  lemma FrontCharacters(p: Pieces, query: string, fragment: string)
    requires PiecesOk(p) && IsClean(Written(p)) && Harmless(Written(p))
    ensures var front := Front(PartsOf(p, query, fragment)); IsClean(front) && Harmless(front)
  {
    PrintedHarmless(p, query, fragment);
    PrintedBegins(p, query, fragment);
    hide PartsOf, Front, PiecesOk;
  }

  lemma AssembledIsClean(base: string, query: string, fragment: string)
    requires IsClean(base) && Visible(query) && forall c | c in fragment :: !Unsafe(c)
    ensures IsClean(Assemble(base, query, fragment))
  {
  }

  /** The components of a parsed URL are found again in its printed form, whatever query is put in. */
  lemma UnparsedParses(check: AuthorityCheck, url: string, query: string)
    requires Parse(check, url).Some? && Lacks(query, '#') && Visible(query)
    ensures var parts := Parse(check, url).value.(query := query);
            Parse(check, Unparse(parts)) == Some(parts) && Base(Unparse(parts)) == Front(parts)
  {
    var u := Cleaned(url);
    var p := Cut(Base(u));
    var parts := PartsOf(p, query, Fragment(u));
    var out := Assemble(Front(parts), query, Fragment(u));
    CleanedIsClean(url);
    BaseIsCut(u);
    CutWritten(Base(u));
    FrontCharacters(p, query, Fragment(u));
    AssembledIsClean(Front(parts), query, Fragment(u));
    CleanedIsClean(out);
    AssembledParts(Front(parts), query, Fragment(u));
    PrintedAgain(p, query, Fragment(u));
    WrittenCut(Printed(parts));
  }

  /** Appending parameters: parsing the result gives the same scheme, authority, path, parameters of the
      path and fragment, and exactly the old query parameters overridden by the new ones. */
  lemma AppendedQuery(check: AuthorityCheck, url: string, params: map<string, string>)
    ensures AppendQuery(check, url, params) == None <==> Parse(check, url) == None
    ensures Parse(check, url).Some? ==>
              && var was, now := Parse(check, url).value, Parse(check, AppendQuery(check, url, params).value);
              && now.Some? && now.value == was.(query := now.value.query) && Params(now.value) == Params(was) + params
  {
    hide Parse, Unparse, Print, Params;
    if Parse(check, url).Some? {
      var was := Parse(check, url).value;
      PrintedQuery(was, params);
      UnparsedParses(check, url, Print(Params(was) + params));
    }
  }

  lemma PrintedQuery(was: Parts, params: map<string, string>)
    ensures var m := Params(was) + params;
            Lacks(Print(m), '#') && Visible(Print(m)) && Params(was.(query := Print(m))) == m
  {
    PrintedQueryParses(Params(was) + params);
  }

  /** The text before the query is as the printer would write it. */
  predicate Tidy(url: string) { IsClean(Base(url)) && Kept(Cut(Base(url))) }

  lemma {:induction false} CleanedBase(url: string)
    ensures Base(Cleaned(url)) == Cleaned(Base(url))
  {
    var base := Base(url);
    var rest := url[|base|..];
    BaseIsCut(url);
    assert url == base + rest;
    RestDelimits(url);
    SkipBlanksAppend(base, rest);
    DropUnsafeAppend(SkipBlanks(base), rest);
    DropUnsafeCharacters(rest);
    CleanedIsClean(base);
    StillLacks(Cleaned(base), base, '#');
    StillLacks(Cleaned(base), base, '?');
    Delimited(Cleaned(base), DropUnsafe(rest));
  }

  lemma StillLacks(a: string, b: string, c: char)
    requires Lacks(b, c) && forall d | d in a :: d in b
    ensures Lacks(a, c)
  {
    assert c !in b;
    forall i | 0 <= i < |a| ensures a[i] != c {
      assert a[i] in a;
    }
  }

  lemma RestDelimits(url: string)
    ensures |Base(url)| <= |url| && url[..|Base(url)|] == Base(url)
    ensures var rest := url[|Base(url)|..]; rest == "" || rest[0] == '?' || rest[0] == '#'
  {
  }

  lemma Delimited(base: string, rest: string)
    requires Lacks(base, '#') && Lacks(base, '?') && (rest == "" || rest[0] == '?' || rest[0] == '#')
    ensures Base(base + rest) == base
  {
    var s := base + rest;
    var i := IndexOf(s, '#');
    if i < |s| {
      assert s[i] == '#';
    }
    assert i >= |base|;
    var t := s[..i];
    var j := IndexOf(t, '?');
    assert j >= |base|;
    if rest != "" {
      assert s[|base|] == rest[0];
    }
  }

  /** The text before the query comes out unchanged exactly if it is tidy: no blank in front, no tab or
      line break, the scheme in lower case, `//` where the printer writes it, and no lone semicolon. */
  lemma BaseKeptExactly(check: AuthorityCheck, url: string, params: map<string, string>)
    requires Parse(check, url).Some?
    ensures Base(AppendQuery(check, url, params).value) == Base(url) <==> Tidy(url)
  {
    var u, base := Cleaned(url), Base(url);
    var was := Parse(check, url).value;
    var p := Cut(Base(u));
    PrintedQuery(was, params);
    UnparsedParses(check, url, Print(Params(was) + params));
    CleanedBase(url);
    CleanedIsClean(base);
    BaseIsCut(u);
    CutWritten(Base(u));
    CleanedIsClean(url);
    FrontKeptExactly(p, Print(Params(was) + params), Fragment(u));
    FrontCharacters(p, Print(Params(was) + params), Fragment(u));
  }

  lemma MergeTwice(m: map<string, string>, first: map<string, string>, second: map<string, string>)
    ensures m + first + second == m + (first + second)
    ensures first + first == first
  {
  }

  /** Appending twice is appending the combined parameters once. */
  lemma AppendTwice(check: AuthorityCheck, url: string, first: map<string, string>, second: map<string, string>)
    ensures AppendQuery(check, url, first).Some? ==>
              AppendQuery(check, AppendQuery(check, url, first).value, second) ==
                  AppendQuery(check, url, first + second)
  {
    AppendedQuery(check, url, first);
    if Parse(check, url).Some? {
      MergeTwice(Params(Parse(check, url).value), first, second);
    }
  }

  /** Appending the same parameters again is the identity. */
  lemma AppendIdempotent(check: AuthorityCheck, url: string, params: map<string, string>)
    ensures var once := AppendQuery(check, url, params);
            once.Some? ==> AppendQuery(check, once.value, params) == once
  {
    AppendTwice(check, url, params, params);
    MergeTwice(map[], params, params);
  }
}
