/** Splitting a URL into its components and printing it again, as `urlparse` and `urlunparse` of
    Python 3.13 do. */
module UrlParts {
  import opened Text

  datatype Parts = Parts(scheme: string, netloc: string, path: string, params: string, query: string, fragment: string)

  /** The checks of an authority that are left uninterpreted: IP addresses in brackets, and characters
      that Unicode normalisation turns into delimiters. */
  type AuthorityCheck = string -> bool

  // ---------------------------------------------------------------- cleaning

  predicate Blank(c: char) { c as int <= 0x20 }

  predicate Unsafe(c: char) { c == '\t' || c == '\r' || c == '\n' }

  function SkipBlanks(s: string): string { if s != "" && Blank(s[0]) then SkipBlanks(s[1..]) else s }

  function DropUnsafe(s: string): string {
    if s == "" then "" else (if Unsafe(s[0]) then "" else [s[0]]) + DropUnsafe(s[1..])
  }

  function Cleaned(s: string): string { DropUnsafe(SkipBlanks(s)) }

  /** No blank in front, and no tab or line break anywhere. */
  predicate IsClean(s: string) { (s != "" ==> !Blank(s[0])) && forall i | 0 <= i < |s| :: !Unsafe(s[i]) }

  lemma {:induction false} DropUnsafeAppend(a: string, b: string)
    ensures DropUnsafe(a + b) == DropUnsafe(a) + DropUnsafe(b)
  {
    if a == "" {
      assert a + b == b;
    } else {
      assert (a + b)[1..] == a[1..] + b;
      DropUnsafeAppend(a[1..], b);
    }
  }

  lemma {:induction false} DropUnsafeCharacters(s: string)
    ensures forall c | c in DropUnsafe(s) :: c in s && !Unsafe(c)
    ensures s != "" && !Blank(s[0]) ==> DropUnsafe(s) != "" && DropUnsafe(s)[0] == s[0]
    ensures (forall i | 0 <= i < |s| :: !Unsafe(s[i])) ==> DropUnsafe(s) == s
  {
    if s != "" {
      DropUnsafeCharacters(s[1..]);
    }
  }

  lemma {:induction false} SkipBlanksAppend(a: string, b: string)
    requires b != "" ==> !Blank(b[0])
    ensures SkipBlanks(a + b) == SkipBlanks(a) + b
    ensures SkipBlanks(a) != "" ==> !Blank(SkipBlanks(a)[0])
    ensures forall c | c in SkipBlanks(a) :: c in a
  {
    if a == "" {
      assert a + b == b;
    } else {
      assert (a + b)[0] == a[0] && (a + b)[1..] == a[1..] + b;
      SkipBlanksAppend(a[1..], b);
    }
  }

  lemma CleanedIsClean(s: string)
    ensures IsClean(Cleaned(s))
    ensures forall c | c in Cleaned(s) :: c in s
    ensures IsClean(s) ==> Cleaned(s) == s
  {
    SkipBlanksAppend(s, "");
    DropUnsafeCharacters(SkipBlanks(s));
  }

  // ---------------------------------------------------------------- what stands before the query

  predicate Alpha(c: char) { 'a' <= c <= 'z' || 'A' <= c <= 'Z' }

  predicate SchemeChar(c: char) { Alpha(c) || '0' <= c <= '9' || c == '+' || c == '-' || c == '.' }

  function LowerAscii(c: char): char { if 'A' <= c <= 'Z' then (c as int + 32) as char else c }

  function LowerScheme(s: string): (l: string)
    ensures |l| == |s|
    ensures forall i | 0 <= i < |s| :: l[i] == LowerAscii(s[i])
  {
    seq(|s|, i requires 0 <= i < |s| => LowerAscii(s[i]))
  }

  predicate UsesNetloc(scheme: string) {
    scheme in {"ftp", "http", "gopher", "nntp", "telnet", "imap", "wais", "file", "mms", "https", "shttp", "snews",
               "prospero", "rtsp", "rtsps", "rtspu", "rsync", "svn", "svn+ssh", "sftp", "nfs", "git", "git+ssh",
               "ws", "wss", "itms-services"}
  }

  predicate UsesParams(scheme: string) {
    scheme in {"", "ftp", "hdl", "prospero", "http", "imap", "https", "shttp", "rtsp", "rtsps", "rtspu", "sip", "sips",
               "mms", "sftp", "tel"}
  }

  /** The text before the query, cut where `urlsplit` cuts it: the scheme as it is written, whether `//`
      follows, the authority, and the rest. */
  datatype Pieces = Pieces(scheme: string, slashes: bool, netloc: string, tail: string)

  /** The length of the scheme, zero when there is none. */
  function SchemeLength(s: string): (n: nat)
    ensures n < |s| || n == 0
  {
    var i := IndexOf(s, ':');
    if 0 < i < |s| && Alpha(s[0]) && forall k | 0 <= k < i :: SchemeChar(s[k]) then i else 0
  }

  predicate TwoSlashes(s: string) { |s| >= 2 && s[0] == '/' && s[1] == '/' }

  predicate Rooted(s: string) { s == "" || s[0] == '/' }

  function Cut(s: string): Pieces {
    var n := SchemeLength(s);
    if n == 0 then CutRest("", s) else CutRest(s[..n], s[n + 1..])
  }

  function CutRest(scheme: string, rest: string): Pieces {
    if TwoSlashes(rest) then
      var m := IndexOf(rest[2..], '/');
      Pieces(scheme, true, rest[2..][..m], rest[2..][m..])
    else Pieces(scheme, false, "", rest)
  }

  function Written(p: Pieces): string {
    if p.scheme == "" then WrittenRest(p) else p.scheme + [':'] + WrittenRest(p)
  }

  function WrittenRest(p: Pieces): string { (if p.slashes then "//" else "") + (p.netloc + p.tail) }

  predicate SchemeOk(s: string) { s == "" || (Alpha(s[0]) && forall k | 0 <= k < |s| :: SchemeChar(s[k])) }

  predicate RestOk(p: Pieces) {
    Lacks(p.netloc, '/') && if p.slashes then Rooted(p.tail) else p.netloc == "" && !TwoSlashes(p.tail)
  }

  /** The pieces are such as cutting yields. */
  predicate PiecesOk(p: Pieces) {
    SchemeOk(p.scheme) && RestOk(p) && (p.scheme == "" && !p.slashes ==> SchemeLength(p.tail) == 0)
  }

  lemma RestWritten(scheme: string, rest: string)
    ensures RestOk(CutRest(scheme, rest)) && WrittenRest(CutRest(scheme, rest)) == rest
  {
    if TwoSlashes(rest) {
      var front := rest[2..];
      assert front == front[..IndexOf(front, '/')] + front[IndexOf(front, '/')..];
      assert rest == "//" + front;
    }
  }

  lemma CutWritten(s: string)
    ensures PiecesOk(Cut(s)) && Written(Cut(s)) == s
  {
    var n := SchemeLength(s);
    SchemeSplits(s);
    hide SchemeLength, SchemeOk, RestOk, WrittenRest;
    RestWritten(s[..n], if n == 0 then s else s[n + 1..]);
  }

  lemma SchemeSplits(s: string)
    ensures var n := SchemeLength(s);
            SchemeOk(s[..n]) && (n > 0 ==> n < |s| && s == s[..n] + [':'] + s[n + 1..])
  {
    hide Alpha, SchemeChar;
  }

  lemma RestCut(p: Pieces)
    requires RestOk(p)
    ensures CutRest(p.scheme, WrittenRest(p)) == p
  {
    if p.slashes {
      var front := p.netloc + p.tail;
      assert WrittenRest(p)[2..] == front;
      AuthorityEnds(p.netloc, p.tail);
      assert front[..|p.netloc|] == p.netloc && front[|p.netloc|..] == p.tail;
    } else {
      assert WrittenRest(p) == p.tail;
    }
  }

  lemma SchemeFound(scheme: string, rest: string)
    requires SchemeOk(scheme) && scheme != ""
    ensures SchemeLength(scheme + [':'] + rest) == |scheme|
  {
    SchemeHasNoColon(scheme);
    hide Alpha, SchemeChar;
    IndexOfFirst(scheme, ':', rest);
    var s := scheme + [':'] + rest;
    assert forall k | 0 <= k < |scheme| :: s[k] == scheme[k];
  }

  lemma WrittenCut(p: Pieces)
    requires PiecesOk(p)
    ensures Cut(Written(p)) == p
  {
    RestCut(p);
    if p.scheme == "" {
      NoScheme(p);
    } else {
      SchemeFound(p.scheme, WrittenRest(p));
      var s := Written(p);
      assert s[..|p.scheme|] == p.scheme && s[|p.scheme| + 1..] == WrittenRest(p);
    }
  }

  lemma SchemeHasNoColon(s: string)
    ensures SchemeOk(s) ==> Lacks(s, ':')
  {
  }

  lemma AuthorityEnds(netloc: string, tail: string)
    requires Lacks(netloc, '/') && Rooted(tail)
    ensures IndexOf(netloc + tail, '/') == |netloc|
  {
    if tail == "" {
      assert netloc + tail == netloc;
      IndexOfNone(netloc, '/');
    } else {
      assert netloc + tail == netloc + ['/'] + tail[1..];
      IndexOfFirst(netloc, '/', tail[1..]);
    }
  }

  lemma NoScheme(p: Pieces)
    requires PiecesOk(p) && p.scheme == ""
    ensures SchemeLength(Written(p)) == 0
  {
    if p.slashes {
      assert Written(p)[0] == '/';
    } else {
      assert Written(p) == p.tail;
    }
  }

  // ---------------------------------------------------------------- path and parameters

  /** Where the last segment of a path begins. */
  function LastSegment(s: string): (n: nat)
    ensures n <= |s| && Lacks(s[n..], '/')
    ensures n > 0 ==> s[n - 1] == '/'
  {
    if s == "" then 0
    else if s[|s| - 1] == '/' then |s|
    else
      var n := LastSegment(s[..|s| - 1]);
      assert s[n..] == s[..|s| - 1][n..] + [s[|s| - 1]];
      n
  }

  /** Parameters follow the first `;` of the last segment. */
  function PathOf(scheme: string, tail: string): string {
    if !UsesParams(scheme) then tail else
      var n := LastSegment(tail);
      tail[..n] + Before(tail[n..], ';')
  }

  function ParamsOf(scheme: string, tail: string): string {
    if !UsesParams(scheme) then "" else After(tail[LastSegment(tail)..], ';')
  }

  function TailOf(path: string, params: string): string { if params == "" then path else path + ";" + params }

  /** The text ends in its first `;`. */
  predicate EndsLone(s: string) { s != "" && s[|s| - 1] == ';' && Lacks(s[..|s| - 1], ';') }

  /** The last segment ends in its first `;`: there are no parameters after it. */
  predicate LoneSemicolon(scheme: string, tail: string) { UsesParams(scheme) && EndsLone(tail[LastSegment(tail)..]) }

  lemma {:induction false} LastSegmentFixed(s: string, n: nat)
    requires n <= |s| && Lacks(s[n..], '/') && (n > 0 ==> s[n - 1] == '/')
    ensures LastSegment(s) == n
    decreases |s|
  {
    if n < |s| {
      var t := s[..|s| - 1];
      assert s[n..][|s| - 1 - n] == s[|s| - 1];
      forall i | 0 <= i < |t[n..]| ensures t[n..][i] != '/' {
        assert t[n..][i] == s[n..][i];
      }
      LastSegmentFixed(t, n);
    }
  }

  /** Splitting a segment at its first `;` and printing it drops a lone semicolon and nothing else. */
  lemma SegmentPrinted(s: string)
    ensures TailOf(Before(s, ';'), After(s, ';')) == if EndsLone(s) then s[..|s| - 1] else s
  {
    var i := IndexOf(s, ';');
    if i < |s| {
      assert s == s[..i] + ";" + s[i + 1..];
      if i + 1 < |s| && s[|s| - 1] == ';' {
        assert s[..|s| - 1][i] == ';';
      }
    } else {
      assert s[..i] == s;
    }
  }

  lemma SegmentSplitsAgain(s: string)
    ensures var head, params := Before(s, ';'), After(s, ';');
            Before(TailOf(head, params), ';') == head && After(TailOf(head, params), ';') == params
  {
    var i := IndexOf(s, ';');
    var head, params := s[..i], After(s, ';');
    if params == "" {
      IndexOfNone(head, ';');
    } else {
      assert head + ";" + params == head + [';'] + params;
      IndexOfFirst(head, ';', params);
    }
  }

  lemma TailAfter(pre: string, head: string, params: string)
    ensures TailOf(pre + head, params) == pre + TailOf(head, params)
  {
    assert pre + head + ";" + params == pre + (head + ";" + params);
  }

  /** Printing path and parameters drops a lone semicolon and nothing else. */
  lemma TailPrinted(scheme: string, tail: string)
    ensures var printed := TailOf(PathOf(scheme, tail), ParamsOf(scheme, tail));
            printed == if LoneSemicolon(scheme, tail) then tail[..|tail| - 1] else tail
  {
    hide UsesParams, TailOf;
    if UsesParams(scheme) {
      var n := LastSegment(tail);
      var last := tail[n..];
      SegmentPrinted(last);
      TailAfter(tail[..n], Before(last, ';'), After(last, ';'));
      assert tail == tail[..n] + last;
      if EndsLone(last) {
        assert tail[..|tail| - 1] == tail[..n] + last[..|last| - 1];
      }
    } else {
      NoParams(tail);
    }
  }

  lemma NoParams(path: string)
    ensures TailOf(path, "") == path
  {
  }

  lemma PrefixLacks(s: string, n: nat, c: char)
    requires n <= |s| && Lacks(s, c)
    ensures Lacks(s[..n], c)
  {
  }

  /** What was printed splits the same way. */
  lemma TailSplitsAgain(scheme: string, tail: string)
    ensures var path, params := PathOf(scheme, tail), ParamsOf(scheme, tail);
            PathOf(scheme, TailOf(path, params)) == path && ParamsOf(scheme, TailOf(path, params)) == params
  {
    hide UsesParams, TailOf, EndsLone, Lacks, LastSegment;
    if UsesParams(scheme) {
      var n := LastSegment(tail);
      var last := tail[n..];
      var again := TailOf(Before(last, ';'), After(last, ';'));
      SegmentPrinted(last);
      SegmentSplitsAgain(last);
      TailAfter(tail[..n], Before(last, ';'), After(last, ';'));
      if EndsLone(last) {
        assert |last| > 0 by { LoneIsNotEmpty(last); }
        PrefixLacks(last, |last| - 1, '/');
      }
      var s := tail[..n] + again;
      assert s[n..] == again && s[..n] == tail[..n];
      LastSegmentFixed(s, n);
    } else {
      NoParams(tail);
    }
  }

  lemma LoneIsNotEmpty(s: string)
    ensures EndsLone(s) ==> s != "" && s[|s| - 1] == ';'
  {
  }

  // ---------------------------------------------------------------- components

  function PartsOf(p: Pieces, query: string, fragment: string): Parts {
    var scheme := LowerScheme(p.scheme);
    Parts(scheme, p.netloc, PathOf(scheme, p.tail), ParamsOf(scheme, p.tail), query, fragment)
  }

  /** Whether `urlunsplit` writes `//` before authority and path. */
  predicate WritesSlashes(scheme: string, netloc: string, tail: string) {
    netloc != "" || TwoSlashes(tail) || (UsesNetloc(scheme) && Rooted(tail))
  }

  function Printed(parts: Parts): Pieces {
    var tail := TailOf(parts.path, parts.params);
    Pieces(parts.scheme, WritesSlashes(parts.scheme, parts.netloc, tail), parts.netloc,
           if parts.netloc != "" && !Rooted(tail) then "/" + tail else tail)
  }

  /** The text before the query that is printed for the components. */
  function Front(parts: Parts): string { Written(Printed(parts)) }

  lemma LowerSchemeOk(s: string)
    requires SchemeOk(s)
    ensures SchemeOk(LowerScheme(s)) && LowerScheme(LowerScheme(s)) == LowerScheme(s)
  {
  }

  lemma ShorterHasNoScheme(s: string)
    requires SchemeLength(s) == 0 && s != "" && s[|s| - 1] == ';'
    ensures SchemeLength(s[..|s| - 1]) == 0
  {
    var t := s[..|s| - 1];
    var i := IndexOf(t, ':');
    if i < |t| {
      assert s == t[..i] + [':'] + s[i + 1..];
      IndexOfFirst(t[..i], ':', s[i + 1..]);
      assert forall k | 0 <= k < i :: s[k] == t[k];
    }
  }

  /** A lone semicolon is the last character of the whole text. */
  lemma LoneIsLast(scheme: string, tail: string)
    ensures LoneSemicolon(scheme, tail) ==> tail != "" && tail[|tail| - 1] == ';'
  {
    hide UsesParams;
    var last := tail[LastSegment(tail)..];
    LoneIsNotEmpty(last);
    assert last != "" ==> tail[|tail| - 1] == last[|last| - 1];
  }

  /** Dropping a final semicolon leaves how a text begins. */
  lemma ShorterBegins(s: string)
    requires s != "" && s[|s| - 1] == ';'
    ensures Rooted(s) ==> Rooted(s[..|s| - 1])
    ensures SchemeLength(s) == 0 ==> SchemeLength(s[..|s| - 1]) == 0
  {
    if SchemeLength(s) == 0 {
      ShorterHasNoScheme(s);
    }
  }

  lemma PrintedOk(p: Pieces, query: string, fragment: string)
    requires PiecesOk(p)
    ensures var parts := PartsOf(p, query, fragment);
            PiecesOk(Printed(parts)) && Printed(parts).tail == TailOf(parts.path, parts.params)
  {
    var parts := PartsOf(p, query, fragment);
    LowerSchemeOk(p.scheme);
    TailPrinted(parts.scheme, p.tail);
    LoneIsLast(parts.scheme, p.tail);
    hide UsesNetloc, UsesParams, PathOf, ParamsOf, TailOf, LoneSemicolon, SchemeOk, Lacks, LowerScheme, SchemeLength;
    assert p.scheme == "" <==> parts.scheme == "";
    if LoneSemicolon(parts.scheme, p.tail) {
      ShorterBegins(p.tail);
    }
    var tail := TailOf(parts.path, parts.params);
    assert Rooted(p.tail) ==> Rooted(tail);
    assert Rooted(tail) && !TwoSlashes(tail) && tail != "" ==> tail[0] == '/';
    if parts.scheme == "" && !Printed(parts).slashes {
      if p.slashes {
        RootedHasNoScheme(tail);
      }
    }
  }

  lemma RootedHasNoScheme(s: string)
    requires Rooted(s)
    ensures SchemeLength(s) == 0
  {
  }

  /** Printing and cutting again yields the same components. */
  lemma PrintedAgain(p: Pieces, query: string, fragment: string)
    requires PiecesOk(p)
    ensures var parts := PartsOf(p, query, fragment);
            PiecesOk(Printed(parts)) && PartsOf(Printed(parts), query, fragment) == parts
  {
    var parts := PartsOf(p, query, fragment);
    LowerSchemeOk(p.scheme);
    PrintedOk(p, query, fragment);
    TailSplitsAgain(parts.scheme, p.tail);
    hide UsesNetloc, UsesParams, PathOf, ParamsOf, TailOf, PiecesOk, LowerScheme, SchemeOk, WritesSlashes, Rooted;
  }

  /** The pieces come back as they were written. */
  predicate Kept(p: Pieces) {
    var scheme := LowerScheme(p.scheme);
    && scheme == p.scheme && !LoneSemicolon(scheme, p.tail)
    && p.slashes == WritesSlashes(scheme, p.netloc, p.tail)
  }

  /** The printed text is the written one exactly if the scheme is in lower case, `//` stands exactly
      where it would be printed, and no semicolon ends the last segment without parameters. */
  lemma FrontKeptExactly(p: Pieces, query: string, fragment: string)
    requires PiecesOk(p)
    ensures Front(PartsOf(p, query, fragment)) == Written(p) <==> Kept(p)
  {
    var parts := PartsOf(p, query, fragment);
    PrintedAgain(p, query, fragment);
    TailPrinted(parts.scheme, p.tail);
    WrittenCut(p);
    WrittenCut(Printed(parts));
    hide UsesNetloc, UsesParams, PathOf, ParamsOf, Cut, Written, LoneSemicolon;
  }
}
