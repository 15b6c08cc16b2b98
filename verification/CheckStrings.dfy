/** What a Telegram signature covers: which payloads print the same data-check-string. A value may hold
    line breaks, and one of its lines may then read as a pair of its own. */
module CheckStrings {
  import opened Text
  import opened TelegramWidget

  type Pair = (string, string)

  /** Keys that a line can be told to start with. */
  predicate OneLineKeys(keys: set<string>) { forall k | k in keys :: Lacks(k, '=') && Lacks(k, '\n') }

  predicate Below(k: string, l: string) { Leq(k, l) && k != l }

  /** The text starts with a key that sorts after `k`, and its `=`. */
  predicate StartsLater(keys: set<string>, k: string, text: string) {
    var l := Before(text, '=');
    |l| < |text| && l in keys && Below(k, l)
  }

  predicate HidesAt(keys: set<string>, k: string, v: string, p: int) {
    0 <= p < |v| && v[p] == '\n' && StartsLater(keys, k, v[p + 1..])
  }

  /** The value of `k` has a line that reads as the pair of a later key. */
  predicate Hides(keys: set<string>, k: string, v: string) { exists p | 0 <= p < |v| :: HidesAt(keys, k, v, p) }

  predicate HidesNothing(keys: set<string>, m: map<string, string>) { forall k | k in m :: !Hides(keys, k, m[k]) }

  // ---------------------------------------------------------------- payloads as ascending lists of pairs

  function Printed(es: seq<Pair>): string
    decreases |es|, 1
  {
    if es == [] then "" else Line(es[0].0, Value(es))
  }

  /** The first value, and the lines of all further pairs. */
  function Value(es: seq<Pair>): string
    requires es != []
    decreases |es|, 0
  {
    if |es| == 1 then es[0].1 else es[0].1 + "\n" + Printed(es[1..])
  }

  function Firsts(es: seq<Pair>): (ks: seq<string>)
    ensures |ks| == |es| && forall i | 0 <= i < |es| :: ks[i] == es[i].0
  {
    seq(|es|, i requires 0 <= i < |es| => es[i].0)
  }

  /** A list of pairs a payload over the given keys prints. */
  predicate Listing(keys: set<string>, es: seq<Pair>) {
    Ascending(Firsts(es)) && forall i | 0 <= i < |es| :: es[i].0 in keys
  }

  predicate HidesNone(keys: set<string>, es: seq<Pair>) {
    forall i | 0 <= i < |es| :: !Hides(keys, es[i].0, es[i].1)
  }

  function Entries(m: map<string, string>): (es: seq<Pair>)
    ensures Firsts(es) == SortedKeys(m) && forall i | 0 <= i < |es| :: es[i].0 in m && es[i].1 == m[es[i].0]
  {
    var ks := SortedKeys(m);
    seq(|ks|, i requires 0 <= i < |ks| => (ks[i], m[ks[i]]))
  }

  function MapOf(es: seq<Pair>): map<string, string> {
    map k | k in Firsts(es) :: Lookup(es, k)
  }

  function Lookup(es: seq<Pair>, k: string): string
    requires k in Firsts(es)
  {
    if es[0].0 == k then es[0].1
    else
      assert Firsts(es)[1..] == Firsts(es[1..]);
      Lookup(es[1..], k)
  }

  lemma {:induction false} LookupAt(es: seq<Pair>, i: nat)
    requires i < |es| && Ascending(Firsts(es))
    ensures es[i].0 in MapOf(es) && MapOf(es)[es[i].0] == es[i].1
  {
    var ks := Firsts(es);
    assert ks[i] in ks;
    if i > 0 {
      assert ks[0] != ks[i];
      assert ks[1..] == Firsts(es[1..]);
      LookupAt(es[1..], i - 1);
    }
  }

  /** Ascending lists of pairs and maps are the same thing. */
  lemma EntriesOfMap(es: seq<Pair>)
    requires Ascending(Firsts(es))
    ensures Entries(MapOf(es)) == es
  {
    var m := MapOf(es);
    assert Elems(SortedKeys(m)) == Elems(Firsts(es));
    AscendingUnique(SortedKeys(m), Firsts(es));
    var fs := Entries(m);
    assert |fs| == |Firsts(fs)|;
    forall i | 0 <= i < |es| ensures fs[i] == es[i] {
      LookupAt(es, i);
      assert fs[i].0 == Firsts(fs)[i] == Firsts(es)[i];
    }
  }

  lemma EntryOfMap(m: map<string, string>, k: string)
    requires Ascending(SortedKeys(m)) && k in m
    ensures k in MapOf(Entries(m)) && MapOf(Entries(m))[k] == m[k]
  {
    var es := Entries(m);
    hide Ascending, SortedKeys, Lookup, MapOf;
    var i :| 0 <= i < |SortedKeys(m)| && SortedKeys(m)[i] == k;
    assert es[i].0 == Firsts(es)[i];
    LookupAt(es, i);
  }

  lemma MapOfEntries(m: map<string, string>)
    ensures MapOf(Entries(m)) == m && Ascending(Firsts(Entries(m)))
  {
    var es := Entries(m);
    assert Ascending(SortedKeys(m));
    hide Ascending, SortedKeys, Lookup, Entries;
    forall k | k in m ensures k in MapOf(es) && MapOf(es)[k] == m[k] {
      EntryOfMap(m, k);
    }
    assert forall k | k in MapOf(es) :: k in SortedKeys(m);
    hide MapOf;
    assert MapOf(es).Keys == m.Keys;
  }

  lemma {:induction false} LinesAt(keys: seq<string>, m: map<string, string>)
    requires forall k | k in keys :: k in m
    ensures var lines := Lines(keys, m);
            |lines| == |keys| && forall i | 0 <= i < |keys| :: lines[i] == Line(keys[i], m[keys[i]])
  {
    hide Line;
    if keys != [] {
      LinesAt(keys[..|keys| - 1], m);
    }
  }

  lemma {:induction false} JoinPrints(lines: seq<string>, es: seq<Pair>)
    requires |lines| == |es| && forall i | 0 <= i < |es| :: lines[i] == Line(es[i].0, es[i].1)
    ensures Join("\n", lines) == Printed(es)
  {
    if |es| > 1 {
      JoinPrints(lines[1..], es[1..]);
      var v, rest := es[0].1, Printed(es[1..]);
      assert es[0].0 + "=" + v + "\n" + rest == es[0].0 + "=" + (v + "\n" + rest);
    }
  }

  lemma CheckStringPrints(m: map<string, string>)
    ensures CheckString(m) == Printed(Entries(m))
  {
    var es := Entries(m);
    LinesAt(SortedKeys(m), m);
    hide Line;
    assert forall i | 0 <= i < |es| :: es[i].0 == Firsts(es)[i];
    JoinPrints(Lines(SortedKeys(m), m), es);
  }

  // ---------------------------------------------------------------- reading a check string

  /** The first line break from `p` on after which a later key starts. */
  function Cut(keys: set<string>, k: string, v: string, p: nat): (q: nat)
    requires p <= |v|
    ensures p <= q <= |v| && (q < |v| ==> HidesAt(keys, k, v, q))
    ensures forall i | p <= i < q :: !HidesAt(keys, k, v, i)
    decreases |v| - p
  {
    if p == |v| || HidesAt(keys, k, v, p) then p else Cut(keys, k, v, p + 1)
  }

  /** Takes every line that can start a pair to start one. */
  function ReadValue(keys: set<string>, k: string, text: string): seq<Pair>
    decreases |text|
  {
    var q := Cut(keys, k, text, 0);
    if q == |text| then [(k, text)] else
      var rest := text[q + 1..];
      [(k, text[..q])] + ReadValue(keys, Before(rest, '='), After(rest, '='))
  }

  function Read(keys: set<string>, text: string): map<string, string> {
    if text == "" then map[] else MapOf(ReadValue(keys, Before(text, '='), After(text, '=')))
  }

  lemma CutOut(text: string, i: nat)
    requires i < |text|
    ensures text == text[..i] + [text[i]] + text[i + 1..]
  {
  }

  lemma PutTogether(text: string)
    requires IndexOf(text, '=') < |text|
    ensures text == Line(Before(text, '='), After(text, '='))
  {
    CutOut(text, IndexOf(text, '='));
    hide IndexOf;
  }

  lemma IndexOfPrefix(a: string, c: char, b: string)
    ensures IndexOf(a, c) < |a| ==> IndexOf(a + b, c) == IndexOf(a, c)
    ensures IndexOf(a, c) == |a| ==> IndexOf(a + b, c) >= |a|
  {
    assert forall i | 0 <= i < |a| :: (a + b)[i] == a[i];
  }

  lemma BeforePrefix(a: string, b: string)
    ensures IndexOf(a, '=') < |a| ==> Before(a + b, '=') == Before(a, '=')
    ensures IndexOf(a, '=') == |a| ==> !Lacks(Before(a + "\n" + b, '='), '\n')
  {
    IndexOfPrefix(a, '=', b);
    IndexOfPrefix(a, '=', "\n" + b);
    var t := a + "\n" + b;
    assert a + ("\n" + b) == t && t[|a|] == '\n';
    assert IndexOf(a, '=') == |a| && IndexOf(t, '=') > |a| ==> Before(t, '=')[|a|] == '\n';
  }

  /** What the first part of a text hides, the text hides at the same place. */
  lemma HidesAtPrefix(keys: set<string>, k: string, a: string, b: string, p: int)
    ensures HidesAt(keys, k, a, p) ==> HidesAt(keys, k, a + b, p)
  {
    if HidesAt(keys, k, a, p) {
      BeforePrefix(a[p + 1..], b);
      assert (a + b)[p + 1..] == a[p + 1..] + b;
    }
  }

  /** The whole text hides nothing new before the end of its first part if that ends in a line break. */
  lemma HidesAtBreak(keys: set<string>, k: string, a: string, b: string, p: int)
    requires OneLineKeys(keys) && p < |a|
    ensures HidesAt(keys, k, a + "\n" + b, p) ==> HidesAt(keys, k, a, p)
  {
    var t := a + "\n" + b;
    if HidesAt(keys, k, t, p) {
      var x := a[p + 1..];
      assert t[p + 1..] == x + "\n" + b == x + ("\n" + b);
      BeforePrefix(x, b);
      BeforePrefix(x, "\n" + b);
    }
  }

  lemma CutAtStart(keys: set<string>, k: string, text: string)
    ensures var q := Cut(keys, k, text, 0); !Hides(keys, k, text[..q])
    ensures Cut(keys, k, text, 0) == |text| <==> !Hides(keys, k, text)
  {
    var q := Cut(keys, k, text, 0);
    hide HidesAt;
    forall p | 0 <= p < q ensures !HidesAt(keys, k, text[..q], p) {
      HidesAtPrefix(keys, k, text[..q], text[q..], p);
      assert text[..q] + text[q..] == text;
    }
    assert text[..|text|] == text;
  }

  lemma AscendingBefore(k: string, ls: seq<string>)
    requires Ascending(ls) && (ls != [] ==> Below(k, ls[0]))
    ensures Ascending([k] + ls)
  {
    var xs := [k] + ls;
    hide Leq;
    forall i, j | 0 <= i < j < |xs| ensures Leq(xs[i], xs[j]) && xs[i] != xs[j] {
      assert xs[j] == ls[j - 1];
      if i == 0 && j > 1 {
        LeqTransitive(k, ls[0], ls[j - 1]);
        if k == ls[j - 1] { LeqAntisymmetric(k, ls[0]); }
      }
    }
  }

  lemma ListingBefore(keys: set<string>, k: string, v: string, es: seq<Pair>)
    requires Listing(keys, es) && HidesNone(keys, es) && k in keys && (es != [] ==> Below(k, es[0].0))
    requires !Hides(keys, k, v)
    ensures Listing(keys, [(k, v)] + es) && HidesNone(keys, [(k, v)] + es)
  {
    hide Hides, Below;
    var fs := [(k, v)] + es;
    AscendingBefore(k, Firsts(es));
    assert Firsts(fs) == [k] + Firsts(es);
    forall i | 0 <= i < |fs| ensures fs[i].0 in keys && !Hides(keys, fs[i].0, fs[i].1) {
      if i > 0 { assert fs[i] == es[i - 1]; }
    }
  }

  lemma ValueBefore(k: string, v: string, es: seq<Pair>)
    ensures Value([(k, v)] + es) == if es == [] then v else v + "\n" + Printed(es)
  {
    assert ([(k, v)] + es)[1..] == es;
  }

  lemma CutApart(keys: set<string>, k: string, text: string)
    ensures var q := Cut(keys, k, text, 0);
            q < |text| ==>
              && text == text[..q] + "\n" + text[q + 1..]
              && var rest := text[q + 1..];
              && rest == Line(Before(rest, '='), After(rest, '='))
              && Before(rest, '=') in keys && Below(k, Before(rest, '='))
  {
    var q := Cut(keys, k, text, 0);
    if q < |text| {
      PutTogether(text[q + 1..]);
    }
  }

  /** The list prints as the pair of `k` and this text, and hides nothing. */
  predicate Reads(keys: set<string>, k: string, text: string, es: seq<Pair>) {
    es != [] && es[0].0 == k && Value(es) == text && Listing(keys, es) && HidesNone(keys, es)
  }

  lemma ReadsOne(keys: set<string>, k: string, v: string)
    requires k in keys && !Hides(keys, k, v)
    ensures Reads(keys, k, v, [(k, v)])
  {
    hide Hides;
    ListingBefore(keys, k, v, []);
    assert [(k, v)] + [] == [(k, v)];
  }

  lemma ReadsMore(keys: set<string>, k: string, v: string, l: string, w: string, es: seq<Pair>)
    requires k in keys && !Hides(keys, k, v) && Below(k, l) && Reads(keys, l, w, es)
    ensures Reads(keys, k, v + "\n" + Line(l, w), [(k, v)] + es)
  {
    hide Hides, Below;
    ListingBefore(keys, k, v, es);
    hide Line, Listing, HidesNone;
    ValueBefore(k, v, es);
  }

  /** What is read prints the text again, and hides nothing. */
  lemma {:induction false} ReadPrints(keys: set<string>, k: string, text: string)
    requires k in keys
    ensures Reads(keys, k, text, ReadValue(keys, k, text))
    decreases |text|
  {
    var q := Cut(keys, k, text, 0);
    CutAtStart(keys, k, text);
    CutApart(keys, k, text);
    hide Reads, Cut, Hides, HidesAt, Before, After, Below, Line;
    if q == |text| {
      assert text[..|text|] == text;
      ReadsOne(keys, k, text);
    } else {
      var rest := text[q + 1..];
      var l, w := Before(rest, '='), After(rest, '=');
      ReadPrints(keys, l, w);
      ReadsMore(keys, k, text[..q], l, w, ReadValue(keys, l, w));
    }
  }

  /** A list that hides nothing is what is read. */
  lemma {:induction false} ReadBack(keys: set<string>, es: seq<Pair>)
    requires OneLineKeys(keys) && es != [] && Listing(keys, es) && HidesNone(keys, es)
    ensures ReadValue(keys, es[0].0, Value(es)) == es
    decreases |es|
  {
    var k, v, text := es[0].0, es[0].1, Value(es);
    if |es| == 1 {
      CutAtStart(keys, k, text);
    } else {
      var tail := es[1..];
      assert Firsts(tail) == Firsts(es)[1..];
      ReadBack(keys, tail);
      CutBetween(keys, k, v, tail);
      LineParts(tail[0].0, Value(tail));
      assert text[..|v|] == v && text[|v| + 1..] == Printed(tail);
    }
  }

  lemma LineParts(k: string, v: string)
    requires Lacks(k, '=')
    ensures Before(Line(k, v), '=') == k && After(Line(k, v), '=') == v
  {
    IndexOfFirst(k, '=', v);
    assert Line(k, v) == k + ['='] + v;
  }

  lemma CutBetween(keys: set<string>, k: string, v: string, tail: seq<Pair>)
    requires OneLineKeys(keys) && tail != [] && tail[0].0 in keys && Below(k, tail[0].0) && !Hides(keys, k, v)
    ensures Cut(keys, k, v + "\n" + Printed(tail), 0) == |v|
  {
    var rest := Printed(tail);
    var text := v + "\n" + rest;
    LineParts(tail[0].0, Value(tail));
    hide Below, Value, Lacks;
    assert |tail[0].0| < |rest|;
    hide Printed, Line;
    assert text[|v| + 1..] == rest && text[|v|] == '\n';
    assert StartsLater(keys, k, rest);
    hide StartsLater, Before;
    assert HidesAt(keys, k, text, |v|);
    hide HidesAt;
    forall p | 0 <= p < |v| ensures !HidesAt(keys, k, text, p) {
      HidesAtBreak(keys, k, v, rest, p);
    }
  }

  // ---------------------------------------------------------------- payloads and their check strings

  lemma EntriesListed(keys: set<string>, m: map<string, string>)
    requires m.Keys <= keys
    ensures Listing(keys, Entries(m)) && (HidesNone(keys, Entries(m)) <==> HidesNothing(keys, m))
  {
    var es := Entries(m);
    MapOfEntries(m);
    hide Hides, SortedKeys;
    assert forall i | 0 <= i < |es| :: es[i].0 in m && m[es[i].0] == es[i].1;
    if HidesNone(keys, es) {
      forall k | k in m ensures !Hides(keys, k, m[k]) {
        assert k in Firsts(es);
        var i :| 0 <= i < |es| && Firsts(es)[i] == k;
      }
    }
  }

  /** Whatever is signed, the check string can be read as a payload over the same keys that hides nothing;
      it is the signed payload exactly if that one hides nothing itself. */
  lemma ReadBackExactly(keys: set<string>, m: map<string, string>)
    requires OneLineKeys(keys) && m.Keys <= keys
    ensures var n := Read(keys, CheckString(m));
            && n.Keys <= keys && HidesNothing(keys, n) && CheckString(n) == CheckString(m)
            && (n == m <==> HidesNothing(keys, m))
  {
    var es, text := Entries(m), CheckString(m);
    CheckStringPrints(m);
    MapOfEntries(m);
    EntriesListed(keys, m);
    if es == [] {
      assert MapOf(es) == map[];
    } else {
      var k := es[0].0;
      LineParts(k, Value(es));
      ReadPrints(keys, k, Value(es));
      var fs := ReadValue(keys, k, Value(es));
      var n := MapOf(fs);
      hide Read, ReadValue, HidesNothing, HidesNone, Firsts, Entries, Line;
      ReadIsMap(keys, text);
      assert n == Read(keys, text);
      ListedMap(keys, fs);
      if HidesNothing(keys, m) {
        ReadBack(keys, es);
      }
    }
  }

  lemma ReadIsMap(keys: set<string>, text: string)
    ensures text != "" ==> Read(keys, text) == MapOf(ReadValue(keys, Before(text, '='), After(text, '=')))
  {
  }

  lemma ListedMap(keys: set<string>, es: seq<Pair>)
    requires Listing(keys, es) && HidesNone(keys, es)
    ensures var n := MapOf(es); n.Keys <= keys && HidesNothing(keys, n) && CheckString(n) == Printed(es)
  {
    var n := MapOf(es);
    EntriesOfMap(es);
    CheckStringPrints(n);
    assert forall k | k in n :: k in Firsts(es);
    EntriesListed(keys, n);
  }

  /** Two payloads print the same check string exactly if the same pairs are read from both; for payloads
      that hide nothing, exactly if they are equal. */
  lemma CheckStringDetermines(keys: set<string>, m: map<string, string>, n: map<string, string>)
    requires OneLineKeys(keys) && m.Keys <= keys && n.Keys <= keys
    ensures CheckString(m) == CheckString(n) <==> Read(keys, CheckString(m)) == Read(keys, CheckString(n))
    ensures HidesNothing(keys, m) && HidesNothing(keys, n) ==> (CheckString(m) == CheckString(n) <==> m == n)
  {
    hide *;
    ReadBackExactly(keys, m);
    ReadBackExactly(keys, n);
  }

  /** `n` prints the check string of `m` and hides nothing. */
  predicate PlainTwin(keys: set<string>, m: map<string, string>, n: map<string, string>) {
    n.Keys <= keys && HidesNothing(keys, n) && CheckString(n) == CheckString(m)
  }

  /** A payload hides nothing exactly if no other payload with its check string does. */
  lemma HidesNothingExactly(keys: set<string>, m: map<string, string>)
    requires OneLineKeys(keys) && m.Keys <= keys
    ensures HidesNothing(keys, m) <==>
            forall n: map<string, string> | PlainTwin(keys, m, n) :: n == m
  {
    hide CheckString, Read, HidesNothing;
    ReadBackExactly(keys, m);
    assert PlainTwin(keys, m, Read(keys, CheckString(m)));
    if HidesNothing(keys, m) {
      forall n: map<string, string> | PlainTwin(keys, m, n) ensures n == m {
        CheckStringDetermines(keys, m, n);
      }
    }
  }

  /** Whoever hides a pair shares the signature of a different payload over the same keys. */
  lemma HidingCollides(keys: set<string>, m: map<string, string>)
    requires OneLineKeys(keys) && m.Keys <= keys && !HidesNothing(keys, m)
    ensures exists n: map<string, string> :: n.Keys <= keys && n != m && CheckString(n) == CheckString(m)
  {
    hide CheckString, Read, HidesNothing;
    ReadBackExactly(keys, m);
    assert Read(keys, CheckString(m)) != m;
  }

  /** One signature, one payload: with a collision-free code, a hash that is good for one payload is
      good for exactly those that show the same pairs, among all payloads that hide nothing; in
      general, for exactly those whose check string reads the same. */
  lemma SignatureBindsPayload(mac: Mac, botToken: string, keys: set<string>, a: Payload, b: Payload)
    requires forall x, y :: mac(botToken, x) == mac(botToken, y) ==> x == y
    requires OneLineKeys(keys) && Signed(a).Keys <= keys && Signed(b).Keys <= keys
    ensures var m, n := Signed(a), Signed(b);
            && (mac(botToken, CheckString(m)) == mac(botToken, CheckString(n))
                <==> Read(keys, CheckString(m)) == Read(keys, CheckString(n)))
            && (HidesNothing(keys, m) && HidesNothing(keys, n) ==>
                  (mac(botToken, CheckString(m)) == mac(botToken, CheckString(n)) <==> m == n))
  {
    hide CheckString, Read, HidesNothing, Signed;
    CheckStringDetermines(keys, Signed(a), Signed(b));
  }
}
