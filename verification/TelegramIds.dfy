/** Which Telegram id a signature stands for: the requests of the federated endpoint that are signed alike. */
module TelegramIds {
  import opened Text
  import opened Clock
  import opened Store
  import opened Steps
  import opened Machine
  import opened TelegramWidget
  import opened CheckStrings

  // ---------------------------------------------------------------- what a request has signed

  const FIELDS: seq<string> := ["auth_date", "first_name", "id", "last_name", "photo_url", "username"]

  /** The fields that sort after `id`. */
  const LATER: set<string> := {"last_name", "photo_url", "username"}

  function SignedText(r: TelegramRequest): string { CheckString(Signed(WidgetPayload(r))) }

  function Piece(m: map<string, string>, k: string): string { if k in m then "\n" + Line(k, m[k]) else "" }

  /** The pairs with these keys, each on a line of its own. */
  function Glued(keys: seq<string>, m: map<string, string>): string {
    if keys == [] then "" else Glued(keys[..|keys| - 1], m) + Piece(m, keys[|keys| - 1])
  }

  lemma {:induction false} JoinSnoc(xs: seq<string>, x: string)
    ensures Join("\n", xs + [x]) == if xs == [] then x else Join("\n", xs) + "\n" + x
  {
    if |xs| > 1 {
      assert (xs + [x])[1..] == xs[1..] + [x];
      JoinSnoc(xs[1..], x);
      assert xs[0] + "\n" + (Join("\n", xs[1..]) + "\n" + x) == xs[0] + "\n" + Join("\n", xs[1..]) + "\n" + x;
    } else if |xs| == 1 {
      assert (xs + [x])[1..] == [x];
    }
  }

  lemma GlueLine(glued: string, lines: seq<string>, line: string)
    requires glued == if lines == [] then "" else "\n" + Join("\n", lines)
    ensures glued + ("\n" + line) == "\n" + Join("\n", lines + [line])
  {
    JoinSnoc(lines, line);
    hide Join;
    assert glued + ("\n" + line) == glued + "\n" + line;
  }

  lemma {:induction false} GluedLines(keys: seq<string>, m: map<string, string>)
    ensures var lines := CoveredLines(keys, m);
            Glued(keys, m) == if lines == [] then "" else "\n" + Join("\n", lines)
  {
    if keys != [] {
      var n := |keys| - 1;
      GluedLines(keys[..n], m);
      CoveredLinesNext(keys, n, m);
      assert keys[..n + 1] == keys;
      hide CoveredLines, Join, Line;
      if keys[n] in m {
        GlueLine(Glued(keys[..n], m), CoveredLines(keys[..n], m), Line(keys[n], m[keys[n]]));
      } else {
        assert CoveredLines(keys, m) == CoveredLines(keys[..n], m);
      }
    }
  }

  lemma GluedCheckString(keys: seq<string>, m: map<string, string>)
    requires Ascending(keys) && m.Keys <= Elems(keys) && m != map[]
    ensures Glued(keys, m) == "\n" + CheckString(m)
  {
    GluedLines(keys, m);
    CoveredIsSorted(keys, m);
    LinesAt(SortedKeys(m), m);
    hide Line, Leq;
    var k :| k in m;
    assert k in SortedKeys(m);
  }

  lemma GluedSnoc(keys: seq<string>, k: string, m: map<string, string>)
    ensures Glued(keys + [k], m) == Glued(keys, m) + Piece(m, k)
  {
    assert (keys + [k])[..|keys|] == keys;
  }

  lemma GluedSix(a: string, b: string, c: string, d: string, e: string, f: string, m: map<string, string>)
    ensures Glued([a, b, c, d, e, f], m)
         == Piece(m, a) + Piece(m, b) + Piece(m, c) + (Piece(m, d) + Piece(m, e) + Piece(m, f))
  {
    hide Piece;
    GluedSnoc([], a, m);
    GluedSnoc([a], b, m);
    GluedSnoc([a, b], c, m);
    GluedSnoc([a, b, c], d, m);
    GluedSnoc([a, b, c, d], e, m);
    GluedSnoc([a, b, c, d, e], f, m);
    assert Glued([], m) == "";
    hide Glued;
    assert [] + [a] == [a] && [a] + [b] == [a, b] && [a, b] + [c] == [a, b, c] && [a, b, c] + [d] == [a, b, c, d];
    assert [a, b, c, d] + [e] == [a, b, c, d, e] && [a, b, c, d, e] + [f] == [a, b, c, d, e, f];
    var p, q, x := Piece(m, a) + Piece(m, b) + Piece(m, c), Piece(m, d) + Piece(m, e), Piece(m, f);
    assert p + (q + x) == p + q + x && p + q == p + Piece(m, d) + Piece(m, e);
    assert "" + Piece(m, a) == Piece(m, a);
  }

  lemma FirstCharacters(xs: seq<string>)
    requires forall i | 0 <= i < |xs| :: xs[i] != ""
    requires forall i, j | 0 <= i < j < |xs| :: xs[i][0] < xs[j][0]
    ensures Ascending(xs)
  {
    assert forall i, j | 0 <= i < j < |xs| :: Leq(xs[i], xs[j]);
  }

  lemma ProfilePairs(r: TelegramRequest)
    ensures var m := Signed(WidgetPayload(r));
            && (forall k | k in PROFILE_FIELDS :: (k in m <==> k in r.profile) && (k in m ==> m[k] == r.profile[k]))
            && m.Keys <= PROFILE_FIELDS + {"id", "auth_date"}
  {
    hide Decimal;
  }

  lemma SignedPairs(r: TelegramRequest)
    ensures var m := Signed(WidgetPayload(r));
            && "auth_date" in m && m["auth_date"] == Decimal(r.authDate)
            && "id" in m && m["id"] == Decimal(r.id)
            && (forall k | k in PROFILE_FIELDS :: Piece(m, k) == Piece(r.profile, k))
            && m.Keys <= Elems(FIELDS)
  {
    hide Line, Decimal;
    var m := Signed(WidgetPayload(r));
    ProfilePairs(r);
    forall k | k in m ensures k in Elems(FIELDS) {
      assert k in PROFILE_FIELDS + {"id", "auth_date"};
      assert FIELDS[0] == "auth_date" && FIELDS[1] == "first_name" && FIELDS[2] == "id" && FIELDS[3] == "last_name"
          && FIELDS[4] == "photo_url" && FIELDS[5] == "username";
    }
  }

  function IdLine(n: int): string { "\n" + Line("id", Decimal(n)) }

  function FieldLine(key: string, v: string): string { "\n" + Line(key, v) }

  function FirstName(r: TelegramRequest): string { Piece(r.profile, "first_name") }

  /** The signed lines after the id. */
  function Later(r: TelegramRequest): string {
    Piece(r.profile, "last_name") + Piece(r.profile, "photo_url") + Piece(r.profile, "username")
  }

  function Body(r: TelegramRequest): string { FirstName(r) + IdLine(r.id) + Later(r) }

  lemma FieldsAscend()
    ensures Ascending(FIELDS)
  {
    FirstCharacters(FIELDS);
  }

  lemma SignedShape(r: TelegramRequest)
    ensures "\n" + SignedText(r) == FieldLine("auth_date", Decimal(r.authDate)) + Body(r)
  {
    var m := Signed(WidgetPayload(r));
    FieldsAscend();
    SignedPairs(r);
    assert Piece(m, "auth_date") == FieldLine("auth_date", Decimal(r.authDate)) && Piece(m, "id") == IdLine(r.id);
    hide Ascending, Line, Signed, WidgetPayload, CheckString, Glued;
    GluedCheckString(FIELDS, m);
    GluedSix("auth_date", "first_name", "id", "last_name", "photo_url", "username", m);
    assert "first_name" in PROFILE_FIELDS && "last_name" in PROFILE_FIELDS && "photo_url" in PROFILE_FIELDS
        && "username" in PROFILE_FIELDS;
    hide Piece, PROFILE_FIELDS, FieldLine, IdLine;
    Regroup(FieldLine("auth_date", Decimal(r.authDate)), FirstName(r), IdLine(r.id), Later(r));
  }

  lemma Regroup(a: string, b: string, c: string, d: string)
    ensures a + b + c + d == a + (b + c + d)
  {
  }

  lemma DecimalOneLine(n: int)
    ensures Lacks(Decimal(n), '\n')
  {
    var s := DecimalNat(if n < 0 then -n else n);
    assert forall i | 0 <= i < |s| :: s[i] in s;
  }

  lemma LongerCut(a: string, b: string, c: string, d: string)
    requires Lacks(a, '\n') && (d != "" ==> d[0] == '\n') && a + b == c + d
    ensures |a| <= |c|
  {
    var text := a + b;
    assert forall i | 0 <= i < |a| :: text[i] == a[i];
    assert |c| < |text| ==> text[|c|] == d[0];
  }

  /** A text falls into its first line and the rest in one way. */
  lemma OneCut(a: string, b: string, c: string, d: string)
    requires Lacks(a, '\n') && (b != "" ==> b[0] == '\n') && Lacks(c, '\n') && (d != "" ==> d[0] == '\n')
    ensures a + b == c + d <==> a == c && b == d
  {
    if a + b == c + d {
      LongerCut(a, b, c, d);
      LongerCut(c, d, a, b);
      assert a == (a + b)[..|a|] && b == (a + b)[|a|..];
      assert c == (c + d)[..|c|] && d == (c + d)[|c|..];
    }
  }

  lemma NumberLine(k: string, m: int, b: string, n: int, d: string)
    requires Lacks(k, '\n') && (b != "" ==> b[0] == '\n') && (d != "" ==> d[0] == '\n')
    ensures FieldLine(k, Decimal(m)) + b == FieldLine(k, Decimal(n)) + d <==> m == n && b == d
  {
    var x, y := Line(k, Decimal(m)), Line(k, Decimal(n));
    DecimalOneLine(m);
    DecimalOneLine(n);
    OneCut(x, b, y, d);
    var l, r := FieldLine(k, Decimal(m)) + b, FieldLine(k, Decimal(n)) + d;
    assert l[1..] == x + b && r[1..] == y + d && l[0] == r[0] == '\n';
    assert l == [l[0]] + l[1..] && r == [r[0]] + r[1..];
    if x == y {
      assert x[|k| + 1..] == Decimal(m) && y[|k| + 1..] == Decimal(n);
      DecimalInjective(m, n);
    }
  }

  /** Two requests are signed alike exactly if they show the same date and the same further lines. */
  lemma SignedAlike(r: TelegramRequest, q: TelegramRequest)
    ensures SignedText(r) == SignedText(q) <==> r.authDate == q.authDate && Body(r) == Body(q)
  {
    SignedShape(r);
    SignedShape(q);
    BodyBreaks(r);
    BodyBreaks(q);
    hide SignedText, Body, FieldLine;
    NumberLine("auth_date", r.authDate, Body(r), q.authDate, Body(q));
    var x, y := "\n" + SignedText(r), "\n" + SignedText(q);
    assert x[1..] == SignedText(r) && y[1..] == SignedText(q);
  }

  lemma BodyBreaks(r: TelegramRequest)
    ensures Body(r)[..1] == "\n"
    ensures Body(r)[1] == if "first_name" in r.profile then 'f' else 'i'
  {
    hide Later, Decimal;
    var f, l := FirstName(r), IdLine(r.id);
    assert |l| > 2 && l[0] == '\n' && l[1] == 'i';
    if "first_name" in r.profile {
      assert |f| > 2 && f[0] == '\n' && f[1] == 'f';
    } else {
      assert Body(r) == l + Later(r);
    }
  }

  // ---------------------------------------------------------------- one text, two ids

  /** No lines, or lines that start with a field that may come after the id. */
  ghost predicate Trails(t: string) { t == "" || exists key, x :: key in LATER && t == FieldLine(key, x) }

  lemma LaterKey(key: string)
    requires key in LATER
    ensures key != "" && key[0] != 'i' && Lacks(key, '\n') && key in PROFILE_FIELDS
  {
  }

  lemma LaterTrails(r: TelegramRequest)
    ensures Trails(Later(r))
  {
    var a, b, c := Piece(r.profile, "last_name"), Piece(r.profile, "photo_url"), Piece(r.profile, "username");
    if "last_name" in r.profile {
      FieldFirst("last_name", r.profile["last_name"], b + c);
      assert Later(r) == a + (b + c);
    } else if "photo_url" in r.profile {
      FieldFirst("photo_url", r.profile["photo_url"], c);
      assert Later(r) == b + c;
    } else if "username" in r.profile {
      FieldFirst("username", r.profile["username"], "");
      assert Later(r) == c + "";
    } else {
      assert Later(r) == "";
    }
  }

  lemma FieldFirst(key: string, v: string, rest: string)
    requires key in LATER
    ensures Trails(FieldLine(key, v) + rest)
  {
    hide LATER;
    assert FieldLine(key, v) + rest == FieldLine(key, v + rest);
  }

  lemma LaterOf(profile: map<string, string>, t: string) returns (out: map<string, string>)
    requires Trails(t)
    ensures ("first_name" in out <==> "first_name" in profile)
    ensures "first_name" in out ==> out["first_name"] == profile["first_name"]
    ensures Piece(out, "last_name") + Piece(out, "photo_url") + Piece(out, "username") == t
  {
    hide FieldLine;
    out := map k | k in profile && k == "first_name" :: profile[k];
    if t != "" {
      var key, x :| key in LATER && t == FieldLine(key, x);
      out := out[key := x];
      LaterKey(key);
      OnePiece(out, key, x);
    }
  }

  lemma OnePiece(m: map<string, string>, key: string, x: string)
    requires key in LATER && key in m && m[key] == x && forall k | k in m && k in LATER :: k == key
    ensures Piece(m, "last_name") + Piece(m, "photo_url") + Piece(m, "username") == FieldLine(key, x)
  {
    hide Line;
    var l := FieldLine(key, x);
    assert l + "" + "" == l && "" + l + "" == l && "" + "" + l == l;
    if key == "last_name" {
      assert "photo_url" !in m && "username" !in m;
    } else if key == "photo_url" {
      assert "last_name" !in m && "username" !in m;
    } else {
      assert key == "username";
      assert "last_name" !in m && "photo_url" !in m;
    }
  }

  /** The same text cut at two different id lines: the longer first part holds the other id line and a later field. */
  lemma TwoCuts(f: string, a: int, t: string, g: string, b: int, u: string) returns (key: string, x: string)
    requires |f| < |g| && Trails(t) && f + IdLine(a) + t == g + IdLine(b) + u
    ensures key in LATER && g == f + IdLine(a) + FieldLine(key, x) && t == FieldLine(key, x) + IdLine(b) + u
  {
    IdLineShape(a);
    IdLineShape(b);
    hide IdLine, FieldLine, LATER;
    var head := f + IdLine(a);
    var text := head + t;
    assert text[|g|] == '\n' by { assert (g + IdLine(b) + u)[|g|] == IdLine(b)[0]; }
    assert forall i | |f| < i < |head| :: text[i] == IdLine(a)[i - |f|];
    assert |head| <= |g|;
    var y := g[|head|..];
    assert g == head + y by { assert g == text[..|g|] && head == text[..|head|]; }
    assert t == y + (IdLine(b) + u) by { assert t == text[|head|..]; }
    key, x := FieldCut(t, y, IdLine(b) + u);
    assert head + FieldLine(key, x) == g && FieldLine(key, x) + (IdLine(b) + u) == FieldLine(key, x) + IdLine(b) + u;
  }

  lemma IdLineShape(n: int)
    ensures |IdLine(n)| > 2 && IdLine(n)[0] == '\n' && IdLine(n)[1] == 'i'
    ensures forall i | 0 < i < |IdLine(n)| :: IdLine(n)[i] != '\n'
  {
    DecimalOneLine(n);
    hide Decimal;
    assert forall i | 0 < i < |IdLine(n)| :: IdLine(n)[i] == (if i == 1 then 'i' else if i == 2 then 'd' else if i == 3
        then '=' else Decimal(n)[i - 4]);
  }

  lemma FieldCut(t: string, y: string, z: string) returns (key: string, x: string)
    requires Trails(t) && t == y + z && |z| > 2 && z[0] == '\n' && z[1] == 'i'
    ensures key in LATER && y == FieldLine(key, x)
  {
    hide LATER;
    var l, v :| l in LATER && t == FieldLine(l, v);
    key := l;
    LaterKey(key);
    var n := |key| + 2;
    assert forall i | 0 < i < n :: t[i] != '\n' by {
      assert forall i | 0 < i < n - 1 :: t[i] == key[i - 1];
      assert t[n - 1] == '=';
    }
    assert t[|y|] == '\n' && t[|y| + 1] == 'i' && t[1] == key[0];
    assert |y| >= n;
    x := v[..|y| - n];
    assert y == t[..|y|];
  }

  /** `v` spells the line of the id `a` after `front`, and right after it a field that sorts after `id`. */
  predicate Spelled(v: string, front: string, a: int, key: string, x: string) {
    key in LATER && v == front + IdLine(a) + FieldLine(key, x)
  }

  /** The first name spells another id, with a later field after it. */
  ghost predicate NameSpellsId(r: TelegramRequest) {
    "first_name" in r.profile
    && exists front, a, key, x :: a != r.id && Spelled(r.profile["first_name"], front, a, key, x)
  }

  /** `lines` spells the line of the id `b`, with nothing or a later field after it. */
  ghost predicate Resumed(lines: string, x: string, b: int, rest: string) {
    Trails(rest) && lines == x + IdLine(b) + rest
  }

  /** There is a first name, and the lines after the id spell another id. */
  ghost predicate LaterSpellsId(r: TelegramRequest) {
    "first_name" in r.profile && exists x, b, rest :: b != r.id && Resumed(Later(r), x, b, rest)
  }

  lemma BothNamed(r: TelegramRequest, q: TelegramRequest)
    requires Body(r) == Body(q) && r.id != q.id
    ensures "first_name" in r.profile && "first_name" in q.profile
  {
    BodyBreaks(r);
    BodyBreaks(q);
    hide IdLine, Later, Body;
    assert "first_name" in r.profile <==> "first_name" in q.profile;
    if "first_name" !in r.profile {
      Unnamed(r, q);
    }
  }

  lemma Unnamed(r: TelegramRequest, q: TelegramRequest)
    requires Body(r) == Body(q) && "first_name" !in r.profile && "first_name" !in q.profile
    ensures r.id == q.id
  {
    LaterBreaks(r);
    LaterBreaks(q);
    hide Later, Line, Lacks;
    NoBreak();
    NumberLine("id", r.id, Later(r), q.id, Later(q));
    assert "" + IdLine(r.id) == FieldLine("id", Decimal(r.id)) && "" + IdLine(q.id) == FieldLine("id", Decimal(q.id));
  }

  lemma NoBreak()
    ensures Lacks("id", '\n')
  {
  }

  lemma LaterBreaks(r: TelegramRequest)
    ensures Later(r) != "" ==> Later(r)[0] == '\n'
  {
    LaterTrails(r);
    hide Later;
  }

  lemma NamedBody(r: TelegramRequest)
    requires "first_name" in r.profile
    ensures Body(r) == FieldLine("first_name", "") + (r.profile["first_name"] + IdLine(r.id) + Later(r))
  {
    hide IdLine, Later;
    assert FieldLine("first_name", r.profile["first_name"]) == FieldLine("first_name", "") + r.profile["first_name"];
  }

  lemma NamedBodies(r: TelegramRequest, q: TelegramRequest)
    requires "first_name" in r.profile && "first_name" in q.profile
    ensures Body(r) == Body(q) <==>
        r.profile["first_name"] + IdLine(r.id) + Later(r) == q.profile["first_name"] + IdLine(q.id) + Later(q)
  {
    NamedBody(r);
    NamedBody(q);
    hide Body, IdLine, Later;
    var k := FieldLine("first_name", "");
    assert Body(r)[|k|..] == r.profile["first_name"] + IdLine(r.id) + Later(r);
    assert Body(q)[|k|..] == q.profile["first_name"] + IdLine(q.id) + Later(q);
  }

  lemma SameName(r: TelegramRequest, q: TelegramRequest)
    requires "first_name" in r.profile && "first_name" in q.profile && Body(r) == Body(q)
    requires |r.profile["first_name"]| == |q.profile["first_name"]|
    ensures r.id == q.id
  {
    NamedBodies(r, q);
    LaterBreaks(r);
    LaterBreaks(q);
    var f, g := r.profile["first_name"], q.profile["first_name"];
    SameFront(f, IdLine(r.id), Later(r), g, IdLine(q.id), Later(q));
    IdLineIsField(r.id);
    IdLineIsField(q.id);
    hide Body, Later, IdLine, FieldLine, Lacks;
    NoBreak();
    NumberLine("id", r.id, Later(r), q.id, Later(q));
  }

  lemma SameFront(f: string, a: string, b: string, g: string, c: string, d: string)
    requires |f| == |g| && f + a + b == g + c + d
    ensures a + b == c + d
  {
    assert f + a + b == f + (a + b) && g + c + d == g + (c + d);
    assert a + b == (f + (a + b))[|f|..] && c + d == (g + (c + d))[|g|..];
  }

  lemma IdLineIsField(n: int)
    ensures IdLine(n) == FieldLine("id", Decimal(n))
  {
  }

  /** Of two requests that are signed alike for different ids, the one with the longer first name spells the
      other's id in it, and the other spells its id in the later fields. */
  lemma AlikeSpell(r: TelegramRequest, q: TelegramRequest)
    requires Body(r) == Body(q) && r.id != q.id
    ensures (NameSpellsId(r) && LaterSpellsId(q)) || (NameSpellsId(q) && LaterSpellsId(r))
  {
    BothNamed(r, q);
    hide Body, Later;
    if |r.profile["first_name"]| < |q.profile["first_name"]| {
      LongerSpells(r, q);
    } else if |q.profile["first_name"]| < |r.profile["first_name"]| {
      LongerSpells(q, r);
    } else {
      SameName(r, q);
    }
  }

  lemma LongerSpells(r: TelegramRequest, q: TelegramRequest)
    requires Body(r) == Body(q) && r.id != q.id && "first_name" in r.profile && "first_name" in q.profile
    requires |r.profile["first_name"]| < |q.profile["first_name"]|
    ensures NameSpellsId(q) && LaterSpellsId(r)
  {
    var f, g := r.profile["first_name"], q.profile["first_name"];
    NamedBodies(r, q);
    LaterTrails(r);
    LaterTrails(q);
    hide Body, Later, IdLine, Trails;
    var key, x := TwoCuts(f, r.id, Later(r), g, q.id, Later(q));
    assert Spelled(g, f, r.id, key, x);
    assert Resumed(Later(r), FieldLine(key, x), q.id, Later(q));
  }

  /** The converse: whoever spells another id is signed like a request for that id. */
  lemma SpellersAlike(r: TelegramRequest) returns (q: TelegramRequest)
    requires NameSpellsId(r) || LaterSpellsId(r)
    ensures q.id != r.id && Body(q) == Body(r)
    ensures q == r.(id := q.id, profile := q.profile)
  {
    if NameSpellsId(r) {
      q := ShorterAlike(r);
    } else {
      q := LongerAlike(r);
    }
  }

  lemma ShorterAlike(r: TelegramRequest) returns (q: TelegramRequest)
    requires NameSpellsId(r)
    ensures q.id != r.id && Body(q) == Body(r)
    ensures q == r.(id := q.id, profile := q.profile)
  {
    var f, id, later := r.profile["first_name"], IdLine(r.id), Later(r);
    hide Later, Trails;
    var front, a, key, x :| a != r.id && Spelled(f, front, a, key, x);
    FieldFirst(key, x, id + later);
    var profile := LaterOf(map["first_name" := front], FieldLine(key, x) + (id + later));
    q := r.(id := a, profile := profile);
    NamedBodies(r, q);
    hide Body, IdLine, FieldLine;
    Shift(front, IdLine(a), FieldLine(key, x), id, later);
  }

  lemma LongerAlike(r: TelegramRequest) returns (q: TelegramRequest)
    requires LaterSpellsId(r)
    ensures q.id != r.id && Body(q) == Body(r)
    ensures q == r.(id := q.id, profile := q.profile)
  {
    var f, id := r.profile["first_name"], IdLine(r.id);
    var x, b, rest :| b != r.id && Resumed(Later(r), x, b, rest);
    var profile := LaterOf(map["first_name" := f + id + x], rest);
    q := r.(id := b, profile := profile);
    NamedBodies(r, q);
    hide Body, IdLine, FieldLine;
    Shift(f, id, x, IdLine(b), rest);
  }

  lemma Shift(a: string, b: string, c: string, d: string, e: string)
    ensures a + b + c + d + e == a + b + (c + (d + e)) == a + b + (c + d + e)
  {
  }

  // ---------------------------------------------------------------- what a hash proves

  /** The login request is not refused for its signature. */
  predicate Accepted(cfg: Config, now: nat, r: TelegramRequest) {
    Verdict(cfg.mac, cfg.parseInt, WidgetPayload(r), cfg.botToken, now) == Some(true)
  }

  /** A request is judged by its hash and its date, at most a day old: `None` is the exception that comparing a
      hash with other than ASCII characters raises. */
  lemma VerdictReads(cfg: Config, now: nat, r: TelegramRequest)
    ensures Verdict(cfg.mac, cfg.parseInt, WidgetPayload(r), cfg.botToken, now)
         == if r.hash == "" || cfg.botToken == "" || now - r.authDate * 1_000_000 > 24 * 60 * 60 * 1_000_000
            then Some(false)
            else if !Ascii(r.hash) then None
            else Some(cfg.mac(cfg.botToken, SignedText(r)) == r.hash)
  {
    hide CheckString, Signed;
    var data := WidgetPayload(r);
    assert data[HASH] == TelegramWidget.Text(r.hash) && data["auth_date"] == Number(r.authDate);
  }

  lemma AcceptedLogsIn(cfg: Config, s: State, r: TelegramRequest)
    requires Accepted(cfg, s.now, r)
    ensures Step(cfg, s, TelegramRequested(r))
         == FederatedLogin(cfg, s, Telegram, Decimal(r.id), SyntheticEmail(r.id), r.clientId, r.scope, r.raw,
             r.passwordHash)
  {
    VerdictReads(cfg, s.now, r);
    hide WidgetPayload, SignedText, FederatedLogin, SyntheticEmail;
  }

  /** A signature for one id is a signature for another: a request that spells another id is judged, at every
      moment, like a request for that other id with the same hash, which logs that account in. */
  lemma SpelledIdLogsIn(cfg: Config, r: TelegramRequest) returns (q: TelegramRequest)
    requires NameSpellsId(r) || LaterSpellsId(r)
    ensures q.id != r.id && q == r.(id := q.id, profile := q.profile)
    ensures forall now: nat :: Accepted(cfg, now, q) == Accepted(cfg, now, r)
    ensures forall s: State :: Accepted(cfg, s.now, r) ==>
              Step(cfg, s, TelegramRequested(q))
              == FederatedLogin(cfg, s, Telegram, Decimal(q.id), SyntheticEmail(q.id), r.clientId, r.scope, r.raw,
                  r.passwordHash)
  {
    q := SpellersAlike(r);
    SignedAlike(r, q);
    hide Verdict, WidgetPayload, SignedText, Body, FederatedLogin, SyntheticEmail, Step;
    forall now: nat ensures Accepted(cfg, now, q) == Accepted(cfg, now, r) {
      VerdictReads(cfg, now, r);
      VerdictReads(cfg, now, q);
    }
    forall s: State | Accepted(cfg, s.now, r)
      ensures Step(cfg, s, TelegramRequested(q))
           == FederatedLogin(cfg, s, Telegram, Decimal(q.id), SyntheticEmail(q.id), r.clientId, r.scope, r.raw,
               r.passwordHash)
    {
      AcceptedLogsIn(cfg, s, q);
    }
  }

  ghost predicate CollisionFree(cfg: Config) {
    forall x, y :: cfg.mac(cfg.botToken, x) == cfg.mac(cfg.botToken, y) ==> x == y
  }

  /** For an accepted request and a collision-free code: its hash is good for a second id, now or at any other
      time, if and only if the request spells another id. */
  lemma HashNamesIdExactly(cfg: Config, now: nat, r: TelegramRequest)
    requires Accepted(cfg, now, r)
    ensures CollisionFree(cfg) ==>
              ((exists q: TelegramRequest, t: nat :: q.hash == r.hash && q.id != r.id && Accepted(cfg, t, q))
               <==> NameSpellsId(r) || LaterSpellsId(r))
  {
    hide Accepted, NameSpellsId, LaterSpellsId, CollisionFree;
    if NameSpellsId(r) || LaterSpellsId(r) {
      var q := SpelledIdLogsIn(cfg, r);
      assert Accepted(cfg, now, q);
    }
    if CollisionFree(cfg) {
      forall q: TelegramRequest, t: nat | q.hash == r.hash && q.id != r.id && Accepted(cfg, t, q)
        ensures NameSpellsId(r) || LaterSpellsId(r)
      {
        AcceptedAlike(cfg, now, r, t, q);
        AlikeSpell(r, q);
      }
    }
  }

  lemma AcceptedAlike(cfg: Config, now: nat, r: TelegramRequest, t: nat, q: TelegramRequest)
    requires CollisionFree(cfg) && Accepted(cfg, now, r) && Accepted(cfg, t, q) && q.hash == r.hash
    ensures SignedText(r) == SignedText(q) && Body(r) == Body(q) && r.authDate == q.authDate
  {
    VerdictReads(cfg, now, r);
    VerdictReads(cfg, t, q);
    SignedAlike(r, q);
    hide SignedText, Body;
  }

  /** With a collision-free code an accepted hash stands for one id and one date among all requests whose
      first name spells no other id. */
  lemma HashBindsId(cfg: Config, now: nat, r: TelegramRequest, t: nat, q: TelegramRequest)
    requires CollisionFree(cfg) && Accepted(cfg, now, r) && Accepted(cfg, t, q) && q.hash == r.hash
    ensures r.authDate == q.authDate
    ensures r.id == q.id || NameSpellsId(r) || NameSpellsId(q)
  {
    hide Accepted, NameSpellsId, LaterSpellsId, CollisionFree, Body, SignedText;
    AcceptedAlike(cfg, now, r, t, q);
    if r.id != q.id {
      AlikeSpell(r, q);
    }
  }

  /** The same id, the same date and the same profile. */
  predicate SamePayload(r: TelegramRequest, q: TelegramRequest) {
    && r.id == q.id && r.authDate == q.authDate
    && forall k | k in PROFILE_FIELDS :: (k in r.profile <==> k in q.profile)
        && (k in r.profile ==> r.profile[k] == q.profile[k])
  }

  lemma SamePayloadSigned(r: TelegramRequest, q: TelegramRequest)
    ensures Signed(WidgetPayload(r)) == Signed(WidgetPayload(q)) <==> SamePayload(r, q)
  {
    var m, n := Signed(WidgetPayload(r)), Signed(WidgetPayload(q));
    SignedPairs(r);
    SignedPairs(q);
    ProfilePairs(r);
    ProfilePairs(q);
    hide Decimal, Signed, WidgetPayload, Piece, PROFILE_FIELDS, FIELDS;
    if m == n {
      assert m["id"] == n["id"] && m["auth_date"] == n["auth_date"];
      DecimalInjective(r.id, q.id);
      DecimalInjective(r.authDate, q.authDate);
    }
    if SamePayload(r, q) {
      assert m.Keys == n.Keys;
      assert forall k | k in m :: m[k] == n[k];
    }
  }

  lemma FieldsOneLine()
    ensures OneLineKeys(Elems(FIELDS))
  {
  }

  /** With a collision-free code an accepted hash stands for one payload among all that hide nothing. */
  lemma HashBindsPayload(cfg: Config, now: nat, r: TelegramRequest, q: TelegramRequest)
    requires CollisionFree(cfg) && Accepted(cfg, now, r) && q.hash == r.hash
    requires HidesNothing(Elems(FIELDS), Signed(WidgetPayload(r)))
    requires HidesNothing(Elems(FIELDS), Signed(WidgetPayload(q)))
    ensures Accepted(cfg, now, q) <==> SamePayload(r, q)
  {
    FieldsOneLine();
    SignedPairs(r);
    SignedPairs(q);
    SamePayloadSigned(r, q);
    hide Verdict, WidgetPayload, CheckString, Signed, HidesNothing, OneLineKeys, Decimal, PROFILE_FIELDS, FIELDS, Piece;
    CheckStringDetermines(Elems(FIELDS), Signed(WidgetPayload(r)), Signed(WidgetPayload(q)));
    VerdictReads(cfg, now, r);
    VerdictReads(cfg, now, q);
  }
}
