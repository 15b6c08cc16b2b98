/** Checking the data a Telegram Login widget hands over. */
module TelegramWidget {
  import opened Text
  import opened Clock

  const HASH := "hash"
  const MAX_AGE_SECONDS := 86400

  datatype Field = Absent | Number(n: int) | Text(s: string)

  type Payload = map<string, Field>

  /** HMAC-SHA-256 in hexadecimal, from the bot token and the message. */
  type Mac = (string, string) -> string

  /** `int(text)`, which fails on text that spells no integer. */
  type ParseInt = string -> Option<int>

  function Show(f: Field): string {
    match f case Absent => "None" case Number(n) => Decimal(n) case Text(s) => s
  }

  /** The pairs a signature covers: everything present except the signature itself. */
  function Signed(data: Payload): map<string, string> {
    map k | k in data && k != HASH && data[k] != Absent :: Show(data[k])
  }

  function Line(k: string, v: string): string { k + "=" + v }

  function Lines(keys: seq<string>, m: map<string, string>): seq<string>
    requires forall k | k in keys :: k in m
  {
    if keys == [] then [] else
      var n := |keys| - 1;
      Lines(keys[..n], m) + [Line(keys[n], m[keys[n]])]
  }

  /** The data-check-string: the signed pairs in key order, one per line. */
  function CheckString(m: map<string, string>): string { Join("\n", Lines(SortedKeys(m), m)) }

  predicate HashGiven(data: Payload) {
    HASH in data && data[HASH] != Absent && data[HASH] != Number(0) && data[HASH] != Text("")
  }

  /** `None` when the date is no integer. */
  function AuthDate(parse: ParseInt, f: Field): Option<int>
    requires f != Absent
  {
    if f.Number? then Some(f.n) else parse(f.s)
  }

  /** A date that is given must be an integer, at most a day old. `now` is in microseconds. */
  predicate Fresh(parse: ParseInt, data: Payload, now: nat) {
    "auth_date" in data && data["auth_date"] != Absent ==>
      var ts := AuthDate(parse, data["auth_date"]);
      ts.Some? && now - ts.value * SECOND <= MAX_AGE_SECONDS * SECOND
  }

  /** Whether the widget data is accepted. `None` is the `TypeError` that comparing a non-ASCII hash raises. */
  function Verdict(mac: Mac, parse: ParseInt, data: Payload, botToken: string, now: nat): Option<bool> {
    if !HashGiven(data) || botToken == "" || !Fresh(parse, data, now) then Some(false)
    else if !Ascii(Show(data[HASH])) then None
    else Some(mac(botToken, CheckString(Signed(data))) == Show(data[HASH]))
  }

  /** The keys, in the given order, that a signature covers. */
  function Covered(keys: seq<string>, m: map<string, string>): (kept: seq<string>)
    ensures forall k :: k in kept <==> k in keys && k in m
  {
    if keys == [] then [] else
      var n := |keys| - 1;
      assert keys == keys[..n] + [keys[n]];
      Covered(keys[..n], m) + (if keys[n] in m then [keys[n]] else [])
  }

  lemma {:induction false} CoveredAscending(keys: seq<string>, m: map<string, string>)
    requires Ascending(keys)
    ensures Ascending(Covered(keys, m))
  {
    if keys != [] {
      var n := |keys| - 1;
      CoveredAscending(keys[..n], m);
      var kept := Covered(keys[..n], m);
      if keys[n] in m {
        forall a, b | 0 <= a < b < |kept| + 1
          ensures var xs := kept + [keys[n]]; Leq(xs[a], xs[b]) && xs[a] != xs[b]
        {
          assert kept[a] in kept;
        }
      }
    }
  }

  lemma CoveredIsSorted(keys: seq<string>, m: map<string, string>)
    requires Ascending(keys) && m.Keys <= Elems(keys)
    ensures Covered(keys, m) == SortedKeys(m)
  {
    CoveredAscending(keys, m);
    assert Elems(Covered(keys, m)) == m.Keys;
    assert Elems(SortedKeys(m)) == m.Keys;
    AscendingUnique(Covered(keys, m), SortedKeys(m));
  }

  lemma LinesSnoc(kept: seq<string>, k: string, m: map<string, string>)
    requires forall x | x in kept :: x in m
    requires k in m
    ensures (forall x | x in kept + [k] :: x in m) && Lines(kept + [k], m) == Lines(kept, m) + [Line(k, m[k])]
  {
    assert (kept + [k])[..|kept|] == kept;
  }

  function CoveredLines(keys: seq<string>, m: map<string, string>): seq<string> { Lines(Covered(keys, m), m) }

  lemma CoveredLinesNext(keys: seq<string>, i: nat, m: map<string, string>)
    requires i < |keys|
    ensures CoveredLines(keys[..i + 1], m)
         == CoveredLines(keys[..i], m) + (if keys[i] in m then [Line(keys[i], m[keys[i]])] else [])
  {
    var kept := Covered(keys[..i], m);
    assert keys[..i + 1][..i] == keys[..i];
    if keys[i] in m {
      LinesSnoc(kept, keys[i], m);
      assert Covered(keys[..i + 1], m) == kept + [keys[i]];
    } else {
      assert Covered(keys[..i + 1], m) == kept;
    }
  }

  /** `verify_telegram_widget`: one pass over all sorted keys collects the lines. */
  method Verify(mac: Mac, parse: ParseInt, data: Payload, botToken: string, now: nat) returns (ok: Option<bool>)
    ensures ok == Verdict(mac, parse, data, botToken, now)
  {
    if HASH !in data || data[HASH] == Absent || data[HASH] == Number(0) || data[HASH] == Text("") || botToken == "" {
      return Some(false);
    }
    if "auth_date" in data && data["auth_date"] != Absent {
      var ts := AuthDate(parse, data["auth_date"]);
      if ts.None? || now - ts.value * SECOND > MAX_AGE_SECONDS * SECOND {
        return Some(false);
      }
    }
    var pairs := CollectPairs(data);
    if !Ascii(Show(data[HASH])) {
      return None;
    }
    return Some(mac(botToken, Join("\n", pairs)) == Show(data[HASH]));
  }

  method CollectPairs(data: Payload) returns (pairs: seq<string>)
    ensures Join("\n", pairs) == CheckString(Signed(data))
  {
    var keys := Sorted(data.Keys);
    ghost var m := Signed(data);
    pairs := [];
    for i := 0 to |keys|
      invariant pairs == CoveredLines(keys[..i], m)
    {
      var k := keys[i];
      assert k in Elems(keys);
      CoveredLinesNext(keys, i, m);
      if k == HASH || data[k] == Absent {
        continue;
      }
      pairs := pairs + [k + "=" + Show(data[k])];
    }
    assert keys[..|keys|] == keys;
    CoveredIsSorted(keys, m);
  }
}
