/** Scope strings: how a requested scope is cut down to what a client may have, and why the
    resulting string survives being stored and read back any number of times. */
module Scopes {
  import opened Text

  const ADMIN := "admin"
  const DEFAULTS: set<string> := {"openid", "profile", "email"}

  predicate Within(words: seq<string>, allowed: seq<string>) { forall w | w in words :: w in allowed }

  // ---------------------------------------------------------------- resource owners

  /** The default scopes of a user, given when nothing requested is allowed. */
  function DefaultParts(allow: set<string>): set<string> {
    if DEFAULTS * allow != {} then DEFAULTS * allow else Elems(FirstThree(allow))
  }

  function FirstThree(allow: set<string>): seq<string> {
    var listed := Sorted(allow);
    if |listed| <= 3 then listed else listed[..3]
  }

  function UserParts(requested: string, allowed: seq<string>, roles: set<string>): set<string> {
    var allow := Elems(allowed);
    var asked := Elems(Split(requested)) * allow;
    var parts := if ADMIN in roles && ADMIN in allow then asked + {ADMIN} else asked;
    if parts != {} then parts else DefaultParts(allow)
  }

  function UserScope(requested: string, allowed: seq<string>, roles: set<string>): string {
    Join(" ", Sorted(UserParts(requested, allowed, roles)))
  }

  /** A scope string as this server writes it: sorted, within the allowed list, and empty only when
      nothing is allowed. */
  predicate Canonical(scope: string, allowed: seq<string>) {
    var parts := Elems(Split(scope));
    && parts <= Elems(allowed)
    && (parts == {} ==> allowed == [])
    && scope == Join(" ", Sorted(parts))
  }

  function WithAdmin(scope: string): string { Join(" ", Sorted(Elems(Split(scope)) + {ADMIN})) }

  lemma FirstThreeParts(allow: set<string>)
    ensures Elems(FirstThree(allow)) <= allow
    ensures FirstThree(allow) == [] <==> allow == {}
  {
    var listed := Sorted(allow);
    forall x | x in FirstThree(allow) ensures x in allow {
      assert x in Elems(listed);
    }
    ElemsEmpty(listed);
  }

  lemma UserPartsWithin(requested: string, allowed: seq<string>, roles: set<string>)
    ensures UserParts(requested, allowed, roles) <= Elems(allowed)
    ensures UserParts(requested, allowed, roles) == {} <==> allowed == []
  {
    FirstThreeParts(Elems(allowed));
    ElemsEmpty(FirstThree(Elems(allowed)));
    ElemsEmpty(allowed);
  }

  lemma StandardTokens()
    ensures IsToken(ADMIN) && forall d | d in DEFAULTS :: IsToken(d)
  {
  }

  lemma SortedReadsBack(parts: set<string>)
    requires forall p | p in parts :: IsToken(p)
    ensures Split(Join(" ", Sorted(parts))) == Sorted(parts)
    ensures Elems(Split(Join(" ", Sorted(parts)))) == parts
  {
    forall x | x in Sorted(parts) ensures IsToken(x) {
      assert x in Elems(Sorted(parts));
    }
    SplitJoinTokens(Sorted(parts));
  }

  /** What is granted by default consists of scope-tokens. */
  predicate DefaultTokens(allowed: seq<string>) {
    DEFAULTS * Elems(allowed) != {} || AllTokens(FirstThree(Elems(allowed)))
  }

  /** The user gets what was requested or `admin`, and no default. */
  predicate Asked(requested: string, allowed: seq<string>, roles: set<string>) {
    Elems(Split(requested)) * Elems(allowed) != {} || (ADMIN in roles && ADMIN in allowed)
  }

  /** Everything granted is a scope-token, unless the default grant has entries that are none. */
  lemma PartsAreTokens(requested: string, allowed: seq<string>, roles: set<string>)
    requires DefaultTokens(allowed) || Asked(requested, allowed, roles)
    ensures forall p | p in UserParts(requested, allowed, roles) :: IsToken(p)
  {
    StandardTokens();
    hide IsToken, Split;
  }

  lemma TokenScopeCanonical(requested: string, allowed: seq<string>, roles: set<string>)
    requires forall p | p in UserParts(requested, allowed, roles) :: IsToken(p)
    ensures Canonical(UserScope(requested, allowed, roles), allowed)
  {
    UserPartsWithin(requested, allowed, roles);
    SortedReadsBack(UserParts(requested, allowed, roles));
  }

  /** Whatever is requested and whatever roles the user holds, the granted string is canonical. */
  lemma UserScopeCanonical(requested: string, allowed: seq<string>, roles: set<string>)
    requires DefaultTokens(allowed)
    ensures Canonical(UserScope(requested, allowed, roles), allowed)
  {
    PartsAreTokens(requested, allowed, roles);
    TokenScopeCanonical(requested, allowed, roles);
  }

  /** Requesting a canonical scope again grants it unchanged, except that a user who now holds the
      admin role gains `admin` where the client may have it. */
  lemma ReissuedScope(scope: string, allowed: seq<string>, roles: set<string>)
    requires Canonical(scope, allowed)
    ensures UserScope(scope, allowed, roles)
         == if ADMIN in roles && ADMIN in allowed then WithAdmin(scope) else scope
  {
    var allow, parts := Elems(allowed), Elems(Split(scope));
    assert parts * allow == parts;
    if parts == {} {
      FirstThreeParts(allow);
      assert FirstThree({}) == [];
      assert UserParts(scope, allowed, roles) == {};
    }
  }

  lemma AdminIsToken()
    ensures IsToken(ADMIN)
  {
  }

  /** `admin` is gained at most once: a scope that has it no longer changes. */
  lemma WithAdminSettles(scope: string, allowed: seq<string>)
    ensures WithAdmin(WithAdmin(scope)) == WithAdmin(scope)
    ensures ADMIN in Split(WithAdmin(scope))
    ensures Canonical(scope, allowed) && ADMIN in allowed ==> Canonical(WithAdmin(scope), allowed)
    ensures Canonical(scope, allowed) ==> (ADMIN in Split(scope) <==> WithAdmin(scope) == scope)
  {
    hide Split, Join, Sorted, IsToken;
    AdminIsToken();
    var parts := Elems(Split(scope)) + {ADMIN};
    SortedReadsBack(parts);
    assert parts + {ADMIN} == parts;
    assert ADMIN in Elems(Split(WithAdmin(scope)));
    if ADMIN in Split(scope) {
      assert Elems(Split(scope)) == parts;
    }
  }

  lemma SortedSingleton(x: string)
    ensures Sorted({x}) == [x]
  {
    assert Elems([x]) == {x};
    AscendingUnique(Sorted({x}), [x]);
  }

  lemma JoinedWords(parts: set<string>, w: string)
    ensures w in Split(Join(" ", Sorted(parts))) <==> exists p :: p in parts && w in Split(p)
  {
    SplitJoin(Sorted(parts));
    WordsMember(Sorted(parts), w);
    assert forall p :: p in parts <==> p in Elems(Sorted(parts));
  }

  lemma PairWords(a: string, b: string)
    requires IsToken(a) && IsToken(b)
    ensures Elems(Split(Join(" ", Sorted({a + " " + b, b})))) == {a, b}
  {
    hide Split, Join, Sorted, IsToken;
    var x := a + " " + b;
    SplitSpaced(a, b);
    SplitToken(a);
    SplitToken(b);
    var words := Split(Join(" ", Sorted({x, b})));
    forall w ensures w in words <==> w == a || w == b {
      JoinedWords({x, b}, w);
      assert x in {x, b};
    }
  }

  lemma PairElems(x: string, b: string)
    ensures Elems([x, b]) == {x, b}
  {
  }

  /** Two allowed entries, none of them a standard scope, are both granted by default. */
  lemma PairByDefault(x: string, b: string)
    requires x !in DEFAULTS && b !in DEFAULTS
    ensures UserParts("", [x, b], {}) == {x, b}
  {
    hide Sorted;
    PairElems(x, b);
    assert DEFAULTS * {x, b} == {};
    assert Split("") == [];
    assert |Sorted({x, b})| <= 2;
    assert FirstThree({x, b}) == Sorted({x, b});
  }

  lemma SpacedIsNoDefault(a: string, b: string)
    ensures a + " " + b !in DEFAULTS
  {
    StandardTokens();
    var x := a + " " + b;
    assert x[|a|] == ' ' && x[|a|] in x;
  }

  /** Stability fails for some lists: an allowed entry made of two words is granted by
      default, read back as two scopes, and dropped at the next issue. */
  lemma StabilityNeedsTokens(a: string, b: string)
    requires IsToken(a) && IsToken(b) && a != b && b !in DEFAULTS
    ensures var allowed := [a + " " + b, b];
            var first := UserScope("", allowed, {});
            UserScope(first, allowed, {}) == b != first
  {
    hide Split, Join, Sorted, IsToken, DefaultParts;
    var x := a + " " + b;
    SpacedIsNoDefault(a, b);
    PairByDefault(x, b);
    var first := UserScope("", [x, b], {});
    PairWords(a, b);
    assert a in Elems(Split(first));
    PairElems(x, b);
    assert x != a;
    assert {a, b} * {x, b} == {b};
    assert UserParts(first, [x, b], {}) == {b};
    JoinedSingleton(b);
    SplitToken(b);
  }

  lemma JoinedSingleton(b: string)
    ensures Join(" ", Sorted({b})) == b
  {
    SortedSingleton(b);
  }

  // ---------------------------------------------------------------- for which lists a scope is stable

  /** A scope string is carried on exactly, or gains `admin` where that is allowed. */
  predicate Carried(a: string, b: string, allowed: seq<string>) {
    b == a || (ADMIN in allowed && b == WithAdmin(a))
  }

  /** Carrying composes, and `admin` is gained at most once. */
  lemma CarriedCompose(a: string, b: string, c: string, allowed: seq<string>)
    requires Carried(a, b, allowed) && Carried(b, c, allowed)
    ensures Carried(a, c, allowed)
    ensures b != a ==> c == b
  {
    WithAdminSettles(a, allowed);
  }

  /** The scope is what some user got who asked for something under this list. */
  ghost predicate GrantedUnder(scope: string, allowed: seq<string>) {
    exists requested: string, roles: set<string> :: scope == UserScope(requested, allowed, roles)
  }

  /** What a user with these roles is granted who asks for `scope` again, if nothing but the admin role counts. */
  function Expected(scope: string, allowed: seq<string>, roles: set<string>): string {
    if ADMIN in roles && ADMIN in allowed then WithAdmin(scope) else scope
  }

  /** No word of a default entry is itself an allowed entry. */
  predicate NothingReread(allowed: seq<string>) {
    forall x, w | x in FirstThree(Elems(allowed)) && w in Split(x) :: w !in allowed
  }

  predicate NoWords(allowed: seq<string>) { forall x | x in FirstThree(Elems(allowed)) :: Split(x) == [] }

  /** The condition on the allowed list for scopes to be stable whatever happens to the roles. */
  predicate StableList(allowed: seq<string>) {
    DefaultTokens(allowed) || (NothingReread(allowed) && (ADMIN !in allowed || NoWords(allowed)))
  }

  lemma FirstThreeAscends(allow: set<string>)
    ensures Sorted(Elems(FirstThree(allow))) == FirstThree(allow)
    ensures forall y, z | y in allow && z in FirstThree(allow) && Leq(y, z) :: y in FirstThree(allow)
  {
    var listed, first := Sorted(allow), FirstThree(allow);
    assert forall i | 0 <= i < |first| :: first[i] == listed[i];
    AscendingUnique(Sorted(Elems(first)), first);
    forall y, z | y in allow && z in first && Leq(y, z) ensures y in first {
      assert y in Elems(listed);
      var i :| 0 <= i < |listed| && listed[i] == y;
      var j :| 0 <= j < |first| && first[j] == z;
      if i >= |first| {
        LeqAntisymmetric(y, z);
      }
    }
  }

  /** The words of the default grant. */
  lemma DefaultWords(allowed: seq<string>, w: string)
    requires DEFAULTS * Elems(allowed) == {}
    ensures UserScope("", allowed, {}) == Join(" ", FirstThree(Elems(allowed)))
    ensures w in Split(UserScope("", allowed, {})) <==> exists x :: x in FirstThree(Elems(allowed)) && w in Split(x)
  {
    var first := FirstThree(Elems(allowed));
    FirstThreeAscends(Elems(allowed));
    assert Split("") == [];
    SplitJoin(first);
    WordsMember(first, w);
    hide Split, Join, Sorted, FirstThree;
    assert UserParts("", allowed, {}) == Elems(first);
  }

  // ---- the default grant changes if one of its entries is no token and one of its words is allowed

  /** No whitespace at either end, and no two whitespace characters in a row. */
  predicate Tight(s: string) {
    && (s != "" ==> !IsSpace(s[0]) && !IsSpace(s[|s| - 1]))
    && forall i | 0 <= i < |s| - 1 :: !IsSpace(s[i]) || !IsSpace(s[i + 1])
  }

  lemma {:induction false} TokensJoinTight(xs: seq<string>)
    requires AllTokens(xs)
    ensures Tight(Join(" ", xs))
  {
    hide IsToken, Tight;
    if xs == [] {
      EmptyIsTight();
    } else {
      TokenIsTight(xs[0]);
      if |xs| > 1 {
        TokensJoinTight(xs[1..]);
        TokenIsTight(xs[1]);
        JoinNotEmpty(xs[1..]);
        TightJoin(xs[0], Join(" ", xs[1..]));
      }
    }
  }

  lemma EmptyIsTight()
    ensures Tight("")
  {
  }

  lemma TokenIsTight(x: string)
    requires IsToken(x)
    ensures x != "" && Tight(x)
  {
    hide IsSpace;
    assert forall i | 0 <= i < |x| :: x[i] in x;
  }

  lemma JoinNotEmpty(xs: seq<string>)
    requires xs != [] && xs[0] != ""
    ensures Join(" ", xs) != ""
  {
  }

  lemma TightJoin(x: string, rest: string)
    requires x != "" && rest != "" && Tight(x) && Tight(rest)
    ensures Tight(x + " " + rest)
  {
    var s := x + " " + rest;
    forall i | 0 <= i < |s| - 1 ensures !IsSpace(s[i]) || !IsSpace(s[i + 1]) {
      if i + 1 < |x| {
        assert s[i] == x[i] && s[i + 1] == x[i + 1];
      } else if i > |x| {
        var k := i - |x| - 1;
        assert s[i] == rest[k] && s[i + 1] == rest[k + 1];
      }
    }
    hide IsSpace;
  }

  /** The entries of a tight text begin with a letter that is no whitespace. */
  lemma {:induction false} TightEntries(xs: seq<string>)
    requires Tight(Join(" ", xs)) && xs != [""]
    ensures forall x | x in xs :: x != "" && !IsSpace(x[0])
  {
    hide IsSpace;
    if |xs| == 1 {
      assert xs == [xs[0]] && Join(" ", xs) == xs[0];
    } else if |xs| > 1 {
      TightParts(xs[0], Join(" ", xs[1..]));
      TightEntries(xs[1..]);
    }
  }

  lemma TightParts(x: string, rest: string)
    requires Tight(x + " " + rest)
    ensures x != "" && !IsSpace(x[0]) && rest != "" && Tight(rest)
  {
    assert IsSpace(' ');
    hide IsSpace;
    var s, n := x + " " + rest, |x| + 1;
    assert s[|x|] == ' ';
    assert forall i | 0 <= i < |rest| :: rest[i] == s[n + i];
    if rest != "" {
      assert !IsSpace(s[|x| + 1]);
      assert rest[|rest| - 1] == s[|s| - 1];
      forall i | 0 <= i < |rest| - 1 ensures !IsSpace(rest[i]) || !IsSpace(rest[i + 1]) {
        assert rest[i] == s[n + i] && rest[i + 1] == s[n + i + 1];
      }
    }
  }

  /** A word that two entries share stands twice among the words. */
  lemma {:induction false} SharedWord(xs: seq<string>, i: nat, j: nat, w: string) returns (k: nat, l: nat)
    requires i < j < |xs| && w in Split(xs[i]) && w in Split(xs[j])
    ensures k < l < |Words(xs)| && Words(xs)[k] == w == Words(xs)[l]
  {
    hide Split;
    var head := Split(xs[0]);
    if i == 0 {
      k :| 0 <= k < |head| && head[k] == w;
      assert xs[1..][j - 1] == xs[j] && xs[j] in xs[1..];
      WordsMember(xs[1..], w);
      var m :| 0 <= m < |Words(xs[1..])| && Words(xs[1..])[m] == w;
      l := |head| + m;
    } else {
      var a, b := SharedWord(xs[1..], i - 1, j - 1, w);
      k, l := |head| + a, |head| + b;
    }
  }

  lemma {:induction false} PrefixLeq(x: string, n: nat)
    requires n <= |x|
    ensures Leq(x[..n], x)
  {
    if n > 0 {
      assert x[..n][1..] == x[1..][..n - 1];
      PrefixLeq(x[1..], n - 1);
    }
  }

  lemma OneWordIsToken(x: string)
    ensures x != "" && WordLength(x) == |x| ==> IsToken(x)
  {
    assert x[..|x|] == x;
  }

  /** The first word of an entry that begins with no whitespace and is no token. */
  lemma FirstWord(x: string) returns (w: string)
    requires x != "" && !IsSpace(x[0]) && !IsToken(x)
    ensures w in Split(x) && Leq(w, x) && w != x
  {
    var n := WordLength(x);
    w := x[..n];
    PrefixLeq(x, n);
    assert w in Split(x);
    OneWordIsToken(x);
  }

  lemma NoRepeats(xs: seq<string>, k: nat, l: nat)
    requires Ascending(xs) && k < l < |xs|
    ensures xs[k] != xs[l]
  {
  }

  /** Entries whose words are all allowed read back as themselves only if they are tokens. */
  lemma RereadDiffers(first: seq<string>, allow: set<string>, kept: set<string>)
    requires Ascending(first) && !AllTokens(first) && kept != {} && kept <= allow && forall w | w in kept :: IsToken(w)
    requires forall y, z | y in allow && z in first && Leq(y, z) :: y in first
    ensures Join(" ", first) != Join(" ", Sorted(kept))
  {
    if Join(" ", first) == Join(" ", Sorted(kept)) {
      SplitJoin(first);
      SortedReadsBack(kept);
      forall x | x in Sorted(kept) ensures IsToken(x) {
        assert x in Elems(Sorted(kept));
      }
      TokensJoinTight(Sorted(kept));
      assert Split("") == [];
      TightEntries(first);
      var j :| 0 <= j < |first| && !IsToken(first[j]);
      var w := FirstWord(first[j]);
      WordsMember(first, w);
      assert w in Elems(Sorted(kept)) && w in first;
      var i :| 0 <= i < |first| && first[i] == w;
      SplitToken(w);
      var k, l := SharedWord(first, if i < j then i else j, if i < j then j else i, w);
      NoRepeats(Sorted(kept), k, l);
    }
  }

  lemma DefaultChanges(allowed: seq<string>)
    requires !DefaultTokens(allowed) && !NothingReread(allowed)
    ensures var first := UserScope("", allowed, {}); UserScope(first, allowed, {}) != first
  {
    hide IsToken, Split, Sorted, Join, FirstThree, Leq, UserScope, Ascending;
    var first, scope := FirstThree(Elems(allowed)), UserScope("", allowed, {});
    var x, w :| x in first && w in Split(x) && w in allowed;
    DefaultWords(allowed, w);
    FirstThreeAscends(Elems(allowed));
    var kept := Elems(Split(scope)) * Elems(allowed);
    assert w in kept;
    SortedAscends(Elems(first));
    KeptScope(scope, allowed);
    RereadDiffers(first, Elems(allowed), kept);
  }

  lemma KeptScope(scope: string, allowed: seq<string>)
    requires Elems(Split(scope)) * Elems(allowed) != {}
    ensures UserScope(scope, allowed, {}) == Join(" ", Sorted(Elems(Split(scope)) * Elems(allowed)))
  {
  }

  lemma SortedAscends(s: set<string>)
    ensures Ascending(Sorted(s))
  {
  }

  // ---- the two exact conditions

  /** A scope that was asked for is granted again as expected, whatever the list. */
  lemma AskedAgain(requested: string, allowed: seq<string>, before: set<string>, after: set<string>)
    requires DefaultTokens(allowed) || Asked(requested, allowed, before)
    ensures var scope := UserScope(requested, allowed, before);
            UserScope(scope, allowed, after) == Expected(scope, allowed, after)
    ensures var scope := UserScope(requested, allowed, before);
            ADMIN in before && ADMIN in allowed ==> WithAdmin(scope) == scope
  {
    var scope := UserScope(requested, allowed, before);
    PartsAreTokens(requested, allowed, before);
    TokenScopeCanonical(requested, allowed, before);
    ReissuedScope(scope, allowed, after);
    WithAdminSettles(scope, allowed);
    if ADMIN in before && ADMIN in allowed {
      SortedReadsBack(UserParts(requested, allowed, before));
      assert ADMIN in Elems(Split(scope));
    }
  }

  /** A default grant none of whose words is allowed is granted again, unless `admin` comes in. */
  lemma DefaultAgain(requested: string, allowed: seq<string>, before: set<string>, after: set<string>)
    requires !DefaultTokens(allowed) && NothingReread(allowed) && !Asked(requested, allowed, before)
    ensures var scope := UserScope(requested, allowed, before);
            && scope == UserScope("", allowed, {})
            && UserScope(scope, allowed, after) == if ADMIN in after && ADMIN in allowed then ADMIN else scope
  {
    var scope := UserScope("", allowed, {});
    assert Split("") == [];
    forall w | w in Split(scope) ensures w !in allowed {
      DefaultWords(allowed, w);
    }
    SortedSingleton(ADMIN);
    hide Split, Sorted, FirstThree, IsToken;
    assert Elems(Split(scope)) * Elems(allowed) == {};
    assert ADMIN in after && ADMIN in allowed ==> UserParts(scope, allowed, after) == {ADMIN};
  }

  /** For an arbitrary allowed list: granting a scope again to the same user never changes it if and only
      if the default grant consists of tokens, or no word of it is itself allowed. */
  lemma RegrantedExactly(allowed: seq<string>)
    ensures (forall requested, roles ::
               UserScope(UserScope(requested, allowed, roles), allowed, roles) == UserScope(requested, allowed, roles))
       <==> DefaultTokens(allowed) || NothingReread(allowed)
  {
    hide UserScope, Split, DefaultTokens, NothingReread, WithAdmin;
    if DefaultTokens(allowed) || NothingReread(allowed) {
      forall requested, roles
        ensures UserScope(UserScope(requested, allowed, roles), allowed, roles) == UserScope(requested, allowed, roles)
      {
        if DefaultTokens(allowed) || Asked(requested, allowed, roles) {
          AskedAgain(requested, allowed, roles, roles);
        } else {
          DefaultAgain(requested, allowed, roles, roles);
        }
      }
    } else {
      DefaultChanges(allowed);
    }
  }

  lemma WithAdminOfNoWords(scope: string)
    ensures WithAdmin(scope) == ADMIN <==> Elems(Split(scope)) <= {ADMIN}
  {
    hide Split, Sorted, IsToken, Join;
    var words := Elems(Split(scope)) + {ADMIN};
    StandardTokens();
    JoinedSingleton(ADMIN);
    SortedReadsBack(words);
    SplitToken(ADMIN);
    assert Elems([ADMIN]) == {ADMIN};
    assert Elems(Split(scope)) <= {ADMIN} <==> words == {ADMIN};
  }

  /** What a later holder of the admin role makes of the default grant. */
  lemma DefaultGainsAdmin(allowed: seq<string>)
    requires !DefaultTokens(allowed) && NothingReread(allowed) && ADMIN in allowed
    ensures WithAdmin(UserScope("", allowed, {})) == ADMIN <==> NoWords(allowed)
  {
    var scope, first := UserScope("", allowed, {}), FirstThree(Elems(allowed));
    WithAdminOfNoWords(scope);
    hide Split, UserScope, WithAdmin, FirstThree;
    if NoWords(allowed) {
      forall w ensures w in Split(scope) ==> w == ADMIN {
        DefaultWords(allowed, w);
      }
    } else {
      var x :| x in first && Split(x) != [];
      var w := Split(x)[0];
      DefaultWords(allowed, w);
      assert w in Elems(Split(scope)) && w != ADMIN;
    }
  }

  /** For an arbitrary allowed list: whoever asks for a granted scope again gets it back unchanged, plus
      `admin` for a holder of that role, whatever the roles were and have become, if and only if the list
      is stable. */
  lemma StableExactly(allowed: seq<string>)
    ensures (forall requested, before, after ::
               UserScope(UserScope(requested, allowed, before), allowed, after)
               == Expected(UserScope(requested, allowed, before), allowed, after))
       <==> StableList(allowed)
  {
    hide UserScope, Split, DefaultTokens, NothingReread, WithAdmin, NoWords;
    if StableList(allowed) {
      forall requested, before, after
        ensures UserScope(UserScope(requested, allowed, before), allowed, after)
             == Expected(UserScope(requested, allowed, before), allowed, after)
      {
        StableRegrant(requested, allowed, before, after);
      }
    } else if !NothingReread(allowed) {
      DefaultChanges(allowed);
    } else {
      NothingAsked(allowed);
      DefaultAgain("", allowed, {}, {ADMIN});
      DefaultGainsAdmin(allowed);
      assert UserScope(UserScope("", allowed, {}), allowed, {ADMIN}) !=
          Expected(UserScope("", allowed, {}), allowed, {ADMIN});
    }
  }

  lemma NothingAsked(allowed: seq<string>)
    ensures !Asked("", allowed, {})
  {
    assert Split("") == [];
  }

  lemma StableRegrant(requested: string, allowed: seq<string>, before: set<string>, after: set<string>)
    requires StableList(allowed)
    ensures var scope := UserScope(requested, allowed, before);
            UserScope(scope, allowed, after) == Expected(scope, allowed, after)
  {
    hide UserScope, Split, DefaultTokens, NothingReread, WithAdmin, NoWords;
    if DefaultTokens(allowed) || Asked(requested, allowed, before) {
      AskedAgain(requested, allowed, before, after);
    } else {
      DefaultAgain(requested, allowed, before, after);
      if ADMIN in allowed {
        DefaultGainsAdmin(allowed);
      }
    }
  }

  // ---------------------------------------------------------------- clients acting for themselves

  function Keep(words: seq<string>, allow: set<string>): (kept: seq<string>)
    ensures forall w :: w in kept <==> w in words && w in allow
  {
    if words == [] then [] else (if words[0] in allow then [words[0]] else []) + Keep(words[1..], allow)
  }

  function IntersectWords(requested: string, allowed: seq<string>): seq<string> {
    var kept := Keep(Split(requested), Elems(allowed));
    if kept == [] && allowed != [] then
      assert allowed[0] in Elems(allowed);
      [Sorted(Elems(allowed))[0]]
    else kept
  }

  /** `_scope_intersect`: keeps the order and the repetitions of the request. */
  function ScopeIntersect(requested: string, allowed: seq<string>): string {
    Join(" ", IntersectWords(requested, allowed))
  }

  /** The scope of a client-credentials token. */
  function ClientScope(requested: string, allowed: seq<string>): string {
    var scope := ScopeIntersect(requested, allowed);
    if scope == "" then Join(" ", Sorted(Elems(allowed))) else scope
  }

  // ---------------------------------------------------------------- minted scopes are bounded

  lemma JoinedWithin(xs: seq<string>, allowed: seq<string>)
    ensures Within(Split(Join(" ", xs)), allowed) <==> Within(Words(xs), allowed)
  {
    SplitJoin(xs);
  }

  lemma TokensWithin(xs: seq<string>, allowed: seq<string>)
    requires AllTokens(xs) && Within(xs, allowed)
    ensures Within(Split(Join(" ", xs)), allowed)
  {
    SplitJoinTokens(xs);
  }

  lemma SortedWithin(parts: set<string>, allowed: seq<string>)
    requires forall p | p in parts :: IsToken(p) && p in allowed
    ensures Within(Split(Join(" ", Sorted(parts))), allowed)
  {
    SortedReadsBack(parts);
    forall w | w in Sorted(parts) ensures w in allowed {
      assert w in Elems(Sorted(parts));
    }
  }

  /** The scope a client gets when nothing it requested is allowed: the least allowed entry. */
  function Fallback(allowed: seq<string>): string
    requires allowed != []
  {
    assert allowed[0] in Elems(allowed);
    Sorted(Elems(allowed))[0]
  }

  /** The fallback reads back as allowed scopes. */
  predicate FallbackWithin(allowed: seq<string>) { allowed != [] ==> Within(Split(Fallback(allowed)), allowed) }

  /** The same when an empty fallback is replaced by all allowed entries. */
  predicate ClientDefaultWithin(allowed: seq<string>) {
    if "" in allowed then Within(Words(Sorted(Elems(allowed))), allowed) else FallbackWithin(allowed)
  }

  /** What is kept of a request is granted as it is; otherwise the fallback is. */
  lemma IntersectForms(requested: string, allowed: seq<string>)
    ensures var scope := ScopeIntersect(requested, allowed);
            || (scope != "" && Within(Split(scope), allowed))
            || scope == (if allowed == [] then "" else Fallback(allowed))
    ensures Split(requested) == [] && allowed != [] ==> ScopeIntersect(requested, allowed) == Fallback(allowed)
  {
    var kept := Keep(Split(requested), Elems(allowed));
    if kept != [] {
      forall w | w in kept ensures IsToken(w) && w in allowed {
        assert w in Split(requested) && w in Elems(allowed);
      }
      TokensWithin(kept, allowed);
      assert IsToken(kept[0]);
      JoinNotEmpty(kept);
    }
  }

  /** For an arbitrary allowed list, intersected scopes stay within it for every request if and only if
      the fallback does. */
  lemma IntersectWithinIff(allowed: seq<string>)
    ensures (forall requested :: Within(Split(ScopeIntersect(requested, allowed)), allowed))
        <==> FallbackWithin(allowed)
  {
    assert Split("") == [];
    hide Split, ScopeIntersect, Within, Fallback;
    forall requested ensures FallbackWithin(allowed) ==> Within(Split(ScopeIntersect(requested, allowed)), allowed) {
      IntersectForms(requested, allowed);
      NothingWithin(allowed);
    }
    IntersectForms("", allowed);
  }

  lemma NothingWithin(allowed: seq<string>)
    ensures Within(Split(""), allowed)
  {
    assert Split("") == [];
  }

  lemma EmptyFallback(allowed: seq<string>)
    ensures allowed != [] ==> ("" in allowed <==> Fallback(allowed) == "")
  {
    if allowed != [] {
      var listed := Sorted(Elems(allowed));
      assert allowed[0] in Elems(allowed);
      assert listed[0] in Elems(listed);
      if "" in allowed {
        assert "" in Elems(listed);
        var j :| 0 <= j < |listed| && listed[j] == "";
        assert j > 0 ==> Leq(listed[0], "");
      }
    }
  }

  lemma ClientScopeForms(requested: string, allowed: seq<string>)
    ensures ClientDefaultWithin(allowed) ==> Within(Split(ClientScope(requested, allowed)), allowed)
    ensures Split(requested) == [] && allowed != [] ==>
              (Within(Split(ClientScope(requested, allowed)), allowed) <==> ClientDefaultWithin(allowed))
  {
    IntersectForms(requested, allowed);
    EmptyFallback(allowed);
    JoinedWithin(Sorted(Elems(allowed)), allowed);
    hide Split, ScopeIntersect, Within, Fallback, Words, Join;
    assert allowed == [] ==> Sorted(Elems(allowed)) == [];
    if allowed == [] {
      NoScopes(allowed);
    }
  }

  lemma NoScopes(allowed: seq<string>)
    requires allowed == []
    ensures Within(Split(""), allowed) && Join(" ", Sorted(Elems(allowed))) == ""
  {
    assert Split("") == [];
    assert Sorted(Elems(allowed)) == [];
  }

  /** For an arbitrary allowed list, client scopes stay within it for every request if and only if the
      default of a client does. */
  lemma ClientScopeWithinIff(allowed: seq<string>)
    ensures (forall requested :: Within(Split(ClientScope(requested, allowed)), allowed))
        <==> ClientDefaultWithin(allowed)
  {
    assert Split("") == [];
    hide Split, ClientScope, Within, ClientDefaultWithin;
    forall requested ensures ClientDefaultWithin(allowed) ==> Within(Split(ClientScope(requested, allowed)), allowed) {
      ClientScopeForms(requested, allowed);
    }
    ClientScopeForms("", allowed);
    if allowed == [] {
      EmptyListWithin(allowed);
    }
  }

  lemma EmptyListWithin(allowed: seq<string>)
    requires allowed == []
    ensures ClientDefaultWithin(allowed)
  {
  }

  /** An empty fallback is within every list. */
  lemma ClientDefaultCoversFallback(allowed: seq<string>)
    requires ClientDefaultWithin(allowed)
    ensures FallbackWithin(allowed)
  {
    EmptyFallback(allowed);
    NothingWithin(allowed);
    hide Split, Within, Fallback;
  }

  /** The default grant reads back as allowed scopes. */
  predicate DefaultWithin(allowed: seq<string>) {
    DEFAULTS * Elems(allowed) != {} || Within(Words(Sorted(Elems(FirstThree(Elems(allowed))))), allowed)
  }

  /** Every word of a user token's scope is an allowed scope. */
  lemma UserScopeWithin(requested: string, allowed: seq<string>, roles: set<string>)
    requires DefaultWithin(allowed)
    ensures Within(Split(UserScope(requested, allowed, roles)), allowed)
  {
    var parts := UserParts(requested, allowed, roles);
    UserPartsWithin(requested, allowed, roles);
    if Within(Words(Sorted(Elems(FirstThree(Elems(allowed))))), allowed) && parts == Elems(FirstThree(Elems(allowed))) {
      JoinedWithin(Sorted(parts), allowed);
    } else {
      StandardTokens();
      forall p | p in parts ensures IsToken(p) && p in allowed {
        assert p in Elems(allowed);
        assert p in Split(requested) || p == ADMIN || p in DEFAULTS;
      }
      SortedWithin(parts, allowed);
    }
  }

  /** For an arbitrary allowed list, user scopes stay within it for every request and every set of
      roles if and only if its default grant does. */
  lemma UserScopeWithinIff(allowed: seq<string>)
    ensures (forall requested, roles :: Within(Split(UserScope(requested, allowed, roles)), allowed))
       <==> DefaultWithin(allowed)
  {
    if DefaultWithin(allowed) {
      forall requested, roles ensures Within(Split(UserScope(requested, allowed, roles)), allowed) {
        UserScopeWithin(requested, allowed, roles);
      }
    } else {
      var fallback := Elems(FirstThree(Elems(allowed)));
      JoinedWithin(Sorted(fallback), allowed);
      assert Split("") == [];
      assert UserParts("", allowed, {}) == fallback;
      assert !Within(Split(UserScope("", allowed, {})), allowed);
    }
  }

  // ---------------------------------------------------------------- which lists never grant admin

  /** No user is granted `admin` under such a list: it is not listed, and no entry that is granted by
      default has it as a word. */
  predicate NoAdminForUsers(allowed: seq<string>) {
    ADMIN !in allowed
    && (DEFAULTS * Elems(allowed) != {} || forall x | x in FirstThree(Elems(allowed)) :: ADMIN !in Split(x))
  }

  /** The same for a client acting for itself; the default is all entries if the least one is empty. */
  predicate NoAdminForClients(allowed: seq<string>) {
    ADMIN !in allowed
    && (allowed == []
        || if "" in allowed then forall x | x in allowed :: ADMIN !in Split(x) else ADMIN !in Split(Fallback(allowed)))
  }

  lemma OnlyAdminReadsAdmin(p: string)
    requires IsToken(p)
    ensures ADMIN in Split(p) <==> p == ADMIN
  {
    SplitToken(p);
  }

  lemma UserNeverAdmin(requested: string, allowed: seq<string>, roles: set<string>)
    requires NoAdminForUsers(allowed)
    ensures ADMIN !in Split(UserScope(requested, allowed, roles))
  {
    var parts := UserParts(requested, allowed, roles);
    JoinedWords(parts, ADMIN);
    StandardTokens();
    UserPartsWithin(requested, allowed, roles);
    forall p | p in parts ensures ADMIN !in Split(p) {
      assert p in Elems(allowed);
      if p in Split(requested) || p in DEFAULTS {
        OnlyAdminReadsAdmin(p);
      }
    }
  }

  /** What a user gets who asks for `admin`, or for nothing. */
  lemma UserGetsAdmin(allowed: seq<string>, roles: set<string>)
    ensures ADMIN in allowed ==> ADMIN in Split(UserScope(ADMIN, allowed, {}))
    ensures ADMIN !in allowed && !NoAdminForUsers(allowed) ==> ADMIN in Split(UserScope("", allowed, roles))
  {
    if ADMIN in allowed {
      StandardTokens();
      SplitToken(ADMIN);
      assert Elems([ADMIN]) == {ADMIN} && ADMIN in Elems(allowed);
      assert UserParts(ADMIN, allowed, {}) == {ADMIN};
      JoinedSingleton(ADMIN);
    } else if !NoAdminForUsers(allowed) {
      DefaultWords(allowed, ADMIN);
      assert UserParts("", allowed, roles) == UserParts("", allowed, {});
    }
  }

  /** For an arbitrary allowed list: no user is granted `admin` under it, whatever is requested and
      whatever the roles are, if and only if it is not listed and no default entry spells it. */
  lemma UserAdminExactly(allowed: seq<string>)
    ensures (forall requested, roles :: ADMIN !in Split(UserScope(requested, allowed, roles)))
       <==> NoAdminForUsers(allowed)
  {
    hide UserScope, Split, NoAdminForUsers;
    if NoAdminForUsers(allowed) {
      forall requested, roles ensures ADMIN !in Split(UserScope(requested, allowed, roles)) {
        UserNeverAdmin(requested, allowed, roles);
      }
    } else {
      UserGetsAdmin(allowed, {});
    }
  }

  lemma IntersectNeverAdmin(requested: string, allowed: seq<string>)
    requires NoAdminForClients(allowed)
    ensures ADMIN !in Split(ScopeIntersect(requested, allowed))
  {
    IntersectForms(requested, allowed);
    EmptyFallback(allowed);
    assert Split("") == [];
    hide ScopeIntersect, Split, Fallback;
  }

  lemma ListedWords(allowed: seq<string>)
    ensures ADMIN in Split(Join(" ", Sorted(Elems(allowed)))) <==> exists x :: x in allowed && ADMIN in Split(x)
  {
    JoinedWords(Elems(allowed), ADMIN);
    assert forall x :: x in allowed <==> x in Elems(allowed);
  }

  lemma ClientNeverAdmin(requested: string, allowed: seq<string>)
    requires NoAdminForClients(allowed)
    ensures ADMIN !in Split(ClientScope(requested, allowed))
  {
    IntersectNeverAdmin(requested, allowed);
    IntersectForms(requested, allowed);
    EmptyFallback(allowed);
    ListedWords(allowed);
    hide ScopeIntersect, Split, Fallback, Join, Sorted;
  }

  lemma ClientGetsAdmin(allowed: seq<string>)
    ensures ADMIN in allowed ==> ADMIN in Split(ClientScope(ADMIN, allowed))
    ensures ADMIN !in allowed && !NoAdminForClients(allowed) ==> ADMIN in Split(ClientScope("", allowed))
  {
    StandardTokens();
    assert Split("") == [];
    if ADMIN in allowed {
      SplitToken(ADMIN);
      assert ADMIN in Elems(allowed);
      assert Keep([ADMIN], Elems(allowed)) == [ADMIN];
    } else {
      IntersectForms("", allowed);
      EmptyFallback(allowed);
      ListedWords(allowed);
      hide ScopeIntersect, Split, Fallback, Join, Sorted;
    }
  }

  /** For an arbitrary allowed list: a client acting for itself is never granted `admin` under it if and
      only if it is not listed and its default does not spell it. */
  lemma ClientAdminExactly(allowed: seq<string>)
    ensures (forall requested :: ADMIN !in Split(ClientScope(requested, allowed))) <==> NoAdminForClients(allowed)
  {
    hide ClientScope, Split, NoAdminForClients;
    if NoAdminForClients(allowed) {
      forall requested ensures ADMIN !in Split(ClientScope(requested, allowed)) {
        ClientNeverAdmin(requested, allowed);
      }
    } else {
      ClientGetsAdmin(allowed);
    }
  }

  lemma SpacedIsNoToken(a: string, b: string)
    ensures !IsToken(a + " " + b)
  {
    var x := a + " " + b;
    assert x[|a|] == ' ' && x[|a|] in x;
  }

  lemma OneByDefault(x: string)
    requires x !in DEFAULTS
    ensures UserScope("", [x], {}) == x
  {
    hide Sorted;
    assert Elems([x]) == {x};
    assert DEFAULTS * {x} == {};
    SortedSingleton(x);
    assert FirstThree({x}) == [x];
    assert Split("") == [];
    assert UserParts("", [x], {}) == {x};
  }

  /** A list without `admin` that grants it by default. */
  lemma EntrySpellsAdmin(word: string)
    requires IsToken(word)
    ensures var entry := word + " " + ADMIN;
            && ADMIN !in [entry] && !NoAdminForUsers([entry])
            && UserScope("", [entry], {}) == entry && ADMIN in Split(entry)
  {
    StandardTokens();
    SpacedIsNoToken(word, ADMIN);
    SpacedIsNoDefault(word, ADMIN);
    OneByDefault(word + " " + ADMIN);
    hide UserScope, IsToken;
    SplitSpaced(word, ADMIN);
    SplitToken(ADMIN);
    hide Split;
    assert Split(word + " " + ADMIN)[|Split(word)|] == ADMIN;
    UserAdminExactly([word + " " + ADMIN]);
  }
}
