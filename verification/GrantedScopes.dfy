/** What a granted scope consists of, entry by entry. */
module GrantedScopes {
  import opened Text
  import opened Scopes

  // ---------------------------------------------------------------- resource owners

  /** Something that is allowed is requested, or is due to the admin role. */
  predicate SomethingAsked(requested: string, allowed: seq<string>, roles: set<string>) {
    (exists x :: x in Split(requested) && x in allowed) || ("admin" in roles && "admin" in allowed)
  }

  predicate Standard(x: string) { x == "openid" || x == "profile" || x == "email" }

  /** How many allowed entries sort before `x`. */
  function SortedBefore(x: string, allowed: seq<string>): nat {
    |set y | y in allowed && Leq(y, x) && y != x|
  }

  /** The entries a user is granted: the requested ones that are allowed, and `admin` for a holder of that role;
      by default the standard scopes that are allowed; if there are none, the three least entries. */
  predicate GrantedEntry(x: string, requested: string, allowed: seq<string>, roles: set<string>) {
    && x in allowed
    && if SomethingAsked(requested, allowed, roles) then x in Split(requested) || (x == "admin" && "admin" in roles)
       else if exists d :: d in allowed && Standard(d) then Standard(x)
       else SortedBefore(x, allowed) < 3
  }

  lemma FrontIsLower(listed: seq<string>, i: nat, y: string)
    requires Ascending(listed) && i < |listed|
    ensures y in Elems(listed[..i]) <==> y in Elems(listed) && Leq(y, listed[i]) && y != listed[i]
  {
    hide Leq;
    if y in Elems(listed[..i]) {
      var j :| 0 <= j < i && listed[..i][j] == y;
      assert listed[j] == y;
    }
    if y in Elems(listed) && Leq(y, listed[i]) && y != listed[i] {
      var j :| 0 <= j < |listed| && listed[j] == y;
      if j > i { LeqAntisymmetric(listed[i], y); }
      assert listed[..i][j] == y;
    }
  }

  lemma PositionCounts(allowed: seq<string>, i: nat)
    requires i < |Sorted(Elems(allowed))|
    ensures SortedBefore(Sorted(Elems(allowed))[i], allowed) == i
  {
    hide Sorted;
    var listed := Sorted(Elems(allowed));
    var x, front := listed[i], listed[..i];
    assert Ascending(front) && forall y :: y in allowed <==> y in Elems(listed);
    forall y ensures y in Elems(front) <==> y in Elems(listed) && Leq(y, x) && y != x {
      FrontIsLower(listed, i, y);
    }
    hide Leq, Ascending;
    var before := set y | y in allowed && Leq(y, x) && y != x;
    assert Elems(front) == before;
    AscendingUnique(Sorted(before), front);
  }

  /** The three least entries are those that fewer than three sort before. */
  lemma FirstThreeExactly(allowed: seq<string>, x: string)
    ensures x in FirstThree(Elems(allowed)) <==> x in allowed && SortedBefore(x, allowed) < 3
  {
    hide Sorted, SortedBefore, Leq;
    var listed := Sorted(Elems(allowed));
    assert x in allowed <==> x in Elems(listed);
    if x in allowed {
      var i :| 0 <= i < |listed| && listed[i] == x;
      PositionCounts(allowed, i);
      var first := FirstThree(Elems(allowed));
      assert i < 3 ==> first[i] == x;
      if x in first {
        var j :| 0 <= j < |first| && first[j] == x;
        assert listed[j] == x;
        assert i == j;
      }
    } else {
      FirstThreeParts(Elems(allowed));
      assert x in FirstThree(Elems(allowed)) ==> x in Elems(FirstThree(Elems(allowed)));
    }
  }

  lemma EntriesExactly(x: string, requested: string, allowed: seq<string>, roles: set<string>)
    ensures x in UserParts(requested, allowed, roles) <==> GrantedEntry(x, requested, allowed, roles)
  {
    FirstThreeExactly(allowed, x);
    var asked, defaults := Elems(Split(requested)) * Elems(allowed), DEFAULTS * Elems(allowed);
    hide SortedBefore, FirstThree, Split;
    assert asked != {} <==> exists y :: y in Split(requested) && y in allowed by {
      forall y | y in Split(requested) && y in allowed ensures y in asked {}
    }
    assert defaults != {} <==> exists d :: d in allowed && Standard(d) by {
      forall d | d in allowed && Standard(d) ensures d in defaults {}
    }
  }

  /** The words of a granted scope are those of the granted entries, for every list, request and role set. */
  lemma UserScopeExactly(w: string, requested: string, allowed: seq<string>, roles: set<string>)
    ensures w in Split(UserScope(requested, allowed, roles))
       <==> exists x :: GrantedEntry(x, requested, allowed, roles) && w in Split(x)
  {
    JoinedWords(UserParts(requested, allowed, roles), w);
    forall x ensures x in UserParts(requested, allowed, roles) <==> GrantedEntry(x, requested, allowed, roles) {
      EntriesExactly(x, requested, allowed, roles);
    }
    hide UserParts, GrantedEntry, Split;
  }

  /** A granted scope is printed in ascending order and without repetition if its entries are scope-tokens. */
  lemma UserScopeSorted(requested: string, allowed: seq<string>, roles: set<string>)
    requires forall x | x in allowed :: IsToken(x)
    ensures Ascending(Split(UserScope(requested, allowed, roles)))
  {
    UserPartsWithin(requested, allowed, roles);
    forall p | p in UserParts(requested, allowed, roles) ensures IsToken(p) {
      assert p in Elems(allowed);
    }
    SortedReadsBack(UserParts(requested, allowed, roles));
  }

  // ---------------------------------------------------------------- clients for themselves

  /** How many of the first `n` words are allowed. */
  function AllowedBefore(words: seq<string>, allowed: seq<string>, n: nat): nat
    requires n <= |words|
  {
    |set i | 0 <= i < n && words[i] in allowed|
  }

  lemma AllowedNext(words: seq<string>, allowed: seq<string>, n: nat)
    requires n < |words|
    ensures AllowedBefore(words, allowed, n + 1)
         == AllowedBefore(words, allowed, n) + if words[n] in allowed then 1 else 0
  {
    var a, b := set i | 0 <= i < n && words[i] in allowed, set i | 0 <= i < n + 1 && words[i] in allowed;
    assert b == if words[n] in allowed then a + {n} else a;
  }

  lemma {:induction false} KeepSnoc(words: seq<string>, x: string, allow: set<string>)
    ensures Keep(words + [x], allow) == Keep(words, allow) + if x in allow then [x] else []
  {
    if words == [] {
      assert words + [x] == [x];
      assert [x][1..] == [];
    } else {
      assert (words + [x])[1..] == words[1..] + [x];
      KeepSnoc(words[1..], x, allow);
    }
  }

  /** `kept` has the allowed ones among the first `n` words, each at its place. */
  predicate Places(kept: seq<string>, words: seq<string>, allowed: seq<string>, n: nat)
    requires n <= |words|
  {
    && |kept| == AllowedBefore(words, allowed, n)
    && forall i | 0 <= i < n && words[i] in allowed ::
         AllowedBefore(words, allowed, i) < |kept| && kept[AllowedBefore(words, allowed, i)] == words[i]
  }

  lemma PlacesNext(kept: seq<string>, words: seq<string>, allowed: seq<string>, n: nat)
    requires n < |words| && Places(kept, words, allowed, n)
    ensures Places(kept + if words[n] in allowed then [words[n]] else [], words, allowed, n + 1)
  {
    AllowedNext(words, allowed, n);
    hide AllowedBefore;
  }

  lemma {:induction false} KeptPlaces(words: seq<string>, allowed: seq<string>, n: nat)
    requires n <= |words|
    ensures Places(Keep(words[..n], Elems(allowed)), words, allowed, n)
  {
    if n > 0 {
      var x := words[n - 1];
      assert words[..n] == words[..n - 1] + [x];
      assert x in allowed <==> x in Elems(allowed);
      hide Keep, Places, Elems;
      KeptPlaces(words, allowed, n - 1);
      PlacesNext(Keep(words[..n - 1], Elems(allowed)), words, allowed, n - 1);
      KeepSnoc(words[..n - 1], x, Elems(allowed));
    }
  }

  /** The allowed words of the request, in its order and as often as they occur there: each stands behind as
      many words as allowed ones stood before it. */
  predicate KeptInOrder(scope: string, words: seq<string>, allowed: seq<string>) {
    && |Split(scope)| == AllowedBefore(words, allowed, |words|)
    && forall i | 0 <= i < |words| && words[i] in allowed ::
         AllowedBefore(words, allowed, i) < |Split(scope)|
         && Split(scope)[AllowedBefore(words, allowed, i)] == words[i]
  }

  predicate LeastOf(x: string, allowed: seq<string>) { x in allowed && forall y | y in allowed :: Leq(x, y) }

  lemma KeptScope(requested: string, allowed: seq<string>)
    requires exists x :: x in Split(requested) && x in allowed
    ensures KeptInOrder(ScopeIntersect(requested, allowed), Split(requested), allowed)
    ensures ScopeIntersect(requested, allowed) != ""
  {
    var words := Split(requested);
    var kept := Keep(words, Elems(allowed));
    var x :| x in words && x in allowed;
    assert x in kept;
    KeptPlaces(words, allowed, |words|);
    assert words[..|words|] == words;
    forall w | w in kept ensures IsToken(w) {
      assert w in words;
    }
    SplitJoinTokens(kept);
    hide Split, AllowedBefore, IsToken, Keep;
    assert ScopeIntersect(requested, allowed) == Join(" ", kept);
    if Join(" ", kept) == "" {
      NothingSplit();
    }
  }

  lemma NothingSplit()
    ensures Split("") == []
  {
  }

  lemma FallbackIsLeast(allowed: seq<string>)
    requires allowed != []
    ensures LeastOf(Fallback(allowed), allowed)
  {
    assert allowed[0] in Elems(allowed);
    var listed := Sorted(Elems(allowed));
    assert listed[0] in Elems(listed);
    forall y | y in allowed ensures Leq(listed[0], y) {
      assert y in Elems(listed);
      var j :| 0 <= j < |listed| && listed[j] == y;
      LeqTotal(y, y);
    }
  }

  /** The scope of a client acting for itself: the allowed words of its request; if there are none the least
      allowed entry, and if that is empty all entries in ascending order. */
  lemma ClientScopeExactly(requested: string, allowed: seq<string>)
    ensures var scope := ClientScope(requested, allowed);
            if exists x :: x in Split(requested) && x in allowed then KeptInOrder(scope, Split(requested), allowed)
            else if allowed == [] then scope == ""
            else if "" in allowed then scope == Join(" ", Sorted(Elems(allowed)))
            else LeastOf(scope, allowed)
  {
    if exists x :: x in Split(requested) && x in allowed {
      KeptScope(requested, allowed);
      hide KeptInOrder, ScopeIntersect;
    } else {
      NothingKept(requested, allowed);
      if allowed == [] {
        NoScopes(allowed);
      } else {
        FallbackIsLeast(allowed);
        EmptyFallback(allowed);
        hide ScopeIntersect, Fallback, Leq, Sorted;
      }
    }
  }

  lemma NothingKept(requested: string, allowed: seq<string>)
    requires !exists x :: x in Split(requested) && x in allowed
    ensures ScopeIntersect(requested, allowed) == if allowed == [] then "" else Fallback(allowed)
  {
    KeepsSome(Split(requested), Elems(allowed));
    hide Split, Keep;
  }

  lemma KeepsSome(words: seq<string>, allow: set<string>)
    ensures Keep(words, allow) != [] ==> exists x :: x in words && x in allow
  {
    var kept := Keep(words, allow);
    if kept != [] {
      assert kept[0] in kept;
    }
  }
}
