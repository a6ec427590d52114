/** Host names with a leading wildcard, compared as the sets of hosts they stand for. */
module Host {

  type Name = string

  predicate IsWildCarded(n: Name) {
    |n| > 0 && n[0] == '*'
  }

  predicate HasSuffix(s: string, suffix: string) {
    |suffix| <= |s| && s[|s| - |suffix|..] == suffix
  }

  lemma SuffixIff(s: string, suffix: string)
    ensures HasSuffix(s, suffix) <==> exists front :: s == front + suffix
  {
    if HasSuffix(s, suffix) {
      assert s == s[..|s| - |suffix|] + suffix;
    }
  }

  predicate Matches(n: Name, o: Name) {
    if IsWildCarded(n) then
      if IsWildCarded(o) then
        if |n| < |o| then HasSuffix(o[1..], n[1..]) else HasSuffix(n[1..], o[1..])
      else HasSuffix(o, n[1..])
    else if IsWildCarded(o) then HasSuffix(n, o[1..])
    else n == o
  }

  predicate SubsetOf(n: Name, o: Name) {
    if IsWildCarded(n) then IsWildCarded(o) && |n| >= |o| && HasSuffix(n[1..], o[1..])
    else if IsWildCarded(o) then HasSuffix(n, o[1..])
    else n == o
  }

  /** The concrete hosts a name stands for: itself, or all that end in what follows the star. */
  predicate Denotes(n: Name, host: string) {
    !IsWildCarded(host) && if IsWildCarded(n) then HasSuffix(host, n[1..]) else host == n
  }

  lemma SuffixOfSuffix(s: string, t: string, u: string)
    requires HasSuffix(s, t) && HasSuffix(t, u)
    ensures HasSuffix(s, u)
  {
    assert s[|s| - |u|..] == s[|s| - |t|..][|t| - |u|..];
  }

  lemma SuffixesNest(s: string, t: string, u: string)
    requires HasSuffix(s, t) && HasSuffix(s, u) && |u| <= |t|
    ensures HasSuffix(t, u)
  {
    assert s[|s| - |u|..] == s[|s| - |t|..][|t| - |u|..];
  }

  /** Two hosts that end in s and share no longer ending. */
  lemma Witnesses(s: string)
    ensures HasSuffix("x" + s, s) && HasSuffix("y" + s, s)
    ensures !IsWildCarded("x" + s) && !IsWildCarded("y" + s)
    ensures forall t :: HasSuffix("x" + s, t) && HasSuffix("y" + s, t) ==> |t| <= |s|
  {
    assert ("x" + s)[0] != ("y" + s)[0];
  }

  /** One name is a subset of the other exactly when every host it stands for is among the other's. */
  lemma SubsetIffIncluded(n: Name, o: Name)
    ensures SubsetOf(n, o) <==> forall host :: Denotes(n, host) ==> Denotes(o, host)
  {
    if SubsetOf(n, o) {
      forall host | Denotes(n, host) ensures Denotes(o, host) {
        if IsWildCarded(n) {
          SuffixOfSuffix(host, n[1..], o[1..]);
        }
      }
    } else if IsWildCarded(n) {
      var s := n[1..];
      Witnesses(s);
      if Denotes(o, "x" + s) && Denotes(o, "y" + s) {
        assert "x" + s != "y" + s by {
          assert ("x" + s)[0] != ("y" + s)[0];
        }
        SuffixesNest("x" + s, s, o[1..]);
      }
      assert Denotes(n, "x" + s) && Denotes(n, "y" + s);
    } else {
      assert Denotes(n, n) && !Denotes(o, n);
    }
  }

  /** Two names match exactly when some host is among both; so the order does not matter. */
  lemma MatchesIffIntersect(n: Name, o: Name)
    ensures Matches(n, o) <==> exists host :: Denotes(n, host) && Denotes(o, host)
    ensures Matches(n, o) == Matches(o, n)
  {
    MatchesHasWitness(n, o);
    MatchesHasWitness(o, n);
    if host :| Denotes(n, host) && Denotes(o, host) {
      WitnessMatches(n, o, host);
      WitnessMatches(o, n, host);
    }
  }

  lemma MatchesHasWitness(n: Name, o: Name)
    ensures Matches(n, o) ==> exists host :: Denotes(n, host) && Denotes(o, host)
  {
    if Matches(n, o) {
      if IsWildCarded(n) && IsWildCarded(o) {
        var long, short := if |n| < |o| then o[1..] else n[1..], if |n| < |o| then n[1..] else o[1..];
        Witnesses(long);
        SuffixOfSuffix("x" + long, long, short);
        assert Denotes(n, "x" + long) && Denotes(o, "x" + long);
      } else if IsWildCarded(n) {
        assert Denotes(n, o) && Denotes(o, o);
      } else {
        assert Denotes(n, n) && Denotes(o, n);
      }
    }
  }

  lemma WitnessMatches(n: Name, o: Name, host: string)
    requires Denotes(n, host) && Denotes(o, host)
    ensures Matches(n, o)
  {
    if IsWildCarded(n) && IsWildCarded(o) {
      if |n| < |o| {
        SuffixesNest(host, o[1..], n[1..]);
      } else {
        SuffixesNest(host, n[1..], o[1..]);
      }
    }
  }
}
