/** The substring test by which the operator decides whether a namespace's service account is already on the
    user list of the SecurityContextConstraints. */
module Matching {
  import opened Objects

  /** strings.Contains. */
  predicate Contains(s: string, t: string) {
    exists i :: 0 <= i <= |s| && OccursAt(s, t, i)
  }

  predicate OccursAt(s: string, t: string, i: nat) {
    i + |t| <= |s| && s[i..i + |t|] == t
  }

  predicate MatchesUser(user: string, ns: string) {
    Contains(user, ns + ":" + ACCOUNT_NAME)
  }

  predicate Matched(users: seq<string>, ns: string) {
    exists i :: 0 <= i < |users| && MatchesUser(users[i], ns)
  }

  // ---------------------------------------------------------------- what the test means

  predicate ColonFree(s: string) {
    forall i :: 0 <= i < |s| ==> s[i] != ':'
  }

  /** A namespace name is a non-empty label without colons (section 2.1 of RFC 1123). */
  predicate IsNamespace(s: string) {
    s != "" && ColonFree(s)
  }

  predicate HasSuffix(s: string, t: string) {
    |t| <= |s| && s[|s| - |t|..] == t
  }

  predicate HasPrefix(s: string, t: string) {
    |t| <= |s| && s[..|t|] == t
  }

  /** The entry of namespace `other` makes the test for `ns` succeed. */
  predicate Covers(other: string, ns: string) {
    CoversEntry(other, ACCOUNT_NAME, ns)
  }

  /** The user name of a service account. */
  function Entry(ns: string, account: string): string {
    "system:serviceaccount:" + ns + ":" + account
  }

  /** The entry of any account of namespace `other` makes the test for `ns` succeed. */
  predicate CoversEntry(other: string, account: string, ns: string) {
    || (HasSuffix(other, ns) && HasPrefix(account, ACCOUNT_NAME))
    || (HasSuffix("serviceaccount", ns) && HasPrefix(other, ACCOUNT_NAME))
  }

  /** The colon of the pattern meets the one at `c`. */
  predicate MeetsAt(user: string, ns: string, c: nat) {
    c < |user| && user[c] == ':' && HasSuffix(user[..c], ns) && HasPrefix(user[c + 1..], ACCOUNT_NAME)
  }

  /** The meaning of the test for any user at all: some colon has the namespace before it and the account name
      behind it. */
  lemma MatchesAtColon(user: string, ns: string)
    ensures MatchesUser(user, ns) <==> exists c: nat :: MeetsAt(user, ns, c)
  {
    if i :| 0 <= i <= |user| && OccursAt(user, ns + ":" + ACCOUNT_NAME, i) {
      OccursMeets(user, ns, i);
      assert MeetsAt(user, ns, i + |ns|);
    }
    if c: nat :| MeetsAt(user, ns, c) {
      MeetsOccurs(user, ns, c);
      assert OccursAt(user, ns + ":" + ACCOUNT_NAME, c - |ns|);
    }
  }

  lemma OccursMeets(user: string, ns: string, i: nat)
    requires OccursAt(user, ns + ":" + ACCOUNT_NAME, i)
    ensures MeetsAt(user, ns, i + |ns|)
  {
    var pattern, c := ns + ":" + ACCOUNT_NAME, i + |ns|;
    var found := user[i..i + |pattern|];
    assert pattern[..|ns|] == ns && pattern[|ns|] == ':' && pattern[|ns| + 1..] == ACCOUNT_NAME;
    assert user[..c][i..] == user[i..c] == found[..|ns|];
    assert user[c] == found[|ns|];
    var end := c + 1 + |ACCOUNT_NAME|;
    assert user[c + 1..][..|ACCOUNT_NAME|] == user[c + 1..end] == found[|ns| + 1..];
  }

  lemma MeetsOccurs(user: string, ns: string, c: nat)
    requires MeetsAt(user, ns, c)
    ensures |ns| <= c && OccursAt(user, ns + ":" + ACCOUNT_NAME, c - |ns|)
  {
    var i := c - |ns|;
    assert user[i..c] == user[..c][|user[..c]| - |ns|..] == ns;
    assert user[c + 1..c + 1 + |ACCOUNT_NAME|] == user[c + 1..][..|ACCOUNT_NAME|] == ACCOUNT_NAME;
    assert user[i..c + 1 + |ACCOUNT_NAME|] == user[i..c] + [user[c]] + user[c + 1..c + 1 + |ACCOUNT_NAME|];
  }

  lemma SuffixAcross(x: string, n: string, ns: string)
    requires ColonFree(ns)
    ensures HasSuffix(x + ":" + n, ns) <==> HasSuffix(n, ns)
  {
    var s := x + ":" + n;
    if |ns| <= |n| {
      assert s[|s| - |ns|..] == n[|n| - |ns|..];
    } else if |ns| <= |s| {
      assert s[|s| - |ns|..][|ns| - |n| - 1] == s[|x|] == ':';
    }
  }

  lemma PrefixAcross(n: string, y: string, p: string)
    requires ColonFree(p)
    ensures HasPrefix(n + ":" + y, p) <==> HasPrefix(n, p)
  {
    var s := n + ":" + y;
    if |p| <= |n| {
      assert s[..|p|] == n[..|p|];
    } else if |p| <= |s| {
      assert s[..|p|][|n|] == s[|n|] == ':';
    }
  }

  lemma MeetsBehind(head: string, rest: string, ns: string, c: nat)
    requires ColonFree(ns)
    ensures MeetsAt(head + ":" + rest, ns, |head| + 1 + c) <==> MeetsAt(rest, ns, c)
  {
    var user, k := head + ":" + rest, |head| + 1 + c;
    if c < |rest| {
      assert user[..k] == head + ":" + rest[..c] && user[k + 1..] == rest[c + 1..];
      SuffixAcross(head, rest[..c], ns);
    }
  }

  lemma MeetsBetween(head: string, rest: string, ns: string, c: nat)
    requires ColonFree(head) && c <= |head|
    ensures MeetsAt(head + ":" + rest, ns, c) <==> c == |head| && HasSuffix(head, ns) && HasPrefix(rest, ACCOUNT_NAME)
  {
    var user := head + ":" + rest;
    assert user[..|head|] == head && user[|head| + 1..] == rest;
    assert c < |head| ==> user[c] == head[c];
  }

  /** The test, segment by segment: it succeeds at the first colon or behind it. */
  lemma MatchesSegments(head: string, rest: string, ns: string)
    requires ColonFree(head) && ColonFree(ns)
    ensures MatchesUser(head + ":" + rest, ns) <==>
            (HasSuffix(head, ns) && HasPrefix(rest, ACCOUNT_NAME)) || MatchesUser(rest, ns)
  {
    hide MatchesUser, MeetsAt, HasSuffix, HasPrefix;
    var user := head + ":" + rest;
    MatchesAtColon(user, ns);
    MatchesAtColon(rest, ns);
    MeetsBetween(head, rest, ns, |head|);
    if c: nat :| MeetsAt(user, ns, c) {
      if c <= |head| {
        MeetsBetween(head, rest, ns, c);
      } else {
        MeetsBehind(head, rest, ns, c - |head| - 1);
      }
    }
    if c: nat :| MeetsAt(rest, ns, c) {
      MeetsBehind(head, rest, ns, c);
    }
  }

  /** Ordinary users, without a colon, never match. */
  lemma ColonFreeNeverMatches(user: string, ns: string)
    requires ColonFree(user)
    ensures !MatchesUser(user, ns)
  {
    MatchesAtColon(user, ns);
  }

  /** The exact meaning of the test on the entry of any service account. */
  lemma EntryMeaning(n: string, account: string, ns: string)
    requires ColonFree(n) && ColonFree(account) && ColonFree(ns)
    ensures MatchesUser(Entry(n, account), ns) <==> CoversEntry(n, account, ns)
  {
    hide MatchesUser, HasSuffix;
    var last := n + ":" + account;
    assert Entry(n, account) == "system" + ":" + ("serviceaccount" + ":" + last);
    MatchesSegments("system", "serviceaccount" + ":" + last, ns);
    assert ("serviceaccount" + ":" + last)[0] == 's' && ACCOUNT_NAME[0] == 'n';
    NotPrefix("serviceaccount" + ":" + last);
    MatchesSegments("serviceaccount", last, ns);
    PrefixAcross(n, account, ACCOUNT_NAME);
    MatchesSegments(n, account, ns);
    ColonFreeNeverMatches(account, ns);
  }

  lemma NotPrefix(s: string)
    requires s != "" && s[0] == 's'
    ensures !HasPrefix(s, ACCOUNT_NAME)
  {
    assert ACCOUNT_NAME[0] == 'n';
    if |ACCOUNT_NAME| <= |s| {
      assert s[..|ACCOUNT_NAME|][0] == s[0];
    }
  }

  lemma AccountIsEntry(n: string)
    ensures Account(n) == Entry(n, ACCOUNT_NAME)
  {
  }

  /** The exact meaning of the test on the entry of a namespace's own account: it asks for a suffix, not for
      equality. */
  lemma MatchMeaning(n: string, ns: string)
    requires ColonFree(n) && ColonFree(ns)
    ensures MatchesUser(Account(n), ns) <==> Covers(n, ns)
  {
    AccountIsEntry(n);
    EntryMeaning(n, ACCOUNT_NAME, ns);
  }

  lemma LongerMatches(x: string, n: string, y: string, ns: string)
    ensures HasSuffix(n, ns) ==> HasSuffix(x + n, ns)
    ensures HasPrefix(n, ns) ==> HasPrefix(n + y, ns)
  {
    if |ns| <= |n| {
      assert (x + n)[|x + n| - |ns|..] == n[|n| - |ns|..];
      assert (n + y)[..|ns|] == n[..|ns|];
    }
  }

  /** Colons or not, what stands on both sides of a colon matches. */
  lemma SidesMatch(head: string, rest: string, ns: string)
    requires HasSuffix(head, ns) && HasPrefix(rest, ACCOUNT_NAME)
    ensures MatchesUser(head + ":" + rest, ns)
  {
    var user := head + ":" + rest;
    MatchesAtColon(user, ns);
    assert user[..|head|] == head && user[|head| + 1..] == rest;
    assert MeetsAt(user, ns, |head|);
  }

  /** Either way of covering makes the test succeed for any strings. */
  lemma CoversMatch(n: string, ns: string)
    requires Covers(n, ns)
    ensures MatchesUser(Account(n), ns)
  {
    hide MatchesUser, HasSuffix, HasPrefix;
    if HasSuffix(n, ns) && HasPrefix(ACCOUNT_NAME, ACCOUNT_NAME) {
      LongerMatches("system:serviceaccount:", n, "", ns);
      SidesMatch("system:serviceaccount:" + n, ACCOUNT_NAME, ns);
      assert Account(n) == ("system:serviceaccount:" + n) + ":" + ACCOUNT_NAME;
    } else {
      LongerMatches("system:", "serviceaccount", "", ns);
      LongerMatches("", n, ":" + ACCOUNT_NAME, ACCOUNT_NAME);
      SidesMatch("system:" + "serviceaccount", n + (":" + ACCOUNT_NAME), ns);
      assert Account(n) == ("system:" + "serviceaccount") + ":" + (n + (":" + ACCOUNT_NAME));
    }
  }
}
