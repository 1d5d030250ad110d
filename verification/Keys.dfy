/** Warm-pool keys under the derived lexicographic order, which fixes the order in which the
    warm-pool map is iterated. */
module Keys {

  datatype WarmPoolKey = WarmPoolKey(repo: string, template: string, runtimeProfile: string)

  /** `a` and `b` agree before position `n`, where `a` ends or has the smaller character. */
  predicate LessAt(a: string, b: string, n: nat) {
    && n <= |a| && n < |b|
    && a[..n] == b[..n]
    && (n == |a| || a[n] < b[n])
  }

  /** Strict lexicographic order on strings by code point (the same order as UTF-8 bytes). */
  predicate StringLess(a: string, b: string) {
    exists n | 0 <= n < |b| :: LessAt(a, b, n)
  }

  predicate KeyLess(a: WarmPoolKey, b: WarmPoolKey) {
    || StringLess(a.repo, b.repo)
    || (a.repo == b.repo && StringLess(a.template, b.template))
    || (a.repo == b.repo && a.template == b.template && StringLess(a.runtimeProfile, b.runtimeProfile))
  }

  lemma {:induction false} StringTransitive(a: string, b: string, c: string)
    requires StringLess(a, b) && StringLess(b, c)
    ensures StringLess(a, c)
  {
    var m :| 0 <= m < |b| && LessAt(a, b, m);
    var n :| 0 <= n < |c| && LessAt(b, c, n);
    var least := if m < n then m else n;
    assert a[..least] == a[..m][..least] && b[..least] == b[..m][..least] == b[..n][..least];
    assert c[..least] == c[..n][..least];
    if m < n {
      assert b[m] == b[..n][m] == c[..n][m];
    } else if n < m {
      assert a[n] == a[..m][n] == b[..m][n];
    }
    assert LessAt(a, c, least);
  }

  lemma {:induction false} StringTotal(a: string, b: string)
    ensures a == b || StringLess(a, b) || StringLess(b, a)
  {
    var n := 0;
    while n < |a| && n < |b| && a[n] == b[n]
      invariant n <= |a| && n <= |b| && a[..n] == b[..n]
    {
      n := n + 1;
    }
    if n < |b| && (n == |a| || a[n] < b[n]) {
      assert LessAt(a, b, n);
    } else if n < |a| {
      assert LessAt(b, a, n);
    }
  }

  // ---------- which order it is ----------

  /** A text comes before every longer text that it starts. */
  lemma {:induction false} PrefixComesFirst(a: string, b: string)
    requires a < b
    ensures StringLess(a, b) && !StringLess(b, a)
  {
    assert LessAt(a, b, |a|);
    forall n | 0 <= n < |a| ensures !LessAt(b, a, n) {
      assert b[n] == a[n];
    }
  }

  /** Texts that agree before position `n` and differ there compare as their characters at `n` do. */
  lemma {:induction false} FirstDifferenceDecides(a: string, b: string, n: nat)
    requires n < |a| && n < |b| && a[..n] == b[..n] && a[n] != b[n]
    ensures StringLess(a, b) <==> a[n] < b[n]
  {
    if a[n] < b[n] {
      assert LessAt(a, b, n);
    } else {
      forall m | 0 <= m < |b| ensures !LessAt(a, b, m) {
        if m < n {
          assert a[m] == a[..n][m] && b[m] == b[..n][m];
        } else if n < m <= |a| {
          assert a[..m][n] == a[n] && b[..m][n] == b[n];
        }
      }
    }
  }

  /** `b` is not before `a`, read off the fields: the first of repository, template and runtime profile in
      which the keys differ decides. */
  ghost predicate InFieldOrder(a: WarmPoolKey, b: WarmPoolKey) {
    && !StringLess(b.repo, a.repo)
    && (a.repo == b.repo ==> !StringLess(b.template, a.template))
    && (a.repo == b.repo && a.template == b.template ==> !StringLess(b.runtimeProfile, a.runtimeProfile))
  }

  /** The key order is the order of the fields, in both directions. */
  lemma {:induction false} KeysAreInFieldOrder(a: WarmPoolKey, b: WarmPoolKey)
    ensures InFieldOrder(a, b) <==> a == b || KeyLess(a, b)
  {
    KeyTotal(a, b);
    StringTotal(a.repo, b.repo);
    StringTotal(a.template, b.template);
    StringTotal(a.runtimeProfile, b.runtimeProfile);
    NotBothLess(a.repo, b.repo);
    NotBothLess(a.template, b.template);
    NotBothLess(a.runtimeProfile, b.runtimeProfile);
  }

  lemma {:induction false} NotBothLess(a: string, b: string)
    ensures !(StringLess(a, b) && StringLess(b, a))
    ensures a == b ==> !StringLess(a, b)
  {
    if StringLess(a, b) && StringLess(b, a) {
      StringTransitive(a, b, a);
    }
  }

  lemma {:induction false} KeyIrreflexive(a: WarmPoolKey)
    ensures !KeyLess(a, a)
  {
  }

  lemma {:induction false} KeyTransitive(a: WarmPoolKey, b: WarmPoolKey, c: WarmPoolKey)
    requires KeyLess(a, b) && KeyLess(b, c)
    ensures KeyLess(a, c)
  {
    if StringLess(a.repo, b.repo) && StringLess(b.repo, c.repo) {
      StringTransitive(a.repo, b.repo, c.repo);
    }
    if StringLess(a.template, b.template) && StringLess(b.template, c.template) {
      StringTransitive(a.template, b.template, c.template);
    }
    if StringLess(a.runtimeProfile, b.runtimeProfile) && StringLess(b.runtimeProfile, c.runtimeProfile) {
      StringTransitive(a.runtimeProfile, b.runtimeProfile, c.runtimeProfile);
    }
  }

  lemma {:induction false} KeyTotal(a: WarmPoolKey, b: WarmPoolKey)
    ensures a == b || KeyLess(a, b) || KeyLess(b, a)
  {
    StringTotal(a.repo, b.repo);
    StringTotal(a.template, b.template);
    StringTotal(a.runtimeProfile, b.runtimeProfile);
  }
}
