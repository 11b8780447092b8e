/** String comparison as Kotlin performs it, and the key order in which the
    backend returns documents and child nodes. */
module Strings {

  /** Kotlin's `s.startsWith(prefix)`. */
  predicate StartsWith(s: string, prefix: string) {
    |prefix| <= |s| && s[..|prefix|] == prefix
  }

  /** Kotlin's `a < b` on strings, that is `a.compareTo(b) < 0`:
      lexicographic order on characters, a proper prefix first. */
  predicate LexLess(a: string, b: string) {
    if |a| == 0 then |b| > 0
    else if |b| == 0 then false
    else if a[0] != b[0] then a[0] < b[0]
    else LexLess(a[1..], b[1..])
  }

  lemma {:induction false} LexLessIrreflexive(a: string)
    ensures !LexLess(a, a)
  {
    if |a| > 0 {
      LexLessIrreflexive(a[1..]);
    }
  }

  lemma {:induction false} LexLessAsymmetric(a: string, b: string)
    ensures LexLess(a, b) ==> !LexLess(b, a)
  {
    if |a| > 0 && |b| > 0 && a[0] == b[0] {
      LexLessAsymmetric(a[1..], b[1..]);
    }
  }

  lemma {:induction false} LexLessTransitive(a: string, b: string, c: string)
    requires LexLess(a, b) && LexLess(b, c)
    ensures LexLess(a, c)
  {
    if |a| > 0 && a[0] == b[0] && b[0] == c[0] {
      LexLessTransitive(a[1..], b[1..], c[1..]);
    }
  }

  /** Two different strings are always ordered one way or the other. */
  lemma {:induction false} LexLessTotal(a: string, b: string)
    ensures a == b || LexLess(a, b) || LexLess(b, a)
  {
    if |a| > 0 && |b| > 0 && a[0] == b[0] {
      LexLessTotal(a[1..], b[1..]);
      if a[1..] == b[1..] {
        assert a == [a[0]] + a[1..] && b == [b[0]] + b[1..];
      }
    }
  }

  /** At index `k` the two strings first differ, and `a` has the smaller character. */
  predicate DiffersLowerAt(a: string, b: string, k: int) {
    0 <= k < |a| && k < |b| && a[..k] == b[..k] && a[k] < b[k]
  }

  /** LexLess is the order `compareTo` documents: `a` is a proper prefix of
      `b`, or `a` has the smaller character where they first differ. */
  lemma {:induction false} LexLessIsCompareTo(a: string, b: string)
    ensures LexLess(a, b) <==> (|a| < |b| && b[..|a|] == a) || exists k :: DiffersLowerAt(a, b, k)
  {
    if |a| == 0 || |b| == 0 {
    } else if a[0] != b[0] {
      if LexLess(a, b) {
        assert DiffersLowerAt(a, b, 0);
      }
      forall k | DiffersLowerAt(a, b, k)
        ensures a[0] < b[0]
      {
        if k > 0 {
          assert a[..k][0] == b[..k][0];
        }
      }
      if |a| < |b| {
        assert b[..|a|][0] != a[0];
      }
    } else {
      var a', b' := a[1..], b[1..];
      LexLessIsCompareTo(a', b');
      if |a| < |b| {
        assert b[..|a|] == [b[0]] + b'[..|a'|];
        assert a == [a[0]] + a';
      }
      if exists k :: DiffersLowerAt(a', b', k) {
        var k :| DiffersLowerAt(a', b', k);
        assert a[..k + 1] == [a[0]] + a'[..k];
        assert b[..k + 1] == [b[0]] + b'[..k];
        assert DiffersLowerAt(a, b, k + 1);
      }
      if exists k :: DiffersLowerAt(a, b, k) {
        var k :| DiffersLowerAt(a, b, k);
        assert k > 0;
        assert a'[..k - 1] == a[..k][1..];
        assert b'[..k - 1] == b[..k][1..];
        assert DiffersLowerAt(a', b', k - 1);
      }
    }
  }

  predicate StrictlyAscending(ks: seq<string>) {
    forall i, j :: 0 <= i < j < |ks| ==> LexLess(ks[i], ks[j])
  }

  /** The smallest key of a non-empty set. */
  method LeastOf(s: set<string>) returns (m: string)
    requires s != {}
    ensures m in s
    ensures forall k :: k in s && k != m ==> LexLess(m, k)
  {
    m :| m in s;
    var rest := s - {m};
    while rest != {}
      invariant rest <= s && m in s && m !in rest
      invariant forall k :: k in s && k !in rest && k != m ==> LexLess(m, k)
      decreases rest
    {
      var k :| k in rest;
      if LexLess(k, m) {
        forall j | j in s && j !in rest && j != m
          ensures LexLess(k, j)
        {
          LexLessTransitive(k, m, j);
        }
        LexLessIrreflexive(k);
        m := k;
      } else {
        LexLessTotal(k, m);
      }
      rest := rest - {k};
    }
  }

  /** The keys of a map in ascending order, each once: the order in which a
      Firestore query returns documents (by document id) and in which the
      Realtime Database returns the children of a node (by key). */
  method SortedKeys<V>(m: map<string, V>) returns (ks: seq<string>)
    ensures StrictlyAscending(ks)
    ensures forall k :: k in ks <==> k in m
  {
    ks := [];
    var rest := m.Keys;
    while rest != {}
      invariant rest <= m.Keys
      invariant forall k :: k in ks <==> k in m && k !in rest
      invariant StrictlyAscending(ks)
      invariant forall i, k :: 0 <= i < |ks| && k in rest ==> LexLess(ks[i], k)
      decreases rest
    {
      var k := LeastOf(rest);
      forall i, j | 0 <= i < |ks| && j in rest - {k}
        ensures LexLess(ks[i], j)
      {
      }
      ks := ks + [k];
      rest := rest - {k};
    }
  }
}
