/** The order in which the store's iterator visits keys: strict bytewise
    (lexicographic) order, a proper prefix before its extensions. A full scan
    (`SeekToFirst`, then `Next` while `Valid`) visits the keys of the store
    exactly once each, least first; `Ascending` is that visiting order. */
module KeyOrder {
  import opened Common

  predicate Below(a: Bytes, b: Bytes)
    decreases |a|
  {
    |b| > 0 && (|a| == 0 || a[0] < b[0] || (a[0] == b[0] && Below(a[1..], b[1..])))
  }

  lemma {:induction false} BelowIrreflexive(a: Bytes)
    ensures !Below(a, a)
  {
    if |a| > 0 {
      BelowIrreflexive(a[1..]);
    }
  }

  lemma {:induction false} BelowTransitive(a: Bytes, b: Bytes, c: Bytes)
    requires Below(a, b) && Below(b, c)
    ensures Below(a, c)
  {
    if |a| > 0 && a[0] == b[0] && b[0] == c[0] {
      BelowTransitive(a[1..], b[1..], c[1..]);
    }
  }

  lemma {:induction false} BelowTotal(a: Bytes, b: Bytes)
    ensures a == b || Below(a, b) || Below(b, a)
  {
    if |a| > 0 && |b| > 0 && a[0] == b[0] {
      BelowTotal(a[1..], b[1..]);
      if a[1..] == b[1..] {
        assert a == [a[0]] + a[1..] && b == [b[0]] + b[1..];
      }
    }
  }

  /** `m` is the key of `s` the iterator reaches first. */
  predicate IsLeast(m: Bytes, s: set<Bytes>) {
    m in s && forall k | k in s && k != m :: Below(m, k)
  }

  lemma {:induction false} LeastExists(s: set<Bytes>)
    requires s != {}
    ensures exists m :: IsLeast(m, s)
    decreases s
  {
    var x :| x in s;
    if s == {x} {
      assert IsLeast(x, s);
    } else {
      var rest := s - {x};
      LeastExists(rest);
      var m :| IsLeast(m, rest);
      BelowTotal(m, x);
      if Below(m, x) {
        assert IsLeast(m, s);
      } else {
        forall k | k in s && k != x
          ensures Below(x, k)
        {
          if k != m {
            BelowTransitive(x, m, k);
          }
        }
        assert IsLeast(x, s);
      }
    }
  }

  lemma LeastUnique(m1: Bytes, m2: Bytes, s: set<Bytes>)
    requires IsLeast(m1, s) && IsLeast(m2, s)
    ensures m1 == m2
  {
    if m1 != m2 {
      BelowTransitive(m1, m2, m1);
      BelowIrreflexive(m1);
    }
  }

  ghost function Least(s: set<Bytes>): (m: Bytes)
    requires s != {}
    ensures m in s
  {
    LeastExists(s);
    var m :| IsLeast(m, s);
    m
  }

  /** `Least` picks the key of `s` the iterator reaches first. */
  lemma LeastIsLeast(s: set<Bytes>)
    requires s != {}
    ensures IsLeast(Least(s), s)
  {
    LeastExists(s);
  }

  /** The keys of `s` in the order a full scan visits them. */
  ghost function Ascending(s: set<Bytes>): seq<Bytes>
    decreases s
  {
    if s == {} then [] else [Least(s)] + Ascending(s - {Least(s)})
  }

  /** A full scan visits every key of the store once, and in strictly ascending order. */
  lemma {:induction false} AscendingSpec(s: set<Bytes>)
    ensures |Ascending(s)| == |s|
    ensures forall k :: k in Ascending(s) <==> k in s
    ensures forall i, j :: 0 <= i < j < |Ascending(s)| ==> Below(Ascending(s)[i], Ascending(s)[j])
    decreases s
  {
    if s != {} {
      var m := Least(s);
      var rest := s - {m};
      LeastIsLeast(s);
      AscendingSpec(rest);
      var r := Ascending(s);
      assert r == [m] + Ascending(rest);
      assert |rest| == |s| - 1;
      forall i, j | 0 <= i < j < |r|
        ensures Below(r[i], r[j])
      {
        assert r[j] == Ascending(rest)[j - 1];
        if i > 0 {
          assert r[i] == Ascending(rest)[i - 1];
        }
      }
    }
  }

  /** Moving the least remaining key to the visited prefix keeps the visiting order. */
  lemma AscendingStep(visited: seq<Bytes>, remaining: set<Bytes>, key: Bytes)
    requires remaining != {} && key == Least(remaining)
    ensures visited + Ascending(remaining) == (visited + [key]) + Ascending(remaining - {key})
  {
    assert Ascending(remaining) == [key] + Ascending(remaining - {key});
  }

  /** Positions the iterator on the next key: the least key not yet visited. */
  method SeekLeast(remaining: set<Bytes>) returns (key: Bytes)
    requires remaining != {}
    ensures key in remaining && key == Least(remaining)
  {
    LeastExists(remaining);
    key :| key in remaining && IsLeast(key, remaining);
    LeastIsLeast(remaining);
    LeastUnique(key, Least(remaining), remaining);
  }
}
