/**
  Code-point lexicographic order on strings, as Python compares `str` values,
  and the ascending list of a finite set of keys that `sorted` produces.
 */
module StringOrder {

  /** `a` sorts strictly before `b`: a proper prefix, or smaller at the first difference. */
  predicate Less(a: string, b: string)
  {
    if |a| == 0 then |b| > 0
    else |b| > 0 && (a[0] < b[0] || (a[0] == b[0] && Less(a[1..], b[1..])))
  }

  lemma {:induction false} LessIrreflexive(a: string)
    ensures !Less(a, a)
  {
    if |a| > 0 {
      LessIrreflexive(a[1..]);
    }
  }

  lemma {:induction false} LessAsymmetric(a: string, b: string)
    ensures Less(a, b) ==> !Less(b, a)
  {
    if |a| > 0 && |b| > 0 && a[0] == b[0] {
      LessAsymmetric(a[1..], b[1..]);
    }
  }

  lemma {:induction false} LessTransitive(a: string, b: string, c: string)
    requires Less(a, b) && Less(b, c)
    ensures Less(a, c)
  {
    if |a| > 0 && a[0] == b[0] && b[0] == c[0] {
      LessTransitive(a[1..], b[1..], c[1..]);
    }
  }

  lemma {:induction false} LessTotal(a: string, b: string)
    requires a != b
    ensures Less(a, b) || Less(b, a)
  {
    if |a| > 0 && |b| > 0 && a[0] == b[0] {
      assert a == [a[0]] + a[1..] && b == [b[0]] + b[1..];
      LessTotal(a[1..], b[1..]);
    }
  }

  /** `m` is the smallest element of `keys`. */
  predicate IsLeast(m: string, keys: set<string>)
  {
    m in keys && forall k | k in keys && k != m :: Less(m, k)
  }

  lemma {:induction false} LeastExists(keys: set<string>)
    requires keys != {}
    ensures exists m :: IsLeast(m, keys)
    decreases |keys|
  {
    var k :| k in keys;
    if keys != {k} {
      var rest := keys - {k};
      LeastExists(rest);
      var m :| IsLeast(m, rest);
      if Less(k, m) {
        forall j | j in keys && j != k
          ensures Less(k, j)
        {
          if j != m {
            LessTransitive(k, m, j);
          }
        }
        assert IsLeast(k, keys);
      } else {
        LessTotal(k, m);
        assert IsLeast(m, keys);
      }
    } else {
      assert IsLeast(k, keys);
    }
  }

  lemma LeastUnique(keys: set<string>)
    ensures forall m, n | IsLeast(m, keys) && IsLeast(n, keys) :: m == n
  {
    forall m, n | IsLeast(m, keys) && IsLeast(n, keys)
      ensures m == n
    {
      if m != n {
        LessAsymmetric(m, n);
      }
    }
  }

  /** Every element sorts strictly before every later element. */
  ghost predicate StrictlyAscending(xs: seq<string>)
  {
    forall i, j | 0 <= i < j < |xs| :: Less(xs[i], xs[j])
  }

  lemma AscendingIsDistinct(xs: seq<string>)
    requires StrictlyAscending(xs)
    ensures forall i, j | 0 <= i < j < |xs| :: xs[i] != xs[j]
  {
    forall i, j | 0 <= i < j < |xs|
      ensures xs[i] != xs[j]
    {
      LessIrreflexive(xs[i]);
    }
  }

  /** The keys of a set in ascending order, each exactly once. */
  function SortedKeys(keys: set<string>): (xs: seq<string>)
    ensures StrictlyAscending(xs)
    ensures forall k :: k in xs <==> k in keys
    ensures |xs| == |keys|
    decreases |keys|
  {
    if keys == {} then []
    else
      LeastExists(keys);
      LeastUnique(keys);
      var m :| IsLeast(m, keys);
      var rest := SortedKeys(keys - {m});
      assert forall j | 0 <= j < |rest| :: rest[j] in keys - {m};
      [m] + rest
  }
}
