/** File names and the order `std::string` gives them, which is the order of
    every `std::set<TreeNode>` in the program. */
module Names {

  type Name = string

  /** Lexicographic order on names. */
  predicate Less(a: Name, b: Name) {
    b != [] && (a == [] || a[0] < b[0] || (a[0] == b[0] && Less(a[1..], b[1..])))
  }

  lemma {:induction false} LessIrreflexive(a: Name)
    ensures !Less(a, a)
  {
    if a == [] {
    } else {
      LessIrreflexive(a[1..]);
    }
  }

  lemma {:induction false} LessTransitive(a: Name, b: Name, c: Name)
    requires Less(a, b) && Less(b, c)
    ensures Less(a, c)
  {
    if a != [] && a[0] == b[0] == c[0] {
      LessTransitive(a[1..], b[1..], c[1..]);
    }
  }

  lemma {:induction false} LessTotal(a: Name, b: Name)
    ensures a == b || Less(a, b) || Less(b, a)
  {
    if a != [] && b != [] && a[0] == b[0] {
      LessTotal(a[1..], b[1..]);
      assert a[1..] == b[1..] ==> a == [a[0]] + a[1..] == [b[0]] + b[1..] == b;
    }
  }

  lemma LessAsymmetric(a: Name, b: Name)
    requires Less(a, b)
    ensures a != b && !Less(b, a)
  {
    LessIrreflexive(a);
    if Less(b, a) {
      LessTransitive(a, b, a);
    }
  }

  /** The first difference decides. */
  lemma {:induction false} FirstDifference(p: Name, x: char, s: Name, y: char, t: Name)
    requires x != y
    ensures Less(p + [x] + s, p + [y] + t) <==> x < y
  {
    if p == [] {
      assert ([] + [x] + s)[0] == x && ([] + [y] + t)[0] == y;
    } else {
      FirstDifference(p[1..], x, s, y, t);
      assert (p + [x] + s)[1..] == p[1..] + [x] + s && (p + [y] + t)[1..] == p[1..] + [y] + t;
    }
  }

  /** Without a difference the shorter name comes first. */
  lemma {:induction false} PrefixFirst(p: Name, s: Name)
    ensures Less(p, p + s) <==> s != []
    ensures !Less(p + s, p)
  {
    if p == [] {
    } else {
      PrefixFirst(p[1..], s);
      assert (p + s)[1..] == p[1..] + s;
    }
  }

  /** The names agree before position `k`, and there `a` has the smaller character. */
  predicate SmallerAt(a: Name, b: Name, k: nat) {
    k < |a| && k < |b| && a[..k] == b[..k] && a[k] < b[k]
  }

  /** Both together: exactly the lexicographic order. */
  lemma Lexicographic(a: Name, b: Name)
    ensures Less(a, b) <==> a < b || exists k: nat :: SmallerAt(a, b, k)
  {
    if a < b {
      PrefixFirst(a, b[|a|..]);
      assert a + b[|a|..] == b;
    } else if k: nat :| SmallerAt(a, b, k) {
      FirstDifference(a[..k], a[k], a[k + 1..], b[k], b[k + 1..]);
      assert a[..k] + [a[k]] + a[k + 1..] == a && b[..k] + [b[k]] + b[k + 1..] == b;
    } else if Less(a, b) {
      SmallerSomewhere(a, b);
    }
  }

  lemma {:induction false} SmallerSomewhere(a: Name, b: Name)
    requires Less(a, b)
    ensures a < b || exists k: nat :: SmallerAt(a, b, k)
  {
    if a == [] {
    } else if a[0] < b[0] {
      assert SmallerAt(a, b, 0);
    } else {
      SmallerSomewhere(a[1..], b[1..]);
      assert a == [a[0]] + a[1..] && b == [b[0]] + b[1..];
      if k: nat :| SmallerAt(a[1..], b[1..], k) {
        assert a[..k + 1] == [a[0]] + a[1..][..k] && b[..k + 1] == [b[0]] + b[1..][..k];
        assert SmallerAt(a, b, k + 1);
      }
    }
  }
}
