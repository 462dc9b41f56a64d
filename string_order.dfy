/**
 * The order in which Python's `sorted` puts strings (and the paths of one
 * directory): lexicographic by code point.
 */
module StringOrder {

  /** `a < b` on Python strings. */
  predicate Less(a: string, b: string) {
    if a == [] then b != []
    else if b == [] then false
    else a[0] < b[0] || (a[0] == b[0] && Less(a[1..], b[1..]))
  }

  lemma {:induction false} LessIrreflexive(a: string)
    ensures !Less(a, a)
  {
    if a != [] {
      LessIrreflexive(a[1..]);
    }
  }

  lemma {:induction false} LessAsymmetric(a: string, b: string)
    ensures !(Less(a, b) && Less(b, a))
  {
    if a != [] && b != [] && a[0] == b[0] {
      LessAsymmetric(a[1..], b[1..]);
    }
  }

  lemma {:induction false} LessTransitive(a: string, b: string, c: string)
    requires Less(a, b) && Less(b, c)
    ensures Less(a, c)
  {
    if a != [] && a[0] == b[0] && b[0] == c[0] {
      LessTransitive(a[1..], b[1..], c[1..]);
    }
  }

  lemma {:induction false} LessTotal(a: string, b: string)
    requires a != b
    ensures Less(a, b) || Less(b, a)
  {
    if a != [] && b != [] && a[0] == b[0] {
      assert a == [a[0]] + a[1..] && b == [b[0]] + b[1..];
      LessTotal(a[1..], b[1..]);
    }
  }

  /** `m` is the smallest element of `s`. */
  predicate IsLeast(m: string, s: set<string>) {
    m in s && forall y | y in s :: y == m || Less(m, y)
  }

  lemma {:induction false} LeastExists(s: set<string>)
    requires s != {}
    ensures exists m :: IsLeast(m, s)
    decreases |s|
  {
    var x :| x in s;
    if s == {x} {
      assert IsLeast(x, s);
    } else {
      LeastExists(s - {x});
      var m :| IsLeast(m, s - {x});
      if Less(m, x) {
        assert IsLeast(m, s);
      } else {
        LessTotal(m, x);
        forall y | y in s ensures y == x || Less(x, y) {
          if y != x && y != m {
            LessTransitive(x, m, y);
          }
        }
        assert IsLeast(x, s);
      }
    }
  }

  lemma LeastUnique(m1: string, m2: string, s: set<string>)
    requires IsLeast(m1, s) && IsLeast(m2, s)
    ensures m1 == m2
  {
    LessAsymmetric(m1, m2);
  }

  ghost function Least(s: set<string>): (m: string)
    requires s != {}
    ensures IsLeast(m, s)
  {
    LeastExists(s);
    var m :| IsLeast(m, s);
    m
  }

  /** The elements of `s` in ascending order: `sorted(s)`. */
  ghost function SortedSet(s: set<string>): seq<string>
    decreases |s|
  {
    if s == {} then [] else [Least(s)] + SortedSet(s - {Least(s)})
  }

  ghost predicate StrictlyAscending(xs: seq<string>) {
    forall i, j | 0 <= i < j < |xs| :: Less(xs[i], xs[j])
  }

  /** Taking the least element off first is how `SortedSet` unfolds. */
  lemma SortedSetStep(s: set<string>, m: string)
    requires IsLeast(m, s)
    ensures SortedSet(s) == [m] + SortedSet(s - {m})
  {
    LeastUnique(m, Least(s), s);
  }

  /** Moving the least remaining element to the done prefix keeps `done + SortedSet(remaining)` fixed. */
  lemma AdvanceSorted(all: set<string>, done: seq<string>, remaining: set<string>, m: string)
    requires SortedSet(all) == done + SortedSet(remaining)
    requires IsLeast(m, remaining)
    ensures SortedSet(all) == (done + [m]) + SortedSet(remaining - {m})
  {
    SortedSetStep(remaining, m);
  }

  /** `sorted(s)` lists every element of `s` once, in ascending order. */
  lemma {:induction false} SortedSetSpec(s: set<string>)
    ensures |SortedSet(s)| == |s|
    ensures forall x :: x in SortedSet(s) <==> x in s
    ensures StrictlyAscending(SortedSet(s))
    decreases |s|
  {
    if s != {} {
      var m := Least(s);
      var rest := SortedSet(s - {m});
      SortedSetSpec(s - {m});
      assert SortedSet(s) == [m] + rest;
      forall i, j | 0 <= i < j < |SortedSet(s)| ensures Less(SortedSet(s)[i], SortedSet(s)[j]) {
        if i == 0 {
          assert SortedSet(s)[j] == rest[j - 1] && rest[j - 1] in s - {m};
        } else {
          assert SortedSet(s)[i] == rest[i - 1] && SortedSet(s)[j] == rest[j - 1];
        }
      }
    }
  }
}
