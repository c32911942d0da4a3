/** What several components need of sequences and sets. */
module Collections {

  /** `s` without the element at `i`. */
  function RemovedAt<T>(s: seq<T>, i: nat): (r: seq<T>)
    requires i < |s|
    ensures |r| == |s| - 1
  {
    s[..i] + s[i + 1..]
  }

  ghost predicate Distinct<T>(s: seq<T>) {
    forall i, j | 0 <= i < j < |s| :: s[i] != s[j]
  }

  /** The first of several scripts, and the others; once there are none left a script is empty. */
  function First<T>(scripts: seq<seq<T>>): seq<T> {
    if scripts == [] then [] else scripts[0]
  }

  function Rest<T>(scripts: seq<T>): seq<T> {
    if scripts == [] then [] else scripts[1..]
  }

  ghost function SetOf<T>(s: seq<T>): set<T> {
    set x | x in s
  }

  /** The same told by counting. */
  ghost predicate NoRepeats<T>(s: seq<T>) {
    |SetOf(s)| == |s|
  }

  lemma {:induction false} DistinctSize<T>(s: seq<T>)
    ensures |SetOf(s)| <= |s| && (NoRepeats(s) <==> Distinct(s))
  {
    if s == [] {
    } else {
      var first, last := s[..|s| - 1], s[|s| - 1];
      DistinctSize(first);
      assert s == first + [last] && SetOf(s) == SetOf(first) + {last};
      if last in first {
        var i :| 0 <= i < |first| && first[i] == last;
        assert s[i] == s[|s| - 1] && SetOf(s) == SetOf(first);
      } else {
        assert Distinct(s) <==> Distinct(first) by { DistinctAppended(first, last); }
      }
    }
  }

  lemma DistinctAppended<T>(s: seq<T>, x: T)
    requires x !in s
    ensures Distinct(s + [x]) <==> Distinct(s)
  {
    if Distinct(s + [x]) {
      forall i, j | 0 <= i < j < |s| ensures s[i] != s[j] {
        assert (s + [x])[i] == s[i] && (s + [x])[j] == s[j];
      }
    }
  }

  lemma SubsetIsSmaller<T>(a: set<T>, b: set<T>)
    requires a <= b
    ensures |a| <= |b|
  {
    assert b == a + (b - a);
  }
}
