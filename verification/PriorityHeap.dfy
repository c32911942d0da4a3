/** The binary min-heap of lib/io/event/priority_heap.rb. The Ruby array is the field `contents`; elements are
    compared only through a key (the `<` and `>` of a timer handle compare its time). */
module PriorityHeap {
  import opened Collections
  import opened Optional

  function Parent(j: nat): nat
    requires j > 0
  {
    (j - 1) / 2
  }

  /** Element `j` is not smaller than its parent. */
  ghost predicate Ordered<T>(key: T -> real, s: seq<T>, j: nat)
    requires 0 < j < |s|
  {
    key(s[Parent(j)]) <= key(s[j])
  }

  /** Every edge whose parent index is at least `lo` is ordered; `lo == 0` is the min-heap property. */
  ghost predicate HeapFrom<T>(key: T -> real, s: seq<T>, lo: nat) {
    forall j: nat | 0 < j < |s| && lo <= Parent(j) :: Ordered(key, s, j)
  }

  ghost predicate IsHeap<T>(key: T -> real, s: seq<T>) {
    HeapFrom(key, s, 0)
  }

  /** Only the edges from `i` down to its children may be out of order, and `i`'s parent bounds its children. */
  ghost predicate SinkGap<T>(key: T -> real, s: seq<T>, lo: nat, i: nat) {
    && (forall j: nat | 0 < j < |s| && lo <= Parent(j) != i :: Ordered(key, s, j))
    && (0 < i && lo <= Parent(i) ==>
          forall j: nat | 0 < j < |s| && Parent(j) == i :: key(s[Parent(i)]) <= key(s[j]))
  }

  /** Only the edge from `i` up to its parent may be out of order, and `i`'s parent bounds its children. */
  ghost predicate RiseGap<T>(key: T -> real, s: seq<T>, i: nat) {
    && (forall j: nat | 0 < j < |s| && j != i :: Ordered(key, s, j))
    && (0 < i ==> forall j: nat | 0 < j < |s| && Parent(j) == i :: key(s[Parent(i)]) <= key(s[j]))
  }

  function Swapped<T>(s: seq<T>, i: nat, j: nat): (r: seq<T>)
    requires i < |s| && j < |s|
  {
    s[i := s[j]][j := s[i]]
  }

  lemma SwapKeepsMultiset<T>(s: seq<T>, i: nat, j: nat)
    requires i < |s| && j < |s|
    ensures multiset(Swapped(s, i, j)) == multiset(s)
  {
  }

  /** Removing the last element and writing it over slot `i` removes exactly `s[i]`. */
  lemma OverwriteWithLast<T>(s: seq<T>, i: nat)
    requires i < |s| - 1
    ensures multiset(s[..|s| - 1][i := s[|s| - 1]]) == multiset(s) - multiset{s[i]}
  {
    assert s == s[..|s| - 1] + [s[|s| - 1]];
  }

  lemma DropLast<T>(key: T -> real, s: seq<T>)
    requires IsHeap(key, s) && s != []
    ensures IsHeap(key, s[..|s| - 1])
    ensures multiset(s[..|s| - 1]) == multiset(s) - multiset{s[|s| - 1]}
  {
    var t := s[..|s| - 1];
    assert s == t + [s[|s| - 1]];
    forall j: nat | 0 < j < |t| ensures Ordered(key, t, j) {
      assert Ordered(key, s, j);
    }
  }

  lemma NotThere<T>(s: seq<T>, x: T)
    requires x !in s[..|s|]
    ensures x !in s && multiset(s) - multiset{x} == multiset(s)
  {
    assert s[..|s|] == s;
    assert x !in multiset(s);
  }

  /** The root of a heap is a minimum. */
  lemma {:induction false} RootIsMinimum<T>(key: T -> real, s: seq<T>, i: nat)
    requires IsHeap(key, s) && i < |s|
    ensures key(s[0]) <= key(s[i])
  {
    if i == 0 {
    } else {
      assert Ordered(key, s, i);
      RootIsMinimum(key, s, Parent(i));
    }
  }

  /** The elements that do not satisfy `pred`, in order: Ruby's `reject!`. */
  function Reject<T>(s: seq<T>, pred: T -> bool): (r: seq<T>)
    ensures |r| <= |s|
    ensures |r| == |s| ==> r == s
  {
    if s == [] then [] else (if pred(s[0]) then [] else [s[0]]) + Reject(s[1..], pred)
  }

  lemma {:induction false} RejectKeepsTheRest<T>(s: seq<T>, pred: T -> bool, x: T)
    ensures multiset(Reject(s, pred))[x] == if pred(x) then 0 else multiset(s)[x]
  {
    if s == [] {
    } else {
      assert s == [s[0]] + s[1..];
      RejectKeepsTheRest(s[1..], pred, x);
    }
  }

  class Heap<T(==)> {
    const key: T -> real
    var contents: seq<T>

    ghost predicate Valid()
      reads this
    {
      IsHeap(key, contents)
    }

    constructor (key: T -> real)
      ensures Valid() && contents == [] && this.key == key
    {
      this.key := key;
      contents := [];
    }

    method Peek() returns (r: Option<T>)
      requires Valid()
      ensures r == if contents == [] then None else Some(contents[0])
      ensures r.Some? ==> forall x | x in contents :: key(r.value) <= key(x)
    {
      if contents == [] {
        return None;
      }
      forall x | x in contents ensures key(contents[0]) <= key(x) {
        var i: nat :| i < |contents| && contents[i] == x;
        RootIsMinimum(key, contents, i);
      }
      return Some(contents[0]);
    }

    method Pop() returns (r: Option<T>)
      requires Valid()
      modifies this
      ensures Valid()
      ensures old(contents) == [] ==> r.None? && contents == []
      ensures old(contents) != [] ==> r.Some? && PopStep(key, old(contents), r.value, contents)
      ensures old(contents) != [] ==> r.value == old(contents)[0]
    {
      if contents == [] {
        return None;
      }
      ghost var before := contents;
      forall x | x in before ensures key(before[0]) <= key(x) {
        var i: nat :| i < |before| && before[i] == x;
        RootIsMinimum(key, before, i);
      }
      var n := |contents|;
      if n == 1 {
        r := Some(contents[0]);
        contents := [];
        assert before == [before[0]];
        return;
      }
      r := Some(contents[0]);
      var last := contents[n - 1];
      OverwriteWithLast(contents, 0);
      contents := contents[..n - 1];
      contents := contents[0 := last];
      forall j: nat | 0 < j < |contents| && Parent(j) != 0 ensures Ordered(key, contents, j) {
        assert Ordered(key, before, j);
      }
      BubbleDown(0, 0);
    }

    method Push(element: T)
      requires Valid()
      modifies this
      ensures Valid()
      ensures multiset(contents) == multiset(old(contents)) + multiset{element}
    {
      ghost var before := contents;
      contents := contents + [element];
      forall j: nat | 0 < j < |contents| && j != |contents| - 1 ensures Ordered(key, contents, j) {
        assert Ordered(key, before, j);
      }
      BubbleUp(|contents| - 1);
    }

    method Concat(elements: seq<T>)
      requires Valid()
      modifies this
      ensures Valid()
      ensures multiset(contents) == multiset(old(contents)) + multiset(elements)
    {
      if elements == [] {
        return;
      }
      if contents == [] || |elements| > |contents| * 2 {
        contents := contents + elements;
        HeapifyAll();
      } else {
        for i := 0 to |elements|
          invariant Valid()
          invariant multiset(contents) == multiset(old(contents)) + multiset(elements[..i])
        {
          Push(elements[i]);
          assert elements[..i + 1] == elements[..i] + [elements[i]];
        }
        assert elements[..|elements|] == elements;
      }
    }

    /** `heapify { |contents| ... }`: the block may leave any array behind. */
    method Heapify(replacement: seq<T>)
      modifies this
      ensures Valid()
      ensures multiset(contents) == multiset(replacement)
    {
      contents := replacement;
      HeapifyAll();
    }

    method Clear()
      modifies this
      ensures Valid() && contents == []
    {
      contents := [];
    }

    method Delete(element: T) returns (r: Option<T>)
      requires Valid()
      modifies this
      ensures Valid()
      ensures r == if element in old(contents) then Some(element) else None
      ensures multiset(contents) == multiset(old(contents)) - multiset{element}
    {
      var index := IndexOf(element);
      if index == |contents| {
        return None;
      }
      r := Some(contents[index]);
      RemoveAtIndex(index);
    }

    method RemoveAtIndex(index: nat)
      requires Valid() && index < |contents|
      modifies this
      ensures Valid()
      ensures multiset(contents) == multiset(old(contents)) - multiset{old(contents)[index]}
    {
      if index == |contents| - 1 {
        DropLast(key, contents);
        contents := contents[..|contents| - 1];
      } else {
        OverwriteWithLast(contents, index);
        ReplaceWithLast(index);
      }
    }

    method ReplaceWithLast(index: nat)
      requires Valid() && index < |contents| - 1
      modifies this
      ensures Valid()
      ensures var last := |old(contents)| - 1;
              multiset(contents) == multiset(old(contents)[..last][index := old(contents)[last]])
    {
      var n := |contents|;
      var last := contents[n - 1];
      OverwriteLeavesOneGap(key, contents, contents[..n - 1][index := last], index);
      contents := contents[..n - 1];
      contents := contents[index := last];
      if index > 0 && key(contents[index]) < key(contents[(index - 1) / 2]) {
        BubbleUp(index);
      } else {
        BubbleDown(index, 0);
      }
    }

    /** Ruby's `index`: the first occurrence, or the size when there is none. */
    method IndexOf(element: T) returns (index: nat)
      ensures index <= |contents| && element !in contents[..index]
      ensures index < |contents| ==> contents[index] == element
      ensures index == |contents| ==>
                element !in contents && multiset(contents) - multiset{element} == multiset(contents)
    {
      index := 0;
      while index < |contents| && contents[index] != element
        invariant index <= |contents| && element !in contents[..index]
      {
        index := index + 1;
      }
      if index == |contents| {
        NotThere(contents, element);
      }
    }

    method DeleteIf(pred: T -> bool) returns (removed: nat)
      requires Valid()
      modifies this
      ensures Valid()
      ensures multiset(contents) == multiset(Reject(old(contents), pred))
      ensures removed == |old(contents)| - |contents|
    {
      var size := |contents|;
      contents := Reject(contents, pred);
      if |contents| < size {
        HeapifyAll();
        assert |multiset(contents)| == |multiset(Reject(old(contents), pred))|;
      }
      removed := size - |contents|;
    }

    method HeapifyAll()
      modifies this
      ensures Valid()
      ensures multiset(contents) == multiset(old(contents))
      ensures |contents| == |old(contents)|
    {
      if |contents| <= 1 {
        return;
      }
      var n := |contents|;
      var index := n / 2;
      while index > 0
        invariant 0 <= index <= n / 2 && |contents| == n
        invariant HeapFrom(key, contents, index)
        invariant multiset(contents) == multiset(old(contents))
      {
        index := index - 1;
        BubbleDown(index, index);
      }
    }

    method BubbleUp(start: nat)
      requires start < |contents|
      requires RiseGap(key, contents, start)
      modifies this
      ensures Valid()
      ensures multiset(contents) == multiset(old(contents)) && |contents| == |old(contents)|
    {
      var index: nat := start;
      while index > 0 && key(contents[index]) < key(contents[Parent(index)])
        invariant index < |contents| == |old(contents)|
        invariant RiseGap(key, contents, index)
        invariant multiset(contents) == multiset(old(contents))
        decreases index
      {
        var parent := Parent(index);
        SwapKeepsMultiset(contents, index, parent);
        RiseOneLevel(key, contents, index);
        contents := Swapped(contents, index, parent);
        index := parent;
      }
    }

    method BubbleDown(start: nat, ghost lo: nat)
      requires SinkGap(key, contents, lo, start)
      modifies this
      ensures HeapFrom(key, contents, lo)
      ensures multiset(contents) == multiset(old(contents)) && |contents| == |old(contents)|
    {
      var index: nat := start;
      while true
        invariant |contents| == |old(contents)|
        invariant SinkGap(key, contents, lo, index)
        invariant multiset(contents) == multiset(old(contents))
        decreases |contents| - index
      {
        var left := 2 * index + 1;
        if left >= |contents| {
          SinkIsDone(key, contents, lo, index);
          return;
        }
        var right := left + 1;
        var child := if right >= |contents| || key(contents[right]) > key(contents[left]) then left else right;
        if key(contents[index]) < key(contents[child]) {
          SinkIsDone(key, contents, lo, index);
          return;
        }
        SwapKeepsMultiset(contents, index, child);
        SinkOneLevel(key, contents, lo, index, child);
        contents := Swapped(contents, index, child);
        index := child;
      }
    }
  }

  lemma OverwriteLeavesOneGap<T>(key: T -> real, s: seq<T>, t: seq<T>, i: nat)
    requires IsHeap(key, s) && i < |s| - 1
    requires t == s[..|s| - 1][i := s[|s| - 1]]
    ensures i > 0 && key(t[i]) < key(t[Parent(i)]) ==> RiseGap(key, t, i)
    ensures !(i > 0 && key(t[i]) < key(t[Parent(i)])) ==> SinkGap(key, t, 0, i)
  {
    forall j: nat | 0 < j < |t| && Parent(j) == i
      ensures i > 0 ==> key(s[Parent(i)]) <= key(s[j])
      ensures i > 0 && key(t[i]) < key(t[Parent(i)]) ==> key(t[i]) <= key(t[j])
    {
      assert Ordered(key, s, j);
      if i > 0 { assert Ordered(key, s, i); }
    }
    forall j: nat | 0 < j < |t| && j != i && Parent(j) != i ensures Ordered(key, t, j) {
      assert Ordered(key, s, j);
    }
  }

  lemma RiseOneLevel<T>(key: T -> real, s: seq<T>, i: nat)
    requires 0 < i < |s| && RiseGap(key, s, i)
    requires key(s[i]) < key(s[Parent(i)])
    ensures RiseGap(key, Swapped(s, i, Parent(i)), Parent(i))
  {
    var p := Parent(i);
    var t := Swapped(s, i, p);
    forall j: nat | 0 < j < |t| && j != p ensures Ordered(key, t, j) {
      if j != i { assert Ordered(key, s, j); }
    }
    if 0 < p {
      forall j: nat | 0 < j < |t| && Parent(j) == p ensures key(t[Parent(p)]) <= key(t[j]) {
        assert Ordered(key, s, p);
        if j != i { assert Ordered(key, s, j); }
      }
    }
  }

  lemma SinkIsDone<T>(key: T -> real, s: seq<T>, lo: nat, i: nat)
    requires SinkGap(key, s, lo, i)
    requires 2 * i + 1 < |s| ==> i < |s| && key(s[i]) <= key(s[2 * i + 1])
    requires 2 * i + 2 < |s| ==> key(s[i]) <= key(s[2 * i + 2])
    ensures HeapFrom(key, s, lo)
  {
    forall j: nat | 0 < j < |s| && lo <= Parent(j) ensures Ordered(key, s, j) {
      if Parent(j) == i { assert j == 2 * i + 1 || j == 2 * i + 2; }
    }
  }

  lemma SinkOneLevel<T>(key: T -> real, s: seq<T>, lo: nat, i: nat, c: nat)
    requires SinkGap(key, s, lo, i) && 0 < c < |s| && Parent(c) == i
    requires key(s[c]) <= key(s[2 * i + 1])
    requires 2 * i + 2 < |s| ==> key(s[c]) <= key(s[2 * i + 2])
    requires key(s[c]) <= key(s[i])
    ensures SinkGap(key, Swapped(s, i, c), lo, c)
  {
    var t := Swapped(s, i, c);
    forall j: nat | 0 < j < |t| && lo <= Parent(j) != c ensures Ordered(key, t, j) {
      if Parent(j) == i {
        assert j == 2 * i + 1 || j == 2 * i + 2;
      } else {
        assert Ordered(key, s, j);
      }
    }
    if lo <= i {
      forall j: nat | 0 < j < |t| && Parent(j) == c ensures key(t[i]) <= key(t[j]) {
        assert Ordered(key, s, j);
      }
    }
  }

  // ----- What a client of the heap observes -----

  lemma FirstAndRest<T>(s: seq<T>)
    requires s != []
    ensures multiset(s) == multiset{s[0]} + multiset(s[1..])
  {
    assert s == [s[0]] + s[1..];
  }

  lemma TakeOutOne<T>(m: multiset<T>, x: T, a: multiset<T>)
    requires x in m
    ensures m - multiset{x} == a <==> m == multiset{x} + a
  {
    assert m == multiset{x} + (m - multiset{x});
  }

  lemma Regroup<T>(m: multiset<T>, x: T, a: multiset<T>, b: multiset<T>, c: multiset<T>)
    requires m == multiset{x} + (a + b) && c == multiset{x} + a
    ensures m == c + b
  {
  }

  /** The effect of one successful `pop`: a minimum leaves, the rest stays, and the result is a heap again. */
  ghost predicate PopStep<T>(key: T -> real, s: seq<T>, x: T, t: seq<T>) {
    && IsHeap(key, t)
    && x in s
    && multiset(t) == multiset(s) - multiset{x}
    && forall y | y in s :: key(x) <= key(y)
  }

  /** `states` are the successive contents while `out` is popped off one element at a time. */
  ghost predicate PopRun<T>(key: T -> real, states: seq<seq<T>>, out: seq<T>) {
    && |states| == |out| + 1
    && forall i | 0 <= i < |out| :: PopStep(key, states[i], out[i], states[i + 1])
  }

  function Keys<T>(key: T -> real, s: seq<T>): (r: seq<real>)
    ensures |r| == |s| && forall i | 0 <= i < |s| :: r[i] == key(s[i])
  {
    if s == [] then [] else [key(s[0])] + Keys(key, s[1..])
  }

  ghost predicate Sorted(s: seq<real>) {
    forall i, j | 0 <= i < j < |s| :: s[i] <= s[j]
  }

  /** Repeated `pop` conserves elements. */
  lemma {:induction false} PopRunConserves<T>(key: T -> real, states: seq<seq<T>>, out: seq<T>)
    requires PopRun(key, states, out)
    ensures multiset(states[0]) == multiset(out) + multiset(states[|out|])
    decreases |out|
  {
    if out == [] {
    } else {
      var rest := out[1..];
      PopRunTail(key, states, out);
      PopRunConserves(key, states[1..], rest);
      FirstAndRest(out);
      assert PopStep(key, states[0], out[0], states[1]);
      var last := states[|out|];
      assert states[1..][|rest|] == last;
      TakeOutOne(multiset(states[0]), out[0], multiset(rest) + multiset(last));
      Regroup(multiset(states[0]), out[0], multiset(rest), multiset(last), multiset(out));
    }
  }

  /** Repeated `pop` yields non-decreasing keys. */
  lemma {:induction false} PopRunIsSorted<T>(key: T -> real, states: seq<seq<T>>, out: seq<T>)
    requires PopRun(key, states, out)
    ensures Sorted(Keys(key, out))
    decreases |out|
  {
    if out == [] {
    } else {
      var rest := out[1..];
      PopRunTail(key, states, out);
      PopRunIsSorted(key, states[1..], rest);
      PopRunConserves(key, states[1..], rest);
      assert PopStep(key, states[0], out[0], states[1]);
      forall x | x in rest ensures key(out[0]) <= key(x) {
        assert x in multiset(rest);
        assert x in multiset(states[1]);
        assert x in multiset(states[0]);
      }
      PrependSmallest(key, out[0], rest);
      assert out == [out[0]] + rest;
    }
  }

  lemma PopRunTail<T>(key: T -> real, states: seq<seq<T>>, out: seq<T>)
    requires PopRun(key, states, out) && out != []
    ensures PopRun(key, states[1..], out[1..])
  {
    forall i | 0 <= i < |out[1..]|
      ensures PopStep(key, states[1..][i], out[1..][i], states[1..][i + 1])
    {
      assert PopStep(key, states[i + 1], out[i + 1], states[i + 2]);
    }
  }

  lemma PrependSmallest<T>(key: T -> real, x: T, rest: seq<T>)
    requires Sorted(Keys(key, rest)) && forall y | y in rest :: key(x) <= key(y)
    ensures Sorted(Keys(key, [x] + rest))
  {
    assert Keys(key, [x] + rest) == [key(x)] + Keys(key, rest);
  }

  lemma SameLeastElement(a: seq<real>, b: seq<real>)
    requires Sorted(a) && Sorted(b) && multiset(a) == multiset(b) && a != []
    ensures b != [] && a[0] == b[0]
  {
    assert a[0] in multiset(b);
    assert b[0] in multiset(a);
    var i :| 0 <= i < |b| && b[i] == a[0];
    var j :| 0 <= j < |a| && a[j] == b[0];
  }

  lemma SameTails(a: seq<real>, b: seq<real>)
    requires Sorted(a) && Sorted(b) && multiset(a) == multiset(b) && a != []
    ensures b != [] && a[0] == b[0]
    ensures multiset(a[1..]) == multiset(b[1..])
  {
    SameLeastElement(a, b);
    FirstAndRest(a);
    FirstAndRest(b);
    SameRest(multiset(a), a[0], multiset(a[1..]), multiset(b[1..]));
  }

  lemma {:induction false} SortedIsCanonical(a: seq<real>, b: seq<real>)
    requires Sorted(a) && Sorted(b) && multiset(a) == multiset(b)
    ensures a == b
  {
    if a == [] {
      SameLength(a, b);
    } else {
      SameTails(a, b);
      var x, y := a[1..], b[1..];
      assert Sorted(x) && Sorted(y);
      SortedIsCanonical(x, y);
      assert a == [a[0]] + x && b == [b[0]] + y;
    }
  }

  lemma {:induction false} EqualElementsEqualKeys<T>(key: T -> real, a: seq<T>, b: seq<T>)
    requires multiset(a) == multiset(b)
    ensures multiset(Keys(key, a)) == multiset(Keys(key, b))
    decreases |a|
  {
    if a == [] {
      SameLength(a, b);
    } else {
      var rest := MatchFirst(key, a, b);
      EqualElementsEqualKeys(key, a[1..], rest);
    }
  }

  lemma SameLength<T>(a: seq<T>, b: seq<T>)
    requires multiset(a) == multiset(b)
    ensures |a| == |b|
  {
    assert |multiset(a)| == |a| && |multiset(b)| == |b|;
  }

  /** `b` without one occurrence of `a[0]`. */
  lemma MatchFirst<T>(key: T -> real, a: seq<T>, b: seq<T>) returns (rest: seq<T>)
    requires multiset(a) == multiset(b) && a != []
    ensures multiset(a[1..]) == multiset(rest)
    ensures multiset(Keys(key, rest)) == multiset(Keys(key, a[1..]))
              ==> multiset(Keys(key, a)) == multiset(Keys(key, b))
  {
    assert a[0] in multiset(b);
    var i :| 0 <= i < |b| && b[i] == a[0];
    rest := RemovedAt(b, i);
    DropAt(a, 0);
    DropAt(b, i);
    assert RemovedAt(a, 0) == a[1..];
    SameRest(multiset(a), a[0], multiset(a[1..]), multiset(rest));
    KeysWithout(key, a, 0);
    KeysWithout(key, b, i);
  }

  lemma SameRest<T>(m: multiset<T>, x: T, a: multiset<T>, b: multiset<T>)
    requires m == multiset{x} + a && m == multiset{x} + b
    ensures a == b
  {
    assert a == m - multiset{x} == b;
  }

  lemma DropAt<T>(s: seq<T>, i: nat)
    requires i < |s|
    ensures multiset(s) == multiset{s[i]} + multiset(RemovedAt(s, i))
  {
    assert s == s[..i] + [s[i]] + s[i + 1..];
  }

  lemma KeysWithout<T>(key: T -> real, s: seq<T>, i: nat)
    requires i < |s|
    ensures multiset(Keys(key, s)) == multiset{key(s[i])} + multiset(Keys(key, RemovedAt(s, i)))
  {
    KeysCommute(key, s, i);
    DropAt(Keys(key, s), i);
  }

  lemma KeysCommute<T>(key: T -> real, s: seq<T>, i: nat)
    requires i < |s|
    ensures RemovedAt(Keys(key, s), i) == Keys(key, RemovedAt(s, i))
  {
    MappedRemoval(key, s, Keys(key, s), i, Keys(key, RemovedAt(s, i)));
  }

  lemma MappedRemoval<T>(key: T -> real, s: seq<T>, keys: seq<real>, i: nat, rest: seq<real>)
    requires i < |s| == |keys| && forall k | 0 <= k < |s| :: keys[k] == key(s[k])
    requires |rest| == |s| - 1 && forall k | 0 <= k < |rest| :: rest[k] == key(RemovedAt(s, i)[k])
    ensures RemovedAt(keys, i) == rest
  {
  }

  /** Two heaps holding the same elements empty in the same key order, whatever their internal layout: so
      neither the branch `concat` takes nor the history of deletions is observable. */
  lemma SameElementsSamePopOrder<T>(key: T -> real, p: seq<seq<T>>, a: seq<T>, q: seq<seq<T>>, b: seq<T>)
    requires PopRun(key, p, a) && PopRun(key, q, b)
    requires multiset(p[0]) == multiset(q[0])
    requires p[|a|] == [] && q[|b|] == []
    ensures Keys(key, a) == Keys(key, b)
  {
    PopRunIsSorted(key, p, a);
    PopRunIsSorted(key, q, b);
    PopRunConserves(key, p, a);
    PopRunConserves(key, q, b);
    assert multiset(a) == multiset(p[0]) && multiset(b) == multiset(q[0]);
    EqualElementsEqualKeys(key, a, b);
    SortedIsCanonical(Keys(key, a), Keys(key, b));
  }
}
