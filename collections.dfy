/**
 * The operations of `ObservableCollection<T>` that the view models use, on sequences:
 * `IndexOf`, `Insert`, `RemoveAt`, `Remove` (first occurrence) and `Move(oldIndex, newIndex)`.
 * Element equality is the collection's equality: reference identity for view-model objects,
 * value equality for strings.
 */
module Collections {

  /** No element occurs twice. */
  predicate Distinct<T(==)>(s: seq<T>)
  {
    forall i, j :: 0 <= i < |s| && 0 <= j < |s| && i != j ==> s[i] != s[j]
  }

  /** `r` is `s` with some elements left out: the elements of `r` occur in `s` in the same order. */
  predicate IsSubsequence<T(==)>(r: seq<T>, s: seq<T>)
    decreases |s|
  {
    r == [] || (s != [] && ((r[0] == s[0] && IsSubsequence(r[1..], s[1..])) || IsSubsequence(r, s[1..])))
  }

  /** `IndexOf(x)`: the first position of `x`, or -1 when it does not occur. */
  function IndexOf<T(==)>(s: seq<T>, x: T): (i: int)
    ensures -1 <= i < |s|
    ensures i >= 0 ==> s[i] == x && forall j :: 0 <= j < i ==> s[j] != x
    ensures i == -1 <==> x !in s
  {
    if s == [] then -1
    else if s[0] == x then 0
    else var k := IndexOf(s[1..], x); if k < 0 then -1 else k + 1
  }

  /** In a sequence without repetitions the position of an element is its index. */
  lemma IndexOfDistinct<T>(s: seq<T>, k: nat)
    requires Distinct(s) && k < |s|
    ensures IndexOf(s, s[k]) == k
  {
  }

  /** `Insert(i, x)`. */
  function InsertAt<T>(s: seq<T>, i: nat, x: T): (r: seq<T>)
    requires i <= |s|
    ensures |r| == |s| + 1
  {
    s[..i] + [x] + s[i..]
  }

  /** `RemoveAt(i)`. */
  function RemoveAt<T>(s: seq<T>, i: nat): (r: seq<T>)
    requires i < |s|
    ensures |r| == |s| - 1
  {
    s[..i] + s[i + 1..]
  }

  /** `Remove(x)`: drops the first occurrence of `x`, if any. */
  function Remove<T(==)>(s: seq<T>, x: T): (r: seq<T>)
  {
    var i := IndexOf(s, x);
    if i < 0 then s else RemoveAt(s, i)
  }

  /** `Move(from, to)`: the element is removed at `from` and inserted again at `to`. */
  function Move<T>(s: seq<T>, from: nat, to: nat): (r: seq<T>)
    requires from < |s| && to < |s|
    ensures |r| == |s|
  {
    InsertAt(RemoveAt(s, from), to, s[from])
  }

  /** Removing the occurrence of an element keeps everything else, in order, and takes away one copy of it. */
  lemma RemoveSpec<T>(s: seq<T>, x: T)
    ensures x in s ==> |Remove(s, x)| == |s| - 1
    ensures x !in s ==> Remove(s, x) == s
    ensures multiset(Remove(s, x)) == multiset(s) - multiset{x}
  {
    var i := IndexOf(s, x);
    if i >= 0 {
      assert s == s[..i] + [x] + s[i + 1..];
      assert multiset(s) == multiset(s[..i]) + multiset{x} + multiset(s[i + 1..]);
    } else {
      assert multiset(s)[x] == 0;
    }
  }

  /** Inserting then removing at the same position gives the sequence back. */
  lemma RemoveInserted<T>(s: seq<T>, i: nat, x: T)
    requires i <= |s|
    ensures RemoveAt(InsertAt(s, i, x), i) == s
  {
    var t := InsertAt(s, i, x);
    assert t[..i] == s[..i];
    assert t[i + 1..] == s[i..];
  }

  /** What an insertion contains. */
  lemma InsertAtContents<T>(s: seq<T>, i: nat, x: T)
    requires i <= |s|
    ensures multiset(InsertAt(s, i, x)) == multiset(s) + multiset{x}
    ensures forall y :: y in InsertAt(s, i, x) <==> y in s || y == x
  {
    assert s == s[..i] + s[i..];
    assert multiset(s) == multiset(s[..i]) + multiset(s[i..]);
    forall y ensures y in InsertAt(s, i, x) <==> y in s || y == x {
      assert y in InsertAt(s, i, x) <==> y in multiset(InsertAt(s, i, x));
      assert y in s <==> y in multiset(s);
    }
  }

  /** What a removal at a position contains. */
  lemma RemoveAtContents<T>(s: seq<T>, i: nat)
    requires i < |s|
    ensures multiset(RemoveAt(s, i)) == multiset(s) - multiset{s[i]}
  {
    assert s == s[..i] + [s[i]] + s[i + 1..];
    assert multiset(s) == multiset(s[..i]) + multiset{s[i]} + multiset(s[i + 1..]);
  }

  /** A move puts the element at its target and keeps the other elements in their relative order. */
  lemma MoveSpec<T>(s: seq<T>, from: nat, to: nat)
    requires from < |s| && to < |s|
    ensures Move(s, from, to)[to] == s[from]
    ensures RemoveAt(Move(s, from, to), to) == RemoveAt(s, from)
    ensures multiset(Move(s, from, to)) == multiset(s)
  {
    var u := RemoveAt(s, from);
    RemoveInserted(u, to, s[from]);
    RemoveAtContents(s, from);
    InsertAtContents(u, to, s[from]);
  }

  /** A move by one position swaps the element with its neighbour. */
  lemma {:induction false} MoveAdjacentSwaps<T>(s: seq<T>, from: nat, to: nat)
    requires from < |s| && to < |s| && (to == from + 1 || from == to + 1)
    ensures Move(s, from, to) == s[from := s[to]][to := s[from]]
  {
    var r := Move(s, from, to);
    var w := s[from := s[to]][to := s[from]];
    forall k | 0 <= k < |s| ensures r[k] == w[k] {
    }
  }

  /** Inserting an element that does not occur yet keeps a sequence free of repetitions. */
  lemma InsertDistinct<T>(s: seq<T>, i: nat, x: T)
    requires Distinct(s) && i <= |s| && x !in s
    ensures Distinct(InsertAt(s, i, x))
  {
    var r := InsertAt(s, i, x);
    forall a, b | 0 <= a < |r| && 0 <= b < |r| && a != b ensures r[a] != r[b] {
      if a != i && b != i {
        var a' := if a < i then a else a - 1;
        var b' := if b < i then b else b - 1;
        assert r[a] == s[a'] && r[b] == s[b'];
      } else if a == i {
        var b' := if b < i then b else b - 1;
        assert r[b] == s[b'];
      } else {
        var a' := if a < i then a else a - 1;
        assert r[a] == s[a'];
      }
    }
  }

  /** Appending an element that does not occur yet keeps a sequence free of repetitions. */
  lemma AppendDistinct<T>(s: seq<T>, x: T)
    requires Distinct(s) && x !in s
    ensures Distinct(s + [x])
  {
    assert s + [x] == InsertAt(s, |s|, x);
    InsertDistinct(s, |s|, x);
  }

  /** Removing an element keeps a sequence free of repetitions, and it no longer occurs. */
  lemma RemoveAtDistinct<T>(s: seq<T>, i: nat)
    requires Distinct(s) && i < |s|
    ensures Distinct(RemoveAt(s, i))
    ensures forall y :: y in RemoveAt(s, i) <==> y in s && y != s[i]
  {
    var r := RemoveAt(s, i);
    forall a, b | 0 <= a < |r| && 0 <= b < |r| && a != b ensures r[a] != r[b] {
      var a' := if a < i then a else a + 1;
      var b' := if b < i then b else b + 1;
      assert r[a] == s[a'] && r[b] == s[b'];
    }
    forall y ensures y in r <==> y in s && y != s[i] {
      if y in s && y != s[i] {
        var k :| 0 <= k < |s| && s[k] == y;
        assert r[if k < i then k else k - 1] == y;
      }
    }
  }

  /** A move keeps a sequence free of repetitions and, there, the moved element is found at its target. */
  lemma MoveDistinct<T>(s: seq<T>, from: nat, to: nat)
    requires Distinct(s) && from < |s| && to < |s|
    ensures Distinct(Move(s, from, to))
    ensures IndexOf(Move(s, from, to), s[from]) == to
    ensures forall y :: y in Move(s, from, to) <==> y in s
  {
    var u := RemoveAt(s, from);
    RemoveAtDistinct(s, from);
    InsertDistinct(u, to, s[from]);
    InsertAtContents(u, to, s[from]);
    MoveSpec(s, from, to);
    IndexOfDistinct(Move(s, from, to), to);
  }

  /** Sequences with the same multiset of elements have the same members. */
  lemma SameElements<T>(s: seq<T>, t: seq<T>)
    requires multiset(s) == multiset(t)
    ensures forall x :: x in s <==> x in t
  {
    forall x ensures x in s <==> x in t {
      assert x in s <==> x in multiset(s);
      assert x in t <==> x in multiset(t);
    }
  }

  /** Everything a one-element move keeps: the elements, their distinctness, the others' order; a step of one is a swap. */
  lemma MoveStep<T>(s: seq<T>, from: nat, to: nat)
    requires Distinct(s) && from < |s| && to < |s|
    ensures Move(s, from, to)[to] == s[from]
    ensures RemoveAt(Move(s, from, to), to) == RemoveAt(s, from)
    ensures Distinct(Move(s, from, to)) && IndexOf(Move(s, from, to), s[from]) == to
    ensures forall x :: x in Move(s, from, to) <==> x in s
    ensures to == from + 1 || from == to + 1 ==> Move(s, from, to) == s[from := s[to]][to := s[from]]
  {
    MoveSpec(s, from, to);
    MoveDistinct(s, from, to);
    SameElements(s, Move(s, from, to));
    if to == from + 1 || from == to + 1 {
      MoveAdjacentSwaps(s, from, to);
    }
  }
}
