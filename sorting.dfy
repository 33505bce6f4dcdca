/** `list.sort((a, b) => key(b) - key(a))` on an array: an in-place sort into
    descending key order (newest first when the key is a day number), done
    here as an insertion sort by adjacent swaps. */
module Sorting {

  /** Keys never increase from left to right. */
  predicate NewestFirst<T>(s: seq<T>, key: T -> int)
  {
    forall i, j | 0 <= i < j < |s| :: key(s[i]) >= key(s[j])
  }

  /** Invariant of one insertion step: `s[..i + 1]` is in order once the
      element at `j` is left out, and that element outranks everything to its right. */
  predicate InsertingAt<T>(s: seq<T>, key: T -> int, j: nat, i: nat)
    requires j <= i < |s|
  {
    (forall p, q | 0 <= p < q <= i && p != j && q != j :: key(s[p]) >= key(s[q]))
    && (forall q | j < q <= i :: key(s[j]) > key(s[q]))
  }

  /** Exchanging two neighbours keeps the same elements. */
  lemma SwapKeepsElements<T>(s: seq<T>, j: nat)
    requires 0 < j < |s|
    ensures multiset(s[j - 1 := s[j]][j := s[j - 1]]) == multiset(s)
  {
    var t := s[j - 1 := s[j]][j := s[j - 1]];
    assert s == s[..j - 1] + [s[j - 1], s[j]] + s[j + 1..];
    assert t == s[..j - 1] + [s[j], s[j - 1]] + s[j + 1..];
  }

  /** Swapping the element at `j` with a lower-keyed left neighbour moves the insertion point left. */
  lemma SwapStep<T>(s: seq<T>, key: T -> int, j: nat, i: nat)
    requires 0 < j <= i < |s| && InsertingAt(s, key, j, i) && key(s[j - 1]) < key(s[j])
    ensures InsertingAt(s[j - 1 := s[j]][j := s[j - 1]], key, j - 1, i)
  {
    var t := s[j - 1 := s[j]][j := s[j - 1]];
    forall p, q | 0 <= p < q <= i && p != j - 1 && q != j - 1
      ensures key(t[p]) >= key(t[q])
    {
      if q == j {
        assert t[q] == s[j - 1];
        assert t[p] == s[p];
      } else if p == j {
        assert t[p] == s[j - 1] && t[q] == s[q];
      } else {
        assert t[p] == s[p] && t[q] == s[q];
      }
    }
    forall q | j - 1 < q <= i
      ensures key(t[j - 1]) > key(t[q])
    {
      if q == j {
      } else {
        assert t[q] == s[q];
      }
    }
  }

  /** In a sorted prefix the last two elements are in order. */
  lemma InOrderNeighbours<T>(s: seq<T>, key: T -> int, i: nat)
    requires 0 < i < |s|
    ensures NewestFirst(s[..i + 1], key) ==> key(s[i - 1]) >= key(s[i])
  {
    if NewestFirst(s[..i + 1], key) {
      assert s[..i + 1][i - 1] == s[i - 1] && s[..i + 1][i] == s[i];
    }
  }

  /** The insertion stops when the left neighbour's key is not smaller. */
  lemma InsertDone<T>(s: seq<T>, key: T -> int, j: nat, i: nat)
    requires j <= i < |s| && InsertingAt(s, key, j, i)
    requires j == 0 || key(s[j - 1]) >= key(s[j])
    ensures NewestFirst(s[..i + 1], key)
  {
    forall p, q | 0 <= p < q < i + 1
      ensures key(s[p]) >= key(s[q])
    {
      if p == j {
      } else if q == j {
        if p < j - 1 {
          assert key(s[p]) >= key(s[j - 1]);
        }
      }
    }
  }

  /** Moves `a[i]` left past every element with a smaller key, so that the
      sorted prefix `a[..i]` grows to `a[..i + 1]`. */
  method InsertLast<T>(a: array<T>, i: nat, key: T -> int)
    requires i < a.Length && NewestFirst(a[..i], key)
    modifies a
    ensures NewestFirst(a[..i + 1], key)
    ensures multiset(a[..]) == multiset(old(a[..]))
    ensures NewestFirst(old(a[..i + 1]), key) ==> a[..] == old(a[..])
  {
    StartInserting(a[..], key, i);
    ghost var inOrder := NewestFirst(a[..i + 1], key);
    var j := i;
    while j > 0 && key(a[j - 1]) < key(a[j])
      invariant 0 <= j <= i
      invariant InsertingAt(a[..], key, j, i)
      invariant multiset(a[..]) == multiset(old(a[..]))
      invariant j == i ==> a[..] == old(a[..])
      invariant inOrder ==> j == i
    {
      ghost var s := a[..];
      SwapStep(s, key, j, i);
      SwapKeepsElements(s, j);
      a[j - 1], a[j] := a[j], a[j - 1];
      assert a[..] == s[j - 1 := s[j]][j := s[j - 1]];
      j := j - 1;
    }
    InsertDone(a[..], key, j, i);
  }

  /** Before the first swap: the sorted prefix, and the new element either
      already in place or outranking its left neighbour. */
  lemma StartInserting<T>(s: seq<T>, key: T -> int, i: nat)
    requires i < |s| && NewestFirst(s[..i], key)
    ensures InsertingAt(s, key, i, i)
    ensures NewestFirst(s[..i + 1], key) ==> i == 0 || key(s[i - 1]) >= key(s[i])
  {
    forall p, q | 0 <= p < q <= i && p != i && q != i
      ensures key(s[p]) >= key(s[q])
    {
      assert s[..i][p] == s[p] && s[..i][q] == s[q];
    }
    if i > 0 {
      InOrderNeighbours(s, key, i);
    }
  }

  method SortNewestFirst<T>(a: array<T>, key: T -> int)
    modifies a
    ensures NewestFirst(a[..], key)
    ensures multiset(a[..]) == multiset(old(a[..]))
    ensures NewestFirst(old(a[..]), key) ==> a[..] == old(a[..])
  {
    var i := 0;
    while i < a.Length
      invariant 0 <= i <= a.Length
      invariant NewestFirst(a[..i], key)
      invariant multiset(a[..]) == multiset(old(a[..]))
      invariant NewestFirst(old(a[..]), key) ==> a[..] == old(a[..])
    {
      InsertLast(a, i, key);
      i := i + 1;
    }
    assert a[..] == a[..a.Length];
  }
}
