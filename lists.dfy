/** Generic list helpers for the source's Python lists. */
module Lists {

  predicate Distinct<T(==)>(s: seq<T>) {
    forall i, j :: 0 <= i < j < |s| ==> s[i] != s[j]
  }

  lemma DistinctTail<T>(s: seq<T>)
    requires Distinct(s) && s != []
    ensures Distinct(s[1..]) && s[0] !in s[1..]
  {
    forall i, j | 0 <= i < j < |s| - 1 ensures s[1..][i] != s[1..][j] { assert s[i + 1] != s[j + 1]; }
    forall j | 0 <= j < |s| - 1 ensures s[1..][j] != s[0] { assert s[0] != s[j + 1]; }
  }

  lemma DistinctInit<T>(s: seq<T>)
    requires Distinct(s) && s != []
    ensures Distinct(s[..|s| - 1]) && s[|s| - 1] !in s[..|s| - 1]
  {
    var init := s[..|s| - 1];
    forall i, j | 0 <= i < j < |init| ensures init[i] != init[j] { assert s[i] != s[j]; }
    forall i | 0 <= i < |init| ensures init[i] != s[|s| - 1] { assert s[i] != s[|s| - 1]; }
  }

  /** A prefix one longer is the prefix and the next element. */
  lemma TakeSnoc<T>(s: seq<T>, i: nat)
    requires i < |s|
    ensures s[..i + 1] == s[..i] + [s[i]]
  {
  }

  /** Number of occurrences of `x` in `s`. */
  function Count<T(==)>(s: seq<T>, x: T): nat {
    if s == [] then 0
    else Count(s[..|s| - 1], x) + (if s[|s| - 1] == x then 1 else 0)
  }

  /** On a list without repeats an element occurs once or not at all. */
  lemma {:induction false} CountDistinct<T>(s: seq<T>, x: T)
    requires Distinct(s)
    ensures Count(s, x) == if x in s then 1 else 0
  {
    if s != [] {
      var init := s[..|s| - 1];
      DistinctInit(s);
      CountDistinct(init, x);
      assert s == init + [s[|s| - 1]];
    }
  }

  /** The elements of `l` that are not in `ms`, in their order: the list
      comprehension `[x for x in l if x not in ms]`, and with `ms == [k]` the
      key order left by `del d[k]`. */
  function Keep<T(==)>(l: seq<T>, ms: seq<T>): (r: seq<T>)
    ensures forall x | x in r :: x in l && x !in ms
    ensures forall x | x in l && x !in ms :: x in r
    ensures Distinct(l) ==> Distinct(r)
  {
    if l == [] then []
    else
      var t := Keep(l[1..], ms);
      assert Distinct(l) ==> Distinct(l[1..]) && l[0] !in l[1..] by {
        if Distinct(l) {
          DistinctTail(l);
        }
      }
      if l[0] in ms then t else [l[0]] + t
  }

  lemma {:induction false} KeepNone<T>(l: seq<T>, ms: seq<T>)
    requires forall x | x in l :: x !in ms
    ensures Keep(l, ms) == l
  {
    if l != [] {
      KeepNone(l[1..], ms);
    }
  }

  lemma {:induction false} KeepKeep<T>(l: seq<T>, a: seq<T>, b: seq<T>)
    ensures Keep(Keep(l, a), b) == Keep(l, a + b)
  {
    if l != [] {
      KeepKeep(l[1..], a, b);
    }
  }

  /** The filter distributes over concatenation, so it keeps the relative
      order of what remains. */
  lemma {:induction false} KeepConcat<T>(a: seq<T>, b: seq<T>, ms: seq<T>)
    ensures Keep(a + b, ms) == Keep(a, ms) + Keep(b, ms)
  {
    if a != [] {
      assert (a + b)[1..] == a[1..] + b;
      KeepConcat(a[1..], b, ms);
    } else {
      assert a + b == b;
    }
  }

  lemma KeepAllListed<T>(l: seq<T>, ms: seq<T>)
    requires forall x | x in l :: x in ms
    ensures Keep(l, ms) == []
  {
  }

  /** The position of the first occurrence of `x` (`list.index(x)`). */
  function IndexOf<T(==)>(l: seq<T>, x: T): (i: nat)
    requires x in l
    ensures i < |l| && l[i] == x && x !in l[..i]
  {
    if l[0] == x then 0
    else
      var j := IndexOf(l[1..], x);
      assert l[..j + 1] == [l[0]] + l[1..][..j];
      j + 1
  }

  /** Filtering out an element that occurs exactly at position `i` of a list
      without repeats leaves the elements before and after it, in order. */
  lemma {:induction false} KeepAt<T>(l: seq<T>, i: nat)
    requires Distinct(l) && i < |l|
    ensures Keep(l, [l[i]]) == l[..i] + l[i + 1..]
  {
    DistinctTail(l);
    if i == 0 {
      KeepNone(l[1..], [l[0]]);
    } else {
      assert l[0] != l[i];
      KeepAt(l[1..], i - 1);
      assert l[..i] == [l[0]] + l[1..][..i - 1];
      assert l[i + 1..] == l[1..][i..];
    }
  }

  /** On a list without repeats, filtering out `x` cuts out its one occurrence. */
  lemma KeepCut<T>(l: seq<T>, x: T)
    requires Distinct(l) && x in l
    ensures Keep(l, [x]) == l[..IndexOf(l, x)] + l[IndexOf(l, x) + 1..]
  {
    KeepAt(l, IndexOf(l, x));
  }

  /** Past a head that differs from `x`, the first occurrence moves one place. */
  lemma IndexOfTail<T>(l: seq<T>, x: T)
    requires x in l && l[0] != x
    ensures x in l[1..] && IndexOf(l, x) == IndexOf(l[1..], x) + 1
  {
    assert l == [l[0]] + l[1..];
  }

  /** Cutting position `j + 1` out of `l` is cutting position `j` out of its tail. */
  lemma CutTail<T>(l: seq<T>, j: nat)
    requires j + 1 < |l|
    ensures l[..j + 1] + l[j + 2..] == [l[0]] + (l[1..][..j] + l[1..][j + 1..])
  {
    assert l[..j + 1] == [l[0]] + l[1..][..j];
    assert l[j + 2..] == l[1..][j + 1..];
  }

  /** `list.remove(x)`: drop the first occurrence of `x`; no change when `x`
      is absent. Which element goes is `RemoveFirstCut`. */
  function RemoveFirst<T(==)>(l: seq<T>, x: T): (r: seq<T>)
    ensures x !in l ==> r == l
    ensures |r| == if x in l then |l| - 1 else |l|
  {
    if l == [] then []
    else if l[0] == x then l[1..]
    else
      assert x in l <==> x in l[1..] by {
        assert l == [l[0]] + l[1..];
      }
      [l[0]] + RemoveFirst(l[1..], x)
  }

  /** `list.remove(x)` cuts out exactly the first occurrence of `x` and keeps
      the elements before and after it, in order. */
  lemma {:induction false} RemoveFirstCut<T>(l: seq<T>, x: T)
    requires x in l
    ensures RemoveFirst(l, x) == l[..IndexOf(l, x)] + l[IndexOf(l, x) + 1..]
  {
    if l[0] != x {
      IndexOfTail(l, x);
      RemoveFirstCut(l[1..], x);
      RemoveFirstCutStep(l, x);
    } else {
      assert l[..0] + l[1..] == l[1..];
    }
  }

  /** The step of `RemoveFirstCut` past a head that differs from `x`. */
  lemma RemoveFirstCutStep<T>(l: seq<T>, x: T)
    requires l != [] && l[0] != x && x in l[1..]
    requires RemoveFirst(l[1..], x) == l[1..][..IndexOf(l[1..], x)] + l[1..][IndexOf(l[1..], x) + 1..]
    ensures RemoveFirst(l, x) == l[..IndexOf(l, x)] + l[IndexOf(l, x) + 1..]
  {
    IndexOfTail(l, x);
    CutTail(l, IndexOf(l[1..], x));
  }

  /** Removing an element just appended to a list that did not hold it gives
      the list back. */
  lemma {:induction false} RemoveFirstAppended<T>(l: seq<T>, x: T)
    requires x !in l
    ensures RemoveFirst(l + [x], x) == l
  {
    if l != [] {
      assert (l + [x])[1..] == l[1..] + [x];
      RemoveFirstAppended(l[1..], x);
    }
  }

  /** On a list without repeats, `list.remove(x)` removes every `x` and
      keeps every other element in order. */
  lemma {:induction false} RemoveFirstOfDistinct<T>(l: seq<T>, x: T)
    requires Distinct(l)
    ensures RemoveFirst(l, x) == Keep(l, [x])
  {
    if l != [] {
      DistinctTail(l);
      if l[0] == x {
        KeepNone(l[1..], [x]);
      } else {
        RemoveFirstOfDistinct(l[1..], x);
      }
    }
  }

  /** On a list without repeats, `list.remove(x)` leaves no `x` and no
      repeats. */
  lemma RemoveFirstDistinct<T>(l: seq<T>, x: T)
    requires Distinct(l)
    ensures x !in RemoveFirst(l, x)
    ensures Distinct(RemoveFirst(l, x))
  {
    RemoveFirstOfDistinct(l, x);
  }
}
