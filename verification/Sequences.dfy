/** Finite-sequence vocabulary shared by the models: filtering, reversal and first-occurrence
    deduplication, with the few laws the proofs need. */
module Sequences {

  datatype Option<+T> = None | Some(value: T)

  datatype Result<+T, +E> = Ok(value: T) | Err(error: E)

  function Last<T>(s: seq<T>): T
    requires s != []
  {
    s[|s| - 1]
  }

  function Reverse<T>(s: seq<T>): (r: seq<T>)
    ensures |r| == |s|
    ensures forall i :: 0 <= i < |s| ==> r[i] == s[|s| - 1 - i]
  {
    if s == [] then [] else Reverse(s[1..]) + [s[0]]
  }

  lemma ReverseInvolutive<T>(s: seq<T>)
    ensures Reverse(Reverse(s)) == s
  {
  }

  lemma ReverseConcat<T>(a: seq<T>, b: seq<T>)
    ensures Reverse(a + b) == Reverse(b) + Reverse(a)
  {
  }

  /** The elements of `s` that satisfy `keep`, in order. */
  function Filter<T>(s: seq<T>, keep: T -> bool): (r: seq<T>)
    ensures |r| <= |s|
  {
    if s == [] then []
    else Filter(s[..|s| - 1], keep) + (if keep(Last(s)) then [Last(s)] else [])
  }

  lemma FilterMember<T>(s: seq<T>, keep: T -> bool, x: T)
    ensures x in Filter(s, keep) <==> x in s && keep(x)
  {
    if s != [] {
      FilterMember(s[..|s| - 1], keep, x);
      assert s == s[..|s| - 1] + [Last(s)];
    }
  }

  lemma FilterConcat<T>(a: seq<T>, b: seq<T>, keep: T -> bool)
    ensures Filter(a + b, keep) == Filter(a, keep) + Filter(b, keep)
  {
    if b == [] {
      assert a + b == a;
    } else {
      FilterConcat(a, b[..|b| - 1], keep);
      assert (a + b)[..|a + b| - 1] == a + b[..|b| - 1];
    }
  }

  lemma FilterAll<T>(s: seq<T>, keep: T -> bool)
    requires forall x :: x in s ==> keep(x)
    ensures Filter(s, keep) == s
  {
    if s != [] {
      FilterAll(s[..|s| - 1], keep);
    }
  }

  lemma FilterNone<T>(s: seq<T>, keep: T -> bool)
    requires forall x :: x in s ==> !keep(x)
    ensures Filter(s, keep) == []
  {
    if s != [] {
      FilterNone(s[..|s| - 1], keep);
    }
  }

  /** When `keep` rejects the first `k` elements and accepts the rest, filtering drops the front. */
  lemma FilterSuffix<T>(s: seq<T>, keep: T -> bool, k: nat)
    requires k <= |s|
    requires forall i :: 0 <= i < k ==> !keep(s[i])
    requires forall i :: k <= i < |s| ==> keep(s[i])
    ensures Filter(s, keep) == s[k..]
  {
    assert s == s[..k] + s[k..];
    FilterConcat(s[..k], s[k..], keep);
    FilterNone(s[..k], keep);
    FilterAll(s[k..], keep);
  }

  /** Filtering depends only on what is kept of the sequence's own elements. */
  lemma FilterAgrees<T>(s: seq<T>, keep: T -> bool, keep': T -> bool)
    requires forall x :: x in s ==> (keep(x) <==> keep'(x))
    ensures Filter(s, keep) == Filter(s, keep')
  {
    if s != [] {
      FilterAgrees(s[..|s| - 1], keep, keep');
      assert Last(s) in s;
    }
  }

  /** When `keep` accepts exactly one stretch, filtering is slicing. */
  lemma FilterStretch<T>(s: seq<T>, keep: T -> bool, i: nat, j: nat)
    requires i <= j <= |s|
    requires forall k :: 0 <= k < |s| ==> (keep(s[k]) <==> i <= k < j)
    ensures Filter(s, keep) == s[i..j]
  {
    hide Filter;
    var front, middle, back := s[..i], s[i..j], s[j..];
    SplitTwice(s, i, j);
    FilterNone(front, keep);
    FilterAll(middle, keep);
    FilterNone(back, keep);
    FilterConcat(front + middle, back, keep);
    FilterConcat(front, middle, keep);
  }

  lemma SplitTwice<T>(s: seq<T>, i: nat, j: nat)
    requires i <= j <= |s|
    ensures s == s[..i] + s[i..j] + s[j..]
    ensures forall x :: x in s[..i] ==> exists k :: 0 <= k < i && s[k] == x
    ensures forall x :: x in s[i..j] ==> exists k :: i <= k < j && s[k] == x
    ensures forall x :: x in s[j..] ==> exists k :: j <= k < |s| && s[k] == x
  {
  }

  lemma FilterReverse<T>(s: seq<T>, keep: T -> bool)
    ensures Filter(Reverse(s), keep) == Reverse(Filter(s, keep))
  {
    if s != [] {
      var init := s[..|s| - 1];
      assert s == init + [Last(s)];
      ReverseConcat(init, [Last(s)]);
      FilterConcat([Last(s)], Reverse(init), keep);
      FilterReverse(init, keep);
      ReverseConcat(Filter(init, keep), if keep(Last(s)) then [Last(s)] else []);
      assert Reverse([Last(s)]) == [Last(s)];
    }
  }

  /** First occurrences, in order. */
  function Distinct<T(==)>(s: seq<T>): (r: seq<T>)
  {
    if s == [] then []
    else
      var front := Distinct(s[..|s| - 1]);
      if Last(s) in front then front else front + [Last(s)]
  }

  ghost predicate NoRepeats<T>(s: seq<T>) {
    forall i, j :: 0 <= i < j < |s| ==> s[i] != s[j]
  }

  lemma DistinctSound<T>(s: seq<T>)
    ensures NoRepeats(Distinct(s))
    ensures forall x :: x in Distinct(s) <==> x in s
    ensures |Distinct(s)| <= |s|
  {
    if s != [] {
      DistinctSound(s[..|s| - 1]);
      assert s == s[..|s| - 1] + [Last(s)];
    }
  }

  /** One more element either repeats an earlier one or extends the result. */
  lemma DistinctSnoc<T>(s: seq<T>, x: T)
    ensures Distinct(s + [x]) == if x in s then Distinct(s) else Distinct(s) + [x]
  {
    assert (s + [x])[..|s|] == s;
    DistinctSound(s);
  }
}
