/** Optional values, used for map look-ups and for replies that may be missing. */
module Wrappers {
  datatype Option<+T> = None | Some(value: T)

  lemma AppendAssociates<T>(a: seq<T>, b: seq<T>, c: seq<T>)
    ensures a + b + c == a + (b + c)
  {
  }

  /** Steps through ts from s. */
  function Fold<S, T>(f: (S, T) -> S, s: S, ts: seq<T>): S {
    if ts == [] then s else f(Fold(f, s, ts[..|ts| - 1]), ts[|ts| - 1])
  }

  lemma FoldOneMore<S, T>(f: (S, T) -> S, s: S, ts: seq<T>, t: T)
    ensures Fold(f, s, ts + [t]) == f(Fold(f, s, ts), t)
  {
    assert (ts + [t])[..|ts|] == ts;
  }

  lemma {:induction false} FoldInTwoParts<S, T>(f: (S, T) -> S, s: S, first: seq<T>, second: seq<T>)
    ensures Fold(f, s, first + second) == Fold(f, Fold(f, s, first), second)
  {
    if second == [] {
      assert first + second == first;
    } else {
      var n := |second| - 1;
      FoldInTwoParts(f, s, first, second[..n]);
      assert (first + second)[..|first| + n] == first + second[..n];
    }
  }

  /** The elements to keep, in order. */
  function Filtered<T>(ts: seq<T>, keep: T -> bool): seq<T> {
    if ts == [] then []
    else
      var front, last := Filtered(ts[..|ts| - 1], keep), ts[|ts| - 1];
      if keep(last) then front + [last] else front
  }

  lemma FilteredOneMore<T>(ts: seq<T>, t: T, keep: T -> bool)
    ensures Filtered(ts + [t], keep) == if keep(t) then Filtered(ts, keep) + [t] else Filtered(ts, keep)
  {
    assert (ts + [t])[..|ts|] == ts;
  }

  lemma {:induction false} FilteredInTwoParts<T>(first: seq<T>, second: seq<T>, keep: T -> bool)
    ensures Filtered(first + second, keep) == Filtered(first, keep) + Filtered(second, keep)
  {
    if second == [] {
      assert first + second == first;
    } else {
      var front, last := second[..|second| - 1], second[|second| - 1];
      FilteredInTwoParts(first, front, keep);
      assert second == front + [last] && first + second == first + front + [last];
      FilteredOneMore(first + front, last, keep);
      FilteredOneMore(front, last, keep);
    }
  }

  lemma FilteredOne<T>(t: T, keep: T -> bool)
    ensures Filtered([t], keep) == if keep(t) then [t] else []
  {
    assert [t][..0] == [];
  }

  lemma {:induction false} FilteredGrows<T>(ts: seq<T>, m: nat, keep: T -> bool)
    requires m <= |ts|
    ensures Filtered(ts[..m], keep) <= Filtered(ts, keep)
    decreases |ts|
  {
    if m == |ts| {
      assert ts[..m] == ts;
    } else {
      FilteredGrows(ts[..|ts| - 1], m, keep);
      assert ts[..|ts| - 1][..m] == ts[..m];
    }
  }

  /** Where an element that is kept stands among those that are kept. */
  lemma PlaceAmongKept<T>(ts: seq<T>, m: nat, keep: T -> bool)
    requires m < |ts| && keep(ts[m])
    ensures var before, kept := Filtered(ts[..m], keep), Filtered(ts, keep);
            |before| < |kept| && kept[|before|] == ts[m] && kept[..|before|] == before
  {
    assert ts[..m + 1][..m] == ts[..m];
    FilteredGrows(ts, m + 1, keep);
  }

  /** The last element kept among the first m. */
  lemma {:induction false} LastKept<T>(ts: seq<T>, m: nat, keep: T -> bool) returns (l: nat)
    requires m <= |ts| && Filtered(ts[..m], keep) != []
    ensures l < m && keep(ts[l]) && forall i :: l < i < m ==> !keep(ts[i])
    ensures Filtered(ts[..m], keep) == Filtered(ts[..l], keep) + [ts[l]]
    decreases m
  {
    assert ts[..m][..m - 1] == ts[..m - 1];
    if keep(ts[m - 1]) {
      l := m - 1;
    } else {
      l := LastKept(ts, m - 1, keep);
    }
  }
}
