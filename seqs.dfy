/** Order-preserving selection from a sequence, as done by list
    comprehensions and boolean-mask indexing in the modelled program. */
module Seqs {

  /** The elements of `s` that satisfy `keep`, in their original order. */
  function Filter<T>(s: seq<T>, keep: T -> bool): (r: seq<T>)
    ensures |r| <= |s|
  {
    if |s| == 0 then []
    else Filter(s[..|s| - 1], keep) + (if keep(s[|s| - 1]) then [s[|s| - 1]] else [])
  }

  /** `f` applied to each element of `xs`, in order. */
  function Map<A, B>(xs: seq<A>, f: A --> B): (ys: seq<B>)
    requires forall i :: 0 <= i < |xs| ==> f.requires(xs[i])
    ensures |ys| == |xs|
    ensures forall i :: 0 <= i < |xs| ==> ys[i] == f(xs[i])
  {
    if |xs| == 0 then [] else Map(xs[..|xs| - 1], f) + [f(xs[|xs| - 1])]
  }

  /** The positions of `s` whose element satisfies `keep`, in increasing order. */
  function Positions<T>(s: seq<T>, keep: T -> bool): (idx: seq<nat>)
    ensures forall j :: 0 <= j < |idx| ==> idx[j] < |s| && keep(s[idx[j]])
    ensures forall j, j' :: 0 <= j < j' < |idx| ==> idx[j] < idx[j']
  {
    if |s| == 0 then []
    else
      var n := |s| - 1;
      var rest := Positions(s[..n], keep);
      assert forall j :: 0 <= j < |rest| ==> s[..n][rest[j]] == s[rest[j]];
      rest + (if keep(s[n]) then [n] else [])
  }

  /** Every kept element comes from `s` and satisfies `keep`, and every
      element of `s` that satisfies `keep` is kept. */
  lemma {:induction false} FilterMembers<T>(s: seq<T>, keep: T -> bool)
    ensures forall j :: 0 <= j < |Filter(s, keep)| ==> Filter(s, keep)[j] in s && keep(Filter(s, keep)[j])
    ensures forall i :: 0 <= i < |s| && keep(s[i]) ==> s[i] in Filter(s, keep)
  {
    if |s| > 0 {
      var n := |s| - 1;
      FilterMembers(s[..n], keep);
      var f := Filter(s[..n], keep);
      assert Filter(s, keep) == f + (if keep(s[n]) then [s[n]] else []);
      forall i | 0 <= i < |s| && keep(s[i]) ensures s[i] in Filter(s, keep) {
        if i < n {
          assert s[..n][i] == s[i];
        }
      }
    }
  }

  /** Every position whose element satisfies `keep` is listed. */
  lemma {:induction false} PositionsComplete<T>(s: seq<T>, keep: T -> bool)
    ensures forall i :: 0 <= i < |s| && keep(s[i]) ==> i in Positions(s, keep)
  {
    if |s| > 0 {
      var n := |s| - 1;
      PositionsComplete(s[..n], keep);
      forall i | 0 <= i < |s| && keep(s[i]) ensures i in Positions(s, keep) {
        if i < n {
          assert s[..n][i] == s[i];
        }
      }
    }
  }

  lemma FilterSnoc<T>(s: seq<T>, x: T, keep: T -> bool)
    ensures Filter(s + [x], keep) == Filter(s, keep) + (if keep(x) then [x] else [])
  {
    assert (s + [x])[..|s|] == s;
  }

  /** Filter picks exactly the elements at the positions Positions lists. */
  lemma {:induction false} FilterAt<T>(s: seq<T>, keep: T -> bool)
    ensures |Filter(s, keep)| == |Positions(s, keep)|
    ensures forall j :: 0 <= j < |Positions(s, keep)| ==>
      Filter(s, keep)[j] == s[Positions(s, keep)[j]]
  {
    if |s| > 0 {
      var n := |s| - 1;
      var f, p := Filter(s[..n], keep), Positions(s[..n], keep);
      FilterAt(s[..n], keep);
      var tail := if keep(s[n]) then [s[n]] else [];
      var tailIdx := if keep(s[n]) then [n] else [];
      assert Filter(s, keep) == f + tail;
      assert Positions(s, keep) == p + tailIdx;
      forall j | 0 <= j < |p + tailIdx|
        ensures (f + tail)[j] == s[(p + tailIdx)[j]]
      {
        if j < |p| {
          assert f[j] == s[..n][p[j]];
        }
      }
    }
  }
}
