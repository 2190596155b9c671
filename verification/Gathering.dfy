/** Concatenating what a function gives for each element of a sequence, and positions in the result. */
module Gathering {
  import opened Lists

  function Gather<S, T>(xs: seq<S>, f: S -> seq<T>): seq<T>
  {
    if xs == [] then [] else Gather(xs[..|xs| - 1], f) + f(xs[|xs| - 1])
  }

  /** Where element `j` of part `i` is. */
  lemma {:induction false} GatherAt<S, T>(xs: seq<S>, f: S -> seq<T>, i: nat, j: nat) returns (p: nat)
    requires i < |xs| && j < |f(xs[i])|
    ensures p == |Gather(xs[..i], f)| + j < |Gather(xs, f)| && Gather(xs, f)[p] == f(xs[i])[j]
    ensures |Gather(xs[..i], f)| + |f(xs[i])| <= |Gather(xs, f)|
  {
    var n := |xs| - 1;
    if i == n {
      p := |Gather(xs[..n], f)| + j;
    } else {
      assert xs[..n][..i] == xs[..i];
      p := GatherAt(xs[..n], f, i, j);
    }
  }

  /** Where a position comes from. */
  lemma {:induction false} GatherFrom<S, T>(xs: seq<S>, f: S -> seq<T>, p: nat) returns (i: nat, j: nat)
    requires p < |Gather(xs, f)|
    ensures i < |xs| && j < |f(xs[i])| && p == |Gather(xs[..i], f)| + j && Gather(xs, f)[p] == f(xs[i])[j]
  {
    var n := |xs| - 1;
    var before := |Gather(xs[..n], f)|;
    if p < before {
      i, j := GatherFrom(xs[..n], f, p);
      assert xs[..n][..i] == xs[..i];
    } else {
      i, j := n, p - before;
    }
  }

  lemma GatherIn<S, T>(xs: seq<S>, f: S -> seq<T>, v: T)
    ensures v in Gather(xs, f) <==> exists i :: 0 <= i < |xs| && v in f(xs[i])
  {
    if v in Gather(xs, f) {
      var p :| 0 <= p < |Gather(xs, f)| && Gather(xs, f)[p] == v;
      var i, j := GatherFrom(xs, f, p);
      assert v in f(xs[i]);
    }
    if i :| 0 <= i < |xs| && v in f(xs[i]) {
      var j :| 0 <= j < |f(xs[i])| && f(xs[i])[j] == v;
      var p := GatherAt(xs, f, i, j);
    }
  }

  /** Different parts have different positions. */
  lemma Apart<S, T>(xs: seq<S>, f: S -> seq<T>, i: nat, j: nat, i': nat, j': nat)
    requires i < |xs| && j < |f(xs[i])| && i' < |xs| && j' < |f(xs[i'])|
    requires |Gather(xs[..i], f)| + j == |Gather(xs[..i'], f)| + j'
    ensures i == i' && j == j'
  {
    if i < i' {
      assert xs[..i'][..i] == xs[..i] && xs[..i'][i] == xs[i];
      var q := GatherAt(xs[..i'], f, i, j);
    } else if i' < i {
      assert xs[..i][..i'] == xs[..i'] && xs[..i][i'] == xs[i'];
      var q := GatherAt(xs[..i], f, i', j');
    }
  }

  /** Equal elements are one element: no two positions of no two parts hold the same. */
  ghost predicate OneEach<S(!new), T>(xs: seq<S>, f: S -> seq<T>)
  {
    forall i, j, i', j' ::
      (&& 0 <= i < |xs| && 0 <= j < |f(xs[i])| && 0 <= i' < |xs| && 0 <= j' < |f(xs[i'])|
       && f(xs[i])[j] == f(xs[i'])[j'])
      ==> i == i' && j == j'
  }

  lemma DistinctIff<S(!new), T>(xs: seq<S>, f: S -> seq<T>)
    ensures Distinct(Gather(xs, f)) <==> OneEach(xs, f)
  {
    if Distinct(Gather(xs, f)) {
      forall i, j, i', j' | 0 <= i < |xs| && 0 <= j < |f(xs[i])| && 0 <= i' < |xs| && 0 <= j' < |f(xs[i'])|
                            && f(xs[i])[j] == f(xs[i'])[j']
        ensures i == i' && j == j'
      {
        var p := GatherAt(xs, f, i, j);
        var p' := GatherAt(xs, f, i', j');
        assert p == p';
        Apart(xs, f, i, j, i', j');
      }
    }
    if OneEach(xs, f) {
      forall p, p' | 0 <= p < p' < |Gather(xs, f)| ensures Gather(xs, f)[p] != Gather(xs, f)[p'] {
        var i, j := GatherFrom(xs, f, p);
        var i', j' := GatherFrom(xs, f, p');
      }
    }
  }
}
