/** Faces as the polyhedron builder receives them, and the vertex layout it
    produces: every point of every outer loop gets the next integer id, in
    face order and then loop order, with no merging of equal coordinates. */
module MeshSpec {

  /** A planar face: one outer loop plus inner loops (holes). The builder only
      ever reads `outer`. Points are opaque: only their order matters. */
  datatype Face<P> = Face(outer: seq<P>, inner: seq<seq<P>>)

  /** The points of all outer loops, face after face. */
  function Flatten<P>(faces: seq<Face<P>>): seq<P>
  {
    if faces == [] then [] else Flatten(faces[..|faces| - 1]) + faces[|faces| - 1].outer
  }

  /** Sum of the lengths of all outer loops. */
  function TotalLength<P>(faces: seq<Face<P>>): nat
  {
    if faces == [] then 0 else TotalLength(faces[..|faces| - 1]) + |faces[|faces| - 1].outer|
  }

  /** The id of the first vertex of facet k: the total length of the earlier outer loops. */
  function Offset<P>(faces: seq<Face<P>>, k: nat): nat
    requires k <= |faces|
  {
    TotalLength(faces[..k])
  }

  /** The consecutive ids start, start + 1, ..., start + len - 1. */
  function Run(start: nat, len: nat): (r: seq<nat>)
    ensures |r| == len
    ensures forall j :: 0 <= j < len ==> r[j] == start + j
  {
    seq(len, j requires 0 <= j < len => start + j)
  }

  /** The vertex ids of every facet, in face order. */
  function FacetRuns<P>(faces: seq<Face<P>>): (r: seq<seq<nat>>)
    ensures |r| == |faces|
  {
    seq(|faces|, k requires 0 <= k < |faces| => Run(Offset(faces, k), |faces[k].outer|))
  }

  /** The concatenation of a list of id lists. */
  function Concat(runs: seq<seq<nat>>): seq<nat>
  {
    if runs == [] then [] else Concat(runs[..|runs| - 1]) + runs[|runs| - 1]
  }

  /** Every id of every facet is below n. */
  predicate IdsBelow(facets: seq<seq<nat>>, n: nat)
  {
    forall k, j :: 0 <= k < |facets| && 0 <= j < |facets[k]| ==> facets[k][j] < n
  }

  /** The outer loops of two face lists agree, whatever their holes. */
  ghost predicate SameOuters<P>(faces: seq<Face<P>>, faces': seq<Face<P>>)
  {
    |faces| == |faces'| && forall k :: 0 <= k < |faces| ==> faces[k].outer == faces'[k].outer
  }

  lemma {:induction false} FlattenLength<P>(faces: seq<Face<P>>)
    ensures |Flatten(faces)| == TotalLength(faces)
  {
    if faces != [] {
      FlattenLength(faces[..|faces| - 1]);
    }
  }

  lemma {:induction false} FlattenAppend<P>(a: seq<Face<P>>, b: seq<Face<P>>)
    ensures Flatten(a + b) == Flatten(a) + Flatten(b)
  {
    if b == [] {
      assert a + b == a;
    } else {
      var b0 := b[..|b| - 1];
      assert (a + b)[..|a + b| - 1] == a + b0;
      FlattenAppend(a, b0);
    }
  }

  /** Extending the face list by one face adds that face's loop length to the offset. */
  lemma OffsetStep<P>(faces: seq<Face<P>>, k: nat)
    requires k < |faces|
    ensures Offset(faces, k + 1) == Offset(faces, k) + |faces[k].outer|
  {
    assert faces[..k + 1][..k] == faces[..k];
  }

  lemma {:induction false} OffsetMonotone<P>(faces: seq<Face<P>>, k: nat, k': nat)
    requires k <= k' <= |faces|
    ensures Offset(faces, k) <= Offset(faces, k')
    decreases k' - k
  {
    if k < k' {
      OffsetStep(faces, k);
      OffsetMonotone(faces, k + 1, k');
    }
  }

  /** The facet lists of a prefix of the faces are the prefix of the facet lists. */
  lemma FacetRunsPrefix<P>(faces: seq<Face<P>>, i: nat)
    requires i <= |faces|
    ensures FacetRuns(faces[..i]) == FacetRuns(faces)[..i]
  {
    forall k | 0 <= k < i
      ensures FacetRuns(faces[..i])[k] == FacetRuns(faces)[k]
    {
      assert faces[..i][..k] == faces[..k];
    }
  }

  /** The id j of facet k names exactly the point j of face k's outer loop. */
  lemma FacetIdNamesPoint<P>(faces: seq<Face<P>>, k: nat, j: nat)
    requires k < |faces| && j < |faces[k].outer|
    ensures FacetRuns(faces)[k][j] == Offset(faces, k) + j
    ensures FacetRuns(faces)[k][j] < |Flatten(faces)|
    ensures Flatten(faces)[FacetRuns(faces)[k][j]] == faces[k].outer[j]
  {
    var before, rest := faces[..k], faces[k + 1..];
    assert faces == before + [faces[k]] + rest;
    FlattenAppend(before + [faces[k]], rest);
    FlattenAppend(before, [faces[k]]);
    assert Flatten([faces[k]]) == faces[k].outer by {
      assert [faces[k]][..0] == [];
    }
    FlattenLength(before);
  }

  /** Every facet id is below the number of points, which is the sum of the loop lengths. */
  lemma FacetIdsInRange<P>(faces: seq<Face<P>>)
    ensures |Flatten(faces)| == TotalLength(faces)
    ensures IdsBelow(FacetRuns(faces), TotalLength(faces))
  {
    FlattenLength(faces);
    forall k, j | 0 <= k < |faces| && 0 <= j < |FacetRuns(faces)[k]|
      ensures FacetRuns(faces)[k][j] < TotalLength(faces)
    {
      FacetIdNamesPoint(faces, k, j);
    }
  }

  /** Two different positions (facet k, corner j) never share an id, even when the
      points there are equal: there is no coordinate-based merging. */
  lemma NoMerging<P>(faces: seq<Face<P>>, k: nat, j: nat, k': nat, j': nat)
    requires k < |faces| && j < |faces[k].outer|
    requires k' < |faces| && j' < |faces[k'].outer|
    requires (k, j) != (k', j')
    ensures FacetRuns(faces)[k][j] != FacetRuns(faces)[k'][j']
  {
    if k < k' {
      OffsetStep(faces, k);
      OffsetMonotone(faces, k + 1, k');
    } else if k' < k {
      OffsetStep(faces, k');
      OffsetMonotone(faces, k' + 1, k);
    }
  }

  lemma RunSplit(a: nat, b: nat)
    ensures Run(0, a) + Run(a, b) == Run(0, a + b)
  {
  }

  /** Read facet after facet, the ids are exactly 0, 1, ..., n - 1: each id of the
      n points occurs in exactly one facet, exactly once. */
  lemma {:induction false} FacetRunsPartitionIds<P>(faces: seq<Face<P>>)
    ensures Concat(FacetRuns(faces)) == Run(0, TotalLength(faces))
  {
    if faces != [] {
      var n := |faces| - 1;
      var init := faces[..n];
      FacetRunsPartitionIds(init);
      FacetRunsPrefix(faces, n);
      assert FacetRuns(faces)[..n] == FacetRuns(init);
      assert faces[..n] == init;
      RunSplit(TotalLength(init), |faces[n].outer|);
    }
  }

  /** Inner loops contribute nothing: only the outer loops decide the layout. */
  lemma {:induction false} InnerLoopsIgnored<P>(faces: seq<Face<P>>, faces': seq<Face<P>>)
    requires SameOuters(faces, faces')
    ensures Flatten(faces) == Flatten(faces')
    ensures TotalLength(faces) == TotalLength(faces')
    ensures FacetRuns(faces) == FacetRuns(faces')
  {
    if faces != [] {
      var n := |faces| - 1;
      InnerLoopsIgnored(faces[..n], faces'[..n]);
      forall k | 0 <= k < |faces|
        ensures Offset(faces, k) == Offset(faces', k)
      {
        InnerLoopsIgnoredPrefix(faces, faces', k);
      }
    }
  }

  lemma {:induction false} InnerLoopsIgnoredPrefix<P>(faces: seq<Face<P>>, faces': seq<Face<P>>, k: nat)
    requires SameOuters(faces, faces') && k <= |faces|
    ensures TotalLength(faces[..k]) == TotalLength(faces'[..k])
    decreases k
  {
    if k > 0 {
      assert faces[..k][..k - 1] == faces[..k - 1];
      assert faces'[..k][..k - 1] == faces'[..k - 1];
      InnerLoopsIgnoredPrefix(faces, faces', k - 1);
    }
  }
}
