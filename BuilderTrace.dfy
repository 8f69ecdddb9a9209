/** The calls the polyhedron builder makes on CGAL's incremental builder,
    recorded as an append-only event log, and a decoder that reads such a log
    back as the points and facets it describes. */
module BuilderTrace {
  import opened Wrappers
  import opened MeshSpec

  /** One call on the incremental builder. */
  datatype Event<P> =
    | BeginSurface(vertices: nat, facets: nat)
    | AddVertex(point: P)
    | BeginFacet
    | AddVertexToFacet(index: nat)
    | EndFacet
    | EndSurface

  /** What a well-formed log describes: the vertices and, per facet, its vertex ids. */
  datatype Surface<P> = Surface(points: seq<P>, facets: seq<seq<nat>>)

  /** One add_vertex per point, in order. */
  function VertexEvents<P>(points: seq<P>): (r: seq<Event<P>>)
    ensures |r| == |points|
    ensures forall i :: 0 <= i < |points| ==> r[i] == AddVertex(points[i])
  {
    seq(|points|, i requires 0 <= i < |points| => AddVertex(points[i]))
  }

  /** One add_vertex_to_facet per id, in order. */
  function IdEvents<P>(ids: seq<nat>): (r: seq<Event<P>>)
    ensures |r| == |ids|
    ensures forall i :: 0 <= i < |ids| ==> r[i] == AddVertexToFacet(ids[i])
  {
    seq(|ids|, i requires 0 <= i < |ids| => AddVertexToFacet(ids[i]))
  }

  /** begin_facet, the facet's ids, end_facet. */
  function FacetBlock<P>(ids: seq<nat>): seq<Event<P>>
  {
    [BeginFacet] + IdEvents(ids) + [EndFacet]
  }

  /** The facet blocks of all facets, in order. */
  function FacetEvents<P>(facets: seq<seq<nat>>): seq<Event<P>>
  {
    if facets == [] then [] else FacetBlock(facets[0]) + FacetEvents(facets[1..])
  }

  /** The call sequence for a surface with the given points and facets. */
  function Emit<P>(points: seq<P>, facets: seq<seq<nat>>): seq<Event<P>>
  {
    [BeginSurface(|points|, |facets|)] + VertexEvents(points) + FacetEvents(facets) + [EndSurface]
  }

  /** The call sequence the polyhedron builder makes for a face list. */
  function Trace<P>(faces: seq<Face<P>>): seq<Event<P>>
  {
    Emit(Flatten(faces), FacetRuns(faces))
  }

  /** Events that may occur inside the facet part of a log. */
  predicate IsFacetEvent<P>(e: Event<P>)
  {
    e.BeginFacet? || e.AddVertexToFacet? || e.EndFacet?
  }

  /** Splits a log into its longest prefix of add_vertex events and the rest. */
  function ParseVertices<P>(log: seq<Event<P>>): (r: (seq<P>, seq<Event<P>>))
    ensures log == VertexEvents(r.0) + r.1
    ensures r.1 == [] || !r.1[0].AddVertex?
  {
    if log != [] && log[0].AddVertex? then
      var (points, rest) := ParseVertices(log[1..]);
      assert VertexEvents([log[0].point] + points) == [log[0]] + VertexEvents(points);
      ([log[0].point] + points, rest)
    else
      assert VertexEvents<P>([]) == [];
      ([], log)
  }

  /** Splits a log into its longest prefix of add_vertex_to_facet events and the rest. */
  function ParseIds<P>(log: seq<Event<P>>): (r: (seq<nat>, seq<Event<P>>))
    ensures log == IdEvents(r.0) + r.1
    ensures r.1 == [] || !r.1[0].AddVertexToFacet?
  {
    if log != [] && log[0].AddVertexToFacet? then
      var (ids, rest) := ParseIds(log[1..]);
      assert IdEvents<P>([log[0].index] + ids) == [log[0]] + IdEvents(ids);
      ([log[0].index] + ids, rest)
    else
      assert IdEvents<P>([]) == [];
      ([], log)
  }

  /** Reads a log made only of facet blocks; None when it is not one. */
  function ParseFacets<P>(log: seq<Event<P>>): (r: Option<seq<seq<nat>>>)
    ensures r.Some? ==> log == FacetEvents(r.value)
    decreases |log|
  {
    if log == [] then Some([])
    else if !log[0].BeginFacet? then None
    else
      var (ids, rest) := ParseIds(log[1..]);
      if rest == [] || !rest[0].EndFacet? then None
      else
        match ParseFacets(rest[1..])
        case None => None
        case Some(facets) =>
          FacetBlockSplit(log, ids, rest);
          assert ([ids] + facets)[1..] == facets;
          Some([ids] + facets)
  }

  /** Reads a complete log: begin_surface(n, m), n vertices, m facet blocks whose
      ids are all below n, end_surface. None for any other log. */
  function Decode<P>(log: seq<Event<P>>): (r: Option<Surface<P>>)
    ensures r.Some? ==> log == Emit(r.value.points, r.value.facets)
    ensures r.Some? ==> IdsBelow(r.value.facets, |r.value.points|)
  {
    if |log| < 2 || !log[0].BeginSurface? || !log[|log| - 1].EndSurface? then None
    else
      var (points, rest) := ParseVertices(log[1..|log| - 1]);
      match ParseFacets(rest)
      case None => None
      case Some(facets) =>
        if |points| == log[0].vertices && |facets| == log[0].facets && IdsBelow(facets, |points|) then
          assert log == [log[0]] + log[1..|log| - 1] + [log[|log| - 1]];
          Some(Surface(points, facets))
        else None
  }

  /** A block read as begin_facet, ids, end_facet is the FacetBlock of those ids. */
  lemma FacetBlockSplit<P>(log: seq<Event<P>>, ids: seq<nat>, rest: seq<Event<P>>)
    requires log != [] && log[0] == BeginFacet && log[1..] == IdEvents(ids) + rest
    requires rest != [] && rest[0] == EndFacet
    ensures log == FacetBlock(ids) + rest[1..]
  {
    assert log == [log[0]] + log[1..];
    assert rest == [rest[0]] + rest[1..];
  }

  lemma {:induction false} FacetEventsAppend<P>(facets: seq<seq<nat>>, ids: seq<nat>)
    ensures FacetEvents<P>(facets + [ids]) == FacetEvents<P>(facets) + FacetBlock(ids)
  {
    if facets == [] {
      assert [] + [ids] == [ids];
      assert [ids][1..] == [];
    } else {
      assert (facets + [ids])[1..] == facets[1..] + [ids];
      FacetEventsAppend<P>(facets[1..], ids);
    }
  }

  lemma VertexEventsPrefix<P>(points: seq<P>, i: nat)
    requires i < |points|
    ensures VertexEvents(points[..i + 1]) == VertexEvents(points[..i]) + [AddVertex(points[i])]
  {
  }

  lemma IdEventsPrefix<P>(ids: seq<nat>, j: nat)
    requires j < |ids|
    ensures IdEvents<P>(ids[..j + 1]) == IdEvents<P>(ids[..j]) + [AddVertexToFacet(ids[j])]
  {
  }

  lemma FacetEventsPrefix<P>(facets: seq<seq<nat>>, k: nat)
    requires k < |facets|
    ensures FacetEvents<P>(facets[..k + 1]) == FacetEvents<P>(facets[..k]) + FacetBlock(facets[k])
  {
    assert facets[..k + 1] == facets[..k] + [facets[k]];
    FacetEventsAppend<P>(facets[..k], facets[k]);
  }

  /** Emitting the four parts one after another onto a log appends Emit. */
  lemma EmitAfter<P>(log: seq<Event<P>>, points: seq<P>, facets: seq<seq<nat>>)
    ensures log + [BeginSurface(|points|, |facets|)] + VertexEvents(points) + FacetEvents(facets) + [EndSurface]
         == log + Emit(points, facets)
  {
    ConcatAssociative(log, [BeginSurface(|points|, |facets|)], VertexEvents(points), FacetEvents(facets), [EndSurface]);
  }

  lemma ConcatAssociative<T>(a: seq<T>, b: seq<T>, c: seq<T>, d: seq<T>, e: seq<T>)
    ensures a + b + c + d + e == a + (b + c + d + e)
  {
  }

  lemma {:induction false} FacetEventsAreFacetEvents<P>(facets: seq<seq<nat>>)
    ensures forall i :: 0 <= i < |FacetEvents<P>(facets)| ==> IsFacetEvent(FacetEvents<P>(facets)[i])
  {
    if facets != [] {
      FacetEventsAreFacetEvents<P>(facets[1..]);
    }
  }

  lemma {:induction false} ParseVerticesOfEmitted<P>(points: seq<P>, rest: seq<Event<P>>)
    requires rest == [] || !rest[0].AddVertex?
    ensures ParseVertices(VertexEvents(points) + rest) == (points, rest)
  {
    if points != [] {
      assert (VertexEvents(points) + rest)[1..] == VertexEvents(points[1..]) + rest;
      ParseVerticesOfEmitted(points[1..], rest);
      assert [points[0]] + points[1..] == points;
    } else {
      assert VertexEvents(points) + rest == rest;
    }
  }

  lemma {:induction false} ParseIdsOfEmitted<P>(ids: seq<nat>, rest: seq<Event<P>>)
    requires rest == [] || !rest[0].AddVertexToFacet?
    ensures ParseIds(IdEvents(ids) + rest) == (ids, rest)
  {
    if ids != [] {
      assert (IdEvents<P>(ids) + rest)[1..] == IdEvents<P>(ids[1..]) + rest;
      ParseIdsOfEmitted(ids[1..], rest);
      assert [ids[0]] + ids[1..] == ids;
    } else {
      assert IdEvents<P>(ids) + rest == rest;
    }
  }

  /** Facet blocks read back as the facets they were emitted from. */
  lemma {:induction false} ParseFacetsOfEmitted<P>(facets: seq<seq<nat>>)
    ensures ParseFacets(FacetEvents<P>(facets)) == Some(facets)
  {
    if facets != [] {
      var log := FacetEvents<P>(facets);
      var tail := [EndFacet] + FacetEvents<P>(facets[1..]);
      assert log == [BeginFacet] + (IdEvents(facets[0]) + tail);
      assert log[1..] == IdEvents(facets[0]) + tail;
      ParseIdsOfEmitted(facets[0], tail);
      assert tail[1..] == FacetEvents<P>(facets[1..]);
      ParseFacetsOfEmitted<P>(facets[1..]);
      assert [facets[0]] + facets[1..] == facets;
    }
  }

  /** Decoding an emitted log gives back its points and facets, whenever every id
      names one of the points. With the ensures of Decode this makes Decode and
      Emit inverse to each other. */
  lemma DecodeEmit<P>(points: seq<P>, facets: seq<seq<nat>>)
    requires IdsBelow(facets, |points|)
    ensures Decode(Emit(points, facets)) == Some(Surface(points, facets))
  {
    var log := Emit(points, facets);
    var middle := VertexEvents(points) + FacetEvents<P>(facets);
    assert log[1..|log| - 1] == middle;
    var fe := FacetEvents<P>(facets);
    assert fe == [] || fe[0] == BeginFacet by {
      if facets != [] {
        assert fe == [BeginFacet] + (IdEvents(facets[0]) + [EndFacet] + FacetEvents<P>(facets[1..]));
      }
    }
    ParseVerticesOfEmitted(points, fe);
    ParseFacetsOfEmitted<P>(facets);
  }

  /** The builder's log is well formed: it decodes to the concatenated outer loops
      as vertices and one facet per face with that face's consecutive ids. */
  lemma DecodeTrace<P>(faces: seq<Face<P>>)
    ensures Decode(Trace(faces)) == Some(Surface(Flatten(faces), FacetRuns(faces)))
  {
    FacetIdsInRange(faces);
    DecodeEmit(Flatten(faces), FacetRuns(faces));
  }

  /** The shape of the builder's log: begin_surface first, announcing the total
      loop length and the number of faces; then exactly the points of every
      outer loop, face after face; then only facet events; end_surface last. */
  lemma TraceShape<P>(faces: seq<Face<P>>)
    ensures var t, n := Trace(faces), TotalLength(faces);
      && |t| >= n + 2
      && t[0] == BeginSurface(n, |faces|)
      && t[|t| - 1] == EndSurface
      && (forall i :: 1 <= i <= n ==> t[i] == AddVertex(Flatten(faces)[i - 1]))
      && (forall i :: n < i < |t| - 1 ==> IsFacetEvent(t[i]))
  {
    FlattenLength(faces);
    FacetEventsAreFacetEvents<P>(FacetRuns(faces));
    EmitLayout(Flatten(faces), FacetRuns(faces));
  }

  /** Where each part of an emitted log sits. */
  lemma EmitLayout<P>(points: seq<P>, facets: seq<seq<nat>>)
    ensures var t, n, fe := Emit(points, facets), |points|, FacetEvents<P>(facets);
      && |t| == n + |fe| + 2
      && t[0] == BeginSurface(n, |facets|)
      && t[|t| - 1] == EndSurface
      && (forall i :: 1 <= i <= n ==> t[i] == AddVertex(points[i - 1]))
      && (forall i :: n < i < |t| - 1 ==> t[i] == fe[i - n - 1])
  {
    var n, ve, fe := |points|, VertexEvents(points), FacetEvents<P>(facets);
    var t := Emit(points, facets);
    var tail := ve + fe + [EndSurface];
    assert t == [BeginSurface(n, |facets|)] + tail;
    forall i | 1 <= i <= n
      ensures t[i] == AddVertex(points[i - 1])
    {
      assert t[i] == tail[i - 1] == ve[i - 1];
    }
    forall i | n < i < |t| - 1
      ensures t[i] == fe[i - n - 1]
    {
      assert t[i] == tail[i - 1] == fe[i - n - 1];
    }
  }

  /** Every add_vertex precedes every facet event. */
  lemma VerticesBeforeFacets<P>(faces: seq<Face<P>>, i: nat, j: nat)
    requires i < j < |Trace(faces)|
    requires Trace(faces)[j].AddVertex?
    ensures !IsFacetEvent(Trace(faces)[i])
  {
    TraceShape(faces);
  }

  /** Only the outer loops reach the builder: holes do not change the log. */
  lemma TraceIgnoresInnerLoops<P>(faces: seq<Face<P>>, faces': seq<Face<P>>)
    requires SameOuters(faces, faces')
    ensures Trace(faces) == Trace(faces')
  {
    InnerLoopsIgnored(faces, faces');
  }

  /** A face with an empty outer loop still gets its (empty) facet block. */
  lemma EmptyOuterLoop<P>(faces: seq<Face<P>>, k: nat)
    requires k < |faces| && faces[k].outer == []
    ensures FacetRuns(faces)[k] == []
    ensures FacetEvents<P>(FacetRuns(faces)[..k + 1]) == FacetEvents<P>(FacetRuns(faces)[..k]) + [BeginFacet, EndFacet]
  {
    FacetEventsPrefix<P>(FacetRuns(faces), k);
    assert IdEvents<P>([]) == [];
  }

  /** The smallest case: one face with an empty outer loop, whatever its holes. */
  lemma EmptyOuterLoopExample<P>(holes: seq<seq<P>>)
    ensures Trace([Face([], holes)]) == [BeginSurface(0, 1), BeginFacet, EndFacet, EndSurface]
  {
    var faces := [Face([], holes)];
    assert faces[..0] == [];
    assert Flatten(faces) == [];
    assert FacetRuns(faces) == [[]];
    assert FacetEvents<P>([[]]) == [BeginFacet, EndFacet] by {
      var runs: seq<seq<nat>> := [[]];
      assert runs[1..] == [];
    }
  }

  /** The same point twice in one loop and once more in a second face: three
      vertices, three distinct ids. */
  lemma RepeatedPointNotMerged<P>(p: P)
    ensures Trace([Face([p, p], []), Face([p], [[p]])]) ==
      [ BeginSurface(3, 2), AddVertex(p), AddVertex(p), AddVertex(p)
      , BeginFacet, AddVertexToFacet(0), AddVertexToFacet(1), EndFacet
      , BeginFacet, AddVertexToFacet(2), EndFacet
      , EndSurface ]
  {
    var faces := [Face([p, p], []), Face([p], [[p]])];
    var runs: seq<seq<nat>> := [[0, 1], [2]];
    assert Flatten(faces) == [p, p, p] by {
      assert faces[..1] == [faces[0]];
      assert faces[..1][..0] == [];
      assert Flatten(faces[..1]) == [p, p];
    }
    assert FacetRuns(faces) == runs by {
      assert faces[..0] == [];
      assert faces[..1] == [faces[0]];
      assert faces[..1][..0] == [];
      assert TotalLength(faces[..1][..0]) == 0;
      assert TotalLength(faces[..1]) == 2;
      assert Offset(faces, 1) == 2;
      assert FacetRuns(faces)[0] == Run(0, 2) == [0, 1];
      assert FacetRuns(faces)[1] == Run(2, 1) == [2];
    }
    assert VertexEvents([p, p, p]) == [AddVertex(p), AddVertex(p), AddVertex(p)];
    assert FacetEvents<P>(runs) ==
      [BeginFacet, AddVertexToFacet(0), AddVertexToFacet(1), EndFacet, BeginFacet, AddVertexToFacet(2), EndFacet] by {
      assert runs[1..] == [[2]];
      assert runs[1..][1..] == [];
      assert IdEvents<P>([0, 1]) == [AddVertexToFacet(0), AddVertexToFacet(1)];
      assert IdEvents<P>([2]) == [AddVertexToFacet(2)];
    }
  }

}
