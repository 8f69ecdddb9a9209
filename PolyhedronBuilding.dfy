/** The polyhedron builder of the CGAL geometry kernel: it walks a face list,
    gives every outer-loop point a fresh vertex id, and drives CGAL's
    incremental builder, here an object that appends each call to the event
    log of the halfedge data structure it builds into. */
module PolyhedronBuilding {
  import opened MeshSpec
  import opened BuilderTrace

  /** The halfedge data structure being built, seen through the calls made on it. */
  class HalfedgeDS<P> {
    var log: seq<Event<P>>

    constructor ()
      ensures log == []
    {
      log := [];
    }
  }

  /** CGAL's incremental builder over a halfedge data structure: each call is
      appended to that structure's log and nothing else changes. */
  class IncrementalBuilder<P> {
    const hds: HalfedgeDS<P>

    constructor (hds: HalfedgeDS<P>)
      ensures this.hds == hds
    {
      this.hds := hds;
    }

    method BeginSurface(vertices: nat, facets: nat)
      modifies hds
      ensures hds.log == old(hds.log) + [Event.BeginSurface(vertices, facets)]
    {
      hds.log := hds.log + [Event.BeginSurface(vertices, facets)];
    }

    method AddVertex(point: P)
      modifies hds
      ensures hds.log == old(hds.log) + [Event.AddVertex(point)]
    {
      hds.log := hds.log + [Event.AddVertex(point)];
    }

    method BeginFacet()
      modifies hds
      ensures hds.log == old(hds.log) + [Event.BeginFacet]
    {
      hds.log := hds.log + [Event.BeginFacet];
    }

    method AddVertexToFacet(index: nat)
      modifies hds
      ensures hds.log == old(hds.log) + [Event.AddVertexToFacet(index)]
    {
      hds.log := hds.log + [Event.AddVertexToFacet(index)];
    }

    method EndFacet()
      modifies hds
      ensures hds.log == old(hds.log) + [Event.EndFacet]
    {
      hds.log := hds.log + [Event.EndFacet];
    }

    method EndSurface()
      modifies hds
      ensures hds.log == old(hds.log) + [Event.EndSurface]
    {
      hds.log := hds.log + [Event.EndSurface];
    }
  }

  /** The first phase of the builder: walk every face's outer loop, give each
      point the current number of points as its id, and record the ids of each
      facet. The result is the concatenation of the outer loops and, per face,
      the consecutive run of ids starting at the total length of the earlier loops. */
  method CollectFacets<P>(faces: seq<Face<P>>) returns (points: seq<P>, facetVertices: seq<seq<nat>>)
    ensures points == Flatten(faces)
    ensures |points| == TotalLength(faces)
    ensures facetVertices == FacetRuns(faces)
  {
    points, facetVertices := [], [];
    var i := 0;
    while i < |faces|
      invariant 0 <= i <= |faces|
      invariant points == Flatten(faces[..i])
      invariant |points| == Offset(faces, i)
      invariant facetVertices == FacetRuns(faces)[..i]
    {
      var face := faces[i];
      facetVertices := facetVertices + [[]];
      var j := 0;
      while j < |face.outer|
        invariant 0 <= j <= |face.outer|
        invariant points == Flatten(faces[..i]) + face.outer[..j]
        invariant |facetVertices| == i + 1
        invariant facetVertices[..i] == FacetRuns(faces)[..i]
        invariant facetVertices[i] == Run(Offset(faces, i), j)
      {
        var back := |facetVertices| - 1;
        facetVertices := facetVertices[back := facetVertices[back] + [|points|]];
        points := points + [face.outer[j]];
        j := j + 1;
      }
      assert faces[..i + 1][..i] == faces[..i];
      assert face.outer[..j] == face.outer;
      OffsetStep(faces, i);
      assert facetVertices == FacetRuns(faces)[..i + 1];
      i := i + 1;
    }
    assert faces[..i] == faces;
    FlattenLength(faces);
  }

  /** The second phase: one add_vertex per collected point, in order. */
  method AddVertices<P>(builder: IncrementalBuilder<P>, points: seq<P>)
    modifies builder.hds
    ensures builder.hds.log == old(builder.hds.log) + VertexEvents(points)
  {
    var i := 0;
    while i < |points|
      invariant 0 <= i <= |points|
      invariant builder.hds.log == old(builder.hds.log) + VertexEvents(points[..i])
    {
      builder.AddVertex(points[i]);
      VertexEventsPrefix(points, i);
      i := i + 1;
    }
    assert points[..i] == points;
  }

  /** The third phase: one begin_facet / add_vertex_to_facet* / end_facet block
      per collected facet, in order. */
  method AddFacets<P>(builder: IncrementalBuilder<P>, facets: seq<seq<nat>>)
    modifies builder.hds
    ensures builder.hds.log == old(builder.hds.log) + FacetEvents(facets)
  {
    var k := 0;
    while k < |facets|
      invariant 0 <= k <= |facets|
      invariant builder.hds.log == old(builder.hds.log) + FacetEvents(facets[..k])
    {
      var facet := facets[k];
      ghost var before := builder.hds.log;
      builder.BeginFacet();
      var j := 0;
      while j < |facet|
        invariant 0 <= j <= |facet|
        invariant builder.hds.log == before + [Event.BeginFacet] + IdEvents(facet[..j])
      {
        builder.AddVertexToFacet(facet[j]);
        IdEventsPrefix<P>(facet, j);
        j := j + 1;
      }
      builder.EndFacet();
      assert facet[..j] == facet;
      FacetEventsPrefix<P>(facets, k);
      k := k + 1;
    }
    assert facets[..k] == facets;
  }

  /** A face list owned by the caller; the builder holds a reference to it. */
  class FaceList<P> {
    var faces: seq<Face<P>>

    constructor (faces: seq<Face<P>>)
      ensures this.faces == faces
    {
      this.faces := faces;
    }
  }

  /** The modifier handed to CGAL: it holds a reference to the face list to
      build from, and reads that list only when it is applied. */
  class PolyhedronBuilder<P> {
    const faceList: FaceList<P>

    constructor (faceList: FaceList<P>)
      ensures this.faceList == faceList
    {
      this.faceList := faceList;
    }

    /** Builds the face list, as it is at the time of the call, into hds: the
        log gains exactly Trace(faceList.faces), whose shape and meaning are
        stated by DecodeTrace and TraceShape. The face list is not changed. */
    method Apply(hds: HalfedgeDS<P>)
      modifies hds
      ensures hds.log == old(hds.log) + Trace(faceList.faces)
    {
      var points, facetVertices := CollectFacets(faceList.faces);
      var builder := new IncrementalBuilder(hds);
      builder.BeginSurface(|points|, |facetVertices|);
      AddVertices(builder, points);
      AddFacets(builder, facetVertices);
      builder.EndSurface();
      EmitAfter(old(hds.log), points, facetVertices);
    }
  }
}
