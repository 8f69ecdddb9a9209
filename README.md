# CGAL kernel: polyhedron builder and entity cache

A Dafny model of the two pieces of live logic in IfcOpenShell's CGAL geometry
kernel header (`src/ifcgeom/kernels/cgal/CgalKernel.h`):

- **The polyhedron builder** (`PolyhedronBuilder::operator()`). It gets an
  ordered list of faces. It walks every face's outer loop and gives each
  point a fresh vertex id, namely the number of points seen so far. It
  records each facet as the list of those ids. It then drives CGAL's
  incremental builder: `begin_surface(#points, #facets)`, one `add_vertex`
  per point, one `begin_facet` / `add_vertex_to_facet`* / `end_facet` block per
  face, then `end_surface`. Vertex identity depends only on position in the
  input. Equal coordinates are never merged.
- **The entity cache** (`CgalCache` and `purge_cache`). It maps an entity id to
  its converted shape. `purge_cache` replaces the whole cache with a fresh,
  default-constructed one, assigned to the same by-value member. Lookup and store follow the `IN_CACHE` / `CACHE`
  macros.

Files:

- `MeshSpec.dfy`: faces, and the specification of the vertex layout.
  `Flatten` is the concatenated outer loops. `TotalLength` is the sum of their
  lengths. `Offset(k)` is the total length of the loops before face k.
  `FacetRuns` gives each facet its consecutive run of ids. The lemmas state
  what this layout means.
- `BuilderTrace.dfy`: the incremental builder's calls as an event datatype.
  `Trace(faces)` is the call sequence the builder must produce. `Decode` is an
  independent reader of that protocol. Decode and `Emit` are proved inverse to
  each other, and the shape of the trace is proved.
- `PolyhedronBuilding.dfy`: the imperative builder. `HalfedgeDS` holds the
  append-only event log. `IncrementalBuilder` appends one event per call.
  `CollectFacets` holds the nested collection loops of lines 75-81.
  `AddVertices` and `AddFacets` hold the emission loops. `PolyhedronBuilder.Apply`
  is `operator()`, proved to append exactly `Trace(faceList)`.
- `KernelCache.dfy`: the cache as a value with its `shape` map, held by value
  in the kernel, and the kernel's lookup, store and purge operations.
- `Wrappers.dfy`: an `Option` type.

Points are a type parameter `P` and shapes a type parameter `S`. Only their
identity and order matter here.

Two consequences of the code are worth stating:

- Every occurrence of a point gets its own id (line 78), even when
  coordinates repeat. `NoMerging` and `RepeatedPointNotMerged` state this.
- Only `face.outer` is read (line 77), so holes never reach the builder.
  `InnerLoopsIgnored` and `TraceIgnoresInnerLoops` state this.

The `IN_CACHE` / `CACHE` macros (lines 31-33) are inside a comment in this
header. `InCache` and `Store` model what they document, not live code.

## Model

| member | source | states |
|---|---|---|
| MeshSpec.FlattenLength | src/ifcgeom/kernels/cgal/CgalKernel.h:75-81 | the number of collected points is the sum of the outer-loop lengths |
| MeshSpec.FacetIdNamesPoint | src/ifcgeom/kernels/cgal/CgalKernel.h:75-79 | id j of facet k is Offset(k) + j; it is below the point count; the vertex list holds face k's j-th outer point at that position |
| MeshSpec.FacetIdsInRange | src/ifcgeom/kernels/cgal/CgalKernel.h:78-79 | every facet id is below the total vertex count |
| MeshSpec.NoMerging | src/ifcgeom/kernels/cgal/CgalKernel.h:77-79 | two different (facet, corner) positions always get different ids, whatever their points are: no coordinate merging |
| MeshSpec.FacetRunsPartitionIds | src/ifcgeom/kernels/cgal/CgalKernel.h:76-79 | the facets' id lists, concatenated in order, are exactly 0, 1, ..., n-1, so each id occurs in exactly one facet, exactly once |
| MeshSpec.InnerLoopsIgnored | src/ifcgeom/kernels/cgal/CgalKernel.h:77 | face lists with the same outer loops give the same points, total and facet ids, whatever their holes |
| BuilderTrace.Decode | src/ifcgeom/kernels/cgal/CgalKernel.h:83-101 | a log it accepts is exactly the emission of the decoded points and facets, and all decoded ids are below the announced vertex count |
| BuilderTrace.ParseFacetsOfEmitted | src/ifcgeom/kernels/cgal/CgalKernel.h:90-99 | facet blocks read back as the facets they came from |
| BuilderTrace.DecodeEmit | src/ifcgeom/kernels/cgal/CgalKernel.h:83-101 | decoding the emission of points and in-range facets returns them unchanged (so Decode and Emit are inverses) |
| BuilderTrace.DecodeTrace | src/ifcgeom/kernels/cgal/CgalKernel.h:75-101 | the builder's log is well formed and decodes to the concatenated outer loops plus one facet per face with its consecutive ids |
| BuilderTrace.TraceShape | src/ifcgeom/kernels/cgal/CgalKernel.h:83-101 | the log starts with begin_surface(sum of loop lengths, number of faces); then come exactly the points in face order and loop order; then only facet events; end_surface is last |
| BuilderTrace.EmitLayout | src/ifcgeom/kernels/cgal/CgalKernel.h:83-101 | in the emitted log of n points, begin_surface is at 0, point i-1 at position i, then the facet events, end_surface last |
| BuilderTrace.VerticesBeforeFacets | src/ifcgeom/kernels/cgal/CgalKernel.h:85-99 | no facet event comes before any add_vertex |
| BuilderTrace.TraceIgnoresInnerLoops | src/ifcgeom/kernels/cgal/CgalKernel.h:77 | inner loops do not change the log |
| BuilderTrace.EmptyOuterLoop | src/ifcgeom/kernels/cgal/CgalKernel.h:90-99 | in any face list, a face whose outer loop is empty gets an empty id list, and its facet block is exactly begin_facet, end_facet |
| BuilderTrace.EmptyOuterLoopExample | src/ifcgeom/kernels/cgal/CgalKernel.h:75-101 | the whole log for a single face with an empty outer loop: begin_surface(0, 1), begin_facet, end_facet, end_surface |
| BuilderTrace.RepeatedPointNotMerged | src/ifcgeom/kernels/cgal/CgalKernel.h:75-101 | a point repeated in one loop and again in another face gives three vertices with three distinct ids (concrete log) |
| PolyhedronBuilding.IncrementalBuilder.BeginSurface | src/ifcgeom/kernels/cgal/CgalKernel.h:83 | appends begin_surface(v, f) to the log, nothing else |
| PolyhedronBuilding.IncrementalBuilder.AddVertex | src/ifcgeom/kernels/cgal/CgalKernel.h:87 | appends add_vertex(p) to the log, nothing else |
| PolyhedronBuilding.IncrementalBuilder.BeginFacet | src/ifcgeom/kernels/cgal/CgalKernel.h:91 | appends begin_facet to the log, nothing else |
| PolyhedronBuilding.IncrementalBuilder.AddVertexToFacet | src/ifcgeom/kernels/cgal/CgalKernel.h:95 | appends add_vertex_to_facet(i) to the log, nothing else |
| PolyhedronBuilding.IncrementalBuilder.EndFacet | src/ifcgeom/kernels/cgal/CgalKernel.h:98 | appends end_facet to the log, nothing else |
| PolyhedronBuilding.IncrementalBuilder.EndSurface | src/ifcgeom/kernels/cgal/CgalKernel.h:101 | appends end_surface to the log, nothing else |
| PolyhedronBuilding.CollectFacets | src/ifcgeom/kernels/cgal/CgalKernel.h:71-81 | the collected points are the concatenated outer loops, with their count equal to the sum of the lengths; the facet lists are the consecutive id runs from each face's offset |
| PolyhedronBuilding.AddVertices | src/ifcgeom/kernels/cgal/CgalKernel.h:85-88 | the log gains one add_vertex per point, in order |
| PolyhedronBuilding.AddFacets | src/ifcgeom/kernels/cgal/CgalKernel.h:90-99 | the log gains one facet block per facet, in order |
| PolyhedronBuilding.PolyhedronBuilder.constructor | src/ifcgeom/kernels/cgal/CgalKernel.h:64-68 | the builder keeps a reference to the face list it is given, not a copy |
| PolyhedronBuilding.PolyhedronBuilder.Apply | src/ifcgeom/kernels/cgal/CgalKernel.h:70-102 | the halfedge structure's log gains exactly Trace of the referenced face list as it is when the builder runs |
| KernelCache.Find | src/ifcgeom/kernels/cgal/CgalKernel.h:31-32 | a lookup hits exactly when the id is a key, and then yields the value stored under it |
| KernelCache.DefaultCache | src/ifcgeom/kernels/cgal/CgalKernel.h:107-111 | a default-constructed cache has no entries: every lookup misses |
| KernelCache.CgalKernel.constructor | src/ifcgeom/kernels/cgal/CgalKernel.h:116-121 | a new kernel starts with an empty cache |
| KernelCache.CgalKernel.InCache | src/ifcgeom/kernels/cgal/CgalKernel.h:31-32 | the result is the map lookup Find of the id in the cache's shape map: a hit with the cached shape exactly when the id is cached |
| KernelCache.CgalKernel.Store | src/ifcgeom/kernels/cgal/CgalKernel.h:33 | the shape map becomes the old one with id set to s: a lookup of id finds s, and every other id finds what it found before |
| KernelCache.CgalKernel.PurgeCache | src/ifcgeom/kernels/cgal/CgalKernel.h:143-150 | the cache member's contents are reset to a default-constructed cache, so every lookup misses, whatever was stored before |
| KernelCache.StoreThenFind | src/ifcgeom/kernels/cgal/CgalKernel.h:31-33 | on any shape map, a store followed by a lookup of the same id finds the stored shape |
| KernelCache.StoreOverwrites | src/ifcgeom/kernels/cgal/CgalKernel.h:33 | on any shape map, a later store to the same id replaces the earlier one |
| KernelCache.StoreKeepsOthers | src/ifcgeom/kernels/cgal/CgalKernel.h:33 | on any shape map, a store leaves lookups of every other id unchanged |
| KernelCache.StoreLookupPurge | src/ifcgeom/kernels/cgal/CgalKernel.h:143-150 | a lookup after a store hits; after a purge it misses; purging twice leaves the cache as empty as purging once |

## Left out

- `ALMOST_ZERO` / `ALMOST_THE_SAME` (lines 40-45): a floating-point tolerance comparison. The model has no floating point.
- What CGAL's `Polyhedron_incremental_builder_3` does with the calls: halfedge construction, validity checks and the verbose flag are library code. The builder is modelled only as the log of calls it receives.
- Everything about `Nef_polyhedron_3`, and `create_polyhedron` / `create_nef_polyhedron` (lines 138-141): declared only, bodies not in this header.
- `shape_type`, `convert_shapes`, `convert_shape`, `convert_wire`, `convert_curve`, `convert_face`, `convert_wire_to_face`, `remove_duplicate_points_from_loop` and both `convert_openings` (lines 123-135, 155): declared only, bodies not in this header.
- `is_identity_transform`, `apply_layerset`, `validate_quantities`, `convert_placement` (lines 152-156): declared only.
- The other cache maps and the mapping declarations, which come from `CgalEntityMappingCreateCache.h` and `CgalEntityMappingDeclaration.h` (lines 109, 158). Those files are not part of this model. Only the `Shape` map is modelled.
- The `NO_CACHE` build (lines 24-27, 119-121, 147-149), in which the cache and the purge body are compiled out. The model is the cached build.
- The commented-out debug printing (lines 86, 92, 94, 97), and the unused `deflection_tolerance` / `dimensionality` fields (lines 161-162).
- CollectFacets: vertex ids are unbounded `nat`, not `std::size_t`. A face list with 2^64 or more points is outside what the model distinguishes.
- PolyhedronBuilding.FaceList: the face list is a Dafny object the builder references, standing in for the `std::list` pointer of lines 64-67. Lifetime of the pointee and null pointers are not modelled.
- CollectFacets: the source builds `std::list`s in place. The model uses sequences and updates the last facet's id list by sequence update, so node aliasing is not modelled.
- PolyhedronBuilding.PolyhedronBuilder.Apply: the emission loops of lines 85-99 are split out as `AddVertices` and `AddFacets`, so that each loop is proved on its own. Their order and calls are unchanged.
