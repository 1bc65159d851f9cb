/** The COLLADA reader's conversion of the parsed document into an
    `IModel`: each mesh's primitive indices are routed to the triangles
    inputs, each input writes the indexed vertex, normal, texture
    coordinate or colour into the mesh's lists and records the index, and
    every three vertices make a face. Each mesh also gets a material
    built from its effect. */
module ColladaConvert {
  import opened Wrappers
  import opened Floats
  import opened IModels
  import Collada

  // ---------------------------------------------------------------------
  // Index lists

  /** A `vector<int>` of corner indices as the conversion uses it: made
      with three zeroed slots by `resize(3)` and emptied by `clear()`,
      which keeps the storage. A face reads slots 0 to 2 whatever the
      size, so `slots` is the storage and `size` the live length. */
  datatype IndexList = IndexList(slots: seq<int>, size: nat)

  predicate Valid(l: IndexList)
  {
    3 <= |l.slots| && l.size <= |l.slots|
  }

  /** The indices pushed since the list was last cleared. */
  function Live(l: IndexList): seq<int>
    requires Valid(l)
  {
    l.slots[..l.size]
  }

  /** `push_back`: the storage grows only when it is full. */
  function Push(l: IndexList, v: int): (r: IndexList)
    requires Valid(l)
    ensures Valid(r)
  {
    if l.size < |l.slots| then IndexList(l.slots[l.size := v], l.size + 1)
    else IndexList(l.slots + [v], l.size + 1)
  }

  /** A push appends to the live indices. */
  lemma PushAppends(l: IndexList, v: int)
    requires Valid(l)
    ensures Live(Push(l, v)) == Live(l) + [v]
  {
  }

  /** `clear()`: nothing live, the storage kept. */
  function Clear(l: IndexList): (r: IndexList)
    requires Valid(l)
    ensures Valid(r) && Live(r) == [] && r.slots == l.slots
  {
    l.(size := 0)
  }

  /** Slots 0 to 2, as the face reads them; the first three live
      indices when three or more are live. */
  function CornersOf(l: IndexList): (c: Corners)
    requires Valid(l)
    ensures l.size >= 3 ==> c == Corners(Live(l)[0], Live(l)[1], Live(l)[2])
  {
    Corners(l.slots[0], l.slots[1], l.slots[2])
  }

  /** The four index lists: vertices, texture coordinates, normals, colours. */
  datatype Lists = Lists(tri: IndexList, tex: IndexList, nrm: IndexList, col: IndexList)

  predicate ListsValid(ls: Lists)
  {
    Valid(ls.tri) && Valid(ls.tex) && Valid(ls.nrm) && Valid(ls.col)
  }

  function ClearAll(ls: Lists): (r: Lists)
    requires ListsValid(ls)
    ensures ListsValid(r)
  {
    Lists(Clear(ls.tri), Clear(ls.tex), Clear(ls.nrm), Clear(ls.col))
  }

  /** `IFace(...)` from the four lists' first three slots. */
  function FaceOf(ls: Lists): Face
    requires ListsValid(ls)
  {
    Face(CornersOf(ls.tri), CornersOf(ls.tex), CornersOf(ls.nrm), CornersOf(ls.col))
  }

  /** The lists a mesh's conversion starts with: `resize(3)` then `clear()`. */
  const FRESH_LISTS: Lists :=
    Lists(IndexList([0, 0, 0], 0), IndexList([0, 0, 0], 0), IndexList([0, 0, 0], 0), IndexList([0, 0, 0], 0))

  // ---------------------------------------------------------------------
  // One input applied to one primitive index

  /** A mesh's lists under construction, with the four index lists. */
  datatype Build = Build(vertices: seq<Vertex>, normals: seq<Vertex>, uvs: seq<TexCoord>,
                         colors: seq<Color>, lists: Lists)

  /** The input's first accessor and its float array exist. */
  predicate SourceReadable(input: Collada.Input)
  {
    input.source.Some? && |input.source.value.accessors| > 0
    && input.source.value.accessors[0].source.Some?
  }

  function Values(input: Collada.Input): seq<float>
    requires SourceReadable(input)
  {
    input.source.value.accessors[0].source.value.contents
  }

  function Stride(input: Collada.Input): int
    requires SourceReadable(input)
  {
    input.source.value.accessors[0].stride
  }

  /** How many floats an input of this semantic reads per index. */
  function Width(semantic: string): nat
  {
    if semantic == "POSITION" || semantic == "NORMAL" || semantic == "COLOR" then 3
    else if semantic == "TEXCOORD" then 2
    else 0
  }

  /** What `ProcessPrimitive` reads without checking: the input's source,
      the floats at `prim * stride`, and the slot `prim` of the resized list. */
  predicate Readable(input: Collada.Input, prim: int)
  {
    SourceReadable(input)
    && (Width(input.semantic) > 0 ==>
          0 <= prim < |Values(input)| && 0 <= prim * Stride(input)
          && prim * Stride(input) + Width(input.semantic) <= |Values(input)|)
  }

  /** A list grown to `size` entries with `default` if it is shorter (`resize`). */
  function Grown<T>(list: seq<T>, size: nat, default: T): (r: seq<T>)
    ensures |r| == if |list| < size then size else |list|
    ensures forall j :: 0 <= j < |list| ==> r[j] == list[j]
    ensures forall j :: |list| <= j < |r| ==> r[j] == default
  {
    if |list| < size then list + seq(size - |list|, _ => default) else list
  }

  /** A list grown to fit `size` entries, with `v` written at `i`. */
  function Put<T>(list: seq<T>, size: nat, default: T, i: nat, v: T): (r: seq<T>)
    requires i < size
    ensures |r| == if |list| < size then size else |list|
  {
    Grown(list, size, default)[i := v]
  }

  /** `Put` writes `v` at `i`, keeps every other entry and fills the
      growth with `default`. */
  lemma PutWrites<T>(list: seq<T>, size: nat, default: T, i: nat, v: T)
    requires i < size
    ensures var r := Put(list, size, default, i, v);
            |r| == (if |list| < size then size else |list|) && r[i] == v
            && (forall j :: 0 <= j < |list| && j != i ==> r[j] == list[j])
            && (forall j :: |list| <= j < |r| && j != i ==> r[j] == default)
  {
  }

  /** What one input does for one primitive index. */
  function Process(b: Build, input: Collada.Input, prim: int): (r: Build)
    requires Readable(input, prim) && ListsValid(b.lists)
    ensures ListsValid(r.lists)
  {
    var values := Values(input);
    var idx := prim * Stride(input);
    if input.semantic == "POSITION" then
      b.(vertices := Put(b.vertices, |values|, ORIGIN, prim, Vertex(values[idx], values[idx + 1], values[idx + 2])),
         lists := b.lists.(tri := Push(b.lists.tri, prim)))
    else if input.semantic == "NORMAL" then
      b.(normals := Put(b.normals, |values|, ORIGIN, prim, Vertex(values[idx], values[idx + 1], values[idx + 2])),
         lists := b.lists.(nrm := Push(b.lists.nrm, prim)))
    else if input.semantic == "TEXCOORD" then
      b.(uvs := Put(b.uvs, |values|, UNIT_TEX_COORD, prim, TexCoord(values[idx], values[idx + 1])),
         lists := b.lists.(tex := Push(b.lists.tex, prim)))
    else if input.semantic == "COLOR" then
      b.(colors := Put(b.colors, |values|, WHITE, prim, Color(values[idx], values[idx + 1], values[idx + 2], One)),
         lists := b.lists.(col := Push(b.lists.col, prim)))
    else b
  }

  /** The inputs of an expanded VERTEX input applied in order. */
  function ProcessAll(b: Build, inputs: seq<Collada.Input>, prim: int): (r: Build)
    requires ListsValid(b.lists)
    requires forall i :: 0 <= i < |inputs| ==> Readable(inputs[i], prim)
    ensures ListsValid(r.lists)
    decreases |inputs|
  {
    if |inputs| == 0 then b
    else Process(ProcessAll(b, inputs[..|inputs| - 1], prim), inputs[|inputs| - 1], prim)
  }

  /** The mesh's lists at `meshIndex` in the model, with the index lists. */
  function BuildAt(imodel: IModel, meshIndex: nat, lists: Lists): Build
    requires meshIndex < |imodel.Vertices| && meshIndex < |imodel.Normals|
    requires meshIndex < |imodel.UVs| && meshIndex < |imodel.Colors|
    reads imodel
  {
    Build(imodel.Vertices[meshIndex], imodel.Normals[meshIndex], imodel.UVs[meshIndex],
          imodel.Colors[meshIndex], lists)
  }

  predicate HasMesh(imodel: IModel, meshIndex: nat)
    reads imodel
  {
    meshIndex < |imodel.Vertices| && meshIndex < |imodel.Normals|
    && meshIndex < |imodel.UVs| && meshIndex < |imodel.Colors|
  }

  /** `ProcessPrimitive`: the input's values at `prim * stride` written at
      `prim` in the mesh's list for its semantic, grown first to the
      number of values if shorter, and `prim` pushed on the matching index
      list. Inputs of any other semantic change nothing. */
  method ProcessPrimitive(imodel: IModel, meshIndex: nat, input: Collada.Input, prim: int, lists: Lists)
    returns (result: Lists)
    requires HasMesh(imodel, meshIndex)
    requires Readable(input, prim) && ListsValid(lists)
    modifies imodel`Vertices, imodel`Normals, imodel`UVs, imodel`Colors
    ensures HasMesh(imodel, meshIndex)
    ensures BuildAt(imodel, meshIndex, result) == Process(old(BuildAt(imodel, meshIndex, lists)), input, prim)
    ensures Kept(imodel.Vertices, old(imodel.Vertices), meshIndex)
    ensures Kept(imodel.Normals, old(imodel.Normals), meshIndex)
    ensures Kept(imodel.UVs, old(imodel.UVs), meshIndex)
    ensures Kept(imodel.Colors, old(imodel.Colors), meshIndex)
  {
    var accessor := input.source.value.accessors[0];
    var values := accessor.source.value.contents;
    var stride := accessor.stride;
    var idx := prim * stride;
    var vecsize := |values|;
    result := lists;
    if input.semantic == "POSITION" {
      var list := imodel.Vertices[meshIndex];
      if |list| < vecsize {
        list := list + seq(vecsize - |list|, _ => ORIGIN);
      }
      list := list[prim := Vertex(values[idx], values[idx + 1], values[idx + 2])];
      imodel.Vertices := imodel.Vertices[meshIndex := list];
      result := result.(tri := Push(result.tri, prim));
    } else if input.semantic == "NORMAL" {
      var list := imodel.Normals[meshIndex];
      if |list| < vecsize {
        list := list + seq(vecsize - |list|, _ => ORIGIN);
      }
      list := list[prim := Vertex(values[idx], values[idx + 1], values[idx + 2])];
      imodel.Normals := imodel.Normals[meshIndex := list];
      result := result.(nrm := Push(result.nrm, prim));
    } else if input.semantic == "TEXCOORD" {
      var list := imodel.UVs[meshIndex];
      if |list| < vecsize {
        list := list + seq(vecsize - |list|, _ => UNIT_TEX_COORD);
      }
      list := list[prim := TexCoord(values[idx], values[idx + 1])];
      imodel.UVs := imodel.UVs[meshIndex := list];
      result := result.(tex := Push(result.tex, prim));
    } else if input.semantic == "COLOR" {
      var list := imodel.Colors[meshIndex];
      if |list| < vecsize {
        list := list + seq(vecsize - |list|, _ => WHITE);
      }
      list := list[prim := Color(values[idx], values[idx + 1], values[idx + 2], One)];
      imodel.Colors := imodel.Colors[meshIndex := list];
      result := result.(col := Push(result.col, prim));
    }
  }

  // ---------------------------------------------------------------------
  // Routing and face assembly

  /** The position of the first input with the given offset. */
  function OffsetIndex(inputs: seq<Collada.Input>, offset: int): (r: Option<nat>)
    ensures r.Some? ==> r.value < |inputs| && inputs[r.value].offset == offset
    ensures r.Some? ==> forall j :: 0 <= j < r.value ==> inputs[j].offset != offset
    ensures r.None? <==> forall j :: 0 <= j < |inputs| ==> inputs[j].offset != offset
  {
    if |inputs| == 0 then None
    else if inputs[0].offset == offset then Some(0)
    else match OffsetIndex(inputs[1..], offset)
      case None => None
      case Some(i) => Some(i + 1)
  }

  /** The input primitive `k` belongs to: with several inputs, the first
      whose offset is `k` modulo their number, if any; with one, that one. */
  function Route(inputs: seq<Collada.Input>, k: nat): (r: Option<Collada.Input>)
    requires |inputs| > 0
  {
    if |inputs| > 1 then
      match OffsetIndex(inputs, k % |inputs|)
      case None => None
      case Some(i) => Some(inputs[i])
    else Some(inputs[0])
  }

  /** With one input every primitive goes to it; with several, to an
      input whose offset is the primitive's position modulo their number,
      and to none exactly when no input has that offset. */
  lemma RouteByOffset(inputs: seq<Collada.Input>, k: nat)
    requires |inputs| > 0
    ensures |inputs| == 1 ==> Route(inputs, k) == Some(inputs[0])
    ensures |inputs| > 1 && Route(inputs, k).Some? ==>
              Route(inputs, k).value in inputs && Route(inputs, k).value.offset == k % |inputs|
    ensures |inputs| > 1 ==>
              (Route(inputs, k).None? <==> forall j :: 0 <= j < |inputs| ==> inputs[j].offset != k % |inputs|)
  {
  }

  /** The routing loop of `DoConversion`. */
  method MatchInput(inputs: seq<Collada.Input>, k: nat) returns (input: Option<Collada.Input>)
    requires |inputs| > 0
    ensures input == Route(inputs, k)
  {
    var numInputs := |inputs|;
    input := None;
    if numInputs > 1 {
      var inputIndex := 0;
      while inputIndex < numInputs
        invariant 0 <= inputIndex <= numInputs
        invariant forall j :: 0 <= j < inputIndex ==> inputs[j].offset != k % numInputs
      {
        var thisInput := inputs[inputIndex];
        if k % numInputs == thisInput.offset {
          input := Some(thisInput);
          return;
        }
        inputIndex := inputIndex + 1;
      }
    } else {
      input := Some(inputs[0]);
    }
  }

  /** The conversion of one mesh in progress: its lists, the faces so far
      and the face count, the vertices gathered towards the next face and
      the inputs processed. */
  datatype MeshRun = MeshRun(build: Build, faces: seq<Face>, faceCount: int,
                             numVertices: int, numProcessed: int)

  /** A mesh's conversion before its first primitive. */
  const START: MeshRun := MeshRun(Build([], [], [], [], FRESH_LISTS), [], 0, 0, 0)

  /** Everything an input reads for primitive `prim` is there: its own
      source, or each child's for an expanded VERTEX input. */
  predicate Applicable(input: Collada.Input, prim: int)
  {
    if |input.children| > 0 then forall c :: 0 <= c < |input.children| ==> Readable(input.children[c], prim)
    else Readable(input, prim)
  }

  /** Everything primitive `k` reads is there. */
  predicate StepReadable(inputs: seq<Collada.Input>, k: nat, prim: int)
  {
    |inputs| > 0 && (Route(inputs, k).Some? ==> Applicable(Route(inputs, k).value, prim))
  }

  /** An input applied to a primitive. An expanded VERTEX input applies
      all its children and makes a vertex; any other input makes a vertex
      once every one of the `numInputs` inputs has been processed since
      the last. */
  function Gather(s: MeshRun, input: Collada.Input, numInputs: nat, prim: int): (r: MeshRun)
    requires ListsValid(s.build.lists) && numInputs > 0 && Applicable(input, prim)
    ensures ListsValid(r.build.lists)
  {
    if |input.children| > 0 then
      MeshRun(ProcessAll(s.build, input.children, prim), s.faces, s.faceCount,
              s.numVertices + 1, s.numProcessed + |input.children|)
    else
      MeshRun(Process(s.build, input, prim), s.faces, s.faceCount,
              s.numVertices + (if (s.numProcessed + 1) % numInputs == 0 then 1 else 0),
              s.numProcessed + 1)
  }

  /** The third vertex completes a face from the first three slots of the
      index lists, which are then cleared. */
  function Emit(s: MeshRun): (r: MeshRun)
    requires ListsValid(s.build.lists)
    ensures ListsValid(r.build.lists)
  {
    if s.numVertices == 3 then
      MeshRun(s.build.(lists := ClearAll(s.build.lists)), s.faces + [FaceOf(s.build.lists)],
              s.faceCount + 1, 0, s.numProcessed)
    else s
  }

  /** One pass of the primitive loop: a primitive with no input is skipped. */
  function Step(s: MeshRun, inputs: seq<Collada.Input>, k: nat, prim: int): (r: MeshRun)
    requires ListsValid(s.build.lists) && StepReadable(inputs, k, prim)
    ensures ListsValid(r.build.lists)
  {
    match Route(inputs, k)
    case None => s
    case Some(input) => Emit(Gather(s, input, |inputs|, prim))
  }

  predicate MeshReadable(mesh: Collada.Mesh)
  {
    forall k {:trigger StepReadable(mesh.triangles.inputs, k, mesh.triangles.primitives[k])} ::
      0 <= k < |mesh.triangles.primitives| ==> StepReadable(mesh.triangles.inputs, k, mesh.triangles.primitives[k])
  }

  /** A mesh's conversion after its first `k` primitives. */
  function Run(mesh: Collada.Mesh, k: nat): (r: MeshRun)
    requires MeshReadable(mesh) && k <= |mesh.triangles.primitives|
    ensures ListsValid(r.build.lists)
  {
    if k == 0 then START
    else Step(Run(mesh, k - 1), mesh.triangles.inputs, k - 1, mesh.triangles.primitives[k - 1])
  }

  /** The counters of a conversion between faces. */
  predicate Counted(s: MeshRun)
  {
    s.faceCount == |s.faces| && 0 <= s.numVertices < 3
  }

  /** A step keeps the face count equal to the number of faces and
      completes a face as soon as a third vertex is gathered. */
  lemma StepCounted(s: MeshRun, inputs: seq<Collada.Input>, k: nat, prim: int)
    requires ListsValid(s.build.lists) && StepReadable(inputs, k, prim) && Counted(s)
    ensures Counted(Step(s, inputs, k, prim))
  {
    var route := Route(inputs, k);
    if route.Some? {
      var g := Gather(s, route.value, |inputs|, prim);
      assert g.faces == s.faces && g.faceCount == s.faceCount;
      assert s.numVertices <= g.numVertices <= s.numVertices + 1;
    }
  }

  /** The face count tracks the faces, and fewer than three vertices are
      ever waiting for a face. */
  lemma {:induction false} FaceCountIsFaces(mesh: Collada.Mesh, k: nat)
    requires MeshReadable(mesh) && k <= |mesh.triangles.primitives|
    ensures Counted(Run(mesh, k))
  {
    if k > 0 {
      FaceCountIsFaces(mesh, k - 1);
      StepCounted(Run(mesh, k - 1), mesh.triangles.inputs, k - 1, mesh.triangles.primitives[k - 1]);
    }
  }

  /** A POSITION input pushes the primitive on the vertex index list. */
  lemma PositionPushes(b: Build, input: Collada.Input, prim: int)
    requires Readable(input, prim) && ListsValid(b.lists) && input.semantic == "POSITION"
    ensures Live(Process(b, input, prim).lists.tri) == Live(b.lists.tri) + [prim]
  {
    PushAppends(b.lists.tri, prim);
  }

  /** What one primitive does to a single POSITION input's conversion:
      it is a vertex, and the third vertex makes a face from the live
      vertex indices and clears them. */
  predicate PositionStepped(s: MeshRun, r: MeshRun, prim: int)
    requires ListsValid(s.build.lists) && ListsValid(r.build.lists)
  {
    var live := Live(s.build.lists.tri) + [prim];
    r.numProcessed == s.numProcessed + 1
    && (s.numVertices < 2 ==>
          r.faces == s.faces && r.numVertices == s.numVertices + 1 && Live(r.build.lists.tri) == live)
    && (s.numVertices == 2 && |live| == 3 ==>
          |r.faces| == |s.faces| + 1 && r.faces[..|s.faces|] == s.faces
          && r.faces[|s.faces|].vertices == Corners(live[0], live[1], live[2])
          && r.numVertices == 0 && Live(r.build.lists.tri) == [])
  }

  /** With a single POSITION input every primitive is a vertex. */
  lemma SinglePositionStep(s: MeshRun, inputs: seq<Collada.Input>, k: nat, prim: int)
    requires ListsValid(s.build.lists) && StepReadable(inputs, k, prim) && Counted(s)
    requires |inputs| == 1 && inputs[0].children == [] && inputs[0].semantic == "POSITION"
    ensures PositionStepped(s, Step(s, inputs, k, prim), prim)
  {
    PositionPushes(s.build, inputs[0], prim);
  }

  /** After `k` primitives of a single POSITION input: `k` vertices, in
      complete faces and fewer than three live indices, the live ones the
      latest primitives, and face `j` joining the vertices of primitives
      `3j`, `3j + 1` and `3j + 2`. */
  predicate Grouped(r: MeshRun, prims: seq<int>, k: nat)
    requires k <= |prims| && ListsValid(r.build.lists)
  {
    3 * |r.faces| + r.numVertices == k && r.numProcessed == k && 0 <= r.numVertices < 3
    && Live(r.build.lists.tri) == prims[k - r.numVertices..k]
    && forall j :: 0 <= j < |r.faces| ==>
         r.faces[j].vertices == Corners(prims[3 * j], prims[3 * j + 1], prims[3 * j + 2])
  }

  /** One more primitive keeps the grouping. */
  lemma GroupedStep(s: MeshRun, r: MeshRun, prims: seq<int>, k: nat)
    requires 0 < k <= |prims| && ListsValid(s.build.lists) && ListsValid(r.build.lists)
    requires Grouped(s, prims, k - 1) && PositionStepped(s, r, prims[k - 1])
    ensures Grouped(r, prims, k)
  {
    var live := Live(s.build.lists.tri) + [prims[k - 1]];
    assert Live(s.build.lists.tri) == prims[k - 1 - s.numVertices..k - 1];
    assert prims[k - 1 - s.numVertices..k] == prims[k - 1 - s.numVertices..k - 1] + [prims[k - 1]];
    if s.numVertices == 2 {
      forall j | 0 <= j < |r.faces|
        ensures r.faces[j].vertices == Corners(prims[3 * j], prims[3 * j + 1], prims[3 * j + 2])
      {
        if j < |s.faces| {
          assert r.faces[j] == r.faces[..|s.faces|][j];
        }
      }
    }
  }

  /** Each primitive of a single POSITION input steps the conversion as
      `PositionStepped` says. */
  lemma SinglePositionRunStep(mesh: Collada.Mesh, k: nat)
    requires MeshReadable(mesh) && 0 < k <= |mesh.triangles.primitives|
    requires |mesh.triangles.inputs| == 1
    requires mesh.triangles.inputs[0].children == [] && mesh.triangles.inputs[0].semantic == "POSITION"
    ensures PositionStepped(Run(mesh, k - 1), Run(mesh, k), mesh.triangles.primitives[k - 1])
  {
    var prims := mesh.triangles.primitives;
    FaceCountIsFaces(mesh, k - 1);
    assert StepReadable(mesh.triangles.inputs, k - 1, prims[k - 1]);
    SinglePositionStep(Run(mesh, k - 1), mesh.triangles.inputs, k - 1, prims[k - 1]);
  }

  /** A mesh with a single POSITION input converts every three primitives
      into a face on their vertices. */
  lemma {:induction false} SinglePositionInputFaces(mesh: Collada.Mesh, k: nat)
    requires MeshReadable(mesh) && k <= |mesh.triangles.primitives|
    requires |mesh.triangles.inputs| == 1
    requires mesh.triangles.inputs[0].children == [] && mesh.triangles.inputs[0].semantic == "POSITION"
    ensures Grouped(Run(mesh, k), mesh.triangles.primitives, k)
  {
    if k > 0 {
      SinglePositionInputFaces(mesh, k - 1);
      SinglePositionRunStep(mesh, k);
      GroupedStep(Run(mesh, k - 1), Run(mesh, k), mesh.triangles.primitives, k);
    }
  }

  // ---------------------------------------------------------------------
  // Which lists a mesh fills

  /** The semantics whose inputs write a list. */
  predicate Filling(name: string)
  {
    name == "POSITION" || name == "NORMAL" || name == "TEXCOORD" || name == "COLOR"
  }

  /** The length of the list inputs of semantic `name` write. */
  function Size(b: Build, name: string): nat
  {
    if name == "POSITION" then |b.vertices|
    else if name == "NORMAL" then |b.normals|
    else if name == "TEXCOORD" then |b.uvs|
    else if name == "COLOR" then |b.colors|
    else 0
  }

  /** The input, or for an expanded VERTEX input one of its children,
      has semantic `name`. */
  predicate Writes(input: Collada.Input, name: string)
  {
    if |input.children| > 0 then exists c :: 0 <= c < |input.children| && input.children[c].semantic == name
    else input.semantic == name
  }

  /** Processing never shrinks a list, changes only the list of its
      input's semantic, and leaves that list non-empty. */
  lemma ProcessSize(b: Build, input: Collada.Input, prim: int, name: string)
    requires Readable(input, prim) && ListsValid(b.lists)
    ensures Size(Process(b, input, prim), name) >= Size(b, name)
    ensures input.semantic != name ==> Size(Process(b, input, prim), name) == Size(b, name)
    ensures input.semantic == name && Filling(name) ==> Size(Process(b, input, prim), name) > 0
  {
  }

  /** The same for the children of an expanded VERTEX input. */
  lemma {:induction false} ProcessAllSize(b: Build, inputs: seq<Collada.Input>, prim: int, name: string)
    requires ListsValid(b.lists)
    requires forall i :: 0 <= i < |inputs| ==> Readable(inputs[i], prim)
    ensures Size(ProcessAll(b, inputs, prim), name) >= Size(b, name)
    ensures (forall c :: 0 <= c < |inputs| ==> inputs[c].semantic != name) ==>
              Size(ProcessAll(b, inputs, prim), name) == Size(b, name)
    ensures (exists c :: 0 <= c < |inputs| && inputs[c].semantic == name) && Filling(name) ==>
              Size(ProcessAll(b, inputs, prim), name) > 0
    decreases |inputs|
  {
    if |inputs| > 0 {
      var front := inputs[..|inputs| - 1];
      ProcessAllSize(b, front, prim, name);
      ProcessSize(ProcessAll(b, front, prim), inputs[|inputs| - 1], prim, name);
      if exists c :: 0 <= c < |inputs| && inputs[c].semantic == name {
        var c :| 0 <= c < |inputs| && inputs[c].semantic == name;
        if c < |inputs| - 1 {
          assert front[c].semantic == name;
        }
      }
    }
  }

  /** A step changes a list only by processing an input that writes it,
      and then leaves it non-empty; no step shrinks a list. */
  lemma StepSize(s: MeshRun, inputs: seq<Collada.Input>, k: nat, prim: int, name: string)
    requires ListsValid(s.build.lists) && StepReadable(inputs, k, prim)
    ensures Size(Step(s, inputs, k, prim).build, name) >= Size(s.build, name)
    ensures !(Route(inputs, k).Some? && Writes(Route(inputs, k).value, name)) ==>
              Size(Step(s, inputs, k, prim).build, name) == Size(s.build, name)
    ensures Route(inputs, k).Some? && Writes(Route(inputs, k).value, name) && Filling(name) ==>
              Size(Step(s, inputs, k, prim).build, name) > 0
  {
    var route := Route(inputs, k);
    if route.Some? {
      var input := route.value;
      if |input.children| > 0 {
        ProcessAllSize(s.build, input.children, prim, name);
      } else {
        ProcessSize(s.build, input, prim, name);
      }
    }
  }

  /** Primitive `j` is routed to an input that writes the list of semantic `name`. */
  predicate Touches(inputs: seq<Collada.Input>, j: nat, name: string)
  {
    |inputs| > 0 && Route(inputs, j).Some? && Writes(Route(inputs, j).value, name)
  }

  /** One of the first `k` primitives was routed to an input that writes
      the list of semantic `name`. */
  predicate Touched(mesh: Collada.Mesh, k: nat, name: string)
  {
    exists j :: 0 <= j < k && Touches(mesh.triangles.inputs, j, name)
  }

  /** `StepSize` for the `k`th primitive of a mesh. */
  lemma RunSize(mesh: Collada.Mesh, k: nat, name: string)
    requires MeshReadable(mesh) && 0 < k <= |mesh.triangles.primitives|
    ensures Size(Run(mesh, k).build, name) >= Size(Run(mesh, k - 1).build, name)
    ensures !Touches(mesh.triangles.inputs, k - 1, name) ==>
              Size(Run(mesh, k).build, name) == Size(Run(mesh, k - 1).build, name)
    ensures Touches(mesh.triangles.inputs, k - 1, name) && Filling(name) ==> Size(Run(mesh, k).build, name) > 0
  {
    var prims := mesh.triangles.primitives;
    assert StepReadable(mesh.triangles.inputs, k - 1, prims[k - 1]);
    StepSize(Run(mesh, k - 1), mesh.triangles.inputs, k - 1, prims[k - 1], name);
  }

  /** A list is non-empty after `k` primitives exactly when one of them
      was routed to an input that writes it. */
  lemma {:induction false} SizeIffTouched(mesh: Collada.Mesh, k: nat, name: string)
    requires MeshReadable(mesh) && k <= |mesh.triangles.primitives| && Filling(name)
    ensures Size(Run(mesh, k).build, name) > 0 <==> Touched(mesh, k, name)
  {
    if k > 0 {
      var inputs := mesh.triangles.inputs;
      SizeIffTouched(mesh, k - 1, name);
      RunSize(mesh, k, name);
      var before, after := Size(Run(mesh, k - 1).build, name), Size(Run(mesh, k).build, name);
      if Touched(mesh, k - 1, name) {
        var j :| 0 <= j < k - 1 && Touches(inputs, j, name);
        assert 0 <= j < k && Touches(inputs, j, name);
        assert after >= before > 0 && Touched(mesh, k, name);
      } else if Touches(inputs, k - 1, name) {
        assert 0 <= k - 1 < k && Touches(inputs, k - 1, name);
        assert after > 0 && Touched(mesh, k, name);
      } else {
        forall j | 0 <= j < k
          ensures !Touches(inputs, j, name)
        {
          if j < k - 1 {
            assert !(0 <= j < k - 1 && Touches(inputs, j, name));
          }
        }
        assert after == before == 0 && !Touched(mesh, k, name);
      }
    }
  }

  // ---------------------------------------------------------------------
  // Materials

  /** Each colour of an effect is the four floats of an RGBA array. */
  predicate EffectReadable(e: Collada.Effect)
  {
    |e.specular.color| == 4 && |e.ambient.color| == 4 && |e.emission.color| == 4 && |e.diffuse.color| == 4
  }

  /** The mesh's material and its effect, where linked, exist. */
  predicate MaterialReadable(mesh: Collada.Mesh, materials: seq<Collada.Material>, effects: seq<Collada.Effect>)
  {
    mesh.material.Some? ==>
      mesh.material.value < |materials|
      && (materials[mesh.material.value].effect.Some? ==>
            materials[mesh.material.value].effect.value < |effects|
            && EffectReadable(effects[materials[mesh.material.value].effect.value]))
  }

  /** The texture a diffuse sampler leads to: the path of its surface's image. */
  function TextureOf(sampler: Option<Collada.Sampler>): Option<string>
  {
    if sampler.Some? && sampler.value.surface.Some? && sampler.value.surface.value.image.Some?
    then Some(sampler.value.surface.value.image.value.path)
    else None
  }

  /** The effect a mesh's material links to, if both are there. */
  function MeshEffect(mesh: Collada.Mesh, materials: seq<Collada.Material>, effects: seq<Collada.Effect>)
    : (e: Option<Collada.Effect>)
    requires MaterialReadable(mesh, materials, effects)
    ensures e.Some? ==> EffectReadable(e.value)
  {
    if mesh.material.Some? && materials[mesh.material.value].effect.Some?
    then Some(effects[materials[mesh.material.value].effect.value])
    else None
  }

  /** The material a mesh converts to: the default, or the effect's four
      colours, shininess, transparency and refractive index with the
      diffuse sampler's image as texture. */
  function MeshMaterial(mesh: Collada.Mesh, materials: seq<Collada.Material>, effects: seq<Collada.Effect>)
    : Material
    requires MaterialReadable(mesh, materials, effects)
  {
    match MeshEffect(mesh, materials, effects)
    case None => DEFAULT_MATERIAL
    case Some(e) =>
      Material(e.specular.color, e.ambient.color, e.emission.color, e.diffuse.color,
               e.shininess, e.transparency, e.indexOfRefraction, TextureOf(e.diffuse.sampler))
  }

  /** The material step of `DoConversion`: start from `IMaterial()` with
      no texture, copy the effect's colours channel by channel and its
      scalars, and load the diffuse sampler's image when there is one. */
  method BuildMaterial(mesh: Collada.Mesh, materials: seq<Collada.Material>, effects: seq<Collada.Effect>)
    returns (mat: Material)
    requires MaterialReadable(mesh, materials, effects)
    ensures mat == MeshMaterial(mesh, materials, effects)
  {
    mat := DEFAULT_MATERIAL;
    mat := mat.(tex := None);
    if mesh.material.Some? && materials[mesh.material.value].effect.Some? {
      var effect := effects[materials[mesh.material.value].effect.value];
      for i := 0 to 4
        invariant |mat.specular| == 4 && |mat.ambient| == 4 && |mat.emission| == 4 && |mat.diffuse| == 4
        invariant forall j :: 0 <= j < i ==> mat.specular[j] == effect.specular.color[j]
        invariant forall j :: 0 <= j < i ==> mat.ambient[j] == effect.ambient.color[j]
        invariant forall j :: 0 <= j < i ==> mat.emission[j] == effect.emission.color[j]
        invariant forall j :: 0 <= j < i ==> mat.diffuse[j] == effect.diffuse.color[j]
        invariant mat.tex.None?
      {
        mat := mat.(specular := mat.specular[i := effect.specular.color[i]],
                    ambient := mat.ambient[i := effect.ambient.color[i]],
                    emission := mat.emission[i := effect.emission.color[i]],
                    diffuse := mat.diffuse[i := effect.diffuse.color[i]]);
      }
      assert EffectReadable(effect);
      assert mat.specular == effect.specular.color && mat.ambient == effect.ambient.color;
      assert mat.emission == effect.emission.color && mat.diffuse == effect.diffuse.color;
      mat := mat.(shininess := effect.shininess, transparency := effect.transparency,
                  indexOfRefraction := effect.indexOfRefraction);
      var sampler := effect.diffuse.sampler;
      if sampler.Some? && sampler.value.surface.Some? && sampler.value.surface.value.image.Some? {
        mat := mat.(tex := Some(sampler.value.surface.value.image.value.path));
      }
    }
  }

  /** A mesh without a material, or whose material has no effect, gets
      the default material and no texture. */
  lemma MaterialWithoutEffect(mesh: Collada.Mesh, materials: seq<Collada.Material>, effects: seq<Collada.Effect>)
    requires MaterialReadable(mesh, materials, effects)
    requires mesh.material.None? || materials[mesh.material.value].effect.None?
    ensures MeshMaterial(mesh, materials, effects) == DEFAULT_MATERIAL
    ensures MeshMaterial(mesh, materials, effects).tex.None?
  {
  }

  /** A mesh's material has a texture exactly when its effect's diffuse
      sampler reaches an image through its surface, and the texture is
      that image's path. */
  lemma MaterialTexture(mesh: Collada.Mesh, materials: seq<Collada.Material>, effects: seq<Collada.Effect>)
    requires MaterialReadable(mesh, materials, effects)
    ensures var e := MeshEffect(mesh, materials, effects);
            MeshMaterial(mesh, materials, effects).tex.Some? <==>
              (e.Some? && e.value.diffuse.sampler.Some? && e.value.diffuse.sampler.value.surface.Some?
               && e.value.diffuse.sampler.value.surface.value.image.Some?)
    ensures var e := MeshEffect(mesh, materials, effects);
            MeshMaterial(mesh, materials, effects).tex.Some? ==>
              MeshMaterial(mesh, materials, effects).tex.value
              == e.value.diffuse.sampler.value.surface.value.image.value.path
  {
  }

  // ---------------------------------------------------------------------
  // The conversion

  /** Every entry but the one at `m` is as it was. */
  predicate Kept<T(==)>(now: seq<T>, before: seq<T>, m: nat)
  {
    |now| == |before| && m < |now| && forall j :: 0 <= j < |now| && j != m ==> now[j] == before[j]
  }

  /** The state of a mesh's conversion as held in the model and the loop's locals. */
  function Snapshot(imodel: IModel, meshNum: nat, lists: Lists, numVertices: int, numProcessed: int): MeshRun
    requires HasMesh(imodel, meshNum) && meshNum < |imodel.Faces| && meshNum < |imodel.FaceCount|
    reads imodel
  {
    MeshRun(BuildAt(imodel, meshNum, lists), imodel.Faces[meshNum], imodel.FaceCount[meshNum],
            numVertices, numProcessed)
  }

  predicate Sized(imodel: IModel, n: nat)
    reads imodel
  {
    |imodel.Faces| == n && |imodel.Vertices| == n && |imodel.Normals| == n && |imodel.UVs| == n
    && |imodel.Colors| == n && |imodel.Materials| == n && |imodel.FaceCount| == n
  }

  /** The children of an expanded VERTEX input, each applied to `prim`. */
  method ProcessChildren(imodel: IModel, meshNum: nat, children: seq<Collada.Input>, prim: int, lists: Lists)
    returns (result: Lists)
    requires HasMesh(imodel, meshNum)
    requires ListsValid(lists) && forall c :: 0 <= c < |children| ==> Readable(children[c], prim)
    modifies imodel`Vertices, imodel`Normals, imodel`UVs, imodel`Colors
    ensures HasMesh(imodel, meshNum)
    ensures BuildAt(imodel, meshNum, result) == ProcessAll(old(BuildAt(imodel, meshNum, lists)), children, prim)
    ensures Kept(imodel.Vertices, old(imodel.Vertices), meshNum)
    ensures Kept(imodel.Normals, old(imodel.Normals), meshNum)
    ensures Kept(imodel.UVs, old(imodel.UVs), meshNum)
    ensures Kept(imodel.Colors, old(imodel.Colors), meshNum)
  {
    ghost var start := BuildAt(imodel, meshNum, lists);
    result := lists;
    for c := 0 to |children|
      invariant HasMesh(imodel, meshNum) && ListsValid(result)
      invariant BuildAt(imodel, meshNum, result) == ProcessAll(start, children[..c], prim)
      invariant Kept(imodel.Vertices, old(imodel.Vertices), meshNum)
      invariant Kept(imodel.Normals, old(imodel.Normals), meshNum)
      invariant Kept(imodel.UVs, old(imodel.UVs), meshNum)
      invariant Kept(imodel.Colors, old(imodel.Colors), meshNum)
    {
      assert children[..c + 1][..c] == children[..c];
      result := ProcessPrimitive(imodel, meshNum, children[c], prim, result);
    }
    assert children[..|children|] == children;
  }

  /** The input step of `DoConversion`'s primitive loop. */
  method GatherInput(imodel: IModel, meshNum: nat, input: Collada.Input, numInputs: nat, prim: int,
                     lists: Lists, numVertices: int, numProcessed: int)
    returns (lists': Lists, numVertices': int, numProcessed': int)
    requires HasMesh(imodel, meshNum) && meshNum < |imodel.Faces| && meshNum < |imodel.FaceCount|
    requires ListsValid(lists) && numInputs > 0 && Applicable(input, prim)
    modifies imodel`Vertices, imodel`Normals, imodel`UVs, imodel`Colors
    ensures HasMesh(imodel, meshNum) && ListsValid(lists')
    ensures Snapshot(imodel, meshNum, lists', numVertices', numProcessed')
            == Gather(old(Snapshot(imodel, meshNum, lists, numVertices, numProcessed)), input, numInputs, prim)
    ensures Kept(imodel.Vertices, old(imodel.Vertices), meshNum)
    ensures Kept(imodel.Normals, old(imodel.Normals), meshNum)
    ensures Kept(imodel.UVs, old(imodel.UVs), meshNum)
    ensures Kept(imodel.Colors, old(imodel.Colors), meshNum)
  {
    lists', numVertices', numProcessed' := lists, numVertices, numProcessed;
    if |input.children| > 0 {
      lists' := ProcessChildren(imodel, meshNum, input.children, prim, lists');
      numProcessed' := numProcessed' + |input.children|;
      numVertices' := numVertices' + 1;
    } else {
      lists' := ProcessPrimitive(imodel, meshNum, input, prim, lists');
      numProcessed' := numProcessed' + 1;
      if numProcessed' % numInputs == 0 {
        numVertices' := numVertices' + 1;
      }
    }
  }

  /** The face step of `DoConversion`'s primitive loop. */
  method EmitFace(imodel: IModel, meshNum: nat, lists: Lists, numVertices: int, numProcessed: int)
    returns (lists': Lists, numVertices': int, numProcessed': int)
    requires HasMesh(imodel, meshNum) && meshNum < |imodel.Faces| && meshNum < |imodel.FaceCount|
    requires ListsValid(lists)
    modifies imodel`Faces, imodel`FaceCount
    ensures HasMesh(imodel, meshNum) && meshNum < |imodel.Faces| && meshNum < |imodel.FaceCount|
    ensures Snapshot(imodel, meshNum, lists', numVertices', numProcessed')
            == Emit(old(Snapshot(imodel, meshNum, lists, numVertices, numProcessed)))
    ensures Kept(imodel.Faces, old(imodel.Faces), meshNum)
    ensures Kept(imodel.FaceCount, old(imodel.FaceCount), meshNum)
  {
    lists', numVertices', numProcessed' := lists, numVertices, numProcessed;
    if numVertices' == 3 {
      imodel.Faces := imodel.Faces[meshNum := imodel.Faces[meshNum] + [FaceOf(lists')]];
      numVertices' := 0;
      lists' := ClearAll(lists');
      imodel.FaceCount := imodel.FaceCount[meshNum := imodel.FaceCount[meshNum] + 1];
    }
  }

  /** One pass of `DoConversion`'s primitive loop for mesh `meshNum`. */
  method ConvertPrimitive(imodel: IModel, meshNum: nat, inputs: seq<Collada.Input>, k: nat, prim: int,
                          lists: Lists, numVertices: int, numProcessed: int)
    returns (lists': Lists, numVertices': int, numProcessed': int)
    requires HasMesh(imodel, meshNum) && meshNum < |imodel.Faces| && meshNum < |imodel.FaceCount|
    requires ListsValid(lists) && StepReadable(inputs, k, prim)
    modifies imodel`Vertices, imodel`Normals, imodel`UVs, imodel`Colors, imodel`Faces, imodel`FaceCount
    ensures HasMesh(imodel, meshNum) && meshNum < |imodel.Faces| && meshNum < |imodel.FaceCount|
    ensures Snapshot(imodel, meshNum, lists', numVertices', numProcessed')
            == Step(old(Snapshot(imodel, meshNum, lists, numVertices, numProcessed)), inputs, k, prim)
    ensures Kept(imodel.Vertices, old(imodel.Vertices), meshNum)
    ensures Kept(imodel.Normals, old(imodel.Normals), meshNum)
    ensures Kept(imodel.UVs, old(imodel.UVs), meshNum)
    ensures Kept(imodel.Colors, old(imodel.Colors), meshNum)
    ensures Kept(imodel.Faces, old(imodel.Faces), meshNum)
    ensures Kept(imodel.FaceCount, old(imodel.FaceCount), meshNum)
  {
    lists', numVertices', numProcessed' := lists, numVertices, numProcessed;
    var input := MatchInput(inputs, k);
    if input.None? {
      return;
    }
    lists', numVertices', numProcessed' :=
      GatherInput(imodel, meshNum, input.value, |inputs|, prim, lists', numVertices', numProcessed');
    lists', numVertices', numProcessed' := EmitFace(imodel, meshNum, lists', numVertices', numProcessed');
  }

  /** What a converted mesh holds at `meshNum` in the model. */
  ghost predicate MeshConverted(imodel: IModel, meshNum: nat, mesh: Collada.Mesh,
                                materials: seq<Collada.Material>, effects: seq<Collada.Effect>)
    requires MeshReadable(mesh) && MaterialReadable(mesh, materials, effects)
    reads imodel
  {
    var r := Run(mesh, |mesh.triangles.primitives|);
    HasMesh(imodel, meshNum) && meshNum < |imodel.Faces| && meshNum < |imodel.FaceCount|
    && meshNum < |imodel.Materials|
    && imodel.Faces[meshNum] == r.faces && imodel.FaceCount[meshNum] == r.faceCount
    && imodel.Vertices[meshNum] == r.build.vertices && imodel.Normals[meshNum] == r.build.normals
    && imodel.UVs[meshNum] == r.build.uvs && imodel.Colors[meshNum] == r.build.colors
    && imodel.Materials[meshNum] == MeshMaterial(mesh, materials, effects)
  }

  /** A mesh slot as resizing leaves it in a fresh model. */
  predicate MeshEmpty(imodel: IModel, meshNum: nat)
    reads imodel
  {
    HasMesh(imodel, meshNum) && meshNum < |imodel.Faces| && meshNum < |imodel.FaceCount|
    && imodel.Faces[meshNum] == [] && imodel.FaceCount[meshNum] == 0
    && imodel.Vertices[meshNum] == [] && imodel.Normals[meshNum] == []
    && imodel.UVs[meshNum] == [] && imodel.Colors[meshNum] == []
  }

  /** `DoConversion`'s primitive loop for mesh `meshNum`, from fresh
      index lists and counters. */
  method ConvertPrimitives(imodel: IModel, meshNum: nat, mesh: Collada.Mesh)
    requires MeshReadable(mesh) && MeshEmpty(imodel, meshNum)
    modifies imodel`Vertices, imodel`Normals, imodel`UVs, imodel`Colors, imodel`Faces, imodel`FaceCount
    ensures HasMesh(imodel, meshNum) && meshNum < |imodel.Faces| && meshNum < |imodel.FaceCount|
    ensures var r := Run(mesh, |mesh.triangles.primitives|);
            imodel.Faces[meshNum] == r.faces && imodel.FaceCount[meshNum] == r.faceCount
            && imodel.Vertices[meshNum] == r.build.vertices && imodel.Normals[meshNum] == r.build.normals
            && imodel.UVs[meshNum] == r.build.uvs && imodel.Colors[meshNum] == r.build.colors
    ensures Kept(imodel.Vertices, old(imodel.Vertices), meshNum)
    ensures Kept(imodel.Normals, old(imodel.Normals), meshNum)
    ensures Kept(imodel.UVs, old(imodel.UVs), meshNum)
    ensures Kept(imodel.Colors, old(imodel.Colors), meshNum)
    ensures Kept(imodel.Faces, old(imodel.Faces), meshNum)
    ensures Kept(imodel.FaceCount, old(imodel.FaceCount), meshNum)
  {
    var inputs := mesh.triangles.inputs;
    var primitives := mesh.triangles.primitives;
    var made := IndexList([0, 0, 0], 3);
    var lists := ClearAll(Lists(made, made, made, made));
    var numVertices := 0;
    var numProcessed := 0;
    for primitiveInput := 0 to |primitives|
      invariant HasMesh(imodel, meshNum) && meshNum < |imodel.Faces| && meshNum < |imodel.FaceCount|
      invariant ListsValid(lists)
      invariant Snapshot(imodel, meshNum, lists, numVertices, numProcessed) == Run(mesh, primitiveInput)
      invariant Kept(imodel.Vertices, old(imodel.Vertices), meshNum)
      invariant Kept(imodel.Normals, old(imodel.Normals), meshNum)
      invariant Kept(imodel.UVs, old(imodel.UVs), meshNum)
      invariant Kept(imodel.Colors, old(imodel.Colors), meshNum)
      invariant Kept(imodel.Faces, old(imodel.Faces), meshNum)
      invariant Kept(imodel.FaceCount, old(imodel.FaceCount), meshNum)
    {
      var prim := primitives[primitiveInput];
      lists, numVertices, numProcessed :=
        ConvertPrimitive(imodel, meshNum, inputs, primitiveInput, prim, lists, numVertices, numProcessed);
    }
  }

  /** The body of `DoConversion`'s mesh loop: the primitives of mesh
      `meshNum`, then its material. */
  method ConvertMesh(imodel: IModel, meshNum: nat, mesh: Collada.Mesh,
                     materials: seq<Collada.Material>, effects: seq<Collada.Effect>)
    requires MeshReadable(mesh) && MaterialReadable(mesh, materials, effects)
    requires MeshEmpty(imodel, meshNum) && meshNum < |imodel.Materials|
    modifies imodel`Vertices, imodel`Normals, imodel`UVs, imodel`Colors, imodel`Faces, imodel`FaceCount,
             imodel`Materials
    ensures MeshConverted(imodel, meshNum, mesh, materials, effects)
    ensures Kept(imodel.Vertices, old(imodel.Vertices), meshNum)
    ensures Kept(imodel.Normals, old(imodel.Normals), meshNum)
    ensures Kept(imodel.UVs, old(imodel.UVs), meshNum)
    ensures Kept(imodel.Colors, old(imodel.Colors), meshNum)
    ensures Kept(imodel.Faces, old(imodel.Faces), meshNum)
    ensures Kept(imodel.FaceCount, old(imodel.FaceCount), meshNum)
    ensures Kept(imodel.Materials, old(imodel.Materials), meshNum)
  {
    ConvertPrimitives(imodel, meshNum, mesh);
    var mat := BuildMaterial(mesh, materials, effects);
    imodel.Materials := imodel.Materials[meshNum := mat];
  }

  /** Everything `DoConversion` reads without checking is there. */
  predicate Convertible(meshes: seq<Collada.Mesh>, materials: seq<Collada.Material>, effects: seq<Collada.Effect>)
  {
    forall m :: 0 <= m < |meshes| ==> MeshReadable(meshes[m]) && MaterialReadable(meshes[m], materials, effects)
  }

  /** The sizing step of `DoConversion`: the mesh count set, one empty
      slot per mesh in every list, and every face count zeroed. */
  method SizeModel(imodel: IModel, numMeshes: nat)
    requires imodel.Faces == [] && imodel.Vertices == [] && imodel.Normals == [] && imodel.UVs == []
    requires imodel.Colors == [] && imodel.Materials == [] && imodel.FaceCount == []
    modifies imodel`MeshCount, imodel`Faces, imodel`Vertices, imodel`Normals, imodel`UVs, imodel`Colors,
             imodel`Materials, imodel`FaceCount
    ensures imodel.MeshCount == numMeshes && Sized(imodel, numMeshes)
    ensures forall m :: 0 <= m < numMeshes ==>
              imodel.Faces[m] == [] && imodel.FaceCount[m] == 0 && imodel.Vertices[m] == []
              && imodel.Normals[m] == [] && imodel.UVs[m] == [] && imodel.Colors[m] == []
  {
    imodel.MeshCount := numMeshes;
    imodel.Faces := Grown(imodel.Faces, numMeshes, []);
    imodel.Vertices := Grown(imodel.Vertices, numMeshes, []);
    imodel.Normals := Grown(imodel.Normals, numMeshes, []);
    imodel.UVs := Grown(imodel.UVs, numMeshes, []);
    imodel.Colors := Grown(imodel.Colors, numMeshes, []);
    imodel.Materials := Grown(imodel.Materials, numMeshes, DEFAULT_MATERIAL);
    imodel.FaceCount := Grown(imodel.FaceCount, numMeshes, 0);
    for meshIndex := 0 to numMeshes
      modifies imodel`FaceCount
      invariant |imodel.FaceCount| == numMeshes
      invariant forall m :: 0 <= m < numMeshes ==> imodel.FaceCount[m] == 0
    {
      imodel.FaceCount := imodel.FaceCount[meshIndex := 0];
    }
  }

  /** `DoConversion`: the model gets one slot per mesh in every list,
      zeroed face counts, and then each mesh's converted lists, faces,
      face count and material. */
  method DoConversion(daemodel: Collada.ColladaModel, imodel: IModel)
    requires Convertible(daemodel.Meshes, daemodel.Materials, daemodel.Effects)
    requires imodel.Faces == [] && imodel.Vertices == [] && imodel.Normals == [] && imodel.UVs == []
    requires imodel.Colors == [] && imodel.Materials == [] && imodel.FaceCount == []
    modifies imodel`MeshCount, imodel`Faces, imodel`Vertices, imodel`Normals, imodel`UVs, imodel`Colors,
             imodel`Materials, imodel`FaceCount
    ensures imodel.MeshCount == |daemodel.Meshes|
    ensures Sized(imodel, |daemodel.Meshes|)
    ensures forall m :: 0 <= m < |daemodel.Meshes| ==>
              MeshConverted(imodel, m, daemodel.Meshes[m], daemodel.Materials, daemodel.Effects)
  {
    var meshes, materials, effects := daemodel.Meshes, daemodel.Materials, daemodel.Effects;
    var numMeshes := |meshes|;
    SizeModel(imodel, numMeshes);
    for meshNum := 0 to numMeshes
      invariant Sized(imodel, numMeshes) && imodel.MeshCount == numMeshes
      invariant forall m :: 0 <= m < meshNum ==> MeshConverted(imodel, m, meshes[m], materials, effects)
      invariant forall m :: meshNum <= m < numMeshes ==>
                  imodel.Faces[m] == [] && imodel.FaceCount[m] == 0 && imodel.Vertices[m] == []
                  && imodel.Normals[m] == [] && imodel.UVs[m] == [] && imodel.Colors[m] == []
    {
      ConvertMesh(imodel, meshNum, meshes[meshNum], materials, effects);
    }
  }

  // ---------------------------------------------------------------------
  // The converted model

  /** After conversion each mesh's face count is its number of faces. */
  lemma ConvertedFaceCount(imodel: IModel, meshNum: nat, mesh: Collada.Mesh,
                           materials: seq<Collada.Material>, effects: seq<Collada.Effect>)
    requires MeshReadable(mesh) && MaterialReadable(mesh, materials, effects)
    requires MeshConverted(imodel, meshNum, mesh, materials, effects)
    ensures imodel.FaceCount[meshNum] == |imodel.Faces[meshNum]|
  {
    FaceCountIsFaces(mesh, |mesh.triangles.primitives|);
  }

  /** After conversion a mesh has a texture exactly when its effect's
      diffuse sampler reaches an image. */
  lemma ConvertedTexture(imodel: IModel, meshNum: nat, mesh: Collada.Mesh,
                         materials: seq<Collada.Material>, effects: seq<Collada.Effect>)
    requires MeshReadable(mesh) && MaterialReadable(mesh, materials, effects)
    requires MeshConverted(imodel, meshNum, mesh, materials, effects)
    ensures var e := MeshEffect(mesh, materials, effects);
            imodel.HasTextureInMesh(meshNum) <==>
              (e.Some? && TextureOf(e.value.diffuse.sampler).Some?)
  {
  }

  /** After conversion a mesh has colours, texture coordinates or normals
      exactly when one of its primitives was routed to an input that
      writes them. */
  lemma ConvertedLists(imodel: IModel, meshNum: nat, mesh: Collada.Mesh,
                       materials: seq<Collada.Material>, effects: seq<Collada.Effect>)
    requires MeshReadable(mesh) && MaterialReadable(mesh, materials, effects)
    requires MeshConverted(imodel, meshNum, mesh, materials, effects)
    ensures imodel.HasColorsInMesh(meshNum) <==> Touched(mesh, |mesh.triangles.primitives|, "COLOR")
    ensures imodel.HasTexturesInMesh(meshNum) <==> Touched(mesh, |mesh.triangles.primitives|, "TEXCOORD")
    ensures imodel.HasNormalsInMesh(meshNum) <==> Touched(mesh, |mesh.triangles.primitives|, "NORMAL")
  {
    SizeIffTouched(mesh, |mesh.triangles.primitives|, "COLOR");
    SizeIffTouched(mesh, |mesh.triangles.primitives|, "TEXCOORD");
    SizeIffTouched(mesh, |mesh.triangles.primitives|, "NORMAL");
  }
}
