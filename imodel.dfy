/** The engine's converted 3D model: per mesh, its faces, vertex
    positions, normals, texture coordinates, colours and material, and a
    face count. The element types and their default values are those of
    the engine's 3D header. */
module IModels {
  import opened Wrappers
  import opened Floats

  datatype Vertex = Vertex(x: float, y: float, z: float)

  datatype TexCoord = TexCoord(u: float, v: float)

  datatype Color = Color(r: float, g: float, b: float, a: float)

  /** The three corner indices of a face into one of the mesh's lists. */
  datatype Corners = Corners(first: int, second: int, third: int)

  datatype Face = Face(vertices: Corners, texCoords: Corners, normals: Corners, colors: Corners)

  /** A mesh material. `tex` is the path of the texture image the engine
      loads, or none for the null texture. */
  datatype Material = Material(specular: seq<float>, ambient: seq<float>, emission: seq<float>,
                               diffuse: seq<float>, shininess: float, transparency: float,
                               indexOfRefraction: float, tex: Option<string>)

  /** `IVertex()`: the origin. */
  const ORIGIN: Vertex := Vertex(Zero, Zero, Zero)

  /** `ITexCoord()`. */
  const UNIT_TEX_COORD: TexCoord := TexCoord(One, One)

  /** `IColor()`: opaque white. */
  const WHITE: Color := Color(One, One, One, One)

  const WHITE_RGBA: seq<float> := [One, One, One, One]

  /** `IMaterial()`: white in every term, no shininess, opaque, a
      refractive index of one and no texture. */
  const DEFAULT_MATERIAL: Material :=
    Material(WHITE_RGBA, WHITE_RGBA, WHITE_RGBA, WHITE_RGBA, Zero, One, One, None)

  class IModel {
    var Faces: seq<seq<Face>>
    var Vertices: seq<seq<Vertex>>
    var Normals: seq<seq<Vertex>>
    var UVs: seq<seq<TexCoord>>
    var Colors: seq<seq<Color>>
    var Materials: seq<Material>
    var MeshCount: int
    var FaceCount: seq<int>

    /** `IModel()`: every list empty. */
    constructor()
      ensures Faces == [] && Vertices == [] && Normals == [] && UVs == [] && Colors == []
      ensures Materials == [] && FaceCount == []
    {
      Faces := [];
      Vertices := [];
      Normals := [];
      UVs := [];
      Colors := [];
      Materials := [];
      FaceCount := [];
    }

    /** `IModel(filename)`: a model holding what the COLLADA reader
        converted from the file, field by field. */
    constructor Load(converted: IModel)
      ensures Colors == converted.Colors && Faces == converted.Faces
      ensures Vertices == converted.Vertices && Normals == converted.Normals
      ensures UVs == converted.UVs && Materials == converted.Materials
      ensures MeshCount == converted.MeshCount && FaceCount == converted.FaceCount
    {
      Colors := converted.Colors;
      Faces := converted.Faces;
      Vertices := converted.Vertices;
      Normals := converted.Normals;
      UVs := converted.UVs;
      Materials := converted.Materials;
      MeshCount := converted.MeshCount;
      FaceCount := converted.FaceCount;
    }

    predicate HasColorsInMesh(meshIndex: int)
      requires 0 <= meshIndex < |Colors|
      reads this
    {
      |Colors[meshIndex]| > 0
    }

    predicate HasTexturesInMesh(meshIndex: int)
      requires 0 <= meshIndex < |UVs|
      reads this
    {
      |UVs[meshIndex]| > 0
    }

    predicate HasNormalsInMesh(meshIndex: int)
      requires 0 <= meshIndex < |Normals|
      reads this
    {
      |Normals[meshIndex]| > 0
    }

    /** False for a model with no materials; otherwise whether the
        mesh's material has a texture. */
    predicate HasTextureInMesh(meshIndex: int)
      requires |Materials| == 0 || 0 <= meshIndex < |Materials|
      reads this
    {
      if |Materials| == 0 then false else Materials[meshIndex].tex.Some?
    }
  }
}
