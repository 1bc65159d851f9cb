/** The COLLADA document as the reader builds it from the XML tree: mesh
    sources, the vertices and triangles of each mesh, images, effects and
    materials, with the id links between them resolved by linear search.
    Objects that the reader links by pointer and never changes afterwards
    are held as values; a mesh names its material by position in the
    model's material list, because the material's effect is filled in
    after the mesh has been linked to it. */
module Collada {
  import opened Wrappers
  import opened Floats
  import ColladaText

  /** An XML token copied into a C string by the reader (`TokenToString`). */
  type Token = ColladaText.CString

  /** A node of the parsed XML tree: its name (for a text node, the text),
      its attributes and its children. */
  datatype XmlNode = XmlNode(name: Token, attributes: map<Token, Token>, children: seq<XmlNode>)

  /** An attribute's value; an attribute that is absent reads as the empty token. */
  function Attribute(node: XmlNode, key: Token): Token
  {
    if key in node.attributes then node.attributes[key] else ""
  }

  datatype FloatArray = FloatArray(id: Token, count: int, contents: seq<float>)

  datatype Accessor = Accessor(source: Option<FloatArray>, count: int, stride: int)

  datatype MeshSource = MeshSource(id: Token, floatArrays: seq<FloatArray>, accessors: seq<Accessor>)

  /** A triangles or vertices input. An expanded VERTEX input has no
      source of its own and carries the vertices inputs as children. */
  datatype Input = Input(semantic: Token, source: Option<MeshSource>, offset: int, children: seq<Input>)

  datatype Vertices = Vertices(id: Token, inputs: seq<Input>)

  datatype Triangles = Triangles(id: Token, count: int, inputs: seq<Input>, primitives: seq<int>)

  /** A mesh; `material` is a position in the model's material list. */
  datatype Mesh = Mesh(sourceList: seq<MeshSource>, vertices: Vertices, triangles: Triangles,
                       material: Option<nat>)

  datatype Image = Image(id: Token, path: string)

  datatype Surface = Surface(id: Token, image: Option<Image>)

  datatype Sampler = Sampler(id: Token, surface: Option<Surface>)

  /** One lighting term of an effect: an RGBA colour and an optional texture sampler. */
  datatype PhongComponent = PhongComponent(color: seq<float>, sampler: Option<Sampler>)

  datatype Effect = Effect(id: Token, specular: PhongComponent, ambient: PhongComponent,
                           emission: PhongComponent, diffuse: PhongComponent,
                           shininess: float, transparency: float, indexOfRefraction: float)

  /** A material; `effect` is a position in the model's effect list, set
      when the effect link is resolved. */
  datatype Material = Material(id: Token, name: Token, effectLink: Token, effect: Option<nat>)

  /** The parsed document. The section parsers append to its lists. */
  class ColladaModel {
    var Meshes: seq<Mesh>
    var Materials: seq<Material>
    var Effects: seq<Effect>
    var Images: seq<Image>

    constructor()
      ensures Meshes == [] && Materials == [] && Effects == [] && Images == []
    {
      Meshes := [];
      Materials := [];
      Effects := [];
      Images := [];
    }

    /** `ParseImage`: the image named by the first child's text, renamed
        into the engine's texture folder, is appended unless its file name
        is empty. A path with no separator makes the C loop read before
        the string, so it is excluded. */
    method ParseImage(parent: XmlNode, effect: XmlNode)
      requires |effect.children| > 0
      requires HasSeparator(effect.children[0].name) || |effect.children[0].name| == 0
      modifies this`Images
      ensures var path := effect.children[0].name;
              Images == old(Images) +
                (if |path| > 0 && |FileName(path)| > 0
                 then [Image(Attribute(parent, "id"), TEXTURE_FOLDER + FileName(path))]
                 else [])
    {
      var id := Attribute(parent, "id");
      var path := effect.children[0].name;
      if |path| == 0 {
        return;
      }
      var i := |path| - 1;
      while !IsPathSeparator(path[i])
        invariant 0 <= i < |path|
        invariant forall k :: i < k < |path| ==> !IsPathSeparator(path[k])
        invariant exists k :: 0 <= k <= i && IsPathSeparator(path[k])
        decreases i
      {
        i := i - 1;
      }
      var filename := path[i + 1..];
      FileNameAfter(path, i);
      if |filename| == 0 {
        return;
      }
      Images := Images + [Image(id, TEXTURE_FOLDER + filename)];
    }

    /** `AssignEffectsToMaterials`: each material whose effect link, less
        its leading `#`, is the id of an effect gets the first such
        effect; the others are left as they were. The C code steps past
        the first character of the link, so an empty link is excluded. */
    method AssignEffectsToMaterials()
      requires forall i :: 0 <= i < |Materials| ==> |Materials[i].effectLink| > 0
      modifies this`Materials
      ensures |Materials| == |old(Materials)|
      ensures forall i :: 0 <= i < |Materials| ==> Materials[i] == Linked(old(Materials[i]), Effects)
    {
      ghost var before := Materials;
      for i := 0 to |Materials|
        invariant |Materials| == |before|
        invariant forall k :: 0 <= k < i ==> Materials[k] == Linked(before[k], Effects)
        invariant forall k :: i <= k < |Materials| ==> Materials[k] == before[k]
      {
        var material := Materials[i];
        var link := material.effectLink[1..];
        ghost var head := Materials;
        var j := 0;
        while j < |Effects|
          invariant 0 <= j <= |Effects|
          invariant forall k :: 0 <= k < j ==> Effects[k].id != link
          invariant Materials == head
        {
          if Effects[j].id == link {
            Materials := Materials[i := material.(effect := Some(j))];
            break;
          }
          j := j + 1;
        }
      }
    }
  }

  // ---------------------------------------------------------------------
  // Id links

  /** The position of the first id equal to `name`. */
  function IndexOf(ids: seq<Token>, name: string): (r: Option<nat>)
    ensures r.Some? ==> r.value < |ids| && ids[r.value] == name
    ensures r.Some? ==> forall j :: 0 <= j < r.value ==> ids[j] != name
    ensures r.None? <==> name !in ids
  {
    if |ids| == 0 then None
    else if ids[0] == name then Some(0)
    else match IndexOf(ids[1..], name)
      case None => None
      case Some(k) => Some(k + 1)
  }

  function SourceIds(list: seq<MeshSource>): (ids: seq<Token>)
    ensures |ids| == |list|
  {
    seq(|list|, i requires 0 <= i < |list| => list[i].id)
  }

  function ArrayIds(arrays: seq<FloatArray>): (ids: seq<Token>)
    ensures |ids| == |arrays|
  {
    seq(|arrays|, i requires 0 <= i < |arrays| => arrays[i].id)
  }

  function EffectIds(effects: seq<Effect>): (ids: seq<Token>)
    ensures |ids| == |effects|
  {
    seq(|effects|, i requires 0 <= i < |effects| => effects[i].id)
  }

  /** The mesh source a link names: the first whose id is `name`. */
  function FirstSource(list: seq<MeshSource>, name: string): Option<MeshSource>
  {
    match IndexOf(SourceIds(list), name)
    case None => None
    case Some(k) => Some(list[k])
  }

  /** `FindMeshSource`: the first source in `list` whose id is `name`, or
      none when no id matches. */
  method FindMeshSource(list: seq<MeshSource>, name: string) returns (r: Option<MeshSource>)
    ensures r == FirstSource(list, name)
    ensures r.None? <==> forall k :: 0 <= k < |list| ==> list[k].id != name
    ensures r.Some? ==> exists k :: 0 <= k < |list| && r.value == list[k] && list[k].id == name
                                  && forall j :: 0 <= j < k ==> list[j].id != name
  {
    for i := 0 to |list|
      invariant forall j :: 0 <= j < i ==> list[j].id != name
    {
      if list[i].id == name {
        assert SourceIds(list)[i] == name;
        return Some(list[i]);
      }
    }
    assert forall j :: 0 <= j < |list| ==> SourceIds(list)[j] != name;
    return None;
  }

  /** `FindAccessorSource`: the first float array whose id is `name`, or
      none when no id matches. */
  method FindAccessorSource(arrays: seq<FloatArray>, name: string) returns (r: Option<FloatArray>)
    ensures r.None? <==> name !in ArrayIds(arrays)
    ensures r.Some? ==> exists k :: 0 <= k < |arrays| && r.value == arrays[k]
                                  && IndexOf(ArrayIds(arrays), name) == Some(k)
  {
    for i := 0 to |arrays|
      invariant forall j :: 0 <= j < i ==> arrays[j].id != name
    {
      if arrays[i].id == name {
        assert ArrayIds(arrays)[i] == name;
        return Some(arrays[i]);
      }
    }
    assert forall j :: 0 <= j < |arrays| ==> ArrayIds(arrays)[j] != name;
    return None;
  }

  /** A material after its effect link is resolved against `effects`. */
  function Linked(m: Material, effects: seq<Effect>): (r: Material)
    requires |m.effectLink| > 0
    ensures r.id == m.id && r.name == m.name && r.effectLink == m.effectLink
    ensures (exists j :: 0 <= j < |effects| && effects[j].id == m.effectLink[1..]) ==>
              r.effect.Some? && r.effect.value < |effects|
              && effects[r.effect.value].id == m.effectLink[1..]
              && forall j :: 0 <= j < r.effect.value ==> effects[j].id != m.effectLink[1..]
    ensures (forall j :: 0 <= j < |effects| ==> effects[j].id != m.effectLink[1..]) ==> r == m
  {
    var ids := EffectIds(effects);
    assert forall j :: 0 <= j < |effects| ==> ids[j] == effects[j].id;
    match IndexOf(ids, m.effectLink[1..])
    case None => m
    case Some(j) => m.(effect := Some(j))
  }

  // ---------------------------------------------------------------------
  // Image paths

  /** Where the engine looks for model textures. */
  const TEXTURE_FOLDER: string := "Models\\Textures\\"

  predicate IsPathSeparator(c: char)
  {
    c == '/' || c == '\\'
  }

  predicate HasSeparator(path: string)
  {
    exists k :: 0 <= k < |path| && IsPathSeparator(path[k])
  }

  /** The last component of a path: what follows its last separator. */
  function FileName(path: string): (name: string)
    ensures |name| <= |path| && name == path[|path| - |name|..]
    ensures forall k :: 0 <= k < |name| ==> !IsPathSeparator(name[k])
    ensures |name| < |path| ==> IsPathSeparator(path[|path| - |name| - 1])
  {
    if |path| == 0 || IsPathSeparator(path[|path| - 1]) then ""
    else FileName(path[..|path| - 1]) + [path[|path| - 1]]
  }

  /** The file name is whatever follows a separator that has none after it. */
  lemma {:induction false} FileNameAfter(path: string, i: nat)
    requires i < |path| && IsPathSeparator(path[i])
    requires forall k :: i < k < |path| ==> !IsPathSeparator(path[k])
    ensures FileName(path) == path[i + 1..]
    decreases |path|
  {
    if i + 1 < |path| {
      var front := path[..|path| - 1];
      FileNameAfter(front, i);
      assert front[i + 1..] + [path[|path| - 1]] == path[i + 1..];
    }
  }

  /** A directory, a separator and a file name: the file name is found. */
  lemma FileNameOfPath(directory: string, separator: char, name: string)
    requires IsPathSeparator(separator)
    requires forall k :: 0 <= k < |name| ==> !IsPathSeparator(name[k])
    ensures FileName(directory + [separator] + name) == name
  {
    var path := directory + [separator] + name;
    FileNameAfter(path, |directory|);
    assert path[|directory| + 1..] == name;
  }

  // ---------------------------------------------------------------------
  // Triangles

  /** The `input` children of a triangles element, as the reader turns
      them into inputs, appended in document order. */
  function InputsOf(mesh: Mesh, children: seq<XmlNode>, number: Token -> int): seq<Input>
    requires InputsReadable(mesh, children)
  {
    if |children| == 0 then []
    else
      var child := children[|children| - 1];
      InputsOf(mesh, children[..|children| - 1], number)
      + (if child.name == "input" then [InputOf(mesh, child, number)] else [])
  }

  /** The inputs a triangles element declares, resolved against the mesh. */
  function InputOf(mesh: Mesh, child: XmlNode, number: Token -> int): Input
    requires child.name == "input" && InputReadable(mesh, child)
  {
    var semantic := Attribute(child, "semantic");
    var link := Attribute(child, "source")[1..];
    var offset := number(Attribute(child, "offset"));
    if semantic == "VERTEX" then
      if mesh.vertices.id == link then
        if |mesh.vertices.inputs| > 1 then Input(semantic, None, offset, mesh.vertices.inputs)
        else mesh.vertices.inputs[0]
      else Input(semantic, None, offset, [])
    else Input(semantic, FirstSource(mesh.sourceList, link), offset, [])
  }

  /** What the C code reads without checking: the character after the
      `#` of a link, and the vertices input a single-input VERTEX link copies. */
  predicate InputReadable(mesh: Mesh, child: XmlNode)
  {
    child.name == "input" ==>
      |Attribute(child, "source")| > 0
      && (Attribute(child, "semantic") == "VERTEX" && mesh.vertices.id == Attribute(child, "source")[1..]
          ==> |mesh.vertices.inputs| > 0)
  }

  predicate InputsReadable(mesh: Mesh, children: seq<XmlNode>)
  {
    forall i :: 0 <= i < |children| ==> InputReadable(mesh, children[i])
  }

  /** A `p` element's first child holds the primitive indices. */
  predicate TrianglesReadable(mesh: Mesh, node: XmlNode)
  {
    InputsReadable(mesh, node.children)
    && forall i :: 0 <= i < |node.children| && node.children[i].name == "p"
         ==> |node.children[i].children| > 0
  }

  /** The primitive indices of the `p` children, in document order. */
  function PrimitivesOf(children: seq<XmlNode>): seq<int>
    requires forall i :: 0 <= i < |children| && children[i].name == "p"
               ==> |children[i].children| > 0
  {
    if |children| == 0 then []
    else
      var child := children[|children| - 1];
      PrimitivesOf(children[..|children| - 1])
      + (if child.name == "p"
         then ColladaText.Map(ColladaText.Atoi, ColladaText.Words(child.children[0].name))
         else [])
  }

  /** One `input` child of a triangles element read into an input: a
      VERTEX input that links to the mesh's vertices is expanded to the
      vertices inputs, or replaced by the single one; any other input is
      linked to the mesh source its `source` attribute names. */
  method ReadInput(mesh: Mesh, child: XmlNode, number: Token -> int) returns (input: Input)
    requires child.name == "input" && InputReadable(mesh, child)
    ensures input == InputOf(mesh, child, number)
  {
    var semantic := Attribute(child, "semantic");
    var link := Attribute(child, "source")[1..];
    input := Input(semantic, None, 0, []);
    if semantic == "VERTEX" {
      if mesh.vertices.id == link {
        if |mesh.vertices.inputs| > 1 {
          input := input.(children := mesh.vertices.inputs, source := None);
        } else {
          input := mesh.vertices.inputs[0];
          return;
        }
      }
    } else {
      var source := FindMeshSource(mesh.sourceList, link);
      input := input.(source := source);
    }
    input := input.(offset := number(Attribute(child, "offset")));
  }

  /** The indices of a `p` element appended to `primitives`. */
  method ReadPrimitives(primitives: seq<int>, child: XmlNode) returns (result: seq<int>)
    requires |child.children| > 0
    ensures result == primitives + ColladaText.Map(ColladaText.Atoi, ColladaText.Words(child.children[0].name))
  {
    result := primitives;
    var contents := child.children[0];
    if |contents.name| > 0 {
      var list := ColladaText.CopyText(contents.name);
      ColladaText.CopiedText(contents.name);
      result := ColladaText.ParseIntegerArray(result, list);
    } else {
      assert ColladaText.Words(contents.name) == [];
    }
  }

  /** `ParseMeshTriangles`: the triangles element's id and count, its
      inputs appended to the mesh's triangles inputs and its primitive
      indices appended to the mesh's primitives. `number` is the XML
      parser's `TokenToNumber`. */
  method ParseMeshTriangles(mesh: Mesh, node: XmlNode, number: Token -> int) returns (result: Mesh)
    requires TrianglesReadable(mesh, node)
    ensures result.sourceList == mesh.sourceList && result.vertices == mesh.vertices
    ensures result.material == mesh.material
    ensures result.triangles.id == Attribute(node, "id")
    ensures result.triangles.count == number(Attribute(node, "count"))
    ensures result.triangles.inputs == mesh.triangles.inputs + InputsOf(mesh, node.children, number)
    ensures result.triangles.primitives == mesh.triangles.primitives + PrimitivesOf(node.children)
  {
    var inputs := mesh.triangles.inputs;
    var primitives := mesh.triangles.primitives;
    var children := node.children;
    for i := 0 to |children|
      invariant inputs == mesh.triangles.inputs + InputsOf(mesh, children[..i], number)
      invariant primitives == mesh.triangles.primitives + PrimitivesOf(children[..i])
    {
      var child := children[i];
      InputsStep(mesh, children, i, number);
      PrimitivesStep(children, i);
      if child.name == "input" {
        var input := ReadInput(mesh, child, number);
        Associative(mesh.triangles.inputs, InputsOf(mesh, children[..i], number), [input]);
        inputs := inputs + [input];
      } else if child.name == "p" {
        ghost var read := ColladaText.Map(ColladaText.Atoi, ColladaText.Words(child.children[0].name));
        Associative(mesh.triangles.primitives, PrimitivesOf(children[..i]), read);
        primitives := ReadPrimitives(primitives, child);
      }
    }
    assert children[..|children|] == children;
    result := mesh.(triangles := Triangles(Attribute(node, "id"), number(Attribute(node, "count")),
                                           inputs, primitives));
  }

  lemma Associative<T>(a: seq<T>, b: seq<T>, c: seq<T>)
    ensures (a + b) + c == a + (b + c)
  {
  }

  lemma InputsStep(mesh: Mesh, children: seq<XmlNode>, i: nat, number: Token -> int)
    requires i < |children| && InputsReadable(mesh, children)
    ensures InputsOf(mesh, children[..i + 1], number)
            == InputsOf(mesh, children[..i], number)
               + (if children[i].name == "input" then [InputOf(mesh, children[i], number)] else [])
  {
    assert children[..i + 1][..i] == children[..i];
  }

  lemma PrimitivesStep(children: seq<XmlNode>, i: nat)
    requires i < |children|
    requires forall k :: 0 <= k < |children| && children[k].name == "p" ==> |children[k].children| > 0
    ensures PrimitivesOf(children[..i + 1])
            == PrimitivesOf(children[..i])
               + (if children[i].name == "p"
                  then ColladaText.Map(ColladaText.Atoi, ColladaText.Words(children[i].children[0].name))
                  else [])
  {
    assert children[..i + 1][..i] == children[..i];
  }

  /** Every input the reader builds for a triangles element is one of
      three kinds: a VERTEX input expanded to the mesh's vertices inputs
      (there being two or more, and no source of its own), a copy of the
      mesh's single vertices input, or an input with no children. */
  lemma {:induction false} InputsOfKinds(mesh: Mesh, children: seq<XmlNode>, number: Token -> int)
    requires InputsReadable(mesh, children)
    ensures forall input :: input in InputsOf(mesh, children, number) ==>
              (|input.children| > 0 && input.children == mesh.vertices.inputs
               && |mesh.vertices.inputs| > 1 && input.source.None? && input.semantic == "VERTEX")
              || input in mesh.vertices.inputs
              || |input.children| == 0
    ensures |InputsOf(mesh, children, number)| <= |children|
    decreases |children|
  {
    if |children| > 0 {
      var front := children[..|children| - 1];
      assert InputsReadable(mesh, front) by {
        assert forall i :: 0 <= i < |front| ==> front[i] == children[i];
      }
      InputsOfKinds(mesh, front, number);
    }
  }

  /** A `p` element holding decimal indices separated by spaces gives
      those indices back. */
  lemma PrimitivesOfIndices(p: XmlNode, ns: seq<int>)
    requires p.name == "p" && |p.children| > 0
    requires p.children[0].name == ColladaText.Join(ColladaText.Map(ColladaText.Decimal, ns))
    ensures PrimitivesOf([p]) == ns
  {
    ColladaText.ParsedDecimals(ns);
    assert [p][..0] == [];
  }

  // ---------------------------------------------------------------------
  // Float lists of a fixed size

  /** What `FloatStringToArray` leaves in its `size` slots as written:
      the defaults are put in the list first and the parsed values are
      appended behind them, so only the defaults are copied out. */
  function FloatsAsWritten(text: string, size: nat, default: float, atof: string -> float): (r: seq<float>)
    ensures |r| == size
  {
    (seq(size, _ => default) + ColladaText.Map(atof, ColladaText.Words(text)))[..size]
  }

  /** The `size` values a float list evidently should hold: the parsed
      values, with the default for the slots the text does not fill. */
  function FloatValues(text: string, size: nat, default: float, atof: string -> float): (r: seq<float>)
    ensures |r| == size
  {
    var parsed := ColladaText.Map(atof, ColladaText.Words(text));
    seq(size, i requires 0 <= i < size => if i < |parsed| then parsed[i] else default)
  }

  /** As written, the text is ignored: every slot holds the default. */
  lemma FloatsAsWrittenAreDefaults(text: string, size: nat, default: float, atof: string -> float)
    ensures forall i :: 0 <= i < size ==> FloatsAsWritten(text, size, default, atof)[i] == default
  {
  }

  /** The corrected list holds the values of the words joined into the text. */
  lemma FloatValuesOfWords(ws: seq<string>, size: nat, default: float, atof: string -> float)
    requires forall i :: 0 <= i < |ws| ==> ColladaText.IsWord(ws[i])
    ensures forall i :: 0 <= i < size ==>
              FloatValues(ColladaText.Join(ws), size, default, atof)[i]
              == (if i < |ws| then atof(ws[i]) else default)
  {
    ColladaText.WordsOfJoin(ws);
  }

  /** A colour written as text whose first value is not the default keeps
      the default as written, and reads the value once corrected. */
  lemma FloatsAsWrittenLoseText(ws: seq<string>, size: nat, default: float, atof: string -> float)
    requires forall i :: 0 <= i < |ws| ==> ColladaText.IsWord(ws[i])
    requires |ws| > 0 && size > 0 && atof(ws[0]) != default
    ensures FloatsAsWritten(ColladaText.Join(ws), size, default, atof)
            != FloatValues(ColladaText.Join(ws), size, default, atof)
  {
    FloatValuesOfWords(ws, size, default, atof);
    FloatsAsWrittenAreDefaults(ColladaText.Join(ws), size, default, atof);
  }

  /** `FloatStringToArray` as written: fill a list with the default,
      parse the text onto its end, copy the first `size` entries out. */
  method FloatStringToArrayAsWritten(contents: XmlNode, values: array<float>, size: nat, default: float,
                                     atof: string -> float)
    requires size <= values.Length
    modifies values
    ensures values[..size] == FloatsAsWritten(contents.name, size, default, atof)
    ensures values[size..] == old(values[size..])
  {
    var list := seq(size, _ => Zero);
    for i := 0 to size
      invariant |list| == size
      invariant forall k :: 0 <= k < i ==> list[k] == default
    {
      list := list[i := default];
    }
    assert list == seq(size, _ => default);
    if |contents.name| > 0 {
      var text := ColladaText.CopyText(contents.name);
      ColladaText.CopiedText(contents.name);
      list := ColladaText.ParseFloatArray(list, text, atof);
    }
    for i := 0 to size
      invariant forall k :: 0 <= k < i ==> values[k] == list[k]
      invariant values[size..] == old(values[size..])
    {
      values[i] := list[i];
    }
  }

  /** `FloatStringToArray` corrected: parse the text into an empty list
      and fill the slots it does not reach with the default. */
  method FloatStringToArray(contents: XmlNode, values: array<float>, size: nat, default: float,
                            atof: string -> float)
    requires size <= values.Length
    modifies values
    ensures values[..size] == FloatValues(contents.name, size, default, atof)
    ensures values[size..] == old(values[size..])
  {
    var list: seq<float> := [];
    if |contents.name| > 0 {
      var text := ColladaText.CopyText(contents.name);
      ColladaText.CopiedText(contents.name);
      list := ColladaText.ParseFloatArray(list, text, atof);
    } else {
      assert ColladaText.Words(contents.name) == [];
    }
    assert list == ColladaText.Map(atof, ColladaText.Words(contents.name));
    for i := 0 to size
      invariant forall k :: 0 <= k < i ==> values[k] == FloatValues(contents.name, size, default, atof)[k]
      invariant values[size..] == old(values[size..])
    {
      values[i] := if i < |list| then list[i] else default;
    }
  }

  /** `ParseEffectColor` as written: it reads the colour with the
      `FloatStringToArray` as written, so the text is lost and the colour
      is opaque white whatever the document says. */
  method ParseEffectColorAsWritten(contents: XmlNode, colors: array<float>, atof: string -> float)
    requires 4 <= colors.Length
    modifies colors
    ensures colors[..4] == [One, One, One, One]
    ensures colors[4..] == old(colors[4..])
  {
    FloatStringToArrayAsWritten(contents, colors, 4, One, atof);
    FloatsAsWrittenAreDefaults(contents.name, 4, One, atof);
  }

  /** `ParseEffectColor` with the corrected `FloatStringToArray`: an RGBA
      colour, each channel 1.0 unless the text gives it. */
  method ParseEffectColor(contents: XmlNode, colors: array<float>, atof: string -> float)
    requires 4 <= colors.Length
    modifies colors
    ensures colors[..4] == FloatValues(contents.name, 4, One, atof)
    ensures colors[4..] == old(colors[4..])
  {
    FloatStringToArray(contents, colors, 4, One, atof);
  }
}
