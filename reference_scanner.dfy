/**
 * The reference scanner: the documents a flow imports and the images it
 * shows, each with the virtual path it will be read from.
 */
module ReferenceScanner {
  import opened Wrappers
  import opened Ast

  datatype ReferenceType = Md | ImageReference

  /** A reference: its name (an image's title may be absent), its virtual path and its type. */
  datatype ReferenceInfo = ReferenceInfo(name: Option<string>, vpath: string, kind: ReferenceType)

  /** What reading the first clause of a directive without clauses throws. */
  const NO_CLAUSE_ERROR := "Cannot read properties of undefined (reading 'v')"
  /** What normalising a missing clause value throws. */
  const NO_VALUE_ERROR := "Cannot read properties of undefined (reading 'length')"

  /** A root directive without clauses, on which the import filter throws. */
  predicate IsBareDirective(n: Node)
  {
    n.RootDirective? && |n.clauses| == 0
  }

  /** A root directive whose first clause names the import directive. */
  predicate IsImport(n: Node)
  {
    n.RootDirective? && |n.clauses| > 0 && n.clauses[0].name == IMPORT_DIRECTIVE
  }

  predicate IsImage(n: Node) { n.Image? }

  /** `toVPath`: a leading "/" is added to a path of two or more characters that lacks one. */
  function ToVPath(path: string): (r: string)
  {
    if |path| > 1 && path[0] != '/' then "/" + path else path
  }

  /** The references of a list of import directives, in order. */
  function ImportReferences(imports: seq<Node>): (r: Result<seq<ReferenceInfo>>)
    requires forall i :: 0 <= i < |imports| ==> imports[i].RootDirective? && |imports[i].clauses| > 0
    ensures r.Err? <==> exists i :: 0 <= i < |imports| && imports[i].clauses[0].value.None?
    ensures r.Err? ==> r.error == NO_VALUE_ERROR
    ensures r.Ok? ==> |r.value| == |imports|
    ensures r.Ok? ==> forall i :: 0 <= i < |imports| ==>
      r.value[i] == ReferenceInfo(Some(IMPORT_DIRECTIVE), ToVPath(imports[i].clauses[0].value.value), Md)
  {
    if |imports| == 0 then Ok([])
    else
      var value := imports[0].clauses[0].value;
      var rest := ImportReferences(imports[1..]);
      if value.None? then Err(NO_VALUE_ERROR)
      else if rest.Err? then rest
      else Ok([ReferenceInfo(Some(IMPORT_DIRECTIVE), ToVPath(value.value), Md)] + rest.value)
  }

  /** `scanMdReferences`: the import filter throws on a directive without clauses. */
  function ScanMdReferences(ns: seq<Node>): Result<seq<ReferenceInfo>>
  {
    if exists i :: 0 <= i < |ns| && IsBareDirective(ns[i]) then Err(NO_CLAUSE_ERROR)
    else ImportReferences(Filter(ns, IsImport))
  }

  /** The references of a list of images, in order. */
  function ImageReferences(images: seq<Node>): (r: seq<ReferenceInfo>)
    requires forall i :: 0 <= i < |images| ==> images[i].Image?
    ensures |r| == |images|
    ensures forall i :: 0 <= i < |images| ==>
      r[i] == ReferenceInfo(images[i].title, ToVPath(images[i].path), ImageReference)
  {
    if |images| == 0 then []
    else [ReferenceInfo(images[0].title, ToVPath(images[0].path), ImageReference)] + ImageReferences(images[1..])
  }

  /** `scanImageReferences`. */
  function ScanImageReferences(ns: seq<Node>): seq<ReferenceInfo>
  {
    ImageReferences(Filter(ns, IsImage))
  }

  /** `scan`, from the parsed flow: import references first, then image references. */
  function Scan(ns: seq<Node>): Result<seq<ReferenceInfo>>
  {
    var md := ScanMdReferences(ns);
    if md.Err? then md else Ok(md.value + ScanImageReferences(ns))
  }

  /** `toVPath` leaves a path starting with "/" alone, so it is idempotent. */
  lemma ToVPathIdempotent(path: string)
    ensures ToVPath(ToVPath(path)) == ToVPath(path)
  {
  }

  /**
   * `toVPath` keeps the path as a suffix, and its result starts with "/"
   * exactly when the path had one, or has two or more characters.
   */
  lemma ToVPathShape(path: string)
    ensures var r := ToVPath(path); r[|r| - |path|..] == path && |r| - |path| <= 1
    ensures var r := ToVPath(path); (|r| > 0 && r[0] == '/') <==> ((|path| > 0 && path[0] == '/') || |path| > 1)
  {
  }

  /**
   * A scan that succeeds lists one reference per import directive, then one
   * per image node: the import references first, each of type md, then the
   * image references, each of type image, in flow order.
   */
  lemma ScanLayout(ns: seq<Node>)
    requires Scan(ns).Ok?
    ensures |Scan(ns).value| == Count(ns, IsImport) + Count(ns, IsImage)
    ensures forall i :: 0 <= i < Count(ns, IsImport) ==> Scan(ns).value[i].kind == Md
    ensures forall i :: Count(ns, IsImport) <= i < |Scan(ns).value| ==> Scan(ns).value[i].kind == ImageReference
    ensures forall i :: 0 <= i < Count(ns, IsImage) ==>
      Scan(ns).value[Count(ns, IsImport) + i].vpath == ToVPath(Filter(ns, IsImage)[i].path)
  {
  }

  /** An import directive of the flow without a value makes the import references fail. */
  lemma ImportWithoutValueFails(ns: seq<Node>, i: int)
    requires 0 <= i < |ns| && IsImport(ns[i]) && ns[i].clauses[0].value.None?
    ensures ImportReferences(Filter(ns, IsImport)).Err?
  {
    var imports := Filter(ns, IsImport);
    assert ns[i] in ns;
    assert ns[i] in imports;
    var k :| 0 <= k < |imports| && imports[k] == ns[i];
    assert imports[k].clauses[0].value.None?;
  }

  /** The import references fail only on an import directive of the flow without a value. */
  lemma FailingImportIsInFlow(ns: seq<Node>) returns (i: int)
    requires ImportReferences(Filter(ns, IsImport)).Err?
    ensures 0 <= i < |ns| && IsImport(ns[i]) && ns[i].clauses[0].value.None?
  {
    var imports := Filter(ns, IsImport);
    var k :| 0 <= k < |imports| && imports[k].clauses[0].value.None?;
    assert IsImport(imports[k]);
    assert imports[k] in imports;
    assert imports[k] in ns;
    i :| 0 <= i < |ns| && ns[i] == imports[k];
  }

  /**
   * The scan fails exactly when the flow has a directive without clauses, or
   * an import directive whose clause has no value.
   */
  lemma ScanFailure(ns: seq<Node>)
    ensures Scan(ns).Err? <==>
      (exists i :: 0 <= i < |ns| && IsBareDirective(ns[i]))
      || (exists i :: 0 <= i < |ns| && IsImport(ns[i]) && ns[i].clauses[0].value.None?)
  {
    if exists i :: 0 <= i < |ns| && IsImport(ns[i]) && ns[i].clauses[0].value.None? {
      var i :| 0 <= i < |ns| && IsImport(ns[i]) && ns[i].clauses[0].value.None?;
      ImportWithoutValueFails(ns, i);
    }
    if ImportReferences(Filter(ns, IsImport)).Err? {
      var i := FailingImportIsInFlow(ns);
    }
  }
}
