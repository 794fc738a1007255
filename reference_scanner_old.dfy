/**
 * The earlier reference scanner: the same scan, but virtual paths are the
 * raw clause values and image paths, with no normalisation, and a missing
 * clause value is passed on as absent rather than failing.
 */
module ReferenceScannerOld {
  import opened Wrappers
  import opened Ast
  import ReferenceScanner

  datatype ReferenceInfo = ReferenceInfo(name: Option<string>, vpath: Option<string>, kind: ReferenceScanner.ReferenceType)

  function ImportReferences(imports: seq<Node>): (r: seq<ReferenceInfo>)
    requires forall i :: 0 <= i < |imports| ==> imports[i].RootDirective? && |imports[i].clauses| > 0
    ensures |r| == |imports|
    ensures forall i :: 0 <= i < |imports| ==>
      r[i] == ReferenceInfo(Some(imports[i].clauses[0].name), imports[i].clauses[0].value, ReferenceScanner.Md)
  {
    if |imports| == 0 then []
    else
      var head := ReferenceInfo(Some(imports[0].clauses[0].name), imports[0].clauses[0].value, ReferenceScanner.Md);
      [head] + ImportReferences(imports[1..])
  }

  function ImageReferences(images: seq<Node>): (r: seq<ReferenceInfo>)
    requires forall i :: 0 <= i < |images| ==> images[i].Image?
    ensures |r| == |images|
    ensures forall i :: 0 <= i < |images| ==>
      r[i] == ReferenceInfo(images[i].title, Some(images[i].path), ReferenceScanner.ImageReference)
  {
    if |images| == 0 then []
    else
      var head := ReferenceInfo(images[0].title, Some(images[0].path), ReferenceScanner.ImageReference);
      [head] + ImageReferences(images[1..])
  }

  /** `scan`: import references, then image references; only a directive without clauses fails. */
  function Scan(ns: seq<Node>): (r: Result<seq<ReferenceInfo>>)
    ensures r.Err? <==> exists i :: 0 <= i < |ns| && ReferenceScanner.IsBareDirective(ns[i])
  {
    if exists i :: 0 <= i < |ns| && ReferenceScanner.IsBareDirective(ns[i]) then
      Err(ReferenceScanner.NO_CLAUSE_ERROR)
    else
      Ok(ImportReferences(Filter(ns, ReferenceScanner.IsImport))
        + ImageReferences(Filter(ns, ReferenceScanner.IsImage)))
  }

  /**
   * The number of references is the number of import directives plus the
   * number of images; the import references come first and carry the raw
   * clause values, the image references the raw image paths.
   */
  lemma ScanLayout(ns: seq<Node>)
    requires Scan(ns).Ok?
    ensures var k := Count(ns, ReferenceScanner.IsImport);
      |Scan(ns).value| == k + Count(ns, ReferenceScanner.IsImage)
      && (forall i :: 0 <= i < k ==>
            && Scan(ns).value[i].kind == ReferenceScanner.Md
            && Scan(ns).value[i].vpath == Filter(ns, ReferenceScanner.IsImport)[i].clauses[0].value)
      && (forall i :: 0 <= i < Count(ns, ReferenceScanner.IsImage) ==>
            && Scan(ns).value[k + i].kind == ReferenceScanner.ImageReference
            && Scan(ns).value[k + i].vpath == Some(Filter(ns, ReferenceScanner.IsImage)[i].path))
  {
  }

  /**
   * Where the newer scanner succeeds, both list the same references in the
   * same order, and the newer virtual path is the older one normalised.
   */
  lemma NewerScannerNormalises(ns: seq<Node>)
    requires ReferenceScanner.Scan(ns).Ok?
    ensures Scan(ns).Ok? && |Scan(ns).value| == |ReferenceScanner.Scan(ns).value|
    ensures forall i :: 0 <= i < |Scan(ns).value| ==>
      Scan(ns).value[i].vpath.Some?
      && ReferenceScanner.Scan(ns).value[i].vpath == ReferenceScanner.ToVPath(Scan(ns).value[i].vpath.value)
      && ReferenceScanner.Scan(ns).value[i].name == Scan(ns).value[i].name
      && ReferenceScanner.Scan(ns).value[i].kind == Scan(ns).value[i].kind
  {
    var imports := Filter(ns, ReferenceScanner.IsImport);
    assert forall i :: 0 <= i < |imports| ==> imports[i].clauses[0].name == IMPORT_DIRECTIVE;
  }
}
