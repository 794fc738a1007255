/**
 * The resource manager that copies images from the input image of a compile
 * session into its output image, under fresh names below "__res/images".
 */
module ExternalResources {
  import opened Wrappers
  import opened Text
  import opened IdGen
  import opened ResourceImages

  /** The resources folder created in the output directory. */
  const OUTPUT_RESOURCE_DIR_NAME := "__res"
  /** The folder, below the resources folder, that receives the images. */
  const OUTPUT_IMAGES_DIR_NAME := "images"
  /** The prefix of the generated image names. */
  const IMAGE_ID_PREFIX := "imm"
  const ALLOWED_EXTENSIONS := [".jpg", ".jpeg", ".png", ".svg"]

  /** The extension list as a template literal prints an array: joined by ",". */
  const ALLOWED_EXTENSIONS_TEXT := ".jpg,.jpeg,.png,.svg"

  /** A generator value as it prints inside a string: a finished generator gives "undefined". */
  function IdText(id: Option<string>): string
  {
    if id.Some? then id.value else "undefined"
  }

  /** The virtual path an image receives in the output image. */
  function ImageVPath(id: Option<string>, ext: string): string
  {
    OUTPUT_RESOURCE_DIR_NAME + "/" + OUTPUT_IMAGES_DIR_NAME + "/" + IdText(id) + ext
  }

  function ExtensionError(ext: string): string
  {
    "Extension '" + ext + "' not allowed. Allowed extensions: " + ALLOWED_EXTENSIONS_TEXT
  }

  /** The path served by the k-th call with extension `ext`. */
  function ServedPath(k: nat, ext: string): string
  {
    ImageVPath(IdAt(IMAGE_ID_PREFIX, k), ext)
  }

  class ExternalResourceManager {
    const inputImage: ResourceImage
    const outputImage: ResourceImage
    const idg: IdGenerator

    /** The generator is the one created for image names. */
    predicate Valid()
    {
      idg.prefix == IMAGE_ID_PREFIX
    }

    constructor(inputImage: ResourceImage, outputImage: ResourceImage)
      ensures this.inputImage == inputImage && this.outputImage == outputImage
      ensures fresh(idg) && idg.calls == 0 && Valid()
    {
      this.inputImage := inputImage;
      this.outputImage := outputImage;
      idg := new IdGenerator(IMAGE_ID_PREFIX);
    }

    /** `new ExternalResourceManager(input, output)`: either image missing is an error. */
    static method Create(input: Option<ResourceImage>, output: Option<ResourceImage>)
      returns (r: Result<ExternalResourceManager>)
      ensures input.None? ==> r == Err("Input image cannot be null or undefined")
      ensures input.Some? && output.None? ==> r == Err("Output image cannot be null or undefined")
      ensures input.Some? && output.Some? ==>
        && r.Ok? && r.value.inputImage == input.value && r.value.outputImage == output.value
        && fresh(r.value.idg) && r.value.idg.calls == 0 && r.value.Valid()
    {
      if input.None? {
        return Err("Input image cannot be null or undefined");
      }
      if output.None? {
        return Err("Output image cannot be null or undefined");
      }
      var m := new ExternalResourceManager(input.value, output.value);
      r := Ok(m);
    }

    /**
     * `serveImage`, with the image copied from `vpath` in the input image to
     * the generated path in the output image. `ext` is the extension of
     * `vpath`. A rejected extension leaves the generator where it was; an
     * accepted one consumes one id, even when the copy then fails.
     */
    method ServeImage(vpath: string, ext: string) returns (r: Result<string>)
      requires Valid()
      modifies idg, outputImage
      ensures ext !in ALLOWED_EXTENSIONS ==>
        && r == Err(ExtensionError(ext))
        && idg.calls == old(idg.calls)
        && outputImage.components == old(outputImage.components)
      ensures ext in ALLOWED_EXTENSIONS ==> idg.calls == old(idg.calls) + 1
      ensures ext in ALLOWED_EXTENSIONS && old(inputImage.GetComponentByVPath(vpath)).None? ==>
        && r == Err("Cannot find component '" + vpath + "' in source image")
        && outputImage.components == old(outputImage.components)
      ensures
        && ext in ALLOWED_EXTENSIONS
        && old(inputImage.GetComponentByVPath(vpath)).Some?
        && old(outputImage.GetComponentByVPath(ServedPath(idg.calls, ext))).Some?
        ==>
        && r == Err("Found component '" + ServedPath(old(idg.calls), ext) + "' in this image, cannot add duplicate")
        && outputImage.components == old(outputImage.components)
      ensures
        && ext in ALLOWED_EXTENSIONS
        && old(inputImage.GetComponentByVPath(vpath)).Some?
        && old(outputImage.GetComponentByVPath(ServedPath(idg.calls, ext))).None?
        ==>
        && r == Ok(ServedPath(old(idg.calls), ext))
        && outputImage.components == old(outputImage.components)
          + [Component(ServedPath(old(idg.calls), ext), old(inputImage.GetComponentByVPath(vpath)).value.stream)]
    {
      if ext !in ALLOWED_EXTENSIONS {
        return Err(ExtensionError(ext));
      }
      var id := idg.Next();
      var newVPath := ImageVPath(id, ext);
      var added := outputImage.AddFromImage(inputImage, vpath, newVPath);
      if added.Err? {
        return Err(added.error);
      }
      r := Ok(newVPath);
    }
  }

  /**
   * What `serveImage` does as written, where `addFromImage` receives the
   * generated path as its source and no destination. `holdsUnnamed` says
   * whether the output image already holds a component pushed without a
   * virtual path by an earlier call.
   */
  datatype AsWrittenOutcome = Threw(message: string) | PushedWithoutVPath(stream: Stream)

  function ServeImageAsWritten(input: seq<Component>, holdsUnnamed: bool, k: nat, ext: string): AsWrittenOutcome
  {
    if ext !in ALLOWED_EXTENSIONS then Threw(ExtensionError(ext))
    else
      var newVPath := ServedPath(k, ext);
      var source := FindComponent(input, newVPath);
      if source.None? then Threw("Cannot find component '" + newVPath + "' in source image")
      else if holdsUnnamed then Threw("Found component 'undefined' in this image, cannot add duplicate")
      else PushedWithoutVPath(source.value.stream)
  }

  /**
   * An input image whose virtual paths all start with "/", as normalised
   * paths do, never holds the generated path, so `serveImage` as written
   * throws on every allowed extension, whatever the source path was.
   */
  lemma AsWrittenServeAlwaysThrows(input: seq<Component>, holdsUnnamed: bool, k: nat, ext: string)
    requires forall i :: 0 <= i < |input| ==> |input[i].vpath| > 0 && input[i].vpath[0] == '/'
    requires ext in ALLOWED_EXTENSIONS
    ensures ServeImageAsWritten(input, holdsUnnamed, k, ext)
      == Threw("Cannot find component '" + ServedPath(k, ext) + "' in source image")
  {
    var p := ServedPath(k, ext);
    assert p[0] == '_';
    forall i | 0 <= i < |input|
      ensures input[i].vpath != p
    {
      assert input[i].vpath[0] != p[0];
    }
  }

  /** The number of leading digits of `x`. */
  function DigitPrefixLength(x: string): (r: nat)
    ensures r <= |x|
  {
    if |x| == 0 || !IsDigit(x[0]) then 0 else 1 + DigitPrefixLength(x[1..])
  }

  /** A digit run followed by a non-digit has exactly its own length of leading digits. */
  lemma {:induction false} DigitPrefixOfRun(a: string, e: string)
    requires forall i :: 0 <= i < |a| ==> IsDigit(a[i])
    requires |e| > 0 && !IsDigit(e[0])
    ensures DigitPrefixLength(a + e) == |a|
  {
    if |a| == 0 {
      assert a + e == e;
    } else {
      assert (a + e)[1..] == a[1..] + e;
      DigitPrefixOfRun(a[1..], e);
    }
  }

  /** Two digit runs followed by non-digits that spell the same text are equal. */
  lemma DigitRunsAgree(p: string, a: string, b: string, e1: string, e2: string)
    requires forall i :: 0 <= i < |a| ==> IsDigit(a[i])
    requires forall i :: 0 <= i < |b| ==> IsDigit(b[i])
    requires |e1| > 0 && !IsDigit(e1[0]) && |e2| > 0 && !IsDigit(e2[0])
    ensures p + a + e1 == p + b + e2 ==> a == b
  {
    assert (p + a + e1)[|p|..] == a + e1;
    assert (p + b + e2)[|p|..] == b + e2;
    DigitPrefixOfRun(a, e1);
    DigitPrefixOfRun(b, e2);
    assert (a + e1)[..|a|] == a;
    assert (b + e2)[..|b|] == b;
  }

  /**
   * The served path is the image folder, "imm", the id, then the extension,
   * with no leading "/".
   */
  lemma ServedPathParts(k: nat, ext: string)
    ensures ServedPath(k, ext)[0] != '/'
    ensures k < MAX_SAFE_INTEGER ==> ServedPath(k, ext) == "__res/images/imm" + NatToString(k) + ext
    ensures k == MAX_SAFE_INTEGER ==> ServedPath(k, ext) == "__res/images/imm" + "-end" + ext
  {
  }

  lemma ServedPathsDistinctFor(j: nat, k: nat, e1: string, e2: string)
    requires j < k <= MAX_SAFE_INTEGER
    requires |e1| > 0 && e1[0] == '.' && |e2| > 0 && e2[0] == '.'
    ensures ServedPath(j, e1) != ServedPath(k, e2)
  {
    var dir := "__res/images/imm";
    var a := NatToString(j);
    ServedPathParts(j, e1);
    ServedPathParts(k, e2);
    if k < MAX_SAFE_INTEGER {
      var b := NatToString(k);
      DigitRunsAgree(dir, a, b, e1, e2);
      if a == b {
        NatToStringInjective(j, k);
      }
    } else {
      assert (dir + a + e1)[|dir|] == a[0];
      assert (dir + "-end" + e2)[|dir|] == '-';
    }
  }

  /**
   * Successive calls serve distinct paths, whatever their extensions, as long
   * as the generator has not finished.
   */
  lemma ServedPathsAreDistinct(j: nat, k: nat, e1: string, e2: string)
    requires j < k <= MAX_SAFE_INTEGER
    requires e1 in ALLOWED_EXTENSIONS && e2 in ALLOWED_EXTENSIONS
    ensures ServedPath(j, e1) != ServedPath(k, e2)
  {
    assert e1[0] == '.' && e2[0] == '.';
    ServedPathsDistinctFor(j, k, e1, e2);
  }
}
