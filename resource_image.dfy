/**
 * The resource image of a compile session: a named, append-only list of
 * components, each a virtual path with a base64 stream, plus the helpers that
 * validate and normalise virtual paths and convert an image to and from its
 * JSON payload.
 */
module ResourceImages {
  import opened Wrappers
  import opened Text

  /**
   * A component's stream. Base64 encoding is kept opaque: `Base64Of(v)` is the
   * encoding of the value `v`, and a stream is itself a value that can be
   * encoded again.
   */
  datatype Stream = TextValue(text: string) | FileBytes(path: string) | Base64Of(source: Stream)

  datatype Component = Component(vpath: string, stream: Stream)

  /** The empty stream: the empty string, which is also its own base64 encoding. */
  const EMPTY := TextValue("")

  /**
   * Base64 encoding of a stream: the empty value encodes to the empty
   * string, and every other value to a stream different from it.
   */
  function Encode(v: Stream): (r: Stream)
    ensures r == v <==> v == EMPTY
    ensures v != EMPTY ==> r.Base64Of? && r.source == v
  {
    if v == EMPTY then EMPTY else NotOwnEncoding(v); Base64Of(v)
  }

  /** No stream is its own encoding in the model: an encoding is strictly larger. */
  lemma {:induction false} NotOwnEncoding(v: Stream)
    ensures Base64Of(v) != v
  {
    if v.Base64Of? {
      NotOwnEncoding(v.source);
    }
  }

  /** The JSON form of an image. */
  datatype JsonPayload = JsonPayload(name: string, files: seq<Component>)

  /** The first component whose virtual path is exactly `vpath`. */
  function FindComponent(cs: seq<Component>, vpath: string): (r: Option<Component>)
    ensures r.Some? ==> r.value in cs && r.value.vpath == vpath
    ensures r.None? <==> forall i :: 0 <= i < |cs| ==> cs[i].vpath != vpath
    ensures r.Some? ==> exists i :: (0 <= i < |cs| && cs[i] == r.value
      && forall j :: 0 <= j < i ==> cs[j].vpath != vpath)
  {
    if |cs| == 0 then None
    else if cs[0].vpath == vpath then Some(cs[0])
    else
      var r := FindComponent(cs[1..], vpath);
      if r.Some? then
        var i :| 0 <= i < |cs[1..]| && cs[1..][i] == r.value && forall j :: 0 <= j < i ==> cs[1..][j].vpath != vpath;
        assert cs[i + 1] == r.value;
        r
      else None
  }

  /** Whether some component's virtual path equals `vpath` ignoring letter case. */
  predicate HasVPathIgnoringCase(cs: seq<Component>, vpath: string)
  {
    exists i :: 0 <= i < |cs| && ToLower(cs[i].vpath) == ToLower(vpath)
  }

  class ResourceImage {
    const name: string
    var components: seq<Component>

    /** A new image has the given name and no components. */
    constructor(imageName: string)
      ensures name == imageName && components == []
    {
      name := imageName;
      components := [];
    }

    /** `getComponentByVPath`: the first component with exactly that virtual path. */
    function GetComponentByVPath(vpath: string): Option<Component>
      reads this
    {
      FindComponent(components, vpath)
    }

    /** Appends the encoded value under `vpath`; duplicates are not checked. */
    method AddString(value: Stream, vpath: string)
      modifies this
      ensures components == old(components) + [Component(vpath, Encode(value))]
    {
      components := components + [Component(vpath, Encode(value))];
    }

    /**
     * Copies the component `src` of `image` here under `dst`. It fails when
     * `image` has no `src` or this image already has `dst`.
     */
    method AddFromImage(image: ResourceImage, src: string, dst: string) returns (r: Result<()>)
      modifies this
      ensures old(image.GetComponentByVPath(src)).None? ==>
        r == Err("Cannot find component '" + src + "' in source image") && components == old(components)
      ensures old(image.GetComponentByVPath(src)).Some? && old(GetComponentByVPath(dst)).Some? ==>
        r == Err("Found component '" + dst + "' in this image, cannot add duplicate") && components == old(components)
      ensures old(image.GetComponentByVPath(src)).Some? && old(GetComponentByVPath(dst)).None? ==>
        r == Ok(()) && components == old(components) + [Component(dst, old(image.GetComponentByVPath(src)).value.stream)]
    {
      var source := image.GetComponentByVPath(src);
      if source.None? {
        return Err("Cannot find component '" + src + "' in source image");
      }
      if GetComponentByVPath(dst).Some? {
        return Err("Found component '" + dst + "' in this image, cannot add duplicate");
      }
      components := components + [source.value.(vpath := dst)];
      r := Ok(());
    }

    /**
     * `addFromFileSystem`: a virtual path already present, ignoring case, is
     * rejected before the file system is touched. `entries` is what reading
     * `path` yields (`None` when it does not exist): one component for a file,
     * one per file below it for a directory.
     */
    method AddFromFileSystem(path: string, vpath: string, entries: Option<seq<Component>>) returns (r: Result<()>)
      modifies this
      ensures old(HasVPathIgnoringCase(components, vpath)) ==>
        r == Err("Virtual path '" + vpath + "' already exists, cannot add to output image") && components == old(components)
      ensures !old(HasVPathIgnoringCase(components, vpath)) && entries.None? ==>
        r == Err("Cannot add file to output image, '" + path + "' could not be found") && components == old(components)
      ensures !old(HasVPathIgnoringCase(components, vpath)) && entries.Some? ==>
        r == Ok(()) && components == old(components) + entries.value
    {
      var alreadyExists := CheckVPathAlreadyExists(vpath);
      if alreadyExists {
        return Err("Virtual path '" + vpath + "' already exists, cannot add to output image");
      }
      if entries.None? {
        return Err("Cannot add file to output image, '" + path + "' could not be found");
      }
      components := components + entries.value;
      r := Ok(());
    }

    /** `checkVPathAlreadyExists`: a `findIndex` over lower-cased virtual paths. */
    method CheckVPathAlreadyExists(vpath: string) returns (b: bool)
      ensures b <==> HasVPathIgnoringCase(components, vpath)
    {
      var target := ToLower(vpath);
      b := false;
      var i := 0;
      while i < |components|
        invariant 0 <= i <= |components|
        invariant forall j :: 0 <= j < i ==> ToLower(components[j].vpath) != target
      {
        if ToLower(components[i].vpath) == target {
          return true;
        }
        i := i + 1;
      }
    }
  }

  /** `checkVPath`: at least two characters, a leading "/", and no second "/" right after it. */
  predicate CheckVPath(vpath: string)
  {
    |vpath| >= 2 && vpath[0] == '/' && vpath[1] != '/'
  }

  /** `ensureVPathSyntax`: prepends "/" unless the path already starts with one ("" gives "/"). */
  function EnsureVPathSyntax(vpath: string): (r: string)
    ensures |r| > 0 && r[0] == '/'
    ensures |vpath| > 0 && vpath[0] == '/' ==> r == vpath
    ensures !(|vpath| > 0 && vpath[0] == '/') ==> r == "/" + vpath
  {
    if |vpath| == 0 || vpath[0] != '/' then "/" + vpath else vpath
  }

  lemma EnsureVPathSyntaxIdempotent(vpath: string)
    ensures EnsureVPathSyntax(EnsureVPathSyntax(vpath)) == EnsureVPathSyntax(vpath)
  {
  }

  /** A normalised path passes the check unless it was empty or started with "//" once normalised. */
  lemma EnsuredVPathIsValid(vpath: string)
    requires |vpath| > 0 && vpath[0] != '/'
    ensures CheckVPath(EnsureVPathSyntax(vpath))
  {
  }

  /** `serializeResourceImageToJsonPayload`: the name and a copy of every component, in order. */
  method SerializeToJsonPayload(image: ResourceImage) returns (payload: JsonPayload)
    ensures payload == JsonPayload(image.name, image.components)
  {
    var files: seq<Component> := [];
    for i := 0 to |image.components|
      invariant files == image.components[..i]
    {
      assert image.components[..i + 1] == image.components[..i] + [image.components[i]];
      files := files + [image.components[i]];
    }
    assert image.components[..|image.components|] == image.components;
    payload := JsonPayload(image.name, files);
  }

  /** The name of a deserialised image: "deserialized_" + (the payload name or "untitled"). */
  function DeserializedName(payloadName: string): string
  {
    "deserialized_" + (if payloadName == "" then "untitled" else payloadName)
  }

  /** Each file re-added through `addString`: same virtual path, stream encoded once more. */
  function Reencoded(files: seq<Component>): (r: seq<Component>)
    ensures |r| == |files|
    ensures forall i :: 0 <= i < |files| ==> r[i] == Component(files[i].vpath, Encode(files[i].stream))
  {
    if |files| == 0 then [] else [Component(files[0].vpath, Encode(files[0].stream))] + Reencoded(files[1..])
  }

  /** `deserializeResourceImageFromJsonPayload`. */
  method DeserializeFromJsonPayload(payload: JsonPayload) returns (image: ResourceImage)
    ensures fresh(image)
    ensures image.name == DeserializedName(payload.name)
    ensures image.components == Reencoded(payload.files)
  {
    image := new ResourceImage(DeserializedName(payload.name));
    for i := 0 to |payload.files|
      invariant image.name == DeserializedName(payload.name)
      invariant image.components == Reencoded(payload.files[..i])
    {
      var component := payload.files[i];
      assert payload.files[..i + 1] == payload.files[..i] + [component];
      ReencodedAppend(payload.files[..i], component);
      image.AddString(component.stream, component.vpath);
    }
    assert payload.files[..|payload.files|] == payload.files;
  }

  lemma ReencodedAppend(files: seq<Component>, c: Component)
    ensures Reencoded(files + [c]) == Reencoded(files) + [Component(c.vpath, Encode(c.stream))]
  {
  }

  /**
   * Serialising and deserialising keeps every virtual path, in order, and
   * encodes every stream once more: a stream comes back unchanged exactly
   * when it is empty, so the image comes back equal exactly when all its
   * streams are empty.
   */
  lemma PayloadRoundTrip(name: string, cs: seq<Component>)
    ensures |Reencoded(cs)| == |cs|
    ensures forall i :: 0 <= i < |cs| ==> Reencoded(cs)[i].vpath == cs[i].vpath
    ensures forall i :: 0 <= i < |cs| ==> (Reencoded(cs)[i].stream == cs[i].stream <==> cs[i].stream == EMPTY)
    ensures Reencoded(cs) == cs <==> forall i :: 0 <= i < |cs| ==> cs[i].stream == EMPTY
  {
    if forall i :: 0 <= i < |cs| ==> cs[i].stream == EMPTY {
      assert forall i :: 0 <= i < |cs| ==> Reencoded(cs)[i] == cs[i];
    } else {
      var i :| 0 <= i < |cs| && cs[i].stream != EMPTY;
      assert Reencoded(cs)[i] != cs[i];
    }
  }
}
