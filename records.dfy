/** The records the face classifier reads and writes: detector results,
    boxes, embeddings, the JSON stored in a photo tag's extra data, tags and
    photo tags. */
module Records {

  datatype Option<T> = None | Some(value: T)

  /** The tag categories of the photos schema's choice list. */
  datatype TagType = Location | Object | Face | Color | Style | Generic

  /** Pixel widths and heights of an opened image are positive. */
  type Dimension = n: int | n > 0 witness 1

  datatype Size = Size(width: Dimension, height: Dimension)

  /** A detector box: left, top, width and height in pixels. */
  datatype Box = Box(x: int, y: int, w: int, h: int)

  /** The box has non-negative size and lies inside an image of size s. */
  predicate InsideImage(b: Box, s: Size)
  {
    0 <= b.x && 0 <= b.y && 0 <= b.w && 0 <= b.h &&
    b.x + b.w <= s.width && b.y + b.h <= s.height
  }

  /** A FaceNet embedding, a vector of numbers. */
  type Embedding = seq<real>

  datatype Json =
    | JNull
    | JBool(b: bool)
    | JNumber(n: real)
    | JString(s: string)
    | JArray(items: seq<Json>)
    | JObject(fields: map<string, Json>)

  /** A photo tag's extra data, as `json.loads` sees it: text that is not
      JSON (such as the empty string written for a face without an
      embedding), or the value the text denotes. */
  datatype ExtraData = Unparsable(text: string) | Parsed(value: Json)

  /** One detection, as the detector returns it and as the tagging pass
      annotates it: the `embedding`, `closest_tag` and `closest_distance`
      keys are absent (None) until the pass sets them. */
  datatype FaceResult = FaceResult(
    box: Box,
    confidence: real,
    embedding: Option<Embedding>,
    closestTag: Option<string>,
    closestDistance: Option<real>)

  /** A detection as the detector returns it, before annotation. */
  predicate Undecorated(r: FaceResult)
  {
    r.embedding.None? && r.closestTag.None? && r.closestDistance.None?
  }

  datatype Tag = Tag(id: nat, library: nat, name: string, kind: TagType, source: char)

  /** The photo a photo tag belongs to, with the library that photo is in. */
  datatype PhotoRef = PhotoRef(id: nat, library: nat)

  datatype PhotoTag = PhotoTag(
    photo: PhotoRef,
    tag: Tag,
    source: char,
    confidence: real,
    significance: real,
    positionX: real,
    positionY: real,
    sizeX: real,
    sizeY: real,
    modelVersion: int,
    retrainedModelVersion: int,
    extraData: ExtraData)

  /** The JSON list `json.dumps` writes for an embedding. */
  function EncodeEmbedding(e: Embedding): (j: Json)
    ensures j.JArray? && |j.items| == |e|
  {
    JArray(seq(|e|, i requires 0 <= i < |e| => JNumber(e[i])))
  }

  /** The embedding a JSON list of numbers denotes, if it is one. */
  function DecodeEmbedding(j: Json): (e: Option<Embedding>)
    ensures e.Some? ==> j.JArray? && |e.value| == |j.items|
  {
    if j.JArray? && forall i :: 0 <= i < |j.items| ==> j.items[i].JNumber? then
      Some(seq(|j.items|, i requires 0 <= i < |j.items| => j.items[i].n))
    else
      None
  }

  lemma EmbeddingRoundTrip(e: Embedding)
    ensures DecodeEmbedding(EncodeEmbedding(e)) == Some(e)
  {
    var j := EncodeEmbedding(e);
    assert forall i :: 0 <= i < |j.items| ==> j.items[i] == JNumber(e[i]);
    assert DecodeEmbedding(j).value == e;
  }
}
