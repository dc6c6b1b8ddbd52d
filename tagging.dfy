/** The tagging pass over one photo: crop and embed each detected face, look
    for the nearest known face, then write one photo tag per face and mark
    the photo as processed. */
module Tagging {
  import opened Records
  import opened Decimal
  import opened Matcher
  import opened TagStore
  import FaceDetector

  /** A stored face closer than this is taken to be the same person. */
  const DistanceThreshold: real := 10.0

  const UnknownPrefix: string := "Unknown person "

  /** The largest number `randint(0, 999999)` draws. */
  const MaxDraw: nat := 999999

  function Max(a: int, b: int): (m: int) { if a < b then b else a }
  function Min(a: int, b: int): (m: int) { if a < b then a else b }

  /** A crop rectangle: left, top, right and bottom edges. */
  datatype Window = Window(left: int, top: int, right: int, bottom: int)

  /** The face box grown by mx pixels left and right and my pixels up and
      down, clamped to the image. */
  function CropWindow(b: Box, image: Size, mx: int, my: int): (w: Window)
    ensures 0 <= w.left && 0 <= w.top && w.right <= image.width && w.bottom <= image.height
    ensures 0 <= mx && 0 <= my && InsideImage(b, image) ==>
      w.left <= b.x && w.top <= b.y && b.x + b.w <= w.right && b.y + b.h <= w.bottom
    ensures w.left == (if 0 <= b.x - mx then b.x - mx else 0)
    ensures w.top == (if 0 <= b.y - my then b.y - my else 0)
    ensures w.right == (if b.x + b.w + mx <= image.width then b.x + b.w + mx else image.width)
    ensures w.bottom == (if b.y + b.h + my <= image.height then b.y + b.h + my else image.height)
  {
    Window(Max(b.x - mx, 0), Max(b.y - my, 0), Min(b.x + b.w + mx, image.width), Min(b.y + b.h + my, image.height))
  }

  /** The crop for one detection; margin gives the extra pixels for a side
      of the given length. */
  function FaceWindow(r: FaceResult, image: Size, margin: int -> int): (w: Window)
    ensures w.left == Max(r.box.x - margin(r.box.w), 0) && w.top == Max(r.box.y - margin(r.box.h), 0)
    ensures w.right == Min(r.box.x + r.box.w + margin(r.box.w), image.width)
    ensures w.bottom == Min(r.box.y + r.box.h + margin(r.box.h), image.height)
    ensures 0 <= margin(r.box.w) && 0 <= margin(r.box.h) && InsideImage(r.box, image) ==>
      w.left <= r.box.x && w.top <= r.box.y && r.box.x + r.box.w <= w.right && r.box.y + r.box.h <= w.bottom
  {
    CropWindow(r.box, image, margin(r.box.w), margin(r.box.h))
  }

  /** A box centre and size as fractions of the image size. */
  datatype Placement = Placement(x: real, y: real, width: real, height: real)

  function NormalisedBox(b: Box, s: Size): (p: Placement)
    ensures p.width * s.width as real == b.w as real && p.height * s.height as real == b.h as real
    ensures (p.x - p.width / 2.0) * s.width as real == b.x as real
    ensures (p.y - p.height / 2.0) * s.height as real == b.y as real
    ensures InsideImage(b, s) ==>
      0.0 <= p.x <= 1.0 && 0.0 <= p.y <= 1.0 && 0.0 <= p.width <= 1.0 && 0.0 <= p.height <= 1.0
    ensures InsideImage(b, s) ==>
      0.0 <= p.x - p.width / 2.0 && p.x + p.width / 2.0 <= 1.0 &&
      0.0 <= p.y - p.height / 2.0 && p.y + p.height / 2.0 <= 1.0
  {
    var h := Normalise(b.x, b.w, s.width);
    var v := Normalise(b.y, b.h, s.height);
    Placement(h.centre, v.centre, h.size, v.size)
  }

  /** The centre and length of a segment as fractions of a side. */
  datatype Fraction = Fraction(centre: real, size: real)

  /** The segment [a, a + len] of a side of length n as fractions of n:
      multiplied back by n they give its length and start, and a segment
      inside the side lies in [0, 1]. */
  function Normalise(a: int, len: int, n: Dimension): (f: Fraction)
    ensures f.size * n as real == len as real
    ensures (f.centre - f.size / 2.0) * n as real == a as real
    ensures 0 <= a && 0 <= len && a + len <= n ==>
      0.0 <= f.centre <= 1.0 && 0.0 <= f.size <= 1.0 &&
      0.0 <= f.centre - f.size / 2.0 && f.centre + f.size / 2.0 <= 1.0
  {
    var f := Fraction((a as real + len as real / 2.0) / n as real, len as real / n as real);
    Quotients(a as real, len as real, n as real);
    f
  }

  /** The quotients behind `Normalise`, one at a time. */
  lemma Quotients(a: real, len: real, n: real)
    requires 0.0 < n
    ensures (len / n) * n == len
    ensures (a + len / 2.0) / n - (len / n) / 2.0 == a / n && (a / n) * n == a
    ensures (a + len / 2.0) / n + (len / n) / 2.0 == (a + len) / n
    ensures 0.0 <= a && 0.0 <= len && a + len <= n ==>
      0.0 <= a / n && 0.0 <= len / n <= 1.0 && (a + len) / n <= 1.0 &&
      0.0 <= (a + len / 2.0) / n <= 1.0
  {
    DivideSum(a, len / 2.0, n);
    DivideSum(a, len, n);
    DivideHalf(len, n);
    if 0.0 <= a && 0.0 <= len && a + len <= n {
      DivideMonotone(0.0, a, n);
      DivideMonotone(0.0, len, n);
      DivideMonotone(len, n, n);
      DivideMonotone(a + len, n, n);
    }
  }

  /** Division by a positive n distributes over a sum and is undone by n. */
  lemma DivideSum(p: real, q: real, n: real)
    requires 0.0 < n
    ensures (p + q) / n == p / n + q / n && (p / n) * n == p && (q / n) * n == q
  {
  }

  /** Halving commutes with division by n. */
  lemma DivideHalf(p: real, n: real)
    requires 0.0 < n
    ensures (p / 2.0) / n == (p / n) / 2.0
  {
  }

  /** Division by a positive n keeps order. */
  lemma DivideMonotone(p: real, q: real, n: real)
    requires 0.0 < n && p <= q
    ensures p / n <= q / n && n / n == 1.0 && 0.0 / n == 0.0
  {
  }

  /** The name of a tag minted for an unrecognised face:
      `f'Unknown person {n:06d}'`. */
  function UnknownPersonName(n: nat): (s: string)
    ensures |s| >= |UnknownPrefix| + 6 && s[..|UnknownPrefix|] == UnknownPrefix
    ensures AllDigits(s[|UnknownPrefix|..]) && DecimalValue(s[|UnknownPrefix|..]) == n
    ensures n <= MaxDraw ==> |s| == 21
  {
    var digits := ZeroPadded(n, 6);
    assert Pow10(6) == 1000000;
    var s := UnknownPrefix + digits;
    assert s[..|UnknownPrefix|] == UnknownPrefix && s[|UnknownPrefix|..] == digits;
    s
  }

  /** Different draws give different names. */
  lemma UnknownPersonNameInjective(m: nat, n: nat)
    requires UnknownPersonName(m) == UnknownPersonName(n)
    ensures m == n
  {
  }

  /** Python truthiness of a possibly absent string. */
  predicate Truthy(t: Option<string>)
  {
    t.Some? && t.value != []
  }

  /** The outcome of the first loop for one detection: the annotated result,
      and whether an exception escaped (a TypeError from the scan). */
  datatype Annotation = Annotation(face: FaceResult, fatal: bool)

  /** The first loop's body for one detection: crop, embed (None is the
      ValueError of the embedding network), and, when the run is for a
      photo, record the nearest stored face. */
  function Annotate(
    r: FaceResult, image: Size, library: Option<nat>, rows: seq<PhotoTag>,
    represent: Window -> Option<Embedding>, dist: (Embedding, Json) -> Option<real>, margin: int -> int)
    : (a: Annotation)
    ensures a.face.box == r.box && a.face.confidence == r.confidence
    ensures represent(FaceWindow(r, image, margin)).None? ==> a == Annotation(r, false)
    ensures represent(FaceWindow(r, image, margin)).Some? ==>
      a.face.embedding == represent(FaceWindow(r, image, margin))
    ensures a.fatal <==>
      represent(FaceWindow(r, image, margin)).Some? && library.Some? &&
      AnyNotSubscriptable(FaceRowsOf(rows, library.value))
    ensures Undecorated(r) ==> (a.face.closestDistance.Some? <==> a.face.closestTag.Some?)
    ensures Undecorated(r) && a.face.closestTag.Some? ==>
      Truthy(a.face.closestTag) && a.face.embedding.Some? && library.Some? &&
      FaceMatch(rows, library.value, a.face.embedding.value, dist) ==
        Matched(Closest(a.face.closestTag, a.face.closestDistance.value))
    ensures represent(FaceWindow(r, image, margin)).Some? && library.Some? ==>
      var m := FaceMatch(rows, library.value, represent(FaceWindow(r, image, margin)).value, dist);
      m.Matched? && Truthy(m.closest.tag) ==>
        a.face.closestTag == m.closest.tag && a.face.closestDistance == Some(m.closest.distance)
  {
    var w := FaceWindow(r, image, margin);
    match represent(w)
    case None => Annotation(r, false)
    case Some(e) =>
      var r1 := r.(embedding := Some(e));
      if library.None? then Annotation(r1, false)
      else
        match FaceMatch(rows, library.value, e, dist)
        case Failed(StoredValueNotSubscriptable) => Annotation(r1, true)
        case Failed(DistanceValueError) => Annotation(r1, false)
        case Matched(Closest(t, d)) =>
          if Truthy(t) then Annotation(r1.(closestTag := t, closestDistance := Some(d)), false)
          else Annotation(r1, false)
  }

  /** A matched tag from the scan is always truthy, so it is recorded. */
  lemma MatchedTagIsTruthy(rows: seq<PhotoTag>, library: nat, source: Embedding, dist: (Embedding, Json) -> Option<real>)
    requires FaceMatch(rows, library, source, dist).Matched?
    ensures FaceMatch(rows, library, source, dist).closest.tag.Some? ==>
      Truthy(FaceMatch(rows, library, source, dist).closest.tag)
  {
    var q := FaceRowsOf(rows, library);
    var reps := Representations(q);
    if reps != [] {
      var ds := DistanceList(reps, source, dist);
      var k :| IsFirstMinimum(ds, k) && FaceMatch(rows, library, source, dist).closest == Closest(Some(reps[k].tagKey), ds[k]);
      RepresentationsExact(q);
      assert reps[k] in reps;
      var i :| 0 <= i < |q| && RowRepresentation(q[i]) == [reps[k]];
    }
  }

  /** The second loop's choice for one result. KeyMissing is the KeyError
      raised when a distance was recorded without a tag. */
  datatype TagChoice = Reuse(key: string) | MintNew | KeyMissing

  /** `result.get('closest_distance', 999) < DISTANCE_THRESHOLD` decides
      between the recorded tag and a new one. */
  function ChooseTag(r: FaceResult): (c: TagChoice)
    ensures c.Reuse? <==> r.closestDistance.Some? && r.closestDistance.value < DistanceThreshold && r.closestTag.Some?
    ensures c.Reuse? ==> Some(c.key) == r.closestTag
    ensures c.MintNew? <==> r.closestDistance.None? || r.closestDistance.value >= DistanceThreshold
  {
    var d := if r.closestDistance.Some? then r.closestDistance.value else NoMatchDistance;
    if d < DistanceThreshold then
      if r.closestTag.Some? then Reuse(r.closestTag.value) else KeyMissing
    else MintNew
  }

  /** After the first loop, a detection either reuses the tag it matched
      closer than the threshold or gets an unknown-person tag; the KeyError cannot
      happen, and a face whose embedding failed or that matched nothing
      gets an unknown-person tag, got or created. */
  lemma AnnotatedChoice(
    r: FaceResult, image: Size, library: Option<nat>, rows: seq<PhotoTag>,
    represent: Window -> Option<Embedding>, dist: (Embedding, Json) -> Option<real>, margin: int -> int)
    requires Undecorated(r)
    ensures !ChooseTag(Annotate(r, image, library, rows, represent, dist, margin).face).KeyMissing?
    ensures ChooseTag(Annotate(r, image, library, rows, represent, dist, margin).face).Reuse? <==>
      represent(FaceWindow(r, image, margin)).Some? && library.Some? &&
      var m := FaceMatch(rows, library.value, represent(FaceWindow(r, image, margin)).value, dist);
      m.Matched? && m.closest.tag.Some? && m.closest.distance < DistanceThreshold
    ensures var c := ChooseTag(Annotate(r, image, library, rows, represent, dist, margin).face);
      c.Reuse? ==> Some(c.key) == FaceMatch(rows, library.value, represent(FaceWindow(r, image, margin)).value, dist).closest.tag
  {
    var w := FaceWindow(r, image, margin);
    if represent(w).Some? && library.Some? {
      var m := FaceMatch(rows, library.value, represent(w).value, dist);
      if m.Matched? {
        MatchedTagIsTruthy(rows, library.value, represent(w).value, dist);
      }
    }
  }

  /** The extra data written for a result: its embedding under
      `facenet_embedding`, or the empty string when it has none. */
  function ExtraDataFor(r: FaceResult): (x: ExtraData)
    ensures r.embedding.Some? ==> LookupEmbedding(x) == Use(EncodeEmbedding(r.embedding.value))
    ensures r.embedding.None? ==> LookupEmbedding(x) == Skip
  {
    if r.embedding.Some? then Parsed(JObject(map[EmbeddingKey := EncodeEmbedding(r.embedding.value)]))
    else Unparsable("")
  }

  /** `get_retrained_model_version`: the timestamp held in the version file,
      or 0 when there is no such file. */
  function RetrainedModelVersion(versionFile: Option<nat>): (v: nat)
    ensures versionFile.None? ==> v == 0
    ensures versionFile.Some? ==> v == versionFile.value
  {
    match versionFile
    case None => 0
    case Some(stamp) => stamp
  }

  /** The photo tag written for one result. */
  function BuildRow(photo: PhotoRef, size: Size, tag: Tag, r: FaceResult, retrained: int): (row: PhotoTag)
    ensures row.photo == photo && row.tag == tag && row.source == 'F'
    ensures row.confidence == r.confidence && row.significance == r.confidence
    ensures row.sizeX * size.width as real == r.box.w as real && row.sizeY * size.height as real == r.box.h as real
    ensures (row.positionX - row.sizeX / 2.0) * size.width as real == r.box.x as real
    ensures (row.positionY - row.sizeY / 2.0) * size.height as real == r.box.y as real
    ensures row.modelVersion == FaceDetector.ModelVersion && row.retrainedModelVersion == retrained
    ensures row.extraData == ExtraDataFor(r)
  {
    var p := NormalisedBox(r.box, size);
    PhotoTag(photo, tag, 'F', r.confidence, r.confidence, p.x, p.y, p.width, p.height,
             FaceDetector.ModelVersion, retrained, ExtraDataFor(r))
  }

  /** A row written for a face is read back by a later scan of the photo's
      library with the face's embedding and the decimal id of its tag; a row
      without an embedding is skipped and raises nothing. */
  lemma WrittenRowReadBack(photo: PhotoRef, size: Size, tag: Tag, r: FaceResult, retrained: int)
    requires tag.kind == Face && tag.library == photo.library
    ensures var row := BuildRow(photo, size, tag, r, retrained);
      FaceRowsOf([row], photo.library) == [row] && !AnyNotSubscriptable([row]) &&
      (r.embedding.Some? ==>
        Representations([row]) == [Representation(DecimalString(tag.id), EncodeEmbedding(r.embedding.value))]) &&
      (r.embedding.None? ==> Representations([row]) == [])
  {
    var row := BuildRow(photo, size, tag, r, retrained);
    assert [row][1..] == [];
  }

  /** row is the photo tag the second loop writes for result r. */
  predicate RowFor(row: PhotoTag, photo: PhotoRef, size: Size, r: FaceResult, draw: nat, retrained: int)
  {
    row == BuildRow(photo, size, row.tag, r, retrained) &&
    row.tag.kind == Face && row.tag.library == photo.library &&
    match ChooseTag(r)
    case Reuse(key) => AllDigits(key) && key != [] && row.tag.id == DecimalValue(key)
    case MintNew => row.tag.name == UnknownPersonName(draw) && row.tag.source == 'C'
    case KeyMissing => false
  }

  datatype Written = Written(store: Store, ok: bool)

  /** The second loop's body for one result; ok is false when an exception
      escapes (the KeyError, or a tag lookup that finds nothing). */
  function WriteOne(st: Store, photo: PhotoRef, size: Size, r: FaceResult, draw: nat, retrained: int): (w: Written)
    ensures !w.ok <==>
      ChooseTag(r).KeyMissing? || (ChooseTag(r).Reuse? && TagByKey(st.tags, ChooseTag(r).key, photo.library).None?)
    ensures !w.ok ==> w.store == st
    ensures w.ok ==> |w.store.photoTags| == |st.photoTags| + 1 && w.store.photoTags[..|st.photoTags|] == st.photoTags
    ensures w.ok ==> RowFor(w.store.photoTags[|st.photoTags|], photo, size, r, draw, retrained)
    ensures st.tags <= w.store.tags
    ensures w.ok && ChooseTag(r).Reuse? ==>
      w.store.tags == st.tags && w.store.nextTagId == st.nextTagId &&
      w.store.photoTags[|st.photoTags|].tag == TagByKey(st.tags, ChooseTag(r).key, photo.library).value
    ensures ChooseTag(r).MintNew? ==>
      var g := GetOrCreate(st, photo.library, UnknownPersonName(draw), Face, 'C');
      w.store.tags == g.store.tags && w.store.nextTagId == g.store.nextTagId &&
      w.store.photoTags[|st.photoTags|].tag == g.tag
    ensures StoreValid(st) ==> StoreValid(w.store)
  {
    match ChooseTag(r)
    case KeyMissing => Written(st, false)
    case Reuse(key) =>
      (match TagByKey(st.tags, key, photo.library)
       case None => Written(st, false)
       case Some(t) => Written(st.(photoTags := st.photoTags + [BuildRow(photo, size, t, r, retrained)]), true))
    case MintNew =>
      var g := GetOrCreate(st, photo.library, UnknownPersonName(draw), Face, 'C');
      Written(g.store.(photoTags := g.store.photoTags + [BuildRow(photo, size, g.tag, r, retrained)]), true)
  }

  /** The second loop over all results, stopping at the first exception; the
      rows saved before it stay saved. */
  function WriteAll(st: Store, photo: PhotoRef, size: Size, results: seq<FaceResult>, draws: seq<nat>, retrained: int)
    : (w: Written)
    requires |draws| == |results|
    ensures results == [] ==> w == Written(st, true)
    ensures st.photoTags <= w.store.photoTags && st.tags <= w.store.tags
    ensures StoreValid(st) ==> StoreValid(w.store)
    ensures w.ok ==> |w.store.photoTags| == |st.photoTags| + |results|
    ensures !w.ok ==> |w.store.photoTags| < |st.photoTags| + |results|
    ensures !w.ok ==>
      var k := |w.store.photoTags| - |st.photoTags|;
      0 <= k < |results| &&
      (ChooseTag(results[k]).KeyMissing? ||
       (ChooseTag(results[k]).Reuse? && TagByKey(w.store.tags, ChooseTag(results[k]).key, photo.library).None?))
    decreases |results|
  {
    if results == [] then Written(st, true)
    else
      var w1 := WriteOne(st, photo, size, results[0], draws[0], retrained);
      if !w1.ok then w1
      else
        var w := WriteAll(w1.store, photo, size, results[1..], draws[1..], retrained);
        var k := |w.store.photoTags| - |st.photoTags|;
        assert !w.ok ==> 1 <= k < |results| && results[1..][k - 1] == results[k];
        w
  }

  /** The row the write loop saves at position p of the photo tag table is
      the row for the result at the same offset from the rows that were
      there before. */
  lemma {:induction false} WriteAllRow(
    st: Store, photo: PhotoRef, size: Size, results: seq<FaceResult>, draws: seq<nat>, retrained: int, p: nat)
    requires |draws| == |results|
    requires |st.photoTags| <= p < |WriteAll(st, photo, size, results, draws, retrained).store.photoTags|
    ensures p - |st.photoTags| < |results|
    ensures RowFor(WriteAll(st, photo, size, results, draws, retrained).store.photoTags[p],
                   photo, size, results[p - |st.photoTags|], draws[p - |st.photoTags|], retrained)
    decreases |results|
  {
    var w := WriteAll(st, photo, size, results, draws, retrained);
    assert results != [];
    var w1 := WriteOne(st, photo, size, results[0], draws[0], retrained);
    assert w1.ok;
    assert w == WriteAll(w1.store, photo, size, results[1..], draws[1..], retrained);
    if p == |st.photoTags| {
      assert w.store.photoTags[p] == w1.store.photoTags[p];
    } else {
      WriteAllRow(w1.store, photo, size, results[1..], draws[1..], retrained, p);
      var k := p - |st.photoTags|;
      assert results[1..][k - 1] == results[k] && draws[1..][k - 1] == draws[k];
    }
  }

  /** Each row the write loop saves, in order, is the row for the result at
      the same position: on success one per result, on failure one per
      result before the failing one. */
  lemma WriteAllRows(
    st: Store, photo: PhotoRef, size: Size, results: seq<FaceResult>, draws: seq<nat>, retrained: int)
    requires |draws| == |results|
    ensures var w := WriteAll(st, photo, size, results, draws, retrained);
      forall p :: |st.photoTags| <= p < |w.store.photoTags| ==>
        p - |st.photoTags| < |results| &&
        RowFor(w.store.photoTags[p], photo, size, results[p - |st.photoTags|], draws[p - |st.photoTags|], retrained)
  {
    var w := WriteAll(st, photo, size, results, draws, retrained);
    forall p | |st.photoTags| <= p < |w.store.photoTags|
      ensures p - |st.photoTags| < |results|
      ensures RowFor(w.store.photoTags[p], photo, size, results[p - |st.photoTags|], draws[p - |st.photoTags|], retrained)
    {
      WriteAllRow(st, photo, size, results, draws, retrained, p);
    }
  }

  /** The write loop saves every row when each result that reuses a tag names
      a tag of the library that exists when the loop starts. */
  lemma {:induction false} WriteAllSucceeds(
    st: Store, photo: PhotoRef, size: Size, results: seq<FaceResult>, draws: seq<nat>, retrained: int)
    requires |draws| == |results|
    requires forall i :: 0 <= i < |results| ==> !ChooseTag(results[i]).KeyMissing?
    requires forall i :: 0 <= i < |results| && ChooseTag(results[i]).Reuse? ==>
      TagByKey(st.tags, ChooseTag(results[i]).key, photo.library).Some?
    ensures WriteAll(st, photo, size, results, draws, retrained).ok
    decreases |results|
  {
    if results != [] {
      var w1 := WriteOne(st, photo, size, results[0], draws[0], retrained);
      var more := w1.store.tags[|st.tags|..];
      assert w1.store.tags == st.tags + more;
      forall i | 0 <= i < |results[1..]| && ChooseTag(results[1..][i]).Reuse?
        ensures TagByKey(w1.store.tags, ChooseTag(results[1..][i]).key, photo.library).Some?
      {
        assert results[1..][i] == results[i + 1];
        TagByKeyStable(st.tags, more, ChooseTag(results[i + 1]).key, photo.library);
      }
      WriteAllSucceeds(w1.store, photo, size, results[1..], draws[1..], retrained);
    }
  }

  /** After a successful write, the next scan of the photo's library reads
      back every written embedding with the decimal id of its row's tag. */
  lemma WrittenEmbeddingIsScanned(
    st: Store, photo: PhotoRef, size: Size, results: seq<FaceResult>, draws: seq<nat>, retrained: int, p: nat)
    requires |draws| == |results|
    ensures var w := WriteAll(st, photo, size, results, draws, retrained);
      w.ok && |st.photoTags| <= p < |w.store.photoTags| && results[p - |st.photoTags|].embedding.Some? ==>
        Representation(DecimalString(w.store.photoTags[p].tag.id),
                       EncodeEmbedding(results[p - |st.photoTags|].embedding.value))
          in Representations(FaceRowsOf(w.store.photoTags, photo.library))
  {
    var w := WriteAll(st, photo, size, results, draws, retrained);
    if w.ok && |st.photoTags| <= p < |w.store.photoTags| {
      WriteAllRow(st, photo, size, results, draws, retrained, p);
      if results[p - |st.photoTags|].embedding.Some? {
        WrittenRowIsScanned(w.store.photoTags, w.store.photoTags[p], photo.library, results[p - |st.photoTags|]);
      }
    }
  }

  /** A face row of the library carrying the extra data written for a face
      with an embedding gives, in any table that holds it, the scan pair of
      its tag's decimal id and that embedding. */
  lemma WrittenRowIsScanned(rows: seq<PhotoTag>, row: PhotoTag, library: nat, r: FaceResult)
    requires row in rows && row.photo.library == library && row.tag.kind == Face
    requires row.extraData == ExtraDataFor(r) && r.embedding.Some?
    ensures Representation(DecimalString(row.tag.id), EncodeEmbedding(r.embedding.value))
      in Representations(FaceRowsOf(rows, library))
  {
    ScannedRow(rows, row, library);
  }

  /** The first loop of `run_on_photo` over the results, updating each in
      place; false when an exception escapes, which stops it at that
      result. */
  method AnnotateResults(
    results: array<FaceResult>, image: Size, library: Option<nat>, rows: seq<PhotoTag>,
    represent: Window -> Option<Embedding>, dist: (Embedding, Json) -> Option<real>, margin: int -> int)
    returns (ok: bool)
    modifies results
    ensures ok <==> NoneFatal(old(results[..]), image, library, rows, represent, dist, margin)
    ensures ok ==> AnnotatedUpTo(old(results[..]), results[..], results.Length, image, library, rows, represent, dist, margin)
    ensures !ok ==> exists k :: StoppedAt(old(results[..]), results[..], k, image, library, rows, represent, dist, margin)
  {
    for n := 0 to results.Length
      invariant AnnotatedUpTo(old(results[..]), results[..], n, image, library, rows, represent, dist, margin)
    {
      var face, fatal := AnnotateOne(results[n], image, library, rows, represent, dist, margin);
      results[n] := face;
      if fatal {
        assert StoppedAt(old(results[..]), results[..], n, image, library, rows, represent, dist, margin);
        return false;
      }
    }
    return true;
  }

  /** No face makes the first loop raise. */
  predicate NoneFatal(
    before: seq<FaceResult>, image: Size, library: Option<nat>, rows: seq<PhotoTag>,
    represent: Window -> Option<Embedding>, dist: (Embedding, Json) -> Option<real>, margin: int -> int)
  {
    forall i :: 0 <= i < |before| ==> !Annotate(before[i], image, library, rows, represent, dist, margin).fatal
  }

  /** The first n faces are annotated, none of them fatally, and the rest are
      untouched. */
  predicate AnnotatedUpTo(
    before: seq<FaceResult>, after: seq<FaceResult>, n: int, image: Size, library: Option<nat>, rows: seq<PhotoTag>,
    represent: Window -> Option<Embedding>, dist: (Embedding, Json) -> Option<real>, margin: int -> int)
  {
    |after| == |before| && 0 <= n <= |before| &&
    (forall i :: 0 <= i < n ==> Annotation(after[i], false) == Annotate(before[i], image, library, rows, represent, dist, margin)) &&
    (forall i :: n <= i < |before| ==> after[i] == before[i])
  }

  /** The first loop stopped at face k: the first fatal one, with the faces
      up to it annotated and the later ones untouched. */
  predicate StoppedAt(
    before: seq<FaceResult>, after: seq<FaceResult>, k: int, image: Size, library: Option<nat>, rows: seq<PhotoTag>,
    represent: Window -> Option<Embedding>, dist: (Embedding, Json) -> Option<real>, margin: int -> int)
  {
    |after| == |before| && 0 <= k < |before| &&
    Annotate(before[k], image, library, rows, represent, dist, margin).fatal &&
    (forall i :: 0 <= i < k ==> !Annotate(before[i], image, library, rows, represent, dist, margin).fatal) &&
    (forall i :: 0 <= i <= k ==> after[i] == Annotate(before[i], image, library, rows, represent, dist, margin).face) &&
    (forall i :: k < i < |before| ==> after[i] == before[i])
  }

  /** The first loop's body for one detection, as `Annotate` describes it. */
  method AnnotateOne(
    r: FaceResult, image: Size, library: Option<nat>, rows: seq<PhotoTag>,
    represent: Window -> Option<Embedding>, dist: (Embedding, Json) -> Option<real>, margin: int -> int)
    returns (face: FaceResult, fatal: bool)
    ensures Annotation(face, fatal) == Annotate(r, image, library, rows, represent, dist, margin)
  {
    face, fatal := r, false;
    var embedding := represent(FaceWindow(r, image, margin));
    if embedding.Some? {
      face := face.(embedding := embedding);
      if library.Some? {
        var m := FindClosestFaceTag(rows, library.value, embedding.value, dist);
        if m == Failed(StoredValueNotSubscriptable) {
          return face, true;
        }
        if m.Matched? && Truthy(m.closest.tag) {
          face := face.(closestTag := m.closest.tag, closestDistance := Some(m.closest.distance));
        }
      }
    }
  }

  /** The second loop of `run_on_photo`: one saved photo tag per result. */
  method WriteFaceRows(db: Database, photo: PhotoRef, size: Size, results: seq<FaceResult>, draws: seq<nat>, retrained: int)
    returns (ok: bool)
    requires db.Valid()
    requires |draws| == |results|
    modifies db
    ensures db.Valid()
    ensures Written(db.State(), ok) == WriteAll(old(db.State()), photo, size, results, draws, retrained)
  {
    var i := 0;
    while i < |results|
      invariant 0 <= i <= |results| && db.Valid()
      invariant WriteAll(db.State(), photo, size, results[i..], draws[i..], retrained) ==
        WriteAll(old(db.State()), photo, size, results, draws, retrained)
    {
      assert results[i..][0] == results[i] && draws[i..][0] == draws[i];
      assert results[i..][1..] == results[i + 1..] && draws[i..][1..] == draws[i + 1..];
      var r := results[i];
      var tag: Tag;
      match ChooseTag(r) {
        case KeyMissing =>
          return false;
        case Reuse(key) =>
          var found := TagByKey(db.tags, key, photo.library);
          if found.None? {
            return false;
          }
          tag := found.value;
        case MintNew =>
          tag := db.GetOrCreateTag(photo.library, UnknownPersonName(draws[i]), Face, 'C');
      }
      db.Save(BuildRow(photo, size, tag, r, retrained));
      i := i + 1;
    }
    return true;
  }

  /** A photo record: the library it is in, the size of its base file, and
      the completion fields the pass sets. */
  class Photo {
    const id: nat
    const library: nat
    const fileSize: Size
    var colorCompletedAt: Option<int>
    var colorVersion: int

    constructor (id: nat, library: nat, fileSize: Size)
      ensures this.id == id && this.library == library && this.fileSize == fileSize
      ensures colorCompletedAt == None && colorVersion == 0
    {
      this.id, this.library, this.fileSize := id, library, fileSize;
      colorCompletedAt, colorVersion := None, 0;
    }

    function Ref(): (p: PhotoRef)
    {
      PhotoRef(id, library)
    }
  }

  /** The library whose faces are matched: none when the run is for an image
      file rather than a photo record. */
  function LibraryOf(photo: Photo?): (library: Option<nat>)
  {
    if photo == null then None else Some(photo.library)
  }

  /** `run_on_photo` over detector results already filtered by `predict`.
      Returns false when an exception escapes. */
  method RunOnPhoto(
    photo: Photo?, db: Database, results: array<FaceResult>, image: Size,
    represent: Window -> Option<Embedding>, dist: (Embedding, Json) -> Option<real>, margin: int -> int,
    draws: seq<nat>, clearTags: seq<PhotoTag> -> seq<PhotoTag>, versionFile: Option<nat>, now: int)
    returns (ok: bool)
    requires db.Valid()
    requires |draws| == results.Length
    modifies results, db, photo
    ensures db.Valid()
    ensures NoneFatal(old(results[..]), image, LibraryOf(photo), old(db.photoTags), represent, dist, margin) ==>
      AnnotatedUpTo(old(results[..]), results[..], results.Length, image, LibraryOf(photo), old(db.photoTags),
                    represent, dist, margin)
    ensures !NoneFatal(old(results[..]), image, LibraryOf(photo), old(db.photoTags), represent, dist, margin) ==>
      exists k :: StoppedAt(old(results[..]), results[..], k, image, LibraryOf(photo), old(db.photoTags),
                            represent, dist, margin)
    ensures photo == null ==> ok && unchanged(db)
    ensures photo != null && !NoneFatal(old(results[..]), image, LibraryOf(photo), old(db.photoTags), represent, dist, margin) ==>
      !ok && unchanged(db) && unchanged(photo)
    ensures photo != null && NoneFatal(old(results[..]), image, LibraryOf(photo), old(db.photoTags), represent, dist, margin) ==>
      var w := WriteAll(old(db.State()).(photoTags := clearTags(old(db.photoTags))), photo.Ref(), photo.fileSize,
                        results[..], draws, RetrainedModelVersion(versionFile));
      db.State() == w.store && ok == w.ok &&
      (w.ok ==> photo.colorCompletedAt == Some(now) && photo.colorVersion == FaceDetector.ModelVersion) &&
      (!w.ok ==> unchanged(photo))
  {
    var library := LibraryOf(photo);
    ok := AnnotateResults(results, image, library, db.photoTags, represent, dist, margin);
    if !ok || photo == null {
      return;
    }
    db.ClearTags(clearTags);
    var retrained := RetrainedModelVersion(versionFile);
    ok := WriteFaceRows(db, photo.Ref(), photo.fileSize, results[..], draws, retrained);
    if !ok {
      return;
    }
    photo.colorCompletedAt := Some(now);
    photo.colorVersion := FaceDetector.ModelVersion;
  }
}
