/** The fallback identity matcher: a linear scan over every face embedding
    stored for a library, returning the tag of the nearest one. */
module Matcher {
  import opened Records
  import opened Decimal

  /** The key under which a photo tag's extra data holds its embedding. */
  const EmbeddingKey: string := "facenet_embedding"

  /** The distance reported when there is nothing to compare against. */
  const NoMatchDistance: real := 999.0

  /** A stored embedding with the decimal id of the tag it belongs to. */
  datatype Representation = Representation(tagKey: string, embedding: Json)

  /** What `json.loads(extra_data)['facenet_embedding']` does: the record is
      skipped (JSON decode error or missing key), it yields a value, or it
      raises a TypeError because the JSON value is not an object. */
  datatype Lookup = Skip | Use(value: Json) | NotSubscriptable

  datatype MatchError = StoredValueNotSubscriptable | DistanceValueError

  /** The closest tag (None when there was nothing to compare against) and
      its distance. */
  datatype Closest = Closest(tag: Option<string>, distance: real)

  datatype MatchResult = Matched(closest: Closest) | Failed(error: MatchError)

  /** The query for stored faces: the photo tags of photos in the library
      whose tag is a face tag, in query order. */
  function FaceRowsOf(rows: seq<PhotoTag>, library: nat): (q: seq<PhotoTag>)
    ensures forall t :: t in q <==> t in rows && t.photo.library == library && t.tag.kind == Face
    ensures |q| <= |rows|
  {
    if rows == [] then []
    else
      (if rows[0].photo.library == library && rows[0].tag.kind == Face then [rows[0]] else []) +
      FaceRowsOf(rows[1..], library)
  }

  function LookupEmbedding(extra: ExtraData): (l: Lookup)
    ensures l.Use? <==> extra.Parsed? && extra.value.JObject? && EmbeddingKey in extra.value.fields
    ensures l.Use? ==> l.value == extra.value.fields[EmbeddingKey]
    ensures l.NotSubscriptable? <==> extra.Parsed? && !extra.value.JObject?
  {
    match extra
    case Unparsable(_) => Skip
    case Parsed(JObject(fields)) => if EmbeddingKey in fields then Use(fields[EmbeddingKey]) else Skip
    case Parsed(_) => NotSubscriptable
  }

  /** What one stored record contributes to the scan. */
  function RowRepresentation(row: PhotoTag): (reps: seq<Representation>)
  {
    match LookupEmbedding(row.extraData)
    case Use(j) => [Representation(DecimalString(row.tag.id), j)]
    case _ => []
  }

  /** The (tag id, embedding) pairs of the usable records, in query order. */
  function Representations(rows: seq<PhotoTag>): (reps: seq<Representation>)
    ensures |reps| <= |rows|
  {
    if rows == [] then [] else RowRepresentation(rows[0]) + Representations(rows[1..])
  }

  /** Some record's extra data is JSON that is not an object. */
  predicate AnyNotSubscriptable(rows: seq<PhotoTag>)
  {
    exists i :: 0 <= i < |rows| && LookupEmbedding(rows[i].extraData).NotSubscriptable?
  }

  /** The scan keeps query order: the pairs of a concatenation are the pairs
      of each part in turn. */
  lemma {:induction false} RepresentationsConcat(a: seq<PhotoTag>, b: seq<PhotoTag>)
    ensures Representations(a + b) == Representations(a) + Representations(b)
  {
    if a == [] {
      assert a + b == b;
    } else {
      assert (a + b)[0] == a[0] && (a + b)[1..] == a[1..] + b;
      RepresentationsConcat(a[1..], b);
    }
  }

  /** Every pair comes from a usable record, and every usable record gives
      its pair: exactly the records that are not malformed contribute. */
  lemma {:induction false} RepresentationsExact(rows: seq<PhotoTag>)
    ensures forall r :: r in Representations(rows) ==>
      exists i :: 0 <= i < |rows| && RowRepresentation(rows[i]) == [r]
    ensures forall i :: 0 <= i < |rows| && LookupEmbedding(rows[i].extraData).Use? ==>
      Representation(DecimalString(rows[i].tag.id), LookupEmbedding(rows[i].extraData).value) in Representations(rows)
  {
    if rows != [] {
      RepresentationsExact(rows[1..]);
      var reps := Representations(rows);
      forall r | r in reps
        ensures exists i :: 0 <= i < |rows| && RowRepresentation(rows[i]) == [r]
      {
        if r in RowRepresentation(rows[0]) {
          assert RowRepresentation(rows[0]) == [r];
        } else {
          assert r in Representations(rows[1..]);
          var i :| 0 <= i < |rows[1..]| && RowRepresentation(rows[1..][i]) == [r];
          assert RowRepresentation(rows[i + 1]) == [r];
        }
      }
    }
  }

  /** Every usable face record of the library is scanned. */
  lemma ScannedRow(rows: seq<PhotoTag>, row: PhotoTag, library: nat)
    requires row in rows && row.photo.library == library && row.tag.kind == Face
    requires LookupEmbedding(row.extraData).Use?
    ensures Representation(DecimalString(row.tag.id), LookupEmbedding(row.extraData).value)
      in Representations(FaceRowsOf(rows, library))
  {
    var q := FaceRowsOf(rows, library);
    assert row in q;
    var j :| 0 <= j < |q| && q[j] == row;
    RepresentationsExact(q);
  }

  /** Extending the scanned prefix by one record adds that record's pair. */
  lemma RepresentationsSnoc(rows: seq<PhotoTag>, i: nat)
    requires i < |rows|
    ensures Representations(rows[..i + 1]) == Representations(rows[..i]) + RowRepresentation(rows[i])
  {
    assert rows[..i + 1] == rows[..i] + [rows[i]];
    RepresentationsConcat(rows[..i], [rows[i]]);
    assert [rows[i]][1..] == [];
  }

  /** Builds the list of usable (tag id, embedding) pairs, as the scan's
      first loop does; None when a record raises a TypeError. */
  method CollectRepresentations(rows: seq<PhotoTag>) returns (reps: Option<seq<Representation>>)
    ensures reps == if AnyNotSubscriptable(rows) then None else Some(Representations(rows))
  {
    var acc: seq<Representation> := [];
    for i := 0 to |rows|
      invariant acc == Representations(rows[..i])
      invariant forall j :: 0 <= j < i ==> !LookupEmbedding(rows[j].extraData).NotSubscriptable?
    {
      RepresentationsSnoc(rows, i);
      match LookupEmbedding(rows[i].extraData)
      case NotSubscriptable =>
        return None;
      case Skip =>
      case Use(j) =>
        acc := acc + [Representation(DecimalString(rows[i].tag.id), j)];
    }
    assert rows[..|rows|] == rows;
    return Some(acc);
  }

  /** `findEuclideanDistance` raises no ValueError for any stored value. */
  predicate AllMeasurable(reps: seq<Representation>, source: Embedding, dist: (Embedding, Json) -> Option<real>)
  {
    forall i :: 0 <= i < |reps| ==> dist(source, reps[i].embedding).Some?
  }

  function DistanceList(reps: seq<Representation>, source: Embedding, dist: (Embedding, Json) -> Option<real>): (ds: seq<real>)
    requires AllMeasurable(reps, source, dist)
  {
    seq(|reps|, i requires 0 <= i < |reps| => dist(source, reps[i].embedding).value)
  }

  /** The scan's second loop: one distance per pair, in order; None when a
      distance computation raises a ValueError. */
  method ComputeDistances(reps: seq<Representation>, source: Embedding, dist: (Embedding, Json) -> Option<real>)
    returns (ds: Option<seq<real>>)
    ensures ds.None? <==> !AllMeasurable(reps, source, dist)
    ensures ds.Some? ==> |ds.value| == |reps|
    ensures ds.Some? ==> forall i :: 0 <= i < |reps| ==> ds.value[i] == dist(source, reps[i].embedding).value
  {
    var acc: seq<real> := [];
    for i := 0 to |reps|
      invariant |acc| == i
      invariant forall j :: 0 <= j < i ==> dist(source, reps[j].embedding).Some? && acc[j] == dist(source, reps[j].embedding).value
    {
      var d := dist(source, reps[i].embedding);
      if d.None? {
        return None;
      }
      acc := acc + [d.value];
    }
    return Some(acc);
  }

  /** k is the first index holding the minimum of ds. */
  predicate IsFirstMinimum(ds: seq<real>, k: int)
  {
    0 <= k < |ds| &&
    (forall j :: 0 <= j < |ds| ==> ds[k] <= ds[j]) &&
    (forall j :: 0 <= j < k ==> ds[k] < ds[j])
  }

  /** `np.argmin`: the first index of a minimal element. */
  function FirstMinIndex(ds: seq<real>): (k: nat)
    requires |ds| > 0
    ensures IsFirstMinimum(ds, k)
    decreases |ds|
  {
    if |ds| == 1 then 0
    else
      var k := FirstMinIndex(ds[..|ds| - 1]);
      if ds[|ds| - 1] < ds[k] then |ds| - 1 else k
  }

  /** Only one index is the first minimum. */
  lemma FirstMinimumUnique(ds: seq<real>, k1: int, k2: int)
    requires IsFirstMinimum(ds, k1) && IsFirstMinimum(ds, k2)
    ensures k1 == k2
  {
    assert ds[k1] == ds[k2];
  }

  /** The result of the fallback branch of `find_closest_face_tag`. */
  function FaceMatch(rows: seq<PhotoTag>, library: nat, source: Embedding, dist: (Embedding, Json) -> Option<real>)
    : (r: MatchResult)
    ensures r == Failed(StoredValueNotSubscriptable) <==> AnyNotSubscriptable(FaceRowsOf(rows, library))
    ensures r == Failed(DistanceValueError) <==>
      !AnyNotSubscriptable(FaceRowsOf(rows, library)) &&
      !AllMeasurable(Representations(FaceRowsOf(rows, library)), source, dist)
    ensures r.Matched? ==> AllMeasurable(Representations(FaceRowsOf(rows, library)), source, dist)
    ensures r.Matched? && Representations(FaceRowsOf(rows, library)) == [] ==>
      r.closest == Closest(None, NoMatchDistance)
    ensures r.Matched? && Representations(FaceRowsOf(rows, library)) != [] ==>
      var reps := Representations(FaceRowsOf(rows, library));
      var ds := DistanceList(reps, source, dist);
      exists k :: IsFirstMinimum(ds, k) && r.closest == Closest(Some(reps[k].tagKey), ds[k])
  {
    var q := FaceRowsOf(rows, library);
    if AnyNotSubscriptable(q) then Failed(StoredValueNotSubscriptable)
    else
      var reps := Representations(q);
      if !AllMeasurable(reps, source, dist) then Failed(DistanceValueError)
      else
        var ds := DistanceList(reps, source, dist);
        if ds == [] then Matched(Closest(None, NoMatchDistance))
        else
          var k := FirstMinIndex(ds);
          Matched(Closest(Some(reps[k].tagKey), ds[k]))
  }

  /** The fallback branch of `find_closest_face_tag`: query the stored
      faces, collect their embeddings, measure each and take the first
      nearest. */
  method FindClosestFaceTag(rows: seq<PhotoTag>, library: nat, source: Embedding, dist: (Embedding, Json) -> Option<real>)
    returns (r: MatchResult)
    ensures r == FaceMatch(rows, library, source, dist)
  {
    var q := FaceRowsOf(rows, library);
    var reps := CollectRepresentations(q);
    if reps.None? {
      return Failed(StoredValueNotSubscriptable);
    }
    var ds := ComputeDistances(reps.value, source, dist);
    if ds.None? {
      return Failed(DistanceValueError);
    }
    assert ds.value == DistanceList(reps.value, source, dist);
    if ds.value == [] {
      return Matched(Closest(None, NoMatchDistance));
    }
    var k := FirstMinIndex(ds.value);
    return Matched(Closest(Some(reps.value[k].tagKey), ds.value[k]));
  }

  /** A brute-force reference: scan from position i to the end, keeping the
      earlier index on ties. */
  function NearestFrom(ds: seq<real>, i: nat): (k: nat)
    requires i < |ds|
    ensures i <= k < |ds|
    ensures forall j :: i <= j < |ds| ==> ds[k] <= ds[j]
    ensures forall j :: i <= j < k ==> ds[k] < ds[j]
    decreases |ds| - i
  {
    if i == |ds| - 1 then i
    else
      var k := NearestFrom(ds, i + 1);
      if ds[i] <= ds[k] then i else k
  }

  /** The brute-force comparison over the same embeddings. */
  function BruteForceMatch(reps: seq<Representation>, source: Embedding, dist: (Embedding, Json) -> Option<real>)
    : (m: MatchResult)
    requires AllMeasurable(reps, source, dist)
  {
    var ds := DistanceList(reps, source, dist);
    if ds == [] then Matched(Closest(None, NoMatchDistance))
    else
      var k := NearestFrom(ds, 0);
      Matched(Closest(Some(reps[k].tagKey), ds[k]))
  }

  /** Whenever the scan can measure every stored embedding, it finds the same
      tag and distance as the brute-force comparison. */
  lemma FaceMatchIsBruteForce(rows: seq<PhotoTag>, library: nat, source: Embedding, dist: (Embedding, Json) -> Option<real>)
    requires !AnyNotSubscriptable(FaceRowsOf(rows, library))
    requires AllMeasurable(Representations(FaceRowsOf(rows, library)), source, dist)
    ensures FaceMatch(rows, library, source, dist) ==
      BruteForceMatch(Representations(FaceRowsOf(rows, library)), source, dist)
  {
    var reps := Representations(FaceRowsOf(rows, library));
    var ds := DistanceList(reps, source, dist);
    if ds != [] {
      FirstMinimumUnique(ds, FirstMinIndex(ds), NearestFrom(ds, 0));
    }
  }

  /** A returned tag is the decimal id of the tag of a usable face record of
      the library. */
  lemma MatchedTagIsStored(rows: seq<PhotoTag>, library: nat, source: Embedding, dist: (Embedding, Json) -> Option<real>)
    requires FaceMatch(rows, library, source, dist).Matched?
    requires FaceMatch(rows, library, source, dist).closest.tag.Some?
    ensures exists row :: (row in rows && row.photo.library == library && row.tag.kind == Face &&
                           LookupEmbedding(row.extraData).Use? &&
                           FaceMatch(rows, library, source, dist).closest.tag.value == DecimalString(row.tag.id))
  {
    var q := FaceRowsOf(rows, library);
    var reps := Representations(q);
    var ds := DistanceList(reps, source, dist);
    var k :| IsFirstMinimum(ds, k) && FaceMatch(rows, library, source, dist).closest == Closest(Some(reps[k].tagKey), ds[k]);
    RepresentationsExact(q);
    assert reps[k] in reps;
    var i :| 0 <= i < |q| && RowRepresentation(q[i]) == [reps[k]];
    assert q[i] in q;
  }

  /** The returned distance is at most every computed distance. */
  lemma MatchedDistanceIsMinimal(rows: seq<PhotoTag>, library: nat, source: Embedding, dist: (Embedding, Json) -> Option<real>, i: nat)
    requires FaceMatch(rows, library, source, dist).Matched?
    requires i < |Representations(FaceRowsOf(rows, library))|
    ensures FaceMatch(rows, library, source, dist).closest.distance <=
      dist(source, Representations(FaceRowsOf(rows, library))[i].embedding).value
  {
    var reps := Representations(FaceRowsOf(rows, library));
    var ds := DistanceList(reps, source, dist);
    assert ds[i] == dist(source, reps[i].embedding).value;
  }
}
