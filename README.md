# Face tagging in photonix, modelled in Dafny

Photonix is a photo manager. Its face classifier (`photonix/classifiers/face/model.py`)
finds the faces in a photo, computes an embedding for each one, and looks for the
nearest face already tagged in the same library. It then writes one photo tag per
face: either the matched person's tag, or an `Unknown person NNNNNN` tag, got or
created. A tag of that name that already exists is reused, so a draw that repeats an
earlier one puts an unrelated face under that earlier unknown person.

This project models that decision logic and proves properties of it:

- `records.dfy` (module `Records`): detector results, boxes, image sizes, embeddings.
  It also holds the JSON that a photo tag's `extra_data` parses to, and tags and
  photo tags. Tag kinds come from the photos schema's choice list.
- `decimal.dfy` (module `Decimal`): `str(n)`, `int(s)` and zero-padded
  formatting of natural numbers, with their round trips.
- `detector.dfy` (module `FaceDetector`): the confidence filter of `predict`, and
  the graph cache that `load_graph` consults and fills.
- `matcher.dfy` (module `Matcher`): the linear-scan branch of
  `find_closest_face_tag`. It collects the stored embeddings of the library's face
  tags, computes one distance per embedding and returns the first minimum, or the
  sentinel `(None, 999)` when there is nothing to compare against.
- `store.dfy` (module `TagStore`): the tag and photo-tag tables, `get_or_create_tag`,
  the lookup of a tag by the id recorded for a match, and a `Database` class whose
  methods change the tables.
- `tagging.dfy` (module `Tagging`): `run_on_photo`. The first loop crops and embeds
  each face and records its closest match, updating the result array in place.
  The second loop chooses or mints a tag, normalises the box, serialises the
  embedding and saves one row per face. Finally the photo's completion fields are set.

Things outside the model become parameters:

- the embedding network: `represent`, where None stands for its `ValueError`;
- the distance function: `dist`, where None stands for a `ValueError` on mismatched shapes;
- the crop margin `int(side * 0.3)`: `margin`;
- the random numbers: `draws`, one per face;
- `clear_tags`: a function on the photo-tag table;
- the retrained-version file: Option of its timestamp;
- the clock: `now`.

An exception that leaves `run_on_photo` is a `false` result, or a `fatal` flag on a
face. The only exception of the first loop that escapes is the `TypeError` of a face
row whose extra data is not a JSON object. The `ValueError` of the embedding and the
`ValueError` of a distance (a `Failed(DistanceValueError)` match) are both caught
by the `except ValueError` at line 145. The state reached up to that point is kept.

## Model

| member | source | states |
|---|---|---|
| `FaceDetector.Predict` | photonix/classifiers/face/model.py:54 | A detection is kept exactly when it is one of the detections and its confidence is strictly above the threshold; never more than the input |
| `FaceDetector.PredictDefault` | photonix/classifiers/face/model.py:50-54 | Without a threshold, a detection is kept exactly when its confidence is strictly above 0.99 |
| `FaceDetector.PredictConcat` | photonix/classifiers/face/model.py:54 | Filtering a concatenation is the concatenation of the filtered parts, so the detector's order is kept |
| `FaceDetector.PredictSingle` | photonix/classifiers/face/model.py:54 | A detection whose confidence equals the threshold is dropped; one above it is kept |
| `FaceDetector.PredictKeepsAll` | photonix/classifiers/face/model.py:54 | When every confidence is above the threshold, the output is the input unchanged |
| `FaceDetector.PredictIdempotent` | photonix/classifiers/face/model.py:54 | Filtering twice with one threshold equals filtering once |
| `FaceDetector.GraphCache.LoadGraph` | photonix/classifiers/face/model.py:42-48 | On a hit, returns the cached graph and leaves the cache unchanged; on a miss, loads the file and stores the new graph under the key; either way the key then maps to the returned graph |
| `FaceDetector.GraphCache.LoadGraphTwice` | photonix/classifiers/face/model.py:42-48 | A second load under the same key returns the graph of the first, whatever file it names |
| `Matcher.FaceRowsOf` | photonix/classifiers/face/model.py:78 | A row is scanned exactly when it is a face tag of a photo in the library |
| `Matcher.LookupEmbedding` | photonix/classifiers/face/model.py:80-83 | Extra data that is not JSON, or is an object without `facenet_embedding`, is skipped; a non-object raises; an object with the key yields its value |
| `Matcher.RepresentationsConcat` | photonix/classifiers/face/model.py:78-83 | Representations of concatenated rows are the concatenation of each part's, keeping query order |
| `Matcher.RepresentationsExact` | photonix/classifiers/face/model.py:78-83 | Each pair is the decimal tag id and stored embedding of some row that has one, and every such row contributes its pair |
| `Matcher.RepresentationsSnoc` | photonix/classifiers/face/model.py:78-83 | One more scanned record adds exactly that record's pair at the end |
| `Matcher.ScannedRow` | photonix/classifiers/face/model.py:78-83 | Every face record of the library whose extra data holds an embedding contributes its decimal tag id and embedding to the scan |
| `Matcher.CollectRepresentations` | photonix/classifiers/face/model.py:77-83 | The loop fails exactly when some row's extra data is not a JSON object; otherwise it returns the representations of the rows in order |
| `Matcher.ComputeDistances` | photonix/classifiers/face/model.py:86-89 | Fails exactly when some distance raises; otherwise returns one distance per representation, in order |
| `Matcher.FirstMinIndex` | photonix/classifiers/face/model.py:94 | The index holds a value no greater than any other, and every earlier value is strictly greater |
| `Matcher.FirstMinimumUnique` | photonix/classifiers/face/model.py:94 | There is only one first-minimum index |
| `Matcher.FaceMatch` | photonix/classifiers/face/model.py:75-95 | A non-object extra data and a distance error are reported as such; with no representations the result is `(None, 999)`; otherwise the tag and distance at the first minimum |
| `Matcher.FindClosestFaceTag` | photonix/classifiers/face/model.py:75-95 | The imperative scan computes the same result as the match specification |
| `Matcher.FaceMatchIsBruteForce` | photonix/classifiers/face/model.py:92-95 | The match agrees with a reference that scans all distances from the back, keeping the earliest smallest |
| `Matcher.MatchedTagIsStored` | photonix/classifiers/face/model.py:78-95 | A matched tag is the decimal id of the tag of a face row of the library whose extra data holds an embedding |
| `Matcher.MatchedDistanceIsMinimal` | photonix/classifiers/face/model.py:86-95 | The matched distance is at most the distance to every stored embedding |
| `Records.EmbeddingRoundTrip` | photonix/classifiers/face/model.py:166 | Decoding the JSON array written for an embedding gives the embedding back |
| `Decimal.DecimalRoundTrip` | photonix/classifiers/face/model.py:81 | Parsing the decimal text of a tag id gives the id back |
| `Decimal.DecimalStringInjective` | photonix/classifiers/face/model.py:81 | Different tag ids have different decimal texts |
| `Decimal.ZeroPadded` | photonix/classifiers/face/model.py:157 | The padded text is all digits and denotes the number; it has exactly the width when the number fits |
| `TagStore.TagByKey` | photonix/classifiers/face/model.py:154 | A found tag is a face tag of the library whose id is the value of the non-empty digit key; nothing is found only for an empty or non-digit key or when no face tag of the library has that id |
| `TagStore.TagByKeyStable` | photonix/classifiers/face/model.py:154-157 | A tag found by key is still found after tags are created |
| `TagStore.GetOrCreate` | photonix/classifiers/face/model.py:157 | The tag has the requested fields; an existing one leaves the store unchanged, otherwise a new tag with the next id is appended; ids stay unique |
| `TagStore.Database.GetOrCreateTag` | photonix/classifiers/face/model.py:157 | The database moves to the state `GetOrCreate` describes and stays valid |
| `TagStore.Database.Save` | photonix/classifiers/face/model.py:168 | Appends exactly the given row and changes nothing else |
| `TagStore.Database.ClearTags` | photonix/classifiers/face/model.py:151 | Replaces the photo-tag table by the given clearing of it and changes nothing else |
| `Tagging.CropWindow` | photonix/classifiers/face/model.py:127-132 | Each edge is the box edge moved out by the margin, or the image edge where that would leave the image; the window lies within the image, and with non-negative margins it contains a box inside the image |
| `Tagging.FaceWindow` | photonix/classifiers/face/model.py:126-132 | The crop of one detection is its box grown by `int(w * 0.3)` left and right and `int(h * 0.3)` up and down, clamped to the image |
| `Tagging.NormalisedBox` | photonix/classifiers/face/model.py:158-161 | Width and height times the image size give the box size, and the centre less half the size, times the image size, gives the box corner; for a box inside the image all are in [0, 1] and the box lies in the unit square |
| `Tagging.UnknownPersonName` | photonix/classifiers/face/model.py:157 | The name is `Unknown person ` followed by digits that denote the draw, 21 characters for a draw up to 999999 |
| `Tagging.UnknownPersonNameInjective` | photonix/classifiers/face/model.py:157 | Different draws give different names |
| `Tagging.Annotate` | photonix/classifiers/face/model.py:124-146 | The box and confidence are kept; a failed embedding leaves the result as it was; the scan's TypeError is fatal exactly when the non-object row exists; a distance and a truthy tag are recorded together and only from the match |
| `Tagging.MatchedTagIsTruthy` | photonix/classifiers/face/model.py:139-144 | A tag returned by the scan is never empty, so it is always recorded |
| `Tagging.ChooseTag` | photonix/classifiers/face/model.py:153-157 | A tag is reused exactly when a distance below 10 and a tag were recorded; an unknown-person tag is got or created exactly when no distance or one of at least 10 was recorded |
| `Tagging.AnnotatedChoice` | photonix/classifiers/face/model.py:139-157 | After the first loop the missing-key error cannot happen; a face reuses a tag exactly when its match found a tag under 10, and that tag is the one reused |
| `Tagging.ExtraDataFor` | photonix/classifiers/face/model.py:164-166 | A face with an embedding stores data the scan reads back as that embedding; one without stores data the scan skips |
| `Tagging.RetrainedModelVersion` | photonix/classifiers/face/model.py:98-107 | No version file gives 0; otherwise the file's timestamp |
| `Tagging.BuildRow` | photonix/classifiers/face/model.py:158-168 | The photo tag for a face has the photo, the tag, source `F`, significance and confidence both the detector's confidence, the box's centre and size as fractions of the image, the model version, the retrained version, and the face's extra data |
| `Tagging.WrittenRowReadBack` | photonix/classifiers/face/model.py:164-168 | A row written for a face is scanned, raises nothing, and yields the tag's decimal id with the face's embedding, or nothing when it has none |
| `Tagging.WriteOne` | photonix/classifiers/face/model.py:152-168 | One iteration fails exactly on the missing key or a tag lookup that finds nothing; otherwise it appends exactly one row, the row for that result. Reusing a tag leaves the tags and the next id unchanged and uses the tag looked up by key; minting adds exactly the tag `GetOrCreate` gives for the unknown-person name |
| `Tagging.WriteAll` | photonix/classifiers/face/model.py:152-168 | Rows already saved stay saved; on success exactly one row per result is added; on failure the loop stops at the first failing result k, with the k rows of the results before it kept, and that result has no key or a key naming no face tag of the library; tag ids stay valid |
| `Tagging.WriteAllRow` | photonix/classifiers/face/model.py:152-168 | A row the loop saves at a position past the old rows is the row for the result at the same offset, with its tag either the recorded one or a face tag of the library named `UnknownPersonName(draw)` with source `C` |
| `Tagging.WriteAllRows` | photonix/classifiers/face/model.py:152-168 | Every saved row, in order, is the row for the result at the same position |
| `Tagging.WriteAllSucceeds` | photonix/classifiers/face/model.py:152-168 | When every reused tag exists, the loop saves a row for every result |
| `Tagging.WrittenEmbeddingIsScanned` | photonix/classifiers/face/model.py:164-168 | After a successful write, the library's next scan yields the embedding of every written row whose face had one, with the decimal id of the row's tag |
| `Tagging.WrittenRowIsScanned` | photonix/classifiers/face/model.py:164-168 | A face row of the library holding the extra data written for a face with an embedding yields, in any table holding it, its tag's decimal id paired with that embedding |
| `Tagging.AnnotateOne` | photonix/classifiers/face/model.py:124-146 | One pass of the first loop's body computes exactly the annotation and the fatal flag `Annotate` describes |
| `Tagging.AnnotateResults` | photonix/classifiers/face/model.py:124-146 | The in-place loop succeeds exactly when no face is fatal, and then each result is its annotation; on failure it stops at the first fatal face and leaves later ones untouched |
| `Tagging.WriteFaceRows` | photonix/classifiers/face/model.py:152-168 | The saving loop moves the database to the state `WriteAll` describes, with its outcome, and keeps it valid |
| `Tagging.RunOnPhoto` | photonix/classifiers/face/model.py:110-175 | Without a photo nothing is written; a fatal face stops the loop at the first fatal face, with earlier faces annotated and later ones untouched, and leaves the database and photo untouched; with no fatal face every result is its annotation; otherwise the cleared table gets the `WriteAll` rows, and on success the completion fields are set even for zero faces |

## Left out

- The Annoy index branch of `find_closest_face_tag` (lines 63-73) is left out. It is a foreign approximate nearest-neighbour library whose files are read under a lock. The model is the linear-scan fallback.
- The Redis locks are left out. Their only role is mutual exclusion between processes, and the model has a single process.
- `FaceDetector.Predict` takes the threshold as a parameter; `FaceDetector.PredictDefault` is the call with the 0.99 default.
- MTCNN detection and the DeepFace network are pretrained models with no code here. Detector output is an input, and the embedding is the `represent` parameter.
- `findEuclideanDistance` is the `dist` parameter. Floating point, `sqrt` and NaN are not modelled: distances are reals.
- `Tagging.NormalisedBox`: the four fractions of lines 158-161 are exact real quotients, not IEEE doubles. The product equalities of `Tagging.NormalisedBox` and `Tagging.BuildRow` (size times image side equals the box side, and so on) hold for the stored floats only up to rounding; the [0, 1] bounds hold either way. The thresholds `> 0.99` and `< 10` are compared on reals, which agrees with the double comparison for every double.
- `findEuclideanDistance` is assumed to raise nothing but the `ValueError` of mismatched shapes. A stored embedding that is not a list of numbers would raise a `TypeError` that line 145 does not catch; that outcome is not modelled, so `Tagging.Annotate` is fatal only for the non-object extra data.
- The crop margin `int(side * 0.3)` is the `margin` parameter. Python's float product need not equal floor(3 * side / 10).
- PIL image opening and cropping are left out; so are file-existence checks and `strptime` of the version file. `Tagging.RetrainedModelVersion` takes the file's timestamp as already parsed.
- `Tagging.RetrainedModelVersion` is read once per run in `Tagging.RunOnPhoto`. The code reads the file again for every row, and a file changed during the loop is not modelled.
- The internals of `get_or_create_tag`, `clear_tags`, `results_for_model_on_photo` and the ORM are not part of this model. `get_or_create_tag` is assumed to return the first tag matching all four fields, or else a new tag with the next id. `clear_tags` is a parameter. Query order is sequence order.
- Tag ids are assumed to be auto-increment natural numbers, written as decimal strings into `tag_ids` and read back by `Tag.objects.get(id=...)`. The type of the Tag model's primary key is not part of this model; a UUID or other key is not modelled.
- `Tag.objects.get(id=...)` is modelled as accepting only a non-empty string of digits. Python's `int()` also accepts signs, spaces and underscores; under the decimal-id assumption above, a key from the scan is always a digit string.
- `TagStore.TagByKey` returns None both for a key that is not a number and for a missing tag. Both raise in the code, and both end the run the same way.
- `randint(0, 999999)` becomes the `draws` parameter, one number per face. Draws above 999999 are allowed, and then the name is longer than 21 characters.
- Image widths and heights are positive. The `ZeroDivisionError` of an empty base file is not modelled.
- `print` output and the `__main__` argument handling are left out.
- The migrations are declarative schema. Only the tag-type choice list becomes the `TagType` datatype.
- `photo.save()` is modelled by the field updates on the `Photo` object. The fields set are the `classifier_color_*` ones, exactly as the code names them.
