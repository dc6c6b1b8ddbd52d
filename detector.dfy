/** The face detection model: the confidence filter applied to the
    detector's results, and the per-process cache of loaded detector graphs. */
module FaceDetector {
  import opened Records

  const ModelVersion: int := 20210528

  /** The threshold `predict` uses when its caller gives none. */
  const DefaultMinScore: real := 0.99

  /** The detections whose confidence is strictly above minScore, in the
      detector's order. */
  function Predict(detections: seq<FaceResult>, minScore: real): (kept: seq<FaceResult>)
    ensures forall f :: f in kept <==> f in detections && f.confidence > minScore
    ensures |kept| <= |detections|
  {
    if detections == [] then []
    else
      (if detections[0].confidence > minScore then [detections[0]] else []) +
      Predict(detections[1..], minScore)
  }

  /** `predict` called without a threshold. */
  function PredictDefault(detections: seq<FaceResult>): (kept: seq<FaceResult>)
    ensures forall f :: f in kept <==> f in detections && f.confidence > 0.99
    ensures |kept| <= |detections|
  {
    Predict(detections, DefaultMinScore)
  }

  /** Filtering a concatenation filters each part in turn: the detector's
      order is kept. */
  lemma {:induction false} PredictConcat(a: seq<FaceResult>, b: seq<FaceResult>, minScore: real)
    ensures Predict(a + b, minScore) == Predict(a, minScore) + Predict(b, minScore)
  {
    if a == [] {
      assert a + b == b;
    } else {
      assert (a + b)[0] == a[0] && (a + b)[1..] == a[1..] + b;
      PredictConcat(a[1..], b, minScore);
    }
  }

  /** A detection exactly at the threshold is dropped; one above it is kept. */
  lemma PredictSingle(f: FaceResult, minScore: real)
    ensures Predict([f], minScore) == if f.confidence > minScore then [f] else []
  {
    assert [f][1..] == [];
  }

  /** When every detection is above the threshold, nothing is dropped. */
  lemma {:induction false} PredictKeepsAll(detections: seq<FaceResult>, minScore: real)
    requires forall i :: 0 <= i < |detections| ==> detections[i].confidence > minScore
    ensures Predict(detections, minScore) == detections
  {
    if detections != [] {
      PredictKeepsAll(detections[1..], minScore);
    }
  }

  /** Filtering twice with the same threshold is filtering once. */
  lemma {:induction false} PredictIdempotent(detections: seq<FaceResult>, minScore: real)
    ensures Predict(Predict(detections, minScore), minScore) == Predict(detections, minScore)
  {
    var kept := Predict(detections, minScore);
    forall i | 0 <= i < |kept| ensures kept[i].confidence > minScore {
      assert kept[i] in kept;
    }
    PredictKeepsAll(kept, minScore);
  }

  /** A loaded detector network, identified by its weights file. */
  datatype Graph = Mtcnn(weightsFile: string)

  /** The graph cache shared by the model instances of one process. */
  class GraphCache {
    var graphs: map<string, Graph>

    constructor ()
      ensures graphs == map[]
    {
      graphs := map[];
    }

    /** Returns the cached graph for key; on a miss, loads the weights file
        and stores the new graph under key. */
    method LoadGraph(key: string, graphFile: string) returns (g: Graph)
      modifies this
      ensures key in old(graphs) ==> g == old(graphs)[key] && graphs == old(graphs)
      ensures key !in old(graphs) ==> g == Mtcnn(graphFile) && graphs == old(graphs)[key := g]
      ensures key in graphs && graphs[key] == g
    {
      if key in graphs {
        return graphs[key];
      }
      g := Mtcnn(graphFile);
      graphs := graphs[key := g];
    }

    /** Two loads under one key give the same graph, whatever file the
        second names, and the second changes nothing. */
    method LoadGraphTwice(key: string, first: string, second: string) returns (g1: Graph, g2: Graph)
      modifies this
      ensures g1 == g2
      ensures key in old(graphs) ==> g1 == old(graphs)[key]
      ensures key !in old(graphs) ==> g1 == Mtcnn(first)
      ensures graphs == old(graphs)[key := g1]
    {
      g1 := LoadGraph(key, first);
      g2 := LoadGraph(key, second);
    }
  }
}
