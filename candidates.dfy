/** Candidate records as `NoteRetriever.query` builds them from the vector
    index's answer (scripts/vector_utils.py, lines 119-135), and the answer
    itself. */
module Candidates {

  datatype Option<T> = None | Some(value: T)

  /** One retrieved chunk: the dict built at lines 127-135. `bm25Score` and
      `hybridScore` are the two keys the hybrid path adds later (lines
      162-167); `None` means the key is absent. */
  datatype Candidate = Candidate(
    content: string,
    filepath: string,
    filename: string,
    date: string,
    chunkId: string,
    chunkType: string,
    vectorScore: real,
    bm25Score: Option<real>,
    hybridScore: Option<real>)

  /** The same record with the two ranking keys removed. */
  function Unscored(c: Candidate): (r: Candidate)
    ensures r.bm25Score == None && r.hybridScore == None
    ensures r.content == c.content && r.vectorScore == c.vectorScore
  {
    c.(bm25Score := None, hybridScore := None)
  }

  /** Records that carry no ranking keys yet, as the index's answer is
      turned into. */
  predicate Unranked(pool: seq<Candidate>)
  {
    forall i :: 0 <= i < |pool| ==> Unscored(pool[i]) == pool[i]
  }

  /** The first (and only) query row of a `collection.query` answer:
      documents, metadatas and, when the index returned them, distances,
      nearest first. */
  datatype Response = Response(
    documents: seq<string>,
    metadatas: seq<map<string, string>>,
    distances: Option<seq<real>>)

  /** Every document has its metadata and, when distances came back, its
      distance (lines 122 and 124 index both by the document's position;
      entries beyond the documents are never read). */
  predicate WellFormed(r: Response)
  {
    |r.metadatas| >= |r.documents| &&
    (r.distances.Some? ==> |r.distances.value| >= |r.documents|)
  }

  function Min(a: int, b: int): int
  {
    if a <= b then a else b
  }

  /** `n_results`: the index returns its `n` nearest entries, or all of them
      when it holds fewer. */
  function Nearest(r: Response, n: nat): (p: Response)
    requires WellFormed(r)
    ensures WellFormed(p)
    ensures |p.documents| == Min(n, |r.documents|)
    ensures p.documents == r.documents[..|p.documents|]
    ensures p.metadatas == r.metadatas[..|p.documents|]
    ensures p.distances.Some? <==> r.distances.Some?
    ensures p.distances.Some? ==> p.distances.value == r.distances.value[..|p.documents|]
  {
    var m := Min(n, |r.documents|);
    Response(r.documents[..m], r.metadatas[..m],
             match r.distances
             case None => None
             case Some(d) => Some(d[..m]))
  }

  /** `metadata.get(key, '')` */
  function Field(metadata: map<string, string>, key: string): (v: string)
    ensures key in metadata ==> v == metadata[key]
    ensures key !in metadata ==> v == ""
  {
    if key in metadata then metadata[key] else ""
  }

  /** The similarity of the i-th hit: one minus its distance, or 1 when the
      index returned no distances (lines 124-125). */
  function VectorScore(r: Response, i: nat): real
    requires WellFormed(r) && i < |r.documents|
  {
    match r.distances
    case None => 1.0
    case Some(d) => 1.0 - d[i]
  }

  /** The record built for the i-th hit (lines 127-135). */
  function CandidateAt(r: Response, i: nat): Candidate
    requires WellFormed(r) && i < |r.documents|
  {
    var m := r.metadatas[i];
    Candidate(r.documents[i], Field(m, "filepath"), Field(m, "filename"),
              Field(m, "date"), Field(m, "chunk_id"), Field(m, "chunk_type"),
              VectorScore(r, i), None, None)
  }

  /** The records built from an answer, one per document, in order. */
  function PoolOf(r: Response): (pool: seq<Candidate>)
    requires WellFormed(r)
    ensures |pool| == |r.documents|
    ensures forall i :: 0 <= i < |pool| ==> pool[i] == CandidateAt(r, i)
    ensures Unranked(pool)
  {
    seq(|r.documents|, i requires 0 <= i < |r.documents| => CandidateAt(r, i))
  }

  /** The loop at lines 119-135: one record per returned document, in the
      index's order, carrying its metadata fields (empty when absent) and its
      similarity, and no ranking keys yet. */
  method AssembleCandidates(r: Response) returns (candidates: seq<Candidate>)
    requires WellFormed(r)
    ensures |candidates| == |r.documents|
    ensures forall i :: 0 <= i < |candidates| ==>
      candidates[i].content == r.documents[i] &&
      candidates[i].filepath == Field(r.metadatas[i], "filepath") &&
      candidates[i].filename == Field(r.metadatas[i], "filename") &&
      candidates[i].date == Field(r.metadatas[i], "date") &&
      candidates[i].chunkId == Field(r.metadatas[i], "chunk_id") &&
      candidates[i].chunkType == Field(r.metadatas[i], "chunk_type") &&
      candidates[i].bm25Score == None && candidates[i].hybridScore == None
    ensures forall i :: 0 <= i < |candidates| ==>
      candidates[i].vectorScore ==
        (if r.distances.Some? then 1.0 - r.distances.value[i] else 1.0)
    ensures candidates == PoolOf(r)
  {
    candidates := [];
    var i := 0;
    while i < |r.documents|
      invariant 0 <= i <= |r.documents|
      invariant |candidates| == i
      invariant forall j :: 0 <= j < i ==> candidates[j] == CandidateAt(r, j)
    {
      var metadata := r.metadatas[i];
      var distance := if r.distances.Some? then r.distances.value[i] else 0.0;
      var vectorScore := 1.0 - distance;
      candidates := candidates + [Candidate(
        r.documents[i],
        Field(metadata, "filepath"), Field(metadata, "filename"),
        Field(metadata, "date"), Field(metadata, "chunk_id"),
        Field(metadata, "chunk_type"),
        vectorScore, None, None)];
      i := i + 1;
    }
  }
}
