/** The sentence embedder and `semantic_search`, which the core only calls.
    They are supplied as functions; what the resolvers may assume of them is
    stated as `SearchSound`. */
module Search {
  import opened Common

  type Vector = seq<real>

  /** One vector per catalog row, in row order. */
  type Embeddings = seq<Vector>

  /** One search result: a row position in the searched collection and its similarity. */
  datatype Hit = Hit(corpusId: nat, score: real)

  /** `encode(texts)` embeds a batch of texts; `search(query, corpus, topK)`
      is the hit list `semantic_search(query, corpus, top_k=topK)[0]`. */
  datatype Model = Model(
    encode: seq<string> -> Embeddings,
    search: (Embeddings, Embeddings, int) -> seq<Hit>)

  /** Every hit names a row of a collection of `n` rows. */
  predicate HitsInRange(hits: seq<Hit>, n: nat) {
    forall i :: 0 <= i < |hits| ==> hits[i].corpusId < n
  }

  /** What the library promises for a non-negative `topK`: at most `topK`
      hits, each naming a row of the searched collection. (A negative `topK`
      makes the library raise; nothing is assumed of it.) */
  ghost predicate SearchSound(model: Model) {
    forall q, c, k :: k >= 0 ==>
      && |model.search(q, c, k)| <= k
      && HitsInRange(model.search(q, c, k), |c|)
  }

  /** `_topk_semantic`: embed one text and search a collection with it; under
      a sound search the hits are at most `topK` and all name rows of
      `corpus`. */
  function TopKSemantic(model: Model, queryText: string, corpus: Embeddings, topK: int): (r: seq<Hit>)
    ensures SearchSound(model) && topK >= 0 ==> |r| <= topK && HitsInRange(r, |corpus|)
  {
    model.search(model.encode([queryText]), corpus, topK)
  }

  /** The position of the first hit that names no row of a collection of `n`
      rows, if any. */
  function FirstOutOfRange(hits: seq<Hit>, n: nat): (r: Option<nat>)
    ensures r.None? <==> HitsInRange(hits, n)
    ensures r.Some? ==> r.value < |hits| && hits[r.value].corpusId >= n && HitsInRange(hits[..r.value], n)
  {
    if hits == [] then None
    else if hits[0].corpusId >= n then Some(0)
    else match FirstOutOfRange(hits[1..], n)
      case None => None
      case Some(k) =>
        assert hits[..k + 1] == [hits[0]] + hits[1..][..k];
        Some(k + 1)
  }

  /** A hit out of range after an in-range prefix is the first one. */
  lemma FirstOutOfRangeAt(hits: seq<Hit>, n: nat, i: nat)
    requires i < |hits| && hits[i].corpusId >= n && HitsInRange(hits[..i], n)
    ensures FirstOutOfRange(hits, n) == Some(i)
  {
  }

  /** `[f(rows.iloc[h["corpus_id"]], float(h["score"])) for h in hits]`: one
      value per hit, in hit order, built from the row the hit names and its
      score; or the `IndexError` of the first hit past the last row. */
  function Resolve<T, M>(rows: seq<T>, hits: seq<Hit>, f: (T, real) -> M): (r: Result<seq<M>, IndexError>)
    ensures r.Success? <==> HitsInRange(hits, |rows|)
    ensures r.Failure? ==> r.error == IndexError(hits[FirstOutOfRange(hits, |rows|).value].corpusId)
    ensures r.Success? ==> |r.value| == |hits|
    ensures r.Success? ==> forall i :: 0 <= i < |hits| ==> r.value[i] == f(rows[hits[i].corpusId], hits[i].score)
  {
    if hits == [] then Success([])
    else if hits[0].corpusId >= |rows| then Failure(IndexError(hits[0].corpusId))
    else match Resolve(rows, hits[1..], f)
      case Failure(e) => Failure(e)
      case Success(rest) => Success([f(rows[hits[0].corpusId], hits[0].score)] + rest)
  }
}
