/** The two cross-reference endpoints: an ATT&CK technique id is resolved to
    NIST controls, and a NIST control id to ATT&CK techniques. The id is
    looked up in its own catalog; the row's description is then searched
    against the other catalog's embeddings, and each hit is replaced by the
    row it names. */
module Api {
  import opened Common
  import opened Text
  import opened Search
  import opened Nist
  import opened Mitre

  /** One entry of `semantic` (or of `exact`, which stays empty). */
  datatype SemanticMatch = SemanticMatch(id: Option<string>, name: string, score: real)

  /** The two endpoints' responses; a `name` of `None` means "not found". */
  datatype LookupResponse =
    | TechniqueResponse(technique: string, name: Option<string>, exact: seq<SemanticMatch>, semantic: seq<SemanticMatch>)
    | ControlResponse(control: string, name: Option<string>, exact: seq<SemanticMatch>, semantic: seq<SemanticMatch>)

  /** Number of hits asked of the search by both endpoints. */
  const TopK: int := 10

  // ---------------------------------------------------------------------
  // Lookup

  /** The first technique whose ATT&CK id, upper-cased, is `key`; techniques
      without an id never match. */
  function FindTechniqueKey(techniques: seq<Technique>, key: string): (r: Option<nat>)
    ensures r.Some? ==> r.value < |techniques| && techniques[r.value].techniqueId.Some?
                        && Upper(techniques[r.value].techniqueId.value) == key
    ensures r.Some? ==> forall j :: 0 <= j < r.value ==>
                          !(techniques[j].techniqueId.Some? && Upper(techniques[j].techniqueId.value) == key)
    ensures r.None? <==> forall j :: 0 <= j < |techniques| ==>
                          !(techniques[j].techniqueId.Some? && Upper(techniques[j].techniqueId.value) == key)
  {
    FirstIndex(techniques, (t: Technique) => t.techniqueId.Some? && Upper(t.techniqueId.value) == key)
  }

  /** `DF_MITRE[DF_MITRE["technique_id"].str.upper() == q.strip().upper()]`,
      first row. */
  function FindTechnique(techniques: seq<Technique>, q: string): Option<nat> {
    FindTechniqueKey(techniques, Canonical(q))
  }

  /** The first control whose id, upper-cased, is `key`. */
  function FindControlKey(controls: seq<ControlRecord>, key: string): (r: Option<nat>)
    ensures r.Some? ==> r.value < |controls| && Upper(controls[r.value].controlId) == key
    ensures r.Some? ==> forall j :: 0 <= j < r.value ==> Upper(controls[j].controlId) != key
    ensures r.None? <==> forall j :: 0 <= j < |controls| ==> Upper(controls[j].controlId) != key
  {
    FirstIndex(controls, (c: ControlRecord) => Upper(c.controlId) == key)
  }

  /** `DF_NIST[DF_NIST["control_id"].str.upper() == q.strip().upper()]`,
      first row. */
  function FindControl(controls: seq<ControlRecord>, q: string): Option<nat> {
    FindControlKey(controls, Canonical(q))
  }

  /** The lookups ignore letter case and surrounding whitespace in the query. */
  lemma LookupIgnoresCaseAndPadding(techniques: seq<Technique>, controls: seq<ControlRecord>,
                                    q1: string, q2: string, w1: string, w2: string)
    requires AllSpace(w1) && AllSpace(w2)
    ensures Upper(q1) == Upper(q2) ==> FindTechnique(techniques, q1) == FindTechnique(techniques, q2)
    ensures Upper(q1) == Upper(q2) ==> FindControl(controls, q1) == FindControl(controls, q2)
    ensures FindTechnique(techniques, w1 + q1 + w2) == FindTechnique(techniques, q1)
    ensures FindControl(controls, w1 + q1 + w2) == FindControl(controls, q1)
  {
    CanonicalIgnoresCaseAndPadding(q1, q2, w1, w2);
  }

  // ---------------------------------------------------------------------
  // The endpoints

  /** The `semantic` entry for a hit on NIST control `n`. */
  function ControlEntry(n: ControlRecord, score: real): SemanticMatch {
    SemanticMatch(Some(n.controlId), n.description, score)
  }

  /** The `semantic` entry for a hit on technique `m`. */
  function TechniqueEntry(m: Technique, score: real): SemanticMatch {
    SemanticMatch(m.techniqueId, m.name, score)
  }

  /** `technique_to_nist(q)`. An unknown id is an ordinary response echoing
      `q.upper()` (untrimmed) with no name and no matches. A known id searches
      its description against the NIST embeddings for 10 hits and returns one
      entry per hit, in hit order, built from the control at the hit's
      position; a hit past the last control raises `IndexError`. */
  method TechniqueToNist(q: string, techniques: seq<Technique>, controls: seq<ControlRecord>,
                         nistEmb: Embeddings, model: Model)
    returns (r: Result<LookupResponse, IndexError>)
    ensures FindTechnique(techniques, q).None? ==> r == Success(TechniqueResponse(Upper(q), None, [], []))
    ensures FindTechnique(techniques, q).Some? ==>
              var t := techniques[FindTechnique(techniques, q).value];
              var hits := TopKSemantic(model, t.description, nistEmb, TopK);
              && (r.Success? <==> HitsInRange(hits, |controls|))
              && (r.Failure? ==> r.error == IndexError(hits[FirstOutOfRange(hits, |controls|).value].corpusId))
              && (r.Success? ==>
                    && r.value.TechniqueResponse? && r.value.technique == Upper(q)
                    && r.value.name == Some(t.name) && r.value.exact == []
                    && |r.value.semantic| == |hits|
                    && forall i :: 0 <= i < |hits| ==>
                         r.value.semantic[i] == ControlEntry(controls[hits[i].corpusId], hits[i].score))
    ensures SearchSound(model) && |nistEmb| == |controls| ==> r.Success?
  {
    var row := FindTechnique(techniques, q);
    if row.None? {
      return Success(TechniqueResponse(Upper(q), None, [], []));
    }
    var name := techniques[row.value].name;
    var desc := techniques[row.value].description;
    var hits := TopKSemantic(model, desc, nistEmb, TopK);
    var semantic: seq<SemanticMatch> := [];
    var i := 0;
    while i < |hits|
      invariant 0 <= i <= |hits|
      invariant HitsInRange(hits[..i], |controls|)
      invariant |semantic| == i
      invariant forall k :: 0 <= k < i ==> semantic[k] == ControlEntry(controls[hits[k].corpusId], hits[k].score)
    {
      var h := hits[i];
      if h.corpusId >= |controls| {
        FirstOutOfRangeAt(hits, |controls|, i);
        return Failure(IndexError(h.corpusId));
      }
      var n := controls[h.corpusId];
      semantic := semantic + [SemanticMatch(Some(n.controlId), n.description, h.score)];
      assert hits[..i + 1] == hits[..i] + [h];
      i := i + 1;
    }
    assert hits[..i] == hits;
    return Success(TechniqueResponse(Upper(q), Some(name), [], semantic));
  }

  /** `nist_to_technique(q)`, the same resolution in the other direction; the
      response's name is the control's family. */
  method NistToTechnique(q: string, controls: seq<ControlRecord>, techniques: seq<Technique>,
                         mitreEmb: Embeddings, model: Model)
    returns (r: Result<LookupResponse, IndexError>)
    ensures FindControl(controls, q).None? ==> r == Success(ControlResponse(Upper(q), None, [], []))
    ensures FindControl(controls, q).Some? ==>
              var c := controls[FindControl(controls, q).value];
              var hits := TopKSemantic(model, c.description, mitreEmb, TopK);
              && (r.Success? <==> HitsInRange(hits, |techniques|))
              && (r.Failure? ==> r.error == IndexError(hits[FirstOutOfRange(hits, |techniques|).value].corpusId))
              && (r.Success? ==>
                    && r.value.ControlResponse? && r.value.control == Upper(q)
                    && r.value.name == Some(c.family) && r.value.exact == []
                    && |r.value.semantic| == |hits|
                    && forall i :: 0 <= i < |hits| ==>
                         r.value.semantic[i] == TechniqueEntry(techniques[hits[i].corpusId], hits[i].score))
    ensures SearchSound(model) && |mitreEmb| == |techniques| ==> r.Success?
  {
    var row := FindControl(controls, q);
    if row.None? {
      return Success(ControlResponse(Upper(q), None, [], []));
    }
    var desc := controls[row.value].description;
    var name := controls[row.value].family;
    var hits := TopKSemantic(model, desc, mitreEmb, TopK);
    var semantic: seq<SemanticMatch> := [];
    var i := 0;
    while i < |hits|
      invariant 0 <= i <= |hits|
      invariant HitsInRange(hits[..i], |techniques|)
      invariant |semantic| == i
      invariant forall k :: 0 <= k < i ==> semantic[k] == TechniqueEntry(techniques[hits[k].corpusId], hits[k].score)
    {
      var h := hits[i];
      if h.corpusId >= |techniques| {
        FirstOutOfRangeAt(hits, |techniques|, i);
        return Failure(IndexError(h.corpusId));
      }
      var m := techniques[h.corpusId];
      semantic := semantic + [SemanticMatch(m.techniqueId, m.name, h.score)];
      assert hits[..i + 1] == hits[..i] + [h];
      i := i + 1;
    }
    assert hits[..i] == hits;
    return Success(ControlResponse(Upper(q), Some(name), [], semantic));
  }
}
