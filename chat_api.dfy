/** The chat endpoint. A message is routed down a fixed cascade: in "map"
    mode an ATT&CK technique id is mapped to NIST controls, else a NIST
    control id to techniques; then an audit request is passed through to
    the audit service; anything else is answered with the three closest
    references from each catalog. */
module ChatApi {
  import opened Common
  import opened Text
  import opened Search
  import opened Nist
  import opened Mitre

  /** The request body; `mode` is "map", "audit" or absent. */
  datatype ChatMsg = ChatMsg(message: string, mode: Option<string>, topK: int)

  datatype ControlMatch = ControlMatch(controlId: string, description: string, score: real)

  datatype TechniqueMatch = TechniqueMatch(techniqueId: Option<string>, name: string, score: real)

  /** A catalog row as the dictionary `pack` reads it. */
  type Row = map<string, Json>

  /** The four kinds of reply: the two mapping directions (with the query
      echo and one match per hit), the audit service's answer, and the
      retrieval answer. */
  datatype ChatReply =
    | MitreToNist(techniqueId: string, name: string, controlMatches: seq<ControlMatch>)
    | NistToMitre(controlId: string, description: string, techniqueMatches: seq<TechniqueMatch>)
    | AuditResult(data: Json)
    | Qa(answer: string, nistCandidates: seq<Row>, mitreCandidates: seq<Row>)

  /** What the endpoint raises: a row access past a catalog's end, a missing
      row key, or the HTTP 400 of an unparsable audit payload. */
  datatype ChatError =
    | OutOfRange(indexError: IndexError)
    | MissingKey(keyError: KeyError)
    | BadRequest(status: int, detail: string)

  /** The loaded catalogs and the services the endpoint calls: the search
      model, `json.loads` (`None` when it raises) and the audit endpoint
      behind the passthrough POST. */
  datatype Service = Service(
    techniques: seq<Technique>,
    controls: seq<ControlRecord>,
    mitreEmb: Embeddings,
    nistEmb: Embeddings,
    model: Model,
    parse: string -> Option<Json>,
    audit: Json -> Json)

  const AuditUsage: string := "Send `audit { ...policy json... }` or use the UI form."

  const QaAnswer: string := "Closest references in NIST and MITRE:"

  /** The fixed number of hits the retrieval answer asks of each catalog. */
  const QaTopK: int := 3

  const NistKeys: seq<string> := ["control_id", "description", "family"]

  const MitreKeys: seq<string> := ["technique_id", "name", "tactics"]

  // ---------------------------------------------------------------------
  // Routing

  /** Which branch of the cascade answers a message. */
  datatype Route = MapTechnique(index: nat) | MapControl(index: nat) | Audit | Retrieval

  /** `df_mitre[df_mitre["technique_id"] == key]`, first row: exact comparison. */
  function FindTechniqueExact(techniques: seq<Technique>, key: string): (r: Option<nat>)
    ensures r.Some? ==> r.value < |techniques| && techniques[r.value].techniqueId == Some(key)
    ensures r.Some? ==> forall j :: 0 <= j < r.value ==> techniques[j].techniqueId != Some(key)
    ensures r.None? ==> forall j :: 0 <= j < |techniques| ==> techniques[j].techniqueId != Some(key)
  {
    FirstIndex(techniques, (t: Technique) => t.techniqueId == Some(key))
  }

  /** `df_nist[df_nist["control_id"] == key]`, first row: exact comparison. */
  function FindControlExact(controls: seq<ControlRecord>, key: string): (r: Option<nat>)
    ensures r.Some? ==> r.value < |controls| && controls[r.value].controlId == key
    ensures r.Some? ==> forall j :: 0 <= j < r.value ==> controls[j].controlId != key
    ensures r.None? ==> forall j :: 0 <= j < |controls| ==> controls[j].controlId != key
  {
    FirstIndex(controls, (c: ControlRecord) => c.controlId == key)
  }

  predicate IsMapMode(m: ChatMsg) {
    m.mode == Some("map")
  }

  predicate IsAuditRequest(m: ChatMsg) {
    m.mode == Some("audit") || StartsWith(Lower(Strip(m.message)), "audit ")
  }

  /** The cascade: a technique mapping, a control mapping, the audit
      passthrough, or retrieval. */
  function RouteOf(m: ChatMsg, techniques: seq<Technique>, controls: seq<ControlRecord>): (r: Route)
    ensures r.MapTechnique? ==> r.index < |techniques|
    ensures r.MapControl? ==> r.index < |controls|
  {
    var key := Upper(Strip(m.message));
    var t := FindTechniqueExact(techniques, key);
    var c := FindControlExact(controls, key);
    if IsMapMode(m) && t.Some? then MapTechnique(t.value)
    else if IsMapMode(m) && c.Some? then MapControl(c.value)
    else if IsAuditRequest(m) then Audit
    else Retrieval
  }

  // ---------------------------------------------------------------------
  // The branches

  function ControlMatchOf(n: ControlRecord, score: real): ControlMatch {
    ControlMatch(n.controlId, n.description, score)
  }

  function TechniqueMatchOf(t: Technique, score: real): TechniqueMatch {
    TechniqueMatch(t.techniqueId, t.name, score)
  }

  /** `json.loads(text.split(" ", 1)[1]) if " " in text else {}`. */
  function AuditPayload(text: string, parse: string -> Option<Json>): Option<Json> {
    if ' ' in text then parse(text[IndexOf(text, ' ') + 1..]) else Some(JObject([]))
  }

  function StringList(xs: seq<string>): Json {
    JArray(seq(|xs|, i requires 0 <= i < |xs| => JString(xs[i])))
  }

  /** A NIST record as a dictionary. */
  function ControlRow(c: ControlRecord): (r: Row)
    ensures forall k :: k in NistKeys ==> k in r
  {
    map["control_id" := JString(c.controlId), "family" := JString(c.family), "description" := JString(c.description)]
  }

  /** A technique as a dictionary; an absent ATT&CK id is `null`. */
  function TechniqueRow(t: Technique): (r: Row)
    ensures forall k :: k in MitreKeys ==> k in r
  {
    map["stix_id" := JString(t.stixId),
        "technique_id" := (if t.techniqueId.Some? then JString(t.techniqueId.value) else JNull),
        "name" := JString(t.name),
        "description" := JString(t.description),
        "platforms" := StringList(t.platforms),
        "tactics" := StringList(t.tactics)]
  }

  function ControlRows(cs: seq<ControlRecord>): seq<Row> {
    seq(|cs|, i requires 0 <= i < |cs| => ControlRow(cs[i]))
  }

  function TechniqueRows(ts: seq<Technique>): seq<Row> {
    seq(|ts|, i requires 0 <= i < |ts| => TechniqueRow(ts[i]))
  }

  /** `{k: row[k] for k in keys} | {"score": float(h["score"])}` for the row
      a hit names, or what that raises. */
  function PackOne(rows: seq<Row>, h: Hit, keys: seq<string>): Result<Row, ChatError> {
    if h.corpusId >= |rows| then Failure(OutOfRange(IndexError(h.corpusId)))
    else
      var row := rows[h.corpusId];
      match FirstIndex(keys, (k: string) => k !in row)
      case Some(j) => Failure(MissingKey(KeyError(keys[j])))
      case None => Success((map k | k in keys :: row[k])["score" := JNumber(h.score)])
  }

  /** What `pack(df, hits, keys)` returns, or the first error it raises. */
  function PackSpec(rows: seq<Row>, hits: seq<Hit>, keys: seq<string>): Result<seq<Row>, ChatError> {
    if hits == [] then Success([])
    else match PackSpec(rows, hits[..|hits| - 1], keys)
      case Failure(e) => Failure(e)
      case Success(acc) =>
        match PackOne(rows, hits[|hits| - 1], keys)
        case Failure(e) => Failure(e)
        case Success(row) => Success(acc + [row])
  }

  /** `pack`: one dictionary per hit, appended in hit order. */
  method Pack(rows: seq<Row>, hits: seq<Hit>, keys: seq<string>) returns (r: Result<seq<Row>, ChatError>)
    ensures r == PackSpec(rows, hits, keys)
  {
    var out: seq<Row> := [];
    var i := 0;
    while i < |hits|
      invariant 0 <= i <= |hits|
      invariant PackSpec(rows, hits[..i], keys) == Success(out)
    {
      var entry := PackOne(rows, hits[i], keys);
      assert hits[..i + 1][..i] == hits[..i];
      if entry.Failure? {
        PackFailureSticks(rows, hits, keys, i + 1, entry.error);
        return Failure(entry.error);
      }
      out := out + [entry.value];
      i := i + 1;
    }
    assert hits[..i] == hits;
    return Success(out);
  }

  /** The technique-to-controls mapping reply for technique `t`. */
  function TechniqueMapping(text: string, t: Technique, topK: int, s: Service): Result<ChatReply, ChatError> {
    match Resolve(s.controls, TopKSemantic(s.model, t.description, s.nistEmb, topK), ControlMatchOf)
    case Failure(e) => Failure(OutOfRange(e))
    case Success(ms) => Success(MitreToNist(Upper(text), t.name, ms))
  }

  /** The control-to-techniques mapping reply for control `c`. */
  function ControlMapping(text: string, c: ControlRecord, topK: int, s: Service): Result<ChatReply, ChatError> {
    match Resolve(s.techniques, TopKSemantic(s.model, c.description, s.mitreEmb, topK), TechniqueMatchOf)
    case Failure(e) => Failure(OutOfRange(e))
    case Success(ms) => Success(NistToMitre(Upper(text), c.description, ms))
  }

  /** The audit passthrough's reply. */
  function AuditPassthrough(text: string, s: Service): Result<ChatReply, ChatError> {
    match AuditPayload(text, s.parse)
    case None => Failure(BadRequest(400, AuditUsage))
    case Some(p) => Success(AuditResult(s.audit(p)))
  }

  /** The retrieval answer. */
  function RetrievalAnswer(text: string, s: Service): Result<ChatReply, ChatError> {
    match PackSpec(ControlRows(s.controls), TopKSemantic(s.model, text, s.nistEmb, QaTopK), NistKeys)
    case Failure(e) => Failure(e)
    case Success(nist) =>
      match PackSpec(TechniqueRows(s.techniques), TopKSemantic(s.model, text, s.mitreEmb, QaTopK), MitreKeys)
      case Failure(e) => Failure(e)
      case Success(mitre) => Success(Qa(QaAnswer, nist, mitre))
  }

  /** The whole reply of `chat`, or what it raises. */
  function ChatSpec(m: ChatMsg, s: Service): Result<ChatReply, ChatError> {
    var text := Strip(m.message);
    match RouteOf(m, s.techniques, s.controls)
    case MapTechnique(i) => TechniqueMapping(text, s.techniques[i], m.topK, s)
    case MapControl(i) => ControlMapping(text, s.controls[i], m.topK, s)
    case Audit => AuditPassthrough(text, s)
    case Retrieval => RetrievalAnswer(text, s)
  }

  /** `chat(m)`, the guarded returns in their source order. */
  method Chat(m: ChatMsg, s: Service) returns (r: Result<ChatReply, ChatError>)
    ensures r == ChatSpec(m, s)
  {
    var text := Strip(m.message);
    var route := RouteOf(m, s.techniques, s.controls);
    if route.MapTechnique? {
      var t := s.techniques[route.index];
      var hits := TopKSemantic(s.model, t.description, s.nistEmb, m.topK);
      var matches := Resolve(s.controls, hits, ControlMatchOf);
      if matches.Failure? {
        return Failure(OutOfRange(matches.error));
      }
      return Success(MitreToNist(Upper(text), t.name, matches.value));
    }
    if route.MapControl? {
      var c := s.controls[route.index];
      var hits := TopKSemantic(s.model, c.description, s.mitreEmb, m.topK);
      var matches := Resolve(s.techniques, hits, TechniqueMatchOf);
      if matches.Failure? {
        return Failure(OutOfRange(matches.error));
      }
      return Success(NistToMitre(Upper(text), c.description, matches.value));
    }
    if route.Audit? {
      var payload := AuditPayload(text, s.parse);
      if payload.None? {
        return Failure(BadRequest(400, AuditUsage));
      }
      return Success(AuditResult(s.audit(payload.value)));
    }
    var nHits := TopKSemantic(s.model, text, s.nistEmb, QaTopK);
    var mHits := TopKSemantic(s.model, text, s.mitreEmb, QaTopK);
    var nist := Pack(ControlRows(s.controls), nHits, NistKeys);
    if nist.Failure? {
      return Failure(nist.error);
    }
    var mitre := Pack(TechniqueRows(s.techniques), mHits, MitreKeys);
    if mitre.Failure? {
      return Failure(mitre.error);
    }
    return Success(Qa(QaAnswer, nist.value, mitre.value));
  }

  // ---------------------------------------------------------------------
  // Properties

  /** Mapping happens only in "map" mode, technique ids before control ids,
      each compared exactly with the stripped, upper-cased message, and the
      first matching row is taken. Any other message, an unknown id in "map"
      mode included, goes on to the audit test and then to retrieval. */
  lemma RouteOfSpec(m: ChatMsg, techniques: seq<Technique>, controls: seq<ControlRecord>)
    ensures var r := RouteOf(m, techniques, controls); var key := Upper(Strip(m.message));
      && (r.MapTechnique? || r.MapControl? ==> IsMapMode(m))
      && (r.MapTechnique? ==>
            && techniques[r.index].techniqueId == Some(key)
            && forall j :: 0 <= j < r.index ==> techniques[j].techniqueId != Some(key))
      && (r.MapControl? ==>
            && controls[r.index].controlId == key
            && (forall j :: 0 <= j < |techniques| ==> techniques[j].techniqueId != Some(key))
            && forall j :: 0 <= j < r.index ==> controls[j].controlId != key)
      && (IsMapMode(m) && (exists j :: 0 <= j < |techniques| && techniques[j].techniqueId == Some(key)) ==>
            r.MapTechnique?)
      && (IsMapMode(m) && (exists j :: 0 <= j < |controls| && controls[j].controlId == key) ==>
            r.MapTechnique? || r.MapControl?)
      && (r.Audit? ==> IsAuditRequest(m))
      && (r.Retrieval? ==> !IsAuditRequest(m))
      && (!r.MapTechnique? && !r.MapControl? ==> (r.Audit? <==> IsAuditRequest(m)))
  {
    var key := Upper(Strip(m.message));
    var t := FindTechniqueExact(techniques, key);
    var c := FindControlExact(controls, key);
    assert RouteOf(m, techniques, controls) ==
      if IsMapMode(m) && t.Some? then MapTechnique(t.value)
      else if IsMapMode(m) && c.Some? then MapControl(c.value)
      else if IsAuditRequest(m) then Audit
      else Retrieval;
  }

  lemma {:induction false} PackFailureSticks(rows: seq<Row>, hits: seq<Hit>, keys: seq<string>, n: nat, e: ChatError)
    requires n <= |hits| && PackSpec(rows, hits[..n], keys) == Failure(e)
    ensures PackSpec(rows, hits, keys) == Failure(e)
    decreases |hits| - n
  {
    if n < |hits| {
      assert hits[..n + 1][..n] == hits[..n];
      PackFailureSticks(rows, hits, keys, n + 1, e);
    } else {
      assert hits[..n] == hits;
    }
  }

  /** Every hit's row has every requested key. */
  predicate KeysPresent(rows: seq<Row>, hits: seq<Hit>, keys: seq<string>)
    requires HitsInRange(hits, |rows|)
  {
    forall i, j :: 0 <= i < |hits| && 0 <= j < |keys| ==> keys[j] in rows[hits[i].corpusId]
  }

  /** The dictionary for one hit holds exactly the requested keys and
      "score"; "score" is the hit's score and every other key is copied
      from the row the hit names. */
  lemma PackOneSpec(rows: seq<Row>, h: Hit, keys: seq<string>)
    ensures PackOne(rows, h, keys).Success? <==>
              h.corpusId < |rows| && forall j :: 0 <= j < |keys| ==> keys[j] in rows[h.corpusId]
    ensures PackOne(rows, h, keys).Success? ==>
              var d := PackOne(rows, h, keys).value;
              && d.Keys == (set k | k in keys) + {"score"}
              && d["score"] == JNumber(h.score)
              && forall k :: k in keys && k != "score" ==> d[k] == rows[h.corpusId][k]
  {
    PackOneSucceeds(rows, h, keys);
  }

  lemma PackOneSucceeds(rows: seq<Row>, h: Hit, keys: seq<string>)
    ensures PackOne(rows, h, keys).Success? <==>
              h.corpusId < |rows| && forall j :: 0 <= j < |keys| ==> keys[j] in rows[h.corpusId]
  {
  }

  /** `pack` succeeds exactly when every hit names a row and every such row
      has the requested keys; it then returns one dictionary per hit, in hit
      order, each that hit's `PackOne` dictionary. */
  lemma {:induction false} PackSpecShape(rows: seq<Row>, hits: seq<Hit>, keys: seq<string>)
    ensures PackSpec(rows, hits, keys).Success? <==>
              HitsInRange(hits, |rows|) && KeysPresent(rows, hits, keys)
    ensures PackSpec(rows, hits, keys).Success? ==>
              && |PackSpec(rows, hits, keys).value| == |hits|
              && forall i :: 0 <= i < |hits| ==>
                   PackOne(rows, hits[i], keys) == Success(PackSpec(rows, hits, keys).value[i])
    decreases |hits|
  {
    if hits != [] {
      var n := |hits| - 1;
      var init := hits[..n];
      PackSpecShape(rows, init, keys);
      PackOneSucceeds(rows, hits[n], keys);
      assert forall i :: 0 <= i < n ==> init[i] == hits[i];
      if HitsInRange(hits, |rows|) && KeysPresent(rows, hits, keys) {
        assert HitsInRange(init, |rows|);
        assert KeysPresent(rows, init, keys);
      }
      if PackSpec(rows, init, keys).Success? && PackOne(rows, hits[n], keys).Success? {
        assert PackSpec(rows, hits, keys)
            == Success(PackSpec(rows, init, keys).value + [PackOne(rows, hits[n], keys).value]);
        assert HitsInRange(hits, |rows|);
      }
    }
  }

  /** The catalog rows always have the keys the retrieval answer asks for,
      so packing them fails only on a hit past the catalog's end. */
  lemma CatalogRowsHaveKeys(controls: seq<ControlRecord>, techniques: seq<Technique>, nHits: seq<Hit>, mHits: seq<Hit>)
    ensures PackSpec(ControlRows(controls), nHits, NistKeys).Success? <==> HitsInRange(nHits, |controls|)
    ensures PackSpec(TechniqueRows(techniques), mHits, MitreKeys).Success? <==> HitsInRange(mHits, |techniques|)
  {
    ControlRowsHaveKeys(controls, nHits);
    TechniqueRowsHaveKeys(techniques, mHits);
  }

  lemma ControlRowsHaveKeys(controls: seq<ControlRecord>, hits: seq<Hit>)
    ensures PackSpec(ControlRows(controls), hits, NistKeys).Success? <==> HitsInRange(hits, |controls|)
  {
    PackSpecShape(ControlRows(controls), hits, NistKeys);
    if HitsInRange(hits, |controls|) {
      forall i, j | 0 <= i < |hits| && 0 <= j < |NistKeys|
        ensures NistKeys[j] in ControlRows(controls)[hits[i].corpusId]
      {
        assert ControlRows(controls)[hits[i].corpusId] == ControlRow(controls[hits[i].corpusId]);
      }
      assert KeysPresent(ControlRows(controls), hits, NistKeys);
    }
  }

  lemma TechniqueRowsHaveKeys(techniques: seq<Technique>, hits: seq<Hit>)
    ensures PackSpec(TechniqueRows(techniques), hits, MitreKeys).Success? <==> HitsInRange(hits, |techniques|)
  {
    PackSpecShape(TechniqueRows(techniques), hits, MitreKeys);
    if HitsInRange(hits, |techniques|) {
      forall i, j | 0 <= i < |hits| && 0 <= j < |MitreKeys|
        ensures MitreKeys[j] in TechniqueRows(techniques)[hits[i].corpusId]
      {
        assert TechniqueRows(techniques)[hits[i].corpusId] == TechniqueRow(techniques[hits[i].corpusId]);
      }
      assert KeysPresent(TechniqueRows(techniques), hits, MitreKeys);
    }
  }

  /** A mapping reply echoes the upper-cased id and carries one match per hit
      of the caller's `top_k` search, in hit order, built from the row of
      the other catalog the hit names, with its score. */
  lemma MappingReply(m: ChatMsg, s: Service)
    ensures var route := RouteOf(m, s.techniques, s.controls);
      route.MapTechnique? ==>
        var t := s.techniques[route.index];
        var hits := TopKSemantic(s.model, t.description, s.nistEmb, m.topK);
        && (ChatSpec(m, s).Success? <==> HitsInRange(hits, |s.controls|))
        && (ChatSpec(m, s).Success? ==>
              var reply := ChatSpec(m, s).value;
              && reply == MitreToNist(Upper(Strip(m.message)), t.name, reply.controlMatches)
              && |reply.controlMatches| == |hits|
              && forall i :: 0 <= i < |hits| ==>
                   reply.controlMatches[i] == ControlMatchOf(s.controls[hits[i].corpusId], hits[i].score))
    ensures var route := RouteOf(m, s.techniques, s.controls);
      route.MapControl? ==>
        var c := s.controls[route.index];
        var hits := TopKSemantic(s.model, c.description, s.mitreEmb, m.topK);
        && (ChatSpec(m, s).Success? <==> HitsInRange(hits, |s.techniques|))
        && (ChatSpec(m, s).Success? ==>
              var reply := ChatSpec(m, s).value;
              && reply == NistToMitre(Upper(Strip(m.message)), c.description, reply.techniqueMatches)
              && |reply.techniqueMatches| == |hits|
              && forall i :: 0 <= i < |hits| ==>
                   reply.techniqueMatches[i] == TechniqueMatchOf(s.techniques[hits[i].corpusId], hits[i].score))
  {
    var route := RouteOf(m, s.techniques, s.controls);
    var text := Strip(m.message);
    if route.MapTechnique? {
      assert ChatSpec(m, s) == TechniqueMapping(text, s.techniques[route.index], m.topK, s);
    } else if route.MapControl? {
      assert ChatSpec(m, s) == ControlMapping(text, s.controls[route.index], m.topK, s);
    }
  }

  /** Only "map" mode produces a mapping reply. */
  lemma MappingNeedsMapMode(m: ChatMsg, s: Service)
    requires !IsMapMode(m)
    ensures ChatSpec(m, s).Success? ==> !ChatSpec(m, s).value.MitreToNist? && !ChatSpec(m, s).value.NistToMitre?
  {
    var route := RouteOf(m, s.techniques, s.controls);
    var text := Strip(m.message);
    RouteOfSpec(m, s.techniques, s.controls);
    if route.Audit? {
      assert ChatSpec(m, s) == AuditPassthrough(text, s);
    } else {
      assert ChatSpec(m, s) == RetrievalAnswer(text, s);
      RetrievalIsQa(text, s);
    }
  }

  lemma RetrievalIsQa(text: string, s: Service)
    ensures RetrievalAnswer(text, s).Success? ==> RetrievalAnswer(text, s).value.Qa?
  {
  }

  /** The audit branch sends the text after the first space, or `{}` when
      there is none, and answers with the audit service's reply; an
      unparsable payload is a 400 error with the usage hint. */
  lemma AuditReply(m: ChatMsg, s: Service)
    requires RouteOf(m, s.techniques, s.controls).Audit?
    ensures var text := Strip(m.message);
      && (' ' !in text ==> ChatSpec(m, s) == Success(AuditResult(s.audit(JObject([])))))
      && (' ' in text ==>
            var payload := s.parse(text[IndexOf(text, ' ') + 1..]);
            && (payload.None? ==> ChatSpec(m, s) == Failure(BadRequest(400, AuditUsage)))
            && (payload.Some? ==> ChatSpec(m, s) == Success(AuditResult(s.audit(payload.value)))))
  {
    var text := Strip(m.message);
    assert ChatSpec(m, s) == AuditPassthrough(text, s);
    AuditPassthroughCases(text, s);
  }

  lemma AuditPassthroughCases(text: string, s: Service)
    ensures ' ' !in text ==> AuditPassthrough(text, s) == Success(AuditResult(s.audit(JObject([]))))
    ensures ' ' in text ==>
              var payload := s.parse(text[IndexOf(text, ' ') + 1..]);
              && (payload.None? ==> AuditPassthrough(text, s) == Failure(BadRequest(400, AuditUsage)))
              && (payload.Some? ==> AuditPassthrough(text, s) == Success(AuditResult(s.audit(payload.value))))
  {
  }

  /** A message asking for "audit " has a space, so its payload is the text
      after it. */
  lemma AuditPrefixHasSpace(text: string)
    requires StartsWith(Lower(text), "audit ")
    ensures ' ' in text
    ensures IndexOf(text, ' ') == 5
  {
    var low := Lower(text);
    assert low[..6] == "audit ";
    assert low[0] == 'a' && low[1] == 'u' && low[2] == 'd' && low[3] == 'i' && low[4] == 't' && low[5] == ' ';
    assert text[0] != ' ' && text[1] != ' ' && text[2] != ' ' && text[3] != ' ' && text[4] != ' ';
    assert text[5] == ' ';
    assert text[..5] == [text[0], text[1], text[2], text[3], text[4]];
    IndexOfAt(text, ' ', 5);
  }

  /** Only the audit branch gives a 400, and only an unparsable payload. */
  lemma BadRequestOnlyFromAudit(m: ChatMsg, s: Service)
    ensures ChatSpec(m, s).Failure? && ChatSpec(m, s).error.BadRequest? ==>
              RouteOf(m, s.techniques, s.controls).Audit? && AuditPayload(Strip(m.message), s.parse).None?
  {
    var route := RouteOf(m, s.techniques, s.controls);
    var text := Strip(m.message);
    if route.MapTechnique? {
      assert ChatSpec(m, s) == TechniqueMapping(text, s.techniques[route.index], m.topK, s);
    } else if route.MapControl? {
      assert ChatSpec(m, s) == ControlMapping(text, s.controls[route.index], m.topK, s);
    } else if route.Audit? {
      assert ChatSpec(m, s) == AuditPassthrough(text, s);
    } else {
      assert ChatSpec(m, s) == RetrievalAnswer(text, s);
      var nHits := TopKSemantic(s.model, text, s.nistEmb, QaTopK);
      var mHits := TopKSemantic(s.model, text, s.mitreEmb, QaTopK);
      PackErrorKinds(ControlRows(s.controls), nHits, NistKeys);
      PackErrorKinds(TechniqueRows(s.techniques), mHits, MitreKeys);
    }
  }

  /** `pack` raises only an `IndexError` or a `KeyError`. */
  lemma {:induction false} PackErrorKinds(rows: seq<Row>, hits: seq<Hit>, keys: seq<string>)
    ensures PackSpec(rows, hits, keys).Failure? ==> !PackSpec(rows, hits, keys).error.BadRequest?
    decreases |hits|
  {
    if hits != [] {
      PackErrorKinds(rows, hits[..|hits| - 1], keys);
    }
  }

  /** The retrieval answer searches both catalogs with the stripped text and
      three hits each, whatever `top_k` the caller sent, and packs the
      control id, description and family, and the technique id, name and
      tactics, of the rows the hits name. */
  lemma RetrievalReply(m: ChatMsg, s: Service, k: int)
    requires RouteOf(m, s.techniques, s.controls).Retrieval?
    ensures ChatSpec(m, s) == ChatSpec(m.(topK := k), s)
    ensures var text := Strip(m.message);
      var nHits := TopKSemantic(s.model, text, s.nistEmb, QaTopK);
      var mHits := TopKSemantic(s.model, text, s.mitreEmb, QaTopK);
      && (ChatSpec(m, s).Success? <==> HitsInRange(nHits, |s.controls|) && HitsInRange(mHits, |s.techniques|))
      && (ChatSpec(m, s).Success? ==>
            && ChatSpec(m, s).value.Qa?
            && ChatSpec(m, s).value.answer == QaAnswer
            && ChatSpec(m, s).value.nistCandidates == PackSpec(ControlRows(s.controls), nHits, NistKeys).value
            && ChatSpec(m, s).value.mitreCandidates == PackSpec(TechniqueRows(s.techniques), mHits, MitreKeys).value
            && |ChatSpec(m, s).value.nistCandidates| == |nHits|
            && |ChatSpec(m, s).value.mitreCandidates| == |mHits|)
  {
    var text := Strip(m.message);
    var nHits := TopKSemantic(s.model, text, s.nistEmb, QaTopK);
    var mHits := TopKSemantic(s.model, text, s.mitreEmb, QaTopK);
    assert RouteOf(m.(topK := k), s.techniques, s.controls) == RouteOf(m, s.techniques, s.controls);
    CatalogRowsHaveKeys(s.controls, s.techniques, nHits, mHits);
    PackSpecShape(ControlRows(s.controls), nHits, NistKeys);
    PackSpecShape(TechniqueRows(s.techniques), mHits, MitreKeys);
  }

  /** With a sound search over embeddings that match the catalogs and a
      non-negative `top_k`, the chat never raises except for the 400 of an
      unparsable audit payload. This rests on the audit call being total:
      `Service.audit` stands for a POST and `r.json()` that always answer. */
  lemma ChatTotal(m: ChatMsg, s: Service)
    requires SearchSound(s.model) && |s.nistEmb| == |s.controls| && |s.mitreEmb| == |s.techniques|
    requires m.topK >= 0
    ensures ChatSpec(m, s).Success? || ChatSpec(m, s) == Failure(BadRequest(400, AuditUsage))
  {
    var route := RouteOf(m, s.techniques, s.controls);
    var text := Strip(m.message);
    if route.MapTechnique? {
      assert ChatSpec(m, s) == TechniqueMapping(text, s.techniques[route.index], m.topK, s);
      TechniqueMappingTotal(text, s.techniques[route.index], m.topK, s);
    } else if route.MapControl? {
      assert ChatSpec(m, s) == ControlMapping(text, s.controls[route.index], m.topK, s);
      ControlMappingTotal(text, s.controls[route.index], m.topK, s);
    } else if route.Audit? {
      assert ChatSpec(m, s) == AuditPassthrough(text, s);
    } else {
      assert ChatSpec(m, s) == RetrievalAnswer(text, s);
      RetrievalTotal(text, s);
    }
  }

  lemma TechniqueMappingTotal(text: string, t: Technique, topK: int, s: Service)
    requires SearchSound(s.model) && |s.nistEmb| == |s.controls| && topK >= 0
    ensures TechniqueMapping(text, t, topK, s).Success?
  {
    assert HitsInRange(TopKSemantic(s.model, t.description, s.nistEmb, topK), |s.nistEmb|);
  }

  lemma ControlMappingTotal(text: string, c: ControlRecord, topK: int, s: Service)
    requires SearchSound(s.model) && |s.mitreEmb| == |s.techniques| && topK >= 0
    ensures ControlMapping(text, c, topK, s).Success?
  {
    assert HitsInRange(TopKSemantic(s.model, c.description, s.mitreEmb, topK), |s.mitreEmb|);
  }

  lemma RetrievalTotal(text: string, s: Service)
    requires SearchSound(s.model) && |s.nistEmb| == |s.controls| && |s.mitreEmb| == |s.techniques|
    ensures RetrievalAnswer(text, s).Success?
  {
    var nHits := TopKSemantic(s.model, text, s.nistEmb, QaTopK);
    var mHits := TopKSemantic(s.model, text, s.mitreEmb, QaTopK);
    assert HitsInRange(nHits, |s.nistEmb|) && HitsInRange(mHits, |s.mitreEmb|);
    CatalogRowsHaveKeys(s.controls, s.techniques, nHits, mHits);
  }
}
