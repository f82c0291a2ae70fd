/** The MITRE ATT&CK checks: three passes over a STIX 2 bundle pick out the
    techniques (`attack-pattern`), the mitigations (`course-of-action`) and
    the "mitigates" relationships; the relationships are then left-joined
    with the techniques and the mitigations, and both ATT&CK ids are looked
    up in the NIST mapping table. */
module Mitre {
  import opened Common

  // ---------------------------------------------------------------------
  // The STIX bundle. An absent key is `None`.

  datatype ExternalReference = ExternalReference(sourceName: Option<string>, externalId: Option<string>)

  datatype KillChainPhase = KillChainPhase(phaseName: Option<string>)

  datatype StixObject = StixObject(
    objType: Option<string>,
    id: Option<string>,
    name: Option<string>,
    description: Option<string>,
    externalReferences: Option<seq<ExternalReference>>,
    platforms: Option<seq<string>>,
    killChainPhases: Option<seq<KillChainPhase>>,
    relationshipType: Option<string>,
    sourceRef: Option<string>,
    targetRef: Option<string>)

  datatype Bundle = Bundle(objects: Option<seq<StixObject>>)

  // ---------------------------------------------------------------------
  // The extracted tables

  datatype Technique = Technique(
    stixId: string,
    techniqueId: Option<string>,
    name: string,
    description: string,
    platforms: seq<string>,
    tactics: seq<string>)

  datatype Mitigation = Mitigation(stixId: string, mitigationId: Option<string>, name: string)

  /** `sourceRef` is the mitigation, `targetRef` the technique. */
  datatype Relationship = Relationship(sourceRef: string, targetRef: string)

  /** One row of the joined table. */
  datatype MappedRelationship = MappedRelationship(
    relationship: Relationship,
    technique: Option<Technique>,
    mitigation: Option<Mitigation>,
    nistControlsTechnique: Option<seq<string>>,
    nistControlsMitigation: Option<seq<string>>)

  /** The table from an ATT&CK id to its NIST control ids. */
  type NistMapping = map<string, seq<string>>

  // ---------------------------------------------------------------------
  // One object at a time

  predicate IsAttackRef(r: ExternalReference) {
    r.sourceName == Some("mitre-attack")
  }

  /** The `external_id` of the last reference whose source is "mitre-attack"
      (`None` when that reference has none), or `None` when there is no such
      reference. */
  function LastAttackId(refs: seq<ExternalReference>): Option<string> {
    if refs == [] then None
    else if IsAttackRef(refs[|refs| - 1]) then refs[|refs| - 1].externalId
    else LastAttackId(refs[..|refs| - 1])
  }

  /** `[phase["phase_name"] for phase in phases]`. */
  function Tactics(phases: seq<KillChainPhase>): (r: Result<seq<string>, KeyError>)
    ensures r.Success? <==> forall k :: 0 <= k < |phases| ==> phases[k].phaseName.Some?
    ensures r.Failure? ==> r.error == KeyError("phase_name")
    ensures r.Success? ==> |r.value| == |phases|
    ensures r.Success? ==> forall k :: 0 <= k < |phases| ==> r.value[k] == phases[k].phaseName.value
  {
    if phases == [] then Success([])
    else if phases[0].phaseName.None? then Failure(KeyError("phase_name"))
    else match Tactics(phases[1..])
      case Failure(e) => Failure(e)
      case Success(rest) => Success([phases[0].phaseName.value] + rest)
  }

  predicate IsAttackPattern(obj: StixObject) {
    obj.objType == Some("attack-pattern")
  }

  predicate IsCourseOfAction(obj: StixObject) {
    obj.objType == Some("course-of-action")
  }

  predicate IsMitigates(obj: StixObject) {
    obj.objType == Some("relationship") && obj.relationshipType == Some("mitigates")
  }

  /** The first pass's work on one object: nothing, a technique, or the
      `KeyError` raised (missing "type", "phase_name" or "id", in that order). */
  function TechniqueOf(obj: StixObject): Result<Option<Technique>, KeyError> {
    if obj.objType.None? then Failure(KeyError("type"))
    else if !IsAttackPattern(obj) then Success(None)
    else match Tactics(obj.killChainPhases.GetOr([]))
      case Failure(e) => Failure(e)
      case Success(tactics) =>
        if obj.id.None? then Failure(KeyError("id"))
        else Success(Some(Technique(obj.id.value, LastAttackId(obj.externalReferences.GetOr([])),
                                    obj.name.GetOr(""), obj.description.GetOr(""),
                                    obj.platforms.GetOr([]), tactics)))
  }

  /** The second pass's work on one object. */
  function MitigationOf(obj: StixObject): Result<Option<Mitigation>, KeyError> {
    if obj.objType.None? then Failure(KeyError("type"))
    else if !IsCourseOfAction(obj) then Success(None)
    else if obj.id.None? then Failure(KeyError("id"))
    else Success(Some(Mitigation(obj.id.value, LastAttackId(obj.externalReferences.GetOr([])),
                                 obj.name.GetOr(""))))
  }

  /** The third pass's work on one object. */
  function RelationshipOf(obj: StixObject): Result<Option<Relationship>, KeyError> {
    if obj.objType.None? then Failure(KeyError("type"))
    else if !IsMitigates(obj) then Success(None)
    else if obj.sourceRef.None? then Failure(KeyError("source_ref"))
    else if obj.targetRef.None? then Failure(KeyError("target_ref"))
    else Success(Some(Relationship(obj.sourceRef.value, obj.targetRef.value)))
  }

  /** A whole pass: the values of `step` over `objs` in order, or the first
      `KeyError`. */
  function Collect<T>(objs: seq<StixObject>, step: StixObject -> Result<Option<T>, KeyError>): Result<seq<T>, KeyError> {
    if objs == [] then Success([])
    else match Collect(objs[..|objs| - 1], step)
      case Failure(e) => Failure(e)
      case Success(acc) =>
        match step(objs[|objs| - 1])
        case Failure(e) => Failure(e)
        case Success(None) => Success(acc)
        case Success(Some(x)) => Success(acc + [x])
  }

  /** The objects `keep` selects, in order. */
  function Kept(objs: seq<StixObject>, keep: StixObject -> bool): seq<StixObject> {
    if objs == [] then []
    else Kept(objs[..|objs| - 1], keep) + (if keep(objs[|objs| - 1]) then [objs[|objs| - 1]] else [])
  }

  // ---------------------------------------------------------------------
  // The three passes

  lemma {:induction false} CollectFailureSticks<T>(objs: seq<StixObject>, step: StixObject -> Result<Option<T>, KeyError>, n: nat, e: KeyError)
    requires n <= |objs| && Collect(objs[..n], step) == Failure(e)
    ensures Collect(objs, step) == Failure(e)
    decreases |objs| - n
  {
    if n < |objs| {
      assert objs[..n + 1][..n] == objs[..n];
      CollectFailureSticks(objs, step, n + 1, e);
    } else {
      assert objs[..n] == objs;
    }
  }

  /** The loop over a reference list: each "mitre-attack" reference
      overwrites the id with its `external_id`. */
  method AttackIdOf(refs: seq<ExternalReference>) returns (id: Option<string>)
    ensures id == LastAttackId(refs)
  {
    id := None;
    var i := 0;
    while i < |refs|
      invariant 0 <= i <= |refs|
      invariant id == LastAttackId(refs[..i])
    {
      var ref := refs[i];
      if ref.sourceName == Some("mitre-attack") {
        id := ref.externalId;
      }
      assert refs[..i + 1][..i] == refs[..i];
      i := i + 1;
    }
    assert refs[..i] == refs;
  }

  /** Step 2: the techniques. */
  method ExtractTechniques(objs: seq<StixObject>) returns (r: Result<seq<Technique>, KeyError>)
    ensures r == Collect(objs, TechniqueOf)
  {
    var techniques: seq<Technique> := [];
    var i := 0;
    while i < |objs|
      invariant 0 <= i <= |objs|
      invariant Collect(objs[..i], TechniqueOf) == Success(techniques)
    {
      var obj := objs[i];
      assert objs[..i + 1][..i] == objs[..i];
      if obj.objType.None? {
        CollectFailureSticks(objs, TechniqueOf, i + 1, KeyError("type"));
        return Failure(KeyError("type"));
      }
      if obj.objType.value == "attack-pattern" {
        var techniqueId := AttackIdOf(obj.externalReferences.GetOr([]));
        var description := obj.description.GetOr("");
        var platforms := obj.platforms.GetOr([]);
        var tactics := Tactics(obj.killChainPhases.GetOr([]));
        if tactics.Failure? {
          CollectFailureSticks(objs, TechniqueOf, i + 1, tactics.error);
          return Failure(tactics.error);
        }
        if obj.id.None? {
          CollectFailureSticks(objs, TechniqueOf, i + 1, KeyError("id"));
          return Failure(KeyError("id"));
        }
        techniques := techniques + [Technique(obj.id.value, techniqueId, obj.name.GetOr(""),
                                              description, platforms, tactics.value)];
      }
      i := i + 1;
    }
    assert objs[..i] == objs;
    return Success(techniques);
  }

  /** Step 3: the mitigations. */
  method ExtractMitigations(objs: seq<StixObject>) returns (r: Result<seq<Mitigation>, KeyError>)
    ensures r == Collect(objs, MitigationOf)
  {
    var mitigations: seq<Mitigation> := [];
    var i := 0;
    while i < |objs|
      invariant 0 <= i <= |objs|
      invariant Collect(objs[..i], MitigationOf) == Success(mitigations)
    {
      var obj := objs[i];
      assert objs[..i + 1][..i] == objs[..i];
      if obj.objType.None? {
        CollectFailureSticks(objs, MitigationOf, i + 1, KeyError("type"));
        return Failure(KeyError("type"));
      }
      if obj.objType.value == "course-of-action" {
        var mitigationId := AttackIdOf(obj.externalReferences.GetOr([]));
        if obj.id.None? {
          CollectFailureSticks(objs, MitigationOf, i + 1, KeyError("id"));
          return Failure(KeyError("id"));
        }
        mitigations := mitigations + [Mitigation(obj.id.value, mitigationId, obj.name.GetOr(""))];
      }
      i := i + 1;
    }
    assert objs[..i] == objs;
    return Success(mitigations);
  }

  /** Step 4: the "mitigates" relationships. */
  method ExtractRelationships(objs: seq<StixObject>) returns (r: Result<seq<Relationship>, KeyError>)
    ensures r == Collect(objs, RelationshipOf)
  {
    var relationships: seq<Relationship> := [];
    var i := 0;
    while i < |objs|
      invariant 0 <= i <= |objs|
      invariant Collect(objs[..i], RelationshipOf) == Success(relationships)
    {
      var obj := objs[i];
      assert objs[..i + 1][..i] == objs[..i];
      if obj.objType.None? {
        CollectFailureSticks(objs, RelationshipOf, i + 1, KeyError("type"));
        return Failure(KeyError("type"));
      }
      if obj.objType.value == "relationship" && obj.relationshipType == Some("mitigates") {
        if obj.sourceRef.None? {
          CollectFailureSticks(objs, RelationshipOf, i + 1, KeyError("source_ref"));
          return Failure(KeyError("source_ref"));
        }
        if obj.targetRef.None? {
          CollectFailureSticks(objs, RelationshipOf, i + 1, KeyError("target_ref"));
          return Failure(KeyError("target_ref"));
        }
        relationships := relationships + [Relationship(obj.sourceRef.value, obj.targetRef.value)];
      }
      i := i + 1;
    }
    assert objs[..i] == objs;
    return Success(relationships);
  }

  // ---------------------------------------------------------------------
  // The joins

  /** The rows of `rs` whose key is `key`, in order. */
  function Matching<R>(key: string, rs: seq<R>, rk: R -> string): seq<R> {
    if rs == [] then []
    else (if rk(rs[0]) == key then [rs[0]] else []) + Matching(key, rs[1..], rk)
  }

  function JoinOne<L, R>(l: L, rs: seq<R>, lk: L -> string, rk: R -> string): seq<(L, Option<R>)> {
    var ms := Matching(lk(l), rs, rk);
    if ms == [] then [(l, None)]
    else seq(|ms|, i requires 0 <= i < |ms| => (l, Some(ms[i])))
  }

  /** `left.merge(right, left_on=lk, right_on=rk, how="left")`: for each left
      row in order, one row per matching right row, or one row with no right
      part when nothing matches. */
  function LeftJoin<L, R>(ls: seq<L>, rs: seq<R>, lk: L -> string, rk: R -> string): seq<(L, Option<R>)> {
    if ls == [] then [] else JoinOne(ls[0], rs, lk, rk) + LeftJoin(ls[1..], rs, lk, rk)
  }

  function TargetRef(r: Relationship): string { r.targetRef }

  function TechniqueStixId(t: Technique): string { t.stixId }

  function RowSourceRef(row: (Relationship, Option<Technique>)): string { row.0.sourceRef }

  function MitigationStixId(m: Mitigation): string { m.stixId }

  /** `Series.map(nist_mapping)` on one id: absent for a missing (or no) id. */
  function LookupControls(mapping: NistMapping, id: Option<string>): Option<seq<string>> {
    if id.Some? && id.value in mapping then Some(mapping[id.value]) else None
  }

  function TechniqueIdOf(t: Option<Technique>): Option<string> {
    if t.Some? then t.value.techniqueId else None
  }

  function MitigationIdOf(m: Option<Mitigation>): Option<string> {
    if m.Some? then m.value.mitigationId else None
  }

  /** A row of the second merge: the relationship, its technique, its mitigation. */
  type JoinedRow = ((Relationship, Option<Technique>), Option<Mitigation>)

  function MapRow(row: JoinedRow, mapping: NistMapping): MappedRelationship {
    MappedRelationship(row.0.0, row.0.1, row.1,
                       LookupControls(mapping, TechniqueIdOf(row.0.1)),
                       LookupControls(mapping, MitigationIdOf(row.1)))
  }

  function Joined(rels: seq<Relationship>, techniques: seq<Technique>, mitigations: seq<Mitigation>): seq<JoinedRow> {
    LeftJoin(LeftJoin(rels, techniques, TargetRef, TechniqueStixId), mitigations, RowSourceRef, MitigationStixId)
  }

  /** Steps 6 and 7: the two left joins and the two mapping-table columns. */
  function MapRelationships(rels: seq<Relationship>, techniques: seq<Technique>,
                            mitigations: seq<Mitigation>, mapping: NistMapping): seq<MappedRelationship>
  {
    var joined := Joined(rels, techniques, mitigations);
    seq(|joined|, i requires 0 <= i < |joined| => MapRow(joined[i], mapping))
  }

  /** What `run_mitre_checks` computes (before printing), or the first
      `KeyError` it raises. */
  function MitreChecksSpec(bundle: Bundle, mapping: NistMapping): Result<seq<MappedRelationship>, KeyError> {
    if bundle.objects.None? then Failure(KeyError("objects"))
    else
      var objs := bundle.objects.value;
      match Collect(objs, TechniqueOf)
      case Failure(e) => Failure(e)
      case Success(ts) =>
        match Collect(objs, MitigationOf)
        case Failure(e) => Failure(e)
        case Success(ms) =>
          match Collect(objs, RelationshipOf)
          case Failure(e) => Failure(e)
          case Success(rs) => MergeFrames(rs, ts, ms, mapping)
  }

  /** Steps 5 to 7 on the three collected lists. A list with no rows becomes
      a DataFrame with no columns, so the merge that names one of its columns
      raises: the right key is resolved before the left one, so the first
      merge fails on "stix_id" when no technique was collected and then on
      "target_ref" when no relationship was, and the second merge fails on
      "stix_id" when no mitigation was. */
  function MergeFrames(rs: seq<Relationship>, ts: seq<Technique>, ms: seq<Mitigation>,
                       mapping: NistMapping): (r: Result<seq<MappedRelationship>, KeyError>)
    ensures r.Success? <==> rs != [] && ts != [] && ms != []
    ensures r.Failure? ==> r.error == KeyError("stix_id") || r.error == KeyError("target_ref")
    ensures (r.Failure? && r.error == KeyError("target_ref")) <==> rs == [] && ts != []
    ensures r.Success? ==> r.value == MapRelationships(rs, ts, ms, mapping)
  {
    if ts == [] then Failure(KeyError("stix_id"))
    else if rs == [] then Failure(KeyError("target_ref"))
    else if ms == [] then Failure(KeyError("stix_id"))
    else Success(MapRelationships(rs, ts, ms, mapping))
  }

  /** `run_mitre_checks` with the downloaded bundle supplied as `bundle` and
      the mapping table as `mapping`. */
  method RunMitreChecks(bundle: Bundle, mapping: NistMapping) returns (r: Result<seq<MappedRelationship>, KeyError>)
    ensures r == MitreChecksSpec(bundle, mapping)
  {
    if bundle.objects.None? {
      return Failure(KeyError("objects"));
    }
    var objs := bundle.objects.value;
    var techniques := ExtractTechniques(objs);
    if techniques.Failure? {
      return Failure(techniques.error);
    }
    var mitigations := ExtractMitigations(objs);
    if mitigations.Failure? {
      return Failure(mitigations.error);
    }
    var relationships := ExtractRelationships(objs);
    if relationships.Failure? {
      return Failure(relationships.error);
    }
    if techniques.value == [] {
      return Failure(KeyError("stix_id"));
    }
    if relationships.value == [] {
      return Failure(KeyError("target_ref"));
    }
    if mitigations.value == [] {
      return Failure(KeyError("stix_id"));
    }
    return Success(MapRelationships(relationships.value, techniques.value, mitigations.value, mapping));
  }

  // ---------------------------------------------------------------------
  // Properties

  /** An empty bundle collects nothing, so the first merge raises on its
      right key. */
  lemma EmptyBundleRaises(mapping: NistMapping)
    ensures MitreChecksSpec(Bundle(Some([])), mapping) == Failure(KeyError("stix_id"))
  {
    assert Collect([], TechniqueOf) == Success([]);
  }

  /** A successful run has a row for every relationship, so at least one. */
  lemma MitreChecksRows(bundle: Bundle, mapping: NistMapping)
    ensures MitreChecksSpec(bundle, mapping).Success? ==> |MitreChecksSpec(bundle, mapping).value| >= 1
  {
    if MitreChecksSpec(bundle, mapping).Success? {
      var objs := bundle.objects.value;
      var ts := Collect(objs, TechniqueOf).value;
      var ms := Collect(objs, MitigationOf).value;
      var rs := Collect(objs, RelationshipOf).value;
      var first := LeftJoin(rs, ts, TargetRef, TechniqueStixId);
      LeftJoinComplete(rs, ts, TargetRef, TechniqueStixId);
      LeftJoinComplete(first, ms, RowSourceRef, MitigationStixId);
      assert |MitreChecksSpec(bundle, mapping).value| == |Joined(rs, ts, ms)|;
    }
  }

  /** The id is the `external_id` of the last "mitre-attack" reference, and
      `None` when no reference is from "mitre-attack". */
  lemma {:induction false} LastAttackIdSpec(refs: seq<ExternalReference>)
    ensures (forall i :: 0 <= i < |refs| ==> !IsAttackRef(refs[i])) ==> LastAttackId(refs) == None
    ensures forall i :: 0 <= i < |refs| && IsAttackRef(refs[i]) && (forall j :: i < j < |refs| ==> !IsAttackRef(refs[j]))
              ==> LastAttackId(refs) == refs[i].externalId
  {
    if refs != [] {
      var init := refs[..|refs| - 1];
      LastAttackIdSpec(init);
      forall i | 0 <= i < |refs| && IsAttackRef(refs[i]) && (forall j :: i < j < |refs| ==> !IsAttackRef(refs[j]))
        ensures LastAttackId(refs) == refs[i].externalId
      {
        if i < |refs| - 1 {
          assert init[i] == refs[i];
          assert forall j :: i < j < |init| ==> init[j] == refs[j];
        }
      }
      if forall i :: 0 <= i < |refs| ==> !IsAttackRef(refs[i]) {
        assert forall i :: 0 <= i < |init| ==> init[i] == refs[i];
      }
    }
  }

  /** A pass succeeds exactly when every object's step does, and then yields
      one value per object that `keep` selects, in source order, each the
      value of its step. */
  lemma {:induction false} CollectKeepsOrder<T>(objs: seq<StixObject>, step: StixObject -> Result<Option<T>, KeyError>,
                                               keep: StixObject -> bool)
    requires forall o :: step(o).Success? ==> (step(o).value.Some? <==> keep(o))
    ensures Collect(objs, step).Success? <==> forall i :: 0 <= i < |objs| ==> step(objs[i]).Success?
    ensures Collect(objs, step).Success? ==>
              && |Collect(objs, step).value| == |Kept(objs, keep)|
              && forall k :: 0 <= k < |Kept(objs, keep)| ==>
                   step(Kept(objs, keep)[k]) == Success(Some(Collect(objs, step).value[k]))
    decreases |objs|
  {
    if objs != [] {
      var init := objs[..|objs| - 1];
      CollectKeepsOrder(init, step, keep);
      assert forall i :: 0 <= i < |init| ==> init[i] == objs[i];
    }
  }

  /** Only attack patterns become techniques, and only courses of action
      mitigations, and only "mitigates" relationships are kept. */
  lemma StepsSelect()
    ensures forall o :: TechniqueOf(o).Success? ==> (TechniqueOf(o).value.Some? <==> IsAttackPattern(o))
    ensures forall o :: MitigationOf(o).Success? ==> (MitigationOf(o).value.Some? <==> IsCourseOfAction(o))
    ensures forall o :: RelationshipOf(o).Success? ==> (RelationshipOf(o).value.Some? <==> IsMitigates(o))
  {
  }

  /** The technique of an attack pattern: its STIX id, its last ATT&CK id,
      its name and description ("" when absent), its platforms ([] when
      absent) and the phase name of each kill-chain phase, in order. */
  lemma TechniqueFields(obj: StixObject)
    requires TechniqueOf(obj).Success? && TechniqueOf(obj).value.Some?
    ensures var t := TechniqueOf(obj).value.value;
      && IsAttackPattern(obj)
      && obj.id == Some(t.stixId)
      && t.techniqueId == LastAttackId(obj.externalReferences.GetOr([]))
      && t.name == obj.name.GetOr("") && t.description == obj.description.GetOr("")
      && t.platforms == obj.platforms.GetOr([])
      && |t.tactics| == |obj.killChainPhases.GetOr([])|
      && forall k :: 0 <= k < |t.tactics| ==> t.tactics[k] == obj.killChainPhases.GetOr([])[k].phaseName.value
  {
  }

  /** The mitigation of a course of action: its STIX id, its last ATT&CK id
      and its name ("" when absent). */
  lemma MitigationFields(obj: StixObject)
    requires MitigationOf(obj).Success? && MitigationOf(obj).value.Some?
    ensures var m := MitigationOf(obj).value.value;
      && IsCourseOfAction(obj)
      && obj.id == Some(m.stixId)
      && m.mitigationId == LastAttackId(obj.externalReferences.GetOr([]))
      && m.name == obj.name.GetOr("")
  {
  }

  /** The technique pass succeeds exactly when no object lacks "type" and no
      attack pattern lacks "id" or a phase name; it then holds one technique
      per attack pattern, in source order, whether or not it has an ATT&CK id. */
  lemma ExtractedTechniques(objs: seq<StixObject>)
    ensures Collect(objs, TechniqueOf).Success? <==>
              forall i :: 0 <= i < |objs| ==> TechniqueOf(objs[i]).Success?
    ensures Collect(objs, TechniqueOf).Success? ==>
              && |Collect(objs, TechniqueOf).value| == |Kept(objs, IsAttackPattern)|
              && forall k :: 0 <= k < |Kept(objs, IsAttackPattern)| ==>
                   TechniqueOf(Kept(objs, IsAttackPattern)[k]) == Success(Some(Collect(objs, TechniqueOf).value[k]))
  {
    StepsSelect();
    CollectKeepsOrder(objs, TechniqueOf, IsAttackPattern);
  }

  /** Likewise one mitigation per course of action, in source order. */
  lemma ExtractedMitigations(objs: seq<StixObject>)
    ensures Collect(objs, MitigationOf).Success? <==>
              forall i :: 0 <= i < |objs| ==> MitigationOf(objs[i]).Success?
    ensures Collect(objs, MitigationOf).Success? ==>
              && |Collect(objs, MitigationOf).value| == |Kept(objs, IsCourseOfAction)|
              && forall k :: 0 <= k < |Kept(objs, IsCourseOfAction)| ==>
                   MitigationOf(Kept(objs, IsCourseOfAction)[k]) == Success(Some(Collect(objs, MitigationOf).value[k]))
  {
    StepsSelect();
    CollectKeepsOrder(objs, MitigationOf, IsCourseOfAction);
  }

  /** Likewise one relationship per "mitigates" relationship object, in
      source order, with its `source_ref` and `target_ref`. */
  lemma ExtractedRelationships(objs: seq<StixObject>)
    ensures Collect(objs, RelationshipOf).Success? <==>
              forall i :: 0 <= i < |objs| ==> RelationshipOf(objs[i]).Success?
    ensures Collect(objs, RelationshipOf).Success? ==>
              && |Collect(objs, RelationshipOf).value| == |Kept(objs, IsMitigates)|
              && forall k :: 0 <= k < |Kept(objs, IsMitigates)| ==>
                   && Kept(objs, IsMitigates)[k].sourceRef == Some(Collect(objs, RelationshipOf).value[k].sourceRef)
                   && Kept(objs, IsMitigates)[k].targetRef == Some(Collect(objs, RelationshipOf).value[k].targetRef)
  {
    StepsSelect();
    CollectKeepsOrder(objs, RelationshipOf, IsMitigates);
  }

  lemma {:induction false} MatchingSpec<R>(key: string, rs: seq<R>, rk: R -> string)
    ensures forall r :: r in Matching(key, rs, rk) ==> r in rs && rk(r) == key
    ensures forall r :: r in rs && rk(r) == key ==> r in Matching(key, rs, rk)
  {
    if rs != [] {
      MatchingSpec(key, rs[1..], rk);
    }
  }

  /** The matches of one more right row are the earlier matches followed by
      that row when its key matches: matches keep the right table's order. */
  lemma {:induction false} MatchingSnoc<R>(key: string, rs: seq<R>, r: R, rk: R -> string)
    ensures Matching(key, rs + [r], rk) == Matching(key, rs, rk) + (if rk(r) == key then [r] else [])
    decreases |rs|
  {
    if rs == [] {
      assert [r][1..] == [];
    } else {
      var head := if rk(rs[0]) == key then [rs[0]] else [];
      var last := if rk(r) == key then [r] else [];
      assert (rs + [r])[0] == rs[0];
      assert (rs + [r])[1..] == rs[1..] + [r];
      MatchingSnoc(key, rs[1..], r, rk);
      assert Matching(key, rs + [r], rk) == head + (Matching(key, rs[1..], rk) + last);
      assert Matching(key, rs, rk) == head + Matching(key, rs[1..], rk);
    }
  }

  /** One more left row appends exactly its own rows: the merge lists the
      rows of each left row in turn, in left-table order. */
  lemma {:induction false} LeftJoinSnoc<L, R>(ls: seq<L>, l: L, rs: seq<R>, lk: L -> string, rk: R -> string)
    ensures LeftJoin(ls + [l], rs, lk, rk) == LeftJoin(ls, rs, lk, rk) + JoinOne(l, rs, lk, rk)
    decreases |ls|
  {
    if ls == [] {
      assert [l][1..] == [];
    } else {
      assert (ls + [l])[1..] == ls[1..] + [l];
      LeftJoinSnoc(ls[1..], l, rs, lk, rk);
    }
  }

  /** The number of rows a left merge yields: for each left row, one per
      match and at least one. */
  function MergedRowCount<L, R>(ls: seq<L>, rs: seq<R>, lk: L -> string, rk: R -> string): nat {
    if ls == [] then 0 else Max(1, |Matching(lk(ls[0]), rs, rk)|) + MergedRowCount(ls[1..], rs, lk, rk)
  }

  lemma {:induction false} LeftJoinLength<L, R>(ls: seq<L>, rs: seq<R>, lk: L -> string, rk: R -> string)
    ensures |LeftJoin(ls, rs, lk, rk)| == MergedRowCount(ls, rs, lk, rk)
  {
    if ls != [] {
      JoinOneSpec(ls[0], rs, lk, rk);
      LeftJoinLength(ls[1..], rs, lk, rk);
    }
  }

  /** The rows one left row contributes: at least one, each carrying the left
      row; a right part with its key; no right part only when nothing
      matches; and a row for every match. */
  lemma JoinOneSpec<L, R>(l: L, rs: seq<R>, lk: L -> string, rk: R -> string)
    ensures |JoinOne(l, rs, lk, rk)| == Max(1, |Matching(lk(l), rs, rk)|)
    ensures forall i :: 0 <= i < |Matching(lk(l), rs, rk)| ==>
              JoinOne(l, rs, lk, rk)[i] == (l, Some(Matching(lk(l), rs, rk)[i]))
    ensures forall o :: o in JoinOne(l, rs, lk, rk) ==>
              && o.0 == l
              && (o.1.Some? ==> o.1.value in rs && rk(o.1.value) == lk(l))
              && (o.1.None? ==> forall r :: r in rs ==> rk(r) != lk(l))
    ensures forall r :: r in rs && rk(r) == lk(l) ==> (l, Some(r)) in JoinOne(l, rs, lk, rk)
  {
    var ms := Matching(lk(l), rs, rk);
    MatchingSpec(lk(l), rs, rk);
    var h := JoinOne(l, rs, lk, rk);
    if ms != [] {
      forall o | o in h
        ensures o.0 == l && o.1.Some? && o.1.value in rs && rk(o.1.value) == lk(l)
      {
        var k :| 0 <= k < |h| && h[k] == o;
        assert o == (l, Some(ms[k]));
        assert ms[k] in Matching(lk(l), rs, rk);
        assert ms[k] in rs;
      }
      forall r | r in rs && rk(r) == lk(l)
        ensures (l, Some(r)) in h
      {
        var k :| 0 <= k < |ms| && ms[k] == r;
        assert h[k] == (l, Some(r));
      }
    }
  }

  /** The merge's rows come from left rows, a right part always has its left
      row's key, and a row without a right part means no right row has that
      key. */
  lemma {:induction false} LeftJoinSound<L, R>(ls: seq<L>, rs: seq<R>, lk: L -> string, rk: R -> string)
    ensures forall o :: o in LeftJoin(ls, rs, lk, rk) ==>
              && o.0 in ls
              && (o.1.Some? ==> o.1.value in rs && rk(o.1.value) == lk(o.0))
              && (o.1.None? ==> forall r :: r in rs ==> rk(r) != lk(o.0))
  {
    if ls != [] {
      JoinOneSpec(ls[0], rs, lk, rk);
      LeftJoinSound(ls[1..], rs, lk, rk);
      assert LeftJoin(ls, rs, lk, rk) == JoinOne(ls[0], rs, lk, rk) + LeftJoin(ls[1..], rs, lk, rk);
      forall o | o in LeftJoin(ls[1..], rs, lk, rk) ensures o.0 in ls {
        assert o.0 in ls[1..];
      }
    }
  }

  /** The merge is a left join: it has at least a row per left row, every
      left row appears, and so does every matching pair. */
  lemma {:induction false} LeftJoinComplete<L, R>(ls: seq<L>, rs: seq<R>, lk: L -> string, rk: R -> string)
    ensures |LeftJoin(ls, rs, lk, rk)| >= |ls|
    ensures forall l :: l in ls ==> exists o :: o in LeftJoin(ls, rs, lk, rk) && o.0 == l
    ensures forall l, r :: l in ls && r in rs && rk(r) == lk(l) ==> (l, Some(r)) in LeftJoin(ls, rs, lk, rk)
  {
    if ls != [] {
      var head := JoinOne(ls[0], rs, lk, rk);
      var tail := LeftJoin(ls[1..], rs, lk, rk);
      JoinOneSpec(ls[0], rs, lk, rk);
      LeftJoinComplete(ls[1..], rs, lk, rk);
      assert LeftJoin(ls, rs, lk, rk) == head + tail;
      assert head[0] in head;
      forall l | l in ls ensures exists o :: o in head + tail && o.0 == l {
        if l == ls[0] {
          assert head[0] in head + tail;
        } else {
          assert l in ls[1..];
          var o :| o in tail && o.0 == l;
          assert o in head + tail;
        }
      }
      forall l, r | l in ls && r in rs && rk(r) == lk(l) ensures (l, Some(r)) in head + tail {
        if l != ls[0] {
          assert l in ls[1..];
        }
      }
    }
  }

  lemma MapRelationshipsRows(rels: seq<Relationship>, techniques: seq<Technique>,
                             mitigations: seq<Mitigation>, mapping: NistMapping, row: MappedRelationship)
    requires row in MapRelationships(rels, techniques, mitigations, mapping)
    ensures exists jr :: jr in Joined(rels, techniques, mitigations) && row == MapRow(jr, mapping)
  {
    var rows := MapRelationships(rels, techniques, mitigations, mapping);
    var j :| 0 <= j < |rows| && rows[j] == row;
    assert Joined(rels, techniques, mitigations)[j] in Joined(rels, techniques, mitigations);
  }

  /** Every "mitigates" relationship yields at least one row, and every row
      stems from one. */
  lemma MapRelationshipsCover(rels: seq<Relationship>, techniques: seq<Technique>,
                              mitigations: seq<Mitigation>, mapping: NistMapping)
    ensures |MapRelationships(rels, techniques, mitigations, mapping)| >= |rels|
    ensures forall r :: r in rels ==>
              exists row :: row in MapRelationships(rels, techniques, mitigations, mapping) && row.relationship == r
    ensures forall row :: row in MapRelationships(rels, techniques, mitigations, mapping) ==> row.relationship in rels
  {
    var withTechnique := LeftJoin(rels, techniques, TargetRef, TechniqueStixId);
    var joined := Joined(rels, techniques, mitigations);
    var rows := MapRelationships(rels, techniques, mitigations, mapping);
    LeftJoinComplete(rels, techniques, TargetRef, TechniqueStixId);
    LeftJoinComplete(withTechnique, mitigations, RowSourceRef, MitigationStixId);
    LeftJoinSound(rels, techniques, TargetRef, TechniqueStixId);
    LeftJoinSound(withTechnique, mitigations, RowSourceRef, MitigationStixId);
    forall r | r in rels
      ensures exists row :: row in rows && row.relationship == r
    {
      var wt :| wt in withTechnique && wt.0 == r;
      var jr :| jr in joined && jr.0 == wt;
      var j :| 0 <= j < |joined| && joined[j] == jr;
      assert rows[j] in rows && rows[j].relationship == r;
    }
    forall row | row in rows ensures row.relationship in rels {
      MapRelationshipsRows(rels, techniques, mitigations, mapping, row);
    }
  }

  /** A row's technique is one whose STIX id is the relationship's target, and
      it is missing only when no technique has that STIX id. */
  lemma MapRelationshipsTechnique(rels: seq<Relationship>, techniques: seq<Technique>,
                                  mitigations: seq<Mitigation>, mapping: NistMapping)
    ensures forall row :: row in MapRelationships(rels, techniques, mitigations, mapping) ==>
              && (row.technique.Some? ==>
                    row.technique.value in techniques && row.technique.value.stixId == row.relationship.targetRef)
              && (row.technique.None? ==>
                    forall t :: t in techniques ==> t.stixId != row.relationship.targetRef)
  {
    var withTechnique := LeftJoin(rels, techniques, TargetRef, TechniqueStixId);
    LeftJoinSound(rels, techniques, TargetRef, TechniqueStixId);
    LeftJoinSound(withTechnique, mitigations, RowSourceRef, MitigationStixId);
    forall row | row in MapRelationships(rels, techniques, mitigations, mapping)
      ensures row.technique.Some? ==>
                row.technique.value in techniques && row.technique.value.stixId == row.relationship.targetRef
      ensures row.technique.None? ==> forall t :: t in techniques ==> t.stixId != row.relationship.targetRef
    {
      MapRelationshipsRows(rels, techniques, mitigations, mapping, row);
    }
  }

  /** A row's mitigation is one whose STIX id is the relationship's source,
      and it is missing only when no mitigation has that STIX id. */
  lemma MapRelationshipsMitigation(rels: seq<Relationship>, techniques: seq<Technique>,
                                   mitigations: seq<Mitigation>, mapping: NistMapping)
    ensures forall row :: row in MapRelationships(rels, techniques, mitigations, mapping) ==>
              && (row.mitigation.Some? ==>
                    row.mitigation.value in mitigations && row.mitigation.value.stixId == row.relationship.sourceRef)
              && (row.mitigation.None? ==>
                    forall m :: m in mitigations ==> m.stixId != row.relationship.sourceRef)
  {
    var withTechnique := LeftJoin(rels, techniques, TargetRef, TechniqueStixId);
    LeftJoinSound(withTechnique, mitigations, RowSourceRef, MitigationStixId);
    forall row | row in MapRelationships(rels, techniques, mitigations, mapping)
      ensures row.mitigation.Some? ==>
                row.mitigation.value in mitigations && row.mitigation.value.stixId == row.relationship.sourceRef
      ensures row.mitigation.None? ==> forall m :: m in mitigations ==> m.stixId != row.relationship.sourceRef
    {
      MapRelationshipsRows(rels, techniques, mitigations, mapping, row);
    }
  }

  /** The two NIST columns are the mapping table's entries for the ATT&CK ids
      of the row's technique and mitigation, absent when the id is absent or
      not in the table. */
  lemma MapRelationshipsControls(rels: seq<Relationship>, techniques: seq<Technique>,
                                 mitigations: seq<Mitigation>, mapping: NistMapping)
    ensures forall row :: row in MapRelationships(rels, techniques, mitigations, mapping) ==>
              && (row.nistControlsTechnique.Some? <==>
                    row.technique.Some? && row.technique.value.techniqueId.Some?
                    && row.technique.value.techniqueId.value in mapping)
              && (row.nistControlsTechnique.Some? ==>
                    row.nistControlsTechnique.value == mapping[row.technique.value.techniqueId.value])
              && (row.nistControlsMitigation.Some? <==>
                    row.mitigation.Some? && row.mitigation.value.mitigationId.Some?
                    && row.mitigation.value.mitigationId.value in mapping)
              && (row.nistControlsMitigation.Some? ==>
                    row.nistControlsMitigation.value == mapping[row.mitigation.value.mitigationId.value])
  {
    forall row | row in MapRelationships(rels, techniques, mitigations, mapping)
      ensures row.nistControlsTechnique.Some? <==>
                row.technique.Some? && row.technique.value.techniqueId.Some?
                && row.technique.value.techniqueId.value in mapping
      ensures row.nistControlsMitigation.Some? <==>
                row.mitigation.Some? && row.mitigation.value.mitigationId.Some?
                && row.mitigation.value.mitigationId.value in mapping
    {
      MapRelationshipsRows(rels, techniques, mitigations, mapping, row);
    }
  }
}
