/** The NIST SP 800-53 catalog loader: an OSCAL catalog (groups, their
    controls, the controls' props) is flattened into one record per
    first-level control. Also the embedding cache that stores one embedding
    collection per cache path. */
module Nist {
  import opened Common
  import opened Search

  // ---------------------------------------------------------------------
  // The OSCAL document. An absent key is `None`.

  datatype Prop = Prop(name: Option<string>, value: Option<string>)

  /** A control; `enhancements` are the nested `controls` of the OSCAL format. */
  datatype Control = Control(
    id: Option<string>,
    title: Option<string>,
    props: Option<seq<Prop>>,
    enhancements: seq<Control>)

  datatype Group = Group(id: Option<string>, controls: Option<seq<Control>>)

  datatype Catalog = Catalog(groups: Option<seq<Group>>)

  datatype Document = Document(catalog: Option<Catalog>)

  datatype ControlRecord = ControlRecord(controlId: string, family: string, description: string)

  // ---------------------------------------------------------------------
  // Specification of the flattening

  function GroupControls(g: Group): seq<Control> {
    g.controls.GetOr([])
  }

  predicate IsLabel(p: Prop) {
    p.name == Some("label")
  }

  /** The `value` of the last prop named "label" ("" if it has none), or ""
      when there is no such prop. */
  function LastLabel(props: seq<Prop>): string {
    if props == [] then ""
    else if IsLabel(props[|props| - 1]) then props[|props| - 1].value.GetOr("")
    else LastLabel(props[..|props| - 1])
  }

  /** Every control of the group has an id, and so does the group when it has
      a control (its id is only read when a record is built). */
  predicate Identified(g: Group) {
    && (GroupControls(g) != [] ==> g.id.Some?)
    && forall k :: 0 <= k < |GroupControls(g)| ==> GroupControls(g)[k].id.Some?
  }

  predicate AllIdentified(gs: seq<Group>) {
    forall i :: 0 <= i < |gs| ==> Identified(gs[i])
  }

  function RecordOf(family: string, c: Control): ControlRecord
    requires c.id.Some?
  {
    ControlRecord(c.id.value, family, c.title.GetOr("") + " - " + LastLabel(c.props.GetOr([])))
  }

  function RecordsOf(family: string, cs: seq<Control>): seq<ControlRecord>
    requires forall k :: 0 <= k < |cs| ==> cs[k].id.Some?
  {
    seq(|cs|, k requires 0 <= k < |cs| => RecordOf(family, cs[k]))
  }

  function GroupRecords(g: Group): seq<ControlRecord>
    requires Identified(g)
  {
    if GroupControls(g) == [] then [] else RecordsOf(g.id.value, GroupControls(g))
  }

  function Records(gs: seq<Group>): seq<ControlRecord>
    requires AllIdentified(gs)
  {
    if gs == [] then [] else Records(gs[..|gs| - 1]) + GroupRecords(gs[|gs| - 1])
  }

  /** What `load_nist` returns for a document, or the `KeyError` it raises. */
  function LoadNistSpec(doc: Document): Result<seq<ControlRecord>, KeyError> {
    if doc.catalog.None? then Failure(KeyError("catalog"))
    else if doc.catalog.value.groups.None? then Failure(KeyError("groups"))
    else if !AllIdentified(doc.catalog.value.groups.value) then Failure(KeyError("id"))
    else Success(Records(doc.catalog.value.groups.value))
  }

  /** Number of first-level controls in the groups. */
  function ControlCount(gs: seq<Group>): nat {
    if gs == [] then 0 else ControlCount(gs[..|gs| - 1]) + |GroupControls(gs[|gs| - 1])|
  }

  // ---------------------------------------------------------------------
  // The loader

  /** The loop over a control's props: each prop named "label" overwrites the
      label with its value. */
  method LabelValue(props: seq<Prop>) returns (desc: string)
    ensures desc == LastLabel(props)
  {
    desc := "";
    var i := 0;
    while i < |props|
      invariant 0 <= i <= |props|
      invariant desc == LastLabel(props[..i])
    {
      var p := props[i];
      if p.name == Some("label") {
        desc := p.value.GetOr("");
      }
      assert props[..i + 1][..i] == props[..i];
      i := i + 1;
    }
    assert props[..i] == props;
  }

  /** The inner loop of `load_nist` over one group's controls: appends one
      record per control to `controls`, or raises on a missing id. */
  method AppendGroup(controls: seq<ControlRecord>, group: Group)
    returns (r: Result<seq<ControlRecord>, KeyError>)
    ensures Identified(group) ==> r == Success(controls + GroupRecords(group))
    ensures !Identified(group) ==> r == Failure(KeyError("id"))
  {
    var acc := controls;
    var cs := group.controls.GetOr([]);
    var j := 0;
    while j < |cs|
      invariant 0 <= j <= |cs|
      invariant forall k :: 0 <= k < j ==> cs[k].id.Some?
      invariant j > 0 ==> group.id.Some?
      invariant acc == controls + (if j == 0 then [] else RecordsOf(group.id.value, cs[..j]))
    {
      var ctrl := cs[j];
      if ctrl.id.None? {
        assert GroupControls(group)[j] == ctrl;
        return Failure(KeyError("id"));
      }
      var controlId := ctrl.id.value;
      var title := ctrl.title.GetOr("");
      var desc := LabelValue(ctrl.props.GetOr([]));
      if group.id.None? {
        return Failure(KeyError("id"));
      }
      acc := acc + [ControlRecord(controlId, group.id.value, title + " - " + desc)];
      assert RecordsOf(group.id.value, cs[..j + 1])
          == RecordsOf(group.id.value, cs[..j]) + [RecordOf(group.id.value, ctrl)];
      j := j + 1;
    }
    assert cs[..j] == cs;
    return Success(acc);
  }

  /** `load_nist` with the fetched catalog supplied as `doc`. */
  method LoadNist(doc: Document) returns (r: Result<seq<ControlRecord>, KeyError>)
    ensures r == LoadNistSpec(doc)
  {
    if doc.catalog.None? {
      return Failure(KeyError("catalog"));
    }
    if doc.catalog.value.groups.None? {
      return Failure(KeyError("groups"));
    }
    var groups := doc.catalog.value.groups.value;
    var controls: seq<ControlRecord> := [];
    var i := 0;
    while i < |groups|
      invariant 0 <= i <= |groups|
      invariant AllIdentified(groups[..i])
      invariant controls == Records(groups[..i])
    {
      var next := AppendGroup(controls, groups[i]);
      if next.Failure? {
        assert !Identified(groups[i]);
        return next;
      }
      assert groups[..i + 1][..i] == groups[..i];
      assert AllIdentified(groups[..i + 1]);
      assert Records(groups[..i + 1]) == Records(groups[..i]) + GroupRecords(groups[i]);
      controls := next.value;
      i := i + 1;
    }
    assert groups[..i] == groups;
    return Success(controls);
  }

  // ---------------------------------------------------------------------
  // Properties of the flattening

  /** The label is the value of the last prop named "label", "" when that
      prop has no value, and "" when no prop is named "label". */
  lemma {:induction false} LastLabelSpec(props: seq<Prop>)
    ensures (forall i :: 0 <= i < |props| ==> !IsLabel(props[i])) ==> LastLabel(props) == ""
    ensures forall i :: 0 <= i < |props| && IsLabel(props[i]) && (forall j :: i < j < |props| ==> !IsLabel(props[j]))
              ==> LastLabel(props) == props[i].value.GetOr("")
  {
    if props != [] {
      var init := props[..|props| - 1];
      LastLabelSpec(init);
      forall i | 0 <= i < |props| && IsLabel(props[i]) && (forall j :: i < j < |props| ==> !IsLabel(props[j]))
        ensures LastLabel(props) == props[i].value.GetOr("")
      {
        if i < |props| - 1 {
          assert init[i] == props[i];
          assert forall j :: i < j < |init| ==> init[j] == props[j];
        }
      }
      if forall i :: 0 <= i < |props| ==> !IsLabel(props[i]) {
        assert forall i :: 0 <= i < |init| ==> init[i] == props[i];
      }
    }
  }

  lemma {:induction false} AllIdentifiedPrefix(gs: seq<Group>, n: nat)
    requires AllIdentified(gs) && n <= |gs|
    ensures AllIdentified(gs[..n])
  {
  }

  /** One record per first-level control. */
  lemma {:induction false} RecordsLength(gs: seq<Group>)
    requires AllIdentified(gs)
    ensures |Records(gs)| == ControlCount(gs)
    decreases |gs|
  {
    if gs != [] {
      AllIdentifiedPrefix(gs, |gs| - 1);
      RecordsLength(gs[..|gs| - 1]);
    }
  }

  /** Records come in group-then-control order: the record of control `c` of
      group `g` sits right after the records of all earlier groups and of the
      group's earlier controls, and carries the control's id verbatim, the
      group's id as its family, and "title - label" as its description. */
  lemma {:induction false} RecordAt(gs: seq<Group>, g: nat, c: nat)
    requires AllIdentified(gs)
    requires g < |gs| && c < |GroupControls(gs[g])|
    ensures gs[g].id.Some?
    ensures ControlCount(gs[..g]) + c < |Records(gs)|
    ensures Records(gs)[ControlCount(gs[..g]) + c] == RecordOf(gs[g].id.value, GroupControls(gs[g])[c])
    decreases |gs|
  {
    var n := |gs| - 1;
    var init := gs[..n];
    AllIdentifiedPrefix(gs, n);
    assert Identified(gs[g]);
    RecordsLength(init);
    var front := Records(init);
    var back := GroupRecords(gs[n]);
    assert Records(gs) == front + back;
    if g < n {
      assert init[g] == gs[g];
      assert init[..g] == gs[..g];
      RecordAt(init, g, c);
      var k := ControlCount(gs[..g]) + c;
      assert (front + back)[k] == front[k];
    } else {
      assert gs[..g] == init;
      assert back == RecordsOf(gs[n].id.value, GroupControls(gs[n]));
      assert (front + back)[|front| + c] == back[c];
    }
  }

  // ---------------------------------------------------------------------
  // The embedding cache

  /** The store of cache files: the embedding collection serialised at each path. */
  class EmbeddingCache {
    var files: map<string, Embeddings>

    constructor (files: map<string, Embeddings>)
      ensures this.files == files
    {
      this.files := files;
    }

    /** `cache_embeddings(df, text_column, cache_file)`, where `textColumn`
        reads the text column of one row. A present file is returned as
        stored, whatever `df` holds; otherwise the column, in row order, is
        embedded as one batch, stored at the path and returned. Either way
        the path then holds what was returned, so a second call returns the
        same collection. */
    method CacheEmbeddings<R>(df: seq<R>, textColumn: R -> string, cacheFile: string,
                              encode: seq<string> -> Embeddings)
      returns (embeddings: Embeddings)
      modifies this
      ensures cacheFile in old(files) ==> embeddings == old(files)[cacheFile] && files == old(files)
      ensures cacheFile !in old(files) ==>
                && embeddings == encode(seq(|df|, i requires 0 <= i < |df| => textColumn(df[i])))
                && files == old(files)[cacheFile := embeddings]
      ensures cacheFile in files && files[cacheFile] == embeddings
    {
      if cacheFile in files {
        embeddings := files[cacheFile];
      } else {
        embeddings := encode(seq(|df|, i requires 0 <= i < |df| => textColumn(df[i])));
        files := files[cacheFile := embeddings];
      }
    }
  }
}
