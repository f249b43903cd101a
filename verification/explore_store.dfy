/**
 * The explore store: a cursor over the ranked insight spaces of the pipeline
 * store, the chart specification of the current page, and a "fork view" the user
 * edits by adding and removing fields.
 *
 * Each operation is a pure step on an `ExploreState` record (the specification),
 * and the `ExploreStore` class below has one method per operation whose
 * postcondition ties its new fields to that step. The pipeline store's
 * asynchronous `specify`, `scanDetails` and `getAssociatedViews` are oracle
 * functions passed in by the caller; each awaited result is committed at once.
 */
module ExploreStoreModel {
  import opened Common

  type FieldId = string

  /** The two role lists of a view: `'dimensions' | 'measures'`. */
  datatype AnalyticType = Dimensions | Measures

  /** An aggregation operator; the store only ever writes `Sum`. */
  datatype Aggregator = Sum | OtherAggregator(name: string)

  /** A ranked candidate view found by the insight engine. */
  datatype InsightSpace = InsightSpace(dimensions: seq<FieldId>, measures: seq<FieldId>, significance: real)

  /** A chart schema; only its geometry types are inspected by the store. */
  datatype Schema = Schema(geomType: Option<seq<string>>, encoding: map<string, seq<FieldId>>)

  /** What `specify` yields: a schema and the rows it shows. */
  datatype ViewSpec = ViewSpec(schema: Schema, dataView: seq<Row>)

  /** An insight space with its chart attached (an association candidate). */
  datatype VizSpace = VizSpace(space: InsightSpace, schema: Schema, dataView: seq<Row>)

  /** The two rankings `getAssociatedViews` returns. */
  datatype Associations = Associations(assSpacesT1: seq<VizSpace>, assSpacesT2: seq<VizSpace>)

  /** The field selection of a view, with one aggregator per measure when seeded. */
  datatype ExploreView = ExploreView(dimensions: seq<FieldId>, measures: seq<FieldId>, ops: seq<Aggregator>)

  /** The preference-panel settings. */
  datatype VisualConfig = VisualConfig(aggregator: Aggregator, defaultAggregated: bool, defaultStack: bool)

  /** Every field of the store that its methods assign. */
  datatype ExploreState = ExploreState(
    pageIndex: nat,
    spec: Option<ViewSpec>,
    specForGraphicWalker: Option<Schema>,
    details: seq<InsightSpace>,
    assoListT1: seq<VizSpace>,
    assoListT2: seq<VizSpace>,
    showAsso: bool,
    showPreferencePannel: bool,
    visualConfig: VisualConfig,
    forkView: Option<ExploreView>,
    view: Option<ExploreView>,
    forkViewSpec: Option<ViewSpec>)

  /** The pipeline store's `specify`: absent when no valid schema can be derived. */
  type Specifier = InsightSpace -> Option<ViewSpec>

  /** The state a fresh store starts in. */
  function Initial(): ExploreState {
    ExploreState(0, None, None, [], [], [], false, false,
                 VisualConfig(Sum, true, true), None, None, None)
  }

  // ---------------------------------------------------------------------------
  // The view-change transaction
  // ---------------------------------------------------------------------------

  /** True when the schema's geometry types include "point". */
  predicate HasPointGeom(schema: Schema) {
    schema.geomType.Some? && "point" in schema.geomType.value
  }

  /**
   * The view seeded from an insight space: its dimensions and measures, and a
   * `Sum` aggregator for every measure. As a value it shares nothing with the
   * insight space or with any other seeded view; this takes the copies of the
   * field arrays made on assignment to the store to be real copies.
   */
  function Seed(iSpace: InsightSpace): (v: ExploreView)
    ensures v.dimensions == iSpace.dimensions && v.measures == iSpace.measures
    ensures |v.ops| == |v.measures|
    ensures forall k :: 0 <= k < |v.ops| ==> v.ops[k] == Sum
  {
    ExploreView(iSpace.dimensions, iSpace.measures, seq(|iSpace.measures|, _ => Sum))
  }

  /**
   * emitViewChangeTransaction(index): when `index` lies inside the insight
   * spaces and `specify` yields a spec for that space, everything is committed
   * in one step; otherwise nothing changes at all.
   */
  function ViewChange(s: ExploreState, spaces: seq<InsightSpace>, index: nat, specify: Specifier): (r: ExploreState)
    ensures index >= |spaces| || specify(spaces[index]).None? ==> r == s
    ensures index < |spaces| && specify(spaces[index]).Some? ==>
      && r.spec == specify(spaces[index])
      && r.pageIndex == index
      && r.details == [] && !r.showAsso && r.assoListT1 == [] && r.assoListT2 == []
      && r.forkView == Some(Seed(spaces[index])) && r.view == Some(Seed(spaces[index]))
      && (r.visualConfig.defaultAggregated <==> !HasPointGeom(specify(spaces[index]).value.schema))
      && r.visualConfig.aggregator == s.visualConfig.aggregator
      && r.visualConfig.defaultStack == s.visualConfig.defaultStack
      && r.showPreferencePannel == s.showPreferencePannel
      && r.specForGraphicWalker == s.specForGraphicWalker
      && r.forkViewSpec == s.forkViewSpec
  {
    if index < |spaces| then
      var iSpace := spaces[index];
      match specify(iSpace)
      case None => s
      case Some(spec) =>
        var agg := !HasPointGeom(spec.schema);
        s.(spec := Some(spec),
           visualConfig := s.visualConfig.(defaultAggregated := agg),
           pageIndex := index,
           details := [],
           showAsso := false,
           assoListT1 := [],
           assoListT2 := [],
           forkView := Some(Seed(iSpace)),
           view := Some(Seed(iSpace)))
    else s
  }

  // ---------------------------------------------------------------------------
  // Navigation
  // ---------------------------------------------------------------------------

  /**
   * The index goToNextView asks for: `(pageIndex + 1) % n`. On an empty sequence
   * the source computes NaN, which fails the transaction's bound check; that is
   * `None` here.
   */
  function NextTarget(pageIndex: nat, n: nat): (t: Option<nat>)
    ensures t.None? <==> n == 0
    ensures t.Some? ==> t.value < n
    ensures t.Some? && pageIndex < n ==> t.value == if pageIndex + 1 == n then 0 else pageIndex + 1
  {
    if n == 0 then None else Some((pageIndex + 1) % n)
  }

  /** The index goToLastView asks for: `(pageIndex - 1 + n) % n`, `None` when `n == 0`. */
  function LastTarget(pageIndex: nat, n: nat): (t: Option<nat>)
    ensures t.None? <==> n == 0
    ensures t.Some? ==> t.value < n
    ensures t.Some? && pageIndex < n ==> t.value == if pageIndex == 0 then n - 1 else pageIndex - 1
  {
    if n == 0 then None else Some((pageIndex - 1 + n) % n)
  }

  /** goToNextView: the transaction on the next index, wrapping to 0 after the last. */
  function GoToNext(s: ExploreState, spaces: seq<InsightSpace>, specify: Specifier): (r: ExploreState)
    ensures |spaces| == 0 ==> r == s
    ensures r == s || r.pageIndex < |spaces|
    ensures s.pageIndex < |spaces| ==>
      var t := if s.pageIndex + 1 == |spaces| then 0 else s.pageIndex + 1;
      specify(spaces[t]).Some? ==>
        r.pageIndex == t && r.spec == specify(spaces[t]) && r.view == Some(Seed(spaces[t]))
  {
    match NextTarget(s.pageIndex, |spaces|)
    case None => s
    case Some(t) => ViewChange(s, spaces, t, specify)
  }

  /** goToLastView: the transaction on the previous index, wrapping to the last after 0. */
  function GoToLast(s: ExploreState, spaces: seq<InsightSpace>, specify: Specifier): (r: ExploreState)
    ensures |spaces| == 0 ==> r == s
    ensures r == s || r.pageIndex < |spaces|
    ensures s.pageIndex < |spaces| ==>
      var t := if s.pageIndex == 0 then |spaces| - 1 else s.pageIndex - 1;
      specify(spaces[t]).Some? ==>
        r.pageIndex == t && r.spec == specify(spaces[t]) && r.view == Some(Seed(spaces[t]))
  {
    match LastTarget(s.pageIndex, |spaces|)
    case None => s
    case Some(t) => ViewChange(s, spaces, t, specify)
  }

  /** Both wrap-around targets undo each other on a valid page index. */
  lemma TargetsUndoEachOther(pageIndex: nat, n: nat)
    requires pageIndex < n
    ensures LastTarget(NextTarget(pageIndex, n).value, n) == Some(pageIndex)
    ensures NextTarget(LastTarget(pageIndex, n).value, n) == Some(pageIndex)
  {
  }

  /**
   * When `specify` gives nothing for any insight space, neither navigation
   * changes anything, whatever the page.
   */
  lemma UnspecifiableSpacesBlockNavigation(s: ExploreState, spaces: seq<InsightSpace>, specify: Specifier)
    ensures (forall k :: 0 <= k < |spaces| ==> specify(spaces[k]).None?) ==>
      GoToNext(s, spaces, specify) == s && GoToLast(s, spaces, specify) == s
  {
  }

  /**
   * When every insight space can be specified, going forward and then back (or
   * back and then forward) returns to the same page, shows the same spec and
   * reseeds the same view.
   */
  lemma {:induction false} NextThenLastReturns(s: ExploreState, spaces: seq<InsightSpace>, specify: Specifier)
    requires s.pageIndex < |spaces|
    requires forall k :: 0 <= k < |spaces| ==> specify(spaces[k]).Some?
    ensures GoToLast(GoToNext(s, spaces, specify), spaces, specify).pageIndex == s.pageIndex
    ensures GoToNext(GoToLast(s, spaces, specify), spaces, specify).pageIndex == s.pageIndex
    ensures GoToLast(GoToNext(s, spaces, specify), spaces, specify).spec == specify(spaces[s.pageIndex])
    ensures GoToLast(GoToNext(s, spaces, specify), spaces, specify).view == Some(Seed(spaces[s.pageIndex]))
    ensures GoToNext(GoToLast(s, spaces, specify), spaces, specify).spec == specify(spaces[s.pageIndex])
    ensures GoToNext(GoToLast(s, spaces, specify), spaces, specify).view == Some(Seed(spaces[s.pageIndex]))
  {
    var n := |spaces|;
    TargetsUndoEachOther(s.pageIndex, n);
    var t := NextTarget(s.pageIndex, n).value;
    assert GoToNext(s, spaces, specify).pageIndex == t;
    var u := LastTarget(s.pageIndex, n).value;
    assert GoToLast(s, spaces, specify).pageIndex == u;
  }

  // ---------------------------------------------------------------------------
  // jumpToView
  // ---------------------------------------------------------------------------

  /** The elements of a field list, ignoring order and repetition. */
  function FieldSet(fields: seq<FieldId>): set<FieldId> {
    set f | f in fields
  }

  /** The match jumpToView looks for: equal dimension sets and equal measure sets. */
  predicate SameFieldSets(viz: VizSpace, iSpace: InsightSpace) {
    FieldSet(viz.space.dimensions) == FieldSet(iSpace.dimensions)
    && FieldSet(viz.space.measures) == FieldSet(iSpace.measures)
  }

  /** The first index at or after `from` whose insight space matches `viz`. */
  function FirstMatchFrom(spaces: seq<InsightSpace>, viz: VizSpace, from: nat): (r: Option<nat>)
    requires from <= |spaces|
    ensures r.Some? ==> from <= r.value < |spaces| && SameFieldSets(viz, spaces[r.value])
    ensures r.Some? ==> forall j :: from <= j < r.value ==> !SameFieldSets(viz, spaces[j])
    ensures r.None? ==> forall j :: from <= j < |spaces| ==> !SameFieldSets(viz, spaces[j])
    decreases |spaces| - from
  {
    if from == |spaces| then None
    else if SameFieldSets(viz, spaces[from]) then Some(from)
    else FirstMatchFrom(spaces, viz, from + 1)
  }

  /** jumpToView: the transaction on the first matching index; no match changes nothing. */
  function JumpTo(s: ExploreState, spaces: seq<InsightSpace>, viz: VizSpace, specify: Specifier): (r: ExploreState)
    ensures (forall k :: 0 <= k < |spaces| ==> !SameFieldSets(viz, spaces[k])) ==> r == s
    ensures r == s || (r.pageIndex < |spaces| && SameFieldSets(viz, spaces[r.pageIndex])
                       && r.spec == specify(spaces[r.pageIndex]))
  {
    match FirstMatchFrom(spaces, viz, 0)
    case None => s
    case Some(k) => ViewChange(s, spaces, k, specify)
  }

  /**
   * Matching ignores the order (and repetition) of the fields: two candidates
   * with the same field sets jump to the same place.
   */
  lemma {:induction false} JumpIgnoresFieldOrder(s: ExploreState, spaces: seq<InsightSpace>, viz1: VizSpace, viz2: VizSpace, specify: Specifier)
    requires FieldSet(viz1.space.dimensions) == FieldSet(viz2.space.dimensions)
    requires FieldSet(viz1.space.measures) == FieldSet(viz2.space.measures)
    ensures JumpTo(s, spaces, viz1, specify) == JumpTo(s, spaces, viz2, specify)
  {
    SameFirstMatch(spaces, viz1, viz2, 0);
  }

  lemma {:induction false} SameFirstMatch(spaces: seq<InsightSpace>, viz1: VizSpace, viz2: VizSpace, from: nat)
    requires from <= |spaces|
    requires FieldSet(viz1.space.dimensions) == FieldSet(viz2.space.dimensions)
    requires FieldSet(viz1.space.measures) == FieldSet(viz2.space.measures)
    ensures FirstMatchFrom(spaces, viz1, from) == FirstMatchFrom(spaces, viz2, from)
    decreases |spaces| - from
  {
    if from < |spaces| {
      SameFirstMatch(spaces, viz1, viz2, from + 1);
    }
  }

  /**
   * A candidate whose field sets equal those of insight space `k`, where no
   * earlier space matches, lands on page `k` once `specify` succeeds; with no
   * match anywhere the state is unchanged.
   */
  lemma JumpFindsFirstMatch(s: ExploreState, spaces: seq<InsightSpace>, viz: VizSpace, k: nat, specify: Specifier)
    requires k < |spaces| && SameFieldSets(viz, spaces[k])
    requires forall j :: 0 <= j < k ==> !SameFieldSets(viz, spaces[j])
    requires specify(spaces[k]).Some?
    ensures JumpTo(s, spaces, viz, specify).pageIndex == k
    ensures JumpTo(s, spaces, viz, specify).spec == specify(spaces[k])
  {
  }

  // ---------------------------------------------------------------------------
  // The fork view
  // ---------------------------------------------------------------------------

  /** `view[analyticType]`. */
  function RoleList(v: ExploreView, role: AnalyticType): seq<FieldId> {
    match role
    case Dimensions => v.dimensions
    case Measures => v.measures
  }

  /** `view` with the list of `role` replaced and everything else kept. */
  function WithRoleList(v: ExploreView, role: AnalyticType, fields: seq<FieldId>): (w: ExploreView)
    ensures RoleList(w, role) == fields
    ensures RoleList(w, Other(role)) == RoleList(v, Other(role))
    ensures w.ops == v.ops
  {
    match role
    case Dimensions => v.(dimensions := fields)
    case Measures => v.(measures := fields)
  }

  /** The role that is not `role`. */
  function Other(role: AnalyticType): AnalyticType {
    match role
    case Dimensions => Measures
    case Measures => Dimensions
  }

  /** `findIndex(f => f === fid)`: the first position of `fid`, or -1. */
  function FindIndex(fields: seq<FieldId>, fid: FieldId): (i: int)
    ensures i == -1 <==> fid !in fields
    ensures i != -1 ==> 0 <= i < |fields| && fields[i] == fid && fid !in fields[..i]
  {
    if fields == [] then -1
    else if fields[0] == fid then 0
    else
      var i := FindIndex(fields[1..], fid);
      assert fields == [fields[0]] + fields[1..];
      if i == -1 then -1
      else
        assert fields[..i + 1] == [fields[0]] + fields[1..][..i];
        i + 1
  }

  /** The list after `splice(findIndex(fid), 1)` when `fid` is present; unchanged otherwise. */
  function RemoveFirst(fields: seq<FieldId>, fid: FieldId): (r: seq<FieldId>)
    ensures fid !in fields ==> r == fields
    ensures fid in fields ==> |r| == |fields| - 1
    ensures forall x :: x in r ==> x in fields
  {
    var i := FindIndex(fields, fid);
    if i == -1 then fields else RemoveAt(fields, i)
  }

  /** `splice(i, 1)`: the list without its element at `i`, the rest in order. */
  function RemoveAt(fields: seq<FieldId>, i: nat): (r: seq<FieldId>)
    requires i < |fields|
    ensures |r| == |fields| - 1
    ensures forall k :: 0 <= k < i ==> r[k] == fields[k]
    ensures forall k :: i <= k < |r| ==> r[k] == fields[k + 1]
  {
    fields[..i] + fields[i + 1..]
  }

  /** Removal takes away exactly one copy of `fid` when there is one, and nothing else. */
  lemma RemoveFirstTakesOneCopy(fields: seq<FieldId>, fid: FieldId)
    ensures multiset(RemoveFirst(fields, fid)) == multiset(fields) - multiset{fid}
    ensures fid !in fields ==> RemoveFirst(fields, fid) == fields
  {
    var i := FindIndex(fields, fid);
    if i != -1 {
      RemoveAtMultiset(fields, i);
    }
  }

  lemma RemoveAtMultiset(fields: seq<FieldId>, i: nat)
    requires i < |fields|
    ensures multiset(RemoveAt(fields, i)) + multiset{fields[i]} == multiset(fields)
  {
    var before, after := fields[..i], fields[i + 1..];
    assert RemoveAt(fields, i) == before + after;
    assert fields == before + [fields[i]] + after;
    MultisetWithout(before, fields[i], after);
  }

  lemma MultisetWithout(before: seq<FieldId>, x: FieldId, after: seq<FieldId>)
    ensures multiset(before + [x] + after) == multiset(before + after) + multiset{x}
  {
    calc {
      multiset(before + [x] + after);
      multiset(before + [x]) + multiset(after);
      multiset(before) + multiset{x} + multiset(after);
      multiset(before) + multiset(after) + multiset{x};
      multiset(before + after) + multiset{x};
    }
  }

  /** No field occurs twice in the list. */
  predicate NoDuplicates(fields: seq<FieldId>) {
    forall i, j :: 0 <= i < j < |fields| ==> fields[i] != fields[j]
  }

  /** Removing from a list without duplicates leaves no copy of `fid` and no duplicates. */
  lemma RemoveFirstKeepsNoDuplicates(fields: seq<FieldId>, fid: FieldId)
    requires NoDuplicates(fields)
    ensures NoDuplicates(RemoveFirst(fields, fid))
    ensures fid !in RemoveFirst(fields, fid)
  {
    var i := FindIndex(fields, fid);
    if i != -1 {
      var r := RemoveAt(fields, i);
      forall a, b | 0 <= a < b < |r|
        ensures r[a] != r[b]
      {
        var a' := if a < i then a else a + 1;
        var b' := if b < i then b else b + 1;
        assert r[a] == fields[a'] && r[b] == fields[b'];
      }
      forall k | 0 <= k < |r|
        ensures r[k] != fid
      {
        var k' := if k < i then k else k + 1;
        assert r[k] == fields[k'];
      }
    }
  }

  /** Appending a field that is absent and then removing it gives back the list. */
  lemma AppendThenRemoveFirst(fields: seq<FieldId>, fid: FieldId)
    requires fid !in fields
    ensures RemoveFirst(fields + [fid], fid) == fields
  {
    var i := FindIndex(fields + [fid], fid);
    assert forall k :: 0 <= k < |fields| ==> (fields + [fid])[k] != fid;
    assert i == |fields|;
    assert (fields + [fid])[..|fields|] == fields;
  }

  /** The request `specifyForkView` sends: a copy of the fork view's lists with significance 1. */
  function ForkQuery(fork: ExploreView): InsightSpace {
    InsightSpace(fork.dimensions, fork.measures, 1.0)
  }

  /**
   * specifyForkView: with a fork view, asks `specify` for its current fields and
   * replaces `forkViewSpec` only on a result; an absent result keeps the old
   * spec. Nothing else changes.
   */
  function RespecifiedFork(s: ExploreState, specify: Specifier): (r: ExploreState)
    ensures r.(forkViewSpec := s.forkViewSpec) == s
    ensures s.forkView.Some? && specify(ForkQuery(s.forkView.value)).Some? ==>
      r.forkViewSpec == specify(ForkQuery(s.forkView.value))
    ensures s.forkView.None? || specify(ForkQuery(s.forkView.value)).None? ==> r == s
  {
    match s.forkView
    case None => s
    case Some(fork) =>
      match specify(ForkQuery(fork))
      case None => s
      case Some(spec) => s.(forkViewSpec := Some(spec))
  }

  /**
   * addFieldToForkView: appends `fid` to the role's list only when it is not
   * there yet and only then re-specifies the fork view. The other list, the ops,
   * the view, the spec and the page are left alone; without a fork view nothing
   * happens.
   */
  function AddField(s: ExploreState, role: AnalyticType, fid: FieldId, specify: Specifier): (r: ExploreState)
    ensures r.(forkView := s.forkView, forkViewSpec := s.forkViewSpec) == s
    ensures s.forkView.None? || fid in RoleList(s.forkView.value, role) ==> r == s
    ensures s.forkView.Some? && fid !in RoleList(s.forkView.value, role) ==>
      && r.forkView.Some?
      && RoleList(r.forkView.value, role) == RoleList(s.forkView.value, role) + [fid]
      && RoleList(r.forkView.value, Other(role)) == RoleList(s.forkView.value, Other(role))
      && r.forkView.value.ops == s.forkView.value.ops
      && r == RespecifiedFork(s.(forkView := r.forkView), specify)
  {
    match s.forkView
    case None => s
    case Some(fork) =>
      var fields := RoleList(fork, role);
      if fid in fields then s
      else RespecifiedFork(s.(forkView := Some(WithRoleList(fork, role, fields + [fid]))), specify)
  }

  /**
   * removeFieldFromForkView: deletes the first occurrence of `fid` from the
   * role's list (the list is kept when `fid` is absent) and re-specifies the
   * fork view in every case where a fork view exists.
   */
  function RemoveField(s: ExploreState, role: AnalyticType, fid: FieldId, specify: Specifier): (r: ExploreState)
    ensures r.(forkView := s.forkView, forkViewSpec := s.forkViewSpec) == s
    ensures s.forkView.None? ==> r == s
    ensures s.forkView.Some? ==>
      && r.forkView.Some?
      && RoleList(r.forkView.value, role) == RemoveFirst(RoleList(s.forkView.value, role), fid)
      && RoleList(r.forkView.value, Other(role)) == RoleList(s.forkView.value, Other(role))
      && r.forkView.value.ops == s.forkView.value.ops
      && r == RespecifiedFork(s.(forkView := r.forkView), specify)
  {
    match s.forkView
    case None => s
    case Some(fork) =>
      RespecifiedFork(s.(forkView := Some(WithRoleList(fork, role, RemoveFirst(RoleList(fork, role), fid)))), specify)
  }

  /** Adding the same field twice has the effect of adding it once. */
  lemma AddFieldIdempotent(s: ExploreState, role: AnalyticType, fid: FieldId, specify: Specifier)
    ensures AddField(AddField(s, role, fid, specify), role, fid, specify) == AddField(s, role, fid, specify)
  {
  }

  /** Adding a field that is absent and then removing it restores the fork view's lists. */
  lemma AddThenRemoveRestoresForkView(s: ExploreState, role: AnalyticType, fid: FieldId, specify: Specifier)
    requires s.forkView.Some? && fid !in RoleList(s.forkView.value, role)
    ensures RemoveField(AddField(s, role, fid, specify), role, fid, specify).forkView == s.forkView
  {
    var fork := s.forkView.value;
    AppendThenRemoveFirst(RoleList(fork, role), fid);
    var after := RemoveField(AddField(s, role, fid, specify), role, fid, specify).forkView.value;
    assert RoleList(after, role) == RoleList(fork, role);
    assert RoleList(after, Other(role)) == RoleList(fork, Other(role));
    match role
    case Dimensions => assert after == fork;
    case Measures => assert after == fork;
  }

  /**
   * Removing an absent field leaves the fork view's lists as they were, yet the
   * fork view is still re-specified.
   */
  lemma RemoveAbsentStillRespecifies(s: ExploreState, role: AnalyticType, fid: FieldId, specify: Specifier)
    requires s.forkView.Some? && fid !in RoleList(s.forkView.value, role)
    ensures RemoveField(s, role, fid, specify) == RespecifiedFork(s, specify)
  {
    RemoveFirstTakesOneCopy(RoleList(s.forkView.value, role), fid);
    var fork := s.forkView.value;
    match role
    case Dimensions => assert WithRoleList(fork, role, RoleList(fork, role)) == fork;
    case Measures => assert WithRoleList(fork, role, RoleList(fork, role)) == fork;
  }

  // ---------------------------------------------------------------------------
  // Details, associations, flags
  // ---------------------------------------------------------------------------

  /** scanDetails: replaces the details with what the pipeline store returned. */
  function WithDetails(s: ExploreState, result: seq<InsightSpace>): (r: ExploreState)
    ensures r.details == result
    ensures r.(details := s.details) == s
  {
    s.(details := result)
  }

  /**
   * getAssociatedViews: asks for the associations of the current page and sets
   * both lists and the flag in one update.
   */
  function WithAssociations(s: ExploreState, associated: nat -> Associations): (r: ExploreState)
    ensures r.assoListT1 == associated(s.pageIndex).assSpacesT1
    ensures r.assoListT2 == associated(s.pageIndex).assSpacesT2
    ensures r.showAsso
    ensures r.(assoListT1 := s.assoListT1, assoListT2 := s.assoListT2, showAsso := s.showAsso) == s
  {
    var asso := associated(s.pageIndex);
    s.(assoListT1 := asso.assSpacesT1, assoListT2 := asso.assSpacesT2, showAsso := true)
  }

  /** bringToGrphicWalker: hands the current schema over when there is a spec. */
  function HandedToGraphicWalker(s: ExploreState): (r: ExploreState)
    ensures s.spec.Some? ==> r.specForGraphicWalker == Some(s.spec.value.schema)
    ensures s.spec.None? ==> r == s
    ensures r.(specForGraphicWalker := s.specForGraphicWalker) == s
  {
    match s.spec
    case None => s
    case Some(spec) => s.(specForGraphicWalker := Some(spec.schema))
  }

  // ---------------------------------------------------------------------------
  // Store-wide invariants
  // ---------------------------------------------------------------------------

  /** Every operation of the store, with the oracle result it receives. */
  datatype Action =
    | EmitViewChange(index: nat)
    | Next
    | Last
    | Jump(viz: VizSpace)
    | AddFieldTo(role: AnalyticType, fid: FieldId)
    | RemoveFieldFrom(role: AnalyticType, fid: FieldId)
    | RespecifyFork
    | ScanDetailsResult(result: seq<InsightSpace>)
    | AssociatedResult(asso: Associations)
    | ToGraphicWalker
    | SetAggState(aggState: bool)
    | SetShowPreferencePannel(show: bool)
    | SetVisualConfig(config: VisualConfig)

  /** One operation applied to the state, with the insight spaces and `specify` fixed. */
  function Step(s: ExploreState, spaces: seq<InsightSpace>, specify: Specifier, a: Action): (r: ExploreState)
    ensures !(a.EmitViewChange? || a.Next? || a.Last? || a.Jump?) ==>
      r.pageIndex == s.pageIndex && r.spec == s.spec && r.view == s.view
    ensures a.SetAggState? || a.SetVisualConfig? || a.EmitViewChange? || a.Next? || a.Last? || a.Jump? ||
      r.visualConfig == s.visualConfig
    ensures a.SetAggState? ==> r.visualConfig.defaultAggregated == a.aggState
    ensures a.SetVisualConfig? ==> r.visualConfig == a.config
    ensures a.SetShowPreferencePannel? ==> r.showPreferencePannel == a.show
  {
    match a
    case EmitViewChange(index) => ViewChange(s, spaces, index, specify)
    case Next => GoToNext(s, spaces, specify)
    case Last => GoToLast(s, spaces, specify)
    case Jump(viz) => JumpTo(s, spaces, viz, specify)
    case AddFieldTo(role, fid) => AddField(s, role, fid, specify)
    case RemoveFieldFrom(role, fid) => RemoveField(s, role, fid, specify)
    case RespecifyFork => RespecifiedFork(s, specify)
    case ScanDetailsResult(result) => WithDetails(s, result)
    case AssociatedResult(asso) => WithAssociations(s, _ => asso)
    case ToGraphicWalker => HandedToGraphicWalker(s)
    case SetAggState(b) => s.(visualConfig := s.visualConfig.(defaultAggregated := b))
    case SetShowPreferencePannel(b) => s.(showPreferencePannel := b)
    case SetVisualConfig(c) => s.(visualConfig := c)
  }

  /** A sequence of operations applied in order. */
  function Run(s: ExploreState, spaces: seq<InsightSpace>, specify: Specifier, actions: seq<Action>): ExploreState
    decreases |actions|
  {
    if actions == [] then s
    else Run(Step(s, spaces, specify, actions[0]), spaces, specify, actions[1..])
  }

  /** Insight spaces whose role lists hold no field twice. */
  predicate DuplicateFreeSpaces(spaces: seq<InsightSpace>) {
    forall k :: 0 <= k < |spaces| ==> NoDuplicates(spaces[k].dimensions) && NoDuplicates(spaces[k].measures)
  }

  /**
   * The consistency the store keeps for fixed insight spaces: on a non-empty
   * sequence the page index is valid; a current spec is the one `specify` gives
   * for the current page (so there is none on an empty sequence) and `view` is
   * that page's seed; and the fork view never holds a field twice in a role.
   */
  predicate Consistent(s: ExploreState, spaces: seq<InsightSpace>, specify: Specifier) {
    && (|spaces| > 0 ==> s.pageIndex < |spaces|)
    && (s.spec.Some? ==>
          s.pageIndex < |spaces|
          && s.spec == specify(spaces[s.pageIndex])
          && s.view == Some(Seed(spaces[s.pageIndex])))
    && (s.forkView.Some? ==> NoDuplicates(s.forkView.value.dimensions) && NoDuplicates(s.forkView.value.measures))
  }

  /** A fresh store is consistent with any insight spaces. */
  lemma InitialConsistent(spaces: seq<InsightSpace>, specify: Specifier)
    ensures Consistent(Initial(), spaces, specify)
  {
  }

  /** Appending an absent field keeps a list free of duplicates. */
  lemma AppendAbsentKeepsNoDuplicates(fields: seq<FieldId>, fid: FieldId)
    requires NoDuplicates(fields) && fid !in fields
    ensures NoDuplicates(fields + [fid])
  {
  }

  /** Every single operation keeps the store consistent. */
  lemma StepKeepsConsistent(s: ExploreState, spaces: seq<InsightSpace>, specify: Specifier, a: Action)
    requires DuplicateFreeSpaces(spaces)
    requires Consistent(s, spaces, specify)
    ensures Consistent(Step(s, spaces, specify, a), spaces, specify)
  {
    match a
    case AddFieldTo(role, fid) =>
      if s.forkView.Some? && fid !in RoleList(s.forkView.value, role) {
        AppendAbsentKeepsNoDuplicates(RoleList(s.forkView.value, role), fid);
      }
    case RemoveFieldFrom(role, fid) =>
      if s.forkView.Some? {
        RemoveFirstKeepsNoDuplicates(RoleList(s.forkView.value, role), fid);
      }
    case Jump(viz) =>
    case _ =>
  }

  /** Every state reached from a consistent one by any run of operations is consistent. */
  lemma {:induction false} RunKeepsConsistent(s: ExploreState, spaces: seq<InsightSpace>, specify: Specifier, actions: seq<Action>)
    requires DuplicateFreeSpaces(spaces)
    requires Consistent(s, spaces, specify)
    ensures Consistent(Run(s, spaces, specify, actions), spaces, specify)
    decreases |actions|
  {
    if actions != [] {
      StepKeepsConsistent(s, spaces, specify, actions[0]);
      RunKeepsConsistent(Step(s, spaces, specify, actions[0]), spaces, specify, actions[1..]);
    }
  }

  /**
   * Whenever an operation moves the page, the details and both association
   * lists are empty and the associations are hidden afterwards.
   */
  lemma PageChangeClearsAssociations(s: ExploreState, spaces: seq<InsightSpace>, specify: Specifier, a: Action)
    requires Step(s, spaces, specify, a).pageIndex != s.pageIndex
    ensures Step(s, spaces, specify, a).details == []
    ensures Step(s, spaces, specify, a).assoListT1 == [] && Step(s, spaces, specify, a).assoListT2 == []
    ensures !Step(s, spaces, specify, a).showAsso
  {
  }

  /** No operation changes the seeded `view` other than a successful page transaction. */
  lemma ForkEditsLeaveViewAlone(s: ExploreState, spaces: seq<InsightSpace>, specify: Specifier, a: Action)
    requires a.AddFieldTo? || a.RemoveFieldFrom? || a.RespecifyFork?
    ensures Step(s, spaces, specify, a).view == s.view
    ensures Step(s, spaces, specify, a).spec == s.spec
    ensures Step(s, spaces, specify, a).pageIndex == s.pageIndex
  {
  }

  // ---------------------------------------------------------------------------
  // downloadResults
  // ---------------------------------------------------------------------------

  /** The file downloadResults saves. */
  datatype Download = Download(fileName: string, content: string)

  /**
   * downloadResults: awaits the serialized pipeline results and puts the
   * serialized data store, the separator and those results into one text file
   * named `Rath_Analysis_Notebook.<suffix>`. A failed await saves nothing.
   */
  function ResultsFile(pipeContent: Option<string>, dataContent: string, splitor: string, storageFileSuffix: string): (r: Option<Download>)
    ensures pipeContent.None? <==> r.None?
    ensures r.Some? ==> r.value.fileName == "Rath_Analysis_Notebook." + storageFileSuffix
    ensures r.Some? ==> |r.value.content| == |dataContent| + |splitor| + |pipeContent.value|
    ensures r.Some? ==> r.value.content[..|dataContent|] == dataContent
    ensures r.Some? ==> r.value.content[|dataContent|..|dataContent| + |splitor|] == splitor
    ensures r.Some? ==> r.value.content[|dataContent| + |splitor|..] == pipeContent.value
  {
    match pipeContent
    case None => None
    case Some(pipe) =>
      var content := dataContent + splitor + pipe;
      assert content[..|dataContent|] == dataContent;
      assert content[|dataContent|..|dataContent| + |splitor|] == splitor;
      assert content[|dataContent| + |splitor|..] == pipe;
      Some(Download("Rath_Analysis_Notebook." + storageFileSuffix, content))
  }

  /** `sep` starts at position `i` of `s`. */
  predicate OccursAt(s: string, sep: string, i: nat) {
    i + |sep| <= |s| && s[i..i + |sep|] == sep
  }

  /** The first position at or after `from` where `sep` starts in `s`. */
  function FindFrom(s: string, sep: string, from: nat): (r: Option<nat>)
    requires from <= |s|
    ensures r.Some? ==> from <= r.value && OccursAt(s, sep, r.value)
    ensures r.Some? ==> forall j :: from <= j < r.value ==> !OccursAt(s, sep, j)
    ensures r.None? ==> forall j :: from <= j <= |s| ==> !OccursAt(s, sep, j)
    decreases |s| - from
  {
    if OccursAt(s, sep, from) then Some(from)
    else if from == |s| then None
    else FindFrom(s, sep, from + 1)
  }

  /**
   * Reading a saved payload back by cutting at the first separator recovers both
   * parts, provided the separator does not start anywhere inside the data part,
   * counting starts that run on into the separator itself.
   */
  lemma DownloadSplitsBack(pipeContent: string, dataContent: string, splitor: string, storageFileSuffix: string)
    requires forall i :: 0 <= i < |dataContent| ==> !OccursAt(dataContent + splitor, splitor, i)
    ensures ResultsFile(Some(pipeContent), dataContent, splitor, storageFileSuffix).Some?
    ensures var payload := ResultsFile(Some(pipeContent), dataContent, splitor, storageFileSuffix).value.content;
      FindFrom(payload, splitor, 0) == Some(|dataContent|)
      && payload[..|dataContent|] == dataContent
      && payload[|dataContent| + |splitor|..] == pipeContent
  {
    var head := dataContent + splitor;
    var payload := head + pipeContent;
    assert payload == ResultsFile(Some(pipeContent), dataContent, splitor, storageFileSuffix).value.content;
    forall i | 0 <= i < |dataContent|
      ensures !OccursAt(payload, splitor, i)
    {
      OccursInPrefix(head, pipeContent, splitor, i);
    }
    OccursInPrefix(head, pipeContent, splitor, |dataContent|);
    assert head[|dataContent|..] == splitor;
    FindFromFirst(payload, splitor, 0, |dataContent|);
  }

  /** An occurrence ending inside the prefix `t` of `t + u` is an occurrence in `t`. */
  lemma OccursInPrefix(t: string, u: string, sep: string, i: nat)
    requires i + |sep| <= |t|
    ensures OccursAt(t + u, sep, i) <==> OccursAt(t, sep, i)
  {
    assert (t + u)[i..i + |sep|] == t[i..i + |sep|];
  }

  /** FindFrom stops at the first occurrence at or after `from`. */
  lemma {:induction false} FindFromFirst(s: string, sep: string, from: nat, d: nat)
    requires from <= d <= |s| && OccursAt(s, sep, d)
    requires forall j :: from <= j < d ==> !OccursAt(s, sep, j)
    ensures FindFrom(s, sep, from) == Some(d)
    decreases d - from
  {
    if from < d {
      FindFromFirst(s, sep, from + 1, d);
    }
  }

  // ---------------------------------------------------------------------------
  // The store
  // ---------------------------------------------------------------------------

  /** The pipeline store, seen from the explore store: the ranked insight spaces. */
  class LTSPipeLine {
    var insightSpaces: seq<InsightSpace>

    constructor (insightSpaces: seq<InsightSpace>)
      ensures this.insightSpaces == insightSpaces
    {
      this.insightSpaces := insightSpaces;
    }
  }

  class ExploreStore {
    var pageIndex: nat
    const ltsPipeLineStore: LTSPipeLine
    var spec: Option<ViewSpec>
    var specForGraphicWalker: Option<Schema>
    var details: seq<InsightSpace>
    var assoListT1: seq<VizSpace>
    var assoListT2: seq<VizSpace>
    var showAsso: bool
    var showPreferencePannel: bool
    var visualConfig: VisualConfig
    var forkView: Option<ExploreView>
    var view: Option<ExploreView>
    var forkViewSpec: Option<ViewSpec>

    /** The store's fields as one record. */
    function State(): ExploreState
      reads this
    {
      ExploreState(pageIndex, spec, specForGraphicWalker, details, assoListT1, assoListT2,
                   showAsso, showPreferencePannel, visualConfig, forkView, view, forkViewSpec)
    }

    constructor (ltsPipeLineStore: LTSPipeLine)
      ensures State() == Initial()
      ensures this.ltsPipeLineStore == ltsPipeLineStore
    {
      pageIndex := 0;
      spec := None;
      specForGraphicWalker := None;
      details := [];
      assoListT1 := [];
      assoListT2 := [];
      showAsso := false;
      showPreferencePannel := false;
      visualConfig := VisualConfig(Sum, true, true);
      forkView := None;
      view := None;
      forkViewSpec := None;
      this.ltsPipeLineStore := ltsPipeLineStore;
    }

    method SetVisualConfig(updater: VisualConfig -> VisualConfig)
      modifies this
      ensures State() == old(State()).(visualConfig := updater(old(visualConfig)))
    {
      visualConfig := updater(visualConfig);
    }

    method JumpToView(viz: VizSpace, specify: Specifier)
      modifies this
      ensures State() == JumpTo(old(State()), ltsPipeLineStore.insightSpaces, viz, specify)
    {
      var insightSpaces := ltsPipeLineStore.insightSpaces;
      var i := 0;
      while i < |insightSpaces|
        invariant 0 <= i <= |insightSpaces|
        invariant FirstMatchFrom(insightSpaces, viz, 0) == FirstMatchFrom(insightSpaces, viz, i)
        invariant State() == old(State())
      {
        if SameFieldSets(viz, insightSpaces[i]) {
          EmitViewChangeTransaction(i, specify);
          break;
        }
        i := i + 1;
      }
    }

    method SetShowPreferencePannel(show: bool)
      modifies this
      ensures State() == old(State()).(showPreferencePannel := show)
    {
      showPreferencePannel := show;
    }

    method SpecifyForkView(specify: Specifier)
      modifies this
      ensures State() == RespecifiedFork(old(State()), specify)
    {
      if forkView.Some? {
        var spec := specify(InsightSpace(forkView.value.dimensions, forkView.value.measures, 1.0));
        if spec.Some? {
          forkViewSpec := spec;
        }
      }
    }

    method GoToLastView(specify: Specifier)
      modifies this
      ensures State() == GoToLast(old(State()), ltsPipeLineStore.insightSpaces, specify)
    {
      var n := |ltsPipeLineStore.insightSpaces|;
      if n != 0 {
        EmitViewChangeTransaction((pageIndex - 1 + n) % n, specify);
      }
    }

    method GoToNextView(specify: Specifier)
      modifies this
      ensures State() == GoToNext(old(State()), ltsPipeLineStore.insightSpaces, specify)
    {
      var n := |ltsPipeLineStore.insightSpaces|;
      if n != 0 {
        EmitViewChangeTransaction((pageIndex + 1) % n, specify);
      }
    }

    method EmitViewChangeTransaction(index: nat, specify: Specifier)
      modifies this
      ensures State() == ViewChange(old(State()), ltsPipeLineStore.insightSpaces, index, specify)
    {
      if |ltsPipeLineStore.insightSpaces| > index {
        var iSpace := ltsPipeLineStore.insightSpaces[index];
        var result := specify(iSpace);
        if result.Some? {
          var agg := !HasPointGeom(result.value.schema);
          spec := result;
          visualConfig := visualConfig.(defaultAggregated := agg);
          pageIndex := index;
          details := [];
          showAsso := false;
          assoListT1 := [];
          assoListT2 := [];
          forkView := Some(Seed(iSpace));
          view := Some(Seed(iSpace));
        }
      }
    }

    method SetAggState(aggState: bool)
      modifies this
      ensures State() == old(State()).(visualConfig := old(visualConfig).(defaultAggregated := aggState))
    {
      visualConfig := visualConfig.(defaultAggregated := aggState);
    }

    method AddFieldToForkView(analyticType: AnalyticType, fid: FieldId, specify: Specifier)
      modifies this
      ensures State() == AddField(old(State()), analyticType, fid, specify)
    {
      if forkView.Some? {
        var fork := forkView.value;
        if fid !in RoleList(fork, analyticType) {
          forkView := Some(WithRoleList(fork, analyticType, RoleList(fork, analyticType) + [fid]));
          SpecifyForkView(specify);
        }
      }
    }

    method RemoveFieldFromForkView(analyticType: AnalyticType, fid: FieldId, specify: Specifier)
      modifies this
      ensures State() == RemoveField(old(State()), analyticType, fid, specify)
    {
      if forkView.Some? {
        var fork := forkView.value;
        var fields := RoleList(fork, analyticType);
        var index := FindIndex(fields, fid);
        if index != -1 {
          forkView := Some(WithRoleList(fork, analyticType, RemoveAt(fields, index)));
        }
        SpecifyForkView(specify);
      }
    }

    method ScanDetails(spaceIndex: nat, scanDetails: nat -> seq<InsightSpace>)
      modifies this
      ensures State() == WithDetails(old(State()), scanDetails(spaceIndex))
    {
      details := scanDetails(spaceIndex);
    }

    /** The download payload from the pipeline store's serialized results and data store. */
    method DownloadResults(pipeContent: Option<string>, dataContent: string, splitor: string, storageFileSuffix: string)
      returns (file: Option<Download>)
      ensures file == ResultsFile(pipeContent, dataContent, splitor, storageFileSuffix)
    {
      if pipeContent.None? {
        return None;
      }
      file := Some(Download("Rath_Analysis_Notebook." + storageFileSuffix, dataContent + splitor + pipeContent.value));
    }

    method GetAssociatedViews(associated: nat -> Associations)
      modifies this
      ensures State() == WithAssociations(old(State()), associated)
    {
      var asso := associated(pageIndex);
      assoListT1 := asso.assSpacesT1;
      assoListT2 := asso.assSpacesT2;
      showAsso := true;
    }

    method BringToGraphicWalker()
      modifies this
      ensures State() == HandedToGraphicWalker(old(State()))
    {
      if spec.Some? {
        specForGraphicWalker := Some(spec.value.schema);
      }
    }
  }
}
