/** What `pack` guarantees, proved about its specification `PackSpec`, which the `Pack` method
    implements exactly. */
module PackProperties {
  import opened Results
  import opened ArrayUtils
  import opened Json
  import opened Api
  import opened ResourceWrapper

  /** Packing one record on its own: the record `pack` outputs for it. */
  function PackRecord(refs: seq<RefDef>, rec: Record, api: JSONApi): Result<Value, PackError>
  {
    match ApplyRefs(refs, 0, RecordState(rec, None, None), api)
    case Failure(e) => Failure(e)
    case Success(st) => Success(Finish(st))
  }

  /** No two definitions name the same property. */
  predicate DistinctRefs(refs: seq<RefDef>)
  {
    forall i, j :: 0 <= i < j < |refs| ==> refs[i].ref != refs[j].ref
  }

  /** The properties of `rec` that some definition names. */
  function Present(refs: seq<RefDef>, rec: Record): set<string>
  {
    set j | 0 <= j < |refs| && refs[j].ref in rec :: refs[j].ref
  }

  // ---------------------------------------------------------------------------------------
  // One record at a time

  /** The record and its links do not depend on what `linked` held before. */
  lemma {:induction false} ApplyRefsIgnoresLinked(refs: seq<RefDef>, i: nat, item: Record, links: Option<Record>,
                                                  l1: Option<Linked>, l2: Option<Linked>, api: JSONApi)
    requires i <= |refs|
    ensures var a := ApplyRefs(refs, i, RecordState(item, links, l1), api);
            var b := ApplyRefs(refs, i, RecordState(item, links, l2), api);
            && (a.Success? <==> b.Success?)
            && (a.Failure? ==> a.error == b.error)
            && (a.Success? ==> a.value.item == b.value.item && a.value.links == b.value.links)
    decreases |refs| - i
  {
    if i < |refs| {
      var d := refs[i];
      if d.ref !in item {
        ApplyRefsIgnoresLinked(refs, i + 1, item, links, l1, l2, api);
      } else if !(d.toMany && !item[d.ref].Arr?) {
        var built := BuildLinks(GetOr(links, map[]), item, d, api);
        if built.Success? {
          ApplyRefsIgnoresLinked(refs, i + 1, item - {d.ref}, Some(built.value),
                                 Some(BuildLinked(GetOr(l1, map[]), d.res.resourceType, item[d.ref])),
                                 Some(BuildLinked(GetOr(l2, map[]), d.res.resourceType, item[d.ref])), api);
        }
      }
    }
  }

  /** The outer loop from record `k` on outputs, after `result`, exactly the records packed one
      by one, and fails with the error of the first record that fails on its own. */
  lemma {:induction false} PackFromPerRecord(refs: seq<RefDef>, records: seq<Value>, k: nat, result: seq<Value>,
                                             linked: Option<Linked>, api: JSONApi)
    requires k <= |records| && AllObjects(records)
    ensures var p := PackFrom(refs, records, k, result, linked, api);
            && (p.Success? <==> forall j :: k <= j < |records| ==> PackRecord(refs, records[j].fields, api).Success?)
            && (p.Success? ==>
                  && |p.value.0| == |result| + |records| - k
                  && p.value.0[..|result|] == result
                  && forall j :: k <= j < |records| ==>
                       p.value.0[|result| + j - k] == PackRecord(refs, records[j].fields, api).value)
            && (p.Failure? ==>
                  exists j :: k <= j < |records| && PackRecord(refs, records[j].fields, api) == Failure(p.error)
                              && forall j' :: k <= j' < j ==> PackRecord(refs, records[j'].fields, api).Success?)
    decreases |records| - k
  {
    if k < |records| {
      var a := ApplyRefs(refs, 0, RecordState(records[k].fields, None, linked), api);
      ApplyRefsIgnoresLinked(refs, 0, records[k].fields, None, linked, None, api);
      if a.Success? {
        var result' := result + [Finish(a.value)];
        PackFromPerRecord(refs, records, k + 1, result', a.value.linked, api);
        var p := PackFrom(refs, records, k + 1, result', a.value.linked, api);
        if p.Success? {
          assert p.value.0[..|result|] == p.value.0[..|result'|][..|result|];
        } else {
          var j :| k + 1 <= j < |records| && PackRecord(refs, records[j].fields, api) == Failure(p.error)
                   && forall j' :: k + 1 <= j' < j ==> PackRecord(refs, records[j'].fields, api).Success?;
          assert forall j' :: k <= j' < j ==> PackRecord(refs, records[j'].fields, api).Success?;
        }
      }
    }
  }

  /** `pack` succeeds exactly when every record packs on its own, and then outputs under its
      type one record per input record, in input order, each the record packed on its own; it
      otherwise fails with the error of the first failing record. A bare record counts as a
      one-element list. */
  lemma PackPerRecord(resourceType: string, api: JSONApi, refs: seq<RefDef>, data: Value)
    requires Packable(data) && resourceType != "linked" && resourceType != "links"
    ensures data.Obj? ==> Records(data) == [data]
    ensures var recs, p := Records(data), PackSpec(resourceType, api, refs, data);
            && (p.Success? <==> forall k :: 0 <= k < |recs| ==> PackRecord(refs, recs[k].fields, api).Success?)
            && (p.Success? ==>
                  && resourceType in p.value && p.value[resourceType].Arr?
                  && |p.value[resourceType].items| == |recs|
                  && forall k :: 0 <= k < |recs| ==>
                       p.value[resourceType].items[k] == PackRecord(refs, recs[k].fields, api).value)
            && (p.Failure? ==>
                  exists k :: 0 <= k < |recs| && PackRecord(refs, recs[k].fields, api) == Failure(p.error)
                              && forall j :: 0 <= j < k ==> PackRecord(refs, recs[j].fields, api).Success?)
  {
    PackFromAll(refs, Records(data), api);
    RecordsOfEnvelope(resourceType, api, refs, data);
  }

  /** The outer loop run from its start over all records. */
  lemma PackFromAll(refs: seq<RefDef>, records: seq<Value>, api: JSONApi)
    requires AllObjects(records)
    ensures var p := PackFrom(refs, records, 0, [], None, api);
            && (p.Success? <==> forall k :: 0 <= k < |records| ==> PackRecord(refs, records[k].fields, api).Success?)
            && (p.Success? ==>
                  && |p.value.0| == |records|
                  && forall k :: 0 <= k < |records| ==> p.value.0[k] == PackRecord(refs, records[k].fields, api).value)
            && (p.Failure? ==>
                  exists k :: 0 <= k < |records| && PackRecord(refs, records[k].fields, api) == Failure(p.error)
                              && forall j :: 0 <= j < k ==> PackRecord(refs, records[j].fields, api).Success?)
  {
    PackFromPerRecord(refs, records, 0, [], None, api);
    var p := PackFrom(refs, records, 0, [], None, api);
    if p.Success? {
      forall k | 0 <= k < |records|
        ensures p.value.0[k] == PackRecord(refs, records[k].fields, api).value
      {
        var none: seq<Value> := [];
        assert |none| + k - 0 == k;
      }
    }
  }

  /** The records under the type are those of the outer loop, and its error is `pack`'s error. */
  lemma RecordsOfEnvelope(resourceType: string, api: JSONApi, refs: seq<RefDef>, data: Value)
    requires Packable(data) && resourceType != "linked" && resourceType != "links"
    ensures var p, out := PackFrom(refs, Records(data), 0, [], None, api), PackSpec(resourceType, api, refs, data);
            && (out.Success? <==> p.Success?)
            && (p.Success? ==> resourceType in out.value && out.value[resourceType] == Arr(p.value.0))
            && (p.Failure? ==> out.error == p.error)
  {
  }

  /** With no referenced property present, every definition is skipped and nothing changes. */
  lemma {:induction false} SkipAbsent(refs: seq<RefDef>, i: nat, st: RecordState, api: JSONApi)
    requires i <= |refs|
    requires forall j :: i <= j < |refs| ==> refs[j].ref !in st.item
    ensures ApplyRefs(refs, i, st, api) == Success(st)
    decreases |refs| - i
  {
    if i < |refs| {
      SkipAbsent(refs, i + 1, st, api);
    }
  }

  /** A record holding none of the referenced properties comes out as it went in, without a
      `links` field. */
  lemma UntouchedRecord(refs: seq<RefDef>, rec: Record, api: JSONApi)
    requires forall j :: 0 <= j < |refs| ==> refs[j].ref !in rec
    ensures PackRecord(refs, rec, api) == Success(Obj(rec))
  {
    SkipAbsent(refs, 0, RecordState(rec, None, None), api);
  }

  lemma {:induction false} PackFromWithoutRelations(refs: seq<RefDef>, records: seq<Value>, k: nat,
                                                    result: seq<Value>, api: JSONApi)
    requires k <= |records| && AllObjects(records)
    requires forall j, i :: k <= j < |records| && 0 <= i < |refs| ==> refs[i].ref !in records[j].fields
    ensures PackFrom(refs, records, k, result, None, api) == Success((result + records[k..], None))
    decreases |records| - k
  {
    if k == |records| {
      assert result + records[k..] == result;
    } else {
      SkipAbsent(refs, 0, RecordState(records[k].fields, None, None), api);
      assert Finish(RecordState(records[k].fields, None, None)) == records[k];
      PackFromWithoutRelations(refs, records, k + 1, result + [records[k]], api);
      assert result + [records[k]] + records[k + 1..] == result + records[k..];
    }
  }

  /** Data in which no record holds a referenced property packs to the records themselves, with
      no `linked` section; `links` appears only when URL templates are on. */
  lemma PackWithoutRelations(resourceType: string, api: JSONApi, refs: seq<RefDef>, data: Value)
    requires Packable(data) && resourceType != "linked" && resourceType != "links"
    requires forall k, i :: 0 <= k < |Records(data)| && 0 <= i < |refs| ==> refs[i].ref !in Records(data)[k].fields
    ensures PackSpec(resourceType, api, refs, data).Success?
    ensures var out := PackSpec(resourceType, api, refs, data).value;
            && resourceType in out && out[resourceType] == Arr(Records(data))
            && "linked" !in out
            && ("links" in out <==> Truthy(api.UrlTemplates()))
  {
    PackFromWithoutRelations(refs, Records(data), 0, [], api);
    assert [] + Records(data)[0..] == Records(data);
  }

  // ---------------------------------------------------------------------------------------
  // Cardinality

  /** The record being flattened still holds, unchanged, every property the definitions from
      `i` on name in the original record `rec`. */
  predicate Agrees(refs: seq<RefDef>, i: nat, item: Record, rec: Record)
    requires i <= |refs|
  {
    forall j :: i <= j < |refs| ==>
      (refs[j].ref in item <==> refs[j].ref in rec) && (refs[j].ref in rec ==> item[refs[j].ref] == rec[refs[j].ref])
  }

  lemma AgreesAfterDelete(refs: seq<RefDef>, i: nat, item: Record, rec: Record)
    requires i < |refs| && DistinctRefs(refs) && Agrees(refs, i, item, rec)
    ensures Agrees(refs, i + 1, item - {refs[i].ref}, rec)
  {
    forall j | i + 1 <= j < |refs|
      ensures refs[j].ref in item - {refs[i].ref} <==> refs[j].ref in rec
    {
      assert refs[j].ref != refs[i].ref;
    }
  }

  lemma {:induction false} ApplyRefsChecksToMany(refs: seq<RefDef>, i: nat, st: RecordState, rec: Record, api: JSONApi)
    requires i <= |refs| && DistinctRefs(refs) && Agrees(refs, i, st.item, rec)
    requires ApplyRefs(refs, i, st, api).Success?
    ensures forall j :: i <= j < |refs| && refs[j].toMany && refs[j].ref in rec ==> rec[refs[j].ref].Arr?
    decreases |refs| - i
  {
    if i < |refs| {
      var d := refs[i];
      if d.ref !in st.item {
        ApplyRefsChecksToMany(refs, i + 1, st, rec, api);
      } else {
        var next := Step(d, st, api).value;
        AgreesAfterDelete(refs, i, st.item, rec);
        ApplyRefsChecksToMany(refs, i + 1, next, rec, api);
      }
    }
  }

  /** With distinct property names, a record packs only if each to-many property it holds is
      an array. */
  lemma ToManyRecordHoldsArrays(refs: seq<RefDef>, rec: Record, api: JSONApi)
    requires DistinctRefs(refs) && PackRecord(refs, rec, api).Success?
    ensures forall j :: 0 <= j < |refs| && refs[j].toMany && refs[j].ref in rec ==> rec[refs[j].ref].Arr?
  {
    ApplyRefsChecksToMany(refs, 0, RecordState(rec, None, None), rec, api);
  }

  /** Every referenced property `rec` holds from definition `i` on can be linked: its related
      values have readable ids, and a to-many one holds an array. */
  predicate WellShaped(refs: seq<RefDef>, i: nat, rec: Record)
    requires i <= |refs|
  {
    forall j :: i <= j < |refs| && refs[j].ref in rec ==>
      (refs[j].toMany ==> rec[refs[j].ref].Arr?) && AllReadable(rec[refs[j].ref])
  }

  lemma {:induction false} ApplyRefsSucceeds(refs: seq<RefDef>, i: nat, st: RecordState, rec: Record, api: JSONApi)
    requires i <= |refs| && DistinctRefs(refs) && Agrees(refs, i, st.item, rec)
    ensures ApplyRefs(refs, i, st, api).Success? <==> WellShaped(refs, i, rec)
    decreases |refs| - i
  {
    if i < |refs| {
      var d := refs[i];
      if d.ref !in st.item {
        ApplyRefsSucceeds(refs, i + 1, st, rec, api);
      } else {
        var step := Step(d, st, api);
        if step.Success? {
          var built := BuildLinks(GetOr(st.links, map[]), st.item, d, api);
          assert built.Success?;
          AgreesAfterDelete(refs, i, st.item, rec);
          ApplyRefsSucceeds(refs, i + 1, step.value, rec, api);
        } else if !(d.toMany && !st.item[d.ref].Arr?) {
          var built := BuildLinks(GetOr(st.links, map[]), st.item, d, api);
          assert built.Failure?;
          assert !AllReadable(rec[d.ref]);
        }
      }
    }
  }

  /** With distinct property names, a record packs exactly when it is well shaped. */
  lemma RecordPacks(refs: seq<RefDef>, rec: Record, api: JSONApi)
    requires DistinctRefs(refs)
    ensures PackRecord(refs, rec, api).Success? <==> WellShaped(refs, 0, rec)
  {
    ApplyRefsSucceeds(refs, 0, RecordState(rec, None, None), rec, api);
  }

  /** With distinct property names, `pack` succeeds exactly when every record is well shaped:
      each related value has a readable id and each to-many property holds an array. Otherwise
      it fails, either reading `.id` off `null`/`undefined` or on a to-many property holding a
      single value. */
  lemma PackSucceeds(resourceType: string, api: JSONApi, refs: seq<RefDef>, data: Value)
    requires Packable(data) && DistinctRefs(refs)
    ensures PackSpec(resourceType, api, refs, data).Success? <==>
              forall k :: 0 <= k < |Records(data)| ==> WellShaped(refs, 0, Records(data)[k].fields)
    ensures PackSpec(resourceType, api, refs, data).Failure? ==>
              PackSpec(resourceType, api, refs, data).error == IdOfNothing ||
              PackSpec(resourceType, api, refs, data).error.ToManyGotSingle?
  {
    var recs := Records(data);
    PackFromAll(refs, recs, api);
    forall k | 0 <= k < |recs|
      ensures PackRecord(refs, recs[k].fields, api).Success? <==> WellShaped(refs, 0, recs[k].fields)
    {
      RecordPacks(refs, recs[k].fields, api);
    }
    SecondToManyCheckNeverFires(resourceType, api, refs, data);
  }

  /** A to-many property holding a non-array, in any record, makes the whole `pack` fail: no
      envelope is returned. */
  lemma ToManyNonArrayFails(resourceType: string, api: JSONApi, refs: seq<RefDef>, data: Value, k: nat, i: nat)
    requires Packable(data) && DistinctRefs(refs)
    requires k < |Records(data)| && i < |refs|
    requires refs[i].toMany && refs[i].ref in Records(data)[k].fields
    requires !Records(data)[k].fields[refs[i].ref].Arr?
    ensures PackSpec(resourceType, api, refs, data).Failure?
  {
    PackFromPerRecord(refs, Records(data), 0, [], None, api);
    if PackSpec(resourceType, api, refs, data).Success? {
      ToManyRecordHoldsArrays(refs, Records(data)[k].fields, api);
    }
  }

  lemma {:induction false} ApplyRefsNoSecondCheck(refs: seq<RefDef>, i: nat, st: RecordState, api: JSONApi)
    requires i <= |refs|
    ensures ApplyRefs(refs, i, st, api) != Failure(ToManySingleId)
    decreases |refs| - i
  {
    if i < |refs| {
      var d := refs[i];
      if d.ref in st.item && !(d.toMany && !st.item[d.ref].Arr?) {
        var built := BuildLinks(GetOr(st.links, map[]), st.item, d, api);
        assert built != Failure(ToManySingleId);
      }
      match Step(d, st, api)
      case Failure(e) =>
      case Success(st') => ApplyRefsNoSecondCheck(refs, i + 1, st', api);
    }
  }

  lemma {:induction false} PackFromNoSecondCheck(refs: seq<RefDef>, records: seq<Value>, k: nat, result: seq<Value>,
                                                 linked: Option<Linked>, api: JSONApi)
    requires k <= |records| && AllObjects(records)
    ensures PackFrom(refs, records, k, result, linked, api) != Failure(ToManySingleId)
    decreases |records| - k
  {
    if k < |records| {
      var a := ApplyRefs(refs, 0, RecordState(records[k].fields, None, linked), api);
      ApplyRefsNoSecondCheck(refs, 0, RecordState(records[k].fields, None, linked), api);
      if a.Success? {
        PackFromNoSecondCheck(refs, records, k + 1, result + [Finish(a.value)], a.value.linked, api);
      }
    }
  }

  /** The to-many check on the extracted ids never fires: once the property is known to hold an
      array, mapping over it yields an array. */
  lemma SecondToManyCheckNeverFires(resourceType: string, api: JSONApi, refs: seq<RefDef>, data: Value)
    requires Packable(data)
    ensures PackSpec(resourceType, api, refs, data) != Failure(ToManySingleId)
  {
    PackFromNoSecondCheck(refs, Records(data), 0, [], None, api);
  }

  // ---------------------------------------------------------------------------------------
  // Links of one record

  /** The properties named by the first `i` definitions that `rec` holds. */
  function PresentBefore(refs: seq<RefDef>, i: nat, rec: Record): set<string>
    requires i <= |refs|
  {
    set j | 0 <= j < i && refs[j].ref in rec :: refs[j].ref
  }

  /** The state of the inner loop after the first `i` definitions: the present properties are
      deleted, and `links` holds exactly one link per present property. */
  predicate LinksSoFar(refs: seq<RefDef>, i: nat, rec: Record, st: RecordState, api: JSONApi)
    requires i <= |refs|
  {
    && st.item == rec - PresentBefore(refs, i, rec)
    && (st.links.Some? <==> PresentBefore(refs, i, rec) != {})
    && (st.links.Some? ==> st.links.value.Keys == PresentBefore(refs, i, rec))
    && forall j :: 0 <= j < i && refs[j].ref in rec ==>
         && st.links.Some? && refs[j].ref in st.links.value
         && AllReadable(rec[refs[j].ref])
         && st.links.value[refs[j].ref] == LinkFor(refs[j], rec[refs[j].ref], api)
  }

  lemma NotPresentBefore(refs: seq<RefDef>, i: nat, rec: Record)
    requires i < |refs| && DistinctRefs(refs)
    ensures refs[i].ref !in PresentBefore(refs, i, rec)
  {
  }

  /** Skipping an absent property keeps the loop state described. */
  lemma StepAbsentLinks(refs: seq<RefDef>, i: nat, rec: Record, st: RecordState, api: JSONApi)
    requires i < |refs| && DistinctRefs(refs) && LinksSoFar(refs, i, rec, st, api)
    requires refs[i].ref !in rec
    ensures Step(refs[i], st, api) == Success(st)
    ensures LinksSoFar(refs, i + 1, rec, st, api)
  {
    assert PresentBefore(refs, i + 1, rec) == PresentBefore(refs, i, rec);
  }

  lemma DeleteOneMore(rec: Record, P: set<string>, p: string)
    ensures (rec - P) - {p} == rec - (P + {p})
  {
  }

  /** The link written for a present property, in terms of the loop state before it. */
  lemma StepPresent(d: RefDef, st: RecordState, api: JSONApi)
    requires d.ref in st.item && Step(d, st, api).Success?
    ensures var next := Step(d, st, api).value;
            && next.item == st.item - {d.ref}
            && next.links.Some?
            && next.links.value.Keys == GetOr(st.links, map[]).Keys + {d.ref}
            && (forall k :: k in GetOr(st.links, map[]) && k != d.ref ==> next.links.value[k] == GetOr(st.links, map[])[k])
            && AllReadable(st.item[d.ref])
            && next.links.value[d.ref] == LinkFor(d, st.item[d.ref], api)
  {
    var built := BuildLinks(GetOr(st.links, map[]), st.item, d, api);
    assert built.Success?;
  }

  /** Handling a present property deletes it and adds exactly its link. */
  lemma StepPresentLinks(refs: seq<RefDef>, i: nat, rec: Record, st: RecordState, api: JSONApi)
    requires i < |refs| && DistinctRefs(refs) && LinksSoFar(refs, i, rec, st, api)
    requires refs[i].ref in rec && Step(refs[i], st, api).Success?
    ensures LinksSoFar(refs, i + 1, rec, Step(refs[i], st, api).value, api)
  {
    var d := refs[i];
    var P := PresentBefore(refs, i, rec);
    NotPresentBefore(refs, i, rec);
    var P' := PresentBefore(refs, i + 1, rec);
    assert P' == P + {d.ref};
    assert d.ref in st.item && st.item[d.ref] == rec[d.ref];
    StepPresent(d, st, api);
    var next := Step(d, st, api).value;
    DeleteOneMore(rec, P, d.ref);
    assert next.item == rec - P';
    forall j | 0 <= j < i + 1 && refs[j].ref in rec
      ensures next.links.Some? && refs[j].ref in next.links.value
      ensures AllReadable(rec[refs[j].ref])
      ensures next.links.value[refs[j].ref] == LinkFor(refs[j], rec[refs[j].ref], api)
    {
      if j < i {
        assert refs[j].ref != d.ref;
      }
    }
  }

  lemma {:induction false} ApplyRefsLinks(refs: seq<RefDef>, i: nat, rec: Record, st: RecordState, api: JSONApi)
    requires i <= |refs| && DistinctRefs(refs) && LinksSoFar(refs, i, rec, st, api)
    requires ApplyRefs(refs, i, st, api).Success?
    ensures LinksSoFar(refs, |refs|, rec, ApplyRefs(refs, i, st, api).value, api)
    decreases |refs| - i
  {
    if i < |refs| {
      var next := Step(refs[i], st, api).value;
      assert ApplyRefs(refs, i, st, api) == ApplyRefs(refs, i + 1, next, api);
      if refs[i].ref !in rec {
        StepAbsentLinks(refs, i, rec, st, api);
      } else {
        StepPresentLinks(refs, i, rec, st, api);
      }
      ApplyRefsLinks(refs, i + 1, rec, next, api);
    }
  }

  /** With distinct property names, a packed record is the input record without the referenced
      properties it held, plus a `links` object (only when it held at least one) whose keys are
      exactly those properties and whose values are their links. */
  lemma RecordLinks(refs: seq<RefDef>, rec: Record, api: JSONApi)
    requires DistinctRefs(refs) && PackRecord(refs, rec, api).Success?
    ensures var out, P := PackRecord(refs, rec, api).value, Present(refs, rec);
            && out.Obj?
            && (P == {} ==> out == Obj(rec))
            && (P != {} ==> "links" in out.fields && out.fields["links"].Obj? && out.fields["links"].fields.Keys == P)
            && (forall k :: k != "links" ==> (k in out.fields <==> k in rec && k !in P))
            && (forall k :: k != "links" && k in out.fields ==> out.fields[k] == rec[k])
            && forall j :: 0 <= j < |refs| && refs[j].ref in rec ==>
                 && "links" in out.fields && out.fields["links"].Obj?
                 && refs[j].ref in out.fields["links"].fields
                 && AllReadable(rec[refs[j].ref])
                 && out.fields["links"].fields[refs[j].ref] == LinkFor(refs[j], rec[refs[j].ref], api)
  {
    var st0 := RecordState(rec, None, None);
    assert PresentBefore(refs, 0, rec) == {};
    assert rec - {} == rec;
    ApplyRefsLinks(refs, 0, rec, st0, api);
    assert PresentBefore(refs, |refs|, rec) == Present(refs, rec);
  }

  // ---------------------------------------------------------------------------------------
  // The `linked` section

  /** A related value found while packing, with the type of the definition that targets it. */
  type Event = (string, Value)

  /** The related values of one record, in definition order, from definition `i` on. */
  function RelatedOf(refs: seq<RefDef>, i: nat, rec: Record): seq<Event>
    requires i <= |refs|
    decreases |refs| - i
  {
    if i == |refs| then []
    else (if refs[i].ref in rec then [(refs[i].res.resourceType, rec[refs[i].ref])] else [])
         + RelatedOf(refs, i + 1, rec)
  }

  /** The related values of every record from record `k` on, in record order, then definition
      order. */
  function RelatedAll(refs: seq<RefDef>, records: seq<Value>, k: nat): seq<Event>
    requires k <= |records| && AllObjects(records)
    decreases |records| - k
  {
    if k == |records| then []
    else RelatedOf(refs, 0, records[k].fields) + RelatedAll(refs, records, k + 1)
  }

  /** The concatenation of the related values targeting `t`, arrays spread. */
  function BucketOf(evs: seq<Event>, t: string): seq<Value>
  {
    if evs == [] then []
    else (if evs[0].0 == t then Arrify(AsVal(evs[0].1)).items else []) + BucketOf(evs[1..], t)
  }

  function TypesOf(evs: seq<Event>): set<string>
  {
    set e | e in evs :: e.0
  }

  /** `_buildLinked` applied to each related value in turn. */
  function AddEvents(linked: Option<Linked>, evs: seq<Event>): Option<Linked>
    decreases evs
  {
    if evs == [] then linked
    else AddEvents(Some(BuildLinked(GetOr(linked, map[]), evs[0].0, evs[0].1)), evs[1..])
  }

  function OptBucket(linked: Option<Linked>, t: string): seq<Value>
  {
    if linked.Some? then Bucket(linked.value, t) else []
  }

  function OptKeys(linked: Option<Linked>): set<string>
  {
    if linked.Some? then linked.value.Keys else {}
  }

  /** The contribution of one related value to the bucket of `t`. */
  lemma AddOneEvent(linked: Option<Linked>, e: Event, t: string)
    ensures var next := Some(BuildLinked(GetOr(linked, map[]), e.0, e.1));
            && OptKeys(next) == OptKeys(linked) + {e.0}
            && OptBucket(next, t) == OptBucket(linked, t) + (if e.0 == t then Arrify(AsVal(e.1)).items else [])
  {
  }

  lemma TypesOfCons(evs: seq<Event>)
    requires evs != []
    ensures TypesOf(evs) == {evs[0].0} + TypesOf(evs[1..])
  {
    assert evs == [evs[0]] + evs[1..];
  }

  /** A bucket exists for every type targeted at least once, and for no other new type. */
  lemma {:induction false} AddEventsKeys(linked: Option<Linked>, evs: seq<Event>)
    ensures AddEvents(linked, evs).Some? <==> linked.Some? || evs != []
    ensures OptKeys(AddEvents(linked, evs)) == OptKeys(linked) + TypesOf(evs)
    decreases evs
  {
    if evs != [] {
      var next := Some(BuildLinked(GetOr(linked, map[]), evs[0].0, evs[0].1));
      AddEventsKeys(next, evs[1..]);
      AddOneEvent(linked, evs[0], evs[0].0);
      TypesOfCons(evs);
    } else {
      assert TypesOf(evs) == {};
    }
  }

  /** The bucket of `t` grows by exactly the values targeting `t`, in order. */
  lemma {:induction false} AddEventsBucket(linked: Option<Linked>, evs: seq<Event>, t: string)
    ensures OptBucket(AddEvents(linked, evs), t) == OptBucket(linked, t) + BucketOf(evs, t)
    decreases evs
  {
    if evs != [] {
      var next := Some(BuildLinked(GetOr(linked, map[]), evs[0].0, evs[0].1));
      assert AddEvents(linked, evs) == AddEvents(next, evs[1..]);
      AddEventsBucket(next, evs[1..], t);
      AddOneEvent(linked, evs[0], t);
      var here := if evs[0].0 == t then Arrify(AsVal(evs[0].1)).items else [];
      assert BucketOf(evs, t) == here + BucketOf(evs[1..], t);
      assert OptBucket(linked, t) + here + BucketOf(evs[1..], t) == OptBucket(linked, t) + (here + BucketOf(evs[1..], t));
    } else {
      assert OptBucket(linked, t) + BucketOf(evs, t) == OptBucket(linked, t) + [];
    }
  }

  lemma {:induction false} AddEventsAppend(linked: Option<Linked>, a: seq<Event>, b: seq<Event>)
    ensures AddEvents(linked, a + b) == AddEvents(AddEvents(linked, a), b)
    decreases a
  {
    if a != [] {
      assert (a + b)[1..] == a[1..] + b;
      AddEventsAppend(Some(BuildLinked(GetOr(linked, map[]), a[0].0, a[0].1)), a[1..], b);
    } else {
      assert a + b == b;
    }
  }

  lemma {:induction false} ApplyRefsLinked(refs: seq<RefDef>, i: nat, st: RecordState, rec: Record, api: JSONApi)
    requires i <= |refs| && DistinctRefs(refs) && Agrees(refs, i, st.item, rec)
    requires ApplyRefs(refs, i, st, api).Success?
    ensures ApplyRefs(refs, i, st, api).value.linked == AddEvents(st.linked, RelatedOf(refs, i, rec))
    decreases |refs| - i
  {
    if i < |refs| {
      var d := refs[i];
      var next := Step(d, st, api).value;
      if d.ref !in st.item {
        assert d.ref !in rec;
        assert RelatedOf(refs, i, rec) == RelatedOf(refs, i + 1, rec);
        ApplyRefsLinked(refs, i + 1, st, rec, api);
      } else {
        AgreesAfterDelete(refs, i, st.item, rec);
        ApplyRefsLinked(refs, i + 1, next, rec, api);
        var ev := [(d.res.resourceType, rec[d.ref])];
        assert AddEvents(st.linked, ev) == next.linked;
        AddEventsAppend(st.linked, ev, RelatedOf(refs, i + 1, rec));
      }
    }
  }

  lemma {:induction false} PackFromLinked(refs: seq<RefDef>, records: seq<Value>, k: nat, result: seq<Value>,
                                          linked: Option<Linked>, api: JSONApi)
    requires k <= |records| && AllObjects(records) && DistinctRefs(refs)
    requires PackFrom(refs, records, k, result, linked, api).Success?
    ensures PackFrom(refs, records, k, result, linked, api).value.1 == AddEvents(linked, RelatedAll(refs, records, k))
    decreases |records| - k
  {
    if k < |records| {
      var st := RecordState(records[k].fields, None, linked);
      var a := ApplyRefs(refs, 0, st, api).value;
      ApplyRefsLinked(refs, 0, st, records[k].fields, api);
      PackFromLinked(refs, records, k + 1, result + [Finish(a)], a.linked, api);
      AddEventsAppend(linked, RelatedOf(refs, 0, records[k].fields), RelatedAll(refs, records, k + 1));
    }
  }

  /** With distinct property names, `linked` is present exactly when some record held a
      referenced property; it then has one bucket per targeted type, holding every related value
      targeting that type, in record order and then definition order, arrays spread element by
      element. */
  lemma LinkedSection(resourceType: string, api: JSONApi, refs: seq<RefDef>, data: Value)
    requires Packable(data) && DistinctRefs(refs) && resourceType != "linked"
    requires PackSpec(resourceType, api, refs, data).Success?
    ensures var out, evs := PackSpec(resourceType, api, refs, data).value, RelatedAll(refs, Records(data), 0);
            && ("linked" in out <==> evs != [])
            && ("linked" in out ==>
                  && out["linked"].Obj?
                  && out["linked"].fields.Keys == TypesOf(evs)
                  && forall t :: t in out["linked"].fields ==> out["linked"].fields[t] == Arr(BucketOf(evs, t)))
  {
    var evs := RelatedAll(refs, Records(data), 0);
    PackFromLinked(refs, Records(data), 0, [], None, api);
    LinkedOfEvents(evs);
  }

  /** The `linked` accumulator built from nothing by a sequence of related values. */
  lemma LinkedOfEvents(evs: seq<Event>)
    ensures AddEvents(None, evs).Some? <==> evs != []
    ensures AddEvents(None, evs).Some? ==>
              && AddEvents(None, evs).value.Keys == TypesOf(evs)
              && forall t :: t in AddEvents(None, evs).value ==> AddEvents(None, evs).value[t] == BucketOf(evs, t)
  {
    AddEventsKeys(None, evs);
    var l := AddEvents(None, evs);
    if l.Some? {
      forall t | t in l.value
        ensures l.value[t] == BucketOf(evs, t)
      {
        AddEventsBucket(None, evs, t);
      }
    }
  }

  // ---------------------------------------------------------------------------------------
  // Link templates

  lemma {:induction false} TemplatesOfKeys(resourceType: string, refs: seq<RefDef>, baseUrl: Value)
    ensures TemplatesOf(resourceType, refs, baseUrl).Keys == set i | 0 <= i < |refs| :: TemplateKey(resourceType, refs[i])
  {
    if refs != [] {
      var init := refs[..|refs| - 1];
      TemplatesOfKeys(resourceType, init, baseUrl);
      var last := TemplateKey(resourceType, refs[|refs| - 1]);
      assert (set i | 0 <= i < |refs| :: TemplateKey(resourceType, refs[i]))
          == (set i | 0 <= i < |init| :: TemplateKey(resourceType, init[i])) + {last} by {
        forall i | 0 <= i < |init| ensures init[i] == refs[i] { }
      }
    }
  }

  lemma {:induction false} TemplatesOfLastWins(resourceType: string, refs: seq<RefDef>, baseUrl: Value, i: nat)
    requires i < |refs|
    requires forall j :: i < j < |refs| ==> TemplateKey(resourceType, refs[j]) != TemplateKey(resourceType, refs[i])
    ensures TemplateKey(resourceType, refs[i]) in TemplatesOf(resourceType, refs, baseUrl)
    ensures TemplatesOf(resourceType, refs, baseUrl)[TemplateKey(resourceType, refs[i])] == Template(resourceType, refs[i], baseUrl)
  {
    var init := refs[..|refs| - 1];
    if i < |refs| - 1 {
      assert refs[i] == init[i];
      TemplatesOfLastWins(resourceType, init, baseUrl, i);
    }
  }

  /** The template key determines the definition's property name. */
  lemma TemplateKeyInjective(resourceType: string, d1: RefDef, d2: RefDef)
    requires TemplateKey(resourceType, d1) == TemplateKey(resourceType, d2)
    ensures d1.ref == d2.ref
  {
    var n := |resourceType| + 1;
    assert d1.ref == TemplateKey(resourceType, d1)[n..];
    assert d2.ref == TemplateKey(resourceType, d2)[n..];
  }

  /** `_buildLinkTemplates()` is `null` without definitions; otherwise it has exactly one key
      `type + '.' + ref` per definition, whose value is the template of the last definition with
      that key (with distinct property names, each definition's own template). */
  lemma LinkTemplatesShape(resourceType: string, refs: seq<RefDef>, baseUrl: Value)
    ensures LinkTemplates(resourceType, refs, baseUrl) == Null <==> refs == []
    ensures refs != [] ==>
              && LinkTemplates(resourceType, refs, baseUrl).Obj?
              && LinkTemplates(resourceType, refs, baseUrl).fields.Keys
                   == set i | 0 <= i < |refs| :: TemplateKey(resourceType, refs[i])
    ensures DistinctRefs(refs) ==>
              forall i :: 0 <= i < |refs| ==>
                && LinkTemplates(resourceType, refs, baseUrl).Obj?
                && TemplateKey(resourceType, refs[i]) in LinkTemplates(resourceType, refs, baseUrl).fields
                && LinkTemplates(resourceType, refs, baseUrl).fields[TemplateKey(resourceType, refs[i])]
                     == Template(resourceType, refs[i], baseUrl)
  {
    TemplatesOfKeys(resourceType, refs, baseUrl);
    if DistinctRefs(refs) {
      forall i | 0 <= i < |refs|
        ensures TemplateKey(resourceType, refs[i]) in TemplatesOf(resourceType, refs, baseUrl)
        ensures TemplatesOf(resourceType, refs, baseUrl)[TemplateKey(resourceType, refs[i])] == Template(resourceType, refs[i], baseUrl)
      {
        forall j | i < j < |refs|
          ensures TemplateKey(resourceType, refs[j]) != TemplateKey(resourceType, refs[i])
        {
          if TemplateKey(resourceType, refs[j]) == TemplateKey(resourceType, refs[i]) {
            TemplateKeyInjective(resourceType, refs[j], refs[i]);
          }
        }
        TemplatesOfLastWins(resourceType, refs, baseUrl, i);
      }
    }
  }

  /** The `links` key is present exactly when URL templates are on, and then holds the link
      templates, whatever records were packed. */
  lemma LinksSection(resourceType: string, api: JSONApi, refs: seq<RefDef>, data1: Value, data2: Value)
    requires Packable(data1) && Packable(data2) && resourceType != "links"
    requires PackSpec(resourceType, api, refs, data1).Success? && PackSpec(resourceType, api, refs, data2).Success?
    ensures var out := PackSpec(resourceType, api, refs, data1).value;
            && ("links" in out <==> Truthy(api.UrlTemplates()))
            && ("links" in out ==> out["links"] == LinkTemplates(resourceType, refs, api.BaseUrl()))
    ensures var out1, out2 := PackSpec(resourceType, api, refs, data1).value, PackSpec(resourceType, api, refs, data2).value;
            ("links" in out1 <==> "links" in out2) && ("links" in out1 ==> out1["links"] == out2["links"])
  {
  }
}
