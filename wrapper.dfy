/** The resource wrapper of `src/wrapper.js` and its `pack` transformation. */
module ResourceWrapper {
  import opened Results
  import opened ArrayUtils
  import opened Json
  import Val
  import opened Api

  /** A relationship definition `{ref, res, toMany}`: the property that holds the related
      value(s), the wrapper of the related resource (only its type is ever read) and the
      cardinality. */
  datatype RefDef = RefDef(ref: string, res: Wrapper, toMany: bool)

  /** The TypeErrors `pack` raises. */
  datatype PackError =
    | ToManyGotSingle(prop: string)  // a to-many property holds a non-array
    | ToManySingleId                 // the ids of a to-many property are not an array
    | IdOfNothing                    // `.id` read off `null` or `undefined`

  /** The `linked` accumulator: one bucket of related records per related type. */
  type Linked = map<string, seq<Value>>

  /** What packing one record carries from one definition to the next: the record being
      flattened, its `links` object (`null` until a link is written) and the shared `linked`
      accumulator (`null` until something is added). */
  datatype RecordState = RecordState(item: Record, links: Option<Record>, linked: Option<Linked>)

  /** A value whose properties can be read without a TypeError. */
  predicate Readable(x: Value)
  {
    !x.Null? && !x.Undefined?
  }

  /** `x.id` on a readable value: only an object can carry an `id`. */
  function IdOf(x: Value): Value
  {
    if x.Obj? && "id" in x.fields then x.fields["id"] else Undefined
  }

  /** Every value `map` below hands to `i => i.id` is readable. */
  predicate AllReadable(v: Value)
  {
    if v.Arr? then forall x | x in v.items :: Readable(x) else Readable(v)
  }

  /** `new Val(value).map(function (i) { return i.id; })`: the id of a single related record, or
      the list of ids of an array of them, in order; a TypeError if any of them is null or
      undefined. */
  function Ids(value: Value): (r: Result<Value, PackError>)
    ensures r.Failure? <==> !AllReadable(value)
    ensures r.Failure? ==> r.error == IdOfNothing
    ensures r.Success? && value.Arr? ==>
              r.value.Arr? && |r.value.items| == |value.items| &&
              forall j :: 0 <= j < |value.items| ==> r.value.items[j] == IdOf(value.items[j])
    ensures r.Success? && !value.Arr? ==> r.value == IdOf(value)
  {
    if AllReadable(value) then Success(Val.Map(value, (x: Value, j: nat) => IdOf(x)))
    else Failure(IdOfNothing)
  }

  /** `baseUrl + type + '/' + id`. */
  function Href(baseUrl: Value, resType: string, id: Value): string
  {
    ToJsString(baseUrl) + resType + "/" + ToJsString(id)
  }

  /** The verbose link to one related record. */
  function LinkObject(id: Value, resType: string, baseUrl: Value): Value
  {
    Obj(map["id" := id, "type" := Str(resType), "href" := Str(Href(baseUrl, resType, id))])
  }

  /** The value `_buildLinks` stores under the property: the id value itself, or in verbose mode
      one `{id, type, href}` object per id, shaped as a list exactly when the id value is one. */
  function LinkValue(ids: Value, resType: string, verbose: bool, baseUrl: Value): (r: Value)
    ensures !verbose ==> r == ids
    ensures verbose ==> (r.Arr? <==> ids.Arr?)
    ensures verbose && ids.Arr? ==>
              |r.items| == |ids.items| &&
              forall j :: 0 <= j < |ids.items| ==>
                r.items[j] == LinkObject(ids.items[j], resType, baseUrl)
    ensures verbose && !ids.Arr? ==> r == LinkObject(ids, resType, baseUrl)
  {
    if verbose then Val.Map(ids, (id: Value, j: nat) => LinkObject(id, resType, baseUrl))
    else ids
  }

  /** The link for a related value: in compact mode the related record's id, or the list of
      ids of an array of related records in the same order; in verbose mode `{id, type, href}`
      per id, with `href = baseUrl + type + '/' + id`, a single record whose `id` is itself an
      array giving one such object per element of it. */
  function LinkFor(d: RefDef, value: Value, api: JSONApi): (r: Value)
    requires AllReadable(value)
    ensures !Truthy(api.Verbose()) && value.Arr? ==>
              r.Arr? && |r.items| == |value.items| &&
              forall j :: 0 <= j < |value.items| ==> r.items[j] == IdOf(value.items[j])
    ensures !Truthy(api.Verbose()) && !value.Arr? ==> r == IdOf(value)
    ensures Truthy(api.Verbose()) && value.Arr? ==>
              r.Arr? && |r.items| == |value.items| &&
              forall j :: 0 <= j < |value.items| ==>
                r.items[j] == LinkObject(IdOf(value.items[j]), d.res.resourceType, api.BaseUrl())
    ensures Truthy(api.Verbose()) && !value.Arr? && !IdOf(value).Arr? ==>
              r == LinkObject(IdOf(value), d.res.resourceType, api.BaseUrl())
    ensures Truthy(api.Verbose()) && !value.Arr? && IdOf(value).Arr? ==>
              r.Arr? && |r.items| == |IdOf(value).items| &&
              forall j :: 0 <= j < |r.items| ==>
                r.items[j] == LinkObject(IdOf(value).items[j], d.res.resourceType, api.BaseUrl())
  {
    LinkValue(Ids(value).value, d.res.resourceType, Truthy(api.Verbose()), api.BaseUrl())
  }

  /** `_buildLinks(links, item, ref)`: stores the link for the definition's property, or raises
      the TypeError of the id extraction or of the to-many check on the ids. That check cannot
      fire when the property holds an array. */
  function BuildLinks(links: Record, item: Record, d: RefDef, api: JSONApi): (r: Result<Record, PackError>)
    requires d.ref in item
    ensures item[d.ref].Arr? ==> r != Failure(ToManySingleId)
    ensures r.Failure? <==> Ids(item[d.ref]).Failure? || (d.toMany && !Ids(item[d.ref]).value.Arr?)
    ensures r.Failure? && Ids(item[d.ref]).Success? ==> r.error == ToManySingleId
    ensures r.Success? ==>
              && r.value.Keys == links.Keys + {d.ref}
              && (forall k :: k in links && k != d.ref ==> r.value[k] == links[k])
              && AllReadable(item[d.ref])
              && r.value[d.ref] == LinkFor(d, item[d.ref], api)
  {
    var prop := d.ref;
    match Ids(item[prop])
    case Failure(e) => Failure(e)
    case Success(id) =>
      if d.toMany && !id.Arr? then Failure(ToManySingleId)
      else Success(links[prop := LinkValue(id, d.res.resourceType, Truthy(api.Verbose()), api.BaseUrl())])
  }

  /** The bucket of a related type, empty when the type has none yet. */
  function Bucket(linked: Linked, resType: string): seq<Value>
  {
    if resType in linked then linked[resType] else []
  }

  /** `_buildLinked(linked, type, item)`: appends the related value to the type's bucket, an array
      spread element by element, and leaves every other bucket alone. */
  function BuildLinked(linked: Linked, resType: string, item: Value): (r: Linked)
    ensures r.Keys == linked.Keys + {resType}
    ensures forall t :: t in linked && t != resType ==> r[t] == linked[t]
    ensures r[resType] == Bucket(linked, resType) + Arrify(AsVal(item)).items
  {
    var bucket := Bucket(linked, resType);
    if item.Arr? then linked[resType := bucket + item.items]
    else linked[resType := bucket + [item]]
  }

  /** One pass of `pack`'s inner loop for definition `d`: skip an absent property, reject a
      to-many property that holds a non-array, otherwise write the link, add to `linked` and
      delete the property. */
  function Step(d: RefDef, st: RecordState, api: JSONApi): Result<RecordState, PackError>
  {
    var prop := d.ref;
    if prop !in st.item then Success(st)
    else if d.toMany && !st.item[prop].Arr? then Failure(ToManyGotSingle(prop))
    else
      match BuildLinks(GetOr(st.links, map[]), st.item, d, api)
      case Failure(e) => Failure(e)
      case Success(links) =>
        Success(RecordState(st.item - {prop}, Some(links),
                            Some(BuildLinked(GetOr(st.linked, map[]), d.res.resourceType, st.item[prop]))))
  }

  /** The inner loop of `pack` from definition `i` on. */
  function ApplyRefs(refs: seq<RefDef>, i: nat, st: RecordState, api: JSONApi): Result<RecordState, PackError>
    requires i <= |refs|
    decreases |refs| - i
  {
    if i == |refs| then Success(st)
    else
      match Step(refs[i], st, api)
      case Failure(e) => Failure(e)
      case Success(st') => ApplyRefs(refs, i + 1, st', api)
  }

  /** The record `pack` outputs once every definition has been applied: `links` is attached
      only when some link was written. */
  function Finish(st: RecordState): Value
  {
    Obj(if st.links.Some? then st.item["links" := Obj(st.links.value)] else st.item)
  }

  /** The records `pack` iterates over: `arrify(data)`. */
  function Records(data: Value): seq<Value>
  {
    Arrify(AsVal(data)).items
  }

  predicate AllObjects(records: seq<Value>)
  {
    forall x | x in records :: x.Obj?
  }

  /** What `pack` accepts: a record or an array of records, each a plain object. */
  predicate Packable(data: Value)
  {
    AllObjects(Records(data))
  }

  /** The outer loop of `pack` from record `k` on, given the records output so far and the
      `linked` accumulator. */
  function PackFrom(refs: seq<RefDef>, records: seq<Value>, k: nat, result: seq<Value>,
                    linked: Option<Linked>, api: JSONApi): Result<(seq<Value>, Option<Linked>), PackError>
    requires k <= |records| && AllObjects(records)
    decreases |records| - k
  {
    if k == |records| then Success((result, linked))
    else
      match ApplyRefs(refs, 0, RecordState(records[k].fields, None, linked), api)
      case Failure(e) => Failure(e)
      case Success(st) => PackFrom(refs, records, k + 1, result + [Finish(st)], st.linked, api)
  }

  /** The `linked` section as a JSON object of arrays. */
  function LinkedValue(linked: Linked): Value
  {
    Obj(map t | t in linked :: Arr(linked[t]))
  }

  /** The key of a definition's link template: `type + '.' + ref`. */
  function TemplateKey(resourceType: string, d: RefDef): string
  {
    resourceType + "." + d.ref
  }

  /** `{type, href}` with `href = baseUrl + relatedType + '/{' + key + '}'`. */
  function Template(resourceType: string, d: RefDef, baseUrl: Value): Value
  {
    var key := TemplateKey(resourceType, d);
    Obj(map["type" := Str(d.res.resourceType),
            "href" := Str(ToJsString(baseUrl) + d.res.resourceType + "/{" + key + "}")])
  }

  /** The templates of the given definitions, in order, a later definition with the same key
      overwriting an earlier one. */
  function TemplatesOf(resourceType: string, refs: seq<RefDef>, baseUrl: Value): Record
  {
    if refs == [] then map[]
    else
      var d := refs[|refs| - 1];
      TemplatesOf(resourceType, refs[..|refs| - 1], baseUrl)[TemplateKey(resourceType, d) := Template(resourceType, d, baseUrl)]
  }

  /** `_buildLinkTemplates()`: `null` without definitions, the template object otherwise. */
  function LinkTemplates(resourceType: string, refs: seq<RefDef>, baseUrl: Value): Value
  {
    if refs == [] then Null else Obj(TemplatesOf(resourceType, refs, baseUrl))
  }

  /** The envelope `pack` returns: the records under the wrapper's type, `linked` when something
      was added to it, `links` when URL templates are on. */
  function PackSpec(resourceType: string, api: JSONApi, refs: seq<RefDef>, data: Value): Result<Record, PackError>
    requires Packable(data)
  {
    match PackFrom(refs, Records(data), 0, [], None, api)
    case Failure(e) => Failure(e)
    case Success(done) =>
      var ret := map[resourceType := Arr(done.0)];
      var ret := if done.1.Some? then ret["linked" := LinkedValue(done.1.value)] else ret;
      Success(if Truthy(api.UrlTemplates()) then ret["links" := LinkTemplates(resourceType, refs, api.BaseUrl())]
              else ret)
  }

  class Wrapper {
    const resourceType: string
    const api: JSONApi
    var refs: seq<RefDef>

    constructor(resourceType: string, api: JSONApi)
      ensures this.resourceType == resourceType && this.api == api && refs == []
    {
      this.resourceType := resourceType;
      this.api := api;
      refs := [];
    }

    /** `reference(ref)`: appends one definition, a bare one as given, the first element of an
        array marked to-many. An empty array raises a TypeError (`ok` is false) and registers
        nothing. */
    method Reference(decl: OneOrMany<RefDef>) returns (ok: bool)
      modifies this`refs
      ensures ok <==> !(IsArray(decl) && decl.items == [])
      ensures !ok ==> refs == old(refs)
      ensures ok ==> |refs| == |old(refs)| + 1 && refs[..|old(refs)|] == old(refs)
      ensures ok && !IsArray(decl) ==> refs[|old(refs)|] == decl.value
      ensures ok && IsArray(decl) ==> refs[|old(refs)|] == decl.items[0].(toMany := true)
    {
      var d: RefDef;
      if IsArray(decl) {
        var first := Unarrify(decl);
        if first.None? {
          return false;
        }
        d := first.value.(toMany := true);
      } else {
        d := decl.value;
      }
      refs := refs + [d];
      ok := true;
    }

    /** `_buildLinkTemplates()`. */
    method BuildLinkTemplates() returns (r: Value)
      ensures r == LinkTemplates(resourceType, refs, api.BaseUrl())
      ensures r.Null? <==> refs == []
    {
      if |refs| == 0 {
        return Null;
      }
      var links: Record := map[];
      var i := 0;
      while i < |refs|
        invariant 0 <= i <= |refs|
        invariant links == TemplatesOf(resourceType, refs[..i], api.BaseUrl())
      {
        var d := refs[i];
        var key := resourceType + "." + d.ref;
        links := links[key := Obj(map["type" := Str(d.res.resourceType),
                                      "href" := Str(ToJsString(api.BaseUrl()) + d.res.resourceType + "/{" + key + "}")])];
        assert refs[..i + 1][..i] == refs[..i];
        i := i + 1;
      }
      assert refs[..i] == refs;
      r := Obj(links);
    }

    /** `pack(data)`. */
    method Pack(data: Value) returns (r: Result<Record, PackError>)
      requires Packable(data)
      ensures r == PackSpec(resourceType, api, refs, data)
    {
      var records := Records(data);
      var result: seq<Value> := [];
      var linked: Option<Linked> := None;
      var k := 0;
      while k < |records|
        invariant 0 <= k <= |records|
        invariant PackFrom(refs, records, 0, [], None, api) == PackFrom(refs, records, k, result, linked, api)
      {
        var item := records[k].fields;
        var links: Option<Record> := None;
        ghost var linked0 := linked;
        var i := 0;
        while i < |refs|
          invariant 0 <= i <= |refs|
          invariant ApplyRefs(refs, 0, RecordState(records[k].fields, None, linked0), api)
                 == ApplyRefs(refs, i, RecordState(item, links, linked), api)
        {
          var d := refs[i];
          var prop := d.ref;
          if prop in item {
            if d.toMany && !item[prop].Arr? {
              return Failure(ToManyGotSingle(prop));
            }
            var built := BuildLinks(GetOr(links, map[]), item, d, api);
            if built.Failure? {
              return Failure(built.error);
            }
            links := Some(built.value);
            linked := Some(BuildLinked(GetOr(linked, map[]), d.res.resourceType, item[prop]));
            item := item - {prop};
          }
          i := i + 1;
        }
        if links.Some? {
          item := item["links" := Obj(links.value)];
        }
        result := result + [Obj(item)];
        k := k + 1;
      }
      var ret: Record := map[resourceType := Arr(result)];
      if linked.Some? {
        ret := ret["linked" := LinkedValue(linked.value)];
      }
      if Truthy(api.UrlTemplates()) {
        var templates := BuildLinkTemplates();
        ret := ret["links" := templates];
      }
      r := Success(ret);
    }
  }
}
