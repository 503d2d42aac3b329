/** The settings holder `JSONApi` of `src/api.js`. */
module Api {
  import opened Json

  /** The shared `defaults` object. As a function value it cannot be changed by any
      construction, which is what cloning it before the merge achieves. */
  function Defaults(): Record
  {
    map["urlTemplates" := Bool(false), "verbose" := Bool(false), "baseUrl" := Str("/")]
  }

  /** `baseUrl && typeof baseUrl === 'object'`: the first argument is an options object. */
  predicate IsOptionsObject(baseUrl: Value)
  {
    baseUrl.Obj?
  }

  /** The argument shapes the constructor is written for: a base URL (a string, or any value that
      is not an object) with an options object or nothing, or an options object alone. */
  predicate ValidArgs(baseUrl: Value, options: Value)
  {
    !baseUrl.Arr? && (IsOptionsObject(baseUrl) || options.Obj? || !Truthy(options))
  }

  /** The options object the caller ends up supplying: the first argument itself when it is an
      object; otherwise the second (or `{}` when it is falsy) with `baseUrl` set to the first. */
  function Supplied(baseUrl: Value, options: Value): Record
    requires ValidArgs(baseUrl, options)
  {
    if IsOptionsObject(baseUrl) then baseUrl.fields
    else (if options.Obj? then options.fields else map[])["baseUrl" := baseUrl]
  }

  /** `extend(clone(defaults), options)`: every default key is present, every supplied key
      (recognised or not) overrides, and nothing else appears. */
  function MergeOptions(baseUrl: Value, options: Value): (r: Record)
    requires ValidArgs(baseUrl, options)
    ensures r.Keys == Defaults().Keys + Supplied(baseUrl, options).Keys
    ensures forall k :: k in Supplied(baseUrl, options) ==> r[k] == Supplied(baseUrl, options)[k]
    ensures forall k :: k in Defaults() && k !in Supplied(baseUrl, options) ==> r[k] == Defaults()[k]
    ensures !IsOptionsObject(baseUrl) ==> r["baseUrl"] == baseUrl
    ensures !IsOptionsObject(baseUrl) && options.Obj? ==>
              forall k :: k in options.fields && k != "baseUrl" ==> r[k] == options.fields[k]
    ensures IsOptionsObject(baseUrl) ==> forall k :: k in baseUrl.fields ==> r[k] == baseUrl.fields[k]
  {
    Defaults() + Supplied(baseUrl, options)
  }

  class JSONApi {
    /** The merged settings; never changed after construction. */
    const options: Record

    constructor(baseUrl: Value, options: Value)
      requires ValidArgs(baseUrl, options)
      ensures this.options == MergeOptions(baseUrl, options)
      ensures Defaults().Keys <= this.options.Keys
    {
      var supplied: Record;
      if IsOptionsObject(baseUrl) {
        supplied := baseUrl.fields;
      } else {
        supplied := if options.Obj? then options.fields else map[];
        supplied := supplied["baseUrl" := baseUrl];
      }
      this.options := Defaults() + supplied;
    }

    /** The `baseUrl` getter: `options.baseUrl`. */
    function BaseUrl(): (v: Value)
      ensures "baseUrl" in options ==> v == options["baseUrl"]
    {
      Lookup(options, "baseUrl")
    }

    /** The `verbose` getter: `options.verbose`. */
    function Verbose(): (v: Value)
      ensures "verbose" in options ==> v == options["verbose"]
    {
      Lookup(options, "verbose")
    }

    /** The `urlTemplates` getter: `options.urlTemplates`. */
    function UrlTemplates(): (v: Value)
      ensures "urlTemplates" in options ==> v == options["urlTemplates"]
    {
      Lookup(options, "urlTemplates")
    }
  }

  /** What the three settings resolve to: a key the caller supplies wins, the default fills in
      otherwise. In the positional form `baseUrl` is always the first argument. */
  lemma ResolvedSettings(baseUrl: Value, options: Value)
    requires ValidArgs(baseUrl, options)
    ensures var r, s := MergeOptions(baseUrl, options), Supplied(baseUrl, options);
            && r["baseUrl"] == (if !IsOptionsObject(baseUrl) then baseUrl
                                else if "baseUrl" in baseUrl.fields then baseUrl.fields["baseUrl"]
                                else Str("/"))
            && r["verbose"] == (if "verbose" in s then s["verbose"] else Bool(false))
            && r["urlTemplates"] == (if "urlTemplates" in s then s["urlTemplates"] else Bool(false))
  {
  }

  /** `new JSONApi()` sets `baseUrl` to `undefined` explicitly, so the default "/" is not used. */
  lemma NoArgumentsLeavesBaseUrlUndefined()
    ensures MergeOptions(Undefined, Undefined)["baseUrl"] == Undefined
  {
  }

  /** In the object form the second argument is ignored. */
  lemma ObjectFormIgnoresSecondArgument(baseUrl: Value, options1: Value, options2: Value)
    requires IsOptionsObject(baseUrl)
    ensures MergeOptions(baseUrl, options1) == MergeOptions(baseUrl, options2)
  {
  }
}
