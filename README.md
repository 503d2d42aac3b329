# json-api-wrapper in Dafny

A model of json-api-wrapper, a small JavaScript library that turns plain records into
JSON API envelopes. A `JSONApi` object holds three settings (`baseUrl`, `verbose`,
`urlTemplates`) merged over defaults. A `Wrapper` for a resource type collects relationship
definitions (`reference`) and packs data (`pack`): every related object held under a defined
property is moved out of its record into a shared `linked` section bucketed by related type.
The record keeps a link instead: the related id, or a `{id, type, href}` object in verbose mode.
When URL templates are on, the envelope also carries a `links` object of templates.

Modules:

- `Results` (`results.dfy`): `Option` and `Result`.
- `ArrayUtils` (`array_utils.dfy`): `arrify` and `unarrify`, over `OneOrMany<T>`, which
  stands for a JavaScript value that may or may not be an array.
- `Json` (`json.dfy`): JSON-like JavaScript values (`undefined`, `null`, booleans,
  integers, strings, arrays, objects), truthiness and `String(v)`.
- `Val` (`val.dfy`): the `Val` helper's `map` and `forEach`.
- `Api` (`api.dfy`): the option merge and the `JSONApi` class with its getters.
- `ResourceWrapper` (`wrapper.dfy`): relationship definitions, `_buildLinks`,
  `_buildLinked` and the `pack` folds as functions, and the `Wrapper` class.
  - `Reference` updates `refs` in place.
  - `BuildLinkTemplates` and `Pack` are the source's loops, each proved equal to its
    specification function.
- `PackProperties` (`pack_properties.dfy`): what `pack` guarantees, proved about its
  specification `PackSpec`:
  - records are packed independently and in order;
  - the shape of each packed record and its links;
  - the content of `linked`;
  - the cardinality checks;
  - the link templates.
- `TestExpectations` (`examples_from_tests.dfy`): three expectations of the repository's
  tests, proved about the model.

Errors the source raises as `TypeError` are `Failure` values:

- `ToManyGotSingle(prop)`: a to-many property holds a non-array.
- `ToManySingleId`: the ids of a to-many property are not an array. This check cannot fire
  (`SecondToManyCheckNeverFires`).
- `IdOfNothing`: reading `.id` off `null` or `undefined`.

An empty-array `reference([])` fails as well: `Reference` returns `false`.

Two behaviours of the code are easy to miss, and the model keeps both:

- With URL templates on and no definitions, the envelope's `links` key is present and holds
  `null` (src/wrapper.js:122-123, 188).
- The positional constructor `JSONApi(baseUrl, options)` always sets `baseUrl`, even to
  `undefined` (src/api.js:33-35). That value overrides the default `'/'` of `defaults`
  (src/api.js:12-16), so the default applies only in the object form `JSONApi({...})`.

## Model

| member | source | states |
|---|---|---|
| ArrayUtils.Arrify | src/utils/array_utils.js:5-7 | the result is an array; an array is returned as is, a non-array becomes the one-element array holding it |
| ArrayUtils.Unarrify | src/utils/array_utils.js:9-11 | a non-array is returned as is; an array gives its first element, or nothing (`undefined`) when empty |
| ArrayUtils.UnarrifyArrify | src/utils/array_utils.js:5-11 | `unarrify(arrify(x)) == x` for every non-array `x` |
| ArrayUtils.ArrifyIdempotent | src/utils/array_utils.js:5-11 | `arrify` is idempotent; for a non-empty array `unarrify(arrify(a)) == a[0]` |
| Val.Map | src/utils/val.js:19-25 | on an array: an array of the same length with `f(a[i], i)` at `i`; otherwise `f(v, 0)` |
| Val.ForEach | src/utils/val.js:11-17 | on an array: one call per element `(a[i], i)` in order, and `undefined` returned; otherwise the single call `(v, 0)` and its result returned |
| Val.MapKeepsShape | src/utils/val.js:19-25 | if `f` never returns an array, `map` returns an array exactly when the wrapped value is one |
| Val.MapFollowsForEach | src/utils/val.js:11-25 | `map`'s results are `f` applied to exactly the calls `forEach` makes, one per call, in order |
| Api.MergeOptions | src/api.js:31-38 | keys are the defaults' plus the supplied ones; supplied values override; defaults fill the rest; positional `baseUrl` always wins; object form copies the object |
| Api.JSONApi.constructor | src/api.js:26-39 | `options` is the merge of the supplied settings over the defaults, and holds every default key |
| Api.JSONApi.BaseUrl | src/api.js:60-64 | the getter returns `options.baseUrl` |
| Api.JSONApi.Verbose | src/api.js:60-64 | the getter returns `options.verbose` |
| Api.JSONApi.UrlTemplates | src/api.js:60-64 | the getter returns `options.urlTemplates` |
| Api.ResolvedSettings | src/api.js:12-38 | each setting is the supplied value if there is one, else the default (`false`, `false`, `'/'`); in the positional form `baseUrl` is the first argument |
| Api.NoArgumentsLeavesBaseUrlUndefined | src/api.js:31-38 | `JSONApi()` leaves `baseUrl` `undefined` rather than the default `'/'` |
| Api.ObjectFormIgnoresSecondArgument | src/api.js:31-32 | in the object form the second argument has no effect |
| ResourceWrapper.Ids | src/wrapper.js:75 | fails exactly when some related value is `null`/`undefined`; otherwise the id, or the ids of an array element by element |
| ResourceWrapper.LinkValue | src/wrapper.js:81-91 | compact: the ids unchanged; verbose: `{id, type, href}` per id, an array exactly when the ids are one |
| ResourceWrapper.LinkFor | src/wrapper.js:75-91 | the link of a related value: its id(s) in compact mode, `{id, type, href: baseUrl + type + '/' + id}` per id in verbose mode, including per element of a single record's array `id` |
| ResourceWrapper.BuildLinks | src/wrapper.js:72-92 | fails exactly when an id cannot be read or a to-many property's ids are not an array; else adds only the property's link, other links untouched |
| ResourceWrapper.BuildLinked | src/wrapper.js:103-110 | appends the related value (an array spread) to its type's bucket, creating it if needed; other buckets untouched |
| ResourceWrapper.Wrapper.constructor | src/wrapper.js:19-28 | stores the type and the `JSONApi`; no definitions yet |
| ResourceWrapper.Wrapper.Reference | src/wrapper.js:55-61 | appends exactly one definition: an object as given, the first element of an array marked to-many; an empty array fails and changes nothing |
| ResourceWrapper.Wrapper.BuildLinkTemplates | src/wrapper.js:119-137 | the loop computes `LinkTemplates` of the definitions; `null` exactly when there are none |
| ResourceWrapper.Wrapper.Pack | src/wrapper.js:147-192 | the nested loops compute `PackSpec` of the data, including the error raised, as specified below |
| PackProperties.ApplyRefsIgnoresLinked | src/wrapper.js:159-177 | a record's packed form and error do not depend on what `linked` already holds |
| PackProperties.PackFromPerRecord | src/wrapper.js:154-181 | the outer loop outputs the records packed one by one, in order, or the first record's error |
| PackProperties.PackFromAll | src/wrapper.js:149-181 | the outer loop from an empty result over all records outputs each record packed alone, in order, or the first failing record's error |
| PackProperties.RecordsOfEnvelope | src/wrapper.js:183-185 | the envelope holds the outer loop's records under the type (when it is not `linked`/`links`), and `pack` fails exactly when the loop does, with its error |
| PackProperties.PackPerRecord | src/wrapper.js:147-192 | `pack` succeeds iff every record packs alone; then one output record per input record, in order; else the first failing record's error; a bare object is a one-record list |
| PackProperties.SkipAbsent | src/wrapper.js:163-165 | definitions whose property is absent are skipped and change nothing |
| PackProperties.UntouchedRecord | src/wrapper.js:159-180 | a record holding no defined property comes out unchanged, without `links` |
| PackProperties.PackFromWithoutRelations | src/wrapper.js:154-181 | without defined properties the outer loop outputs the records as they are and no `linked` |
| PackProperties.PackWithoutRelations | src/wrapper.js:147-192 | data holding no defined property packs to the records themselves, without `linked`; `links` exactly when templates are on |
| PackProperties.AgreesAfterDelete | src/wrapper.js:176 | with distinct property names, deleting a handled property keeps the later definitions' properties as in the input |
| PackProperties.ApplyRefsChecksToMany | src/wrapper.js:167-169 | with distinct property names, if a record packs, every later to-many property it holds held an array |
| PackProperties.ToManyRecordHoldsArrays | src/wrapper.js:167-169 | a record packs only if each to-many property it holds is an array |
| PackProperties.ToManyNonArrayFails | src/wrapper.js:167-169 | a to-many property holding a non-array in any record makes `pack` fail |
| PackProperties.ApplyRefsSucceeds | src/wrapper.js:159-177 | with distinct property names, the inner loop succeeds iff every later referenced property the record holds has readable ids and, if to-many, holds an array |
| PackProperties.RecordPacks | src/wrapper.js:159-177 | with distinct property names, a record packs iff each referenced property it holds has readable ids and, if to-many, holds an array |
| PackProperties.PackSucceeds | src/wrapper.js:147-192 | with distinct property names, `pack` succeeds iff every record is well shaped that way; otherwise it fails reading `.id` off `null`/`undefined` (line 75) or on a to-many property holding a single value (line 168), never otherwise |
| PackProperties.ApplyRefsNoSecondCheck | src/wrapper.js:77-79 | the inner loop never raises the ids check |
| PackProperties.PackFromNoSecondCheck | src/wrapper.js:77-79 | the outer loop never raises the ids check |
| PackProperties.SecondToManyCheckNeverFires | src/wrapper.js:77-79 | `pack` never fails with "to-many relationship received single id": line 167 already excludes it |
| PackProperties.StepAbsentLinks | src/wrapper.js:163-165 | with distinct property names, skipping an absent property keeps the record and its links as described so far |
| PackProperties.StepPresent | src/wrapper.js:171-176 | handling a present property removes it, writes its link, keeps the other links |
| PackProperties.StepPresentLinks | src/wrapper.js:163-176 | with distinct property names, handling a present property extends the described state by exactly that property |
| PackProperties.ApplyRefsLinks | src/wrapper.js:159-177 | with distinct property names, after all definitions the record is the input minus the present properties, links exactly for them |
| PackProperties.RecordLinks | src/wrapper.js:159-180 | a packed record is the input minus the defined properties it held, plus `links` (only if it held one) keyed by exactly those, each the property's link |
| PackProperties.AddOneEvent | src/wrapper.js:103-110 | one related value adds to its type's bucket only |
| PackProperties.AddEventsKeys | src/wrapper.js:174 | the buckets after adding values are the old ones plus one per targeted type |
| PackProperties.AddEventsBucket | src/wrapper.js:174 | a bucket grows by exactly the values targeting its type, in order, arrays spread |
| PackProperties.AddEventsAppend | src/wrapper.js:174 | adding two runs of values is adding the first, then the second |
| PackProperties.ApplyRefsLinked | src/wrapper.js:159-177 | with distinct property names, the inner loop adds to `linked` exactly the record's related values, in definition order |
| PackProperties.PackFromLinked | src/wrapper.js:154-181 | the outer loop adds to `linked` the related values of every record, record by record |
| PackProperties.LinkedOfEvents | src/wrapper.js:103-110 | starting from no `linked`, adding related values creates it iff there is one, with one bucket per targeted type holding exactly its values |
| PackProperties.LinkedSection | src/wrapper.js:183-185 | `linked` exists iff some record held a defined property; one bucket per targeted type holding all its related values in record then definition order |
| PackProperties.TemplatesOfKeys | src/wrapper.js:126-134 | the template keys are exactly `type + '.' + ref` of the definitions |
| PackProperties.TemplatesOfLastWins | src/wrapper.js:128-134 | a key holds the template of the last definition with that key |
| PackProperties.TemplateKeyInjective | src/wrapper.js:129 | equal template keys mean equal property names |
| PackProperties.LinkTemplatesShape | src/wrapper.js:119-137 | `null` iff no definitions; else one key per definition, with distinct names each holding its own `{type, href}` |
| PackProperties.LinksSection | src/wrapper.js:187-189 | `links` is present iff URL templates are on, holds the templates, and is the same for any data |
| TestExpectations.CompactSettings | tests/wrapper_test.js:13 | `verbose: false, urlTemplates: false` reads back through the getters |
| TestExpectations.AuthorStep | tests/wrapper_test.js:43-57 | the to-one `author` definition turns the post into its compact link and moves the author out |
| TestExpectations.AuthorRecord | tests/wrapper_test.js:43-57 | both definitions applied to the post give its compact `author` link and the `authors` bucket; the absent `comments` is skipped |
| TestExpectations.AuthorPosts | tests/wrapper_test.js:43-57 | the outer loop over the post outputs its packed form and the `authors` bucket |
| TestExpectations.ToOneAuthor | tests/wrapper_test.js:43-57 | packing the post with an author gives `{posts: [{id, title, links: {author: 'j237h9'}}], linked: {authors: [author]}}` |
| TestExpectations.VerboseSettings | tests/wrapper_test.js:112 | `verbose: true` with base URL `'/'` reads back through the getters |
| TestExpectations.HrefOf | tests/wrapper_test.js:133-141 | a one-digit id `n` links to `'/comments/' + n` |
| TestExpectations.CommentLinks | tests/wrapper_test.js:127-143 | two comments link to `{id, type: 'comments', href: '/comments/<id>'}` in order |
| TestExpectations.VerboseCommentLinks | tests/wrapper_test.js:127-143 | the same under the verbose test's settings |
| TestExpectations.TemplateSettings | tests/wrapper_test.js:155 | `urlTemplates: true` with base URL `'/'` reads back through the getters |
| TestExpectations.CommentTemplates | tests/wrapper_test.js:171-176 | the templates of the `comments` definition are `{'posts.comments': {type: 'comments', href: '/comments/{posts.comments}'}}` |
| TestExpectations.CommentTemplate | tests/wrapper_test.js:171-176 | with templates on, `links` is `{'posts.comments': {type: 'comments', href: '/comments/{posts.comments}'}}` |

## Left out

- Numbers are integers, and `Num(n)` stands for a safe JavaScript integer (|n| < 2^53) only.
  Floating-point values and `NaN` are not modelled. Nor is the exponent form that `String` uses
  from 10^21 on (`String(1e21)` is `"1e+21"`): `ToJsString` always writes every digit, so hrefs
  and templates built from such ids differ.
- Objects are finite maps from strings to values. Key order, getters and non-JSON values
  (functions, symbols, cycles) are not modelled, and neither is the prototype chain. That chain
  matters when a name is that of an `Object.prototype` member (`constructor`, `toString`,
  `valueOf`, `hasOwnProperty`, `__proto__`, …):
  - `prop in item` (src/wrapper.js:163) is true for such a property name even when the record
    does not hold it;
  - `linked[type]` (src/wrapper.js:104) reads an inherited function or object for such a related
    type. It is truthy, so no bucket is created, and the `push` at line 106 or 108 throws a
    `TypeError`. For example, with `posts.reference({ref: 'author', res: new
    Wrapper('constructor', api)})`, `posts.pack({id: 1, author: {id: 'a'}})` throws, while
    `PackSpec` succeeds;
  - an assignment under the key `__proto__` (the envelope's `ret[self.type]` at line 184, or
    `links[prop]` at lines 82 and 90) replaces the object's prototype instead of adding a key.
- The deep `clone` of the input is implicit: values are immutable. Hence mutation of the
  caller's data, of the caller's `options` object (`options.baseUrl = …`) and of the
  caller's definition object (`ref.toMany = true`) is not modelled.
- Objects shared inside the packed data are modelled as independent copies. The source's deep
  clone keeps sharing (src/wrapper.js:152), so a record listed twice is one object: the first
  pass deletes its related properties (line 176) and the second pass skips them (lines
  163-165). For example, `pack([d, d])` with `d = {id: 1, author: {id: 'a'}}` puts the author
  into `linked.authors` once, while `PackSpec` puts it there twice. Likewise, a record that is
  also another record's related value reaches `linked` in its flattened form, with `links`.
  A record object that also occurs inside another record, under a property no definition
  names, is flattened in place. The enclosing record's output then shows it flattened too.
  For example, in `pack([A, B])` with `A = {id: 1, meta: B}` and `B = {id: 2, author: {id: 'x'}}`,
  the source outputs `A.meta` as `{id: 2, links: {author: 'x'}}`, while `PackSpec` outputs `A`
  unchanged.
- `Val`'s `toArray` constructor flag, the `ctx` binding, and the third (array) argument that
  `Array.prototype.map`/`forEach` pass are left out; no caller in the library uses them.
- The `instanceof` and `assert` checks of the constructors, and calls without `new`, are left
  out: the types of the Dafny signatures take their place.
- Api.JSONApi.constructor: requires a first argument that is not an array, and an options
  value that is an object or falsy; other shapes are not part of the documented interface.
- Api.MergeOptions: has the same requirement on its arguments as the constructor.
- Api.Supplied: has the same requirement on its arguments as the constructor.
- ResourceWrapper.Wrapper.Pack: requires every record to be an object (`Packable`), as the
  documented `{Array|Object}` argument says; primitive records are not modelled.
- ResourceWrapper.BuildLinked: stated for a related type not named like an `Object.prototype`
  member; with such a type the source throws instead of creating the bucket, as described above.
- ResourceWrapper.RefDef: definitions that lack `ref` or `res` are not modelled.
- PackProperties.RecordLinks: proved only for definitions with pairwise distinct property names.
  With a repeated name, the later definition finds the property deleted and is skipped.
- PackProperties.LinkedSection: proved only for pairwise distinct property names, for the same
  reason, and for a resource type other than `linked`. It also assumes that no object is shared
  inside the data: with a shared object, the source's `linked` differs as described above.
- PackProperties.PackFromLinked: proved only for pairwise distinct property names, and assumes
  no object is shared inside the data, as described above.
- PackProperties.LinksSection: stated for a resource type other than `links`; with that type the
  templates overwrite the records.
- PackProperties.ToManyRecordHoldsArrays: proved only for pairwise distinct property names.
- PackProperties.ToManyNonArrayFails: proved only for pairwise distinct property names.
- PackProperties.PackPerRecord: stated for a resource type other than `linked` and `links`.
  With such a type, the later assignment to that key overwrites the records; `PackSpec` models
  that overwrite. It also assumes that no record object occurs inside another record: such a
  record is output flattened there, with `links`, as described above.
- PackProperties.PackFromPerRecord: assumes that no record object occurs inside another record.
  Such a record appears flattened there, with `links`, as described above.
- PackProperties.PackFromAll: assumes that no record object occurs inside another record, for the
  same reason as `PackFromPerRecord`.
- PackProperties.PackSucceeds: proved only for pairwise distinct property names. Its "never
  otherwise" holds only when no related type and no property name is named like an
  `Object.prototype` member; with such a related type the source also throws at line 106 or 108,
  as described above.
- PackProperties.PackWithoutRelations: stated for a resource type other than `linked` and `links`, for the same reason.
- TestExpectations: the two-record to-one test (tests/wrapper_test.js:59-77) and the compact
  to-many test (tests/wrapper_test.js:91-104) are not restated. For the verbose test
  (tests/wrapper_test.js:128-147), only the `links` of the packed post are restated.
