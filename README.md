# php-elastic-query, modelled in Dafny

The library builds Elasticsearch search requests from PHP objects and wraps the raw replies in objects.

On the request side:

- A `Query` holds three full-text clauses (main query, filter and post-filter), an ordered list of `Sort`s, the `_source` fields to fetch, and a tree of uniquely named aggregations.
- `Query::toArray()` renders all of that into the nested PHP array that becomes the search body. An optional array of overrides is merged in last by `ArrayUtil::merge`.
- A `QueryRunner` reads the incoming request parameters and first runs every top-level aggregation's facet callback. It then computes the page and matches the full-text term. Finally it renders the query and wraps it with the index, the type and the `size`/`from` paging entries.

On the response side:

- The response object parses `hits.total`, `hits.max_score` and `hits.hits` into a count, a score and one `Document` per hit.
- Aggregation responses wrap each element of a `buckets` list in a `Bucket`.

The model follows the PHP code.

- **PHP arrays.**
  - They are ordered maps, `Php.Value`/`Php.Entries`, with integer and string keys.
  - A string key is normalised to an integer key as PHP does it (`Php.ArrayKey`).
  - `$a[$k] = $v` keeps an existing key in its place and appends a new one (`Php.Put`).
  - `$a[] = $v` uses the next integer key (`Php.Push`).
  - `isset` treats a null entry as missing (`Php.IsSet`).
  - `in_array` without its strict flag compares with PHP 7's loose `==` (`Php.LooseEq`): numeric strings compare as numbers, and an integer meets a string as the number at the string's start.
- **Objects whose fields the code updates** are Dafny classes with `modifies` clauses: `Sort`, `Aggregation`, `Query` and `QueryRunner`.
  - `Aggregation` and `Query` carry a ghost footprint `Repr` of the aggregation tree.
  - Their `Valid()` says that the tree is acyclic and that every child map has unique names.
- **Loops in the source are loop methods**, each proved equal to a specification function:
  - `ArrayUtil::merge`, `applySorts`, `applyAggregations`, `Aggregation::toArray` and `addSourceFields`;
  - the facet loop of `QueryRunner::toArray`;
  - `parseHits`, `parseBuckets` and the bucket-response constructor.

  Lemmas then state what those functions promise.
- **Response objects** are datatypes: they are built once and never changed.
- **Exceptions and PHP type errors** are results: `Wrappers.Result`, `Wrappers.Outcome` and `Php.Exception`.
  - `InvalidArgumentException` is raised for a duplicate aggregation name and for a bucket response without `buckets`.
  - `RuntimeException` is raised for a runner without an index.
  - `TypeError` is raised when a non-array reaches an `array` parameter.
  - PHP 7's `Error` ("Unsupported operand types") is raised when an array is used in arithmetic.

Where the library's documented design and its code disagree, the model follows the code:

- `toArray()` never writes the `_source` fields into the body. The model keeps `sourceFields` as state that the body does not depend on.
- With a main query and a filter, the `filtered` query holds the filter's `fquery` directly; there is no `constant_score` wrapper inside it.
- `from` is added only when the page is not empty as well as the limit (`QueryRunner.php:333-338`).
- The response side has no aggregation index, no bucket/metric flag and no strict/lenient switch. It is modelled as `ResponseTrait.php` and the aggregation response classes write it.

The code also disagrees with some of the repository's own tests.

- An empty query renders as `['query' => ['match_all' => []]]` (`Query.php:224-230`). The tests at `src/Tests/SortTest.php:43`, `SortTest.php:46-62` and `AggregationTest.php:100-120` expect no `query` entry.
- `Queries.EmptyQueryExample`, `Queries.SortInQueryExample` and `Queries.AggregationInQueryExample` state what the code renders in those cases.

## Model

| member | source | states |
|---|---|---|
| ArrayUtil.Merge | src/ArrayUtil.php:7-18 | the loop over the override returns the recursive merge `DeepMerge(a, b)` |
| ArrayUtil.MergeEmptyOverride | src/ArrayUtil.php:9-17 | merging an empty override returns the base unchanged |
| ArrayUtil.MergeIntoEmpty | src/ArrayUtil.php:9-17 | merging a well-formed override into an empty base returns the override |
| ArrayUtil.MergeLookup | src/ArrayUtil.php:10-14 | under a key of the override: the recursive merge when the base and override values are both arrays, otherwise the override's value; under any other key: the base's value |
| ArrayUtil.MergeKeys | src/ArrayUtil.php:9-15 | the result's keys are the base's keys in their order, followed by the override's new keys in the override's order |
| ArrayUtil.MergeKeySet | src/ArrayUtil.php:9-15 | a key is in the result exactly when it is in the base or in the override |
| ArrayUtil.MergeKeepsBase | src/ArrayUtil.php:9-15 | an entry of the base whose key the override does not mention survives at its position |
| ArrayUtil.MergeUnique | src/ArrayUtil.php:9-15 | the result has distinct keys whenever the base does |
| ArrayUtil.MergeExampleNested | src/Tests/ArrayUtilTest.php:45-59 | the nested `touloulou` arrays of the test merge key by key: `d` is replaced and `e` is appended |
| ArrayUtil.MergeExample | src/Tests/ArrayUtilTest.php:28-62 | the exact merge result of the library's test: list positions merge by key, a scalar replaced by an array, appended positions, the nested merge |
| Sorts.Options | src/Sort.php:111-126 | the sort options have exactly one key per truthy option, in the order order, mode, missing; each holds its option; the result is empty iff no option is truthy |
| Sorts.Sort.constructor | src/Sort.php:38-44 | field, order, mode and missing are stored as given, by default `_score` and nulls |
| Sorts.Sort.SetMode | src/Sort.php:71-74 | only the mode changes |
| Sorts.Sort.SetMissing | src/Sort.php:91-94 | only the missing-field behaviour changes |
| Sorts.Sort.ToArray | src/Sort.php:111-126 | the keys of the rendering are those of the truthy options; it is empty iff none is truthy |
| Sorts.BareSortIsEmpty | src/Tests/SortTest.php:13-14 | a sort without options renders as `[]` |
| Sorts.FullSortOrder | src/Tests/SortTest.php:31-36 | with all three options the rendering is order, mode, missing |
| Aggregations.Named | src/Query.php:199-208 | the children rendered under their names, one entry per child |
| Aggregations.NamedKeys | src/Aggregation/AggregationAwareTrait.php:27 | the rendered children are keyed exactly as the child map is |
| Aggregations.Aggregation.constructor | src/Aggregation/GenericAggregation.php:24-30 | name, type, body and meta are stored; no post-filter flag, no callback, no children |
| Aggregations.Aggregation.ApplyOnPostFilter | src/Aggregation/Aggregation.php:76-81 | the flag becomes the truthiness of the toggle, true by default |
| Aggregations.Aggregation.SetBody | src/Aggregation/GenericAggregation.php:39-44 | the body is replaced wholesale |
| Aggregations.Aggregation.SetMeta | src/Aggregation/GenericAggregation.php:53-58 | the meta data are replaced wholesale |
| Aggregations.Aggregation.SetApplyCallback | src/Aggregation/GenericAggregation.php:67-72 | the callback is replaced |
| Aggregations.Aggregation.Apply | src/Aggregation/GenericAggregation.php:77-82 | without a callback the query's clauses are unchanged, as the base class's empty `apply` (`Aggregation.php:109-111`) |
| Aggregations.Aggregation.GetResponse | src/Aggregation/Aggregation.php:120-123 | the response is the aggregation response built from the aggregation's name and the data |
| Aggregations.Aggregation.AddAggregation | src/Aggregation/AggregationAwareTrait.php:19-30 | a name already in the child map fails with the duplicate-name exception and changes nothing; otherwise the child is appended and the tree stays valid |
| Aggregations.Aggregation.ToArray | src/Aggregation/Aggregation.php:134-151 | the rendering loop computes `Render()` |
| Aggregations.Aggregation.RenderChildrenShape | src/Aggregation/Aggregation.php:144-148 | the children end up in one `aggs` entry after everything before it, in insertion order under their names; without children nothing is added |
| Aggregations.Aggregation.RenderShape | src/Aggregation/Aggregation.php:134-151 | the rendering is exactly the type mapped to the body, then `meta` iff there are meta data, then `aggs` iff there are children |
| Aggregations.GenericBuildExample | src/Tests/AggregationTest.php:13-47 | the two renderings of the generic-build test: body with `meta`, and a constructor body without meta |
| Aggregations.LeafRender | src/Aggregation/Aggregation.php:136-138 | an aggregation without meta or children renders as its type mapped to its body |
| Aggregations.SubAggregationRender | src/Tests/AggregationTest.php:65-81 | the parent `a` with children `b` and `c` renders as the test expects |
| Aggregations.SubAggregationTree | src/Tests/AggregationTest.php:54-63 | building the test's tree gives that rendering, and the second `b` fails with the duplicate-name exception |
| Aggregations.SubAggregationExample | src/Tests/AggregationTest.php:52-82 | the sub-aggregation test: the duplicate is refused and the rendering is exact |
| Queries.AddNewKeepsPrefix | src/Query.php:148-152 | adding source fields keeps the existing names first, in their order |
| Queries.AddNewMembers | src/Query.php:148-152 | afterwards only existing names and given items are listed, and `in_array` finds every given item |
| Queries.AddNewDistinct | src/Query.php:149 | every appended name differs, even loosely, from each name before it; a list without repeats gets none |
| Queries.AddNewSnoc | src/Query.php:148-152 | one more item is appended exactly when `in_array` does not find it in the list so far |
| Queries.AddNewPair | src/Query.php:148-152 | of two items from an empty list, the second is added exactly when `in_array` does not find it next to the first |
| Queries.LooseSourceFieldsNumeric | src/Query.php:149 | `'1e1'` after `'10'` is not added, both being the number 10 |
| Queries.LooseSourceFieldsInteger | src/Query.php:149 | `'1'` after `1` is not added |
| Queries.LooseSourceFieldsWord | src/Query.php:149 | `'title'` after `0` is not added, since a word meets an integer as 0 |
| Php.WordNotNumeric | src/Query.php:149 | a string starting with a letter or `_` is not numeric and reads as the number 0 |
| Php.LooseStrings | src/Query.php:149 | two strings of which one is not numeric are loosely equal exactly when they are equal |
| Php.TenTwoWays | src/Query.php:149 | `'10'` and `'1e1'` are numeric strings for the number 10 |
| Php.OneReadsAsOne | src/Query.php:149 | `'1'` reads as the number 1 |
| Php.LooseNumbers | src/Query.php:149 | `'1e1' == '10'`, `'1' == 1` and `1 == '1'` |
| Php.LooseWord | src/Query.php:149 | `'title' == 0` both ways and `true == 'title'`, but `'title' != 'Title'` |
| Php.LooseNull | src/Query.php:149 | `null == 0` and `[] == null`, but `null != '0'` and `[] != 0` |
| Queries.QueryPart | src/Query.php:224-285 | the `query` part is the only key; it is `match_all` iff both the main query and the filter are empty |
| Queries.SortEntry | src/Query.php:181-188 | a sort without options is the bare field name, otherwise `[field => options]` |
| Queries.SortList | src/Query.php:180-189 | one entry per sort, in insertion order |
| Queries.Query.constructor | src/Query.php:66-71 | three empty clauses, no sorts, no source fields, no aggregations |
| Queries.Query.AddSort | src/Query.php:124-129 | a fresh sort with the given field and options is appended; earlier sorts are kept |
| Queries.Query.AddSourceFields | src/Query.php:138-155 | the field list becomes the old list (or `[]` after `disableSource`) with each item appended that loose `in_array` does not find |
| Queries.Query.DisableSource | src/Query.php:164-169 | the source fields become `false` |
| Queries.Query.AddAggregation | src/Aggregation/AggregationAwareTrait.php:19-30 | a duplicate top-level name fails and changes nothing; otherwise the aggregation is appended |
| Queries.Query.ApplySorts | src/Query.php:176-192 | the loop builds the list of sort entries, in insertion order |
| Queries.Query.ApplyAggregations | src/Query.php:199-208 | the loop builds each top-level aggregation's rendering under its name, in order |
| Queries.Query.ToArray | src/Query.php:220-304 | the method computes the body `Body(overrides)` and leaves the query unchanged |
| Queries.Query.BodyShape | src/Query.php:222-297 | the body without overrides is exactly the query part, then `post_filter` iff the post-filter is non-empty, `sort` iff there are sorts, and `aggs` iff there are aggregations |
| Queries.Query.BodyOverrides | src/Query.php:299-301 | the overrides are merged over the body without overrides; no overrides leave it unchanged |
| Queries.SourceFieldsExample | src/Tests/QueryTest.php:80-81 | `_id`, then `_id`, `title`, `created` lists each name once |
| Queries.IdThenTitle | src/Tests/QueryTest.php:80-81 | after `_id`, a second `_id` is found and `title` is added |
| Queries.AdminListingBody | src/Tests/QueryTest.php:102-133 | a main query with a filter and a descending sort on `updated` give the test's `filtered`/`fquery`/`_cache` body and `sort` list |
| Queries.EmptyQueryExample | src/Query.php:224-230 | a new query renders as `match_all` alone |
| Queries.BareSortBody | src/Query.php:183-185 | a query with one optionless sort renders `match_all` and a one-name `sort` list |
| Queries.SortInQueryExample | src/Tests/SortTest.php:45-50 | `addSort('foo')` gives a `sort` list holding the bare `foo` |
| Queries.MixedSorts | src/Query.php:180-189 | `foo` without options and `bar` descending give a mixed list in insertion order |
| Queries.MixedSortExample | src/Tests/SortTest.php:52-62 | the mixed sort list of the test |
| Queries.SingleAggregationBody | src/Query.php:295-297 | one top-level aggregation appears under `aggs` by its name, after `query` |
| Queries.AggregationInQueryExample | src/Tests/AggregationTest.php:84-121 | the test's tree added to a query renders under `aggs.a` |
| Runner.GetQueryParam | src/QueryRunner.php:254-261 | the parameter when the key exists, even when it holds null; the default otherwise |
| Runner.PageFromRequest | src/QueryRunner.php:270-273 | the page parameter (0 when absent) plus the delta; PHP 7's `Error` iff the parameter is an array |
| Runner.NoCallbacks | src/Aggregation/Aggregation.php:109-111 | aggregations without callbacks leave the clauses unchanged |
| Runner.PagingShape | src/QueryRunner.php:327-340 | the parameters are index, type `node` and body, then `size` iff the limit is non-empty, then `from` iff the page is non-empty too, as `max(0, page-1) * limit`; they fail only for an array limit that must be multiplied |
| Runner.ThirdPage | src/Tests/QueryTest.php:89-135 | page parameter 3 with delta 1 and limit 20 gives `size` 20 and `from` 60 |
| Runner.FirstPage | src/QueryRunner.php:270-273 | without a page parameter the default delta selects page 1 and `from` 0 |
| Runner.QueryRunner.constructor | src/QueryRunner.php:40-77 | no index; limit 100, page 1, parameters `s` and `page`, roaming 0.8, no field, delta 1 |
| Runner.QueryRunner.SetLimit | src/QueryRunner.php:97-102 | the limit is stored as given |
| Runner.QueryRunner.SetPage | src/QueryRunner.php:123-128 | the page is stored as given |
| Runner.QueryRunner.SetIndex | src/QueryRunner.php:148-153 | the index is stored as given |
| Runner.QueryRunner.SetFulltextParameterName | src/QueryRunner.php:162-167 | the full-text parameter name is stored |
| Runner.QueryRunner.SetFulltextRoaming | src/QueryRunner.php:186-191 | the roaming is stored |
| Runner.QueryRunner.SetFulltextField | src/QueryRunner.php:200-205 | the full-text field is stored |
| Runner.QueryRunner.SetPageDelta | src/QueryRunner.php:224-229 | the delta becomes the integer cast of the value |
| Runner.QueryRunner.SetPageParameter | src/QueryRunner.php:238-243 | the page parameter name is stored |
| Runner.QueryRunner.WithTerm | src/QueryRunner.php:291-294 | only the main clause can change, and nothing changes when the term is absent or falsy |
| Runner.QueryRunner.ApplyFacets | src/QueryRunner.php:319-321 | the clauses become those after every top-level aggregation's `apply`, in order |
| Runner.QueryRunner.Prepare | src/QueryRunner.php:283-295 | the page becomes the page from the request, then the term is matched; an array page parameter fails before anything changes |
| Runner.QueryRunner.ToArray | src/QueryRunner.php:309-341 | without an index it fails and changes nothing; otherwise the facets, then `prepare`, then the search parameters for the rendered body |
| Runner.QueryRunner.Search | src/QueryRunner.php:315-341 | once the index is set: the facets of `ApplyAll`, then a failing page leaves the page alone, otherwise the page is stored, the term matched and the parameters are `Assemble` of the rendered body |
| Runner.QueryRunner.AddPaging | src/QueryRunner.php:327-340 | the parameters built from a rendered body, the limit and the current page are `Assemble` of them |
| PartialResponses.Get | src/PartialResponseTrait.php:37-44 | non-null iff the entry is set, and then the stored entry; null when absent |
| PartialResponses.GetEntry | src/PartialResponseTrait.php:37-44 | in a body with distinct keys, `get` returns the value stored under the name |
| PartialResponses.NullReadsAsMissing | src/PartialResponseTrait.php:39 | an entry holding null reads as missing |
| Buckets.Bucket.GetKey | src/Aggregation/Bucket.php:19-22 | the bucket's `key` entry when set, null otherwise |
| Buckets.Bucket.GetDocCount | src/Aggregation/Bucket.php:29-32 | the bucket's `doc_count` entry when set, null otherwise |
| Documents.Document.Get | src/Document.php:65-72 | on an array source: non-null iff the field is set, and then the stored value; on a string source: the character at the offset the name denotes, null when the name is not an integer inside the string; null for any other source |
| Documents.StringSourceGet | src/Document.php:65-72 | on the source `'abc'`, `'0'` gives `'a'`, `'-1'` gives `'c'`, and `'3'` and `'title'` give null |
| Documents.Document.SourceFieldNames | src/Document.php:60-63 | the source's keys in order; none when the source is not an array |
| Documents.FromHit | src/Document.php:16-33 | index, type and id are non-null iff the hit sets them, and then hold the hit's `_index`, `_type` and `_id`; score and source are the hit's when set, otherwise 1 and `[]` |
| Documents.EmptyHit | src/Document.php:10-16 | a document without a hit has every field at its default |
| Documents.GetSourceField | src/Document.php:65-72 | a non-null source field of a hit is what `get` returns |
| Responses.Response.Get | ResponseTrait.php:42-49 | non-null iff the entry is set, and then the stored entry |
| Responses.Response.GetDocCount | ResponseTrait.php:77-84 | the parsed total, or the body's `doc_count` when none was parsed |
| Responses.Response.GetMaxScore | ResponseTrait.php:91-94 | null iff no maximum score was parsed |
| Responses.CountIfSet | ResponseTrait.php:58-63 | a count exists iff the entry is set, and it is then the `(int)` cast of the entry |
| Responses.New | ResponseTrait.php:18-23 | the constructor's parse loop computes `Parse(body)` |
| Responses.ParsedDocuments | ResponseTrait.php:65-69 | parsing succeeds iff every hit is an array, and then there is one document per hit, in order |
| Responses.HasHitsIff | ResponseTrait.php:101-104 | `hasHits()` iff `hits.hits` has elements |
| Responses.DocCount | ResponseTrait.php:58-60 | the count is the int cast of `hits.total` when set; otherwise `getDocCount()` falls back to `doc_count` |
| Responses.MaxScore | ResponseTrait.php:61-63 | `getMaxScore()` is the int cast of `hits.max_score` when set, null otherwise |
| Responses.NoHits | ResponseTrait.php:56-70 | a body without `hits` gives no count, no score and no documents |
| AggregationResponses.AggregationResponse.Get | src/PartialResponseTrait.php:37-44 | non-null iff the entry is set, and then the stored entry |
| AggregationResponses.ParseBuckets | src/Aggregation/AggregationResponse.php:46-59 | the loop wraps each element of `buckets` in a bucket, and fails on the first non-array |
| AggregationResponses.New | src/Aggregation/AggregationResponse.php:30-36 | the constructor computes `Build(name, body)` |
| AggregationResponses.BuildBuckets | src/Aggregation/AggregationResponse.php:30-59 | success iff every element of `buckets` is an array; then name and body are kept and there is one bucket per element, in order |
| AggregationResponses.NoBuckets | src/Aggregation/AggregationResponse.php:50-52 | a missing or empty `buckets` gives no buckets and no error |
| AggregationResponses.NewBucketResponse | src/Aggregation/BucketAggregationResponse.php:19-30 | the constructor loop computes `BuildBucketResponse(name, body)` |
| AggregationResponses.BuildError | src/Aggregation/AggregationResponse.php:30-59 | the only error a nested response raises is a `buckets` element that is not an array |
| AggregationResponses.BucketResponseShape | src/Aggregation/BucketAggregationResponse.php:19-40 | refused as not a bucket response iff `buckets` is not set; with `buckets`, success iff every element is an array whose nested response builds; then one nested response per element, in order, and `hasBuckets()` iff there are elements |

## Left out

- `QueryRunner::execute` and the search client are not modelled. The call has no logic of its own beyond `toArray`.
- **The full-text clause library.**
  - A clause is only its emptiness and its rendered string (`Lucene.Clause`).
  - `matchTerm` is a parameter of `Runner.QueryRunner.ToArray`, and nothing is assumed about its effect.
  - `Query::getQuery()`, `getFilter()` and `getPostFilter()` are plain reads of `clauses`.
- Runner.QueryRunner.WithTerm: it does not state what `matchTerm` does to the main clause, because that is decided by the clause library.
- Facet callbacks receive the query's clauses and return new ones. A PHP callback may do anything to the query object; here it can only change the clauses.
- Aliasing: queries and aggregations hold clause values, not shared clause objects.
- Aggregations.Aggregation.AddAggregation and Queries.Query.AddAggregation require that the new child does not already contain its parent, so the tree stays finite. PHP permits such a cycle, and rendering it would never end.
- Aggregations.Aggregation.Valid and Queries.Query.Valid cover only trees built bottom-up, as the library's tests build them. Once an aggregation is attached to a query or to another aggregation, adding a child to it grows its footprint but not its parent's. The parent is then no longer `Valid()`, so it cannot be rendered in the model. PHP accepts such late children and renders them.
- Floating point is not modelled.
  - The roaming is a `real`, with no `(float)` cast.
  - `max_score` and the counts are integers.
  - A numeric string holding a fraction or an exponent is cast by its integer prefix.
  - Php.LooseEq compares numeric strings as exact numbers. PHP 7 compares them as integers, or as doubles when either has a fraction, an exponent or too many digits, so two long numerals that round to the same double are equal in PHP and not in the model.
  - Integers are unbounded: `page + delta` and `max(0, page - 1) * limit` do not turn into floats on 64-bit overflow as they do in PHP.
- Runner.PageFromRequest: it models PHP 7's addition on non-numeric strings (their integer prefix, without the warning) and does not model PHP 8's TypeError for them.
- The PHP error messages of TypeErrors are not reproduced. The model names the constructor or operation that raised each one.
- Documents.Document.Get follows PHP 7.1 and later, where a negative string offset counts from the end; PHP 7.0 treats it as unset.
- String offsets elsewhere: the other `isset` probes on values that may be strings use fixed keys that are not numeric (`hits`, `total`, `max_score`), which no string offset matches, so they read as unset.
- `setFulltextParameterName` and `setPageParameter` take strings. The `(string)` cast of `setPageParameter` is therefore the identity.
- The `formatBody()`/`formatMeta()` override points are not modelled. Only the generic aggregation exists in the repository, and it returns the stored body and meta unchanged.
- AggregationResponses.NewBucketResponse passes the aggregation's name to each nested response, where the code passes the aggregation object itself (`BucketAggregationResponse.php:28`).
- `src/Response.php` and `src/Aggregation/AbstractAggregationResponse.php` are context, not part of this model. The same holds for `src/ResponseTrait.php`, an earlier variant of the root `ResponseTrait.php`.
- `getBody()`, `getHits()`, `getBuckets()`, `getIndex()`, `getScore()` and the other plain getters are field reads of the datatypes and classes.
