# Verification of the t3api extension

A Dafny model of the parts of this PHP REST extension that hold real algorithms, with proofs of
what they promise. `dafny verify dfyconfig.toml` checks the whole project.

| files | what they model |
|---|---|
| `OpenApiModel`, `SchemaMeaning`, `ComponentWalk`, `OpenApiReferences` | the OpenAPI component builder: a recursive walk over a class graph that may be cyclic, with a static stack and a static component table, and what its document says |
| `Json`, `JsonRoundTrip`, `JsonGrammar`, `HandlerParams` | the printer and the parser of serializer handler parameters, over a JSON writer and a JSON reader that is proved against the grammar |
| `JoinModel`, `JoinChain`, `MatchFields` | dotted property paths compiled into left joins, and what those joins select |
| `IdLookups`, `IdMeanings` | the contain filter, full-text search and the distance filter, which look up record ids through such joins |
| `OrderedMap`, `Filters`, `FilterTexts`, `Repository`, `FilteredQuery`, `QueryMeaning`, `OrderBy`, `OrderRequests` | the filter compiler: sorting, constraint groups, orderings, what the text of a parameter asks for, and what a compiled query asks of a record |
| `Reordering`, `TextKeys`, `KeyOrder` | what the order of a request changes and what it does not |
| `Pages`, `PageRequests`, `CollectionResponse` | page arithmetic, what the entries of a request ask for, page links, memo fields and cloned queries |
| `Cascade`, `CascadeMeaning`, `CascadeAddressed`, `CascadeScope`, `CascadeHeld`, `CascadeClash`, `CascadeExamples` | deserialization of nested payloads into an object graph: which payloads it accepts and what they leave, what its scope check promises, and when it keeps that promise |
| `WriteModel`, `WriteMeaning`, `WritePath` | POST, PUT, PATCH and DELETE over sessions and a database, and exactly which requests succeed |
| `Upload`, `UploadNames` | the upload folder loop and the filename mask |
| `Php`, `Wrappers`, `Sequences` | the PHP scalar conversions, result types and sequence predicates the others use |

Code that works in place is a class with methods (`OpenApiBuilder`, `QueryBuilder`, `Query`,
`HydraCollectionResponse`, `Pagination`, `ResultQuery`, `PersistenceManager`, `OperationHandlers`,
`DomainObject`, `ResourceStorage`), each proved against functions whose properties are proved as
lemmas. A thrown exception is a `Failure`.

## What the proofs show about the code

Properties that hold without reservation are in the table below. These hold under an exact condition:

- A `$ref` of a built document dangles exactly when a class that an earlier, failed build left on the
  static stack can be reached from an entity with an operation (`ReferencesResolve`). The stack is a
  `static` local that no exception handler resets (Classes/Service/OpenApiBuilder.php:333-345), so it
  outlives the failed build in the same process. A failed build leaves the walk from an entity with an
  operation to the class whose metadata is missing (`Build`); every later build of the process that
  succeeds and documents an operation of that entity dangles, whatever happened in between (`FailureLasts`,
  and step by step `RunAfterFailure`).
- The error message "You can not update objects which are not related already"
  (Classes/Serializer/Handler/AbstractDomainObjectHandler.php:158) promises more than the check does. The
  check reads the target as it is at that moment and compares uids, so an object that nothing held when the
  call began can be updated in two ways: through a fresh object whose property is named like one of the
  target but holds another class (`NamesakeRenamed`, and for any metadata `NamesakeUpdated`), or by linking
  it by its number first (`LinkedRenamed`, and for any metadata `LinkedUpdated`).
  For payloads that address no object twice (the one written to counting as addressed), the promise is kept
  exactly when the metadata has no such clash of names, which can be read off it before any call
  (`ClashFreeIffHeld`). A payload that addresses an
  object twice can break it without any clash (`TwiceRenamed`).
- The comment at Classes/Service/SerializerMetadataService.php:61 says that decoding inverts encoding.
  It does exactly for integers, arrays and strings that are not themselves JSON (`SingleRoundTrip`,
  witnesses `RoundTripFailures`), a literal in any case being JSON too (`LiteralDecodes`), and for the text of a
  float exactly when no integer has that text (`FloatRoundTrip`); a list of parameters splits back exactly when
  no string holds an apostrophe (`ListSplits`). What is JSON is said by a grammar of its own (`DecodeIff`).
- The order of parameters and of registered filters never decides which records match
  (`PermutationKeepsMatches`), and that of the keys inside a parameter does only through full-text search:
  a placeholder is named by the integer cast of the key (Classes/Filter/SearchFilter.php:102), so
  `title[a]=foo&title[b]=bar` searches for bar alone, and for foo alone the other way round
  (`LaterDisplaces`, `KeyOrderDecides`). The same records are found for every order of the keys, on every
  database, exactly when each text is asked for under some cast that no other text has (`KeyOrderIff`).
- The joins of a nested property compare key columns only. They select exactly the records from which
  related records lead to the condition when and only when no relation of the path has match fields
  (`ExactIffPlain`), such as those of file references (Documentation/HandlingFileUpload/Index.rst:79-99).
- The distance filter joins the path of each coordinate for itself, so through a relation to many records the
  latitude of one record is combined with the longitude of another (`DistanceMeaning`, `CoordinatesMixed`).
- Several operators of one range parameter are alternatives, not a conjunction (`RangeIsDisjunction`).
- For an empty result the listed pages are `range(1, 0)`, the pages 1 and 0 (`ListedPages`).
- getView reads page and page size from the parameters that the pagination holds, which are those of the
  request only after getMembers; before, the view is that of the request exactly when both paginate alike
  (`ViewAgrees`); for `page=2` it is never (`ViewBeforeMembers`).
- The upload loop drops whatever precedes the first slash of `storage:identifier`, so it creates the
  folder that is looked up exactly when the identifier is empty or starts with a slash
  (`CreatedIsAddressed`), which `1:user_upload` does not (`FolderWithoutSlash`).
- The default filename mask keeps an uploaded name exactly when it has no slash and does not end in a
  dot (`DefaultMaskKeepsName`). The documentation gives the default mask as `[filename]`
  (Documentation/HandlingFileUpload/Index.rst:42); the model follows the code
  (Classes/Domain/Model/UploadSettings.php:25).

## Model

| member | source | states |
|---|---|---|
| OpenApiModel.IdentifierInjective | Classes/Service/OpenApiBuilder.php:323 | for class names without dots, class and mode can be read back from a schema identifier |
| OpenApiModel.ReferenceInjective | Classes/Service/OpenApiBuilder.php:324 | and likewise from a reference path |
| OpenApiModel.ReachesViaEdge | Classes/Service/OpenApiBuilder.php:333-345 | a walk from a property's class that avoids the class on top of the stack extends to a walk from that class |
| OpenApiModel.ClosedContainsReachable | Classes/Service/OpenApiBuilder.php:376-396 | a table closed up to the stack contains everything reachable without meeting the stack |
| OpenApiModel.AddToPathCorrect | Classes/Service/OpenApiBuilder.php:112-120 | adding an operation appends it under its own route and changes no other route |
| OpenApiModel.GroupsByRouteStep | Classes/Service/OpenApiBuilder.php:107-134 | so the paths list every route once and every operation once, in order |
| SchemaMeaning.DescribesIff | Classes/Service/OpenApiBuilder.php:428-464 | a type has exactly one schema that describes it: an array for a storage with a parameter, a date text for a date, a reference or a number for a class read or written, its own schema for each scalar name and a text for any other |
| SchemaMeaning.IdentifierText | Classes/Service/OpenApiBuilder.php:321-331 | an identifier is the class name with dots for backslashes, two underscores and the mode |
| SchemaMeaning.ComponentDescribes | Classes/Service/OpenApiBuilder.php:376-395 | a component has one entry for each own property of its class, in metadata order, with its serialized name, its read-only flag and a schema that describes its type, and `@id` behind them exactly when a resource is read |
| SchemaMeaning.ResourcesEnumerated | Classes/Service/OpenApiBuilder.php:107-122 | every operation is documented once, in the order of the resources and of the operations of each, with the answer and the body its verb calls for |
| SchemaMeaning.ArrangesOneMore | Classes/Service/OpenApiBuilder.php:112-120 | adding a document keeps the routes in the order of their first operations, and the operations of a route in the order of the resources |
| ComponentWalk.UnsetTop | Classes/Service/OpenApiBuilder.php:393 | unsetting a class that was pushed last restores the stack |
| ComponentWalk.ClosedAfterPop | Classes/Service/OpenApiBuilder.php:376-396 | popping a class whose own edges are covered keeps every emitted reference defined or on the stack |
| ComponentWalk.CollectOne | Classes/Service/OpenApiBuilder.php:377-383 | one property adds its schema and only schemas reachable from the class, never the class itself |
| ComponentWalk.OpenApiBuilder.GetComponentsSchemaReference | Classes/Service/OpenApiBuilder.php:321-341 | defines the schema or finds it on the stack, adds only what is reachable, restores the stack, keeps identifiers distinct; fails only when reachable metadata is missing, and then leaves on the stack the walk to that class; terminates on every graph by classes not on the stack |
| ComponentWalk.OpenApiBuilder.SetComponentsSchema | Classes/Service/OpenApiBuilder.php:343-396 | the same for the definition itself: each class and mode is defined at most once, and mid-recursion each reference is defined or on the stack |
| ComponentWalk.OpenApiBuilder.CollectProperties | Classes/Service/OpenApiBuilder.php:377-383 | the property loop yields the schemas of the class's own properties, all their targets covered |
| ComponentWalk.OpenApiBuilder.GetPropertySchemaFromPropertyType | Classes/Service/OpenApiBuilder.php:428-464 | the schema describes the type: an array exactly for a storage with a parameter, whose items describe that; the table grows by what its class reaches |
| ComponentWalk.OpenApiBuilder.GetOperation | Classes/Service/OpenApiBuilder.php:139-163 | an operation refers to the READ schema, and with a body to the WRITE schema, of its entity |
| ComponentWalk.OpenApiBuilder.GetPaths | Classes/Service/OpenApiBuilder.php:107-134 | all operations grouped by route, each route once and in the order of their first operations, and the table complete |
| ComponentWalk.ExpectedInKeys | Classes/Service/OpenApiBuilder.php:307-341 | every class and mode that should be defined is |
| ComponentWalk.TableComplete | Classes/Service/OpenApiBuilder.php:307-457 | the table is exactly READ of everything reachable from an entity with an operation plus WRITE of every entity with a body, each identifier once |
| ComponentWalk.TableDescribes | Classes/Service/OpenApiBuilder.php:307-457 | in that table each component describes one expected class and mode, and each of those is described |
| ComponentWalk.AbandonedNotLoadable | Classes/Service/OpenApiBuilder.php:343-369 | a walk is abandoned only at a class that the table should define and whose metadata is missing |
| ComponentWalk.OpenApiBuilder.Build | Classes/Service/OpenApiBuilder.php:50-62 | a build succeeds exactly when all metadata it needs loads, and then its table is that table, whatever stack it starts from: each component describes one expected class and mode, and each of those is described; a failed build leaves on the stack, above what was there, a path of the class graph from an entity with an operation to a class without metadata |
| OpenApiReferences.RefsOfComponent | Classes/Service/OpenApiBuilder.php:428-444 | a component refers to exactly the READ schemas of the classes its own properties lead to; a WRITE component to none |
| OpenApiReferences.GroupingKeepsDocs | Classes/Service/OpenApiBuilder.php:107-134 | grouping by route neither loses an operation nor invents one |
| OpenApiReferences.RefsOfPaths | Classes/Service/OpenApiBuilder.php:307-319 | the references in the paths are those of the operations |
| OpenApiReferences.ResolvesExpected | Classes/Service/OpenApiBuilder.php:321-341 | a reference names a schema of the table exactly when its class and mode are expected there |
| OpenApiReferences.ReferencesResolve | Classes/Service/OpenApiBuilder.php:55-61 | every reference of a built document resolves exactly when no class of a stale stack is reached; from the empty stack all resolve |
| OpenApiReferences.TableUnique | Classes/Service/OpenApiBuilder.php:389-395 | resources, metadata and stack determine the table's schemas |
| OpenApiReferences.BuildAfterFailure | Classes/Service/OpenApiBuilder.php:343-369 | from any stack, a failed build leaves the walk to the missing class; the next build dangles exactly when it reaches a class left behind, hence whenever it succeeds and the entity where that walk began still has an operation |
| OpenApiReferences.BuildAll | Classes/Service/OpenApiBuilder.php:50-62 | over any number of builds in one process, each succeeds exactly when its metadata loads, then dangles exactly when it reaches the stack and leaves the stack as it was; a failed one leaves its walk on top |
| OpenApiReferences.FailureLasts | Classes/Service/OpenApiBuilder.php:343-369 | after a failed build there is an entity of its resources such that every later build that succeeds and has an operation of that entity dangles |
| OpenApiReferences.StaleStackDangles | Classes/Service/OpenApiBuilder.php:345-353 | a concrete document, built from a stack with the class of its own resource, with a dangling reference |
| OpenApiReferences.RunAfterFailure | Classes/Service/OpenApiBuilder.php:50-62 | that stack at the end of a run: one builder fails on missing metadata, succeeds once it is there, and the reference of its only operation resolves to nothing |
| JsonRoundTrip.CharReads | Classes/Service/SerializerMetadataService.php:339-342 | every code point, surrogate pairs and HEX options included, reads back (section 7 of RFC 8259) |
| JsonRoundTrip.QuoteReads | Classes/Service/SerializerMetadataService.php:339-342 | every string literal reads back |
| JsonRoundTrip.NumberReads | Classes/Service/SerializerMetadataService.php:68 | every integer in range reads back |
| JsonRoundTrip.KeyReads | Classes/Service/SerializerMetadataService.php:68 | integer keys of PHP arrays survive as strings of a JSON object |
| JsonRoundTrip.ValueReads | Classes/Service/SerializerMetadataService.php:68 | every value reads back in front of any text that can follow it |
| JsonRoundTrip.DecodeWrite | Classes/Service/SerializerMetadataService.php:65-72 | decoding a written value of depth at most 512 gives the value |
| JsonGrammar.SpelledReads | Classes/Service/SerializerMetadataService.php:68 | each spelling of a character inside a string is read as that character (section 7 of RFC 8259) |
| JsonGrammar.ReadCharsAreSpelled | Classes/Service/SerializerMetadataService.php:68 | and whatever is read as a string is made of such spellings |
| JsonGrammar.NumberReadBack | Classes/Service/SerializerMetadataService.php:68 | every number of the grammar is read: as an integer when it is whole, in range and not the negative zero, as a float with its text otherwise (section 6 of RFC 8259) |
| JsonGrammar.ReadNumberIs | Classes/Service/SerializerMetadataService.php:68 | and whatever is read as a number is one |
| JsonGrammar.TreeReads | Classes/Service/SerializerMetadataService.php:68 | every text of the grammar is read as the value of its tree, with the last one of equal keys winning |
| JsonGrammar.ReadIsTree | Classes/Service/SerializerMetadataService.php:68 | and whatever is read is the text of a tree, with at most 512 arrays inside each other |
| JsonGrammar.DecodeIff | Classes/Service/SerializerMetadataService.php:65-72 | a text decodes to a value exactly when the grammar has a tree with that text and that value |
| JsonGrammar.EscapeIs | Classes/Service/SerializerMetadataService.php:339-342 | which characters are escaped, and how |
| JsonGrammar.ArrayWritten | Classes/Service/SerializerMetadataService.php:339-342 | an array is written as a list exactly when its keys are 0, 1, ... in this order, as an object otherwise |
| HandlerParams.SingleRoundTrip | Classes/Service/SerializerMetadataService.php:327-360 | what encoding rejects, and that decoding inverts it exactly for integers, arrays and strings that are not JSON |
| HandlerParams.FloatRoundTrip | Classes/Service/SerializerMetadataService.php:65-72 | a float parameter is its own text, which comes back as that float exactly when it is the text of a number with a fraction, an exponent, too many digits, or of the negative zero |
| HandlerParams.NumberTextDecodes | Classes/Service/SerializerMetadataService.php:65-72 | the text of any number comes back as that number |
| HandlerParams.LiteralDecodes | Classes/Service/SerializerMetadataService.php:65-72 | null, true and false in any case decode to the literal's value |
| HandlerParams.RoundTripFailures | Classes/Service/SerializerMetadataService.php:333-335 | the string "12" comes back as a number, "TRUE" as a boolean, "Null" as null; null comes back as the empty string, and a boolean is rejected |
| HandlerParams.WriteIsPlain | Classes/Service/SerializerMetadataService.php:339-342 | encoded values hold no apostrophe, angle bracket or ampersand |
| HandlerParams.SplitJoined | Classes/Service/SerializerMetadataService.php:324 | quoted and joined texts split back exactly when none holds an apostrophe |
| HandlerParams.ListSplits | Classes/Service/SerializerMetadataService.php:312-325 | an encoded list splits back into its encoded parameters exactly when no string parameter holds an apostrophe |
| HandlerParams.ListRoundTrip | Classes/Service/SerializerMetadataService.php:312-325 | splitting and decoding recovers the list exactly when each parameter round-trips |
| JoinChain.ChainIsWellScoped | Classes/Filter/AbstractFilter.php:48-57 | joins start from, and compare with, aliases introduced before; no alias is introduced twice |
| JoinModel.ResolveMeaning | Classes/Filter/AbstractFilter.php:40-57 | the names of a path resolve to the associations that the data maps give them, one class after the other, and to none when a part is not mapped |
| JoinChain.StepReaches | Classes/Filter/AbstractFilter.php:81-147 | the joins of one association reach every related record, for each kind of relation |
| JoinChain.StepOnlyRelated | Classes/Filter/AbstractFilter.php:81-147 | and only related records, or NULLs |
| JoinChain.ChainReaches | Classes/Filter/AbstractFilter.php:48-57 | the chain reaches the end of every chain of related records |
| JoinChain.ChainOnlyRelated | Classes/Filter/AbstractFilter.php:48-57 | and, for a condition false on NULL, only those |
| JoinChain.ChainSelects | Classes/Filter/AbstractFilter.php:34-66 | the roots selected are exactly those from which records related by key columns lead to one that satisfies the condition |
| JoinChain.QueryBuilder.AddJoin | Classes/Filter/AbstractFilter.php:81-147 | appends the joins of the association and returns the child alias; fails exactly for a belongs-to-many relation, which it cannot determine |
| JoinChain.QueryBuilder.AddJoinsForNestedProperty | Classes/Filter/AbstractFilter.php:34-66 | the loop appends the chain of the whole path to the joins already there, and fails exactly for an unnested property, an unmapped part or a belongs-to-many relation |
| MatchFields.FullyIsLed | Classes/Filter/AbstractFilter.php:81-147 | no fully related record is missed by comparing keys, and without match fields none is found beside them |
| MatchFields.ExactIffPlain | Classes/Filter/AbstractFilter.php:34-66 | the joins of a path are exact for relations as the column map defines them, on every database, exactly when no relation of the path has match fields |
| IdLookups.JoinAllProduces | Classes/Filter/AbstractFilter.php:81-147 | evaluating the left joins one after the other gives exactly the rows of the joined relation |
| IdLookups.IdsMeaning | Classes/Filter/ContainFilter.php:88-94 | the ids fetched are those of the joined rows on which some condition holds |
| IdLookups.AddTarget | Classes/Filter/ContainFilter.php:65-75 | the joins of a property, nested or not, and its column, behind the joins already there |
| IdLookups.PathOfNames | Classes/Filter/AbstractFilter.php:68-79 | the parts of a property in front of its last dot are associations, the part behind it is the column |
| IdLookups.FindContainingIds | Classes/Filter/ContainFilter.php:54-94 | the loop compiles one condition for each value; it fails exactly when the property cannot be joined |
| IdLookups.MatchAgainstFindIds | Classes/Filter/SearchFilter.php:74-122 | the loop names a placeholder for each entry by the cast of its key and binds its text, a later entry displacing an earlier one |
| IdLookups.FindNearIds | Classes/Filter/DistanceFilter.php:73-142 | both coordinates are joined by one query builder, one chain after the other |
| IdMeanings.ContainMeaning | Classes/Filter/ContainFilter.php:34-94 | the contain filter finds a record exactly when related records lead from it to one whose column lists a value |
| IdMeanings.ListHolds | Classes/Filter/ContainFilter.php:77-86 | a column of texts joined by commas lists exactly these texts |
| IdMeanings.TextMeaning | Classes/Filter/SearchFilter.php:74-122 | full-text search finds a record exactly when related records lead from it to one to which a bound text is relevant |
| IdMeanings.DistanceMeaning | Classes/Filter/DistanceFilter.php:91-142 | the distance filter finds a record exactly when related records, which need not be the same one, have a latitude and a longitude in the circle |
| IdMeanings.CoordinatesMixed | Classes/Filter/DistanceFilter.php:91-113 | a place that is found although neither of its two spots is in the circle |
| Php.ImplodeExplode | Classes/Filter/AbstractFilter.php:71-79 | splitting at a character and joining again gives the text back, with one part exactly when the character is absent |
| Php.ExplodeImplode | Classes/Filter/AbstractFilter.php:71-79 | and joining parts without the character and splitting again gives the parts back |
| Php.IntCastDecimal | Classes/Domain/Model/Pagination.php:87 | the integer cast of a written integer is that integer |
| Php.IntCastReads | Classes/Filter/RangeFilter.php:108-121 | the integer cast reads blanks, an integer, and stops at whatever cannot continue it |
| Filters.PartialIsContains | Classes/Filter/SearchFilter.php:46-54 | the partial strategy finds exactly the texts that contain the value, when it holds no wildcard |
| Filters.SearchMeaning | Classes/Filter/SearchFilter.php:37-68 | a search matches one of its values, contained in the text or equal to it; the full-text strategy matches the ids of its lookup, and alone can fail |
| Filters.RangeConstraintMeaning | Classes/Filter/RangeFilter.php:99-147 | one operator compares as its name says with the bound its text gives |
| Filters.RangeIsDisjunction | Classes/Filter/RangeFilter.php:71-91 | several operators are alternatives |
| FilterTexts.IntegerBound | Classes/Filter/RangeFilter.php:112-147 | an integer written in decimal is the bound that gt, gte, lt and lte compare with |
| FilterTexts.EndsOfBetween | Classes/Filter/RangeFilter.php:108-111 | two texts joined by two dots are the two ends of `between`, the first one the lower |
| FilterTexts.IntegerBetween | Classes/Filter/RangeFilter.php:99-113 | `a..b` asks for the integers from a to b, both included |
| FilterTexts.DateBetween | Classes/Filter/RangeFilter.php:99-147 | with the datetime strategy the ends are the dates of the two texts, and a text that is no date is refused |
| FilterTexts.IntegerRangeAccepted | Classes/Filter/RangeFilter.php:71-107 | a range of integers is refused exactly for a value that is no array or an unknown operator |
| FilterTexts.BooleanWords | Classes/Filter/BooleanFilter.php:31-38 | a boolean filter asks for 1 for the words 1, true, on and yes, in any case and between blanks, and for 0 otherwise |
| FilterTexts.BooleanArray | Classes/Filter/BooleanFilter.php:37 | of an array only the entry 0 counts, and without one the filter asks for 0 |
| FilterTexts.NumericAsks | Classes/Filter/NumericFilter.php:32-39 | a numeric filter asks for the integers that its texts are, given as one value or as an array |
| FilterTexts.WordsAsked | Classes/Filter/SearchFilter.php:37-68 | a search for words asks for the texts given, or with the partial strategy for those that contain one of them |
| FilterTexts.OrderAsks | Classes/Filter/OrderFilter.php:38-62 | asc and desc in any case, requested or else configured, order by the property; nothing is asked where neither is given, and any other word is refused |
| FilterTexts.CircleAsked | Classes/Filter/DistanceFilter.php:73-82 | which entries are the center and the radius of the circle, when the client's radius counts, and when the parameter is refused |
| FilterTexts.ParameterNameIs | Classes/Domain/Model/ApiFilter.php:94-105 | the parameter of a filter, dots replaced by underscores |
| FilterTexts.OthersAccepted | Classes/Filter/ContainFilter.php:34-75 | when the other filters refuse a parameter: for joins that cannot be made, or a value that is no array |
| FilterTexts.RequestedIs | Classes/Domain/Repository/CommonRepository.php:150-157 | a filter is requested exactly when the request has its parameter, and gets the value there |
| Repository.ComparatorIsLexicographic | Classes/Domain/Repository/CommonRepository.php:161-182 | the comparator orders by parameter position, then property position, a missing property counting as 0 |
| Repository.Usort | Classes/Domain/Repository/CommonRepository.php:159-183 | the sorted list is a permutation of the requested filters |
| Repository.UsortIsStableSort | Classes/Domain/Repository/CommonRepository.php:159-183 | the result is sorted, a permutation, and keeps the order of equal filters |
| Repository.StableSortUnique | Classes/Domain/Repository/CommonRepository.php:159-183 | there is only one such list |
| FilteredQuery.Applied | Classes/Domain/Repository/CommonRepository.php:93-94 | the filters applied are exactly the granted and requested ones |
| FilteredQuery.RangeFilterProperty | Classes/Filter/RangeFilter.php:71-91 | the loop collects the constraints of all operators or fails as one of them does |
| FilteredQuery.IdFilterProperty | Classes/Filter/ContainFilter.php:34-48 | the filters that look up ids return the constraint on those ids, or fail as the lookup does |
| FilteredQuery.FilterProperty | Classes/Filter/OrderFilter.php:38-62 | a filter returns a constraint or merges an ordering into the query, never both |
| FilteredQuery.BuildMatching | Classes/Domain/Repository/CommonRepository.php:116-123 | the conjunction of the disjunctions of the groups, or none |
| FilteredQuery.FindFiltered | Classes/Domain/Repository/CommonRepository.php:86-126 | the compiling loop yields the constraint and orderings of the applied filters in order, and fails exactly when one of them does |
| FilteredQuery.GroupMembers | Classes/Domain/Repository/CommonRepository.php:108-113 | a group holds exactly the constraints of the filters with its parameter name |
| FilteredQuery.ConjunctionMeaning | Classes/Domain/Repository/CommonRepository.php:116-123 | the query matches when each group has a constraint that holds |
| FilteredQuery.CompiledMeaning | Classes/Domain/Repository/CommonRepository.php:86-126 | a record matches exactly when, for every parameter with a constraint, one of its constraints holds; with none, every record matches |
| QueryMeaning.ConstraintMeaning | Classes/Domain/Repository/CommonRepository.php:97-113 | for every kind of filter, its constraint holds of a record exactly when its parameter asks for it: of its own fields, or of records related to it |
| QueryMeaning.QueryAsks | Classes/Domain/Repository/CommonRepository.php:86-126 | a compiled query matches a record exactly when, for every parameter that constrains it, one of the parameter's filters asks for the record |
| Reordering.SameApply | Classes/Filter/RangeFilter.php:71-91 | reordering the keys of its parameter leaves each filter the records it matches, the ordering it asks for and its refusal, on every database, as long as a full-text filter searches for the same texts |
| Reordering.PermutedParams | Classes/Domain/Repository/CommonRepository.php:150-155 | permuting the query string is one such reordering |
| Reordering.ReorderingKeepsMatches | Classes/Domain/Repository/CommonRepository.php:150-186 | reordering the parameters, the keys inside them and the registered filters changes neither refusal nor the matched records, as long as each applied full-text filter searches for the same texts |
| Reordering.PermutationKeepsMatches | Classes/Domain/Repository/CommonRepository.php:150-186 | permuting whole parameters and registered filters never changes refusal or the matched records |
| Reordering.UndisplacedKeepsMatches | Classes/Filter/SearchFilter.php:101-113 | nor does reordering keys, when no full-text parameter has a text that another one can displace |
| TextKeys.SameBindsIff | Classes/Filter/SearchFilter.php:101-113 | the texts bound to the placeholders are the same for every order of the keys exactly when keys with the same cast have the same text |
| TextKeys.SameTextsIff | Classes/Filter/SearchFilter.php:101-113 | the texts searched are the same for every order exactly when each is asked for under some cast that no other text has |
| TextKeys.CollidingButUndisplaced | Classes/Filter/SearchFilter.php:102 | the second condition is the weaker one: keys may collide and every order still search for the same texts |
| TextKeys.LaterDisplaces | Classes/Filter/SearchFilter.php:102 | of foo under a and bar under b only the later one is searched |
| KeyOrder.KeyOrderIff | Classes/Filter/SearchFilter.php:74-122 | a full-text filter does the same for every order of its keys, on every database, exactly when each text is asked for undisplaced |
| KeyOrder.KeyOrderDecides | Classes/Filter/SearchFilter.php:102 | a record that `title[b]=bar&title[a]=foo` matches and `title[a]=foo&title[b]=bar` does not |
| OrderBy.LastOrderSorted | Classes/Domain/Repository/CommonRepository.php:159-183 | sorting does not change which filter decides the direction at a requested key, however many order parameters there are |
| OrderBy.MergedMeaning | Classes/Filter/OrderFilter.php:44-59 | of the keys asked for under all order parameters, each with a direction occurs once, at its first place, with the direction of its last; no other key occurs |
| OrderBy.OrderingsFollowRequest | Classes/Filter/OrderFilter.php:59 | after every prefix of the applied filters, the orderings are those keys merged from that prefix, by parameter position and then key position |
| OrderBy.OrderByFollowsRequest | Classes/Filter/OrderFilter.php:38-62 | for any filters on any order parameters, ORDER BY is the requested keys merged in request order, each in the direction of the last granted filter for it, in whatever order the filters are registered |
| OrderBy.OneParameterOrder | Classes/Filter/OrderFilter.php:38-62 | with one order parameter: the requested keys that have a granted order filter with a direction, in request order, each once, with the direction of the last filter for it |
| OrderRequests.OrderingsFollow | Classes/Filter/OrderFilter.php:38-62 | ORDER BY in terms of the request: each key that some entry orders by, once, in the order of the first such entries, each in the direction that the last granted filter reads from the last such entry |
| Pages.MaximumBoundsPageSize | Classes/Domain/Model/Pagination.php:75-83 | a configured maximum bounds the page size, which is usable unless a negative size is asked for |
| PageRequests.EnabledIs | Classes/Domain/Model/Pagination.php:68-73 | where clients may decide, a given value turns pagination off when it is empty or 0 and on otherwise; else the server setting holds |
| PageRequests.AskedSizeIs | Classes/Domain/Model/Pagination.php:75-83 | the page size asked for is the one given in decimal where clients may give one, or the configured one |
| PageRequests.SizeIs | Classes/Domain/Model/Pagination.php:75-83 | the page size is the smaller one of the maximum and the size asked for, each as far as it is not 0; without either there is none |
| PageRequests.PageIs | Classes/Domain/Model/Pagination.php:85-88 | the page is the one given in decimal, or the first one |
| PageRequests.MembersAre | Classes/Response/AbstractCollectionResponse.php:51-62 | without pagination all members; with it page k of m members starts behind (k - 1) * m, and a request is refused exactly without a page size of 1 or more or with a page below 1 |
| PageRequests.ViewIs | Classes/Response/HydraCollectionResponse.php:44-86 | which links a view has and which pages they ask for, each keeping the path and all other parameters at their places |
| Pages.LastPageBounds | Classes/Response/HydraCollectionResponse.php:50 | the last page is the least number of pages that holds the result |
| PageRequests.CeilDivIs | Classes/Response/HydraCollectionResponse.php:50 | the last page is the quotient rounded up, for negative page sizes too |
| Pages.PagesCover | Classes/Domain/Model/Pagination.php:90-93 | the first k pages concatenate to a prefix of the result |
| Pages.PagesPartition | Classes/Response/AbstractCollectionResponse.php:51-62 | the pages 1 to last partition the result, all but the last full, the last not empty, later ones empty |
| Pages.PageParamsMeaning | Classes/Response/HydraCollectionResponse.php:115-118 | a page link asks for its page with the same page size and all other parameters |
| Pages.VisitsPages | Classes/Response/HydraCollectionResponse.php:67-72 | following next moves on by one page per request and stops at the last |
| Pages.FollowingNextCollectsAll | Classes/Response/HydraCollectionResponse.php:44-86 | from page 1 it visits each page once, keeps all other parameters and collects every member once |
| Pages.PrevUndoesNext | Classes/Response/HydraCollectionResponse.php:60-72 | prev after next asks for the page it came from, with the same members |
| Pages.ListedPages | Classes/Response/HydraCollectionResponse.php:74-80 | the listed pages are 1 to last, exactly when the result is not empty |
| Pages.ViewAgrees | Classes/Response/HydraCollectionResponse.php:44-86 | a view made from the parameters that the pagination holds is the view of the request exactly when both are paginated alike: enabled or not, the same page, the same last page |
| Pages.ViewBeforeMembers | ext_localconf.php:72-82 | with the shipped settings, getView before getMembers never gives the view of `page=2` |
| CollectionResponse.HydraCollectionResponse.ApplyPagination | Classes/Response/AbstractCollectionResponse.php:51-62 | a limited clone of the query, or the query itself; the stored query keeps no limit |
| CollectionResponse.HydraCollectionResponse.GetMembers | Classes/Response/AbstractCollectionResponse.php:33-40 | the members of the requested page, cached or not |
| CollectionResponse.HydraCollectionResponse.GetTotalItems | Classes/Response/AbstractCollectionResponse.php:42-49 | the size of the unpaginated result, cached or not |
| CollectionResponse.HydraCollectionResponse.GetView | Classes/Response/HydraCollectionResponse.php:44-86 | the view of the page that the pagination holds, its links carrying the request's parameters; no call needs to come before |
| CollectionResponse.HydraCollectionResponse.GetPages | Classes/Response/HydraCollectionResponse.php:74-80 | one link for each page number |
| CollectionResponse.HydraCollectionResponse.Run | Classes/Response/AbstractCollectionResponse.php:33-62 | every sequence of calls returns the members of the request's page, the unpaginated total, and the view of the parameters held, which are the request's from the first getMembers on |
| CollectionResponse.AfterMembers | Classes/Response/AbstractCollectionResponse.php:33-40 | hence after getMembers every call returns what request and result set alone determine |
| Cascade.Accept | Classes/Serializer/Subscriber/AbstractEntitySubscriber.php:54-69 | deserialization terminates; its log replays to exactly the resulting store; of existing objects only the root target and objects whose scope check passed are written, and the store of each check is the one to which the log up to it replays; an unwrapped entity is the target at depth 1 and a fresh object otherwise |
| CascadeMeaning.GetIs | Classes/Serializer/Handler/AbstractDomainObjectHandler.php:104-106 | a payload has under a name the value of the last field of that name |
| CascadeMeaning.GivesUidIs | Classes/Serializer/Handler/AbstractDomainObjectHandler.php:104 | a uid is given unless it is absent or null |
| CascadeMeaning.CollectionAttaches | Classes/Serializer/Handler/ObjectStorageHandler.php:45-76 | an array is accepted as a collection exactly when its elements are, one after another, each as an object; the storage then holds exactly these objects, each once, in the order in which the payload first yields them |
| CascadeMeaning.UidsAttached | Classes/Serializer/Handler/ObjectStorageHandler.php:69-75 | a list of uids attaches the persisted objects of these uids in that order and changes nothing else |
| CascadeMeaning.PropertiesWritten | Classes/Serializer/Construction/InitializedObjectConstructor.php:21-32 | an object is written exactly when each writable property that the payload has can be accepted, one after another in metadata order, and then holds what was accepted |
| CascadeMeaning.EntityWritten | Classes/Serializer/Construction/InitializedObjectConstructor.php:21-32 | at the root an array is accepted exactly when the class has metadata and its properties can be written, into the target or a new object |
| CascadeMeaning.NestedAccepted | Classes/Serializer/Handler/AbstractDomainObjectHandler.php:45-71 | below the root a number is always accepted, another scalar never, an array only where the property cascades |
| CascadeMeaning.UpdateAccepted | Classes/Serializer/Handler/AbstractDomainObjectHandler.php:133-171 | an array with a uid is accepted exactly when that object is persisted, in scope of the target, and can be written |
| CascadeMeaning.InsertAccepted | Classes/Serializer/Handler/AbstractDomainObjectHandler.php:117-128 | an array without a uid is accepted exactly when a new object can be written |
| CascadeMeaning.PlainFields | Classes/OperationHandler/AbstractOperationHandler.php:37-46 | a payload of scalars is accepted; each field that a writable property is given for holds the text, the number in decimal, or null, every other field and every other object is as before |
| Cascade.DeserializeTransport | Classes/Serializer/Handler/AbstractDomainObjectHandler.php:39-71 | the transport handler keeps these guarantees: a number finds the persisted object and changes nothing, an array needs a cascading property and inserts or updates, anything else fails |
| Cascade.ProcessCascadePersistence | Classes/Serializer/Handler/AbstractDomainObjectHandler.php:76-128 | as does the choice between insert and update |
| Cascade.ProcessCascadeUpdate | Classes/Serializer/Handler/AbstractDomainObjectHandler.php:133-171 | an update begins with a scope check that passed: on the store at hand, against the target of the context; its object becomes the target of everything below it |
| Cascade.VisitProperties | Classes/Serializer/Construction/InitializedObjectConstructor.php:21-32 | writing the properties of an object changes that object and what scope checks allow |
| Cascade.PlainWritten | Classes/OperationHandler/AbstractOperationHandler.php:42-46 | a payload of scalars sets exactly the writable properties it has, in order, and nothing else anywhere |
| Cascade.PlainPayload | Classes/OperationHandler/AbstractOperationHandler.php:37-46 | at the root it is written to the target, or to a new object without one |
| Cascade.NestedEntity | Classes/Serializer/Handler/AbstractDomainObjectHandler.php:45-128 | a nested number refers to the persisted object and changes nothing; a nested array needs a cascading property and yields the object of its uid, or a fresh one |
| Cascade.GoodUpdate | Classes/Serializer/Handler/AbstractDomainObjectHandler.php:154-170 | an update in scope of its target, on the store it starts from, justifies everything done below it |
| Cascade.JustifiedConcat | Classes/Serializer/Handler/AbstractDomainObjectHandler.php:164-170 | justifications compose, the stores of the second step's checks being stores of the whole run, which may write to an object that the first one updated |
| Cascade.CreatingChangesNothing | Classes/Serializer/Handler/AbstractDomainObjectHandler.php:178-185 | a payload for a new entity changes no existing object |
| Cascade.UpdateHasChain | Classes/Serializer/Handler/AbstractDomainObjectHandler.php:173-201 | every update is connected to the root target by a chain of scope checks, each on the store to which the run had led by then, and after the one before |
| Cascade.UpdatingStaysInScope | Classes/Serializer/Handler/AbstractDomainObjectHandler.php:133-201 | an existing object that changed is the root target or the end of such a chain |
| CascadeAddressed.UpdatesAddressed | Classes/Serializer/Handler/AbstractDomainObjectHandler.php:133-171 | the updates made are those that the payload addresses by uid, in its order, each through the addressed property and against the target that encloses it in the payload |
| CascadeAddressed.CheckedUnderEnclosing | Classes/Serializer/Handler/AbstractDomainObjectHandler.php:173-201 | so every updated object was in scope of its enclosing target, in the store to which the call had led by then |
| CascadeScope.ScopeByUid | Classes/Serializer/Handler/AbstractDomainObjectHandler.php:196-198 | the uid comparison on a reference finds the very object held exactly when the classes agree |
| CascadeScope.HeldUnlessOverwritten | Classes/Serializer/Handler/AbstractDomainObjectHandler.php:173-201 | whatever the metadata and the payload, an update is of an object that the same-named property held when the call began, unless that property was set earlier in the call or held an object of another class with the same uid |
| CascadeScope.CheckAgrees | Classes/Serializer/Handler/AbstractDomainObjectHandler.php:173-201 | without clashes a scope check can succeed only on a property of the same name and type that is not written before |
| CascadeHeld.UpdatedWereHeld | Classes/Serializer/Handler/AbstractDomainObjectHandler.php:154-158 | without clashes in the metadata, and from any store of typed objects with unique uids, a payload that addresses no object twice updates only objects that the same-named property of their target held, as the very object, when the call began |
| CascadeHeld.ChangedWereRelated | Classes/Serializer/Handler/AbstractDomainObjectHandler.php:154-158 | so every existing object that changed is the root or is reached from it by relations that held when the call began |
| CascadeClash.NamesakeUpdated | Classes/Serializer/Handler/AbstractDomainObjectHandler.php:196-198 | for every clash of classes there are objects and a payload such that the call updates an object that nothing held: the target held its namesake of another class |
| CascadeClash.LinkedUpdated | Classes/Serializer/Handler/AbstractDomainObjectHandler.php:83-95 | for every clash with a property written before there are objects and a payload such that the call updates an object that nothing held: its first step links it under the clashing property |
| CascadeClash.ClashFreeIffHeld | Classes/Serializer/Handler/AbstractDomainObjectHandler.php:154-158 | for all metadata with distinct names, known classes and no entity property named uid: every payload that addresses no object twice updates only objects held when the call began exactly when the metadata has no clash |
| CascadeExamples.NamesakeRenamed | Classes/Serializer/Handler/AbstractDomainObjectHandler.php:173-201 | the payload `{posts: [{author: {uid: 5, name: "x"}}]}` renames an admin, whom nothing held, because the category's author is the user with the same uid |
| CascadeExamples.LinkedRenamed | Classes/Serializer/Handler/AbstractDomainObjectHandler.php:173-201 | with `author: 5` before it, the same payload links a user by number and then renames that user |
| CascadeExamples.TwiceRenamed | Classes/Serializer/Handler/AbstractDomainObjectHandler.php:173-201 | under metadata without clashes, a payload that addresses one post twice links an author through the first element and renames that author through the second |
| WriteModel.StepKeepsValid | Classes/OperationHandler/AbstractItemOperationHandler.php:28-48 | every request keeps the rows well-formed, and one that fails leaves the database unchanged |
| WriteMeaning.PostSucceeds | Classes/OperationHandler/CollectionPostOperationHandler.php:29-43 | POST succeeds exactly when it is granted and the defaults overlaid with the payload are granted, valid and on an allowed page; it adds them under the next uid, a missing page replaced by the first storage page; which check refuses it |
| WriteMeaning.PutSucceeds | Classes/OperationHandler/ItemPutOperationHandler.php:31-58 | PUT succeeds exactly when the row is there, its stored values are granted, and the defaults overlaid with the payload are granted, valid and on an allowed page; they replace the row |
| WriteMeaning.PatchSucceeds | Classes/OperationHandler/ItemPatchOperationHandler.php:33-48 | PATCH succeeds exactly when the row is there, its stored values are granted, and these overlaid with the payload are granted and valid; they replace the row, and no page is checked |
| WriteMeaning.ItemSucceeds | Classes/OperationHandler/AbstractItemOperationHandler.php:28-48 | GET and DELETE succeed exactly when the row is there and its values are granted; GET returns them, DELETE removes that row alone |
| WriteModel.StepTouchesOneRow | Classes/OperationHandler/AbstractItemOperationHandler.php:33 | a request touches its own row only, POST a new one only |
| WriteModel.PutWrites | Classes/OperationHandler/ItemPutOperationHandler.php:38-57 | PUT leaves the defaults overlaid with the payload, placed on its page |
| WriteModel.PutDetermined | Classes/OperationHandler/ItemPutOperationHandler.php:45-52 | the row after PUT depends on uid, payload and configuration alone |
| WriteModel.PutIdempotent | Classes/OperationHandler/ItemPutOperationHandler.php:38-57 | repeating a PUT changes nothing, granted or refused (section 9.2.2 of RFC 9110) |
| WriteModel.DeleteIdempotent | Classes/OperationHandler/ItemDeleteOperationHandler.php:29-39 | repeating a DELETE changes nothing |
| WriteModel.PatchWrites | Classes/OperationHandler/ItemPatchOperationHandler.php:40-47 | PATCH sets the properties of its payload and leaves absent ones as they are |
| WriteModel.PatchesCompose | Classes/OperationHandler/ItemPatchOperationHandler.php:40-47 | two patches that succeed equal one with their right-biased union |
| WriteModel.DeleteUndoesPost | Classes/OperationHandler/CollectionPostOperationHandler.php:32-42 | POST adds one row under a new uid; deleting it restores the table |
| WriteModel.FailuresLeaveNoTrace | Classes/OperationHandler/AbstractOperationHandler.php:37-59 | over every run, failing requests can be dropped without changing the database |
| WriteModel.UidsAreNotReused | Classes/OperationHandler/CollectionPostOperationHandler.php:32-42 | over every run, a uid that is gone stays gone |
| WriteModel.UnaddressedRowsStay | Classes/OperationHandler/AbstractItemOperationHandler.php:33 | over every run, a row that no request addresses stays the same |
| WritePath.PersistenceManager.StorePending | Classes/OperationHandler/CollectionPostOperationHandler.php:38 | persistAll writes each queued object once, in order, and gives new ones a uid |
| WritePath.PersistenceManager.PersistAll | Classes/OperationHandler/ItemPutOperationHandler.php:55 | and deletes the removed ones; only here the database changes |
| WritePath.OperationHandlers.FindObject | Classes/OperationHandler/AbstractItemOperationHandler.php:28-48 | the object of the uid with its stored values, or refusal |
| WritePath.OperationHandlers.DeserializeAndValidate | Classes/OperationHandler/AbstractOperationHandler.php:37-59 | the payload is written into the object before the second access check and validation, and the first of these that fails refuses it |
| WritePath.OperationHandlers.Add | Classes/Domain/Repository/CommonRepository.php:198-218 | the page is set when missing, checked when given; a refused object is not queued |
| WritePath.OperationHandlers.ResetProperties | Classes/OperationHandler/ItemPutOperationHandler.php:45-50 | every property but the uid returns to its value in a new entity |
| WritePath.OperationHandlers.HandlePost | Classes/OperationHandler/CollectionPostOperationHandler.php:29-43 | in-place steps over a session end in the state and result of the model's step, failures included |
| WritePath.OperationHandlers.HandlePut | Classes/OperationHandler/ItemPutOperationHandler.php:31-58 | likewise for PUT, whose object is reset in place before it can be refused |
| WritePath.OperationHandlers.HandlePatch | Classes/OperationHandler/ItemPatchOperationHandler.php:33-48 | likewise for PATCH |
| WritePath.OperationHandlers.HandleDelete | Classes/OperationHandler/ItemDeleteOperationHandler.php:29-39 | likewise for DELETE |
| WritePath.OperationHandlers.HandleGet | Classes/OperationHandler/ItemGetOperationHandler.php:27-35 | likewise for GET, which changes nothing |
| WritePath.OperationHandlers.HandleAll | Classes/OperationHandler/AbstractItemOperationHandler.php:28-48 | a run of requests ends in the state of the model's run |
| Upload.CreatedIsAddressed | Classes/Service/FileUploadService.php:124-127 | the loop walks to the folder that was looked up exactly when the identifier behind the storage is empty or starts with a slash |
| Upload.FolderWithoutSlash | Classes/Service/FileUploadService.php:124-127 | for `1:user_upload` the folder looked up is user_upload and the loop stays at the root |
| Upload.WalkIsPath | Classes/Service/FileUploadService.php:129-139 | walking names leads to the path of the non-empty ones |
| Upload.ResourceStorage.EnterFolder | Classes/Service/FileUploadService.php:130-138 | one turn of the loop enters the named folder, creating it only when it is missing |
| Upload.ResourceStorage.EnterPath | Classes/Service/FileUploadService.php:124-139 | the loop ends at exactly the path; of its prefixes only the missing ones are new, and no other folder changes |
| Upload.ResourceStorage.GetUploadFolder | Classes/Service/FileUploadService.php:95-153 | the addressed folder when it exists, otherwise the one the loop creates |
| Upload.ResourceStorage.GetUploadFolderTwice | Classes/Service/FileUploadService.php:95-153 | for `storage:/path` the folder is at exactly that path, and asking again creates nothing |
| UploadNames.FolderOfNames | Classes/Service/FileUploadService.php:95-139 | `storage:/a/b` is the folder b in the folder a, looked up as well as created |
| Upload.TokenAtExact | Classes/Service/FileUploadService.php:178-184 | the pattern matches a token wherever one starts |
| Upload.Divide | Classes/Service/FileUploadService.php:178-184 | every mask divides into tokens and literals that start no token |
| Upload.DivisionUnique | Classes/Service/FileUploadService.php:178-184 | in only one way |
| Upload.ReplaceMeaning | Classes/Service/FileUploadService.php:178-184 | the scan replaces each token once, keeps literals, never reads replacements again, and fails exactly when a token has none |
| Upload.LeftOutIsNotMet | Classes/Service/FileUploadService.php:164-176 | a hash that is not computed is never missed |
| Upload.GetFilename | Classes/Service/FileUploadService.php:155-185 | the masked filename for the replacements that the mask asks for |
| Upload.FilenameMeaning | Classes/Service/FileUploadService.php:155-185 | every supported token always has its replacement; the filename fails exactly for an unsupported token |
| Upload.NameSplits | Classes/Service/FileUploadService.php:158-162 | filename and extension are the parts of the base name around its last dot |
| UploadNames.BasenameIs | Classes/Service/FileUploadService.php:158-160 | the base name is the last name of a path, whatever slashes follow it |
| UploadNames.PartsOf | Classes/Service/FileUploadService.php:158-162 | of a base name with a dot, what precedes its last dot is the filename and what follows it the extension |
| UploadNames.TokenTexts | Classes/Service/FileUploadService.php:155-185 | the text of each supported token |
| UploadNames.UnknownTokenFails | Classes/Service/FileUploadService.php:178-184 | any other token has none |
| UploadNames.PlainMask | Classes/Service/FileUploadService.php:155-185 | `[filename].[extension]` gives back the base name of a file that has a dot |
| Upload.DefaultMaskKeepsName | Classes/Domain/Model/UploadSettings.php:25 | the default mask keeps a name exactly when it has no slash and does not end in a dot |

## Left out

Within the modelled parts:

- OpenApiBuilder: schema examples, descriptions, parameters, servers, tags and the static responses; class loading is an input map, and any metadata missing from it throws.
- Json: floats are kept as their text, whose making by PHP is not modelled, and never written inside arrays; invalid UTF-8 and big-integer overflow to float are not modelled.
- HandlerParams.SplitQuoted: stands for the type parser of the serializer library, which is not part of this model; that parser also reads a doubled apostrophe as an escape.
- SerializerMetadataService: `stringifyPropertyType` (which prints a property type as a type string of the serializer), the generation of metadata files from reflection and doc comments, and the loop that collects the parent classes of an entity.
- JoinChain: SQL text and quoting; the enable-field restrictions of the query builder.
- IdLookups: which texts are relevant to a column, and the distance on the sphere, are decisions of the database; an empty list of values (which a query string cannot express); full-text keys with a negative integer cast, whose placeholder is not well formed.
- Filters: the boolean, numeric, order and search filters are functions; their loops are single maps. The query settings of the uid filter are left out.
- Filters.QueryParams: the decoding of the query string; parameters nest one level, and names that look like integers, which PHP turns into integer keys, are excluded by keeping keys as strings.
- Php.IntCast: exponents and overflow.
- Pages: building query strings from parameters and `Pagination.create`; a limit below 1 or an offset below 0 is taken to be refused by the query, as Extbase refuses it.
- HydraCollectionResponse: `getSearch`, and responses that share one pagination with another request.
- Cascade: modelled on values (a store of objects threaded through functions), because the handler updates no state of its own; nesting limits of the serializer, class inheritance in uid lookups, custom handlers, and booleans and fractions in a payload are left out. Existing objects are those already known to the persistence layer at the start.
- WritePath: events and nested payloads; access and validation are arbitrary decisions; persistAll writes whole rows atomically, one session per request; time stamps and language overlays are left out.
- Upload: resolving the storage and its permission errors, blanks around the parts of an identifier, and characters that a storage driver would sanitise; an empty name denotes the current folder; hashes are inputs, and hashing that fails is left out.

Not modelled at all: routing and middleware, site resolution, view helpers, the backend module, image, file, link and password handlers, CORS, expression evaluation, event dispatching, handler selection, caches and YAML dumping.
