# oas3 — OpenAPI 3 document builder, modelled in Dafny

This project models the two pure pieces of the oas3 endpoint-binding library.
The other parts of the library register routes and move files.

- **`OpenApi3`** (`openapi3.dfy`, package `oas3`). It builds the OpenAPI 3.0.0
  document, following the "OpenAPI Object" and "Paths Object" of the OpenAPI
  Specification 3.0.0. `NewOpenApiSpec3` starts the document with version tag
  `"3.0.0"`, the given info and empty server, tag and security lists. It then
  folds the endpoints, in input order, into the table `path -> (verb ->
  operation document)`. A path item is created the first time its path is
  seen. The verb entry is set, or overwritten, for each endpoint. The fluent
  calls `Server`, `Tag` and `Security` each append one entry to one list.
  Operation documents are opaque, so they are a type parameter `D`.
- **`Oas`** (`oas.dfy`, package `oas`). It holds the two schema-reference
  builders, which produce JSON Reference `$ref` objects. It also holds
  `GetOrElse`, a map lookup with a fallback, and `NewData`, the per-request
  context constructor.

The two Go files declare different packages, so the two modules do not import
each other.

Modelling choices:
- Go's mutation through pointers becomes functions that return the new value.
  The in-place update of a `*PathItemDoc` becomes a map update of the paths table.
- The loop at openapi3.go:31-40 becomes `Merge`, a fold whose accumulator is
  the table. `AddEndpoint` is one iteration of the loop without the router
  call.
- The Go struct field `method` is called `verb` here, because `method` is a
  Dafny keyword. It is used verbatim as the key, just as the Go cast to
  `HTTPVerb` does not normalise it.
- `Security` is never initialised in the source, so it starts as a nil slice.
  Appending to a nil slice behaves like appending to an empty one, so the model
  starts it as `[]`.
- A chain of fluent calls is a sequence of `Call` values applied by `Apply`.
- The leaf-operation count is the size of `Leaves(paths)`, the set of
  (path, verb) keys in the table.
- The request, response writer and endpoint in `Data` are type parameters.
  The untyped (`interface{}`) values in the maps and the body are the opaque
  type `Value`. A nil `Body` is `None`.
- The reference builders return Go `json.RawMessage` bytes. The model returns
  Dafny strings, so its lengths count characters where Go's count bytes. The
  fixed overheads (32 and 24) are ASCII and are the same in both units.

## Model

| member | source | states |
|---|---|---|
| OpenApi3.NewOpenApiSpec3 | openapi3.go:17-42 | The version tag is "3.0.0" and the info holds exactly the given title, description and version. Servers, tags and security start empty. The path keys are exactly the paths of the endpoints. The (path, verb) leaves are exactly the distinct (path, method) pairs of the input. Each pair holds the document of the last endpoint declaring it. |
| OpenApi3.AddEndpoint | openapi3.go:32-38 | One iteration adds the endpoint's path to the key set. It sets the endpoint's verb to its document. A new path item holds only that verb. An existing item gains the verb and keeps every other verb's document unchanged. Other path items are untouched. |
| OpenApi3.Merge | openapi3.go:31-40 | Folding endpoints into a table yields the old keys plus the endpoints' paths. No verb already in an existing item is ever removed. |
| OpenApi3.MergeKeepsOtherRoutes | openapi3.go:32-38 | Take a (path, verb) that no endpoint in the input declares. It is present after the merge if and only if it was present before, and its document is unchanged. |
| OpenApi3.MergeLastWins | openapi3.go:31-38 | The stored document for a route is the one of the last endpoint, in input order, that declares that (path, method). Earlier duplicates are silently overwritten. |
| OpenApi3.MergeLeaves | openapi3.go:31-38 | The leaves after the merge are the leaves before it plus the distinct (path, method) pairs of the input. |
| OpenApi3.LeafOrigin | openapi3.go:28-38 | Take the table built by merging the endpoints into an empty paths table, as a new document does. Every entry in it comes from the last endpoint declaring that (path, verb), and holds that endpoint's document. |
| OpenApi3.DistinctEndpointsGiveOneLeafEach | openapi3.go:31-38 | N endpoints with pairwise distinct (path, method) give exactly N operation entries. |
| OpenApi3.PetStoreScenario | openapi3.go:31-38 | GET /pets followed by POST /pets gives one path item "/pets" whose verbs are exactly {GET, POST}, each holding its own document. |
| OpenApi3.VerbIsNotNormalised | openapi3.go:38 | The method string is the verb key verbatim, so "get" and "GET" on one path are two separate entries. |
| OpenApi3.Server | openapi3.go:63-69 | Exactly one entry {url, description} is appended at the end of the servers. Earlier servers are kept, and tags, security, info, version and paths are unchanged. |
| OpenApi3.Tag | openapi3.go:72-78 | Exactly one entry {name, description} is appended at the end of the tags, and nothing else changes. |
| OpenApi3.Security | openapi3.go:81-87 | Exactly one requirement is appended at the end of security. Its name is the given name and its scopes are the given scopes in order. Nothing else changes. |
| OpenApi3.ApplyAppendsInCallOrder | openapi3.go:63-87 | Any chain of server, tag and security calls appends to each list exactly the entries of that list's own calls, in call order. It leaves the version, info and paths unchanged. |
| OpenApi3.ServerCallsAppendInOrder | openapi3.go:63-69 | K server calls append the K given entries, in call order. |
| Oas.ToSwaggerSchema | util.go:14-16 | The result is `{"$ref":"#/components/schemas/` followed by the name verbatim and then `"}`. Its length is the name's length plus 32. |
| Oas.SwaggerSchemaRoundTrip | util.go:14-16 | Reading the name back out of a built reference gives the name. Any string that reads back as a name is exactly the reference built from it. So the builder is injective. |
| Oas.ToJsonSchema | util.go:18-20 | The result is `{"$ref":"file://`, the directory, `/`, the name and `.json"}`, with both inserted verbatim. Its length is the two input lengths plus 24. |
| Oas.JsonSchemaRoundTrip | util.go:18-20 | With the directory known, reading the name back out of a built file reference gives the name, and every string that reads back is the reference built from it. |
| Oas.JsonSchemaDirAndNameAmbiguous | util.go:18-20 | Nothing is escaped, so name "b/c" in directory "a" gives the same reference as name "c" in directory "a/b". |
| Oas.GetOrElse | util.go:74-79 | The lookup returns the stored value when the key is present and the fallback when it is absent. |
| Oas.GetOrElseAfterStore | util.go:74-79 | After storing x under k, a lookup of k gives x. A lookup of any other key gives the same answer as before the store. |
| Oas.GetOrElseAfterRemove | util.go:74-79 | After removing k, a lookup of k gives the fallback. |
| Oas.NewData | util.go:27-37 | A fresh context holds the given request, writer and endpoint. Its query, params, headers and extra maps are empty, and it has no body. |
| Oas.NewDataLookupsFallBack | util.go:27-37 | Every lookup on any map of a fresh context gives the fallback. |

## Left out

- Router registration at openapi3.go:39. It is a side effect in the gorilla/mux router. What happens on a duplicate (path, verb) is decided by the router.
- `SwaggerDocs` (openapi3.go:44-59) is left out. It covers the route template lookup, mounting the static file server, `json.Marshal`, writing `spec.json` and the `panic` paths. All of these are I/O or foreign library behaviour.
- JSON serialisation of the document and any serialise/parse round trip are left out. The `oas3models` types and their JSON tags are not part of this model.
- The `OpenAPI3` wrapper struct around the `*OpenAPIDoc` pointer is left out. The model works on the document value directly, and a fluent call returns the updated document instead of the receiver.
- `typedParameter` and `reflect.Kind` (util.go:22-25) are left out, and so are the `oasm` package and the endpoint's handler and settings internals. Only the path, method and document fields are modelled.
- The `Response` struct (util.go:60-70) is left out. It is plain data with no behaviour.
- Capacity values (`make(..., 0, 1)`, `make(MapAny, len(...))`) are left out. The capacity a container is allocated with has no observable effect on its contents. Evaluating `len(e.query)` does have one: it dereferences the endpoint, which is covered by the `Oas.NewData` line below.
- OpenApi3.NewOpenApiSpec3: states the leaf count as the size of the set of (path, verb) keys. It does not state it as a sum of per-item map sizes, which count the same entries.
- OpenApi3.NewOpenApiSpec3: a nil entry in `endpoints` makes the source panic when it reads `e.settings.path` (openapi3.go:32). The model's endpoints are values and cannot be nil, so the model does not include that panic.
- Oas.NewData: a nil endpoint makes the source panic, because `len(e.query)` dereferences it (util.go:31). The model has no nil handle and always returns a fresh context.
- OpenApi3.Security: the source stores the caller's variadic slice itself (openapi3.go:84). The stored requirement therefore shares its backing array with the caller, and a later write to that slice changes the document. The model's `seq<string>` is an independent value, so it does not include this aliasing.
