/** Model of the OpenAPI 3 document builder of package oas3 (openapi3.go).

    The document follows the "OpenAPI Object" and "Paths Object" of the
    OpenAPI Specification 3.0.0.  Operation documents come from the endpoint
    definition layer and are never inspected here, so they are a type
    parameter `D`.  Router registration and publishing are not modelled.
 */
module OpenApi3 {

  /** The format version tag every new document carries. */
  const OpenApiVersion: string := "3.0.0"

  datatype Info = Info(title: string, description: string, version: string)

  datatype ServerDoc = ServerDoc(url: string, description: string)

  datatype TagDoc = TagDoc(name: string, description: string)

  datatype SecurityRequirementDoc = SecurityRequirementDoc(name: string, scopes: seq<string>)

  /** The `Methods` table of one path item: HTTP verb -> operation document. */
  type PathItem<D> = map<string, D>

  /** The paths table: URL path -> path item. */
  type Paths<D> = map<string, PathItem<D>>

  datatype Document<D> = Document(
    openApi: string,
    info: Info,
    servers: seq<ServerDoc>,
    tags: seq<TagDoc>,
    security: seq<SecurityRequirementDoc>,
    paths: Paths<D>)

  /** The three fields of an endpoint definition the builder reads. */
  datatype Endpoint<D> = Endpoint(path: string, verb: string, doc: D)

  /* ---------------- reference definitions ---------------- */

  /** Every path declared by some endpoint. */
  function PathsOf<D>(es: seq<Endpoint<D>>): set<string>
  {
    set i | 0 <= i < |es| :: es[i].path
  }

  /** Every (path, method) pair declared by some endpoint, method taken verbatim. */
  function Routes<D>(es: seq<Endpoint<D>>): set<(string, string)>
  {
    set i | 0 <= i < |es| :: (es[i].path, es[i].verb)
  }

  /** Every (path, verb) pair that has an operation document in the table. */
  function Leaves<D>(paths: Paths<D>): set<(string, string)>
  {
    set p, v | p in paths && v in paths[p] :: (p, v)
  }

  predicate SameRoute<D>(a: Endpoint<D>, b: Endpoint<D>)
  {
    a.path == b.path && a.verb == b.verb
  }

  /** Endpoint `i` is the last one, in input order, declaring its (path, method). */
  predicate LastOfRoute<D>(es: seq<Endpoint<D>>, i: int)
  {
    0 <= i < |es| && forall j :: i < j < |es| ==> !SameRoute(es[j], es[i])
  }

  /** No endpoint declares the route (p, v). */
  predicate RouteAbsent<D>(es: seq<Endpoint<D>>, p: string, v: string)
  {
    forall j :: 0 <= j < |es| ==> !(es[j].path == p && es[j].verb == v)
  }

  /* ---------------- the merge ---------------- */

  /** One iteration of the endpoint loop: create the path item when the path
      is new, then set or overwrite the endpoint's verb in it. */
  function AddEndpoint<D>(paths: Paths<D>, e: Endpoint<D>): (r: Paths<D>)
    ensures r.Keys == paths.Keys + {e.path}
    ensures e.verb in r[e.path] && r[e.path][e.verb] == e.doc
    ensures e.path in paths ==> r[e.path].Keys == paths[e.path].Keys + {e.verb}
    ensures e.path !in paths ==> r[e.path].Keys == {e.verb}
    ensures forall v :: e.path in paths && v in paths[e.path] && v != e.verb ==>
              r[e.path][v] == paths[e.path][v]
    ensures forall p :: p in paths && p != e.path ==> r[p] == paths[p]
  {
    var item := if e.path in paths then paths[e.path] else map[];
    paths[e.path := item[e.verb := e.doc]]
  }

  /** The endpoint loop as a fold, in input order, over an accumulated table. */
  function Merge<D>(paths: Paths<D>, es: seq<Endpoint<D>>): (r: Paths<D>)
    ensures r.Keys == paths.Keys + PathsOf(es)
    ensures forall p :: p in paths ==> paths[p].Keys <= r[p].Keys
    decreases |es|
  {
    if |es| == 0 then paths
    else
      PathsOfCons(es);
      Merge(AddEndpoint(paths, es[0]), es[1..])
  }

  lemma PathsOfCons<D>(es: seq<Endpoint<D>>)
    requires |es| > 0
    ensures PathsOf(es) == {es[0].path} + PathsOf(es[1..])
  {
  }

  lemma RoutesCons<D>(es: seq<Endpoint<D>>)
    requires |es| > 0
    ensures Routes(es) == {(es[0].path, es[0].verb)} + Routes(es[1..])
  {
  }

  /** An endpoint whose route no later endpoint repeats leaves every other
      verb alone: entries for routes absent from `es` survive the merge
      unchanged, and no such entry appears out of nowhere. */
  lemma {:induction false} MergeKeepsOtherRoutes<D>(paths: Paths<D>, es: seq<Endpoint<D>>, p: string, v: string)
    requires RouteAbsent(es, p, v)
    ensures (p in paths && v in paths[p]) <==> (p in Merge(paths, es) && v in Merge(paths, es)[p])
    ensures p in paths && v in paths[p] ==> Merge(paths, es)[p][v] == paths[p][v]
    decreases |es|
  {
    if |es| > 0 {
      assert !(es[0].path == p && es[0].verb == v);
      var next := AddEndpoint(paths, es[0]);
      assert (p in paths && v in paths[p]) <==> (p in next && v in next[p]);
      assert RouteAbsent(es[1..], p, v) by {
        forall j | 0 <= j < |es[1..]| ensures !(es[1..][j].path == p && es[1..][j].verb == v) {
          assert es[1..][j] == es[j + 1];
        }
      }
      MergeKeepsOtherRoutes(next, es[1..], p, v);
    }
  }

  /** Last write wins: the stored document for a route is the one of the
      last endpoint, in input order, that declares the route. */
  lemma {:induction false} MergeLastWins<D>(paths: Paths<D>, es: seq<Endpoint<D>>, i: int)
    requires LastOfRoute(es, i)
    ensures es[i].path in Merge(paths, es) && es[i].verb in Merge(paths, es)[es[i].path]
    ensures Merge(paths, es)[es[i].path][es[i].verb] == es[i].doc
    decreases |es|
  {
    var next := AddEndpoint(paths, es[0]);
    if i == 0 {
      assert RouteAbsent(es[1..], es[0].path, es[0].verb) by {
        forall j | 0 <= j < |es[1..]| ensures !(es[1..][j].path == es[0].path && es[1..][j].verb == es[0].verb) {
          assert es[1..][j] == es[j + 1];
          assert !SameRoute(es[j + 1], es[0]);
        }
      }
      MergeKeepsOtherRoutes(next, es[1..], es[0].path, es[0].verb);
    } else {
      assert LastOfRoute(es[1..], i - 1) by {
        forall j | i - 1 < j < |es[1..]| ensures !SameRoute(es[1..][j], es[1..][i - 1]) {
          assert es[1..][j] == es[j + 1];
          assert !SameRoute(es[j + 1], es[i]);
        }
      }
      MergeLastWins(next, es[1..], i - 1);
    }
  }

  lemma AddEndpointLeaves<D>(paths: Paths<D>, e: Endpoint<D>)
    ensures Leaves(AddEndpoint(paths, e)) == Leaves(paths) + {(e.path, e.verb)}
  {
  }

  /** The merge adds exactly one leaf per distinct (path, method) pair of its
      input and removes none. */
  lemma {:induction false} MergeLeaves<D>(paths: Paths<D>, es: seq<Endpoint<D>>)
    ensures Leaves(Merge(paths, es)) == Leaves(paths) + Routes(es)
    decreases |es|
  {
    if |es| > 0 {
      AddEndpointLeaves(paths, es[0]);
      RoutesCons(es);
      MergeLeaves(AddEndpoint(paths, es[0]), es[1..]);
    }
  }

  /** Every declared route has a last declaring endpoint at or after any
      endpoint declaring it. */
  lemma {:induction false} LastOfRouteExists<D>(es: seq<Endpoint<D>>, j: int)
    requires 0 <= j < |es|
    ensures exists i :: j <= i < |es| && SameRoute(es[i], es[j]) && LastOfRoute(es, i)
    decreases |es| - j
  {
    if !LastOfRoute(es, j) {
      var k :| j < k < |es| && SameRoute(es[k], es[j]);
      LastOfRouteExists(es, k);
    }
  }

  /** Distinct routes in the input give as many routes as endpoints. */
  lemma {:induction false} DistinctRoutesCount<D>(es: seq<Endpoint<D>>)
    requires forall i, j :: 0 <= i < j < |es| ==> !SameRoute(es[i], es[j])
    ensures |Routes(es)| == |es|
    decreases |es|
  {
    if |es| > 0 {
      RoutesCons(es);
      assert (es[0].path, es[0].verb) !in Routes(es[1..]) by {
        if (es[0].path, es[0].verb) in Routes(es[1..]) {
          var k :| 0 <= k < |es[1..]| && (es[1..][k].path, es[1..][k].verb) == (es[0].path, es[0].verb);
          assert SameRoute(es[0], es[k + 1]);
          assert false;
        }
      }
      assert forall i, j :: 0 <= i < j < |es[1..]| ==> !SameRoute(es[1..][i], es[1..][j]) by {
        forall i, j | 0 <= i < j < |es[1..]| ensures !SameRoute(es[1..][i], es[1..][j]) {
          assert es[1..][i] == es[i + 1] && es[1..][j] == es[j + 1];
        }
      }
      DistinctRoutesCount(es[1..]);
    }
  }

  /* ---------------- the document builder ---------------- */

  /** The document built at start-up: fixed version tag, the given info, empty
      lists (security is never initialised) and the merged paths table. */
  function NewOpenApiSpec3<D>(title: string, description: string, version: string, endpoints: seq<Endpoint<D>>): (doc: Document<D>)
    ensures doc.openApi == "3.0.0"
    ensures doc.info.title == title && doc.info.description == description && doc.info.version == version
    ensures doc.servers == [] && doc.tags == [] && doc.security == []
    ensures doc.paths.Keys == PathsOf(endpoints)
    ensures Leaves(doc.paths) == Routes(endpoints)
    ensures forall i :: LastOfRoute(endpoints, i) ==>
              && endpoints[i].path in doc.paths
              && endpoints[i].verb in doc.paths[endpoints[i].path]
              && doc.paths[endpoints[i].path][endpoints[i].verb] == endpoints[i].doc
  {
    var empty: Paths<D> := map[];
    var paths := Merge(empty, endpoints);
    MergeLeaves(empty, endpoints);
    assert Leaves(empty) == {};
    assert forall i :: LastOfRoute(endpoints, i) ==>
              && endpoints[i].path in paths
              && endpoints[i].verb in paths[endpoints[i].path]
              && paths[endpoints[i].path][endpoints[i].verb] == endpoints[i].doc
    by {
      forall i | LastOfRoute(endpoints, i)
        ensures && endpoints[i].path in paths
                && endpoints[i].verb in paths[endpoints[i].path]
                && paths[endpoints[i].path][endpoints[i].verb] == endpoints[i].doc
      {
        MergeLastWins(empty, endpoints, i);
      }
    }
    Document(OpenApiVersion, Info(title, description, version), [], [], [], paths)
  }

  /** Every operation document the merge stores in an empty table comes from
      the last endpoint declaring its (path, verb): the table holds nothing else. */
  lemma LeafOrigin<D>(endpoints: seq<Endpoint<D>>, p: string, v: string)
    requires p in Merge(map[], endpoints) && v in Merge(map[], endpoints)[p]
    ensures exists i :: && LastOfRoute(endpoints, i)
                        && endpoints[i].path == p && endpoints[i].verb == v
                        && Merge(map[], endpoints)[p][v] == endpoints[i].doc
  {
    var empty: Paths<D> := map[];
    MergeLeaves(empty, endpoints);
    assert Leaves(empty) == {};
    assert (p, v) in Leaves(Merge(empty, endpoints));
    var j :| 0 <= j < |endpoints| && (endpoints[j].path, endpoints[j].verb) == (p, v);
    LastOfRouteExists(endpoints, j);
    var i :| j <= i < |endpoints| && SameRoute(endpoints[i], endpoints[j]) && LastOfRoute(endpoints, i);
    MergeLastWins(empty, endpoints, i);
  }

  /** N endpoints with pairwise distinct (path, method) give exactly N
      operation entries. */
  lemma DistinctEndpointsGiveOneLeafEach<D>(title: string, description: string, version: string, endpoints: seq<Endpoint<D>>)
    requires forall i, j :: 0 <= i < j < |endpoints| ==> !SameRoute(endpoints[i], endpoints[j])
    ensures |Leaves(NewOpenApiSpec3(title, description, version, endpoints).paths)| == |endpoints|
  {
    DistinctRoutesCount(endpoints);
  }

  /** Two verbs on one path share one path item. */
  lemma PetStoreScenario<D>(get: D, post: D)
    ensures var doc := NewOpenApiSpec3("Pet Store", "desc", "1.0",
                                       [Endpoint("/pets", "GET", get), Endpoint("/pets", "POST", post)]);
            && doc.paths.Keys == {"/pets"}
            && doc.paths["/pets"].Keys == {"GET", "POST"}
            && doc.paths["/pets"]["GET"] == get
            && doc.paths["/pets"]["POST"] == post
  {
    var es := [Endpoint("/pets", "GET", get), Endpoint("/pets", "POST", post)];
    var m1 := AddEndpoint(map[], es[0]);
    assert es[1..] == [es[1]];
    assert Merge(m1, es[1..]) == Merge(AddEndpoint(m1, es[1]), []);
  }

  /** The method string is the verb key verbatim: "get" and "GET" are two
      different entries. */
  lemma VerbIsNotNormalised<D>(a: D, b: D)
    ensures var doc := NewOpenApiSpec3("t", "d", "v",
                                       [Endpoint("/x", "get", a), Endpoint("/x", "GET", b)]);
            doc.paths["/x"].Keys == {"get", "GET"}
  {
    var es := [Endpoint("/x", "get", a), Endpoint("/x", "GET", b)];
    var m1 := AddEndpoint(map[], es[0]);
    assert es[1..] == [es[1]];
    assert Merge(m1, es[1..]) == Merge(AddEndpoint(m1, es[1]), []);
  }

  /* ---------------- fluent configuration ---------------- */

  /** Appends one server entry; nothing else changes. */
  function Server<D>(doc: Document<D>, url: string, description: string): (r: Document<D>)
    ensures |r.servers| == |doc.servers| + 1
    ensures r.servers[..|doc.servers|] == doc.servers
    ensures r.servers[|doc.servers|] == ServerDoc(url, description)
    ensures r == doc.(servers := r.servers)
  {
    doc.(servers := doc.servers + [ServerDoc(url, description)])
  }

  /** Appends one tag entry; nothing else changes. */
  function Tag<D>(doc: Document<D>, name: string, description: string): (r: Document<D>)
    ensures |r.tags| == |doc.tags| + 1
    ensures r.tags[..|doc.tags|] == doc.tags
    ensures r.tags[|doc.tags|] == TagDoc(name, description)
    ensures r == doc.(tags := r.tags)
  {
    doc.(tags := doc.tags + [TagDoc(name, description)])
  }

  /** Appends one global security requirement; the variadic scopes are kept
      in the order given.  Nothing else changes. */
  function Security<D>(doc: Document<D>, name: string, scopes: seq<string>): (r: Document<D>)
    ensures |r.security| == |doc.security| + 1
    ensures r.security[..|doc.security|] == doc.security
    ensures r.security[|doc.security|].name == name
    ensures r.security[|doc.security|].scopes == scopes
    ensures r == doc.(security := r.security)
  {
    doc.(security := doc.security + [SecurityRequirementDoc(name, scopes)])
  }

  /** One call of a fluent configuration chain. */
  datatype Call =
    | ServerCall(url: string, description: string)
    | TagCall(name: string, description: string)
    | SecurityCall(name: string, scopes: seq<string>)

  function Step<D>(doc: Document<D>, c: Call): Document<D>
  {
    match c
    case ServerCall(url, description) => Server(doc, url, description)
    case TagCall(name, description) => Tag(doc, name, description)
    case SecurityCall(name, scopes) => Security(doc, name, scopes)
  }

  /** A chain of configuration calls, applied left to right. */
  function Apply<D>(doc: Document<D>, calls: seq<Call>): Document<D>
    decreases |calls|
  {
    if |calls| == 0 then doc else Apply(Step(doc, calls[0]), calls[1..])
  }

  /** The server entries a chain asks for, in call order. */
  function ServersOf(calls: seq<Call>): seq<ServerDoc>
    decreases |calls|
  {
    if |calls| == 0 then []
    else (if calls[0].ServerCall? then [ServerDoc(calls[0].url, calls[0].description)] else [])
         + ServersOf(calls[1..])
  }

  function TagsOf(calls: seq<Call>): seq<TagDoc>
    decreases |calls|
  {
    if |calls| == 0 then []
    else (if calls[0].TagCall? then [TagDoc(calls[0].name, calls[0].description)] else [])
         + TagsOf(calls[1..])
  }

  function SecurityOf(calls: seq<Call>): seq<SecurityRequirementDoc>
    decreases |calls|
  {
    if |calls| == 0 then []
    else (if calls[0].SecurityCall? then [SecurityRequirementDoc(calls[0].name, calls[0].scopes)] else [])
         + SecurityOf(calls[1..])
  }

  /** A configuration chain appends to each list exactly the entries of its
      own calls, in call order, and leaves the version, info and paths alone. */
  lemma {:induction false} ApplyAppendsInCallOrder<D>(doc: Document<D>, calls: seq<Call>)
    ensures Apply(doc, calls) == doc.(servers := doc.servers + ServersOf(calls),
                                      tags := doc.tags + TagsOf(calls),
                                      security := doc.security + SecurityOf(calls))
    decreases |calls|
  {
    if |calls| > 0 {
      var next := Step(doc, calls[0]);
      ApplyAppendsInCallOrder(next, calls[1..]);
      match calls[0]
      case ServerCall(_, _) =>
        assert next.servers + ServersOf(calls[1..]) == doc.servers + ServersOf(calls);
      case TagCall(_, _) =>
        assert next.tags + TagsOf(calls[1..]) == doc.tags + TagsOf(calls);
      case SecurityCall(_, _) =>
        assert next.security + SecurityOf(calls[1..]) == doc.security + SecurityOf(calls);
    }
  }

  /** K server calls add K server entries in call order. */
  lemma {:induction false} ServerCallsAppendInOrder<D>(doc: Document<D>, servers: seq<ServerDoc>)
    ensures var calls := seq(|servers|, k requires 0 <= k < |servers| => ServerCall(servers[k].url, servers[k].description));
            Apply(doc, calls) == doc.(servers := doc.servers + servers)
    decreases |servers|
  {
    var calls := seq(|servers|, k requires 0 <= k < |servers| => ServerCall(servers[k].url, servers[k].description));
    if |servers| > 0 {
      var next := Server(doc, servers[0].url, servers[0].description);
      ServerCallsAppendInOrder(next, servers[1..]);
      var rest := seq(|servers[1..]|, k requires 0 <= k < |servers[1..]| => ServerCall(servers[1..][k].url, servers[1..][k].description));
      assert calls[1..] == rest;
      assert next.servers + servers[1..] == doc.servers + servers;
    }
  }
}
