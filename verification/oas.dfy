/** Model of the helpers of package oas (util.go): the two schema-reference
    builders, the per-request context constructor and the map lookup with a
    default.

    The request, response writer and endpoint are opaque here, so they are
    type parameters; the untyped values stored in the maps are the opaque
    type `Value`.
 */
module Oas {

  datatype Option<T> = None | Some(value: T)

  /** The name of a defined schema. */
  type Ref = string

  /* ---------------- schema references (JSON Reference `$ref` objects) ---------------- */

  const SwaggerRefPrefix: string := "{\"$ref\":\"#/components/schemas/"
  const FileRefPrefix: string := "{\"$ref\":\"file://"
  const FileRefSuffix: string := ".json\"}"
  const RefSuffix: string := "\"}"

  /** A reference to a schema of the served document's components section;
      the name is inserted verbatim, without escaping. */
  function ToSwaggerSchema(r: Ref): (s: string)
    ensures |s| == 32 + |r|
    ensures s[..30] == "{\"$ref\":\"#/components/schemas/"
    ensures s[30..30 + |r|] == r
    ensures s[30 + |r|..] == "\"}"
  {
    SwaggerRefPrefix + r + RefSuffix
  }

  /** A reference to the schema file `<schemasDir>/<name>.json`; directory
      and name are inserted verbatim, without escaping. */
  function ToJsonSchema(r: Ref, schemasDir: string): (s: string)
    ensures |s| == 24 + |schemasDir| + |r|
    ensures s[..16] == "{\"$ref\":\"file://"
    ensures s[16..16 + |schemasDir|] == schemasDir
    ensures s[16 + |schemasDir|] == '/'
    ensures s[17 + |schemasDir|..17 + |schemasDir| + |r|] == r
    ensures s[17 + |schemasDir| + |r|..] == ".json\"}"
  {
    FileRefPrefix + schemasDir + "/" + r + FileRefSuffix
  }

  /** Recovers the schema name from a served-document reference. */
  function ParseSwaggerSchema(s: string): Option<Ref>
  {
    if |s| >= |SwaggerRefPrefix| + |RefSuffix|
       && s[..|SwaggerRefPrefix|] == SwaggerRefPrefix
       && s[|s| - |RefSuffix|..] == RefSuffix
    then Some(s[|SwaggerRefPrefix|..|s| - |RefSuffix|])
    else None
  }

  /** Recovers the schema name from a file reference into a known directory. */
  function ParseJsonSchema(s: string, schemasDir: string): Option<Ref>
  {
    var head := FileRefPrefix + schemasDir + "/";
    if |s| >= |head| + |FileRefSuffix|
       && s[..|head|] == head
       && s[|s| - |FileRefSuffix|..] == FileRefSuffix
    then Some(s[|head|..|s| - |FileRefSuffix|])
    else None
  }

  /** Building a served-document reference and reading it back agree in
      both directions, so the builder is injective. */
  lemma SwaggerSchemaRoundTrip(r: Ref, s: string)
    ensures ParseSwaggerSchema(ToSwaggerSchema(r)) == Some(r)
    ensures ParseSwaggerSchema(s) == Some(r) ==> ToSwaggerSchema(r) == s
  {
  }

  /** Building a file reference and reading it back with the same directory
      agree in both directions. */
  lemma JsonSchemaRoundTrip(r: Ref, schemasDir: string, s: string)
    ensures ParseJsonSchema(ToJsonSchema(r, schemasDir), schemasDir) == Some(r)
    ensures ParseJsonSchema(s, schemasDir) == Some(r) ==> ToJsonSchema(r, schemasDir) == s
  {
  }

  /** Because nothing is escaped, a '/' may move between directory and name
      without changing the reference: the pair is not recoverable from it. */
  lemma JsonSchemaDirAndNameAmbiguous()
    ensures ToJsonSchema("b/c", "a") == ToJsonSchema("c", "a/b")
  {
  }

  /* ---------------- MapAny ---------------- */

  /** An untyped (`interface{}`) value; this layer never inspects one. */
  type Value

  /** A string-keyed map of untyped values. */
  type MapAny = map<string, Value>

  /** The stored value when the key is present, otherwise the fallback. */
  function GetOrElse(m: MapAny, key: string, elseValue: Value): (r: Value)
    ensures key in m ==> r == m[key]
    ensures key !in m ==> r == elseValue
  {
    if key in m then m[key] else elseValue
  }

  /** Lookup after a store: the stored value under that key, and the old
      answer under every other key. */
  lemma GetOrElseAfterStore(m: MapAny, k: string, x: Value, key: string, elseValue: Value)
    ensures GetOrElse(m[k := x], k, elseValue) == x
    ensures key != k ==> GetOrElse(m[k := x], key, elseValue) == GetOrElse(m, key, elseValue)
  {
  }

  /** Lookup after removing a key falls back to the default. */
  lemma GetOrElseAfterRemove(m: MapAny, k: string, elseValue: Value)
    ensures GetOrElse(m - {k}, k, elseValue) == elseValue
  {
  }

  /* ---------------- request context ---------------- */

  /** The per-request context handed to a handler.  `body` is None while the
      body has not been decoded (Go's nil). */
  datatype Data<Req, Writer, Ep> = Data(
    req: Req,
    resWriter: Writer,
    query: MapAny,
    params: MapAny,
    headers: MapAny,
    body: Option<Value>,
    endpoint: Ep,
    extra: MapAny)

  /** A fresh context: request, writer and endpoint attached, every map empty
      and no body.  The capacity each map is allocated with in the source
      does not affect its contents. */
  function NewData<Req, Writer, Ep>(w: Writer, r: Req, e: Ep): (d: Data<Req, Writer, Ep>)
    ensures d.req == r && d.resWriter == w && d.endpoint == e
    ensures d.query.Keys == {} && d.params.Keys == {} && d.headers.Keys == {} && d.extra.Keys == {}
    ensures d.body == None
  {
    Data(r, w, map[], map[], map[], None, e, map[])
  }

  /** On a fresh context every lookup answers with the fallback. */
  lemma NewDataLookupsFallBack<Req, Writer, Ep>(w: Writer, r: Req, e: Ep, key: string, elseValue: Value)
    ensures var d := NewData(w, r, e);
            && GetOrElse(d.query, key, elseValue) == elseValue
            && GetOrElse(d.params, key, elseValue) == elseValue
            && GetOrElse(d.headers, key, elseValue) == elseValue
            && GetOrElse(d.extra, key, elseValue) == elseValue
  {
  }
}
