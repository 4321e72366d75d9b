/** The bridge (`MCPBridge`): it holds a data source and the manifest loaded
    from it, answers JSON-RPC requests by resolving them to paths under the
    source, and reshapes what it loads into MCP results. */
module Bridge {
  import opened Wrappers
  import opened JsonValue
  import opened Protocol
  import opened DataSources
  import PathResolver
  import Strings

  /** serde_json's `to_string` (compact) and `to_string_pretty`. */
  datatype Serializer = Serializer(compact: Json -> string, pretty: Json -> string)

  /** The methods `handle_request` routes to a handler. */
  const ROUTED_METHODS: set<string> := {"initialize", "resources/list", "resources/read", "tools/list", "tools/call"}

  /** The fixed result of `initialize`. */
  const INITIALIZE_RESULT: Json := Obj(map[
    "protocolVersion" := Str("2024-11-05"),
    "capabilities" := Obj(map["resources" := Obj(map[]), "tools" := Obj(map[])]),
    "serverInfo" := Obj(map["name" := Str("sse-static-mcp-bridge"), "version" := Str("1.0.0")])])

  const MANIFEST_NOT_LOADED := "Manifest not loaded"

  /** One entry of a `resources/read` result. */
  function ContentEntry(uri: Json, mimeType: Json, text: Json): Json {
    Obj(map["uri" := uri, "mimeType" := mimeType, "text" := text])
  }

  /** An object with the three fields of a resource entry and no others. */
  predicate IsContentEntry(e: Json) {
    e.Obj? && e.fields.Keys == {"uri", "mimeType", "text"}
  }

  /** A loaded document that describes one resource by itself. */
  predicate HasEntryFields(doc: Json) {
    Has(doc, "uri") && Has(doc, "mimeType") && Has(doc, "text")
  }

  /** The `contents` list of a `resources/read` result: the document's own
      `contents` if it has one, else the document's uri, mimeType and text as
      the single entry, else one entry synthesised from the requested URI and
      the document's pretty-printed text. */
  function ReadContents(requested: string, doc: Json, pretty: Json -> string): (c: Json)
    ensures Has(doc, "contents") ==> c == doc.fields["contents"]
    ensures !Has(doc, "contents") ==> c.Arr? && |c.items| == 1 && IsContentEntry(c.items[0])
    ensures !Has(doc, "contents") && HasEntryFields(doc) ==>
      c.items[0] == ContentEntry(doc.fields["uri"], doc.fields["mimeType"], doc.fields["text"])
    ensures !Has(doc, "contents") && !HasEntryFields(doc) ==>
      c.items[0] == ContentEntry(Str(requested), Str("application/json"), Str(pretty(doc)))
  {
    if Has(doc, "contents") then doc.fields["contents"]
    else if HasEntryFields(doc) then
      Arr([ContentEntry(doc.fields["uri"], doc.fields["mimeType"], doc.fields["text"])])
    else
      Arr([ContentEntry(Str(requested), Str("application/json"), Str(pretty(doc)))])
  }

  /** A document that already is a single resource entry comes back as the
      one-element list of itself, whatever URI was asked for. */
  lemma ContentEntryFixedPoint(e: Json, requested: string, pretty: Json -> string)
    requires IsContentEntry(e)
    ensures ReadContents(requested, e, pretty) == Arr([e])
  {
    assert "contents" !in e.fields.Keys;
    assert "uri" in e.fields.Keys && "mimeType" in e.fields.Keys && "text" in e.fields.Keys;
    var f := map["uri" := e.fields["uri"], "mimeType" := e.fields["mimeType"], "text" := e.fields["text"]];
    assert f.Keys == e.fields.Keys;
    assert e == Obj(f);
  }

  /** The requested URI matters only when the document says nothing about
      itself: with `contents`, or with uri, mimeType and text, the result is
      the same for every request, and otherwise different requests give
      different contents. */
  lemma ReadContentsRequestedOnlyInSynthesis(u1: string, u2: string, doc: Json, pretty: Json -> string)
    requires u1 != u2
    ensures Has(doc, "contents") || HasEntryFields(doc) <==> ReadContents(u1, doc, pretty) == ReadContents(u2, doc, pretty)
  {
    if !Has(doc, "contents") && !HasEntryFields(doc) {
      var c1, c2 := ReadContents(u1, doc, pretty), ReadContents(u2, doc, pretty);
      assert c1.items[0].fields["uri"] == Str(u1);
      assert c2.items[0].fields["uri"] == Str(u2);
    }
  }

  /** `{"type": "text", "text": text}` */
  function TextItem(text: string): Json {
    Obj(map["type" := Str("text"), "text" := Str(text)])
  }

  /** The result of a successful `tools/call`: the document itself when it has
      `content` or `contents`, else one text item holding its pretty text. */
  function ToolContent(doc: Json, pretty: Json -> string): (c: Json)
    ensures Has(doc, "content") || Has(doc, "contents") ==> c == doc
    ensures !(Has(doc, "content") || Has(doc, "contents")) ==> c == Obj(map["content" := Arr([TextItem(pretty(doc))])])
    ensures Has(c, "content") || Has(c, "contents")
  {
    if Has(doc, "content") || Has(doc, "contents") then doc
    else Obj(map["content" := Arr([TextItem(pretty(doc))])])
  }

  /** Shaping a tool result twice is shaping it once. */
  lemma ToolContentIdempotent(doc: Json, pretty: Json -> string)
    ensures ToolContent(ToolContent(doc, pretty), pretty) == ToolContent(doc, pretty)
  {
  }

  /** The result of a `tools/call` whose document could not be loaded. */
  function ToolErrorResult(name: string, error: string): (c: Json)
    ensures Get(c, "isError") == Some(Bool(true))
    ensures Get(c, "content") == Some(Arr([TextItem("Error calling " + name + ": " + error)]))
  {
    Obj(map["content" := Arr([TextItem("Error calling " + name + ": " + error)]), "isError" := Bool(true)])
  }

  /** `params.get("arguments").and_then(as_object).cloned().unwrap_or_default()` */
  function ToolArguments(params: Json): (args: map<string, Json>)
    ensures params.Obj? && "arguments" in params.fields && params.fields["arguments"].Obj? ==>
      args == params.fields["arguments"].fields
    ensures !(params.Obj? && "arguments" in params.fields && params.fields["arguments"].Obj?) ==> args == map[]
  {
    match Get(params, "arguments")
    case Some(a) => AsObject(a).GetOr(map[])
    case None => map[]
  }

  /** The path `resources/read` loads: that of the `uri` parameter, "" when missing. */
  function ResourcePath(params: Json): string {
    PathResolver.UriToPath(StrFieldOrEmpty(params, "uri"))
  }

  /** The path `tools/call` loads: that of the `name` parameter and the arguments. */
  function ToolCallPath(params: Json, serde: Serializer): string {
    PathResolver.ToolToPath(StrFieldOrEmpty(params, "name"), ToolArguments(params), serde.compact)
  }

  class MCPBridge {
    const dataSource: DataSource
    const serde: Serializer
    var manifest: Option<Manifest>

    /** `MCPBridge::new`: no manifest yet. */
    constructor (dataSource: DataSource, serde: Serializer)
      ensures this.dataSource == dataSource && this.serde == serde
      ensures manifest == None
    {
      this.dataSource := dataSource;
      this.serde := serde;
      manifest := None;
    }

    /** `initialize`: loads the manifest; on success it becomes the bridge's
        manifest, on failure the error is returned and nothing changes. */
    method Initialize() returns (r: Result<(), string>)
      modifies this
      ensures r.Success? <==> LoadManifest(dataSource).Success?
      ensures r.Success? ==> manifest == Some(LoadManifest(dataSource).value)
      ensures r.Failure? ==> r.error == LoadManifest(dataSource).error && manifest == old(manifest)
    {
      var loaded := LoadManifest(dataSource);
      match loaded {
        case Success(m) =>
          manifest := Some(m);
          r := Success(());
        case Failure(e) =>
          r := Failure(e);
      }
    }

    /** `get_manifest` */
    function GetManifest(): Option<Manifest>
      reads this
    {
      manifest
    }

    /** `initialize` requests: the fixed server description, with or without
        a manifest. */
    function HandleInitialize(id: Option<Json>): (r: Response)
      ensures WellFormed(r) && r.id == id
      ensures r.result == Some(INITIALIZE_RESULT)
    {
      ResultResponse(id, INITIALIZE_RESULT)
    }

    /** `resources/list`: the manifest's resource descriptors, or an error when
        no manifest is loaded. */
    function HandleListResources(id: Option<Json>): (r: Response)
      reads this
      ensures WellFormed(r) && r.id == id
      ensures r.error.Some? <==> manifest.None?
      ensures manifest.None? ==> r.error == Some(MCPError(INTERNAL_ERROR, MANIFEST_NOT_LOADED, None))
      ensures manifest.Some? ==> r.result == Some(Obj(map["resources" := Arr(ResourcesOf(manifest.value))]))
    {
      match manifest
      case Some(m) => ResultResponse(id, Obj(map["resources" := Arr(ResourcesOf(m))]))
      case None => ErrorResponse(id, INTERNAL_ERROR, MANIFEST_NOT_LOADED)
    }

    /** `resources/read`: loads the resource's path and shapes its contents;
        a failed load is an error that names the URI. The manifest plays no part. */
    function HandleReadResource(id: Option<Json>, params: Json): (r: Response)
      ensures WellFormed(r) && r.id == id
      ensures var uri := StrFieldOrEmpty(params, "uri");
              var loaded := LoadJson(dataSource, PathResolver.UriToPath(uri));
              && (r.error.Some? <==> loaded.Failure?)
              && (loaded.Success? ==> r.result == Some(Obj(map["contents" := ReadContents(uri, loaded.value, serde.pretty)])))
              && (loaded.Failure? ==> r.error == Some(MCPError(INTERNAL_ERROR, "Failed to read resource " + uri + ": " + loaded.error, None)))
    {
      var uri := StrFieldOrEmpty(params, "uri");
      match LoadJson(dataSource, ResourcePath(params))
      case Success(resource) => ResultResponse(id, Obj(map["contents" := ReadContents(uri, resource, serde.pretty)]))
      case Failure(e) => ErrorResponse(id, INTERNAL_ERROR, "Failed to read resource " + uri + ": " + e)
    }

    /** `tools/list`: the manifest's tool descriptors, or an error when no
        manifest is loaded. */
    function HandleListTools(id: Option<Json>): (r: Response)
      reads this
      ensures WellFormed(r) && r.id == id
      ensures r.error.Some? <==> manifest.None?
      ensures manifest.None? ==> r.error == Some(MCPError(INTERNAL_ERROR, MANIFEST_NOT_LOADED, None))
      ensures manifest.Some? ==> r.result == Some(Obj(map["tools" := Arr(ToolsOf(manifest.value))]))
    {
      match manifest
      case Some(m) => ResultResponse(id, Obj(map["tools" := Arr(ToolsOf(m))]))
      case None => ErrorResponse(id, INTERNAL_ERROR, MANIFEST_NOT_LOADED)
    }

    /** `tools/call`: loads the tool's path and shapes the result; a failed
        load is still a result, flagged `isError`, never an error. The
        manifest plays no part. */
    function HandleCallTool(id: Option<Json>, params: Json): (r: Response)
      ensures WellFormed(r) && r.id == id && r.error.None?
      ensures var name := StrFieldOrEmpty(params, "name");
              var loaded := LoadJson(dataSource, PathResolver.ToolToPath(name, ToolArguments(params), serde.compact));
              && (loaded.Success? ==> r.result == Some(ToolContent(loaded.value, serde.pretty)))
              && (loaded.Failure? ==> r.result == Some(ToolErrorResult(name, loaded.error)))
    {
      var name := StrFieldOrEmpty(params, "name");
      match LoadJson(dataSource, ToolCallPath(params, serde))
      case Success(result) => ResultResponse(id, ToolContent(result, serde.pretty))
      case Failure(e) => ResultResponse(id, ToolErrorResult(name, e))
    }

    /** `handle_request`: routes by method name, with a missing `params`
        read as `{}`; every response is well formed and echoes the request's
        id, and "Method not found" is answered exactly for the methods that
        are not routed. */
    function HandleRequest(request: Request): (r: Response)
      reads this
      ensures WellFormed(r) && r.id == request.id
      ensures (r.error.Some? && r.error.value.code == METHOD_NOT_FOUND) <==> request.methodName !in ROUTED_METHODS
      ensures request.methodName !in ROUTED_METHODS ==> r.error == Some(MCPError(METHOD_NOT_FOUND, "Method not found", None))
      ensures request.methodName == "initialize" ==> r == HandleInitialize(request.id)
      ensures request.methodName == "resources/list" ==> r == HandleListResources(request.id)
      ensures request.methodName == "resources/read" ==> r == HandleReadResource(request.id, request.params.GetOr(Obj(map[])))
      ensures request.methodName == "tools/list" ==> r == HandleListTools(request.id)
      ensures request.methodName == "tools/call" ==> r == HandleCallTool(request.id, request.params.GetOr(Obj(map[])))
    {
      var params := request.params.GetOr(Obj(map[]));
      match request.methodName
      case "initialize" => HandleInitialize(request.id)
      case "resources/list" => HandleListResources(request.id)
      case "resources/read" => HandleReadResource(request.id, params)
      case "tools/list" => HandleListTools(request.id)
      case "tools/call" => HandleCallTool(request.id, params)
      case _ => ErrorResponse(request.id, METHOD_NOT_FOUND, "Method not found")
    }
  }

  /** A failed load is reported differently by the two loading handlers: a
      resource read answers with a JSON-RPC error, a tool call answers with a
      result flagged `isError` and carries no error. */
  lemma LoadFailureAsymmetry(b: MCPBridge, id: Option<Json>, readParams: Json, callParams: Json)
    requires LoadJson(b.dataSource, ResourcePath(readParams)).Failure?
    requires LoadJson(b.dataSource, ToolCallPath(callParams, b.serde)).Failure?
    ensures b.HandleReadResource(id, readParams).result.None?
    ensures b.HandleReadResource(id, readParams).error.value.code == INTERNAL_ERROR
    ensures b.HandleCallTool(id, callParams).error.None?
    ensures Get(b.HandleCallTool(id, callParams).result.value, "isError") == Some(Bool(true))
  {
  }

  /** `resources/read` and `tools/call` do not look at the manifest: two
      bridges over the same source answer them alike, loaded or not. */
  lemma LoadingHandlersIgnoreManifest(b1: MCPBridge, b2: MCPBridge, request: Request)
    requires b1.dataSource == b2.dataSource && b1.serde == b2.serde
    requires request.methodName in {"resources/read", "tools/call"}
    ensures b1.HandleRequest(request) == b2.HandleRequest(request)
  {
  }

  /** Without a manifest both list methods answer "Manifest not loaded". */
  lemma ListsNeedManifest(b: MCPBridge, request: Request)
    requires b.manifest.None?
    requires request.methodName in {"resources/list", "tools/list"}
    ensures b.HandleRequest(request).error == Some(MCPError(INTERNAL_ERROR, MANIFEST_NOT_LOADED, None))
  {
  }

  /** `create_local_bridge`: a bridge over a directory, initialised. */
  method CreateLocalBridge(path: string, fetch: Location -> Result<Json, string>,
                           decodeManifest: Json -> Result<Manifest, string>, serde: Serializer)
    returns (r: Result<MCPBridge, string>)
    ensures var ds := NewLocal(path, fetch, decodeManifest);
            && (r.Success? <==> LoadManifest(ds).Success?)
            && (r.Success? ==> fresh(r.value) && r.value.dataSource == ds && r.value.serde == serde
                               && r.value.manifest == Some(LoadManifest(ds).value))
            && (r.Failure? ==> r.error == LoadManifest(ds).error)
  {
    var bridge := new MCPBridge(NewLocal(path, fetch, decodeManifest), serde);
    var init := bridge.Initialize();
    match init {
      case Success(_) => r := Success(bridge);
      case Failure(e) => r := Failure(e);
    }
  }

  /** `create_remote_bridge`: a bridge over a base URL, initialised. */
  method CreateRemoteBridge(url: string, fetch: Location -> Result<Json, string>,
                            decodeManifest: Json -> Result<Manifest, string>, serde: Serializer)
    returns (r: Result<MCPBridge, string>)
    ensures var ds := NewRemote(url, fetch, decodeManifest);
            && (r.Success? <==> LoadManifest(ds).Success?)
            && (r.Success? ==> fresh(r.value) && r.value.dataSource == ds && r.value.serde == serde
                               && r.value.manifest == Some(LoadManifest(ds).value))
            && (r.Failure? ==> r.error == LoadManifest(ds).error)
  {
    var bridge := new MCPBridge(NewRemote(url, fetch, decodeManifest), serde);
    var init := bridge.Initialize();
    match init {
      case Success(_) => r := Success(bridge);
      case Failure(e) => r := Failure(e);
    }
  }

  /** `create_bridge`: remote for an `http://` or `https://` address, local
      otherwise; the bridge it returns has its manifest loaded. */
  method CreateBridge(sourcePath: string, fetch: Location -> Result<Json, string>,
                      decodeManifest: Json -> Result<Manifest, string>, serde: Serializer)
    returns (r: Result<MCPBridge, string>)
    ensures var ds := SelectSource(sourcePath, fetch, decodeManifest);
            && (r.Success? <==> LoadManifest(ds).Success?)
            && (r.Success? ==> fresh(r.value) && r.value.dataSource == ds && r.value.serde == serde
                               && r.value.manifest == Some(LoadManifest(ds).value))
            && (r.Failure? ==> r.error == LoadManifest(ds).error)
  {
    if Strings.StartsWith(sourcePath, "http://") || Strings.StartsWith(sourcePath, "https://") {
      r := CreateRemoteBridge(sourcePath, fetch, decodeManifest, serde);
    } else {
      r := CreateLocalBridge(sourcePath, fetch, decodeManifest, serde);
    }
  }
}
