/** The JSON-RPC 2.0 records the bridge reads and writes (`MCPRequest`,
    `MCPResponse`, `MCPError`) and the manifest it loads (`MCPManifest`,
    `ServerInfo`, `Capabilities`), with the envelope every response shares. */
module Protocol {
  import opened Wrappers
  import opened JsonValue

  /** Rust's `i32`, the type of an error code. */
  newtype int32 = x: int | -0x8000_0000 <= x < 0x8000_0000

  /** JSON-RPC "Method not found". */
  const METHOD_NOT_FOUND: int32 := -32601
  /** JSON-RPC "Internal error", used for every failure the bridge reports. */
  const INTERNAL_ERROR: int32 := -32603

  datatype Request = Request(jsonrpc: string, id: Option<Json>, methodName: string, params: Option<Json>)

  datatype MCPError = MCPError(code: int32, message: string, data: Option<Json>)

  datatype Response = Response(jsonrpc: string, id: Option<Json>, result: Option<Json>, error: Option<MCPError>)

  datatype ServerInfo = ServerInfo(name: string, version: string)

  /** The descriptor lists of a manifest, each kept as raw JSON. */
  datatype Capabilities = Capabilities(resources: Option<seq<Json>>, tools: Option<seq<Json>>)

  datatype Manifest = Manifest(serverInfo: Option<ServerInfo>, capabilities: Option<Capabilities>)

  /** What every response of the bridge looks like: version "2.0" and exactly
      one of `result` and `error`. */
  predicate WellFormed(r: Response) {
    r.jsonrpc == "2.0" && (r.result.Some? <==> r.error.None?)
  }

  /** A successful response. */
  function ResultResponse(id: Option<Json>, result: Json): (r: Response)
    ensures WellFormed(r) && r.id == id && r.result == Some(result)
  {
    Response("2.0", id, Some(result), None)
  }

  /** A failed response with an error code and message, without data. */
  function ErrorResponse(id: Option<Json>, code: int32, message: string): (r: Response)
    ensures WellFormed(r) && r.id == id && r.error == Some(MCPError(code, message, None))
  {
    Response("2.0", id, None, Some(MCPError(code, message, None)))
  }

  /** The resource descriptors a manifest declares, `[]` when it has none. */
  function ResourcesOf(m: Manifest): (l: seq<Json>)
    ensures m.capabilities.Some? && m.capabilities.value.resources.Some? ==> l == m.capabilities.value.resources.value
    ensures m.capabilities.None? || m.capabilities.value.resources.None? ==> l == []
  {
    match m.capabilities
    case Some(c) => c.resources.GetOr([])
    case None => []
  }

  /** The tool descriptors a manifest declares, `[]` when it has none. */
  function ToolsOf(m: Manifest): (l: seq<Json>)
    ensures m.capabilities.Some? && m.capabilities.value.tools.Some? ==> l == m.capabilities.value.tools.value
    ensures m.capabilities.None? || m.capabilities.value.tools.None? ==> l == []
  {
    match m.capabilities
    case Some(c) => c.tools.GetOr([])
    case None => []
  }
}
