# StaticMCP SSE bridge, modelled in Dafny

StaticMCP serves a Model Context Protocol (MCP) server out of a static tree of
JSON files, which sits in a local directory or under a base URL. The bridge in
`crates/staticmcp_sse_lib/src/lib.rs` answers five JSON-RPC methods:

- `initialize` answers a fixed server description (lib.rs:266-283).
- `resources/list` and `tools/list` load nothing. They answer from the
  manifest that the last successful `MCPBridge::initialize` read from
  `mcp.json`, or fail with "Manifest not loaded" (lib.rs:285-314, 366-395).
- `resources/read` turns the resource URI into a path ending in `.json` and
  loads it (lib.rs:316-364). A `file://` URI, or a URI with exactly one
  `://`, maps under `resources/`. A URI with two or more `://` always gets
  `.json` appended, even when it already ends in `.json`. A URI without
  `://` keeps a `.json` suffix and gains one otherwise.
- `tools/call` turns the tool name and its arguments into a path
  `tools/<name>...json`, loads it, and reshapes what it finds into a tool
  result (lib.rs:397-447).

Any other method is answered with error -32601 (lib.rs:254-261).

This project models that bridge and proves what it does:

- **The path resolvers** (`PathResolver`) and the string, number, UTF-8,
  Base64 and sorting pieces they are built from (`Strings`, `Decimal`,
  `Utf8`, `Base64`, `Sorting`, `MapEntries`).
- **The JSON value and protocol records** (`JsonValue`, `Protocol`).
- **The data sources** (`DataSources`): which location a path is loaded from,
  and how `create_bridge` picks between a local and a remote source.
- **The bridge class** `Bridge.MCPBridge`:
  - a `manifest` field that the `Initialize` method sets;
  - one function per handler;
  - the `handle_request` dispatch;
  - the `create_*_bridge` constructors.

The model leaves three things outside, and the bridge is built with them:

- **Reading a file or fetching a URL:** the `fetch` field of a data source,
  which gives back a JSON value or the error's text.
- **Converting the loaded `mcp.json` into a manifest:** the `decodeManifest`
  field.
- **serde_json's compact and pretty printers:** a `Serializer`.

The model states which location is asked for and what is done with the
answer. It does not state what the files contain.

Two behaviours of the code are worth stating:

- **`initialize` may be called again.** It assigns the manifest only when
  the load succeeds (lib.rs:137). A later success replaces the manifest, and
  a failure keeps the old one. `Bridge.MCPBridge.Initialize` says exactly
  that.
- **`x://` maps to `resources/.json`.** The code tests
  `split("://").len() == 2` (lib.rs:165-166), so a scheme with nothing after
  it still counts as one scheme (`PathResolver.UriToPathEmptyRestExample`).

With three or more arguments, different argument maps can give one tool
path. Keys and values go into the `k=v&...` string unescaped (lib.rs:225-229).
So {a: "1&b=2", c: "3", d: "4"} and {a: "1", b: "2", c: "3", d: "4"} both
give `a=1&b=2&c=3&d=4`, and so one path (`PathResolver.ToolPathJoinCollision`).
Without '&' in keys and values and '=' in keys, the string determines the
pairs (`PathResolver.QueryStringInjective`).

The path-safe rewrite (lib.rs:235) maps both `+` and `/` to `_`, which loses
information on Base64 text in general (`Base64.PathSafeEncodeCollides`,
about the encodings of single bytes). That lemma does not exhibit two query
strings whose paths collide this way.

## Model

| member | source | states |
|---|---|---|
| `PathResolver.UriToPath` | crates/staticmcp_sse_lib/src/lib.rs:161-176 | every resource path, for every URI, ends in ".json" |
| `PathResolver.UriToPathFile` | crates/staticmcp_sse_lib/src/lib.rs:162-163 | a `file://` URI maps to `resources/<rest>.json` |
| `PathResolver.UriToPathOneScheme` | crates/staticmcp_sse_lib/src/lib.rs:164-167 | a non-`file://` URI with exactly one "://" maps to `resources/<what follows it>.json` |
| `PathResolver.UriToPathManySchemes` | crates/staticmcp_sse_lib/src/lib.rs:164-170 | a non-`file://` URI with two or more "://" maps to `<uri>.json` |
| `PathResolver.UriToPathNoScheme` | crates/staticmcp_sse_lib/src/lib.rs:171-175 | a URI without "://" is kept if it ends in ".json" and gets ".json" appended otherwise |
| `PathResolver.UriToPathFileExample` | crates/staticmcp_sse_lib/src/lib.rs:162-163 | `file:///a/b` maps to `resources//a/b.json` |
| `PathResolver.UriToPathHttpsExample` | crates/staticmcp_sse_lib/src/lib.rs:164-167 | `https://x.com/y` maps to `resources/x.com/y.json` |
| `PathResolver.UriToPathEmptyRestExample` | crates/staticmcp_sse_lib/src/lib.rs:164-167 | `x://` splits into two pieces and maps to `resources/.json` |
| `PathResolver.UriToPathTwoSchemesExample` | crates/staticmcp_sse_lib/src/lib.rs:168-170 | `a://b://c` maps to `a://b://c.json` |
| `PathResolver.UriToPathTwoSchemesJsonExample` | crates/staticmcp_sse_lib/src/lib.rs:168-170 | for every c, `a://b://<c>.json` maps to `a://b://<c>.json.json`: with two or more "://" there is no suffix test |
| `PathResolver.UriToPathPlainExample` | crates/staticmcp_sse_lib/src/lib.rs:173-175 | `plain` maps to `plain.json` |
| `PathResolver.UriToPathJsonExample` | crates/staticmcp_sse_lib/src/lib.rs:171-172 | `already.json` is kept as it is |
| `PathResolver.UriToPathEmptyExample` | crates/staticmcp_sse_lib/src/lib.rs:171-175 | the empty URI, which is what a missing `uri` parameter becomes, maps to `.json` |
| `PathResolver.Stringify` | crates/staticmcp_sse_lib/src/lib.rs:187-192 | one rule for an argument's text: a string is itself, a number's text parses back to it, a boolean is "true"/"false", and anything else is its compact JSON |
| `PathResolver.StringPairsMembers` | crates/staticmcp_sse_lib/src/lib.rs:211-222 | the pairs of an enumeration of a map are exactly its fields with their values stringified |
| `PathResolver.QueryString` | crates/staticmcp_sse_lib/src/lib.rs:225-229 | the `k=v&...` string is empty for no pairs and starts with the first pair's `k=v` otherwise |
| `PathResolver.QueryStringSplits` | crates/staticmcp_sse_lib/src/lib.rs:225-229 | for one or more pairs, when no key or value holds '&', splitting the string at '&' gives back the `k=v` items in order |
| `PathResolver.QueryStringInjective` | crates/staticmcp_sse_lib/src/lib.rs:225-229 | when no key or value holds '&' and no key holds '=', two pair lists with one string are equal |
| `PathResolver.QueryStringCollision` | crates/staticmcp_sse_lib/src/lib.rs:225-229 | a value `v&<key>=w` followed by two pairs gives the same string as `v`, `w` and the same two pairs |
| `PathResolver.EncodedSegment` | crates/staticmcp_sse_lib/src/lib.rs:231-235 | the segment uses only `[A-Za-z0-9_]` and has length 4*ceil(n/3) for the n UTF-8 bytes of the query string |
| `PathResolver.ToolPath` | crates/staticmcp_sse_lib/src/lib.rs:178-238 | every tool path starts with `tools/<name>` and ends in ".json"; it is `tools/<name>.json` exactly when there are no arguments, and lies under `tools/<name>/` otherwise |
| `PathResolver.ToolPathTwo` | crates/staticmcp_sse_lib/src/lib.rs:196-207 | an unfolding step of `ToolPath`'s two-argument branch, used by the lemmas above and below: with two arguments the path is `tools/<name>/<v0>/<v1>.json` for the two sorted values |
| `PathResolver.ToolPathMany` | crates/staticmcp_sse_lib/src/lib.rs:210-237 | an unfolding step of `ToolPath`'s last branch, used by the lemmas about it: with three or more arguments the path is `tools/<name>/<segment>.json` for the key-sorted pairs |
| `PathResolver.SortByKeySorted` | crates/staticmcp_sse_lib/src/lib.rs:223 | pairs already in key order with distinct keys are left as they are by the sort |
| `PathResolver.SameQuerySamePath` | crates/staticmcp_sse_lib/src/lib.rs:225-237 | three or more arguments whose sorted pairs give one query string give one path |
| `PathResolver.ToolPathJoinCollision` | crates/staticmcp_sse_lib/src/lib.rs:210-237 | for keys a < b < c < d, the arguments {a: "v&b=w", c: x, d: y} and {a: v, b: w, c: x, d: y} differ and give one path |
| `PathResolver.ToolPathTwoSorted` | crates/staticmcp_sse_lib/src/lib.rs:196-207 | with two arguments the path is `tools/<name>/<a>/<b>.json`: a and b are the two stringified values and a <= b |
| `PathResolver.ToolPathTwoValuesOnly` | crates/staticmcp_sse_lib/src/lib.rs:196-207 | with two arguments the path depends only on the multiset of the two values, not on the keys or on which key holds which value |
| `PathResolver.ToolPathTwoStringEntries` | crates/staticmcp_sse_lib/src/lib.rs:196-207 | two string values x <= y give `tools/<name>/<x>/<y>.json` in either entry order |
| `PathResolver.ToolToPathTwoStrings` | crates/staticmcp_sse_lib/src/lib.rs:196-207 | for a two-field map of strings the smaller value comes first, whichever key holds it |
| `PathResolver.OrderIndependentOne` | crates/staticmcp_sse_lib/src/lib.rs:185-193 | with one argument the path is the same for every enumeration |
| `PathResolver.OrderIndependentTwo` | crates/staticmcp_sse_lib/src/lib.rs:196-207 | with two arguments the path is the same for either enumeration order |
| `PathResolver.OrderIndependentMany` | crates/staticmcp_sse_lib/src/lib.rs:210-237 | with three or more arguments the path is the same for every enumeration, because the pairs are sorted by key |
| `PathResolver.ToolPathOrderIndependent` | crates/staticmcp_sse_lib/src/lib.rs:178-238 | the path of a tool call does not depend on the order in which the argument map hands out its entries |
| `PathResolver.ToolToPath` | crates/staticmcp_sse_lib/src/lib.rs:178-238 | `tool_to_path` on a map equals the path computed from any enumeration of that map |
| `PathResolver.ToolPathManyArgs` | crates/staticmcp_sse_lib/src/lib.rs:210-237 | with three or more arguments the pairs are sorted by key and are a permutation of the input. The path is `tools/<name>/<segment>.json`. The segment is path-safe Base64 of the UTF-8 `k=v&...` string, uses only `[A-Za-z0-9_]`, and has length 4*ceil(n/3) for n bytes |
| `PathResolver.ToolToPathNoArgs` | crates/staticmcp_sse_lib/src/lib.rs:181-183 | a tool called without arguments maps to `tools/<name>.json` |
| `PathResolver.ToolToPathOneArg` | crates/staticmcp_sse_lib/src/lib.rs:185-193 | a tool called with one argument maps to `tools/<name>/<its stringified value>.json`, whatever the key |
| `PathResolver.ToolToPathNoArgsExample` | crates/staticmcp_sse_lib/src/lib.rs:181-183 | no arguments give `tools/search.json` |
| `PathResolver.ToolToPathOneArgExample` | crates/staticmcp_sse_lib/src/lib.rs:185-193 | `("search", {"q": "cats"})` gives `tools/search/cats.json` |
| `Strings.IndexFrom` | crates/staticmcp_sse_lib/src/lib.rs:164 | the result is the first occurrence of the pattern at or after the start, and `None` means there is none |
| `Strings.IndexOf` | crates/staticmcp_sse_lib/src/lib.rs:164 | `contains`/`find`: the first occurrence, or `None` when there is none |
| `Strings.Split` | crates/staticmcp_sse_lib/src/lib.rs:165 | splitting always gives at least one piece |
| `Strings.SplitJoin` | crates/staticmcp_sse_lib/src/lib.rs:165 | joining the pieces of a split with the separator gives the string back |
| `Strings.BeforeFirstIsFree` | crates/staticmcp_sse_lib/src/lib.rs:165 | the text before the first occurrence of a pattern does not contain it |
| `Strings.SplitPiecesFree` | crates/staticmcp_sse_lib/src/lib.rs:165 | no piece of a split contains the separator |
| `Strings.FirstSeparator` | crates/staticmcp_sse_lib/src/lib.rs:229 | a one-character separator first occurs right after a prefix that does not contain it |
| `Strings.JoinSplit` | crates/staticmcp_sse_lib/src/lib.rs:229 | for one or more pieces that do not contain a one-character separator, splitting their join at it gives the pieces back |
| `Strings.TrimEnd` | crates/staticmcp_sse_lib/src/lib.rs:92 | `trim_end_matches('/')` keeps a prefix that does not end in '/' and drops only '/' characters |
| `Strings.ReplaceChars` | crates/staticmcp_sse_lib/src/lib.rs:235 | each character in the set is replaced, every other character is kept, and the length is unchanged |
| `Strings.LexLeReflexive` | crates/staticmcp_sse_lib/src/lib.rs:206 | string order is reflexive |
| `Strings.LexLeAntisymmetric` | crates/staticmcp_sse_lib/src/lib.rs:206 | string order is antisymmetric |
| `Strings.LexLeTransitive` | crates/staticmcp_sse_lib/src/lib.rs:206 | string order is transitive |
| `Strings.LexLeTotal` | crates/staticmcp_sse_lib/src/lib.rs:206 | string order is total |
| `Strings.LexLeTotalOrder` | crates/staticmcp_sse_lib/src/lib.rs:206 | the four facts above, for all strings |
| `Sorting.Insert` | crates/staticmcp_sse_lib/src/lib.rs:206 | inserting into a sorted sequence keeps it sorted and adds exactly the element |
| `Sorting.SortBy` | crates/staticmcp_sse_lib/src/lib.rs:206 | `sort`/`sort_by` by key: the output is sorted and is a permutation of the input |
| `Sorting.SortedUnique` | crates/staticmcp_sse_lib/src/lib.rs:223 | when keys determine elements, two sorted permutations of one multiset are equal |
| `Sorting.SortByPermutation` | crates/staticmcp_sse_lib/src/lib.rs:223 | when elements with equal keys are equal, as map entries and plain strings are, sorting two permutations of each other gives the same result |
| `MapEntries.MinKey` | crates/staticmcp_sse_lib/src/lib.rs:405 | the least key of a non-empty key set |
| `MapEntries.SortedKeys` | crates/staticmcp_sse_lib/src/lib.rs:405 | every key is listed once, in increasing order |
| `MapEntries.Entries` | crates/staticmcp_sse_lib/src/lib.rs:405 | the fields of the argument object, listed as an enumeration of the map |
| `MapEntries.EnumerationsPermutation` | crates/staticmcp_sse_lib/src/lib.rs:186 | any two enumerations of one map are permutations of each other |
| `Decimal.NatToDecimal` | crates/staticmcp_sse_lib/src/lib.rs:189 | a number's text is non-empty, made of digits, and has no leading zero |
| `Decimal.IntToDecimal` | crates/staticmcp_sse_lib/src/lib.rs:189 | the text starts with '-' exactly for negative numbers |
| `Decimal.ParseIntToDecimal` | crates/staticmcp_sse_lib/src/lib.rs:189 | a number's text parses back to the number |
| `Decimal.IntToDecimalInjective` | crates/staticmcp_sse_lib/src/lib.rs:189 | different numbers have different texts |
| `Utf8.EncodeChar` | crates/staticmcp_sse_lib/src/lib.rs:233 | a character takes 1 to 4 bytes, and 1 exactly when it is ASCII |
| `Utf8.Encode` | crates/staticmcp_sse_lib/src/lib.rs:233 | `as_bytes`: at least one byte per character, and exactly one for all-ASCII text |
| `Utf8.DecodeEncode` | crates/staticmcp_sse_lib/src/lib.rs:233 | decoding the UTF-8 bytes of a string gives the string back |
| `Utf8.EncodeInjective` | crates/staticmcp_sse_lib/src/lib.rs:233 | different strings have different UTF-8 bytes |
| `Base64.SextetValue` | crates/staticmcp_sse_lib/src/lib.rs:231-234 | the value of an alphabet character is the index that encodes it |
| `Base64.Encode` | crates/staticmcp_sse_lib/src/lib.rs:231-234 | standard padded Base64: length 4*ceil(n/3), with alphabet or '=' characters only |
| `Base64.DecodeEncode` | crates/staticmcp_sse_lib/src/lib.rs:231-234 | decoding an encoding gives the bytes back |
| `Base64.EncodeInjective` | crates/staticmcp_sse_lib/src/lib.rs:231-234 | different bytes have different encodings |
| `Base64.PathSafeEncode` | crates/staticmcp_sse_lib/src/lib.rs:231-235 | the path-safe encoding keeps its length and uses only `[A-Za-z0-9_]` |
| `Base64.PathSafeEncodeCollides` | crates/staticmcp_sse_lib/src/lib.rs:235 | the rewrite is not injective: 0xFB and 0xFF both become `_w__` |
| `Base64.PathSafe` | crates/staticmcp_sse_lib/src/lib.rs:235 | same length; no '/', '+' or '=' is left; those three become '_' and every other character is kept |
| `JsonValue.StrFieldOrEmpty` | crates/staticmcp_sse_lib/src/lib.rs:317 | a string field's value, or "" when the field is missing or not a string |
| `Protocol.ResultResponse` | crates/staticmcp_sse_lib/src/lib.rs:296-301 | a success envelope: version "2.0", the id echoed, a result and no error |
| `Protocol.ErrorResponse` | crates/staticmcp_sse_lib/src/lib.rs:303-312 | an error envelope: version "2.0", the id echoed, an error without data and no result |
| `Protocol.ResourcesOf` | crates/staticmcp_sse_lib/src/lib.rs:287-292 | the manifest's resource list unmodified, or `[]` when capabilities or the list are absent |
| `Protocol.ToolsOf` | crates/staticmcp_sse_lib/src/lib.rs:368-373 | the manifest's tool list unmodified, or `[]` when absent |
| `DataSources.NewRemote` | crates/staticmcp_sse_lib/src/lib.rs:90-95 | a remote source keeps the base URL without its trailing '/' characters, and only those are removed |
| `DataSources.LocationOf` | crates/staticmcp_sse_lib/src/lib.rs:70-102 | a local source asks for the relative path under its directory; a remote one for a URL that is the base, one '/', then the relative path |
| `DataSources.LoadJson` | crates/staticmcp_sse_lib/src/lib.rs:70-115 | `load_json` is the loader's answer for that file or URL |
| `DataSources.LoadManifest` | crates/staticmcp_sse_lib/src/lib.rs:78-81 | the manifest comes from "mcp.json": a load error is returned as is, otherwise the document is converted |
| `DataSources.SelectSource` | crates/staticmcp_sse_lib/src/lib.rs:466-471 | remote exactly for an `http://` or `https://` prefix, local with the path as given otherwise |
| `DataSources.TrimEndSlashes` | crates/staticmcp_sse_lib/src/lib.rs:92 | trimming ignores an extra trailing '/' and is idempotent |
| `DataSources.RemoteUrl` | crates/staticmcp_sse_lib/src/lib.rs:101 | a remote load asks for `<trimmed base>/<path>` with a single '/'. A base written with or without a trailing '/' asks for the same URL |
| `Bridge.ReadContents` | crates/staticmcp_sse_lib/src/lib.rs:324-341 | `contents` passes through. Otherwise the result is a one-entry list holding exactly uri, mimeType and text: the document's own when it has all three, else the requested URI, "application/json" and the pretty text |
| `Bridge.ContentEntryFixedPoint` | crates/staticmcp_sse_lib/src/lib.rs:326-334 | a document that already is one resource entry comes back as the list of itself |
| `Bridge.ReadContentsRequestedOnlyInSynthesis` | crates/staticmcp_sse_lib/src/lib.rs:324-341 | the requested URI changes the contents exactly when the document has neither `contents` nor all of uri/mimeType/text |
| `Bridge.ToolContent` | crates/staticmcp_sse_lib/src/lib.rs:413-423 | a document with `content` or `contents` is returned whole, otherwise it is wrapped as one text item. Either way the result has `content` or `contents` |
| `Bridge.ToolContentIdempotent` | crates/staticmcp_sse_lib/src/lib.rs:413-423 | shaping a tool result twice is the same as shaping it once |
| `Bridge.ToolErrorResult` | crates/staticmcp_sse_lib/src/lib.rs:437-443 | a failed tool load gives `isError: true` and the text "Error calling <name>: <e>" |
| `Bridge.ToolArguments` | crates/staticmcp_sse_lib/src/lib.rs:399-403 | the `arguments` object, or the empty map when it is missing or not an object |
| `Bridge.MCPBridge.constructor` | crates/staticmcp_sse_lib/src/lib.rs:129-134 | a new bridge has the given source and no manifest |
| `Bridge.MCPBridge.Initialize` | crates/staticmcp_sse_lib/src/lib.rs:136-155 | succeeds exactly when the manifest loads. On success the manifest becomes `Some(m)`. On failure it returns the error and leaves the manifest unchanged |
| `Bridge.MCPBridge.HandleInitialize` | crates/staticmcp_sse_lib/src/lib.rs:266-283 | always succeeds with protocol version 2024-11-05 and the bridge's fixed server info |
| `Bridge.MCPBridge.HandleListResources` | crates/staticmcp_sse_lib/src/lib.rs:285-314 | fails exactly when no manifest is loaded, with -32603 "Manifest not loaded". Otherwise gives `{resources: L}` |
| `Bridge.MCPBridge.HandleReadResource` | crates/staticmcp_sse_lib/src/lib.rs:316-364 | loads the URI's path. Fails exactly when the load fails, with -32603 "Failed to read resource <uri>: <e>". Otherwise gives `{contents: ...}` as ReadContents shapes it |
| `Bridge.MCPBridge.HandleListTools` | crates/staticmcp_sse_lib/src/lib.rs:366-395 | fails exactly when no manifest is loaded. Otherwise gives `{tools: L}` |
| `Bridge.MCPBridge.HandleCallTool` | crates/staticmcp_sse_lib/src/lib.rs:397-447 | loads the tool's path and never gives an error. On success the result is shaped by ToolContent; on a failed load it is the `isError` result |
| `Bridge.MCPBridge.HandleRequest` | crates/staticmcp_sse_lib/src/lib.rs:240-263 | every response has version "2.0", echoes the id and has exactly one of result and error. -32601 "Method not found" comes exactly for the un-routed methods. Missing params are read as `{}` |
| `Bridge.LoadFailureAsymmetry` | crates/staticmcp_sse_lib/src/lib.rs:350-446 | a failed load is a JSON-RPC error for resources/read and an `isError` result with no error for tools/call |
| `Bridge.LoadingHandlersIgnoreManifest` | crates/staticmcp_sse_lib/src/lib.rs:316-447 | resources/read and tools/call answer the same with or without a manifest |
| `Bridge.ListsNeedManifest` | crates/staticmcp_sse_lib/src/lib.rs:302-394 | without a manifest both list methods answer "Manifest not loaded" |
| `Bridge.CreateLocalBridge` | crates/staticmcp_sse_lib/src/lib.rs:452-457 | a fresh bridge over the directory with its manifest loaded, or the load error |
| `Bridge.CreateRemoteBridge` | crates/staticmcp_sse_lib/src/lib.rs:459-464 | a fresh bridge over the trimmed base URL with its manifest loaded, or the load error |
| `Bridge.CreateBridge` | crates/staticmcp_sse_lib/src/lib.rs:466-471 | the source SelectSource picks, initialised: success exactly when its manifest loads |

## Left out

- Reading files, HTTP GET with its status check, and parsing the text as JSON (lib.rs:71-76, 100-115) are I/O. They are the data source's `fetch` function. The model keeps the location asked for: a directory and a relative path, or a URL. An error is its display text.
- The joining of a relative path onto a directory by `PathBuf::join` is part of `fetch`. An absolute relative path is one case of this.
- Turning the loaded `mcp.json` into an `MCPManifest` with serde (lib.rs:80, 119) is the data source's `decodeManifest` function.
- serde_json's compact and pretty printers are the `Serializer` the bridge is built with. Printing a `Value` cannot fail, so `unwrap_or_default` has nothing to do here.
- JSON numbers are integers only. Floating-point numbers and the 64-bit ranges of serde's `Number` are not modelled.
- Rust `HashMap` iteration order (lib.rs:405) is not modelled. `PathResolver.ToolPath` takes the entries in whatever order they come, and `PathResolver.ToolToPath` computes with the key-order enumeration `MapEntries.Entries`. `PathResolver.ToolPathOrderIndependent` shows that any other order gives the same path.
- `async`, `async_trait`, and the `Send + Sync` and `Box<dyn MCPDataSource>` machinery are left out. A data source is a value that the bridge holds.
- All `eprintln!` logging is left out. This includes the "Unknown"/"0.0.0" fallbacks, which are only printed (lib.rs:139-152).
- Parsing requests from JSON and printing responses is left out, including which absent fields serde skips. The HTTP/SSE servers in `crates/staticmcp_sse_dynamic` and `crates/staticmcp_sse_fixed` are not part of this model.
- `Bridge.MCPBridge.GetManifest` returns the field and carries no contract of its own.
- PathResolver.Stringify: for a number the contract says only that its text parses back to it. `Decimal.NatToDecimal` and `Decimal.IntToDecimal` state the text's form: digits without a leading zero, with '-' exactly for negatives.
- Strings.Split: the function's contract says only that there is at least one piece. `Strings.SplitJoin` and `Strings.SplitPiecesFree` state what the pieces are.
