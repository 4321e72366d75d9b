/** Where the bridge's documents come from: a local directory or a remote base
    URL (`LocalDataSource`, `RemoteDataSource`), and the choice between them
    that `create_bridge` makes. Reading a file or fetching a URL, and turning
    the fetched JSON into a manifest, are functions the source is built with:
    the model says which location is asked for, not what is found there. */
module DataSources {
  import opened Wrappers
  import opened JsonValue
  import opened Strings
  import opened Protocol

  /** The two kinds of source, with the base each one resolves paths against. */
  datatype SourceKind = Local(basePath: string) | Remote(baseUrl: string)

  /** A concrete place to load from: a path joined onto a directory, or a URL. */
  datatype Location = File(basePath: string, relativePath: string) | Url(url: string)

  /** A data source: its kind, the loader for a location (file read or HTTP GET
      followed by JSON parsing; `Failure` carries the error's text), and the
      conversion of a loaded document into a manifest. */
  datatype DataSource = DataSource(
    kind: SourceKind,
    fetch: Location -> Result<Json, string>,
    decodeManifest: Json -> Result<Manifest, string>)

  /** The file the manifest is read from, relative to the source's base. */
  const MANIFEST_PATH := "mcp.json"

  /** `LocalDataSource::new` */
  function NewLocal(basePath: string, fetch: Location -> Result<Json, string>,
                    decodeManifest: Json -> Result<Manifest, string>): DataSource
  {
    DataSource(Local(basePath), fetch, decodeManifest)
  }

  /** `RemoteDataSource::new`: the base URL loses every trailing '/'. */
  function NewRemote(baseUrl: string, fetch: Location -> Result<Json, string>,
                     decodeManifest: Json -> Result<Manifest, string>): (ds: DataSource)
    ensures ds.kind.Remote? && ds.fetch == fetch && ds.decodeManifest == decodeManifest
    ensures StartsWith(baseUrl, ds.kind.baseUrl)
    ensures |ds.kind.baseUrl| == 0 || ds.kind.baseUrl[|ds.kind.baseUrl| - 1] != '/'
    ensures forall k :: |ds.kind.baseUrl| <= k < |baseUrl| ==> baseUrl[k] == '/'
  {
    DataSource(Remote(TrimEnd(baseUrl, '/')), fetch, decodeManifest)
  }

  /** Where a relative path is looked for: joined onto the directory, or
      appended to the base URL after a single '/'. */
  function LocationOf(kind: SourceKind, relativePath: string): (loc: Location)
    ensures kind.Local? ==> loc.File? && loc.basePath == kind.basePath && loc.relativePath == relativePath
    ensures kind.Remote? ==> loc.Url? && StartsWith(loc.url, kind.baseUrl + "/")
    ensures kind.Remote? ==> loc.url[|kind.baseUrl| + 1..] == relativePath
  {
    match kind
    case Local(base) => File(base, relativePath)
    case Remote(base) => Url(base + "/" + relativePath)
  }

  /** `load_json`: the loader's answer for the joined file path or the URL. */
  function LoadJson(ds: DataSource, relativePath: string): (r: Result<Json, string>)
    ensures ds.kind.Local? ==> r == ds.fetch(File(ds.kind.basePath, relativePath))
    ensures ds.kind.Remote? ==> r == ds.fetch(Url(ds.kind.baseUrl + "/" + relativePath))
  {
    ds.fetch(LocationOf(ds.kind, relativePath))
  }

  /** `load_manifest`: load "mcp.json", then convert it; either step's error
      is the result's error. */
  function LoadManifest(ds: DataSource): (r: Result<Manifest, string>)
    ensures LoadJson(ds, MANIFEST_PATH).Failure? ==> r == Failure(LoadJson(ds, MANIFEST_PATH).error)
    ensures LoadJson(ds, MANIFEST_PATH).Success? ==> r == ds.decodeManifest(LoadJson(ds, MANIFEST_PATH).value)
  {
    match LoadJson(ds, MANIFEST_PATH)
    case Failure(e) => Failure(e)
    case Success(v) => ds.decodeManifest(v)
  }

  /** `create_bridge`'s choice: a remote source for an `http://` or `https://`
      address, a local directory for anything else. */
  function SelectSource(sourcePath: string, fetch: Location -> Result<Json, string>,
                        decodeManifest: Json -> Result<Manifest, string>): (ds: DataSource)
    ensures ds.kind.Remote? <==> StartsWith(sourcePath, "http://") || StartsWith(sourcePath, "https://")
    ensures ds.kind.Local? ==> ds.kind.basePath == sourcePath
    ensures ds.kind.Remote? ==> ds == NewRemote(sourcePath, fetch, decodeManifest)
  {
    if StartsWith(sourcePath, "http://") || StartsWith(sourcePath, "https://") then
      NewRemote(sourcePath, fetch, decodeManifest)
    else
      NewLocal(sourcePath, fetch, decodeManifest)
  }

  /** Trimming is idempotent and ignores extra trailing slashes. */
  lemma {:induction false} TrimEndSlashes(s: string)
    ensures TrimEnd(s + "/", '/') == TrimEnd(s, '/')
    ensures TrimEnd(TrimEnd(s, '/'), '/') == TrimEnd(s, '/')
  {
    assert (s + "/")[..|s|] == s;
  }

  /** A remote source asks for `<base without trailing slashes>/<path>`: the
      URL starts with the trimmed base, followed by exactly one '/' before the
      relative path, and writing the base with or without a trailing '/'
      makes no difference. */
  lemma RemoteUrl(baseUrl: string, relativePath: string, fetch: Location -> Result<Json, string>,
                  decodeManifest: Json -> Result<Manifest, string>)
    ensures var ds := NewRemote(baseUrl, fetch, decodeManifest);
            var trimmed := ds.kind.baseUrl;
            && LocationOf(ds.kind, relativePath) == Url(trimmed + "/" + relativePath)
            && (|trimmed| == 0 || trimmed[|trimmed| - 1] != '/')
    ensures LocationOf(NewRemote(baseUrl + "/", fetch, decodeManifest).kind, relativePath)
         == LocationOf(NewRemote(baseUrl, fetch, decodeManifest).kind, relativePath)
  {
    TrimEndSlashes(baseUrl);
  }
}
