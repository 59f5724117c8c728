/**
 The routing decision of the static front end: which of the embedded
 assets a request path is answered with. Writing headers and bodies is I/O
 and is not modelled; only the outcome is.
 */
module Frontend {

  /** The outcome of one request: an asset, a 404, or no response written at all. */
  datatype Route = IndexPage | Stylesheet | Script | NotFound | NoResponse

  const IndexPath: string := "/index.html"
  const StylesheetPath: string := "/static/css/style.css"
  const ScriptPath: string := "/static/js/app.js"
  const ApiPrefix: string := "/api/"
  const StaticPrefix: string := "/static/"

  /** Whether `s` begins with `prefix`, as Go's strings.HasPrefix decides it. */
  predicate HasPrefix(s: string, prefix: string)
  {
    |prefix| <= |s| && s[..|prefix|] == prefix
  }

  /**
   The tests of the handler, in the handler's order; the first that holds
   decides. No static path gets the index page, and exactly the API paths
   get no response.
   */
  function ServeFrontend(path: string): (r: Route)
    ensures HasPrefix(path, StaticPrefix) ==> r != IndexPage
    ensures r == NoResponse <==> HasPrefix(path, ApiPrefix)
  {
    PrefixesAreDisjoint(path);
    FixedPathsAndPrefixes();
    if path == "/" || path == IndexPath || (!HasPrefix(path, ApiPrefix) && !HasPrefix(path, StaticPrefix)) then
      IndexPage
    else if path == StylesheetPath then
      Stylesheet
    else if path == ScriptPath then
      Script
    else if HasPrefix(path, StaticPrefix) then
      NotFound
    else
      NoResponse
  }

  /** No path lies under both the API prefix and the static prefix. */
  lemma PrefixesAreDisjoint(path: string)
    ensures !(HasPrefix(path, ApiPrefix) && HasPrefix(path, StaticPrefix))
  {
    if HasPrefix(path, ApiPrefix) {
      assert path[1] == ApiPrefix[1] == 'a';
    }
  }

  /** The index page paths lie under neither prefix; both asset paths lie under the static one. */
  lemma FixedPathsAndPrefixes()
    ensures !HasPrefix("/", ApiPrefix) && !HasPrefix("/", StaticPrefix)
    ensures !HasPrefix(IndexPath, ApiPrefix) && !HasPrefix(IndexPath, StaticPrefix)
    ensures HasPrefix(StylesheetPath, StaticPrefix) && HasPrefix(ScriptPath, StaticPrefix)
  {
    assert IndexPath[1] == 'i';
    assert StylesheetPath[..|StaticPrefix|] == StaticPrefix;
    assert ScriptPath[..|StaticPrefix|] == StaticPrefix;
  }

  /**
   Each outcome is characterised by the path alone, independently of the
   order of the tests: the index page for every path under neither prefix,
   the two assets for their own paths, 404 for every other path under the
   static prefix, and no response for every path under the API prefix.
   Since the five conditions exclude each other and cover every path, no
   static path is ever answered with the index page.
   */
  lemma RouteCharacterised(path: string)
    ensures ServeFrontend(path) == IndexPage <==> !HasPrefix(path, ApiPrefix) && !HasPrefix(path, StaticPrefix)
    ensures ServeFrontend(path) == Stylesheet <==> path == StylesheetPath
    ensures ServeFrontend(path) == Script <==> path == ScriptPath
    ensures ServeFrontend(path) == NotFound
            <==> HasPrefix(path, StaticPrefix) && path != StylesheetPath && path != ScriptPath
    ensures ServeFrontend(path) == NoResponse <==> HasPrefix(path, ApiPrefix)
  {
  }

  /** The paths the handler names get what it names for them; other paths fall to the general cases. */
  lemma NamedPaths()
    ensures ServeFrontend("/") == IndexPage
    ensures ServeFrontend(IndexPath) == IndexPage
    ensures ServeFrontend(StylesheetPath) == Stylesheet
    ensures ServeFrontend(ScriptPath) == Script
    ensures ServeFrontend("/static/img/logo.png") == NotFound
    ensures ServeFrontend("/api/data") == NoResponse
    ensures ServeFrontend("/about") == IndexPage
  {
    FixedPathsAndPrefixes();
    assert "/static/img/logo.png"[..|StaticPrefix|] == StaticPrefix;
    assert "/api/data"[..|ApiPrefix|] == ApiPrefix;
    assert "/about"[1] == 'a' && "/about"[2] == 'b';
  }

  /** The static-file handler hands every request to the front-end handler. */
  function ServeStatic(path: string): (r: Route)
    ensures HasPrefix(path, StaticPrefix) ==> r != IndexPage
    ensures r == ServeFrontend(path)
  {
    RouteCharacterised(path);
    ServeFrontend(path)
  }
}
