/**
 * The API configuration (config/api.js): a base URL chosen by the build
 * environment and a helper that joins it with an endpoint path.
 */
module ApiConfig {
  import opened Common

  const DevelopmentBaseUrl := "http://127.0.0.1:8000"
  const ProductionBaseUrl := "https://bookstoredb.onrender.com/"

  /** `process.env.NODE_ENV || 'development'`; "" stands for an unset variable as well as an empty one. */
  function Environment(nodeEnv: string): (env: string)
    ensures env != ""
  {
    if nodeEnv != "" then nodeEnv else "development"
  }

  /** `API_CONFIG[environment].baseURL`; `None` where the lookup finds no entry and the access throws. */
  function BaseUrlFor(env: string): (url: Option<string>)
    ensures url.Some? <==> env == "development" || env == "production"
  {
    if env == "development" then Some(DevelopmentBaseUrl)
    else if env == "production" then Some(ProductionBaseUrl)
    else None
  }

  /** `API_BASE_URL` for a given `NODE_ENV`. */
  function ApiBaseUrl(nodeEnv: string): Option<string> {
    BaseUrlFor(Environment(nodeEnv))
  }

  /** Without `NODE_ENV` the development server is used; a name with no entry has no base URL. */
  lemma EnvironmentSelection()
    ensures ApiBaseUrl("") == Some(DevelopmentBaseUrl)
    ensures ApiBaseUrl("development") == Some(DevelopmentBaseUrl)
    ensures ApiBaseUrl("production") == Some(ProductionBaseUrl)
    ensures ApiBaseUrl("test") == None
  {
  }

  predicate StartsWithSlash(s: string) {
    |s| > 0 && s[0] == '/'
  }

  /** `buildApiUrl(endpoint)` against a given base: one leading slash is dropped, then base, "/" and the rest are joined. */
  function BuildApiUrl(base: string, endpoint: string): (url: string)
    ensures |url| == |base| + 1 + |endpoint| - (if StartsWithSlash(endpoint) then 1 else 0)
    ensures url[..|base| + 1] == base + "/"
  {
    var clean := if StartsWithSlash(endpoint) then endpoint[1..] else endpoint;
    base + "/" + clean
  }

  /** The part of a built URL after the base and its separator. */
  function EndpointPart(base: string, url: string): string
    requires |url| > |base|
  {
    url[|base| + 1..]
  }

  /**
   * The endpoint can be read back from the URL: unchanged when it had no
   * leading slash, and without exactly that one slash when it had one.
   */
  lemma EndpointRoundTrip(base: string, endpoint: string)
    ensures !StartsWithSlash(endpoint) ==> EndpointPart(base, BuildApiUrl(base, endpoint)) == endpoint
    ensures StartsWithSlash(endpoint) ==> "/" + EndpointPart(base, BuildApiUrl(base, endpoint)) == endpoint
  {
    var url := BuildApiUrl(base, endpoint);
    var clean := if StartsWithSlash(endpoint) then endpoint[1..] else endpoint;
    assert url == (base + "/") + clean;
    assert url[|base| + 1..] == clean;
  }

  /** A leading slash is optional: with or without it the URL is the same. */
  lemma LeadingSlashOptional(base: string, endpoint: string)
    requires !StartsWithSlash(endpoint)
    ensures BuildApiUrl(base, "/" + endpoint) == BuildApiUrl(base, endpoint)
  {
    assert ("/" + endpoint)[1..] == endpoint;
  }

  /** Only one slash is removed, so a doubled slash survives as a doubled slash after the separator. */
  lemma OnlyOneSlashStripped(base: string, rest: string)
    ensures BuildApiUrl(base, "//" + rest) == base + "//" + rest
  {
    assert ("//" + rest)[1..] == "/" + rest;
  }

  /** The production base already ends in "/", so its URLs carry "//" before the endpoint. */
  lemma ProductionDoubleSlash()
    ensures BuildApiUrl(ProductionBaseUrl, "/books") == "https://bookstoredb.onrender.com//books"
    ensures BuildApiUrl(DevelopmentBaseUrl, "/books") == "http://127.0.0.1:8000/books"
  {
    assert "/books"[1..] == "books";
  }
}
