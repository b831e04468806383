/**
 * The health endpoint: its method and secret checks, the normalisation of
 * the backend URL and key, the database probe with its fallback, and the
 * status code and body it answers with. The environment and the probe
 * results are parameters; the time stamp in the body is left out.
 */
module Health {
  import opened Wrappers
  import opened Text

  /** The request: its method (`verb`) and the `x-vercel-cron-secret` header, if sent. */
  datatype HealthRequest = HealthRequest(verb: string, cronHeader: Option<string>)

  /** The environment variables the handler reads. */
  datatype Config = Config(cronSecret: Option<string>, url: Option<string>, key: Option<string>)

  /** One backend call: it answered, answered with an error object, or threw. */
  datatype Call = Answered | Failed(message: string) | Threw(error: Thrown)

  /** The two probes: the one-row `documents` query and the `version` RPC tried when it fails. */
  datatype Probe = Probe(query: Call, rpc: Call)

  /**
   * The JSON body. Error answers carry a fixed `error` text, and `db: false`
   * when `withDb` is set; a report carries `db`, `message` and, as
   * `detail`, the optional `error` field.
   */
  datatype Body =
    | ErrorBody(error: string, withDb: bool)
    | Report(db: bool, message: string, detail: Option<string>)

  datatype HealthResponse = HealthResponse(status: int, body: Body)

  // ---------------------------------------------------------------------
  // Normalisation
  // ---------------------------------------------------------------------

  /** `s.replace(/\/+$/, '')`: every trailing '/' removed. */
  function StripTrailingSlashes(s: string): (r: string)
    ensures StartsWith(s, r)
    ensures |r| == 0 || r[|r| - 1] != '/'
    ensures forall i :: |r| <= i < |s| ==> s[i] == '/'
    decreases |s|
  {
    if |s| > 0 && s[|s| - 1] == '/' then StripTrailingSlashes(s[..|s| - 1]) else s
  }

  /** Stripping is idempotent: a stripped string has nothing left to strip. */
  lemma StripIdempotent(s: string)
    ensures StripTrailingSlashes(StripTrailingSlashes(s)) == StripTrailingSlashes(s)
  {
  }

  /**
   * The result is the only prefix of `s` with no trailing '/' that is
   * followed only by slashes: stripping is determined by these two facts.
   */
  lemma {:induction false} StripCharacterised(s: string, p: string)
    requires StartsWith(s, p)
    requires |p| == 0 || p[|p| - 1] != '/'
    requires forall i :: |p| <= i < |s| ==> s[i] == '/'
    ensures StripTrailingSlashes(s) == p
    decreases |s|
  {
    if |s| > 0 && s[|s| - 1] == '/' {
      StripCharacterised(s[..|s| - 1], p);
    }
  }

  /** The URL the handler uses: trimmed, then trailing slashes removed; "" when the variable is unset or empty. */
  function BackendUrl(cfg: Config): (u: string)
    ensures !Truthy(cfg.url) ==> u == ""
    ensures Truthy(cfg.url) ==> u == StripTrailingSlashes(Trim(cfg.url.value))
    ensures |u| == 0 || u[|u| - 1] != '/'
  {
    if Truthy(cfg.url) then StripTrailingSlashes(Trim(cfg.url.value)) else ""
  }

  /** The key the handler uses: trimmed; "" when the variable is unset or empty. */
  function BackendKey(cfg: Config): (k: string)
    ensures !Truthy(cfg.key) ==> k == ""
    ensures Truthy(cfg.key) ==> k == Trim(cfg.key.value)
  {
    if Truthy(cfg.key) then Trim(cfg.key.value) else ""
  }

  // ---------------------------------------------------------------------
  // The database probe
  // ---------------------------------------------------------------------

  /**
   * The `try` block and its `catch`: the database is healthy when the query
   * answers, or when it fails and the RPC answers. The message is the RPC's
   * error message, the thrown error's message, or "Unknown error" for a
   * thrown non-error; it stays "" when healthy.
   */
  function DbCheck(p: Probe): (r: (bool, string))
    ensures r.0 ==> r.1 == ""
    ensures p.query.Threw? ==> r == (false, MessageOr(p.query.error, "Unknown error"))
    ensures p.query.Failed? && p.rpc.Failed? ==> r == (false, p.rpc.message)
    ensures p.query.Failed? && p.rpc.Threw? ==> r == (false, MessageOr(p.rpc.error, "Unknown error"))
  {
    match p.query
    case Answered => (true, "")
    case Threw(e) => (false, MessageOr(e, "Unknown error"))
    case Failed(_) =>
      match p.rpc
      case Answered => (true, "")
      case Failed(m) => (false, m)
      case Threw(e) => (false, MessageOr(e, "Unknown error"))
  }

  /** The fallback as stated: the first query succeeds, or it fails and the RPC succeeds. */
  predicate Healthy(p: Probe) {
    p.query.Answered? || (p.query.Failed? && p.rpc.Answered?)
  }

  lemma DbCheckHealthy(p: Probe)
    ensures DbCheck(p).0 <==> Healthy(p)
  {
  }

  // ---------------------------------------------------------------------
  // The handler
  // ---------------------------------------------------------------------

  /** The secret check fails: a non-empty secret is configured and the header is not exactly it. */
  predicate Unauthorized(req: HealthRequest, cfg: Config) {
    Truthy(cfg.cronSecret) && req.cronHeader != Some(cfg.cronSecret.value)
  }

  /** `handler(req, res)`: the checks in source order, then the probe's verdict. */
  function Handle(req: HealthRequest, cfg: Config, p: Probe): (r: HealthResponse)
    ensures req.verb != "GET" ==> r == HealthResponse(405, ErrorBody("Method not allowed", false))
    ensures req.verb == "GET" && Unauthorized(req, cfg) ==> r == HealthResponse(401, ErrorBody("Unauthorized", false))
    ensures req.verb == "GET" && !Unauthorized(req, cfg) && (BackendUrl(cfg) == "" || BackendKey(cfg) == "") ==>
      r == HealthResponse(500, ErrorBody("Missing Supabase configuration", true))
    ensures r.body.Report? <==> req.verb == "GET" && !Unauthorized(req, cfg) && BackendUrl(cfg) != "" && BackendKey(cfg) != ""
    ensures r.body.Report? ==>
      && (r.status == 200 <==> Healthy(p)) && (r.status == 503 <==> !Healthy(p))
      && r.body.db == Healthy(p)
      && r.body.message == (if Healthy(p) then "Database is healthy" else "Database check failed")
      && (r.body.detail.Some? <==> DbCheck(p).1 != "")
      && (r.body.detail.Some? ==> r.body.detail.value == DbCheck(p).1 && !Healthy(p))
  {
    DbCheckHealthy(p);
    if req.verb != "GET" then HealthResponse(405, ErrorBody("Method not allowed", false))
    else if Unauthorized(req, cfg) then HealthResponse(401, ErrorBody("Unauthorized", false))
    else if BackendUrl(cfg) == "" || BackendKey(cfg) == "" then
      HealthResponse(500, ErrorBody("Missing Supabase configuration", true))
    else
      var (db, message) := DbCheck(p);
      HealthResponse(if db then 200 else 503,
                     Report(db, if db then "Database is healthy" else "Database check failed",
                            if message != "" then Some(message) else None))
  }

  /** Without a configured secret no request is refused as unauthorized. */
  lemma NoSecretNoAuth(req: HealthRequest, cfg: Config, p: Probe)
    requires !Truthy(cfg.cronSecret)
    ensures Handle(req, cfg, p).status != 401
  {
  }

  /** The status is one of five, and 200 means every check passed and the database answered. */
  lemma StatusCodes(req: HealthRequest, cfg: Config, p: Probe)
    ensures Handle(req, cfg, p).status in {200, 401, 405, 500, 503}
    ensures Handle(req, cfg, p).status == 200 <==>
      req.verb == "GET" && !Unauthorized(req, cfg) && BackendUrl(cfg) != "" && BackendKey(cfg) != "" && Healthy(p)
  {
  }

  /** A URL made only of blanks and slashes counts as missing. */
  lemma SlashOnlyUrlMissing(req: HealthRequest, cfg: Config, p: Probe)
    requires req.verb == "GET" && !Unauthorized(req, cfg)
    requires cfg.url == Some(" / ")
    ensures Handle(req, cfg, p).status == 500
  {
    BlankSlashNormalisesToEmpty();
  }

  lemma BlankSlashNormalisesToEmpty()
    ensures StripTrailingSlashes(Trim(" / ")) == ""
  {
    assert TrimStart(" / ") == "/ " by {
      assert TrimStart(" / "[1..]) == "/ ";
    }
    assert TrimEnd("/ ") == "/" by {
      assert TrimEnd("/ "[..1]) == "/";
    }
    assert StripTrailingSlashes("/"[..0]) == "";
  }
}
