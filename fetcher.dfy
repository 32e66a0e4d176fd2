/**
 * Model of `AsyncFetcher` in src/ainfo/fetcher.py: the robots.txt gate with
 * its per-origin memo, the optional on-disk page cache and the page GET.
 *
 * Abstractions: the network is an oracle from URL to response, passed to each
 * call (so two calls may see different answers); robots.txt parsing and
 * `can_fetch` are one function of (robots text, user agent, URL); the origin
 * `scheme://netloc` of a URL and the SHA-256 file name of a URL are functions
 * given at construction; the cache directory is a map from file name to
 * contents. A ghost log records every GET the fetcher issues.
 */
module Fetcher {
  import opened Wrappers

  const DefaultUserAgent: string := "ainfo-fetcher"
  const DefaultTimeout: real := 10.0

  /** Outcome of one GET: a transport-level failure or a status and a body. */
  datatype Response = TransportError | Reply(status: int, body: string)

  /** The exceptions `fetch` raises. */
  datatype FetchError =
    | PermissionDenied(url: string)   // PermissionError: robots.txt disallows the URL
    | StatusError(status: int)        // httpx.HTTPStatusError from raise_for_status
    | TransportFailure                // httpx transport error (connection, timeout, DNS)

  /** A GET issued by the fetcher: for an origin's robots.txt, or for a page. */
  datatype Request = RobotsGet(origin: string) | PageGet(url: string)

  /** What a fetcher is constructed with and never changes. */
  datatype Config = Config(
    userAgent: string,
    cacheEnabled: bool,                          // `self.cache_dir` is not None
    origin: string -> string,                    // f"{scheme}://{netloc}" of urlparse(url)
    cacheKey: string -> string,                  // sha256(url).hexdigest()
    canFetch: (string, string, string) -> bool)  // RobotFileParser.parse + can_fetch

  /** The mutable part: robots memo, cache directory, and the log of GETs. */
  datatype State = State(
    robots: map<string, string>,   // origin -> robots.txt text the parser was fed
    cache: map<string, string>,    // cache file name -> file contents
    requests: seq<Request>)

  function RobotsUrl(base: string): string { base + "/robots.txt" }

  /** `resp.text if resp.status_code == 200 else ""`, and `""` on an httpx error. */
  function RobotsText(resp: Response): string
  {
    if resp.Reply? && resp.status == 200 then resp.body else ""
  }

  /** `raise_for_status` passes exactly the 2xx statuses. */
  predicate IsSuccess(status: int) { 200 <= status < 300 }

  /**
   * Reading a cache file with `open(path, "r")`, text mode with universal
   * newlines: every `"\r\n"` and every lone `"\r"` comes back as `"\n"`.
   * Writing with `"w"` stores the text unchanged (on POSIX).
   */
  function ReadText(t: string): string
    decreases |t|
  {
    if t == [] then ""
    else if t[0] == '\r' then "\n" + ReadText(if |t| > 1 && t[1] == '\n' then t[2..] else t[1..])
    else [t[0]] + ReadText(t[1..])
  }

  /** Text read back in text mode holds no carriage return. */
  lemma {:induction false} ReadTextHasNoCR(t: string)
    ensures '\r' !in ReadText(t)
    decreases |t|
  {
    if t != [] {
      if t[0] == '\r' {
        ReadTextHasNoCR(if |t| > 1 && t[1] == '\n' then t[2..] else t[1..]);
      } else {
        ReadTextHasNoCR(t[1..]);
      }
    }
  }

  /** Text without a carriage return reads back unchanged. */
  lemma {:induction false} ReadTextKeepsTextWithoutCR(t: string)
    requires '\r' !in t
    ensures ReadText(t) == t
    decreases |t|
  {
    if t != [] {
      assert t[0] in t;
      assert forall c :: c in t[1..] ==> c in t;
      ReadTextKeepsTextWithoutCR(t[1..]);
    }
  }

  /** Reading back text that was already read back changes nothing. */
  lemma ReadTextIdempotent(t: string)
    ensures ReadText(ReadText(t)) == ReadText(t)
  {
    ReadTextHasNoCR(t);
    ReadTextKeepsTextWithoutCR(ReadText(t));
  }

  /** A CRLF body does not survive the round trip through the cache file. */
  lemma ReadTextCrlfExample()
    ensures ReadText("a\r\nb") == "a\nb"
  {
    var t := "a\r\nb";
    assert t[1..][0] == '\r' && t[1..][1] == '\n' && t[1..][2..] == "b";
    assert ReadText("b") == "b" by {
      assert "b"[1..] == "";
    }
  }

  /** `_allowed(url)`: the verdict and the state after it. */
  function AllowedStep(cfg: Config, s: State, url: string, net: string -> Response): (bool, State)
  {
    var base := cfg.origin(url);
    var s1 :=
      if base in s.robots then s
      else s.(robots := s.robots[base := RobotsText(net(RobotsUrl(base)))],
              requests := s.requests + [RobotsGet(base)]);
    (cfg.canFetch(s1.robots[base], cfg.userAgent, url), s1)
  }

  /** `fetch(url)`: robots gate, then cache hit, then GET and cache write. */
  function FetchStep(cfg: Config, s: State, url: string, net: string -> Response)
    : (Result<string, FetchError>, State)
  {
    var (ok, s1) := AllowedStep(cfg, s, url, net);
    var key := cfg.cacheKey(url);
    if !ok then (Failure(PermissionDenied(url)), s1)
    else if cfg.cacheEnabled && key in s1.cache then (Success(ReadText(s1.cache[key])), s1)
    else
      var s2 := s1.(requests := s1.requests + [PageGet(url)]);
      match net(url)
      case TransportError => (Failure(TransportFailure), s2)
      case Reply(status, body) =>
        if !IsSuccess(status) then (Failure(StatusError(status)), s2)
        else if cfg.cacheEnabled then (Success(body), s2.(cache := s2.cache[key := body]))
        else (Success(body), s2)
  }

  // ---------------------------------------------------------------------
  // The robots memo invariant
  // ---------------------------------------------------------------------

  /** Origins whose robots.txt was requested. */
  function RobotsOrigins(reqs: seq<Request>): set<string>
  {
    set i | 0 <= i < |reqs| && reqs[i].RobotsGet? :: reqs[i].origin
  }

  /** No origin's robots.txt was requested twice. */
  predicate RobotsRequestedOnce(reqs: seq<Request>)
  {
    forall i, j :: 0 <= i < j < |reqs| && reqs[i].RobotsGet? && reqs[j].RobotsGet? ==>
      reqs[i].origin != reqs[j].origin
  }

  /**
   * The memo holds exactly the origins whose robots.txt was requested, and
   * each of those was requested once.
   */
  predicate RobotsConsistent(s: State)
  {
    s.robots.Keys == RobotsOrigins(s.requests) && RobotsRequestedOnce(s.requests)
  }

  lemma RobotsOriginsAppend(reqs: seq<Request>, r: Request)
    ensures RobotsOrigins(reqs + [r]) == RobotsOrigins(reqs) + (if r.RobotsGet? then {r.origin} else {})
  {
    var after := reqs + [r];
    forall o | o in RobotsOrigins(after)
      ensures o in RobotsOrigins(reqs) + (if r.RobotsGet? then {r.origin} else {})
    {
      var i :| 0 <= i < |after| && after[i].RobotsGet? && after[i].origin == o;
      if i < |reqs| { assert reqs[i] == after[i]; }
    }
    forall o | o in RobotsOrigins(reqs) ensures o in RobotsOrigins(after) {
      var i :| 0 <= i < |reqs| && reqs[i].RobotsGet? && reqs[i].origin == o;
      assert after[i] == reqs[i];
    }
    if r.RobotsGet? {
      assert after[|reqs|] == r;
    }
  }

  /** `_allowed` keeps the memo consistent with the log. */
  lemma AllowedKeepsRobotsConsistent(cfg: Config, s: State, url: string, net: string -> Response)
    requires RobotsConsistent(s)
    ensures RobotsConsistent(AllowedStep(cfg, s, url, net).1)
  {
    var base := cfg.origin(url);
    if base !in s.robots {
      var r := RobotsGet(base);
      RobotsOriginsAppend(s.requests, r);
      var after := s.requests + [r];
      forall i, j | 0 <= i < j < |after| && after[i].RobotsGet? && after[j].RobotsGet?
        ensures after[i].origin != after[j].origin
      {
        if j == |s.requests| {
          assert after[i] == s.requests[i];
          assert s.requests[i].origin in RobotsOrigins(s.requests);
        } else {
          assert after[i] == s.requests[i] && after[j] == s.requests[j];
        }
      }
    }
  }

  /** A page GET leaves the robots part of the invariant as it was. */
  lemma PageGetKeepsRobotsConsistent(s: State, url: string, cache: map<string, string>)
    requires RobotsConsistent(s)
    ensures RobotsConsistent(State(s.robots, cache, s.requests + [PageGet(url)]))
  {
    var r := PageGet(url);
    RobotsOriginsAppend(s.requests, r);
    var after := s.requests + [r];
    forall i, j | 0 <= i < j < |after| && after[i].RobotsGet? && after[j].RobotsGet?
      ensures after[i].origin != after[j].origin
    {
      assert after[i] == s.requests[i] && after[j] == s.requests[j];
    }
  }

  /** After the gate, `fetch` adds at most a page GET and leaves the memo alone. */
  lemma FetchAfterGate(cfg: Config, s: State, url: string, net: string -> Response)
    ensures var s1 := AllowedStep(cfg, s, url, net).1;
      var s2 := FetchStep(cfg, s, url, net).1;
      && s2.robots == s1.robots
      && (s2.requests == s1.requests || s2.requests == s1.requests + [PageGet(url)])
  {
  }

  /** `fetch` keeps the memo consistent with the log. */
  lemma FetchKeepsRobotsConsistent(cfg: Config, s: State, url: string, net: string -> Response)
    requires RobotsConsistent(s)
    ensures RobotsConsistent(FetchStep(cfg, s, url, net).1)
  {
    AllowedKeepsRobotsConsistent(cfg, s, url, net);
    var s1 := AllowedStep(cfg, s, url, net).1;
    var s2 := FetchStep(cfg, s, url, net).1;
    FetchAfterGate(cfg, s, url, net);
    if s2.requests != s1.requests {
      PageGetKeepsRobotsConsistent(s1, url, s2.cache);
      assert s2 == State(s1.robots, s2.cache, s1.requests + [PageGet(url)]);
    } else {
      assert RobotsConsistent(State(s1.robots, s1.cache, s1.requests));
    }
  }

  // ---------------------------------------------------------------------
  // Properties of one fetch
  // ---------------------------------------------------------------------

  /** GETs issued after the first `n` entries of the log are all robots.txt requests. */
  predicate OnlyRobotsSince(reqs: seq<Request>, n: nat)
  {
    forall i :: n <= i < |reqs| ==> reqs[i].RobotsGet?
  }

  /**
   * The robots.txt memo: an origin seen before is answered from the memo
   * with no request; a new origin costs exactly one robots.txt GET and one
   * new entry. Existing entries are never replaced, and the cache is not
   * touched.
   */
  lemma AllowedMemoises(cfg: Config, s: State, url: string, net: string -> Response)
    ensures var s1 := AllowedStep(cfg, s, url, net).1;
      && s1.cache == s.cache
      && cfg.origin(url) in s1.robots
      && s1.robots.Keys == s.robots.Keys + {cfg.origin(url)}
      && (forall o :: o in s.robots ==> s1.robots[o] == s.robots[o])
      && (cfg.origin(url) in s.robots ==> s1 == s)
      && (cfg.origin(url) !in s.robots ==> s1.requests == s.requests + [RobotsGet(cfg.origin(url))])
  {
  }

  /**
   * A failed or non-200 robots.txt GET is not raised: the origin is
   * memoised with empty robots text and the verdict is the parser's verdict
   * on empty rules.
   */
  lemma RobotsFailureMeansEmptyRules(cfg: Config, s: State, url: string, net: string -> Response)
    requires cfg.origin(url) !in s.robots
    requires net(RobotsUrl(cfg.origin(url))).TransportError?
          || net(RobotsUrl(cfg.origin(url))).status != 200
    ensures AllowedStep(cfg, s, url, net).1.robots[cfg.origin(url)] == ""
    ensures AllowedStep(cfg, s, url, net).0 == cfg.canFetch("", cfg.userAgent, url)
  {
  }

  /** Empty robots rules allow every URL for the fetcher's user agent. */
  ghost predicate EmptyRulesAllowAll(cfg: Config)
  {
    forall url :: cfg.canFetch("", cfg.userAgent, url)
  }

  /**
   * Availability over strictness: with a parser that reads empty rules as
   * "allow all", a failed robots.txt GET never leads to a PermissionError,
   * and every later fetch from that origin passes the gate too.
   */
  lemma RobotsFailureIsPermissive(cfg: Config, s: State, url: string, net: string -> Response,
                                  later: string, net2: string -> Response)
    requires EmptyRulesAllowAll(cfg)
    requires cfg.origin(url) !in s.robots
    requires net(RobotsUrl(cfg.origin(url))).TransportError?
          || net(RobotsUrl(cfg.origin(url))).status != 200
    requires cfg.origin(later) == cfg.origin(url)
    ensures FetchStep(cfg, s, url, net).0 != Failure(PermissionDenied(url))
    ensures AllowedStep(cfg, FetchStep(cfg, s, url, net).1, later, net2).0
  {
    var s1 := AllowedStep(cfg, s, url, net).1;
    assert s1.robots[cfg.origin(url)] == "";
    var s2 := FetchStep(cfg, s, url, net).1;
    assert s2.robots == s1.robots;
    assert cfg.canFetch("", cfg.userAgent, later);
  }

  /**
   * Robots denial is absolute: a disallowed URL raises PermissionError and
   * neither the cache nor a page GET is involved, even when the cache holds
   * an entry for it.
   */
  lemma RobotsDenialIsAbsolute(cfg: Config, s: State, url: string, net: string -> Response)
    requires !AllowedStep(cfg, s, url, net).0
    ensures FetchStep(cfg, s, url, net).0 == Failure(PermissionDenied(url))
    ensures FetchStep(cfg, s, url, net).1.cache == s.cache
    ensures |FetchStep(cfg, s, url, net).1.requests| >= |s.requests|
    ensures OnlyRobotsSince(FetchStep(cfg, s, url, net).1.requests, |s.requests|)
  {
  }

  /**
   * A cache hit on an allowed URL returns the stored contents as read in
   * text mode and issues no page GET; the only request possible is the
   * robots.txt GET of an origin seen for the first time.
   */
  lemma CacheHitIssuesNoPageRequest(cfg: Config, s: State, url: string, net: string -> Response)
    requires AllowedStep(cfg, s, url, net).0
    requires cfg.cacheEnabled && cfg.cacheKey(url) in s.cache
    ensures FetchStep(cfg, s, url, net).0 == Success(ReadText(s.cache[cfg.cacheKey(url)]))
    ensures FetchStep(cfg, s, url, net).1.cache == s.cache
    ensures |FetchStep(cfg, s, url, net).1.requests| >= |s.requests|
    ensures OnlyRobotsSince(FetchStep(cfg, s, url, net).1.requests, |s.requests|)
    ensures cfg.origin(url) in s.robots ==> FetchStep(cfg, s, url, net).1 == s
  {
  }

  /**
   * A cache miss on an allowed URL issues one page GET as the last request.
   * A 2xx reply is returned and, with a cache, stored under the URL's key;
   * any other status or a transport failure is raised and nothing is written.
   */
  lemma CacheMissIssuesGet(cfg: Config, s: State, url: string, net: string -> Response)
    requires AllowedStep(cfg, s, url, net).0
    requires !(cfg.cacheEnabled && cfg.cacheKey(url) in s.cache)
    ensures var (r, s2) := FetchStep(cfg, s, url, net);
      && s2.requests == AllowedStep(cfg, s, url, net).1.requests + [PageGet(url)]
      && (net(url).Reply? && IsSuccess(net(url).status) ==>
            && r == Success(net(url).body)
            && s2.cache == if cfg.cacheEnabled then s.cache[cfg.cacheKey(url) := net(url).body]
                           else s.cache)
      && (net(url).TransportError? ==> r == Failure(TransportFailure) && s2.cache == s.cache)
      && (net(url).Reply? && !IsSuccess(net(url).status) ==>
            r == Failure(StatusError(net(url).status)) && s2.cache == s.cache)
  {
  }

  /** Without a cache directory the cache is never read or written. */
  lemma NoCacheDirMeansEveryAllowedCallGets(cfg: Config, s: State, url: string, net: string -> Response)
    requires !cfg.cacheEnabled
    ensures FetchStep(cfg, s, url, net).1.cache == s.cache
    ensures AllowedStep(cfg, s, url, net).0 ==>
      FetchStep(cfg, s, url, net).1.requests == AllowedStep(cfg, s, url, net).1.requests + [PageGet(url)]
  {
  }

  /**
   * Cache round trip: once a fetch of `url` succeeded with a cache, fetching
   * it again returns the first body as read back in text mode, whatever the
   * network now answers, and changes nothing (no request at all). A body
   * without a carriage return comes back identical.
   */
  lemma {:induction false} SecondFetchServedFromCache(cfg: Config, s: State, url: string,
                                                      net: string -> Response, net2: string -> Response)
    requires cfg.cacheEnabled
    requires FetchStep(cfg, s, url, net).0.Success?
    ensures var (r1, s1) := FetchStep(cfg, s, url, net);
      FetchStep(cfg, s1, url, net2) == (Success(ReadText(r1.value)), s1)
    ensures var r1 := FetchStep(cfg, s, url, net).0;
      '\r' !in r1.value ==> FetchStep(cfg, FetchStep(cfg, s, url, net).1, url, net2).0 == r1
  {
    var (r1, s1) := FetchStep(cfg, s, url, net);
    var (ok, sa) := AllowedStep(cfg, s, url, net);
    assert ok;
    assert s1.robots == sa.robots;
    var base := cfg.origin(url);
    assert base in s1.robots;
    assert AllowedStep(cfg, s1, url, net2) == (ok, s1);
    var key := cfg.cacheKey(url);
    assert key in s1.cache;
    if key in s.cache {
      assert r1.value == ReadText(s1.cache[key]);
      ReadTextIdempotent(s1.cache[key]);
    } else {
      assert r1.value == s1.cache[key];
    }
    if '\r' !in r1.value {
      ReadTextKeepsTextWithoutCR(r1.value);
    }
  }

  /**
   * The round trip is not the identity: a `"a\r\nb"` reply is returned as
   * is the first time and as `"a\nb"` from the cache the second time.
   */
  lemma CrlfBodyChangesOnSecondFetch(cfg: Config, s: State, url: string,
                                     net: string -> Response, net2: string -> Response)
    requires cfg.cacheEnabled && cfg.cacheKey(url) !in s.cache
    requires AllowedStep(cfg, s, url, net).0
    requires net(url) == Reply(200, "a\r\nb")
    ensures FetchStep(cfg, s, url, net).0 == Success("a\r\nb")
    ensures FetchStep(cfg, FetchStep(cfg, s, url, net).1, url, net2).0 == Success("a\nb")
  {
    SecondFetchServedFromCache(cfg, s, url, net, net2);
    ReadTextCrlfExample();
  }

  // ---------------------------------------------------------------------
  // The fetcher object
  // ---------------------------------------------------------------------

  /**
   * `AsyncFetcher`: `_robots` is `robots`, the cache directory's files are
   * `cache`, and `requests` logs the GETs issued through `_client`.
   */
  class AsyncFetcher {
    const config: Config
    const timeout: real
    var robots: map<string, string>
    var cache: map<string, string>
    ghost var requests: seq<Request>

    ghost function Snapshot(): State
      reads this
    {
      State(robots, cache, requests)
    }

    ghost predicate Valid()
      reads this
    {
      RobotsConsistent(Snapshot()) && (!config.cacheEnabled ==> cache == map[])
    }

    /**
     * `AsyncFetcher(user_agent, timeout, cache_dir)`, with the abstract
     * origin, cache-key and robots functions. `diskFiles` are the files the
     * cache directory already holds; an absent or empty `cache_dir` means no
     * cache. The robots memo starts empty and nothing has been requested.
     */
    constructor (origin: string -> string, cacheKey: string -> string,
                 canFetch: (string, string, string) -> bool,
                 diskFiles: map<string, string>,
                 userAgent: string := DefaultUserAgent,
                 timeout: real := DefaultTimeout,
                 cacheDir: Option<string> := None)
      ensures Valid()
      ensures config.userAgent == userAgent && this.timeout == timeout
      ensures config.cacheEnabled == (cacheDir.Some? && cacheDir.value != "")
      ensures config.origin == origin && config.cacheKey == cacheKey && config.canFetch == canFetch
      ensures robots == map[] && requests == []
      ensures cache == if config.cacheEnabled then diskFiles else map[]
    {
      var enabled := cacheDir.Some? && cacheDir.value != "";
      config := Config(userAgent, enabled, origin, cacheKey, canFetch);
      this.timeout := timeout;
      robots := map[];
      cache := if enabled then diskFiles else map[];
      requests := [];
    }

    /** `_allowed(url)`: consult or fill the robots memo, then ask the parser. */
    method Allowed(url: string, net: string -> Response) returns (ok: bool)
      requires Valid()
      modifies this
      ensures Valid()
      ensures (ok, Snapshot()) == AllowedStep(config, old(Snapshot()), url, net)
    {
      AllowedKeepsRobotsConsistent(config, Snapshot(), url, net);
      var base := config.origin(url);
      if base !in robots {
        var resp := net(RobotsUrl(base));
        requests := requests + [RobotsGet(base)];
        var text := if resp.Reply? && resp.status == 200 then resp.body else "";
        robots := robots[base := text];
      }
      ok := config.canFetch(robots[base], config.userAgent, url);
    }

    /** `fetch(url)`: robots gate, then cache hit, then GET and cache write. */
    method Fetch(url: string, net: string -> Response) returns (r: Result<string, FetchError>)
      requires Valid()
      modifies this
      ensures Valid()
      ensures (r, Snapshot()) == FetchStep(config, old(Snapshot()), url, net)
    {
      FetchKeepsRobotsConsistent(config, Snapshot(), url, net);
      var ok := Allowed(url, net);
      if !ok {
        return Failure(PermissionDenied(url));
      }
      var key := config.cacheKey(url);
      if config.cacheEnabled && key in cache {
        return Success(ReadText(cache[key]));
      }
      var resp := net(url);
      requests := requests + [PageGet(url)];
      if resp.TransportError? {
        return Failure(TransportFailure);
      }
      if !IsSuccess(resp.status) {
        return Failure(StatusError(resp.status));
      }
      if config.cacheEnabled {
        cache := cache[key := resp.body];
      }
      r := Success(resp.body);
    }
  }
}
