/** middleware.py: bearer-token extraction, the role hierarchy, header
    masking and parsing, the per-client sliding-window rate limiter (the
    clock is a parameter), CORS headers and the compression threshold. The
    configuration values of config.py are constants here. */
module Middleware {
  import opened Common
  import opened Json
  import opened Utils

  // ---------------------------------------------------------------------
  // Tokens and roles

  type Headers = map<string, string>

  const BearerPrefix := "Bearer "

  /** headers.get(k, "") */
  function Header(headers: Headers, k: string): string
  {
    if k in headers then headers[k] else ""
  }

  /** extract_token: the text after "Bearer " in the Authorization header,
      None when the header is missing or has another form. */
  function ExtractToken(headers: Headers): (r: Option<string>)
    ensures r.Some? <==> StartsWith(Header(headers, "Authorization"), BearerPrefix)
    ensures r.Some? ==> BearerPrefix + r.value == Header(headers, "Authorization")
  {
    var auth := Header(headers, "Authorization");
    if StartsWith(auth, BearerPrefix) then Some(auth[|BearerPrefix|..]) else None
  }

  /** Any token sent as "Bearer <token>" is extracted unchanged. */
  lemma ExtractSentToken(headers: Headers, token: string)
    requires Header(headers, "Authorization") == BearerPrefix + token
    ensures ExtractToken(headers) == Some(token)
  {
    assert (BearerPrefix + token)[..|BearerPrefix|] == BearerPrefix;
    assert (BearerPrefix + token)[|BearerPrefix|..] == token;
  }

  /** The rank of a role in check_role_hierarchy; unknown roles rank 0. */
  function RoleLevel(role: string): (n: nat)
    ensures n <= 3
    ensures role !in {"admin", "moderator", "user"} ==> n == 0
  {
    if role == "admin" then 3
    else if role == "moderator" then 2
    else if role == "user" then 1
    else 0
  }

  /** check_role_hierarchy */
  predicate CheckRoleHierarchy(userRole: string, requiredRole: string)
  {
    RoleLevel(userRole) >= RoleLevel(requiredRole)
  }

  /** Every role satisfies itself and "guest"; "admin" satisfies every
      requirement; an unknown role satisfies exactly what a guest does; the
      relation is transitive. */
  lemma RoleHierarchyFacts(a: string, b: string, c: string)
    ensures CheckRoleHierarchy(a, a)
    ensures CheckRoleHierarchy(a, "guest")
    ensures CheckRoleHierarchy("admin", a)
    ensures a !in {"admin", "moderator", "user"} ==> (CheckRoleHierarchy(a, b) <==> CheckRoleHierarchy("guest", b))
    ensures CheckRoleHierarchy(a, b) && CheckRoleHierarchy(b, c) ==> CheckRoleHierarchy(a, c)
  {
  }

  // ---------------------------------------------------------------------
  // Headers

  const Sensitive: set<string> := {"Authorization", "Cookie", "X-API-Key"}
  const Mask := "***"

  /** sanitize_headers: the same keys, sensitive values masked, the rest
      unchanged. */
  function SanitizeHeaders(headers: Headers): (r: Headers)
    ensures r.Keys == headers.Keys
    ensures forall k :: k in r && k in Sensitive ==> r[k] == Mask
    ensures forall k :: k in r && k !in Sensitive ==> r[k] == headers[k]
  {
    map k | k in headers :: if k in Sensitive then Mask else headers[k]
  }

  /** Masking twice is masking once, and no secret survives. */
  lemma SanitizeHeadersIdempotent(headers: Headers)
    ensures SanitizeHeaders(SanitizeHeaders(headers)) == SanitizeHeaders(headers)
    ensures ExtractToken(SanitizeHeaders(headers)).None?
  {
    assert SanitizeHeaders(SanitizeHeaders(headers)).Keys == SanitizeHeaders(headers).Keys;
    assert !StartsWith(Mask, BearerPrefix);
  }

  /** The dict that `d[key(x)] = val(x)` for each x of xs, in order, builds. */
  function LastWins<T>(xs: seq<T>, key: T -> string, val: T -> string): map<string, string>
  {
    if xs == [] then map[]
    else LastWins(xs[..|xs| - 1], key, val)[key(xs[|xs| - 1]) := val(xs[|xs| - 1])]
  }

  /** A name is present exactly when some element has it as key. */
  lemma {:induction false} LastWinsKeys<T>(xs: seq<T>, key: T -> string, val: T -> string, k: string)
    ensures k in LastWins(xs, key, val) <==> exists i :: 0 <= i < |xs| && key(xs[i]) == k
  {
    if xs != [] {
      var init := xs[..|xs| - 1];
      LastWinsKeys(init, key, val, k);
      if exists i :: 0 <= i < |xs| && key(xs[i]) == k {
        var i :| 0 <= i < |xs| && key(xs[i]) == k;
        if i < |init| {
          assert init[i] == xs[i];
        }
      }
      if exists i :: 0 <= i < |init| && key(init[i]) == k {
        var i :| 0 <= i < |init| && key(init[i]) == k;
        assert xs[i] == init[i];
      }
    }
  }

  /** The last element with a given key supplies that key's value. */
  lemma {:induction false} LastWinsValue<T>(xs: seq<T>, key: T -> string, val: T -> string, i: nat)
    requires i < |xs|
    requires forall j :: i < j < |xs| ==> key(xs[j]) != key(xs[i])
    ensures key(xs[i]) in LastWins(xs, key, val)
    ensures LastWins(xs, key, val)[key(xs[i])] == val(xs[i])
  {
    var n := |xs| - 1;
    if i < n {
      var init := xs[..n];
      assert init[i] == xs[i];
      assert forall j :: i < j < |init| ==> init[j] == xs[j];
      LastWinsValue(init, key, val, i);
    }
  }

  /** parse_headers' key: the raw key lower-cased. */
  function HeaderName(f: Field): string
  {
    LowerStr(f.key)
  }

  /** parse_headers' value: str(value), sanitised. */
  function HeaderValue(f: Field): string
  {
    Sanitized(PyStr(f.value))
  }

  /** parse_headers over the raw dict's items in order: a later key that
      lowers to the same name overwrites an earlier one. */
  function ParsedOf(raw: seq<Field>): map<string, string>
  {
    LastWins(raw, HeaderName, HeaderValue)
  }

  /** A parsed name is present exactly when some raw key lowers to it. */
  lemma ParsedKeys(raw: seq<Field>, k: string)
    ensures k in ParsedOf(raw) <==> exists i :: 0 <= i < |raw| && HeaderName(raw[i]) == k
  {
    LastWinsKeys(raw, HeaderName, HeaderValue, k);
  }

  /** The last raw key that lowers to a name gives that name its value. */
  lemma ParsedLastWins(raw: seq<Field>, i: nat)
    requires i < |raw|
    requires forall j :: i < j < |raw| ==> HeaderName(raw[j]) != HeaderName(raw[i])
    ensures HeaderName(raw[i]) in ParsedOf(raw)
    ensures ParsedOf(raw)[HeaderName(raw[i])] == Sanitized(PyStr(raw[i].value))
  {
    LastWinsValue(raw, HeaderName, HeaderValue, i);
  }

  /** One more raw item sets its parsed name last. */
  lemma ParsedStep(raw: seq<Field>, i: nat)
    requires i < |raw|
    ensures ParsedOf(raw[..i + 1]) == ParsedOf(raw[..i])[HeaderName(raw[i]) := HeaderValue(raw[i])]
  {
    assert raw[..i + 1][..i] == raw[..i];
  }

  /** parse_headers */
  method ParseHeaders(raw: seq<Field>) returns (parsed: map<string, string>)
    ensures parsed == ParsedOf(raw)
  {
    parsed := map[];
    var i := 0;
    while i < |raw|
      invariant 0 <= i <= |raw|
      invariant parsed == ParsedOf(raw[..i])
    {
      ParsedStep(raw, i);
      parsed := parsed[HeaderName(raw[i]) := HeaderValue(raw[i])];
      i := i + 1;
    }
    assert raw[..i] == raw;
  }

  // ---------------------------------------------------------------------
  // Rate limiting

  /** requests_per_minute of get_rate_limit */
  const MaxRequests := 60
  /** The window length in seconds. */
  const WindowSeconds := 60

  /** The timestamps still inside the window at `now`. */
  function Recent(now: int): int -> bool
  {
    (t: int) => now - t < WindowSeconds
  }

  /** The answer of rate_limit_check. */
  datatype RateDecision = Allow(remaining: int) | Deny(remaining: int, retryAfter: int)

  class RateLimiter {
    /** _rate_limits: each client's recent request times, oldest first */
    var windows: map<string, seq<int>>

    /** No client's window holds more than the limit. */
    ghost predicate Valid()
      reads this
    {
      forall c :: c in windows ==> |windows[c]| <= MaxRequests
    }

    constructor()
      ensures Valid() && windows == map[]
    {
      windows := map[];
    }

    /** The client's window, before pruning. */
    function WindowOf(clientId: string): seq<int>
      reads this
    {
      if clientId in windows then windows[clientId] else []
    }

    /** rate_limit_check at time `now`: prunes the client's window to the
        last 60 seconds, then allows the request exactly when fewer than 60
        remain, recording only an allowed request. */
    method RateLimitCheck(clientId: string, now: int) returns (r: RateDecision)
      requires Valid()
      modifies this
      ensures Valid()
      ensures var w := Filter(old(WindowOf(clientId)), Recent(now));
              && (r.Allow? <==> |w| < MaxRequests)
              && (r.Allow? ==> r.remaining == MaxRequests - |w| - 1 && windows == old(windows)[clientId := w + [now]])
              && (r.Deny? ==> r == Deny(0, WindowSeconds) && windows == old(windows)[clientId := w])
      ensures r.remaining >= 0
    {
      if clientId !in windows {
        windows := windows[clientId := []];
      }
      var window := Filter(windows[clientId], Recent(now));
      windows := windows[clientId := window];
      if |window| >= MaxRequests {
        return Deny(0, WindowSeconds);
      }
      windows := windows[clientId := windows[clientId] + [now]];
      r := Allow(MaxRequests - |window| - 1);
    }
  }

  // ---------------------------------------------------------------------
  // CORS and compression

  /** get_cors_origins with debug mode off (is_debug_mode is False). */
  const AllowedOrigins: seq<string> := ["https://app.example.com"]

  /** handle_cors: the three CORS headers for an allowed origin, none
      otherwise. */
  function HandleCors(origin: string): (r: Headers)
    ensures ("*" in AllowedOrigins || origin in AllowedOrigins) ==>
              r.Keys == {"Access-Control-Allow-Origin", "Access-Control-Allow-Methods", "Access-Control-Allow-Headers"} &&
              r["Access-Control-Allow-Origin"] == origin
    ensures !("*" in AllowedOrigins || origin in AllowedOrigins) ==> r == map[]
  {
    if "*" in AllowedOrigins || origin in AllowedOrigins then
      map["Access-Control-Allow-Origin" := origin,
          "Access-Control-Allow-Methods" := "GET, POST, PUT, DELETE",
          "Access-Control-Allow-Headers" := "Content-Type, Authorization"]
    else map[]
  }

  /** Only the configured origin receives CORS headers. */
  lemma CorsOnlyConfigured(origin: string)
    ensures HandleCors(origin) != map[] <==> origin == "https://app.example.com"
  {
    assert "*" != "https://app.example.com";
    if origin == "https://app.example.com" {
      assert "Access-Control-Allow-Origin" in HandleCors(origin);
    }
  }

  /** estimate_compressed_size: len(data) * max(0.1, unique/256), cut to
      an integer, computed on exact rationals. */
  function EstimateCompressedSize(data: string): (r: int)
    ensures r >= 0
    ensures |(set c | c in data)| <= 25 ==> r == (|data| as real / 10.0).Floor
  {
    var unique := |(set c | c in data)|;
    var ratio := if unique as real / 256.0 > 0.1 then unique as real / 256.0 else 0.1;
    (|data| as real * ratio).Floor
  }

  datatype Compression =
    | Uncompressed(data: string, size: nat)
    | Compressed(originalSize: nat, compressedSize: int)

  /** compress_response: data shorter than min_size comes back as it is. */
  function CompressResponse(data: string, minSize: int): (r: Compression)
    ensures |data| < minSize <==> r.Uncompressed?
    ensures r.Uncompressed? ==> r.data == data && r.size == |data|
    ensures r.Compressed? ==> r.originalSize == |data|
  {
    if |data| < minSize then Uncompressed(data, |data|)
    else Compressed(|data|, EstimateCompressedSize(data))
  }
}
