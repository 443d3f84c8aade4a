/**
 * What of an error's details and message a caller may see (src/core/errors/detail-policy.ts).
 *
 * `size` is the length of `JSON.stringify`, none where it throws. Details are JSON values with
 * distinct keys; assigning to `__proto__` of an object literal adds no field, so that key never
 * survives.
 */
module DetailPolicy {
  import opened Prelude
  import opened JsonValues
  import opened DetailScrub

  datatype Category =
    | Authentication | Authorization | Validation | NotFound | Conflict | BusinessRule | RateLimit
    | ExternalService | Internal

  const MAX_DETAILS_BYTES: nat := 8192

  const AUTHORIZATION_KEYS := {"required", "requiredany", "mode", "resource", "action", "hint"}

  const RATE_LIMIT_KEYS := {"retryafterseconds", "limit", "windowseconds", "platformcode"}

  const INTERNAL_KEYS := {
    "cause", "causemessage", "stack", "originalerror", "originalcode", "originalmessage", "upstream",
    "upstreamerror", "upstreambody", "response", "responsebody", "rawresponse", "raw", "problems",
    "problemcount", "sql", "query", "command", "dsn", "connectionstring", "env", "config", "hostname"}

  /**
   * The last dotted part of each redacted log path, lower case, a leading `["` and a trailing `"]`
   * removed (src/modules/audit/domain/audit-state.ts:33-50, src/core/logging/logger.ts:18-40). A
   * bracketed header keeps its `headers["`, which is not leading.
   */
  const SENSITIVE_NAMES := {
    "authorization", "cookie", "headers[\"x-service-token", "headers[\"x-automation-token",
    "headers[\"set-cookie", "password", "passwordhash", "password_hash", "token", "accesstoken",
    "refreshtoken", "secret", "servicetoken", "totpsecret", "mfasecret", "apikey",
    "onetimepassword", "currentpassword", "newpassword", "pan", "cvv"}

  // ── Keys ──────────────────────────────────────────────────────────────────

  predicate IsPlain(c: char) { 'a' <= c <= 'z' || '0' <= c <= '9' }

  /** What is left of one character after `toLowerCase` and the removal of all but letters and digits. */
  function NormaliseChar(c: char): string {
    if 'A' <= c <= 'Z' then [c - 'A' + 'a']
    else if c == '\U{212A}' then "k"
    else if c == '\U{130}' then "i"
    else if IsPlain(c) then [c]
    else []
  }

  function NormaliseKey(key: string): string {
    if key == [] then [] else NormaliseChar(key[0]) + NormaliseKey(key[1..])
  }

  predicate IsDroppedKey(key: string) {
    NormaliseKey(key) in INTERNAL_KEYS || NormaliseKey(key) in SENSITIVE_NAMES
  }

  predicate Survives(key: string) { !IsDroppedKey(key) && key != "__proto__" }

  // ── The projection ────────────────────────────────────────────────────────

  predicate ForAuthorization(key: string) { NormaliseKey(key) in AUTHORIZATION_KEYS }

  predicate ForRateLimit(key: string) { NormaliseKey(key) in RATE_LIMIT_KEYS }

  predicate Masked(c: Category) { c == Internal || c == ExternalService }

  function StringField(fields: seq<Field>, k: string): seq<Field> {
    match Lookup(fields, k)
    case Some(String(s)) => [Field(k, String(s))]
    case _ => []
  }

  function NumberField(fields: seq<Field>, k: string): seq<Field> {
    match Lookup(fields, k)
    case Some(Number(n)) => [Field(k, Number(n))]
    case _ => []
  }

  function Upstream(fields: seq<Field>): seq<Field> {
    StringField(fields, "platformCode") + NumberField(fields, "platformStatus")
    + StringField(fields, "upstreamCode") + NumberField(fields, "upstreamStatus")
  }

  /** Never `{}`: an empty projection is no details at all. */
  function Projected(c: Category, fields: seq<Field>): seq<Field> {
    if Masked(c) then Upstream(fields)
    else if c == Authorization then Pick(fields, ForAuthorization, Survives)
    else if c == RateLimit then Pick(fields, ForRateLimit, Survives)
    else Scrub(Object(fields), 0, Survives).fields
  }

  /** Stands for a projection that cannot be serialised, or is too long. */
  function Marker(size: Option<nat>): Json {
    match size
    case None => Object([Field("truncated", Bool(true))])
    case Some(bytes) => Object([Field("truncated", Bool(true)), Field("bytes", Number(bytes as real))])
  }

  predicate Fits(o: Json, size: Json -> Option<nat>) { size(o).Some? && size(o).value <= MAX_DETAILS_BYTES }

  function Project(c: Category, details: Option<seq<Field>>, size: Json -> Option<nat>): Option<Json> {
    if details.None? || Projected(c, details.value) == [] then None
    else
      var o := Object(Projected(c, details.value));
      if Masked(c) || Fits(o, size) then Some(o) else Some(Marker(size(o)))
  }

  method ProjectDetails(c: Category, details: Option<seq<Field>>, size: Json -> Option<nat>) returns (r: Option<Json>)
    ensures r == Project(c, details, size)
  {
    if details.None? {
      return None;
    }
    var fields := details.value;
    if c == Internal || c == ExternalService {
      var kept := StringField(fields, "platformCode") + NumberField(fields, "platformStatus")
                  + StringField(fields, "upstreamCode") + NumberField(fields, "upstreamStatus");
      return if |kept| > 0 then Some(Object(kept)) else None;
    }
    var projected: Json;
    if c == Authorization {
      var picked := PickKeys(fields, ForAuthorization, Survives);
      projected := Object(picked);
    } else if c == RateLimit {
      var picked := PickKeys(fields, ForRateLimit, Survives);
      projected := Object(picked);
    } else {
      projected := ScrubValue(Object(fields), 0, Survives);
    }
    if |projected.fields| == 0 {
      return None;
    }
    var serialised := size(projected);
    if serialised.None? {
      return Some(Object([Field("truncated", Bool(true))]));
    }
    if serialised.value > MAX_DETAILS_BYTES {
      return Some(Object([Field("truncated", Bool(true)), Field("bytes", Number(serialised.value as real))]));
    }
    return Some(projected);
  }

  function ProjectMessage(c: Category, thrown: string, registryDefault: Option<string>): string {
    if Masked(c) then if registryDefault.Some? then registryDefault.value else "Something went wrong" else thrown
  }
}
