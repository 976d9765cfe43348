/** Turning a request into a monitor (internal/api/monitors.go): every rule is checked, every
    violation is named, and what is accepted is safe for the scheduler and the alerting engine. */
module MonitorInput {
  import opened Domain
  import opened Text
  import DedupKey

  const MAX_HEADERS: int := 50
  const MAX_NAME: int := 200
  const MAX_BODY_CONTAINS: int := 1000
  const MAX_BODY: int := 0x10_0000
  const HARD_INTERVAL_FLOOR: int := 30
  const SSL_INTERVAL: int := 86400
  const SSL_TIMEOUT: int := 10
  const DEFAULT_REGION: string := "eu-central"

  datatype Limits = Limits(minInterval: int, regionsAllowed: set<string>, regionsCap: int)

  datatype HeaderInput = HeaderInput(key: string, value: Option<string>, secret: bool)

  datatype Header = Header(key: string, value: string, secret: bool)

  /** The request. Whether its url parses and its channel ids are numbers is decided by code
      outside this model. */
  datatype Input = Input(
    typ: string,
    name: string,
    urlOk: bool,
    sslTargetOk: bool,
    httpMethod: string,
    body: string,
    expectedStatus: string,
    timeout: int,
    interval: int,
    maxLatency: Option<int>,
    bodyContains: Option<string>,
    failureThreshold: int,
    headers: seq<HeaderInput>,
    downPolicy: string,
    regions: seq<string>,
    channelsOk: bool)

  /** The monitor that comes out. */
  datatype Built = Built(
    typ: string,
    name: string,
    httpMethod: string,
    headers: seq<Header>,
    body: string,
    expectedStatus: string,
    timeout: int,
    interval: int,
    maxLatency: Option<int>,
    bodyContains: Option<string>,
    failureThreshold: int,
    regions: seq<string>,
    downPolicy: string)

  function IntervalFloor(l: Limits): int {
    if l.minInterval > HARD_INTERVAL_FLOOR then l.minInterval else HARD_INTERVAL_FLOOR
  }

  // ---------- status codes ----------

  /** Decimal with an optional sign; anything else is no number. */
  function Atoi(s: string): Option<int> {
    var digits := if |s| > 0 && (s[0] == '+' || s[0] == '-') then s[1..] else s;
    if |digits| == 0 || !AllDigits(digits) then None
    else Some(if s[0] == '-' then -Number(digits) else Number(digits))
  }

  predicate AllDigits(s: string) {
    forall i :: 0 <= i < |s| ==> IsDigit(s[i])
  }

  /** A class like 2xx or a code from 100 to 599. */
  predicate StatusToken(tok: string) {
    || Lower(tok) in {"1xx", "2xx", "3xx", "4xx", "5xx"}
    || (Atoi(tok).Some? && 100 <= Atoi(tok).value <= 599)
  }

  /** What is printed as a number is read as that number. */
  lemma AtoiReadsItoa(n: int)
    ensures Atoi(DedupKey.Itoa(n)) == Some(n)
  {
    hide DedupKey.Digits, Number;
    var k := if n < 0 then -n else n;
    DedupKey.NumberOfDigits(k);
    AtoiDigits(DedupKey.Digits(k));
    assert n < 0 ==> DedupKey.Itoa(n) == "-" + DedupKey.Digits(k);
  }

  lemma AtoiDigits(digits: string)
    requires |digits| > 0 && AllDigits(digits)
    ensures Atoi(digits) == Some(Number(digits)) && Atoi("-" + digits) == Some(-Number(digits))
  {
    hide Number;
    assert IsDigit(digits[0]) && ("-" + digits)[1..] == digits;
  }

  /** Only digits after at most one sign are a number. */
  lemma AtoiNeedsDigits(s: string)
    ensures Atoi(s).Some? ==> |s| > 0 && IsDigit(s[|s| - 1]) && forall i :: 1 <= i < |s| ==> IsDigit(s[i])
    ensures Atoi(s).Some? && !IsDigit(s[0]) ==> s[0] == '+' || s[0] == '-'
  {
    hide Number;
    var digits := if |s| > 0 && (s[0] == '+' || s[0] == '-') then s[1..] else s;
    if Atoi(s).Some? {
      assert IsDigit(digits[|digits| - 1]) && digits[|digits| - 1] == s[|s| - 1];
      forall i | 1 <= i < |s| ensures IsDigit(s[i]) {
        assert s[i] == digits[i - (|s| - |digits|)];
      }
    }
  }

  /** Some token is there and every token that is there is well formed. */
  ghost predicate StatusListOk(parts: seq<string>) {
    && (exists i :: 0 <= i < |parts| && Trim(parts[i]) != "")
    && forall i :: 0 <= i < |parts| && Trim(parts[i]) != "" ==> StatusToken(Trim(parts[i]))
  }

  method ValidExpectedStatusCodes(raw: string) returns (ok: bool)
    ensures ok <==> StatusListOk(Split(raw, ','))
  {
    var parts := Split(raw, ',');
    var seen := false;
    for i := 0 to |parts|
      invariant seen <==> exists k :: 0 <= k < i && Trim(parts[k]) != ""
      invariant forall k :: 0 <= k < i && Trim(parts[k]) != "" ==> StatusToken(Trim(parts[k]))
    {
      var tok := Trim(parts[i]);
      if tok == "" {
        continue;
      }
      seen := true;
      if Lower(tok) in {"2xx", "3xx", "4xx", "5xx", "1xx"} {
        continue;
      }
      var n := Atoi(tok);
      if n.None? || n.value < 100 || n.value > 599 {
        return false;
      }
    }
    ok := seen;
  }

  // ---------- headers and regions ----------

  ghost predicate HeadersOk(hs: seq<HeaderInput>) {
    && |hs| <= 50
    && (forall i :: 0 <= i < |hs| ==> Trim(hs[i].key) != "")
    && forall i, j :: 0 <= i < j < |hs| ==> Lower(Trim(hs[i].key)) != Lower(Trim(hs[j].key))
  }

  function CleanHeader(h: HeaderInput): Header {
    Header(Trim(h.key), if h.value.Some? then h.value.value else "", h.secret)
  }

  /** Accepts exactly the lists with named, case-insensitively distinct keys, and keeps their
      order and values. */
  method ValidateHeaders(hs: seq<HeaderInput>) returns (r: Option<seq<Header>>)
    ensures r.Some? <==> HeadersOk(hs)
    ensures r.Some? ==> |r.value| == |hs| && forall i :: 0 <= i < |hs| ==> r.value[i] == CleanHeader(hs[i])
  {
    hide Lower, Trim;
    if |hs| > MAX_HEADERS {
      return None;
    }
    var out: seq<Header>, seen: set<string> := [], {};
    for i := 0 to |hs|
      invariant |out| == i && forall k :: 0 <= k < i ==> out[k] == CleanHeader(hs[k])
      invariant forall k :: 0 <= k < i ==> Trim(hs[k].key) != "" && Lower(Trim(hs[k].key)) in seen
      invariant forall x :: x in seen ==> exists k :: 0 <= k < i && Lower(Trim(hs[k].key)) == x
      invariant forall j, k :: 0 <= j < k < i ==> Lower(Trim(hs[j].key)) != Lower(Trim(hs[k].key))
    {
      var key := Trim(hs[i].key);
      if key == "" {
        return None;
      }
      if Lower(key) in seen {
        return None;
      }
      seen := seen + {Lower(key)};
      var value := "";
      if hs[i].value.Some? {
        value := hs[i].value.value;
      }
      out := out + [Header(key, value, hs[i].secret)];
    }
    r := Some(out);
  }

  ghost predicate RegionsOk(rs: seq<string>, l: Limits) {
    && 0 < |rs| <= l.regionsCap
    && (forall i :: 0 <= i < |rs| ==> Trim(rs[i]) != "" && Trim(rs[i]) in l.regionsAllowed)
    && forall i, j :: 0 <= i < j < |rs| ==> Trim(rs[i]) != Trim(rs[j])
  }

  /** Accepts exactly the non-empty, duplicate-free lists within the plan's set and cap. */
  method ValidateRegions(rs: seq<string>, l: Limits) returns (r: Option<seq<string>>)
    ensures r.Some? <==> RegionsOk(rs, l)
    ensures r.Some? ==> |r.value| == |rs| && forall i :: 0 <= i < |rs| ==> r.value[i] == Trim(rs[i])
  {
    if |rs| == 0 {
      return None;
    }
    var out: seq<string>, seen: set<string> := [], {};
    for i := 0 to |rs|
      invariant |out| == i && forall k :: 0 <= k < i ==> out[k] == Trim(rs[k])
      invariant forall k :: 0 <= k < i ==> Trim(rs[k]) != "" && Trim(rs[k]) in l.regionsAllowed && Trim(rs[k]) in seen
      invariant forall x :: x in seen ==> exists k :: 0 <= k < i && Trim(rs[k]) == x
      invariant forall j, k :: 0 <= j < k < i ==> Trim(rs[j]) != Trim(rs[k])
    {
      var region := Trim(rs[i]);
      if region == "" || region in seen || region !in l.regionsAllowed {
        return None;
      }
      seen := seen + {region};
      out := out + [region];
    }
    if |out| > l.regionsCap {
      return None;
    }
    r := Some(out);
  }

  // ---------- the whole input ----------

  function TypeOf(input: Input): string {
    if input.typ == "" then "http" else input.typ
  }

  function MethodOf(input: Input): string {
    if input.httpMethod == "" then "GET" else input.httpMethod
  }

  predicate NameOk(input: Input) {
    0 < |Trim(input.name)| <= 200
  }

  predicate MethodOk(m: string) {
    m in {"GET", "POST", "PUT", "PATCH", "DELETE", "HEAD"}
  }

  predicate BodyOk(input: Input) {
    input.body == "" || (MethodOf(input) in {"POST", "PUT", "PATCH"} && |input.body| <= 1_048_576)
  }

  /** Something the check can fail on: a status list, a text to find or a latency limit. */
  predicate Asserts(expected: string, bodyContains: Option<string>, maxLatency: Option<int>) {
    || expected != ""
    || (bodyContains.Some? && Trim(bodyContains.value) != "")
    || (maxLatency.Some? && maxLatency.value > 0)
  }

  function PolicyOf(input: Input): string {
    if input.downPolicy == "" then "quorum" else input.downPolicy
  }

  /** The rules for an http monitor, as the product states them. */
  ghost predicate HttpAcceptable(input: Input, l: Limits) {
    && input.urlOk && MethodOk(MethodOf(input)) && BodyOk(input)
    && (Trim(input.expectedStatus) == "" || StatusListOk(Split(Trim(input.expectedStatus), ',')))
    && 1 <= input.timeout <= 60
    && input.interval >= 30 && input.interval >= l.minInterval && input.interval >= input.timeout
    && (input.maxLatency.Some? ==> input.maxLatency.value > 0)
    && (input.bodyContains.Some? ==> |input.bodyContains.value| <= 1000)
    && Asserts(Trim(input.expectedStatus), input.bodyContains, input.maxLatency)
    && input.failureThreshold >= 1
    && HeadersOk(input.headers) && PolicyOf(input) in {"any", "quorum", "all"} && RegionsOk(input.regions, l)
  }

  ghost predicate Acceptable(input: Input, l: Limits) {
    && NameOk(input) && input.channelsOk
    && if TypeOf(input) == "ssl" then input.sslTargetOk else TypeOf(input) == "http" && HttpAcceptable(input, l)
  }

  /** What the scheduler and the alerting engine may rely on. */
  ghost predicate Sound(m: Built, l: Limits) {
    && m.failureThreshold >= 1
    && (m.typ == "http" || m.typ == "ssl")
    && (m.typ == "http" ==>
          && 1 <= m.timeout <= 60
          && m.interval >= 30 && m.interval >= m.timeout && m.interval >= l.minInterval
          && 0 < |m.regions| <= l.regionsCap
          && (forall i :: 0 <= i < |m.regions| ==> m.regions[i] in l.regionsAllowed)
          && (forall i, j :: 0 <= i < j < |m.regions| ==> m.regions[i] != m.regions[j])
          && |m.headers| <= 50
          && (forall i, j :: 0 <= i < j < |m.headers| ==> Lower(m.headers[i].key) != Lower(m.headers[j].key))
          && Asserts(m.expectedStatus, m.bodyContains, m.maxLatency))
    && (m.typ == "ssl" ==>
          && m.interval == 86_400 && m.timeout == 10 && m.failureThreshold == 1
          && m.regions == ["eu-central"] && m.headers == [] && m.body == ""
          && m.httpMethod == "GET" && m.expectedStatus == "200" && m.downPolicy == "any"
          && m.maxLatency == None && m.bodyContains == None)
  }

  /** Which http fields are at fault, by the name the response reports them under. */
  ghost predicate HttpFault(field: string, input: Input, l: Limits) {
    || (field == "url" && !input.urlOk)
    || (field == "method" && !MethodOk(MethodOf(input)))
    || (field == "body" && !BodyOk(input))
    || (field == "expected_status_codes" && !StatusFieldOk(input))
    || (field == "max_latency_ms" && input.maxLatency.Some? && input.maxLatency.value <= 0)
    || (field == "body_contains" && input.bodyContains.Some? && |input.bodyContains.value| > 1000)
    || (field == "timeout_seconds" && !(1 <= input.timeout <= 60))
    || (field == "interval_seconds" && !IntervalOk(input, l))
    || (field == "failure_threshold" && input.failureThreshold < 1)
    || (field == "headers" && !HeadersOk(input.headers))
    || (field == "down_policy" && PolicyOf(input) !in {"any", "quorum", "all"})
    || (field == "regions" && !RegionsOk(input.regions, l))
  }

  ghost predicate Fault(field: string, input: Input, l: Limits) {
    || (field == "type" && TypeOf(input) != "http" && TypeOf(input) != "ssl")
    || (field == "name" && !NameOk(input))
    || (field == "notification_channel_ids" && !input.channelsOk)
    || (TypeOf(input) == "ssl" && field == "url" && !input.sslTargetOk)
    || (TypeOf(input) != "ssl" && HttpFault(field, input, l))
  }

  /** A status list, if given, is well formed, and something is asserted. */
  ghost predicate StatusFieldOk(input: Input) {
    && (Trim(input.expectedStatus) == "" || StatusListOk(Split(Trim(input.expectedStatus), ',')))
    && Asserts(Trim(input.expectedStatus), input.bodyContains, input.maxLatency)
  }

  /** The interval respects the floors and, when the timeout itself is in range, the timeout. */
  predicate IntervalOk(input: Input, l: Limits) {
    input.interval >= 30 && input.interval >= l.minInterval && (1 <= input.timeout <= 60 ==> input.interval >= input.timeout)
  }

  /** Without a faulty field the input meets the product's rules, and the other way round. */
  lemma {:induction false} AcceptableIffNoFault(input: Input, l: Limits)
    ensures Acceptable(input, l) <==> forall field :: !Fault(field, input, l)
  {
    hide StatusListOk, HeadersOk, RegionsOk, NameOk, MethodOk, BodyOk, Asserts, TypeOf, PolicyOf;
    if Acceptable(input, l) {
      forall field ensures !Fault(field, input, l) {
      }
    } else if TypeOf(input) != "ssl" && !HttpAcceptable(input, l) {
      var field := FaultyHttpField(input, l);
      assert Fault(field, input, l);
    } else {
      assert Fault("type", input, l) || Fault("name", input, l)
          || Fault("notification_channel_ids", input, l) || Fault("url", input, l);
    }
  }

  lemma {:induction false} FaultyHttpField(input: Input, l: Limits) returns (field: string)
    requires !HttpAcceptable(input, l)
    ensures HttpFault(field, input, l)
  {
    hide StatusListOk, HeadersOk, RegionsOk, MethodOk, BodyOk, Asserts, PolicyOf, MethodOf;
    field :=
      if !input.urlOk then "url"
      else if !MethodOk(MethodOf(input)) then "method"
      else if !BodyOk(input) then "body"
      else if !StatusFieldOk(input) then "expected_status_codes"
      else if input.maxLatency.Some? && input.maxLatency.value <= 0 then "max_latency_ms"
      else if input.bodyContains.Some? && |input.bodyContains.value| > 1000 then "body_contains"
      else if !(1 <= input.timeout <= 60) then "timeout_seconds"
      else if !IntervalOk(input, l) then "interval_seconds"
      else if input.failureThreshold < 1 then "failure_threshold"
      else if !HeadersOk(input.headers) then "headers"
      else if PolicyOf(input) !in {"any", "quorum", "all"} then "down_policy"
      else "regions";
  }

  /** Every faulty field is reported and no other, so an input is accepted exactly when it
      meets the rules, and what is accepted becomes a sound monitor. */
  method MonitorFromInput(input: Input, l: Limits) returns (m: Built, errs: set<string>)
    ensures forall field :: field in errs <==> Fault(field, input, l)
    ensures errs == {} <==> Acceptable(input, l)
    ensures errs == {} ==> Sound(m, l)
    ensures errs == {} && m.typ == "http" ==> Carries(m, input)
    ensures errs == {} && m.typ == "ssl" ==> TypeOf(input) == "ssl" && m.name == Trim(input.name)
  {
    errs := {};
    var typ := input.typ;
    if typ == "" {
      typ := "http";
    }
    var name := Trim(input.name);
    if typ != "http" && typ != "ssl" {
      errs := errs + {"type"};
    }
    if name == "" {
      errs := errs + {"name"};
    } else if |name| > MAX_NAME {
      errs := errs + {"name"};
    }
    if !input.channelsOk {
      errs := errs + {"notification_channel_ids"};
    }
    if typ == "ssl" {
      if !input.sslTargetOk {
        errs := errs + {"url"};
      }
      m := Built(typ, name, "GET", [], "", "200", SSL_TIMEOUT, SSL_INTERVAL, None, None, 1,
                 [DEFAULT_REGION], "any");
      AcceptableIffNoFault(input, l);
      return;
    }
    var httpErrs;
    m, httpErrs := HttpFromInput(input, l, typ);
    errs := errs + httpErrs;
    AcceptableIffNoFault(input, l);
    if HttpAcceptable(input, l) && typ == "http" {
      SoundIfAcceptable(m, input, l);
    }
    hide HttpFault, HttpAcceptable, Sound, Carries;
  }

  /** The monitor holds what the input said, with names, header keys and regions trimmed. */
  ghost predicate Carries(m: Built, input: Input) {
    && m.typ == TypeOf(input) && m.name == Trim(input.name) && m.httpMethod == MethodOf(input) && m.body == input.body
    && m.expectedStatus == Trim(input.expectedStatus) && m.timeout == input.timeout && m.interval == input.interval
    && m.maxLatency == input.maxLatency && m.bodyContains == input.bodyContains
    && m.failureThreshold == input.failureThreshold && m.downPolicy == PolicyOf(input)
    && |m.headers| == |input.headers| && (forall i :: 0 <= i < |m.headers| ==> m.headers[i] == CleanHeader(input.headers[i]))
    && |m.regions| == |input.regions| && (forall i :: 0 <= i < |m.regions| ==> m.regions[i] == Trim(input.regions[i]))
  }

  lemma SoundIfAcceptable(m: Built, input: Input, l: Limits)
    requires HttpAcceptable(input, l) && Carries(m, input) && TypeOf(input) == "http"
    ensures Sound(m, l)
  {
    hide StatusListOk, Split, Trim, Lower, Asserts, MethodOk, BodyOk;
  }

  /** The method and the down policy with their defaults. */
  method Defaults(input: Input) returns (httpMethod: string, policy: string)
    ensures httpMethod == MethodOf(input) && policy == PolicyOf(input)
  {
    httpMethod, policy := input.httpMethod, input.downPolicy;
    if httpMethod == "" {
      httpMethod := "GET";
    }
    if policy == "" {
      policy := "quorum";
    }
  }

  method HttpFromInput(input: Input, l: Limits, typ: string) returns (m: Built, errs: set<string>)
    requires typ == TypeOf(input)
    ensures forall field :: field in errs <==> HttpFault(field, input, l)
    ensures HttpAcceptable(input, l) ==> Carries(m, input)
  {
    hide StatusListOk, Split, Trim, Lower, Asserts, MethodOk, BodyOk, StatusFieldOk, IntervalOk, CleanHeader, HeadersOk, RegionsOk, MethodOf, PolicyOf, TypeOf;
    var httpMethod, policy := Defaults(input);
    var requestErrs := RequestErrors(input, httpMethod);
    var assertionErrs := AssertionErrors(input);
    var scheduleErrs := ScheduleErrors(input, l);
    var headers, regions, listErrs := ListErrors(input, policy, l);
    errs := requestErrs + assertionErrs + scheduleErrs + listErrs;
    m := Built(typ, Trim(input.name), httpMethod, headers, input.body,
               Trim(input.expectedStatus), input.timeout, input.interval, input.maxLatency, input.bodyContains,
               input.failureThreshold, regions, policy);
  }

  /** Headers, down policy and regions. */
  method ListErrors(input: Input, policy: string, l: Limits) returns (headers: seq<Header>, regions: seq<string>, errs: set<string>)
    requires policy == PolicyOf(input)
    ensures forall field :: field in errs <==>
      || (field == "headers" && !HeadersOk(input.headers))
      || (field == "down_policy" && PolicyOf(input) !in {"any", "quorum", "all"})
      || (field == "regions" && !RegionsOk(input.regions, l))
    ensures HeadersOk(input.headers) ==>
      |headers| == |input.headers| && forall i :: 0 <= i < |headers| ==> headers[i] == CleanHeader(input.headers[i])
    ensures RegionsOk(input.regions, l) ==>
      |regions| == |input.regions| && forall i :: 0 <= i < |regions| ==> regions[i] == Trim(input.regions[i])
  {
    hide HeadersOk, RegionsOk, CleanHeader, Trim, PolicyOf;
    headers, regions, errs := [], [], {};
    var kept := ValidateHeaders(input.headers);
    if kept.None? {
      errs := errs + {"headers"};
    } else {
      headers := kept.value;
    }
    if policy != "any" && policy != "quorum" && policy != "all" {
      errs := errs + {"down_policy"};
    }
    var chosen := ValidateRegions(input.regions, l);
    if chosen.None? {
      errs := errs + {"regions"};
    } else {
      regions := chosen.value;
    }
  }

  predicate ValidMethod(m: string) {
    m == "GET" || m == "POST" || m == "PUT" || m == "PATCH" || m == "DELETE" || m == "HEAD"
  }

  predicate BodyAllowed(m: string) {
    m == "POST" || m == "PUT" || m == "PATCH"
  }

  /** The request fields. */
  method RequestErrors(input: Input, httpMethod: string) returns (errs: set<string>)
    requires httpMethod == MethodOf(input)
    ensures forall field :: field in errs <==>
      || (field == "url" && !input.urlOk)
      || (field == "method" && !MethodOk(MethodOf(input)))
      || (field == "body" && !BodyOk(input))
  {
    errs := {};
    if !input.urlOk {
      errs := errs + {"url"};
    }
    if !ValidMethod(httpMethod) {
      errs := errs + {"method"};
    }
    if input.body != "" {
      if !BodyAllowed(httpMethod) || |input.body| > MAX_BODY {
        errs := errs + {"body"};
      }
    }
  }

  /** What the check asserts. A missing assertion is reported on the status field unless that
      field already has an error. */
  method AssertionErrors(input: Input) returns (errs: set<string>)
    ensures forall field :: field in errs <==>
      || (field == "expected_status_codes" && !StatusFieldOk(input))
      || (field == "max_latency_ms" && input.maxLatency.Some? && input.maxLatency.value <= 0)
      || (field == "body_contains" && input.bodyContains.Some? && |input.bodyContains.value| > 1000)
  {
    hide Split, StatusListOk, Trim;
    errs := {};
    var expected := Trim(input.expectedStatus);
    if expected != "" {
      var ok := ValidExpectedStatusCodes(expected);
      if !ok {
        errs := errs + {"expected_status_codes"};
      }
    }
    if input.maxLatency.Some? && input.maxLatency.value <= 0 {
      errs := errs + {"max_latency_ms"};
    }
    if input.bodyContains.Some? && |input.bodyContains.value| > MAX_BODY_CONTAINS {
      errs := errs + {"body_contains"};
    }
    var hasBodyContains := input.bodyContains.Some? && Trim(input.bodyContains.value) != "";
    var hasMaxLatency := input.maxLatency.Some? && input.maxLatency.value > 0;
    if expected == "" && !hasBodyContains && !hasMaxLatency && "expected_status_codes" !in errs {
      errs := errs + {"expected_status_codes"};
    }
  }

  /** Timeout, interval and threshold. */
  method ScheduleErrors(input: Input, l: Limits) returns (errs: set<string>)
    ensures forall field :: field in errs <==>
      || (field == "timeout_seconds" && !(1 <= input.timeout <= 60))
      || (field == "interval_seconds" && !IntervalOk(input, l))
      || (field == "failure_threshold" && input.failureThreshold < 1)
  {
    errs := {};
    if input.timeout < 1 || input.timeout > 60 {
      errs := errs + {"timeout_seconds"};
    }
    if input.interval < HARD_INTERVAL_FLOOR {
      errs := errs + {"interval_seconds"};
    } else if 1 <= input.timeout <= 60 && input.interval < input.timeout {
      errs := errs + {"interval_seconds"};
    } else if input.interval < IntervalFloor(l) {
      errs := errs + {"interval_seconds"};
    }
    if input.failureThreshold < 1 {
      errs := errs + {"failure_threshold"};
    }
  }
}
