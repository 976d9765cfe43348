/** The pure alerting state machine (internal/alerting/alerting.go). */
module Engine {
  import opened Domain

  datatype Action = NoAction | OpenIncident | CloseIncident

  datatype EventKind = Down | Recovery

  datatype Notify = Notify(kind: EventKind, warnDays: Option<int>)

  datatype Decision = Decision(
    action: Action,
    newConsecutive: int,
    newFirstFailAt: Option<Time>,
    startedAt: Time,
    cause: string,
    endedAt: Time,
    renotify: bool,
    newSslWarnedDays: Option<int>,
    notify: Option<Notify>)

  /** The days before expiry at which an ssl monitor warns, widest first. */
  const SSL_WARN_THRESHOLDS: seq<int> := [7, 3, 1]

  /** The warning level of a certificate: 0 once expired, otherwise the smallest
      threshold not below the days left, otherwise -1. */
  function WarnLevel(expiresAt: Time, now: Time): (level: int)
    ensures level in {-1, 0, 1, 3, 7}
  {
    if expiresAt <= now then 0
    else if expiresAt - now <= DAY then 1
    else if expiresAt - now <= 3 * DAY then 3
    else if expiresAt - now <= 7 * DAY then 7
    else -1
  }

  /** The loop that computes the level from the threshold table. */
  method SslWarnLevel(expiresAt: Time, now: Time) returns (level: int)
    ensures level == WarnLevel(expiresAt, now)
  {
    if now >= expiresAt {
      return 0;
    }
    level := -1;
    for i := 0 to |SSL_WARN_THRESHOLDS|
      invariant i == 0 ==> level == -1
      invariant i == 1 ==> level == if expiresAt - now <= 7 * DAY then 7 else -1
      invariant i == 2 ==>
        level == if expiresAt - now <= 3 * DAY then 3 else if expiresAt - now <= 7 * DAY then 7 else -1
      invariant i == 3 ==> level == WarnLevel(expiresAt, now)
    {
      if expiresAt - now <= SSL_WARN_THRESHOLDS[i] * DAY {
        level := SSL_WARN_THRESHOLDS[i];
      }
    }
  }

  function SslLevel(res: CheckResult): (level: int)
    ensures level in {-1, 0, 1, 3, 7}
  {
    if res.certExpiresAt.None? then -1 else WarnLevel(res.certExpiresAt.value, res.checkedAt)
  }

  /** The level in words: none without a certificate, 0 from expiry on, otherwise 1, 3 or 7 for at
      most so many days left, and none beyond a week. */
  lemma SslLevelMeans(res: CheckResult)
    ensures res.certExpiresAt.None? ==> SslLevel(res) == -1
    ensures res.certExpiresAt.Some? ==>
      var left, level := res.certExpiresAt.value - res.checkedAt, SslLevel(res);
      && (level == 0 <==> left <= 0) && (level == 1 <==> 0 < left <= 86_400_000_000_000)
      && (level == 3 <==> 86_400_000_000_000 < left <= 259_200_000_000_000)
      && (level == 7 <==> 259_200_000_000_000 < left <= 604_800_000_000_000)
      && (level == -1 <==> 604_800_000_000_000 < left)
  {}

  const NO_DECISION := Decision(NoAction, 0, None, 0, "", 0, false, None, None)

  function Apply(m: Monitor, res: CheckResult, state: AlertState): Decision {
    if res.healthy then ApplyHealthy(res, state) else ApplyUnhealthy(m, res, state)
  }

  function ApplyHealthy(res: CheckResult, state: AlertState): Decision {
    if state.openIncident.None? then NO_DECISION
    else NO_DECISION.(
      action := CloseIncident,
      endedAt := res.checkedAt,
      notify := Some(Notify(Recovery, None)))
  }

  function ApplyUnhealthy(m: Monitor, res: CheckResult, state: AlertState): Decision {
    var newConsecutive := state.consecutiveFails + 1;
    var firstFailAt := if state.consecutiveFails == 0 then Some(res.checkedAt) else state.firstFailAt;
    var level := SslLevel(res);
    var d := NO_DECISION.(
      newConsecutive := newConsecutive,
      newFirstFailAt := firstFailAt,
      newSslWarnedDays := if m.typ == Ssl then state.sslWarnedDays else None);
    if state.openIncident.Some? then
      if m.typ == Ssl && (state.sslWarnedDays.None? || level < state.sslWarnedDays.value) then
        d.(newSslWarnedDays := Some(level), renotify := true, notify := Some(Notify(Down, Some(level))))
      else d
    else if newConsecutive < m.failureThreshold then d
    else
      // The second alternative is the engine's fallback; FirstFailKnown shows it is never taken.
      var startedAt := if firstFailAt.Some? then firstFailAt.value else res.checkedAt;
      var cause := if res.failureReason.Some? then res.failureReason.value else "";
      var alarm := d.(action := OpenIncident, startedAt := startedAt, cause := cause);
      if m.typ == Ssl then
        alarm.(newSslWarnedDays := Some(level), notify := Some(Notify(Down, Some(level))))
      else
        alarm.(notify := Some(Notify(Down, None)))
  }
}
