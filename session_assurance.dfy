/** `SessionAssurance`: is a session still inside its idle (sliding) window
    and its absolute window at time `now`? Pure; the clock is a parameter. */
module SessionAssurance {
  import opened Types

  /** `_in_time_window`: strictly inside `(start, stop)`; a window whose stop
      lies before its start admits nothing, and either boundary counts as
      outside. */
  function InTimeWindow(start: Time, stop: Time, t: Time): (r: bool)
    ensures r <==> start < t < stop
    ensures stop < start ==> !r
    ensures t == start || t == stop ==> !r
  {
    if stop < start then false
    else if t > start && t < stop then true
    else false
  }

  /** The idle window opened by the last successful validation. */
  predicate IdleFresh(s: Session, idle: int, now: Time)
  {
    InTimeWindow(s.lastSeen, s.lastSeen + idle, now)
  }

  /** The absolute window opened when the session started. */
  predicate AbsoluteFresh(s: Session, absolute: int, now: Time)
  {
    InTimeWindow(s.started, s.started + absolute, now)
  }

  /** `check_time`: fails when neither timeout is set (a zero timeout is
      falsy, so it counts as unset); otherwise the session is valid exactly
      when `now` lies strictly inside every configured window. */
  function CheckTime(s: Session, idle: int, absolute: int, now: Time): (r: Result<bool>)
    ensures r.Err? <==> idle == 0 && absolute == 0
    ensures r.Err? ==> r.error == NoTimeoutConfigured
    ensures r.Ok? ==> (r.value <==>
                         && (idle != 0 ==> s.lastSeen < now < s.lastSeen + idle)
                         && (absolute != 0 ==> s.started < now < s.started + absolute))
  {
    if idle == 0 && absolute == 0 then Err(NoTimeoutConfigured)
    else if idle != 0 && !IdleFresh(s, idle, now) then Ok(false)
    else if absolute != 0 && !AbsoluteFresh(s, absolute, now) then Ok(false)
    else Ok(true)
  }

  /** Either window alone expires the session, whatever the other says. */
  lemma EitherWindowExpires(s: Session, idle: int, absolute: int, now: Time)
    requires (idle != 0 && now >= s.lastSeen + idle) || (absolute != 0 && now >= s.started + absolute)
    ensures CheckTime(s, idle, absolute, now) == Ok(false)
  {
  }

  /** A session that passes the check is refreshed to `now`, and the refreshed
      session still has `started <= lastSeen`, with `lastSeen` advanced when
      the idle window is configured. */
  lemma RefreshKeepsOrder(s: Session, idle: int, absolute: int, now: Time)
    requires s.started <= s.lastSeen
    requires CheckTime(s, idle, absolute, now) == Ok(true)
    ensures s.started < now
    ensures idle != 0 ==> s.lastSeen < now
  {
  }
}
