/** The remaining cooldown of the admin reload command
    (`check_cooldown` in src/discord/reload_command.rs). The time of the last
    event, looked up in the database, and the current time are parameters;
    both are Unix seconds. */
module Cooldown {
  import opened Wrappers

  const SecondsPerMinute: int := 60

  /** Seconds still to wait, or None when the command may run. */
  function CheckCooldown(lastEventTime: Option<int>, now: int, cooldownMinutes: nat): (remaining: Option<int>)
    ensures lastEventTime.None? ==> remaining.None?
    ensures remaining.Some? ==> remaining.value > 0
    ensures remaining.Some? <==>
      lastEventTime.Some? && now - lastEventTime.value < cooldownMinutes * SecondsPerMinute
    ensures remaining.Some? ==> now + remaining.value == lastEventTime.value + cooldownMinutes * SecondsPerMinute
    ensures remaining.Some? && lastEventTime.value <= now ==> remaining.value <= cooldownMinutes * SecondsPerMinute
  {
    match lastEventTime
    case None => None
    case Some(eventTime) =>
      var elapsed := now - eventTime;
      var cooldownSeconds := cooldownMinutes * SecondsPerMinute;
      if elapsed < cooldownSeconds then Some(cooldownSeconds - elapsed) else None
  }

  /** The remaining time is exactly the wait: at every earlier second the
      command is still cooling down, by the time left then, and once it has
      passed the command may run. */
  lemma {:induction false} RemainingIsTheWait(lastEventTime: Option<int>, now: int, cooldownMinutes: nat)
    requires CheckCooldown(lastEventTime, now, cooldownMinutes).Some?
    ensures var rem := CheckCooldown(lastEventTime, now, cooldownMinutes).value;
      && CheckCooldown(lastEventTime, now + rem, cooldownMinutes).None?
      && forall t :: now <= t < now + rem ==>
           CheckCooldown(lastEventTime, t, cooldownMinutes) == Some(rem - (t - now))
  {
    var rem := CheckCooldown(lastEventTime, now, cooldownMinutes).value;
    forall t | now <= t < now + rem
      ensures CheckCooldown(lastEventTime, t, cooldownMinutes) == Some(rem - (t - now))
    {
      var later := CheckCooldown(lastEventTime, t, cooldownMinutes);
      assert later.Some?;
    }
  }

  /** Once free, the command stays free as time goes on. */
  lemma StaysFree(lastEventTime: Option<int>, now: int, later: int, cooldownMinutes: nat)
    requires now <= later
    requires CheckCooldown(lastEventTime, now, cooldownMinutes).None?
    ensures CheckCooldown(lastEventTime, later, cooldownMinutes).None?
  {
    var _ := CheckCooldown(lastEventTime, later, cooldownMinutes);
  }
}
