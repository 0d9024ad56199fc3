/// Lease arithmetic of a claimed run: how long the host sleeps and how long it
/// lets one remote call take, given the local deadline of the claim's lease.
///
/// Durations and instants are nanoseconds, so that halving and taking a tenth
/// truncate exactly as they do on the source's durations.
module LeaseTiming {
  import opened Wrappers

  const MS: nat := 1_000_000
  const SEC: nat := 1_000 * MS

  /// A lease with this much left or less is treated as lost.
  const NO_SAFE_TIME: nat := 20 * MS

  function Min(a: nat, b: nat): nat { if a <= b then a else b }

  function Clamp(x: nat, low: nat, high: nat): nat
    requires low <= high
  {
    if x < low then low else if x > high then high else x
  }

  /// Saturating difference: zero once the deadline has passed.
  function Remaining(validUntil: nat, now: nat): nat
  {
    if now < validUntil then validUntil - now else 0
  }

  function NextHeartbeat(validUntil: nat, now: nat, interval: nat): nat
  {
    Min(interval, Remaining(validUntil, now) / 2)
  }

  /// None stands for the "no safe time remaining" fence loss.
  function ClaimCallWindow(validUntil: nat, now: nat, maximum: nat): Option<nat>
  {
    var remaining := Remaining(validUntil, now);
    if remaining <= NO_SAFE_TIME then None
    else Some(Min(maximum, remaining - Clamp(remaining / 10, 10 * MS, 250 * MS)))
  }

  function RetryInterval(pollInterval: nat): nat
  {
    Clamp(pollInterval, 100 * MS, 250 * MS)
  }

  function FencedRetrySleep(validUntil: nat, now: nat, retryInterval: nat, heartbeatInterval: nat): nat
  {
    Min(Min(retryInterval, heartbeatInterval / 2), Remaining(validUntil, now) / 2)
  }

  /// How long a run may keep cleaning up after its fence was lost.
  function FenceLossGrace(heartbeatInterval: nat): nat
  {
    Clamp(heartbeatInterval, 50 * MS, 5 * SEC)
  }

  /// The local deadline of a lease granted with `granted` left on the plane's
  /// clock, in answer to a call that started at `started` and asked for `ttl`.
  /// None is the adapter's fence loss for an expired grant.
  function GrantedValidUntil(started: nat, ttl: nat, granted: nat): Option<nat>
  {
    if granted == 0 then None else Some(started + Min(granted, ttl))
  }

  /// A call allowed by the window starts with more than 20 ms left and, however
  /// late it ends inside the window, ends at least 10 ms before the deadline. When
  /// the cap does not bind, the margin is a tenth of what is left, but from 10 ms
  /// to a quarter second; the cap binds only where that margin is left as well.
  lemma WindowKeepsMargin(validUntil: nat, now: nat, maximum: nat)
    ensures ClaimCallWindow(validUntil, now, maximum).Some? <==> now + NO_SAFE_TIME < validUntil
    ensures forall w | ClaimCallWindow(validUntil, now, maximum) == Some(w) ::
              && w <= maximum
              && now + w + 10 * MS <= validUntil
              && (w < maximum ==>
                    var left, margin := validUntil - now, validUntil - now - w;
                    if left <= 100 * MS then margin == 10 * MS
                    else if left >= 2500 * MS then margin == 250 * MS
                    else left - 9 <= 10 * margin <= left)
              && (w == maximum ==> 10 * w <= 9 * (validUntil - now) + 9 || now + w + 250 * MS <= validUntil)
              && (maximum > 0 ==> w > 0)
  {
    var r := Remaining(validUntil, now);
    if r > NO_SAFE_TIME {
      assert r / 10 <= r - 10 * MS;
    }
  }

  /// The next heartbeat comes after the interval when two of them are left, and
  /// after half of what is left otherwise. Sleeping until then leaves a call window
  /// exactly when more than 20 ms are left then. A lease with more than 40 ms left
  /// therefore always leaves one; with an interval of 20 ms or more the 40 ms are
  /// also needed.
  lemma HeartbeatIsReachedInTime(validUntil: nat, now: nat, interval: nat, maximum: nat)
    ensures var sleep := NextHeartbeat(validUntil, now, interval);
            && (now + 2 * interval <= validUntil ==> sleep == interval)
            && (now <= validUntil < now + 2 * interval ==> validUntil - now - 1 <= 2 * sleep <= validUntil - now)
    ensures var wake := now + NextHeartbeat(validUntil, now, interval);
            && (now + 2 * NO_SAFE_TIME < validUntil ==> ClaimCallWindow(validUntil, wake, maximum).Some?)
            && (interval >= NO_SAFE_TIME ==>
                  (ClaimCallWindow(validUntil, wake, maximum).Some? <==> now + 2 * NO_SAFE_TIME < validUntil))
            && (now < validUntil ==> wake < validUntil)
            && (now >= validUntil ==> wake == now)
  {
    var r := Remaining(validUntil, now);
    assert r == 2 * (r / 2) + r % 2;
  }

  /// A retry sleep takes the poll interval, but from 100 to 250 ms, and at most half
  /// the heartbeat interval and half the remaining lease. So it never oversleeps a
  /// live lease, and it is positive while two ticks are left.
  lemma RetrySleepStaysInsideLease(validUntil: nat, now: nat, pollInterval: nat, heartbeatInterval: nat)
    ensures var sleep := FencedRetrySleep(validUntil, now, RetryInterval(pollInterval), heartbeatInterval);
            && 2 * sleep <= Remaining(validUntil, now)
            && 2 * sleep <= heartbeatInterval
            && (2 * sleep + 1 < heartbeatInterval && 2 * sleep + 1 < Remaining(validUntil, now) ==>
                  if pollInterval < 100 * MS then sleep == 100 * MS
                  else if pollInterval > 250 * MS then sleep == 250 * MS else sleep == pollInterval)
            && sleep <= 250 * MS
            && (now < validUntil ==> now + sleep < validUntil)
            && (now + 2 <= validUntil && heartbeatInterval >= 2 ==> sleep > 0)
  {
  }

  /// When the call that brought a grant ended inside its window, the adopted
  /// lease is live on arrival exactly when the grant outlasts the call itself.
  /// A shorter grant is adopted although it is already dead.
  lemma GrantLiveOnArrival(started: nat, ttl: nat, granted: nat, validUntil: nat, maximum: nat, latency: nat)
    requires maximum < ttl
    requires ClaimCallWindow(validUntil, started, maximum).Some?
    requires latency <= ClaimCallWindow(validUntil, started, maximum).value
    requires granted > 0
    ensures GrantedValidUntil(started, ttl, granted).Some?
    ensures GrantedValidUntil(started, ttl, granted).value <= started + ttl
    ensures granted <= ttl ==> GrantedValidUntil(started, ttl, granted).value == started + granted
    ensures granted >= ttl ==> GrantedValidUntil(started, ttl, granted).value == started + ttl
    ensures started + latency < GrantedValidUntil(started, ttl, granted).value <==> latency < granted
  {
  }
}
