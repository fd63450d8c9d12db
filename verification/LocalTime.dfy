/** Wall time to instant by a two-step iteration (components/portal/portal-workspace.tsx).

    Instants and wall times are milliseconds; a zone is the offset it shows at each instant. */
module LocalTime {

  type Zone = int -> int

  const MINUTE := 60_000
  const SECOND := 1_000
  const MAX_OFFSET := 14 * 60 * MINUTE

  /** Offsets are whole seconds, at most 14 hours either way. */
  ghost predicate IsZone(zone: Zone) {
    forall t :: zone(t) % SECOND == 0 && -MAX_OFFSET <= zone(t) <= MAX_OFFSET
  }

  function FloorTo(t: int, unit: int): int
    requires unit > 0
  {
    t - t % unit
  }

  lemma FloorsToItsUnit(t: int)
    ensures FloorTo(t, SECOND) <= t < FloorTo(t, SECOND) + SECOND && FloorTo(t, SECOND) % SECOND == 0
    ensures FloorTo(t, MINUTE) <= t < FloorTo(t, MINUTE) + MINUTE && FloorTo(t, MINUTE) % MINUTE == 0
  {
    assert FloorTo(t, SECOND) == SECOND * (t / SECOND) && FloorTo(t, MINUTE) == MINUTE * (t / MINUTE);
  }

  /** The wall time a formatter shows, which drops what is below its smallest field. */
  function Shown(zone: Zone, instant: int, unit: int): int
    requires unit > 0
  {
    FloorTo(instant + zone(instant), unit)
  }

  /** What the form field displays for an instant. */
  function ToLocalDateTime(zone: Zone, instant: int): int {
    Shown(zone, instant, MINUTE)
  }

  function TwoSteps(zone: Zone, desired: int): int {
    desired - zone(desired - zone(desired))
  }

  method LocalDateTimeToInstant(zone: Zone, desired: int) returns (instant: int)
    requires IsZone(zone) && desired % MINUTE == 0
    ensures instant == TwoSteps(zone, desired)
  {
    instant := desired;
    assert desired == SECOND * (60 * (desired / MINUTE));
    for attempt := 0 to 2
      invariant instant % SECOND == 0
      invariant instant == if attempt == 0 then desired
                           else if attempt == 1 then desired - zone(desired) else TwoSteps(zone, desired)
    {
      var represented := Shown(zone, instant, SECOND);
      ShownExactly(zone, instant);
      WholeDifference(desired, zone(instant));
      instant := instant + (desired - represented);
    }
  }

  lemma WholeDifference(a: int, b: int)
    requires a % SECOND == 0 && b % SECOND == 0
    ensures (a - b) % SECOND == 0
  {
    assert a - b == SECOND * (a / SECOND - b / SECOND);
  }

  /** A formatter that drops what is below a second drops nothing of a whole second. */
  lemma ShownExactly(zone: Zone, instant: int)
    requires zone(instant) % SECOND == 0 && instant % SECOND == 0
    ensures Shown(zone, instant, SECOND) == instant + zone(instant)
  {
    assert instant + zone(instant) == SECOND * (instant / SECOND + zone(instant) / SECOND);
  }

  /** At most one change of offset between `from` and `to`, at `change`. */
  ghost predicate ChangesOnce(zone: Zone, from: int, to: int, change: int) {
    forall t, t' :: from <= t <= t' <= to && (t < change <==> t' < change) ==> zone(t) == zone(t')
  }

  /** Some instant shows the wall time. A wall time skipped by a clock change has none. */
  ghost predicate Exists(zone: Zone, desired: int) {
    exists t :: t + zone(t) == desired
  }

  /** With one change nearby the result shows the wall time exactly when any instant does. */
  lemma TwoStepsReachTheWallTime(zone: Zone, desired: int, change: int)
    requires IsZone(zone) && ChangesOnce(zone, desired - MAX_OFFSET, desired + MAX_OFFSET, change)
    ensures var r := TwoSteps(zone, desired); r + zone(r) == desired <==> Exists(zone, desired)
  {
    var first := desired - zone(desired);
    var r := TwoSteps(zone, desired);
    assert -MAX_OFFSET <= zone(desired) <= MAX_OFFSET && -MAX_OFFSET <= zone(first) <= MAX_OFFSET;
    if Exists(zone, desired) {
      var t :| t + zone(t) == desired;
      assert desired - MAX_OFFSET <= t <= desired + MAX_OFFSET;
    }
  }

  /** So the field gives back the wall time that was typed. */
  lemma TypedTimeIsShownAgain(zone: Zone, desired: int, change: int)
    requires desired % MINUTE == 0 && Exists(zone, desired)
    requires IsZone(zone) && ChangesOnce(zone, desired - MAX_OFFSET, desired + MAX_OFFSET, change)
    ensures ToLocalDateTime(zone, TwoSteps(zone, desired)) == desired
  {
    TwoStepsReachTheWallTime(zone, desired, change);
  }
}
