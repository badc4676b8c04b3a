/** The debounce bounds a host enforces (internal/hostsettings/settings.go), in nanoseconds. */
module HostSettings {

  const MILLISECOND := 1_000_000
  const MIN_DEBOUNCE := 200 * MILLISECOND
  const MAX_DEBOUNCE := 60_000 * MILLISECOND
  const MIN_SETTLE_CEILING := 1_000 * MILLISECOND
  const MAX_SETTLE_CEILING := 600_000 * MILLISECOND

  const TWO_63 := 0x8000_0000_0000_0000
  const TWO_64 := 0x1_0000_0000_0000_0000

  /** time.Duration is an int64, and a product past it wraps. */
  function Wrap(x: int): int { (x + TWO_63) % TWO_64 - TWO_63 }

  function Clamp(value: int, low: int, high: int): int {
    if value < low then low else if value > high then high else value
  }

  datatype Watch = Watch(debounceMS: int, maxDebounceMS: int)

  function Debounce(w: Watch): int {
    Clamp(Wrap(w.debounceMS * MILLISECOND), MIN_DEBOUNCE, MAX_DEBOUNCE)
  }

  function SettleCeiling(w: Watch): int {
    var ceiling := Clamp(Wrap(w.maxDebounceMS * MILLISECOND), MIN_SETTLE_CEILING, MAX_SETTLE_CEILING);
    if ceiling < Debounce(w) then Debounce(w) else ceiling
  }

  function WithProjectDebounce(w: Watch, milliseconds: int): Watch {
    if milliseconds <= 0 then w
    else w.(debounceMS := Clamp(Wrap(milliseconds * MILLISECOND), MIN_DEBOUNCE, MAX_DEBOUNCE) / MILLISECOND)
  }

  /** Whatever a settings file or a project proposes, even a value that overflows, the bounds hold. */
  lemma BoundsAlwaysHold(w: Watch, milliseconds: int)
    ensures var p := WithProjectDebounce(w, milliseconds);
            && MIN_DEBOUNCE <= Debounce(p) <= MAX_DEBOUNCE
            && Debounce(p) <= SettleCeiling(p) <= MAX_SETTLE_CEILING
            && MIN_SETTLE_CEILING <= SettleCeiling(p)
  {
  }

  /** A proposal that fits a duration is honoured up to the bounds, and proposing it again changes nothing. */
  lemma ProposalIsClamped(w: Watch, milliseconds: int)
    requires 0 < milliseconds && milliseconds * MILLISECOND < TWO_63
    ensures var p := WithProjectDebounce(w, milliseconds);
            && Debounce(p) == Clamp(milliseconds * MILLISECOND, MIN_DEBOUNCE, MAX_DEBOUNCE)
            && WithProjectDebounce(p, p.debounceMS) == p
  {
  }

  /**
   Exactly when a proposal is honoured. One that overflows a duration wraps, and is then
   honoured only if what it wraps to is still past the upper bound; otherwise a project
   asking for a very long window gets a shorter one, down to the lower bound.
   */
  lemma ProposalHonouredExactly(w: Watch, milliseconds: int)
    requires 0 < milliseconds
    ensures Debounce(WithProjectDebounce(w, milliseconds)) == Clamp(milliseconds * MILLISECOND, MIN_DEBOUNCE, MAX_DEBOUNCE)
       <==> milliseconds * MILLISECOND < TWO_63 || Wrap(milliseconds * MILLISECOND) >= MAX_DEBOUNCE
  {
  }

  /** A setting in milliseconds that a duration can hold. */
  predicate Fits(milliseconds: int) { -TWO_63 <= milliseconds * MILLISECOND < TWO_63 }

  /**
   The ceiling is what it is set to: below a second it is a second, above ten minutes ten
   minutes, and it is never below the window.
   */
  lemma CeilingFollowsItsSetting(w: Watch)
    requires Fits(w.maxDebounceMS)
    ensures w.maxDebounceMS <= 1_000 ==> SettleCeiling(w) == if Debounce(w) > 1_000 * MILLISECOND then Debounce(w) else 1_000 * MILLISECOND
    ensures w.maxDebounceMS >= 600_000 ==> SettleCeiling(w) == 600_000 * MILLISECOND
    ensures 1_000 <= w.maxDebounceMS <= 600_000 ==>
              SettleCeiling(w) == if Debounce(w) > w.maxDebounceMS * MILLISECOND then Debounce(w) else w.maxDebounceMS * MILLISECOND
  {
  }

  /** The window is what it is set to, between 200 milliseconds and a minute. */
  lemma WindowFollowsItsSetting(w: Watch)
    requires Fits(w.debounceMS)
    ensures w.debounceMS <= 200 ==> Debounce(w) == 200 * MILLISECOND
    ensures w.debounceMS >= 60_000 ==> Debounce(w) == 60_000 * MILLISECOND
    ensures 200 <= w.debounceMS <= 60_000 ==> Debounce(w) == w.debounceMS * MILLISECOND
  {
  }

  /** No proposal, or one that is not positive, leaves the window alone; none touches the ceiling's setting. */
  lemma NoProposalChangesNothing(w: Watch, milliseconds: int)
    ensures milliseconds <= 0 ==> WithProjectDebounce(w, milliseconds) == w
    ensures WithProjectDebounce(w, milliseconds).maxDebounceMS == w.maxDebounceMS
  {
  }

  /** The smallest overflowing proposal asks for 292 years and gets 200 milliseconds. */
  lemma OverflowFallsToTheFloor(w: Watch)
    ensures Debounce(WithProjectDebounce(w, 9_223_372_036_855)) == MIN_DEBOUNCE
  {
  }
}
