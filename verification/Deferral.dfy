/** The two timers of a worker's event loop (internal/watchsupervisor/worker.go:107-177). */
module Deferral {
  import opened Text
  import HostSettings

  datatype Cause = ByDebounce | ByCeiling

  /** One timer-driven settle, with the first and last arrivals it settles. */
  datatype Settle = Settle(at: nat, cause: Cause, first: nat, last: nat)

  datatype Batch = Batch(first: nat, last: nat)

  /** Discrete time. A due time is when the timer's channel becomes ready. */
  datatype State = State(
    now: nat, debounce: Option<nat>, ceiling: Option<nat>, armed: bool,
    batch: Option<Batch>, settles: seq<Settle>)

  datatype Policy = Policy(window: nat, ceiling: nat)

  datatype Step = Arrive | DebounceFires | CeilingFires | Wait

  predicate Due(timer: Option<nat>, now: nat) { timer.Some? && timer.value <= now }

  /** Timers that are due are taken before time moves on. */
  predicate Enabled(s: State, step: Step) {
    match step
    case Arrive => true
    case DebounceFires => Due(s.debounce, s.now)
    case CeilingFires => Due(s.ceiling, s.now)
    case Wait => !Due(s.debounce, s.now) && !Due(s.ceiling, s.now)
  }

  function Settled(s: State, cause: Cause): State {
    s.(debounce := None, ceiling := None, armed := false, batch := None,
       settles := if s.batch.Some? then s.settles + [Settle(s.now, cause, s.batch.value.first, s.batch.value.last)] else s.settles)
  }

  function Arrived(s: State, p: Policy): State {
    s.(debounce := Some(s.now + p.window),
       ceiling := if s.armed then s.ceiling else Some(s.now + p.ceiling),
       armed := true,
       batch := Some(if s.batch.Some? then s.batch.value.(last := s.now) else Batch(s.now, s.now)))
  }

  function Do(s: State, p: Policy, step: Step): State
    requires Enabled(s, step)
  {
    match step
    case Arrive => Arrived(s, p)
    case DebounceFires => Settled(s, ByDebounce)
    case CeilingFires => Settled(s, ByCeiling)
    case Wait => s.(now := s.now + 1)
  }

  const START := State(0, None, None, false, None, [])

  predicate Run(p: Policy, steps: seq<Step>)
    decreases |steps|, 0
  {
    steps == [] || (Run(p, steps[..|steps| - 1]) && Enabled(Reach(p, steps[..|steps| - 1]), steps[|steps| - 1]))
  }

  function Reach(p: Policy, steps: seq<Step>): State
    requires Run(p, steps)
    decreases |steps|, 1
  {
    if steps == [] then START else Do(Reach(p, steps[..|steps| - 1]), p, steps[|steps| - 1])
  }

  /** A settle is on time: the window after the last arrival, or the ceiling after the first. */
  predicate OnTime(p: Policy, s: Settle) {
    && s.first <= s.last <= s.at
    && s.at <= s.first + p.ceiling
    && s.at <= s.last + p.window
    && (s.cause.ByDebounce? ==> s.at == s.last + p.window)
    && (s.cause.ByCeiling? ==> s.at == s.first + p.ceiling)
  }

  predicate Inv(p: Policy, s: State) {
    && (s.armed <==> s.batch.Some?) && (s.armed <==> s.ceiling.Some?) && (s.armed <==> s.debounce.Some?)
    && (s.batch.Some? ==>
          && s.batch.value.first <= s.batch.value.last <= s.now
          && s.ceiling == Some(s.batch.value.first + p.ceiling)
          && s.debounce == Some(s.batch.value.last + p.window)
          && s.now <= s.ceiling.value && s.now <= s.debounce.value)
    && forall i :: 0 <= i < |s.settles| ==> OnTime(p, s.settles[i])
  }

  lemma {:induction false} RunKeepsInv(p: Policy, steps: seq<Step>)
    requires Run(p, steps)
    ensures Inv(p, Reach(p, steps))
  {
    if steps != [] {
      RunKeepsInv(p, steps[..|steps| - 1]);
    }
  }

  /**
   Bounded deferral: however often changes arrive, nothing stays unsettled past the ceiling
   after the first of them, and no settle comes earlier than the window after the last
   arrival unless the ceiling caused it.
   */
  lemma DeferralIsBounded(p: Policy, steps: seq<Step>)
    requires Run(p, steps)
    ensures var s := Reach(p, steps);
            && (s.batch.Some? ==> s.now <= s.batch.value.first + p.ceiling)
            && forall i :: 0 <= i < |s.settles| ==> OnTime(p, s.settles[i])
  {
    RunKeepsInv(p, steps);
  }

  function Waits(steps: seq<Step>): nat {
    if steps == [] then 0 else Waits(steps[..|steps| - 1]) + if steps[|steps| - 1].Wait? then 1 else 0
  }

  lemma {:induction false} LaterRun(p: Policy, steps: seq<Step>, later: seq<Step>)
    requires Run(p, steps + later)
    ensures Run(p, steps)
    ensures Reach(p, steps + later).now == Reach(p, steps).now + Waits(later)
    ensures Reach(p, steps).settles <= Reach(p, steps + later).settles
    ensures Reach(p, steps).batch.Some? && Reach(p, steps + later).settles == Reach(p, steps).settles ==>
              Reach(p, steps + later).batch.Some? && Reach(p, steps + later).batch.value.first == Reach(p, steps).batch.value.first
  {
    var all := steps + later;
    if later == [] {
      assert all == steps;
    } else {
      var rest := later[..|later| - 1];
      assert all[..|all| - 1] == steps + rest;
      LaterRun(p, steps, rest);
    }
  }

  /** So a batch is settled within the ceiling: more time than that cannot pass without a settle. */
  lemma SettledWithinCeiling(p: Policy, steps: seq<Step>, later: seq<Step>)
    requires Run(p, steps + later)
    requires Run(p, steps) && Reach(p, steps).batch.Some? && Waits(later) > p.ceiling
    ensures |Reach(p, steps).settles| < |Reach(p, steps + later).settles|
    ensures Reach(p, steps + later).settles[|Reach(p, steps).settles|].first == Reach(p, steps).batch.value.first
  {
    LaterRun(p, steps, later);
    RunKeepsInv(p, steps + later);
    RunKeepsInv(p, steps);
    NextSettleIsThisBatch(p, steps, later);
  }

  lemma {:induction false} NextSettleIsThisBatch(p: Policy, steps: seq<Step>, later: seq<Step>)
    requires Run(p, steps + later) && Run(p, steps) && Reach(p, steps).batch.Some?
    ensures |Reach(p, steps).settles| <= |Reach(p, steps + later).settles|
    ensures |Reach(p, steps).settles| < |Reach(p, steps + later).settles| ==>
              Reach(p, steps + later).settles[|Reach(p, steps).settles|].first == Reach(p, steps).batch.value.first
  {
    var all := steps + later;
    if later == [] {
      assert all == steps;
    } else {
      var rest := later[..|later| - 1];
      assert all[..|all| - 1] == steps + rest;
      NextSettleIsThisBatch(p, steps, rest);
      LaterRun(p, steps, rest);
    }
  }

  predicate NoArrivals(steps: seq<Step>) { forall i :: 0 <= i < |steps| ==> !steps[i].Arrive? }

  lemma {:induction false} QuietRun(p: Policy, steps: seq<Step>, later: seq<Step>)
    requires Run(p, steps + later) && Run(p, steps) && NoArrivals(later)
    ensures Reach(p, steps + later).settles == Reach(p, steps).settles ==> Reach(p, steps + later).batch == Reach(p, steps).batch
  {
    var all := steps + later;
    if later == [] {
      assert all == steps;
    } else {
      var rest := later[..|later| - 1];
      assert all[..|all| - 1] == steps + rest;
      QuietRun(p, steps, rest);
      LaterRun(p, steps, rest);
    }
  }

  /** Once changes stop arriving, the batch is settled within one window. */
  lemma SettledWhenQuiet(p: Policy, steps: seq<Step>, later: seq<Step>)
    requires Run(p, steps + later) && Run(p, steps) && NoArrivals(later)
    requires Reach(p, steps).batch.Some? && Waits(later) > p.window
    ensures |Reach(p, steps).settles| < |Reach(p, steps + later).settles|
  {
    LaterRun(p, steps, later);
    QuietRun(p, steps, later);
    RunKeepsInv(p, steps);
    RunKeepsInv(p, steps + later);
  }

  /** A timer that fires settles the batch there is, under its own name, and disarms both timers. */
  lemma FiringSettles(p: Policy, steps: seq<Step>, step: Step)
    requires Run(p, steps) && Enabled(Reach(p, steps), step) && (step.DebounceFires? || step.CeilingFires?)
    ensures var s, t := Reach(p, steps), Do(Reach(p, steps), p, step);
            && s.batch.Some? && t.batch.None? && t.debounce.None? && t.ceiling.None? && !t.armed
            && t.settles == s.settles + [Settle(s.now, if step.DebounceFires? then ByDebounce else ByCeiling, s.batch.value.first, s.batch.value.last)]
  {
    RunKeepsInv(p, steps);
  }

  /** The loop's own variables. */
  class EventLoop {
    const policy: Policy
    var now: nat
    var debounce: Option<nat>
    var ceiling: Option<nat>
    var ceilingArmed: bool
    ghost var batch: Option<Batch>
    ghost var settles: seq<Settle>

    ghost function Value(): State reads this { State(now, debounce, ceiling, ceilingArmed, batch, settles) }

    /** The window and ceiling come from the settings a project may influence. */
    constructor (w: HostSettings.Watch)
      ensures Value() == START && policy.window <= policy.ceiling <= HostSettings.MAX_SETTLE_CEILING
      ensures policy.window == HostSettings.Debounce(w) && policy.ceiling == HostSettings.SettleCeiling(w)
    {
      policy := Policy(HostSettings.Debounce(w), HostSettings.SettleCeiling(w));
      now, debounce, ceiling, ceilingArmed := 0, None, None, false;
      batch, settles := None, [];
    }

    method Arm()
      modifies this
      ensures Value() == Arrived(old(Value()), policy)
    {
      debounce := Some(now + policy.window);
      if !ceilingArmed {
        ceiling := Some(now + policy.ceiling);
        ceilingArmed := true;
      }
      batch := Some(if batch.Some? then batch.value.(last := now) else Batch(now, now));
    }

    method OnDebounce()
      requires Due(debounce, now)
      modifies this
      ensures Value() == Settled(old(Value()), ByDebounce)
    {
      debounce := None;
      ceiling := None;
      ceilingArmed := false;
      Record(ByDebounce);
    }

    method OnCeiling()
      requires Due(ceiling, now)
      modifies this
      ensures Value() == Settled(old(Value()), ByCeiling)
    {
      ceiling := None;
      debounce := None;
      ceilingArmed := false;
      Record(ByCeiling);
    }

    ghost method Record(cause: Cause)
      modifies this`batch, this`settles
      ensures batch.None?
      ensures settles == if old(batch).None? then old(settles)
                         else old(settles) + [Settle(now, cause, old(batch).value.first, old(batch).value.last)]
    {
      if batch.Some? {
        settles := settles + [Settle(now, cause, batch.value.first, batch.value.last)];
      }
      batch := None;
    }
  }
}
