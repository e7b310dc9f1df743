/** The verifier-width state machine of multi-token prediction (src/gemma4_runtime.rs). */
module WidthSchedule {
  import opened Prelude

  predicate AdmittedWidth(w: nat) {
    w == 2 || w == 4 || w == 8 || w == 16
  }

  /** The widest admitted verifier that neither the configuration nor the remaining outputs forbid. */
  function TailWidth(configured: nat, remaining: nat): (w: Option<nat>)
    ensures w.None? <==> configured < 2 || remaining < 2
    ensures w.Some? ==> AdmittedWidth(w.value) && w.value <= configured && w.value <= remaining
    ensures w.Some? ==> forall v: nat | AdmittedWidth(v) && v <= configured && v <= remaining :: v <= w.value
  {
    if 16 <= configured && 16 <= remaining then Some(16)
    else if 8 <= configured && 8 <= remaining then Some(8)
    else if 4 <= configured && 4 <= remaining then Some(4)
    else if 2 <= configured && 2 <= remaining then Some(2)
    else None
  }

  datatype WidthState = Fixed | Warmup | OneShotBootstrap | Wide16

  datatype Scheduler = Scheduler(configured: nat, warmup: nat, oneShot: bool, padW8: bool, state: WidthState)

  /** `logical` rows may be accepted; the rest of the `physical` rows repeat the anchor. */
  datatype Plan = Plan(scheduled: nat, logical: nat, physical: nat, before: WidthState)

  predicate ValidScheduler(s: Scheduler) {
    && AdmittedWidth(s.configured) && (s.state != Fixed ==> s.configured == 16)
    && (s.oneShot <==> s.state == OneShotBootstrap || (s.state == Wide16 && s.oneShot))
    && (s.state == Warmup || (s.state == Wide16 && !s.oneShot) ==> s.warmup == 4 || s.warmup == 8)
    && (s.padW8 ==> s.configured == 8)
  }

  /** The scheduler a generation starts with: adaptive and one-shot widths are mutually exclusive, and each
      selector is inert at a width it was not made for. */
  function Start(configured: nat, adaptive: bool, oneShot: bool, pad: bool): (r: Result<Scheduler>)
    ensures r.Ok? <==> AdmittedWidth(configured) && !(adaptive && oneShot)
    ensures r.Ok? ==> ValidScheduler(r.value) && r.value.configured == configured
    ensures r.Ok? ==> (r.value.padW8 <==> pad && configured == 8)
    ensures r.Ok? && oneShot && configured == 16 ==>
              r.value.state == OneShotBootstrap && r.value.oneShot && r.value.warmup == 8
    ensures r.Ok? && adaptive && configured == 16 ==>
              r.value.state == Warmup && !r.value.oneShot && r.value.warmup == 8
    ensures r.Ok? && (configured != 16 || !(adaptive || oneShot)) ==> r.value.state == Fixed && !r.value.oneShot
  {
    if !AdmittedWidth(configured) || (adaptive && oneShot) then Err
    else if pad && configured == 8 then Ok(Scheduler(8, 8, false, true, Fixed))
    else if oneShot && configured == 16 then Ok(Scheduler(16, 8, true, false, OneShotBootstrap))
    else if adaptive && configured == 16 then Ok(Scheduler(16, 8, false, false, Warmup))
    else Ok(Scheduler(configured, configured, false, false, Fixed))
  }

  function Scheduled(s: Scheduler): nat {
    match s.state
    case Fixed => s.configured
    case Warmup => s.warmup
    case OneShotBootstrap => 8
    case Wide16 => 16
  }

  predicate PadsW8(s: Scheduler, remaining: nat, available: nat) {
    s.padW8 && available >= 8 && Scheduled(s) == 8 && 5 <= remaining <= 8
  }

  predicate PadsW16(s: Scheduler, remaining: nat) {
    s.oneShot && s.state == Wide16 && 10 <= remaining <= 15
  }

  /** `remaining` counts the anchor. A padded tail keeps the full physical width and leaves the exact bonus
      as the final free token. Never planning more logical rows than remaining outputs is what makes the
      loop's budget error unreachable; declining exactly on the last output is what makes the free bonus at
      most one token. */
  function PlanRound(s: Scheduler, remaining: nat, available: nat): (p: Option<Plan>)
    requires ValidScheduler(s)
    ensures p.None? <==> remaining < 2
    ensures p.Some? ==> p.value.scheduled == Scheduled(s) && p.value.before == s.state
    ensures p.Some? ==> 2 <= p.value.logical <= remaining && p.value.logical <= p.value.physical
    ensures p.Some? ==> p.value.physical in {2, 4, 8, 16} && p.value.physical <= Scheduled(s)
    ensures p.Some? ==>
              (p.value.logical < p.value.physical <==>
               || (s.padW8 && available >= 8 && 5 <= remaining <= 8)
               || (s.oneShot && s.state == Wide16 && 10 <= remaining <= 15))
    ensures p.Some? && p.value.logical < p.value.physical ==> p.value.physical == if s.padW8 then 8 else 16
    ensures p.Some? && p.value.logical < p.value.physical ==> p.value.logical == remaining - 1
    ensures p.Some? && p.value.logical == p.value.physical ==>
              forall v: nat | AdmittedWidth(v) && v <= Scheduled(s) && v <= remaining :: v <= p.value.logical
  {
    var width := Scheduled(s);
    if PadsW8(s, remaining, available) then Some(Plan(width, remaining - 1, 8, s.state))
    else if PadsW16(s, remaining) then Some(Plan(width, remaining - 1, 16, s.state))
    else
      match TailWidth(width, remaining)
      case None => None
      case Some(w) => Some(Plan(width, w, w, s.state))
  }

  /** As long as the outputs that remain fit the cache, so does the planned round, with one exception: the padded
      sixteen-row tail does not look at the room there is. */
  lemma PlannedFitsIff(s: Scheduler, remaining: nat, available: nat)
    requires ValidScheduler(s) && 2 <= remaining <= available
    ensures PlanRound(s, remaining, available).Some?
    ensures PlanRound(s, remaining, available).value.physical <= available
            <==> !(PadsW16(s, remaining) && available < 16)
  {
  }

  predicate FitsWithSpare(s: Scheduler, remaining: nat, spare: nat)
    requires ValidScheduler(s)
  {
    var plan := PlanRound(s, remaining, remaining + spare);
    plan.Some? ==> plan.value.physical <= remaining + spare
  }

  /** Rows to spare beyond the outputs that remain make up for it exactly when there are six of them. */
  lemma SpareRowsIff(s: Scheduler, spare: nat)
    requires ValidScheduler(s) && s.oneShot && s.state == Wide16
    ensures (forall remaining: nat :: FitsWithSpare(s, remaining, spare)) <==> spare >= 6
  {
    forall remaining: nat | spare >= 6
      ensures FitsWithSpare(s, remaining, spare)
    {
      if remaining >= 2 {
        PlannedFitsIff(s, remaining, remaining + spare);
      }
    }
    if spare < 6 {
      PlannedFitsIff(s, 10, 10 + spare);
      assert !FitsWithSpare(s, 10, spare);
    }
  }

  /** A one-shot run of 19 outputs in exactly 19 positions: once its first eight rows are accepted, eleven outputs and
      eleven positions remain, and the next round is planned with sixteen rows. */
  lemma OneShotTailOverruns()
    ensures var start := Start(16, false, true, false);
            && start.Ok?
            && PlanRound(start.value, 19, 19) == Some(Plan(8, 8, 8, OneShotBootstrap))
            && var next := FinishRound(start.value, Plan(8, 8, 8, OneShotBootstrap), 7, false);
               && next.Some?
               && PlanRound(next.value, 11, 11) == Some(Plan(16, 10, 16, Wide16))
  {
  }

  /** After a round. A stop or a budget tail never moves the schedule; the wide verifier is earned by one
      full warm-up round (or one bootstrap round) and lost again on a partial round unless one-shot. */
  function FinishRound(s: Scheduler, plan: Plan, accepted: nat, stopped: bool): (r: Option<Scheduler>)
    ensures r.Some? <==> plan.before == s.state && plan.scheduled == Scheduled(s) && accepted < plan.logical
    ensures r.Some? && ValidScheduler(s) ==> ValidScheduler(r.value)
    ensures r.Some? ==> r.value == s.(state := r.value.state)
    ensures r.Some? && (stopped || plan.logical != plan.scheduled || s.state == Fixed) ==> r.value == s
    ensures r.Some? && !stopped && plan.logical == plan.scheduled && s.state == Warmup ==>
              r.value.state == if accepted + 1 == s.warmup then Wide16 else Warmup
    ensures r.Some? && !stopped && plan.logical == plan.scheduled && s.state == OneShotBootstrap ==>
              r.value.state == Wide16
    ensures r.Some? && !stopped && plan.logical == plan.scheduled && s.state == Wide16 ==>
              r.value.state == if s.oneShot || accepted + 1 == 16 then Wide16 else Warmup
  {
    if plan.before != s.state || plan.scheduled != Scheduled(s) || accepted >= plan.logical then None
    else if stopped || plan.logical != plan.scheduled then Some(s)
    else
      var full := accepted + 1 == plan.logical;
      match s.state
      case Fixed => Some(s)
      case Warmup => Some(if full then s.(state := Wide16) else s)
      case OneShotBootstrap => Some(s.(state := Wide16))
      case Wide16 => Some(if full || s.oneShot then s else s.(state := Warmup))
  }

  // ---- Whole runs of rounds -----------------------------------------------------------------------

  /** What a round leaves on record for the schedule. */
  datatype Ran = Ran(scheduled: nat, logical: nat, accepted: nat, stopped: bool)

  /** The schedule after these rounds. */
  function After(start: Scheduler, history: seq<Ran>): (s: Scheduler) {
    if history == [] then start
    else
      var last := history[|history| - 1];
      var before := After(start, history[..|history| - 1]);
      var moved := FinishRound(before, Plan(last.scheduled, last.logical, last.logical, before.state), last.accepted,
                               last.stopped);
      if moved.Some? then moved.value else before
  }

  /** Every round was planned at the width the schedule had then. */
  ghost predicate Recorded(start: Scheduler, history: seq<Ran>) {
    forall i: nat | i < |history| :: RecordedAt(start, history, i)
  }

  ghost predicate RecordedAt(start: Scheduler, history: seq<Ran>, i: nat) {
    && i < |history| && history[i].accepted < history[i].logical
    && history[i].scheduled == Scheduled(After(start, history[..i]))
  }

  lemma RecordedSnoc(start: Scheduler, history: seq<Ran>, r: Ran)
    requires Recorded(start, history) && r.accepted < r.logical && r.scheduled == Scheduled(After(start, history))
    ensures Recorded(start, history + [r])
  {
    var more := history + [r];
    forall i: nat | i < |more|
      ensures RecordedAt(start, more, i)
    {
      assert more[..i] == if i < |history| then history[..i] else history;
      assert i < |history| ==> RecordedAt(start, history, i);
    }
  }

  lemma RecordedPrefix(start: Scheduler, history: seq<Ran>, n: nat)
    requires Recorded(start, history) && n <= |history|
    ensures Recorded(start, history[..n])
  {
    forall i: nat | i < n
      ensures RecordedAt(start, history[..n], i)
    {
      assert RecordedAt(start, history, i) && history[..n][..i] == history[..i];
    }
  }

  /** A round says something about the assistant unless it ended at a stop or was cut by the budget. */
  predicate Counts(r: Ran) {
    !r.stopped && r.logical == r.scheduled
  }

  /** Since round `k`, a full one at eight rows, no round that counts was partial. */
  predicate EarnedAt(history: seq<Ran>, k: nat) {
    && k < |history| && Counts(history[k]) && history[k].scheduled == 8 && history[k].accepted == 7
    && forall j: nat | k < j < |history| :: Counts(history[j]) ==> history[j].accepted + 1 == history[j].logical
  }

  ghost predicate Earned(history: seq<Ran>) {
    exists k: nat :: EarnedAt(history, k)
  }

  ghost predicate AnyCounts(history: seq<Ran>) {
    exists k: nat :: k < |history| && Counts(history[k])
  }

  /** Under the adaptive schedule a round is planned with sixteen rows exactly when a full eight-row round earned
      them and no counting round has been partial since; otherwise with eight. */
  lemma {:induction false} AdaptiveWidths(start: Scheduler, pad: bool, history: seq<Ran>)
    requires Start(16, true, false, pad) == Ok(start) && Recorded(start, history)
    ensures Scheduled(After(start, history)) == if Earned(history) then 16 else 8
    ensures ValidScheduler(After(start, history)) && After(start, history).state in {Warmup, Wide16}
    ensures After(start, history) == start.(state := After(start, history).state)
    decreases |history|
  {
    if history != [] {
      var n := |history| - 1;
      var early, last := history[..n], history[n];
      RecordedPrefix(start, history, n);
      AdaptiveWidths(start, pad, early);
      assert RecordedAt(start, history, n);
      EarnedStep(early, last);
      assert history == early + [last];
    }
  }

  /** Sixteen rows are earned by the last round, or were earned and not lost by it. */
  lemma EarnedStep(early: seq<Ran>, last: Ran)
    requires last.scheduled == if Earned(early) then 16 else 8
    ensures Earned(early + [last])
            <==> if Counts(last) then last.accepted + 1 == last.logical else Earned(early)
  {
    var all := early + [last];
    if k: nat :| EarnedAt(early, k) {
      assert (Counts(last) ==> last.accepted + 1 == last.logical) ==> EarnedAt(all, k);
    } else if Counts(last) && last.accepted + 1 == last.logical {
      assert EarnedAt(all, |early|);
    }
    if k: nat :| EarnedAt(all, k) {
      if k < |early| {
        assert forall j: nat | k < j < |early| :: all[j] == early[j];
        assert all[k] == early[k] && EarnedAt(early, k) && all[|early|] == last;
      }
    }
  }

  /** Under the one-shot schedule a round is planned with sixteen rows exactly after a round that counts, however
      few of its rows were accepted; otherwise with eight. */
  lemma {:induction false} OneShotWidths(start: Scheduler, pad: bool, history: seq<Ran>)
    requires Start(16, false, true, pad) == Ok(start) && Recorded(start, history)
    ensures Scheduled(After(start, history)) == if AnyCounts(history) then 16 else 8
    ensures After(start, history) == start.(state := After(start, history).state)
    ensures After(start, history).state == if AnyCounts(history) then Wide16 else OneShotBootstrap
    decreases |history|
  {
    if history != [] {
      var n := |history| - 1;
      var early, last := history[..n], history[n];
      RecordedPrefix(start, history, n);
      OneShotWidths(start, pad, early);
      assert RecordedAt(start, history, n);
      if k: nat :| k < n && Counts(early[k]) {
        assert history[k] == early[k];
      }
      if k: nat :| k < |history| && Counts(history[k]) {
        assert k < n ==> history[k] == early[k];
      }
    }
  }

  /** Every other schedule stays at its configured width. */
  lemma {:induction false} FixedWidths(start: Scheduler, history: seq<Ran>)
    requires start.state == Fixed
    ensures After(start, history) == start && Scheduled(After(start, history)) == start.configured
    decreases |history|
  {
    if history != [] {
      FixedWidths(start, history[..|history| - 1]);
    }
  }
}
