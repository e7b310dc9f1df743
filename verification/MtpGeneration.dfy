/** The multi-token-prediction generation loop and the validator of its traces
    (src/gemma4_runtime.rs, examples/gemma4_mtp12_validate_tree_tail.rs). */
module MtpGeneration {
  import opened Prelude
  import opened TokenTree
  import opened TargetCache
  import opened SpeculativeRun
  import opened WidthSchedule

  // ---- One round ----------------------------------------------------------------------------

  datatype Proposal = Drafts(drafts: seq<Token>) | Branches(tree: Tree)

  /** The retained receipt of a round; node 0 of `batch` is the anchor, and `tree` says whether a tree was
      proposed (possibly a plain chain). */
  datatype Round = Round(position: nat, batch: Tree, scheduled: nat, logical: nat, greedy: seq<Token>, tree: bool,
                         decision: Decision, emitted: seq<Token>)

  /** A round without a tree receipt is a chain; one with it has eight live rows. */
  predicate ShapeRecorded(r: Round) {
    if r.tree then |r.batch.tokens| == 8 && r.logical == 8
    else r.batch.tokens != [] && r.batch == Linear(r.batch.tokens[0], r.batch.tokens[1..])
  }

  /** What a round must record about itself for its emitted tokens to be auditable. */
  predicate Auditable(r: Round) {
    && WellFormed(r.batch) && |r.greedy| == |r.batch.tokens| && AdmittedWidth(|r.greedy|)
    && 0 < r.logical <= |r.greedy| && ShapeRecorded(r)
    && (forall j | r.logical <= j < |r.greedy| :: r.batch.tokens[j] == r.batch.tokens[0])
    && Chain(r.batch, r.decision.path) && EdgesAgree(r.batch, r.greedy, r.decision.path)
    && (forall k | 0 <= k < |r.decision.path| :: r.decision.path[k] < r.logical)
    && r.emitted == PathTokens(r.batch, r.decision.path)
    && (r.decision.stop == None ==> r.decision.next == Some(Bonus(r)))
    && (r.decision.stop != None ==> r.decision.stop == Some(Bonus(r)) && r.decision.next == None)
  }

  /** The target's prediction after the last committed row. */
  function Bonus(r: Round): Token
    requires HasPath(r)
  {
    r.greedy[r.decision.path[|r.decision.path| - 1]]
  }

  predicate HasPath(r: Round) {
    && WellFormed(r.batch) && |r.greedy| == |r.batch.tokens|
    && Chain(r.batch, r.decision.path)
  }

  predicate LivePlan(plan: Plan) {
    2 <= plan.logical <= plan.physical && AdmittedWidth(plan.physical)
  }

  function Padding(anchor: Token, plan: Plan): (p: seq<Token>)
    requires plan.logical <= plan.physical
    ensures |p| == plan.physical - plan.logical
  {
    seq(plan.physical - plan.logical, _ => anchor)
  }

  /** Full eight-row rounds that fit the cache are the only ones proposed as trees. */
  predicate TreeEligible(plan: Plan, position: nat, capacity: nat) {
    plan.logical == 8 && plan.physical == 8 && position + 8 <= capacity
  }

  /** A proposal of the planned shape: a valid tree rooted at the anchor for a full eight-row plan, or
      exactly the planned number of drafts. */
  predicate Proposes(anchor: Token, plan: Plan, proposal: Proposal, vocab: nat) {
    match proposal
    case Branches(tree) =>
      plan.logical == 8 && plan.physical == 8 && ValidTree(tree, vocab) && tree.tokens[0] == anchor
    case Drafts(drafts) => |drafts| + 1 == plan.logical
  }

  /** The candidate rows of a proposal. */
  function Batch(anchor: Token, plan: Plan, proposal: Proposal, vocab: nat): (t: Tree)
    requires LivePlan(plan) && Proposes(anchor, plan, proposal, vocab)
    ensures WellFormed(t) && |t.tokens| == plan.physical && t.tokens[0] == anchor
    ensures forall j | plan.logical <= j < plan.physical :: t.tokens[j] == anchor
    ensures proposal.Drafts? ==> t == Linear(anchor, proposal.drafts + Padding(anchor, plan))
    ensures proposal.Branches? ==> t == proposal.tree
  {
    match proposal
    case Branches(tree) => tree
    case Drafts(drafts) => Linear(anchor, drafts + Padding(anchor, plan))
  }

  /** `materialize_candidate_rows` behind the proposal checks: refuses exactly what is not of the planned
      shape. */
  method Materialize(anchor: Token, plan: Plan, proposal: Proposal, vocab: nat) returns (batch: Option<Tree>)
    requires LivePlan(plan)
    ensures batch.Some? <==> Proposes(anchor, plan, proposal, vocab)
    ensures proposal.Drafts? ==> (batch.Some? <==> |proposal.drafts| + 1 == plan.logical)
    ensures proposal.Branches? ==>
              (batch.Some? <==> plan.logical == plan.physical == 8 && ValidTree(proposal.tree, vocab)
                                && proposal.tree.tokens[0] == anchor)
    ensures batch.Some? ==> batch.value == Batch(anchor, plan, proposal, vocab)
  {
    match proposal {
      case Branches(tree) =>
        if plan.logical != 8 || plan.physical != 8 || !ValidTree(tree, vocab) || tree.tokens[0] != anchor {
          return None;
        }
        batch := Some(tree);
      case Drafts(drafts) =>
        if |drafts| + 1 != plan.logical {
          return None;
        }
        batch := Some(Linear(anchor, drafts + Padding(anchor, plan)));
    }
  }

  /** A tree is refused only when the anchor is a stop or the target left the vocabulary. */
  method Decide(anchor: Token, plan: Plan, proposal: Proposal, greedy: seq<Token>, stops: set<Token>, vocab: nat)
    returns (d: Option<Decision>)
    requires LivePlan(plan) && |greedy| == plan.physical && Proposes(anchor, plan, proposal, vocab)
    ensures d.None? <==> proposal.Branches? && !Acceptable(proposal.tree, greedy, stops, vocab)
    ensures d.Some? ==> Decides(Batch(anchor, plan, proposal, vocab), greedy, stops, plan.logical, d.value)
  {
    match proposal {
      case Branches(tree) =>
        d := AcceptTree(tree, greedy, stops, vocab);
      case Drafts(drafts) =>
        var linear := AcceptLinear(anchor, drafts, Padding(anchor, plan), greedy, stops);
        d := Some(linear);
    }
  }

  /** What a round that ran records, and what it did to the cache. */
  ghost predicate RanRound(m: Target, before: seq<Token>, after: seq<Token>, capacity: nat, anchor: Token, plan: Plan,
                           tree: bool, stops: set<Token>, r: Round)
  {
    && Auditable(r) && r.batch.tokens[0] == anchor && r.tree == tree
    && r.position == |before| && r.scheduled == plan.scheduled && r.logical == plan.logical
    && |r.greedy| == plan.physical && r.position + plan.physical <= capacity
    && Truthful(NextToken(m), before, r.batch, r.greedy)
    && Decides(r.batch, r.greedy, stops, plan.logical, r.decision)
    && after == before + r.emitted
  }

  /** The target only predicts tokens of its vocabulary. */
  ghost predicate InVocab(m: Target, vocab: nat) {
    forall ctx :: NextToken(m)(ctx) < vocab
  }

  /** What a round asks for: a proposal of the planned shape, room for its rows and a device that takes them. */
  predicate RoundCanRun(anchor: Token, plan: Plan, proposal: Proposal, vocab: nat, position: nat, capacity: nat,
                        device: bool) {
    Proposes(anchor, plan, proposal, vocab) && position + plan.physical <= capacity && device
  }

  lemma TruthfulInVocab(m: Target, committed: seq<Token>, t: Tree, greedy: seq<Token>, vocab: nat)
    requires InVocab(m, vocab) && WellFormed(t) && Truthful(NextToken(m), committed, t, greedy)
    ensures forall i | 0 <= i < |greedy| :: greedy[i] < vocab
  {
    forall i: nat | i < |greedy|
      ensures greedy[i] < vocab
    {
      assert TruthfulRow(NextToken(m), committed, t, greedy, i);
    }
  }

  /** The target's predictions for the candidate rows, and the decision on them; a target that keeps to its
      vocabulary is never refused. */
  method VerifyAndDecide(s: Session, m: Target, anchor: Token, plan: Plan, proposal: Proposal, stops: set<Token>,
                         vocab: nat)
    returns (greedy: seq<Token>, d: Option<Decision>)
    requires s.Valid(m) && LivePlan(plan) && Proposes(anchor, plan, proposal, vocab)
    requires s.filled + plan.physical <= s.slots.Length
    modifies s.slots
    ensures s.Valid(m)
    ensures var batch := Batch(anchor, plan, proposal, vocab);
            && NodeRows(m, s.committed, batch, s.slots[s.filled..s.filled + |batch.tokens|])
            && Truthful(NextToken(m), s.committed, batch, greedy)
            && (d.Some? ==> Decides(batch, greedy, stops, plan.logical, d.value))
    ensures InVocab(m, vocab) && anchor !in stops ==> d.Some?
  {
    var batch := Batch(anchor, plan, proposal, vocab);
    var captured;
    greedy, captured := s.VerifyTree(m, batch);
    if InVocab(m, vocab) {
      TruthfulInVocab(m, s.committed, batch, greedy, vocab);
    }
    d := Decide(anchor, plan, proposal, greedy, stops, vocab);
  }

  /** Propose, verify in one batch, decide, commit. A malformed proposal, an exhausted cache, a failed device
      (`device` says whether it takes the batch) or a refused tree leaves the committed sequence as it was;
      nothing else stops a round. */
  method RunRound(s: Session, m: Target, anchor: Token, plan: Plan, proposal: Proposal, stops: set<Token>, vocab: nat,
                  device: bool)
    returns (r: Result<Round>)
    requires s.Valid(m) && LivePlan(plan)
    modifies s, s.slots
    ensures s.Valid(m)
    ensures r.Err? ==> s.committed == old(s.committed)
    ensures r.Ok? ==> RoundCanRun(anchor, plan, proposal, vocab, old(s.filled), s.slots.Length, device)
    ensures InVocab(m, vocab) && anchor !in stops ==>
              (r.Ok? <==> RoundCanRun(anchor, plan, proposal, vocab, old(s.filled), s.slots.Length, device))
    ensures r.Ok? ==>
              RanRound(m, old(s.committed), s.committed, s.slots.Length, anchor, plan, proposal.Branches?, stops,
                       r.value)
  {
    var position := s.filled;
    var candidates := Materialize(anchor, plan, proposal, vocab);
    if candidates.None? || position + plan.physical > s.slots.Length {
      return Err;
    }
    var greedy, decision := VerifyAndDecide(s, m, anchor, plan, proposal, stops, vocab);
    if !device || decision.None? {
      return Err;   // the tentative rows stay above the watermark
    }
    var round := Receipt(anchor, plan, proposal, vocab, position, candidates.value, greedy, stops, decision.value);
    s.CommitPath(m, round.batch, round.decision.path);
    r := Ok(round);
  }

  /** The receipt of a decided round is auditable. */
  function Receipt(anchor: Token, plan: Plan, proposal: Proposal, vocab: nat, position: nat, batch: Tree,
                   greedy: seq<Token>, ghost stops: set<Token>, d: Decision): (r: Round)
    requires LivePlan(plan) && Proposes(anchor, plan, proposal, vocab) && batch == Batch(anchor, plan, proposal, vocab)
    requires |greedy| == plan.physical && Decides(batch, greedy, stops, plan.logical, d)
    ensures Auditable(r)
    ensures r == Round(position, batch, plan.scheduled, plan.logical, greedy, proposal.Branches?, d, r.emitted)
    ensures r.emitted == PathTokens(batch, d.path)
  {
    ChainShape(anchor, plan, proposal, vocab, batch);
    Round(position, batch, plan.scheduled, plan.logical, greedy, proposal.Branches?, d, PathTokens(batch, d.path))
  }

  lemma ChainShape(anchor: Token, plan: Plan, proposal: Proposal, vocab: nat, batch: Tree)
    requires LivePlan(plan) && Proposes(anchor, plan, proposal, vocab) && batch == Batch(anchor, plan, proposal, vocab)
    ensures proposal.Drafts? ==> batch == Linear(batch.tokens[0], batch.tokens[1..])
  {
    if proposal.Drafts? {
      assert batch.tokens[1..] == proposal.drafts + Padding(anchor, plan);
    }
  }

  /** What a committed round means for the stream: its tokens are the greedy continuation, none of them
      is a stop, and its bonus is the greedy token after them. */
  lemma RoundIsGreedy(next: seq<Token> -> Token, committed: seq<Token>, r: Round, stops: set<Token>)
    requires Auditable(r) && Truthful(next, committed, r.batch, r.greedy)
    requires Decides(r.batch, r.greedy, stops, r.logical, r.decision)
    requires r.batch.tokens[0] == next(committed) && r.batch.tokens[0] !in stops
    ensures IsGreedy(next, committed, r.emitted)
    ensures Bonus(r) == next(committed + r.emitted)
    ensures forall x | x in r.emitted :: x !in stops
    ensures r.emitted != [] && |r.emitted| <= r.logical
  {
    var path, anchor := r.decision.path, r.batch.tokens[0];
    TruthAtEnd(next, committed, r.batch, r.greedy, path);
    AgreedPathIsGreedy(next, committed, r.batch, r.greedy, path);
    assert GreedyAt(next, committed, [anchor], 0) by {
      assert committed + [anchor][..0] == committed;
    }
    GreedyAppend(next, committed, [anchor], r.emitted[1..]);
    assert r.emitted == [anchor] + r.emitted[1..];
    forall x | x in r.emitted
      ensures x !in stops
    {
      var k :| 0 <= k < |path| && x == r.batch.tokens[path[k]];
      assert k > 0 ==> x == r.greedy[path[k - 1]];
    }
    ChainIsPath(r.batch, path);
    assert |path| - 1 <= path[|path| - 1];
  }

  // ---- Traces -------------------------------------------------------------------------------

  /** A finished generation, with the configured width and whether the padded eight-row tail was active. */
  datatype Generation = Generation(tokens: seq<Token>, trace: seq<Round>, terminalStop: Option<Token>,
                                   configured: nat, padded: bool)

  ghost function Traced(trace: seq<Round>): seq<Token> {
    if trace == [] then [] else Traced(trace[..|trace| - 1]) + trace[|trace| - 1].emitted
  }

  lemma TracedSnoc(trace: seq<Round>, r: Round)
    ensures Traced(trace + [r]) == Traced(trace) + r.emitted
  {
    assert (trace + [r])[..|trace|] == trace;
  }

  /** Round `i` of a trace, as the validator demands it: rows start where the previous round's committed
      rows ended, fit the cache, and only the last round may stop. */
  ghost predicate RoundChecks(trace: seq<Round>, i: nat, promptLen: nat, capacity: nat)
    requires i < |trace|
  {
    var r := trace[i];
    && Auditable(r)
    && r.position == promptLen + |Traced(trace[..i])|
    && r.position + |r.greedy| <= capacity
    && (r.decision.stop != None ==> i + 1 == |trace|)
  }

  ghost predicate TraceChecks(trace: seq<Round>, promptLen: nat, capacity: nat) {
    forall i | 0 <= i < |trace| :: RoundChecks(trace, i, promptLen, capacity)
  }

  /** The part of the validator's verdict that holds of any width schedule: rounds that chain by position,
      tokens that are the traced ones plus at most one free bonus, and a consistent end. */
  ghost predicate Consistent(g: Generation, promptLen: nat, capacity: nat, budget: nat, cursor: nat) {
    var out := Traced(g.trace);
    && |g.tokens| <= budget && TraceChecks(g.trace, promptLen, capacity)
    && cursor == promptLen + |out| <= capacity
    && out <= g.tokens && |g.tokens| - |out| <= 1
    && (g.trace != [] ==> EndChecks(g, g.trace[|g.trace| - 1]))
    && (|g.tokens| > |out| ==> g.terminalStop == None && (g.trace == [] ==> budget == 1))
    && (g.terminalStop == None ==> |g.tokens| == budget)
  }

  ghost predicate EndChecks(g: Generation, last: Round) {
    && (last.decision.stop != None ==> g.terminalStop == last.decision.stop && last.decision.stop.value !in g.tokens)
    && (|g.tokens| > |Traced(g.trace)| ==> last.decision.next == Some(g.tokens[|g.tokens| - 1]))
  }

  /** One round under the padded eight-row schedule: width at most eight; a tree exactly on the full rounds
      of a tree run; no padding when the cache or the budget is short; no tree on a short run. */
  predicate TailRound(r: Round, available: int, budget: nat, treeEnabled: bool) {
    && |r.greedy| <= 8
    && (r.tree ==> treeEnabled)
    && (treeEnabled && r.logical == 8 && |r.greedy| == 8 ==> r.tree)
    && (available < 8 || budget <= 4 ==> r.logical == |r.greedy|)
    && (budget <= 8 || available < 8 ==> !r.tree)
  }

  predicate FirstRound(r: Round, available: int, budget: nat) {
    available >= 8 && 5 <= budget <= 8 ==> r.logical == budget - 1 && |r.greedy| == 8
  }

  predicate TailChecks(trace: seq<Round>, available: int, budget: nat, treeEnabled: bool) {
    && (forall i | 0 <= i < |trace| :: TailRound(trace[i], available, budget, treeEnabled))
    && (trace != [] ==> FirstRound(trace[0], available, budget))
  }

  /** The validator's whole verdict on a generation of the padded eight-row schedule. */
  ghost predicate Checks(g: Generation, promptLen: nat, capacity: nat, budget: nat, cursor: nat, treeEnabled: bool) {
    && g.configured == 8 && g.padded
    && Consistent(g, promptLen, capacity, budget, cursor)
    && TailChecks(g.trace, capacity - promptLen, budget, treeEnabled)
  }

  // ---- The generation loop --------------------------------------------------------------------

  /** Everything the loop knows between rounds. */
  ghost predicate Going(next: seq<Token> -> Token, prompt: seq<Token>, stops: set<Token>, budget: nat,
                        capacity: nat, out: seq<Token>, anchor: Token, trace: seq<Round>)
  {
    && IsGreedy(next, prompt, out) && anchor == next(prompt + out)
    && (forall x | x in out :: x !in stops)
    && |out| <= budget && Traced(trace) == out
    && TraceChecks(trace, |prompt|, capacity) && (forall r | r in trace :: r.decision.stop == None)
    && (trace != [] ==> trace[|trace| - 1].decision.next == Some(anchor))
  }

  /** What a completed generation promises. */
  ghost predicate Faithful(next: seq<Token> -> Token, prompt: seq<Token>, stops: set<Token>, budget: nat,
                           g: Generation)
  {
    && IsGreedy(next, prompt, g.tokens) && |g.tokens| <= budget
    && (forall x | x in g.tokens :: x !in stops)
    && (g.terminalStop == None ==> |g.tokens| == budget)
    && (g.terminalStop != None ==> g.terminalStop.value in stops && g.terminalStop.value == next(prompt + g.tokens))
    && var out := Traced(g.trace);
       && out <= g.tokens && |g.tokens| - |out| <= 1
       && (|out| < |g.tokens| ==> |g.tokens| == budget && g.terminalStop == None)
  }

  lemma TraceSnoc(trace: seq<Round>, r: Round, promptLen: nat, capacity: nat)
    requires TraceChecks(trace, promptLen, capacity) && (forall q | q in trace :: q.decision.stop == None)
    requires Auditable(r) && r.position == promptLen + |Traced(trace)| && r.position + |r.greedy| <= capacity
    ensures TraceChecks(trace + [r], promptLen, capacity)
  {
    var longer := trace + [r];
    forall i | 0 <= i < |longer|
      ensures RoundChecks(longer, i, promptLen, capacity)
    {
      if i < |trace| {
        assert RoundChecks(trace, i, promptLen, capacity);
        assert longer[..i] == trace[..i] && longer[i] == trace[i] && trace[i] in trace;
      } else {
        assert longer[..i] == trace;
      }
    }
  }

  /** A committed round keeps the loop going, or ends it at a stop the target itself chose. */
  lemma RoundKeepsGoing(next: seq<Token> -> Token, prompt: seq<Token>, stops: set<Token>, budget: nat,
                        capacity: nat, out: seq<Token>, anchor: Token, trace: seq<Round>, r: Round)
    requires Going(next, prompt, stops, budget, capacity, out, anchor, trace) && anchor !in stops
    requires Auditable(r) && r.batch.tokens[0] == anchor && Truthful(next, prompt + out, r.batch, r.greedy)
    requires Decides(r.batch, r.greedy, stops, r.logical, r.decision)
    requires r.position == |prompt + out| && r.position + |r.greedy| <= capacity
    requires |out| + r.logical <= budget
    ensures r.emitted != [] && |out + r.emitted| <= budget
    ensures TraceChecks(trace + [r], |prompt|, capacity) && Traced(trace + [r]) == out + r.emitted
    ensures IsGreedy(next, prompt, out + r.emitted) && Bonus(r) == next(prompt + (out + r.emitted))
    ensures forall x | x in out + r.emitted :: x !in stops
  {
    RoundIsGreedy(next, prompt + out, r, stops);
    GreedyAppend(next, prompt, out, r.emitted);
    Assoc(prompt, out, r.emitted);
    TraceSnoc(trace, r, |prompt|, capacity);
    TracedSnoc(trace, r);
  }

  /** The padded eight-row schedule never leaves its fixed state. */
  predicate PaddedW8(sch: Scheduler) {
    sch.configured == 8 && sch.padW8 && sch.state == Fixed
  }

  /** A schedule in some state of its own, where `scheduler` is how it started. */
  predicate SameSchedule(scheduler: Scheduler, sch: Scheduler) {
    && ValidScheduler(sch) && sch == scheduler.(state := sch.state)
    && (PaddedW8(scheduler) ==> sch == scheduler)
  }

  /** A round planned under that schedule passes the validator's tail checks. */
  lemma PlannedTail(sch: Scheduler, plan: Plan, r: Round, available: int, budget: nat, done: nat, treeEnabled: bool)
    requires ValidScheduler(sch) && PaddedW8(sch) && done < budget && done <= available
    requires PlanRound(sch, budget - done, available - done) == Some(plan)
    requires r.logical == plan.logical && |r.greedy| == plan.physical && done + plan.physical <= available
    requires r.tree <==> treeEnabled && plan.logical == 8 && plan.physical == 8
    ensures TailRound(r, available, budget, treeEnabled)
    ensures done == 0 ==> FirstRound(r, available, budget)
  {
  }

  /** The proposal the loop asks for: a tree on the eligible rounds of a tree run, otherwise a chain. */
  function Asked(treeEnabled: bool, plan: Plan, position: nat, capacity: nat, drafts: seq<Token>,
                 tree: Tree): Proposal {
    if treeEnabled && TreeEligible(plan, position, capacity) then Branches(tree) else Drafts(drafts)
  }

  /** Neither the device nor the assistant fails: every round is taken, every proposal has the shape asked for. */
  ghost predicate Unhindered(m: Target, vocab: nat, chain: (nat, Plan) -> seq<Token>, branches: (nat, Token) -> Tree,
                             device: nat -> bool) {
    && InVocab(m, vocab) && (forall i: nat :: device(i))
    && (forall i: nat, plan: Plan | plan.logical > 0 :: |chain(i, plan)| + 1 == plan.logical)
    && (forall i: nat, anchor: Token | anchor < vocab :: RootedTree(branches(i, anchor), anchor, vocab))
  }

  predicate RootedTree(t: Tree, anchor: Token, vocab: nat) {
    ValidTree(t, vocab) && t.tokens[0] == anchor
  }

  /** The cache holds prompt and budget, with six rows to spare for a padded sixteen-row tail. */
  predicate Roomy(scheduler: Scheduler, promptLen: nat, budget: nat, capacity: nat) {
    promptLen + budget + (if scheduler.oneShot then 6 else 0) <= capacity
  }

  lemma NothingInTheWay(m: Target, prompt: seq<Token>, stops: set<Token>, budget: nat, capacity: nat, vocab: nat,
                        scheduler: Scheduler, sch: Scheduler, treeEnabled: bool, out: seq<Token>, anchor: Token,
                        trace: seq<Round>, plan: Plan, chain: (nat, Plan) -> seq<Token>,
                        branches: (nat, Token) -> Tree, device: nat -> bool)
    requires Ongoing(NextToken(m), prompt, stops, budget, capacity, scheduler, sch, treeEnabled, out, anchor, trace)
    requires Unhindered(m, vocab, chain, branches, device) && Roomy(scheduler, |prompt|, budget, capacity)
    requires |out| < budget && |prompt + out| <= capacity
    requires PlanRound(sch, budget - |out|, capacity - |prompt + out|) == Some(plan)
    ensures RoundCanRun(anchor, plan,
                        Asked(treeEnabled, plan, |prompt + out|, capacity, chain(|trace|, plan),
                              branches(|trace|, anchor)),
                        vocab, |prompt + out|, capacity, device(|trace|))
  {
    PlannedFitsIff(sch, budget - |out|, capacity - |prompt + out|);
    assert anchor < vocab && RootedTree(branches(|trace|, anchor), anchor, vocab);
    assert |chain(|trace|, plan)| + 1 == plan.logical;
  }

  /** The loop from the prefilled state, for any assistant and any scheduler. A completed run is the target's
      greedy output cut at the budget or at the target's own stop, with a consistent trace whose cursor is
      the one the cache really has; under the padded eight-row schedule it passes the whole validator. It
      completes whenever neither device nor assistant fails and the cache is roomy enough. */
  method Generate(s: Session, m: Target, prompt: seq<Token>, first: Token, budget: nat, stops: set<Token>, vocab: nat,
                  scheduler: Scheduler, treeEnabled: bool, chain: (nat, Plan) -> seq<Token>,
                  branches: (nat, Token) -> Tree, device: nat -> bool)
    returns (r: Result<Generation>)
    requires s.Valid(m) && s.committed == prompt && first == NextToken(m)(prompt)
    requires ValidScheduler(scheduler)
    modifies s, s.slots
    ensures s.Valid(m)
    ensures treeEnabled && scheduler.configured != 8 ==> r.Err?
    ensures r.Ok? ==>
              && s.committed == prompt + Traced(r.value.trace)
              && Completed(NextToken(m), prompt, stops, budget, s.slots.Length, r.value)
              && r.value.configured == scheduler.configured && r.value.padded == scheduler.padW8
              && WellPlanned(scheduler, r.value.trace, |prompt| + budget, s.slots.Length, treeEnabled)
    ensures r.Ok? && scheduler.padW8 ==>
              Checks(r.value, |prompt|, s.slots.Length, budget, |s.committed|, treeEnabled)
    ensures Unhindered(m, vocab, chain, branches, device)
            && |prompt| + budget + (if scheduler.oneShot then 6 else 0) <= s.slots.Length ==>
              (r.Ok? <==> !treeEnabled || scheduler.configured == 8)
  {
    if treeEnabled && scheduler.configured != 8 {
      return Err;
    }
    var run := GenerateRounds(s, m, prompt, first, budget, stops, vocab, scheduler, treeEnabled, chain, branches,
                              device);
    if run.Err? {
      return Err;
    }
    var (tokens, trace, stop) := run.value;
    r := Ok(Generation(tokens, trace, stop, scheduler.configured, scheduler.padW8));
  }

  method GenerateRounds(s: Session, m: Target, prompt: seq<Token>, first: Token, budget: nat, stops: set<Token>,
                        vocab: nat, scheduler: Scheduler, treeEnabled: bool, chain: (nat, Plan) -> seq<Token>,
                        branches: (nat, Token) -> Tree, device: nat -> bool)
    returns (r: Result<(seq<Token>, seq<Round>, Option<Token>)>)
    requires s.Valid(m) && s.committed == prompt && first == NextToken(m)(prompt)
    requires ValidScheduler(scheduler)
    modifies s, s.slots
    ensures s.Valid(m)
    ensures r.Ok? ==>
              && s.committed == prompt + Traced(r.value.1)
              && Ends(NextToken(m), prompt, stops, budget, s.slots.Length, r.value.0, r.value.1, r.value.2)
              && TailSoFar(scheduler, r.value.1, s.slots.Length - |prompt|, budget, treeEnabled)
              && WellPlanned(scheduler, r.value.1, |prompt| + budget, s.slots.Length, treeEnabled)
    ensures Unhindered(m, vocab, chain, branches, device) && Roomy(scheduler, |prompt|, budget, s.slots.Length) ==>
              r.Ok?
  {
    var out: seq<Token>, trace: seq<Round>, anchor, sch := [], [], first, scheduler;
    ghost var next, capacity := NextToken(m), s.slots.Length;
    assert prompt + out == prompt;
    while |out| < budget
      invariant s.Valid(m) && s.committed == prompt + out
      invariant Ongoing(next, prompt, stops, budget, capacity, scheduler, sch, treeEnabled, out, anchor, trace)
      invariant OnSchedule(scheduler, sch, trace, |prompt| + budget, capacity, treeEnabled)
      decreases budget - |out|
    {
      if anchor in stops {
        AnchorStops(next, prompt, stops, budget, capacity, out, anchor, trace);
        return Ok((out, trace, Some(anchor)));
      }
      var plan := PlanRound(sch, budget - |out|, s.slots.Length - s.filled);
      if plan.None? {
        FreeBonus(next, prompt, stops, budget, capacity, out, anchor, trace);
        return Ok((out + [anchor], trace, None));
      }
      var drafts, tree := chain(|trace|, plan.value), branches(|trace|, anchor);
      if Unhindered(m, vocab, chain, branches, device) && Roomy(scheduler, |prompt|, budget, capacity) {
        NothingInTheWay(m, prompt, stops, budget, capacity, vocab, scheduler, sch, treeEnabled, out, anchor, trace,
                        plan.value, chain, branches, device);
      }
      var done;
      done, sch := NextRound(s, m, prompt, out, anchor, trace, budget, stops, vocab, scheduler, sch, plan.value,
                             treeEnabled, drafts, tree, device(|trace|));
      if done.Err? {
        return Err;
      }
      out, trace := out + done.value.emitted, trace + [done.value];
      if done.value.decision.stop.Some? {
        return Ok((out, trace, done.value.decision.stop));
      }
      anchor := done.value.decision.next.value;
    }
    BudgetSpent(next, prompt, stops, budget, capacity, out, anchor, trace);
    r := Ok((out, trace, None));
  }

  /** One planned round of the loop, and the schedule after it. */
  method NextRound(s: Session, m: Target, ghost prompt: seq<Token>, ghost out: seq<Token>, anchor: Token,
                   ghost trace: seq<Round>, ghost budget: nat, stops: set<Token>, vocab: nat,
                   ghost scheduler: Scheduler, sch: Scheduler, plan: Plan, treeEnabled: bool, drafts: seq<Token>,
                   tree: Tree, device: bool)
    returns (r: Result<Round>, next: Scheduler)
    requires s.Valid(m) && s.committed == prompt + out && |out| < budget && anchor !in stops
    requires Ongoing(NextToken(m), prompt, stops, budget, s.slots.Length, scheduler, sch, treeEnabled, out, anchor,
                     trace)
    requires OnSchedule(scheduler, sch, trace, |prompt| + budget, s.slots.Length, treeEnabled)
    requires PlanRound(sch, budget - |out|, s.slots.Length - s.filled) == Some(plan)
    modifies s, s.slots
    ensures s.Valid(m)
    ensures r.Ok? ==> r.value.emitted != [] && s.committed == prompt + (out + r.value.emitted)
    ensures r.Ok? ==>
              Stepped(NextToken(m), prompt, stops, budget, s.slots.Length, scheduler, next, treeEnabled,
                      out + r.value.emitted, trace + [r.value], r.value.decision)
    ensures r.Ok? ==>
              OnSchedule(scheduler, next, trace + [r.value], |prompt| + budget, s.slots.Length, treeEnabled)
    ensures InVocab(m, vocab)
            && RoundCanRun(anchor, plan, Asked(treeEnabled, plan, old(s.filled), s.slots.Length, drafts, tree), vocab,
                           old(s.filled), s.slots.Length, device)
            ==> r.Ok?
  {
    next := sch;
    var proposal := Asked(treeEnabled, plan, s.filled, s.slots.Length, drafts, tree);
    r := RunRound(s, m, anchor, plan, proposal, stops, vocab, device);
    if r.Err? {
      return;
    }
    RoundDone(m, prompt, stops, budget, s.slots.Length, scheduler, sch, treeEnabled, out, anchor, trace, plan,
              proposal.Branches?, s.committed, r.value);
    next := FinishRound(sch, plan, |r.value.decision.path| - 1, r.value.decision.stop.Some?).value;
  }

  /** What the rounds so far leave on record for the schedule. */
  function Trail(trace: seq<Round>): (h: seq<Ran>)
    requires forall r | r in trace :: r.decision.path != []
    ensures |h| == |trace|
  {
    seq(|trace|, i requires 0 <= i < |trace| => Entry(trace[i]))
  }

  function Entry(r: Round): Ran
    requires r.decision.path != []
  {
    Ran(r.scheduled, r.logical, |r.decision.path| - 1, r.decision.stop.Some?)
  }

  /** The round has the rows planned for the outputs up to `end` and the positions up to `capacity`, and is a tree
      exactly when trees are enabled and all eight of its eight rows are live. */
  predicate PlannedAs(sch: Scheduler, r: Round, end: nat, capacity: nat, treeEnabled: bool) {
    && ValidScheduler(sch) && r.position <= end && r.position <= capacity
    && PlanRound(sch, end - r.position, capacity - r.position)
       == Some(Plan(r.scheduled, r.logical, |r.greedy|, sch.state))
    && (r.tree <==> treeEnabled && r.logical == 8 && |r.greedy| == 8)
  }

  ghost predicate PlannedAt(scheduler: Scheduler, trace: seq<Round>, i: nat, end: nat, capacity: nat,
                            treeEnabled: bool)
    requires forall r | r in trace :: r.decision.path != []
  {
    i < |trace| && PlannedAs(After(scheduler, Trail(trace)[..i]), trace[i], end, capacity, treeEnabled)
  }

  /** Every round was planned by the schedule its predecessors left. */
  ghost predicate WellPlanned(scheduler: Scheduler, trace: seq<Round>, end: nat, capacity: nat, treeEnabled: bool) {
    && (forall r | r in trace :: r.decision.path != []) && Recorded(scheduler, Trail(trace))
    && forall i: nat | i < |trace| :: PlannedAt(scheduler, trace, i, end, capacity, treeEnabled)
  }

  /** And `sch` is the schedule they all leave. */
  ghost predicate OnSchedule(scheduler: Scheduler, sch: Scheduler, trace: seq<Round>, end: nat, capacity: nat,
                             treeEnabled: bool) {
    WellPlanned(scheduler, trace, end, capacity, treeEnabled) && sch == After(scheduler, Trail(trace))
  }

  lemma OnScheduleSnoc(scheduler: Scheduler, sch: Scheduler, trace: seq<Round>, plan: Plan, r: Round, next: Scheduler,
                       end: nat, capacity: nat, treeEnabled: bool)
    requires OnSchedule(scheduler, sch, trace, end, capacity, treeEnabled)
    requires r.decision.path != [] && |r.decision.path| <= r.logical
    requires r.scheduled == plan.scheduled == Scheduled(sch) && r.logical == plan.logical
    requires PlannedAs(sch, r, end, capacity, treeEnabled)
    requires FinishRound(sch, plan, |r.decision.path| - 1, r.decision.stop.Some?) == Some(next)
    ensures OnSchedule(scheduler, next, trace + [r], end, capacity, treeEnabled)
  {
    var h, e := Trail(trace), Entry(r);
    var more := trace + [r];
    assert Trail(more) == h + [e];
    RecordedSnoc(scheduler, h, e);
    assert (h + [e])[..|h|] == h;
    forall i: nat | i < |more|
      ensures PlannedAt(scheduler, more, i, end, capacity, treeEnabled)
    {
      assert (h + [e])[..i] == h[..i];
      assert i < |trace| ==> PlannedAt(scheduler, trace, i, end, capacity, treeEnabled);
      assert h[..|h|] == h;
    }
  }

  lemma RoundDone(m: Target, prompt: seq<Token>, stops: set<Token>, budget: nat, capacity: nat, scheduler: Scheduler,
                  sch: Scheduler, treeEnabled: bool, out: seq<Token>, anchor: Token, trace: seq<Round>, plan: Plan,
                  tree: bool, after: seq<Token>, r: Round)
    requires Ongoing(NextToken(m), prompt, stops, budget, capacity, scheduler, sch, treeEnabled, out, anchor, trace)
    requires OnSchedule(scheduler, sch, trace, |prompt| + budget, capacity, treeEnabled)
    requires |out| < budget && anchor !in stops && |prompt + out| <= capacity
    requires PlanRound(sch, budget - |out|, capacity - |prompt + out|) == Some(plan)
    requires RanRound(m, prompt + out, after, capacity, anchor, plan, tree, stops, r) && |after| <= capacity
    requires tree <==> treeEnabled && TreeEligible(plan, |prompt + out|, capacity)
    ensures r.emitted != [] && after == prompt + (out + r.emitted)
    ensures r.decision.path != []
    ensures var moved := FinishRound(sch, plan, |r.decision.path| - 1, r.decision.stop.Some?);
            && moved.Some?
            && Stepped(NextToken(m), prompt, stops, budget, capacity, scheduler, moved.value, treeEnabled,
                       out + r.emitted, trace + [r], r.decision)
            && OnSchedule(scheduler, moved.value, trace + [r], |prompt| + budget, capacity, treeEnabled)
  {
    AfterRound(m, prompt, stops, budget, capacity, scheduler, sch, treeEnabled, out, anchor, trace, plan, tree, after,
               r);
    var next := FinishRound(sch, plan, |r.decision.path| - 1, r.decision.stop.Some?).value;
    OnScheduleSnoc(scheduler, sch, trace, plan, r, next, |prompt| + budget, capacity, treeEnabled);
  }

  /** Trees and padded tails of a whole run, without its schedule: a tree is a full eight-row round of a tree run;
      padding is the tail that keeps its width and leaves one output for the free bonus. */
  lemma RoundRows(scheduler: Scheduler, trace: seq<Round>, i: nat, end: nat, capacity: nat, treeEnabled: bool)
    requires WellPlanned(scheduler, trace, end, capacity, treeEnabled) && i < |trace|
    ensures var r := trace[i];
            && (r.tree <==> treeEnabled && r.logical == 8 && |r.greedy| == 8)
            && |r.greedy| in {2, 4, 8, 16} && |r.greedy| <= r.scheduled && 2 <= r.logical <= end - r.position
            && (r.logical < |r.greedy| ==>
                  r.logical == end - r.position - 1 && |r.greedy| == r.scheduled && r.scheduled in {8, 16})
            && (r.logical == |r.greedy| && r.logical < r.scheduled ==> end - r.position < 2 * r.logical)
  {
    assert PlannedAt(scheduler, trace, i, end, capacity, treeEnabled);
  }

  /** Sixteen rows are planned in an adaptive run exactly when they have been earned and not lost, and in a one-shot
      run exactly after the first round that counts; otherwise eight. */
  lemma PlannedWidths(adaptive: bool, pad: bool, scheduler: Scheduler, trace: seq<Round>, i: nat, end: nat,
                      capacity: nat, treeEnabled: bool)
    requires Start(16, adaptive, !adaptive, pad) == Ok(scheduler)
    requires WellPlanned(scheduler, trace, end, capacity, treeEnabled) && i < |trace|
    ensures trace[i].scheduled
            == if (if adaptive then Earned(Trail(trace)[..i]) else AnyCounts(Trail(trace)[..i])) then 16 else 8
  {
    var h := Trail(trace);
    assert RecordedAt(scheduler, h, i) && h[i] == Entry(trace[i]);
    RecordedPrefix(scheduler, h, i);
    if adaptive {
      AdaptiveWidths(scheduler, pad, h[..i]);
    } else {
      OneShotWidths(scheduler, pad, h[..i]);
    }
  }

  /** Between rounds, with the schedule the next one is planned under. */
  ghost predicate Ongoing(next: seq<Token> -> Token, prompt: seq<Token>, stops: set<Token>, budget: nat, capacity: nat,
                          scheduler: Scheduler, sch: Scheduler, treeEnabled: bool, out: seq<Token>, anchor: Token,
                          trace: seq<Round>)
  {
    && SameSchedule(scheduler, sch)
    && Going(next, prompt, stops, budget, capacity, out, anchor, trace)
    && TailSoFar(scheduler, trace, capacity - |prompt|, budget, treeEnabled)
  }

  /** After a round: still going, or ended at the target's stop. */
  ghost predicate Stepped(next: seq<Token> -> Token, prompt: seq<Token>, stops: set<Token>, budget: nat, capacity: nat,
                          scheduler: Scheduler, sch: Scheduler, treeEnabled: bool, out: seq<Token>, trace: seq<Round>,
                          d: Decision)
  {
    && Traced(trace) == out
    && match d.stop
       case None =>
         && d.next.Some?
         && Ongoing(next, prompt, stops, budget, capacity, scheduler, sch, treeEnabled, out, d.next.value, trace)
       case Some(_) =>
         && Ends(next, prompt, stops, budget, capacity, out, trace, d.stop)
         && TailSoFar(scheduler, trace, capacity - |prompt|, budget, treeEnabled)
  }

  lemma RoundSteps(m: Target, prompt: seq<Token>, stops: set<Token>, budget: nat, capacity: nat, scheduler: Scheduler,
                   sch: Scheduler, next: Scheduler, treeEnabled: bool, out: seq<Token>, anchor: Token,
                   trace: seq<Round>, plan: Plan, tree: bool, after: seq<Token>, r: Round)
    requires Ongoing(NextToken(m), prompt, stops, budget, capacity, scheduler, sch, treeEnabled, out, anchor, trace)
    requires SameSchedule(scheduler, next)
    requires |out| < budget && anchor !in stops && |prompt + out| <= capacity
    requires PlanRound(sch, budget - |out|, capacity - |prompt + out|) == Some(plan)
    requires RanRound(m, prompt + out, after, capacity, anchor, plan, tree, stops, r) && |after| <= capacity
    requires tree <==> treeEnabled && TreeEligible(plan, |prompt + out|, capacity)
    ensures r.emitted != [] && after == prompt + (out + r.emitted)
    ensures Stepped(NextToken(m), prompt, stops, budget, capacity, scheduler, next, treeEnabled, out + r.emitted,
                    trace + [r], r.decision)
  {
    Assoc(prompt, out, r.emitted);
    RoundGoesOnOrEnds(NextToken(m), prompt, stops, budget, capacity, out, anchor, trace, r);
    TailGrows(scheduler, sch, plan, trace, r, capacity - |prompt|, budget, |out|, treeEnabled);
  }

  /** A round that ran moves the schedule; the padded eight-row schedule stays where it is. */
  lemma ScheduleMoves(scheduler: Scheduler, sch: Scheduler, plan: Plan, remaining: nat, available: nat, r: Round)
    requires SameSchedule(scheduler, sch) && remaining > 0
    requires PlanRound(sch, remaining, available) == Some(plan)
    requires Auditable(r) && r.logical == plan.logical
    ensures r.decision.path != [] && |r.decision.path| <= r.logical
    ensures var moved := FinishRound(sch, plan, |r.decision.path| - 1, r.decision.stop.Some?);
            moved.Some? && SameSchedule(scheduler, moved.value)
  {
    PathWithin(r);
  }

  lemma AfterRound(m: Target, prompt: seq<Token>, stops: set<Token>, budget: nat, capacity: nat, scheduler: Scheduler,
                   sch: Scheduler, treeEnabled: bool, out: seq<Token>, anchor: Token, trace: seq<Round>, plan: Plan,
                   tree: bool, after: seq<Token>, r: Round)
    requires Ongoing(NextToken(m), prompt, stops, budget, capacity, scheduler, sch, treeEnabled, out, anchor, trace)
    requires |out| < budget && anchor !in stops && |prompt + out| <= capacity
    requires PlanRound(sch, budget - |out|, capacity - |prompt + out|) == Some(plan)
    requires RanRound(m, prompt + out, after, capacity, anchor, plan, tree, stops, r) && |after| <= capacity
    requires tree <==> treeEnabled && TreeEligible(plan, |prompt + out|, capacity)
    ensures r.emitted != [] && after == prompt + (out + r.emitted)
    ensures r.decision.path != [] && |r.decision.path| <= r.logical && r.logical == plan.logical
    ensures r.scheduled == plan.scheduled == Scheduled(sch)
    ensures PlannedAs(sch, r, |prompt| + budget, capacity, treeEnabled)
    ensures var moved := FinishRound(sch, plan, |r.decision.path| - 1, r.decision.stop.Some?);
            && moved.Some?
            && Stepped(NextToken(m), prompt, stops, budget, capacity, scheduler, moved.value, treeEnabled,
                       out + r.emitted, trace + [r], r.decision)
  {
    ScheduleMoves(scheduler, sch, plan, budget - |out|, capacity - |prompt + out|, r);
    var next := FinishRound(sch, plan, |r.decision.path| - 1, r.decision.stop.Some?).value;
    RoundSteps(m, prompt, stops, budget, capacity, scheduler, sch, next, treeEnabled, out, anchor, trace, plan, tree,
               after, r);
  }

  /** Committed rows are distinct eligible rows, so the scheduler's refusal is unreachable. */
  lemma PathWithin(r: Round)
    requires Auditable(r)
    ensures 0 < |r.decision.path| <= r.logical
  {
    ChainIsPath(r.batch, r.decision.path);
    assert |r.decision.path| - 1 <= r.decision.path[|r.decision.path| - 1];
  }

  ghost predicate TailSoFar(scheduler: Scheduler, trace: seq<Round>, available: int, budget: nat, treeEnabled: bool) {
    PaddedW8(scheduler) ==> TailChecks(trace, available, budget, treeEnabled)
  }

  lemma TailGrows(scheduler: Scheduler, sch: Scheduler, plan: Plan, trace: seq<Round>, r: Round, available: int,
                  budget: nat, done: nat, treeEnabled: bool)
    requires SameSchedule(scheduler, sch) && done < budget && done <= available
    requires TailSoFar(scheduler, trace, available, budget, treeEnabled) && (trace == [] ==> done == 0)
    requires PlanRound(sch, budget - done, available - done) == Some(plan)
    requires r.logical == plan.logical && |r.greedy| == plan.physical && done + plan.physical <= available
    requires r.tree <==> treeEnabled && plan.logical == 8 && plan.physical == 8
    ensures TailSoFar(scheduler, trace + [r], available, budget, treeEnabled)
  {
    if PaddedW8(scheduler) {
      PlannedTail(sch, plan, r, available, budget, done, treeEnabled);
    }
  }

  /** A finished generation that is faithful and consistent, with the cache's own cursor. */
  ghost predicate Completed(next: seq<Token> -> Token, prompt: seq<Token>, stops: set<Token>, budget: nat,
                            capacity: nat, g: Generation) {
    && Faithful(next, prompt, stops, budget, g)
    && Consistent(g, |prompt|, capacity, budget, |prompt| + |Traced(g.trace)|)
  }

  /** Whatever its schedule was, a run that ends like this completes. */
  ghost predicate Ends(next: seq<Token> -> Token, prompt: seq<Token>, stops: set<Token>, budget: nat, capacity: nat,
                       tokens: seq<Token>, trace: seq<Round>, stop: Option<Token>) {
    forall w: nat, p: bool :: Completed(next, prompt, stops, budget, capacity, Generation(tokens, trace, stop, w, p))
  }

  lemma AnchorStops(next: seq<Token> -> Token, prompt: seq<Token>, stops: set<Token>, budget: nat, capacity: nat,
                    out: seq<Token>, anchor: Token, trace: seq<Round>)
    requires Going(next, prompt, stops, budget, capacity, out, anchor, trace) && anchor in stops
    requires |prompt + out| <= capacity
    ensures Ends(next, prompt, stops, budget, capacity, out, trace, Some(anchor))
  {
  }

  lemma BudgetSpent(next: seq<Token> -> Token, prompt: seq<Token>, stops: set<Token>, budget: nat, capacity: nat,
                    out: seq<Token>, anchor: Token, trace: seq<Round>)
    requires Going(next, prompt, stops, budget, capacity, out, anchor, trace) && |out| == budget
    requires |prompt + out| <= capacity
    ensures Ends(next, prompt, stops, budget, capacity, out, trace, None)
  {
  }

  lemma RoundGoesOnOrEnds(next: seq<Token> -> Token, prompt: seq<Token>, stops: set<Token>, budget: nat,
                          capacity: nat, out: seq<Token>, anchor: Token, trace: seq<Round>, r: Round)
    requires Going(next, prompt, stops, budget, capacity, out, anchor, trace) && anchor !in stops
    requires Auditable(r) && r.batch.tokens[0] == anchor && Truthful(next, prompt + out, r.batch, r.greedy)
    requires Decides(r.batch, r.greedy, stops, r.logical, r.decision)
    requires r.position == |prompt + out| && r.position + |r.greedy| <= capacity
    requires |out| + r.logical <= budget
    ensures r.emitted != [] && |out + r.emitted| <= budget && Traced(trace + [r]) == out + r.emitted
    ensures r.decision.stop == None ==>
              r.decision.next.Some? &&
              Going(next, prompt, stops, budget, capacity, out + r.emitted, r.decision.next.value, trace + [r])
    ensures r.decision.stop != None && |prompt + (out + r.emitted)| <= capacity ==>
              Ends(next, prompt, stops, budget, capacity, out + r.emitted, trace + [r], r.decision.stop)
  {
    RoundKeepsGoing(next, prompt, stops, budget, capacity, out, anchor, trace, r);
  }

  lemma FreeBonus(next: seq<Token> -> Token, prompt: seq<Token>, stops: set<Token>, budget: nat,
                  capacity: nat, out: seq<Token>, anchor: Token, trace: seq<Round>)
    requires Going(next, prompt, stops, budget, capacity, out, anchor, trace) && anchor !in stops
    requires |out| + 1 == budget && |prompt + out| <= capacity
    ensures Ends(next, prompt, stops, budget, capacity, out + [anchor], trace, None)
  {
    assert (prompt + out) + [anchor][..0] == prompt + out;
    assert GreedyAt(next, prompt + out, [anchor], 0);
    GreedyAppend(next, prompt, out, [anchor]);
    if trace == [] {
      assert out == [];
    }
  }

  /** The next chunk of a prompt of which `left` tokens are left. */
  function ChunkWidth(left: nat): (w: nat)
    requires left > 0
    ensures w == if left >= 16 then 16 else if left >= 8 then 8 else if left >= 4 then 4 else if left >= 2 then 2 else 1
  {
    match TailWidth(16, left)
    case Some(w) => w
    case None => 1
  }

  /** How many chunks a prompt takes. */
  function ChunkCount(left: nat): nat {
    if left == 0 then 0 else 1 + ChunkCount(left - ChunkWidth(left))
  }

  /** Start a sequence: the prompt goes through the cache in verifier-width chunks, each committed whole, and
      the last row's prediction is the first greedy token. A chunk that does not fit, or that the device
      refuses, leaves the chunks before it committed. */
  method Prefill(s: Session, m: Target, prompt: seq<Token>, device: nat -> bool) returns (first: Result<Token>)
    requires s.Valid(m)
    modifies s, s.slots
    ensures s.Valid(m)
    ensures first.Ok? <==>
            0 < |prompt| <= s.slots.Length && forall i: nat | i < ChunkCount(|prompt|) :: device(i)
    ensures first.Ok? ==> s.committed == prompt && first.value == NextToken(m)(prompt)
    ensures first.Err? ==> if prompt == [] then s.committed == old(s.committed) else s.committed < prompt
  {
    if prompt == [] {
      return Err;
    }
    s.Reset();
    var calls: nat := 0;
    while true
      invariant s.Valid(m) && s.filled < |prompt| && s.committed == prompt[..s.filled]
      invariant calls + ChunkCount(|prompt| - s.filled) == ChunkCount(|prompt|)
      invariant forall i: nat | i < calls :: device(i)
      decreases |prompt| - s.filled
    {
      var last := PrefillNext(s, m, prompt, device(calls));
      if last.Err? {
        return Err;
      }
      calls := calls + 1;
      if s.filled == |prompt| {
        assert prompt[..|prompt|] == prompt;
        return last;
      }
    }
  }

  /** The next chunk of a prompt that is partly committed. */
  method PrefillNext(s: Session, m: Target, prompt: seq<Token>, device: bool) returns (last: Result<Token>)
    requires s.Valid(m) && s.filled < |prompt| && s.committed == prompt[..s.filled]
    modifies s, s.slots
    ensures s.Valid(m)
    ensures last.Ok? <==> old(s.filled) + ChunkWidth(|prompt| - old(s.filled)) <= s.slots.Length && device
    ensures last.Err? ==> s.committed == old(s.committed) && s.filled == old(s.filled)
    ensures last.Ok? ==>
              && s.filled == old(s.filled) + ChunkWidth(|prompt| - old(s.filled)) && s.committed == prompt[..s.filled]
              && last.value == NextToken(m)(s.committed)
  {
    var done := s.filled;
    var width := ChunkWidth(|prompt| - done);
    last := PrefillChunk(s, m, prompt[done..done + width], device);
    assert prompt[..done + width] == prompt[..done] + prompt[done..done + width];
  }

  /** A chunk as a linear batch, and the rows it commits: all of them. */
  function ChunkBatch(chunk: seq<Token>): Tree
    requires chunk != []
  {
    Linear(chunk[0], chunk[1..])
  }

  function EveryRow(n: nat): seq<nat> {
    seq(n, i => i)
  }

  /** A linear batch is one chain through all of its rows. */
  lemma LinearPath(chunk: seq<Token>)
    requires chunk != []
    ensures var batch, path := ChunkBatch(chunk), EveryRow(|chunk|);
            WellFormed(batch) && batch.tokens == chunk && Chain(batch, path) && PathTokens(batch, path) == chunk
  {
  }

  lemma ChunkPredicts(next: seq<Token> -> Token, committed: seq<Token>, chunk: seq<Token>, greedy: seq<Token>)
    requires chunk != [] && WellFormed(ChunkBatch(chunk)) && Truthful(next, committed, ChunkBatch(chunk), greedy)
    ensures |greedy| == |chunk| && greedy[|chunk| - 1] == next(committed + chunk)
  {
    LinearPath(chunk);
    TruthAtEnd(next, committed, ChunkBatch(chunk), greedy, EveryRow(|chunk|));
  }

  method VerifyChunk(s: Session, m: Target, chunk: seq<Token>) returns (last: Token)
    requires s.Valid(m) && chunk != [] && WellFormed(ChunkBatch(chunk))
    requires s.filled + |ChunkBatch(chunk).tokens| <= s.slots.Length
    modifies s.slots
    ensures s.Valid(m) && last == NextToken(m)(s.committed + chunk)
    ensures NodeRows(m, s.committed, ChunkBatch(chunk), s.slots[s.filled..s.filled + |ChunkBatch(chunk).tokens|])
  {
    var greedy, _ := s.VerifyTree(m, ChunkBatch(chunk));
    ChunkPredicts(NextToken(m), s.committed, chunk, greedy);
    last := greedy[|chunk| - 1];
  }

  lemma LinearBatch(chunk: seq<Token>)
    requires chunk != []
    ensures WellFormed(ChunkBatch(chunk)) && |ChunkBatch(chunk).tokens| == |chunk|
  {
  }

  method CommitChunk(s: Session, m: Target, chunk: seq<Token>)
    requires s.Valid(m) && chunk != [] && WellFormed(ChunkBatch(chunk))
    requires s.filled + |ChunkBatch(chunk).tokens| <= s.slots.Length
    requires NodeRows(m, s.committed, ChunkBatch(chunk), s.slots[s.filled..s.filled + |ChunkBatch(chunk).tokens|])
    modifies s, s.slots
    ensures s.Valid(m) && s.committed == old(s.committed) + chunk
  {
    var path := WholePath(chunk);
    s.CommitPath(m, ChunkBatch(chunk), path);
  }

  method WholePath(chunk: seq<Token>) returns (path: seq<nat>)
    requires chunk != [] && WellFormed(ChunkBatch(chunk))
    ensures Chain(ChunkBatch(chunk), path) && PathTokens(ChunkBatch(chunk), path) == chunk
  {
    LinearPath(chunk);
    path := EveryRow(|chunk|);
  }

  method PrefillChunk(s: Session, m: Target, chunk: seq<Token>, device: bool) returns (last: Result<Token>)
    requires s.Valid(m) && chunk != []
    modifies s, s.slots
    ensures s.Valid(m)
    ensures last.Ok? <==> old(s.filled) + |chunk| <= s.slots.Length && device
    ensures last.Err? ==> s.committed == old(s.committed) && s.filled == old(s.filled)
    ensures last.Ok? ==> s.committed == old(s.committed) + chunk && last.value == NextToken(m)(s.committed)
  {
    if s.filled + |chunk| > s.slots.Length {
      return Err;
    }
    LinearBatch(chunk);
    var token := VerifyChunk(s, m, chunk);
    if !device {
      return Err;
    }
    CommitChunk(s, m, chunk);
    last := Ok(token);
  }

  /** The paired qualification (tree drafting off against on, or any two assistants, schedules and tail
      policies): same tokens, same public termination, same natural stop; cursors differ by at most the
      one unforwarded bonus, and only when both runs ended at the budget. */
  lemma PairParity(next: seq<Token> -> Token, prompt: seq<Token>, stops: set<Token>, budget: nat,
                   a: Generation, b: Generation)
    requires Faithful(next, prompt, stops, budget, a) && Faithful(next, prompt, stops, budget, b)
    ensures a.tokens == b.tokens
    ensures |a.tokens| < budget ==> a.terminalStop == b.terminalStop && a.terminalStop.Some?
    ensures var cursorA, cursorB := |prompt| + |Traced(a.trace)|, |prompt| + |Traced(b.trace)|;
            && -1 <= cursorA - cursorB <= 1
            && cursorA + (|a.tokens| - |Traced(a.trace)|) == cursorB + (|b.tokens| - |Traced(b.trace)|)
            && (cursorA != cursorB ==> |a.tokens| == budget)
  {
    if |a.tokens| <= |b.tokens| {
      NoLongerThan(next, prompt, stops, budget, a, b);
    } else {
      NoLongerThan(next, prompt, stops, budget, b, a);
    }
  }

  lemma NoLongerThan(next: seq<Token> -> Token, prompt: seq<Token>, stops: set<Token>, budget: nat,
                     a: Generation, b: Generation)
    requires Faithful(next, prompt, stops, budget, a) && Faithful(next, prompt, stops, budget, b)
    requires |a.tokens| <= |b.tokens|
    ensures a.tokens == b.tokens
  {
    var n := |a.tokens|;
    var after := if n < |b.tokens| then b.tokens[n] else 0;
    assert n < |b.tokens| ==> after !in stops;
    GreedyComparable(next, prompt, a.tokens, b.tokens);
    assert n < |b.tokens| ==> GreedyAt(next, prompt, b.tokens, n);
    assert b.tokens[..|b.tokens|] == b.tokens;
  }

  // ---- The validator ----------------------------------------------------------------------------

  ghost predicate Walked(trace: seq<Round>, i: nat, promptLen: nat, capacity: nat, expected: nat, out: seq<Token>) {
    && i <= |trace| && out == Traced(trace[..i]) && expected == promptLen + |out|
    && forall j | 0 <= j < i :: RoundChecks(trace, j, promptLen, capacity)
  }

  lemma WalkOn(trace: seq<Round>, i: nat, promptLen: nat, capacity: nat, expected: nat, out: seq<Token>)
    requires Walked(trace, i, promptLen, capacity, expected, out) && i < |trace|
    requires RoundChecks(trace, i, promptLen, capacity)
    ensures Walked(trace, i + 1, promptLen, capacity, expected + |trace[i].decision.path|, out + trace[i].emitted)
  {
    assert trace[..i + 1] == trace[..i] + [trace[i]];
    TracedSnoc(trace[..i], trace[i]);
  }

  /** `check_generation` over the fields modelled here, with its running cursor and traced output. */
  method CheckGeneration(g: Generation, promptLen: nat, capacity: nat, budget: nat, cursor: nat, treeEnabled: bool)
    returns (ok: bool)
    ensures ok <==> Checks(g, promptLen, capacity, budget, cursor, treeEnabled)
  {
    if |g.tokens| > budget || g.configured != 8 || !g.padded {
      return false;
    }
    if !TailChecks(g.trace, capacity - promptLen, budget, treeEnabled) {
      return false;
    }
    var expected: nat, out := promptLen, [];
    for i := 0 to |g.trace|
      invariant Walked(g.trace, i, promptLen, capacity, expected, out)
    {
      var r := g.trace[i];
      if !Auditable(r) || r.position != expected || expected + |r.greedy| > capacity
         || (r.decision.stop != None && i + 1 != |g.trace|) {
        assert !RoundChecks(g.trace, i, promptLen, capacity);
        return false;
      }
      WalkOn(g.trace, i, promptLen, capacity, expected, out);
      out, expected := out + r.emitted, expected + |r.decision.path|;
    }
    assert g.trace[..|g.trace|] == g.trace;
    if cursor != expected || cursor > capacity || !(out <= g.tokens) || |g.tokens| > |out| + 1 {
      return false;
    }
    ok := CheckEnd(g, |out|, budget);
  }

  /** The checks on how the generation ended, once its trace has been walked. */
  method CheckEnd(g: Generation, traced: nat, budget: nat) returns (ok: bool)
    requires traced == |Traced(g.trace)| <= |g.tokens|
    ensures ok <==>
              && (g.trace != [] ==> EndChecks(g, g.trace[|g.trace| - 1]))
              && (|g.tokens| > traced ==> g.terminalStop == None && (g.trace == [] ==> budget == 1))
              && (g.terminalStop == None ==> |g.tokens| == budget)
  {
    var bonus := |g.tokens| > traced;
    if bonus && (g.terminalStop != None || (g.trace == [] && budget != 1)) {
      return false;
    }
    if g.terminalStop == None && |g.tokens| != budget {
      return false;
    }
    if g.trace == [] {
      return true;
    }
    var last := g.trace[|g.trace| - 1].decision;
    ok := (last.stop == None || (g.terminalStop == last.stop && last.stop.value !in g.tokens))
          && (!bonus || last.next == Some(g.tokens[|g.tokens| - 1]));
  }
}
