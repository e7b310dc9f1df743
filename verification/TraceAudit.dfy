/** What a generation that passes the validator does and does not establish
    (examples/gemma4_mtp12_validate_tree_tail.rs). */
module TraceAudit {
  import opened Prelude
  import opened TokenTree
  import opened TargetCache
  import opened SpeculativeRun
  import opened MtpGeneration

  // ---- The validator's assertions, one by one -------------------------------------------------------

  /** About round `i`, which must start at `start` and stay below `end`. A round without a tree receipt is a chain. */
  ghost predicate Asserted(g: Generation, i: nat, start: nat, end: nat, treeEnabled: bool)
    requires i < |g.trace|
  {
    var r := g.trace[i];
    var t, path, physical := r.batch, r.decision.path, |r.greedy|;
    && r.position == start && r.position + physical <= end && (physical == 2 || physical == 4 || physical == 8)
    && 0 < |path| <= r.logical <= physical == |t.tokens| == |t.parent| == |t.depth|
    && (forall j | r.logical <= j < physical :: t.tokens[j] == t.tokens[0])
    && (if r.tree then treeEnabled && r.logical == 8 && physical == 8
        else (!treeEnabled || r.logical != 8 || physical != 8) && Straight(t))
    && t.parent[0] == -1 && t.depth[0] == 0
    && (forall row | 0 < row < physical ::
          0 <= t.parent[row] < row && t.depth[row] == t.depth[t.parent[row]] + 1)
    && path[0] == 0 && (forall k | 0 <= k < |path| :: path[k] < r.logical)
    && (forall k | 0 < k < |path| :: t.parent[path[k]] == path[k - 1])
    && |r.emitted| == |path| && (forall k | 0 <= k < |path| :: r.emitted[k] == t.tokens[path[k]])
    && (forall k | 0 < k < |path| :: r.greedy[path[k - 1]] == t.tokens[path[k]])
    && var bonus := r.greedy[path[|path| - 1]];
       match r.decision.stop
       case Some(stop) =>
         && stop == bonus && g.terminalStop == Some(stop) && r.decision.next == None
         && i + 1 == |g.trace| && stop !in g.tokens
       case None => r.decision.next == Some(bonus)
  }

  predicate Straight(t: Tree) {
    forall row | 0 <= row < |t.parent| && row < |t.depth| :: t.parent[row] == row - 1 && t.depth[row] == row
  }

  ghost predicate Passes(g: Generation, promptLen: nat, capacity: nat, budget: nat, cursor: nat, treeEnabled: bool) {
    && g.configured == 8 && g.padded && |g.tokens| <= budget
    && RoundsAsserted(g, promptLen, capacity, treeEnabled)
    && cursor == promptLen + |Traced(g.trace)| && cursor <= capacity
    && EndAsserted(g, budget) && TailAsserted(g, capacity - promptLen, budget)
  }

  /** About the rounds, each starting where the one before it ended. */
  ghost predicate RoundsAsserted(g: Generation, promptLen: nat, capacity: nat, treeEnabled: bool) {
    forall i | 0 <= i < |g.trace| :: Asserted(g, i, promptLen + |Traced(g.trace[..i])|, capacity, treeEnabled)
  }

  /** About how the generation ended: at most one token beyond the traced ones, a free bonus the last round named. */
  ghost predicate EndAsserted(g: Generation, budget: nat) {
    var out, n := Traced(g.trace), |g.trace|;
    && out <= g.tokens && |g.tokens| - |out| <= 1
    && (|g.tokens| - |out| == 1 ==>
          && g.terminalStop == None
          && if n > 0 then g.trace[n - 1].decision.next == Some(g.tokens[|g.tokens| - 1]) else budget == 1)
    && (g.terminalStop == None ==> |g.tokens| == budget)
  }

  /** About the padded tail: on short runs a single padded first round and no trees, on the shortest no padding. */
  ghost predicate TailAsserted(g: Generation, available: int, budget: nat) {
    && (g.trace != [] && available >= 8 && 5 <= budget <= 8 ==>
          g.trace[0].logical == budget - 1 && |g.trace[0].greedy| == 8)
    && (available < 8 || budget <= 4 ==>
          forall i | 0 <= i < |g.trace| :: g.trace[i].logical == |g.trace[i].greedy|)
    && (budget <= 8 || available < 8 ==> forall i | 0 <= i < |g.trace| :: !g.trace[i].tree)
  }

  lemma StraightIff(t: Tree)
    ensures t.tokens != [] ==>
            (t == Linear(t.tokens[0], t.tokens[1..])
             <==> |t.tokens| == |t.parent| == |t.depth| && Straight(t))
  {
    if t.tokens == [] {
      return;
    }
    var l := Linear(t.tokens[0], t.tokens[1..]);
    assert l.tokens == t.tokens;
    if |t.tokens| == |t.parent| == |t.depth| && Straight(t) {
      assert t.parent == l.parent && t.depth == l.depth;
    }
  }

  /** For one round: what the loop checks of it, its width and tree rules, and its stop rule. */
  ghost predicate Checked(g: Generation, i: nat, promptLen: nat, capacity: nat, treeEnabled: bool)
    requires i < |g.trace|
  {
    var r := g.trace[i];
    && RoundChecks(g.trace, i, promptLen, capacity) && |r.greedy| <= 8
    && (r.tree ==> treeEnabled) && (treeEnabled && r.logical == 8 && |r.greedy| == 8 ==> r.tree)
    && (r.decision.stop != None ==> g.terminalStop == r.decision.stop && r.decision.stop.value !in g.tokens)
  }

  lemma CheckedIsAsserted(g: Generation, i: nat, promptLen: nat, capacity: nat, treeEnabled: bool)
    requires i < |g.trace| && Checked(g, i, promptLen, capacity, treeEnabled)
    ensures Asserted(g, i, promptLen + |Traced(g.trace[..i])|, capacity, treeEnabled)
  {
    var r := g.trace[i];
    StraightIff(r.batch);
    ChainIsPath(r.batch, r.decision.path);
    assert 0 < |r.decision.path| <= r.decision.path[|r.decision.path| - 1] + 1;
  }

  lemma AssertedIsChecked(g: Generation, i: nat, promptLen: nat, capacity: nat, treeEnabled: bool)
    requires i < |g.trace| && Asserted(g, i, promptLen + |Traced(g.trace[..i])|, capacity, treeEnabled)
    ensures Checked(g, i, promptLen, capacity, treeEnabled)
  {
    var r := g.trace[i];
    StraightIff(r.batch);
    assert WellFormed(r.batch) && Chain(r.batch, r.decision.path);
    assert r.emitted == PathTokens(r.batch, r.decision.path);
    assert r.decision.stop == None || r.decision.stop == Some(Bonus(r));
  }

  lemma RoundOfChecks(g: Generation, promptLen: nat, capacity: nat, budget: nat, cursor: nat, treeEnabled: bool, i: nat)
    requires Checks(g, promptLen, capacity, budget, cursor, treeEnabled) && i < |g.trace|
    ensures Asserted(g, i, promptLen + |Traced(g.trace[..i])|, capacity, treeEnabled)
  {
    assert RoundChecks(g.trace, i, promptLen, capacity);
    assert TailRound(g.trace[i], capacity - promptLen, budget, treeEnabled);
    assert g.trace[i].decision.stop != None ==> g.trace[i] == g.trace[|g.trace| - 1];
    CheckedIsAsserted(g, i, promptLen, capacity, treeEnabled);
  }

  lemma RoundsOfChecks(g: Generation, promptLen: nat, capacity: nat, budget: nat, cursor: nat, treeEnabled: bool)
    requires Checks(g, promptLen, capacity, budget, cursor, treeEnabled)
    ensures RoundsAsserted(g, promptLen, capacity, treeEnabled)
  {
    forall i: nat | i < |g.trace|
      ensures Asserted(g, i, promptLen + |Traced(g.trace[..i])|, capacity, treeEnabled)
    {
      RoundOfChecks(g, promptLen, capacity, budget, cursor, treeEnabled, i);
    }
  }

  lemma ChecksArePasses(g: Generation, promptLen: nat, capacity: nat, budget: nat, cursor: nat, treeEnabled: bool)
    requires Checks(g, promptLen, capacity, budget, cursor, treeEnabled)
    ensures Passes(g, promptLen, capacity, budget, cursor, treeEnabled)
  {
    RoundsOfChecks(g, promptLen, capacity, budget, cursor, treeEnabled);
    TailsOfChecks(g, promptLen, capacity, budget, treeEnabled);
    EndOfChecks(g, promptLen, capacity, budget, cursor);
  }

  lemma EndOfChecks(g: Generation, promptLen: nat, capacity: nat, budget: nat, cursor: nat)
    requires Consistent(g, promptLen, capacity, budget, cursor)
    ensures EndAsserted(g, budget)
  {
  }

  lemma TailsOfChecks(g: Generation, promptLen: nat, capacity: nat, budget: nat, treeEnabled: bool)
    requires TailChecks(g.trace, capacity - promptLen, budget, treeEnabled)
    ensures TailAsserted(g, capacity - promptLen, budget)
  {
    forall i | 0 <= i < |g.trace|
      ensures TailRound(g.trace[i], capacity - promptLen, budget, treeEnabled)
    {
    }
  }

  lemma RoundOfPasses(g: Generation, promptLen: nat, capacity: nat, budget: nat, treeEnabled: bool, i: nat)
    requires RoundsAsserted(g, promptLen, capacity, treeEnabled) && TailAsserted(g, capacity - promptLen, budget)
    requires i < |g.trace|
    ensures RoundChecks(g.trace, i, promptLen, capacity)
    ensures TailRound(g.trace[i], capacity - promptLen, budget, treeEnabled)
    ensures g.trace[i].decision.stop != None ==>
              g.terminalStop == g.trace[i].decision.stop && g.trace[i].decision.stop.value !in g.tokens
  {
    AssertedIsChecked(g, i, promptLen, capacity, treeEnabled);
  }

  lemma PassesAreChecks(g: Generation, promptLen: nat, capacity: nat, budget: nat, cursor: nat, treeEnabled: bool)
    requires Passes(g, promptLen, capacity, budget, cursor, treeEnabled)
    ensures Checks(g, promptLen, capacity, budget, cursor, treeEnabled)
  {
    forall i: nat | i < |g.trace|
      ensures RoundChecks(g.trace, i, promptLen, capacity)
      ensures TailRound(g.trace[i], capacity - promptLen, budget, treeEnabled)
      ensures g.trace[i].decision.stop != None ==>
                g.terminalStop == g.trace[i].decision.stop && g.trace[i].decision.stop.value !in g.tokens
    {
      RoundOfPasses(g, promptLen, capacity, budget, treeEnabled, i);
    }
  }

  /** The verdict is the conjunction of the assertions. */
  lemma ChecksIff(g: Generation, promptLen: nat, capacity: nat, budget: nat, cursor: nat, treeEnabled: bool)
    ensures Checks(g, promptLen, capacity, budget, cursor, treeEnabled)
            <==> Passes(g, promptLen, capacity, budget, cursor, treeEnabled)
  {
    if Checks(g, promptLen, capacity, budget, cursor, treeEnabled) {
      ChecksArePasses(g, promptLen, capacity, budget, cursor, treeEnabled);
    }
    if Passes(g, promptLen, capacity, budget, cursor, treeEnabled) {
      PassesAreChecks(g, promptLen, capacity, budget, cursor, treeEnabled);
    }
  }

  // ---- Traces ---------------------------------------------------------------------------------------

  /** The recorded predictions are the target's own in the context the trace itself claims. */
  ghost predicate TruthfulAt(next: seq<Token> -> Token, prompt: seq<Token>, trace: seq<Round>, i: nat)
    requires i < |trace|
  {
    Auditable(trace[i]) && Truthful(next, prompt + Traced(trace[..i]), trace[i].batch, trace[i].greedy)
  }

  ghost predicate TruthfulTrace(next: seq<Token> -> Token, prompt: seq<Token>, trace: seq<Round>) {
    forall i | 0 <= i < |trace| :: TruthfulAt(next, prompt, trace, i)
  }

  /** Each round is anchored at the previous round's bonus, the first at the prefill prediction. */
  ghost predicate AnchoredAt(trace: seq<Round>, first: Token, i: nat)
    requires i < |trace|
  {
    && HasPath(trace[i]) && (i > 0 ==> HasPath(trace[i - 1]))
    && trace[i].batch.tokens[0] == if i == 0 then first else Bonus(trace[i - 1])
  }

  ghost predicate AnchorsChain(trace: seq<Round>, first: Token) {
    forall i | 0 <= i < |trace| :: AnchoredAt(trace, first, i)
  }

  lemma EmittedGreedyIff(next: seq<Token> -> Token, committed: seq<Token>, r: Round)
    requires Auditable(r) && Truthful(next, committed, r.batch, r.greedy)
    ensures IsGreedy(next, committed, r.emitted) <==> r.batch.tokens[0] == next(committed)
    ensures Bonus(r) == next(committed + r.emitted)
  {
    var path, anchor := r.decision.path, r.batch.tokens[0];
    TruthAtEnd(next, committed, r.batch, r.greedy, path);
    AgreedPathIsGreedy(next, committed, r.batch, r.greedy, path);
    assert committed + [anchor][..0] == committed;
    assert committed + r.emitted[..0] == committed;
    assert r.emitted == [anchor] + r.emitted[1..];
    if anchor == next(committed) {
      assert GreedyAt(next, committed, [anchor], 0);
      GreedyAppend(next, committed, [anchor], r.emitted[1..]);
    }
    if IsGreedy(next, committed, r.emitted) {
      assert GreedyAt(next, committed, r.emitted, 0);
    }
  }

  lemma TracePrefix(next: seq<Token> -> Token, prompt: seq<Token>, trace: seq<Round>, first: Token, n: nat)
    requires n <= |trace|
    ensures TruthfulTrace(next, prompt, trace) ==> TruthfulTrace(next, prompt, trace[..n])
    ensures AnchorsChain(trace, first) ==> AnchorsChain(trace[..n], first)
  {
    if TruthfulTrace(next, prompt, trace) {
      forall i | 0 <= i < n
        ensures TruthfulAt(next, prompt, trace[..n], i)
      {
        assert TruthfulAt(next, prompt, trace, i);
        assert trace[..n][..i] == trace[..i];
      }
    }
    if AnchorsChain(trace, first) {
      forall i | 0 <= i < n
        ensures AnchoredAt(trace[..n], first, i)
      {
        assert AnchoredAt(trace, first, i);
      }
    }
  }

  lemma BonusAfter(next: seq<Token> -> Token, prompt: seq<Token>, trace: seq<Round>)
    requires trace != [] && TruthfulTrace(next, prompt, trace)
    ensures HasPath(trace[|trace| - 1])
    ensures Bonus(trace[|trace| - 1]) == next(prompt + Traced(trace))
  {
    var n := |trace| - 1;
    assert TruthfulAt(next, prompt, trace, n);
    EmittedGreedyIff(next, prompt + Traced(trace[..n]), trace[n]);
    Assoc(prompt, Traced(trace[..n]), trace[n].emitted);
  }

  /** Truthful predictions and agreed edges alone do not make a trace lossless: it is lossless exactly
      when, in addition, the first anchor is the prefill prediction and every later one is the previous
      round's bonus. */
  lemma {:induction false} LosslessIffAnchorsChain(next: seq<Token> -> Token, prompt: seq<Token>, trace: seq<Round>)
    requires TruthfulTrace(next, prompt, trace)
    ensures IsGreedy(next, prompt, Traced(trace)) <==> AnchorsChain(trace, next(prompt))
    decreases |trace|
  {
    if trace != [] {
      var n := |trace| - 1;
      var early, last, first := trace[..n], trace[n], next(prompt);
      var sofar := Traced(early);
      assert TruthfulAt(next, prompt, trace, n);
      TracePrefix(next, prompt, trace, first, n);
      LosslessIffAnchorsChain(next, prompt, early);
      EmittedGreedyIff(next, prompt + sofar, last);
      if n > 0 {
        BonusAfter(next, prompt, early);
        assert early[n - 1] == trace[n - 1];
      } else {
        assert prompt + sofar == prompt;
      }
      assert AnchoredAt(trace, first, n) <==> last.batch.tokens[0] == next(prompt + sofar);
      SplitGreedy(next, prompt, sofar, last.emitted);
      AnchorsSplit(trace, first);
    }
  }

  lemma SplitGreedy(next: seq<Token> -> Token, prompt: seq<Token>, a: seq<Token>, b: seq<Token>)
    ensures IsGreedy(next, prompt, a + b) <==> IsGreedy(next, prompt, a) && IsGreedy(next, prompt + a, b)
  {
    if IsGreedy(next, prompt, a + b) {
      GreedyPrefix(next, prompt, a + b, |a|);
      assert (a + b)[..|a|] == a && (a + b)[|a|..] == b;
    }
    if IsGreedy(next, prompt, a) && IsGreedy(next, prompt + a, b) {
      GreedyAppend(next, prompt, a, b);
    }
  }

  lemma AnchorsSplit(trace: seq<Round>, first: Token)
    requires trace != []
    ensures var n := |trace| - 1;
            AnchorsChain(trace, first) <==> AnchorsChain(trace[..n], first) && AnchoredAt(trace, first, n)
  {
    var n := |trace| - 1;
    if AnchorsChain(trace[..n], first) && AnchoredAt(trace, first, n) {
      forall i | 0 <= i < |trace|
        ensures AnchoredAt(trace, first, i)
      {
        assert i < n ==> AnchoredAt(trace[..n], first, i);
      }
    }
    if AnchorsChain(trace, first) {
      forall i | 0 <= i < n
        ensures AnchoredAt(trace[..n], first, i)
      {
        assert AnchoredAt(trace, first, i);
      }
    }
  }

  // ---- Whole generations --------------------------------------------------------------------------

  /** The comparisons the validator leaves out: the first token against the prefill prediction, and every
      round's anchor against the previous round's bonus. */
  ghost predicate Anchored(g: Generation, first: Token) {
    && AnchorsChain(g.trace, first)
    && (g.trace == [] && g.tokens != [] ==> g.tokens[0] == first)
  }

  /** And those about stops: no token is one, and the terminal stop is one that the target predicted. */
  ghost predicate StopsHonestly(g: Generation, first: Token, stops: set<Token>) {
    && (forall x | x in g.tokens :: x !in stops)
    && (g.terminalStop.Some? ==>
          && g.terminalStop.value in stops
          && (g.trace == [] ==> g.terminalStop.value == first)
          && (g.trace != [] ==> HasPath(Last(g)) && g.terminalStop.value == Bonus(Last(g))))
  }

  function Last(g: Generation): Round
    requires g.trace != []
  {
    g.trace[|g.trace| - 1]
  }

  /** The free bonus of a consistent generation with a trace is the last round's bonus. */
  lemma FreeTokenIsBonus(next: seq<Token> -> Token, prompt: seq<Token>, capacity: nat, budget: nat, cursor: nat,
                         g: Generation)
    requires Consistent(g, |prompt|, capacity, budget, cursor) && TruthfulTrace(next, prompt, g.trace)
    requires g.trace != [] && |g.tokens| > |Traced(g.trace)|
    ensures g.tokens == Traced(g.trace) + [next(prompt + Traced(g.trace))]
  {
    var out := Traced(g.trace);
    assert RoundChecks(g.trace, |g.trace| - 1, |prompt|, capacity);
    BonusAfter(next, prompt, g.trace);
    assert g.tokens == out + [g.tokens[|out|]];
  }

  lemma GreedyOne(next: seq<Token> -> Token, ctx: seq<Token>, t: Token)
    ensures IsGreedy(next, ctx, [t]) <==> t == next(ctx)
  {
    assert ctx + [t][..0] == ctx;
    assert GreedyAt(next, ctx, [t], 0) <==> t == next(ctx);
  }

  /** A consistent generation with truthful predictions is the target's greedy stream if and only if it is
      anchored. */
  lemma GreedyIffAnchored(next: seq<Token> -> Token, prompt: seq<Token>, capacity: nat, budget: nat, cursor: nat,
                          g: Generation)
    requires Consistent(g, |prompt|, capacity, budget, cursor) && TruthfulTrace(next, prompt, g.trace)
    ensures IsGreedy(next, prompt, g.tokens) <==> Anchored(g, next(prompt))
  {
    var out := Traced(g.trace);
    LosslessIffAnchorsChain(next, prompt, g.trace);
    if g.trace == [] {
      if g.tokens != [] {
        assert g.tokens == [g.tokens[0]];
        GreedyOne(next, prompt, g.tokens[0]);
      }
    } else if |g.tokens| > |out| {
      FreeTokenIsBonus(next, prompt, capacity, budget, cursor, g);
      GreedyOne(next, prompt + out, next(prompt + out));
      SplitGreedy(next, prompt, out, [next(prompt + out)]);
    } else {
      assert g.tokens == out;
    }
  }

  /** And it is a faithful generation if and only if, in addition, it stops honestly. */
  lemma FaithfulIff(next: seq<Token> -> Token, prompt: seq<Token>, stops: set<Token>, capacity: nat, budget: nat,
                    cursor: nat, g: Generation)
    requires Consistent(g, |prompt|, capacity, budget, cursor) && TruthfulTrace(next, prompt, g.trace)
    ensures Faithful(next, prompt, stops, budget, g)
            <==> Anchored(g, next(prompt)) && StopsHonestly(g, next(prompt), stops)
  {
    GreedyIffAnchored(next, prompt, capacity, budget, cursor, g);
    if g.terminalStop.Some? {
      assert g.tokens == Traced(g.trace);
      if g.trace == [] {
        assert prompt + g.tokens == prompt;
      } else {
        BonusAfter(next, prompt, g.trace);
      }
    }
  }

  // ---- Generations that pass and mislead ----------------------------------------------------------

  /** A target that always says 7. */
  ghost function Seven(): seq<Token> -> Token {
    _ => 7
  }

  /** A two-row chain round anchored at `anchor`, whose draft is rejected. */
  ghost function SevenRound(anchor: Token, position: nat): Round {
    Round(position, Linear(anchor, [9]), 2, 2, [7, 7], false, Decision([0], None, Some(7)), [anchor])
  }

  lemma SevenAuditable(anchor: Token, position: nat)
    ensures Auditable(SevenRound(anchor, position))
  {
    var batch := Linear(anchor, [9]);
    assert batch.tokens[1..] == [9] && PathTokens(batch, [0]) == [anchor];
  }

  lemma SevenTruthful(trace: seq<Round>, i: nat, anchor: Token, position: nat)
    requires i < |trace| && trace[i] == SevenRound(anchor, position)
    ensures TruthfulAt(Seven(), [1], trace, i)
  {
    SevenAuditable(anchor, position);
    var committed, r := [1] + Traced(trace[..i]), trace[i];
    assert TruthfulRow(Seven(), committed, r.batch, r.greedy, 0)
           && TruthfulRow(Seven(), committed, r.batch, r.greedy, 1);
  }

  /** Passes the whole validator for prompt `[1]` with truthful predictions, and is not what the target
      would have produced. */
  ghost predicate Misleads(g: Generation, capacity: nat, budget: nat, cursor: nat, stops: set<Token>) {
    && Checks(g, 1, capacity, budget, cursor, false) && TruthfulTrace(Seven(), [1], g.trace)
    && !Faithful(Seven(), [1], stops, budget, g)
  }

  /** The fields of such a round that the checks look at. */
  ghost predicate SevenLike(r: Round, anchor: Token, position: nat) {
    && Auditable(r) && r.position == position && r.logical == 2 && |r.greedy| == 2 && !r.tree
    && r.emitted == [anchor] && r.batch.tokens[0] == anchor
    && r.decision.stop == None && r.decision.next == Some(7) && HasPath(r) && Bonus(r) == 7
  }

  lemma SevenRoundIs(anchor: Token, position: nat)
    ensures SevenLike(SevenRound(anchor, position), anchor, position)
  {
    SevenAuditable(anchor, position);
  }

  lemma OneRoundPasses(r: Round, g: Generation)
    requires SevenLike(r, 8, 1) && g == Generation([8, 7], [r], None, 8, true)
    ensures Checks(g, 1, 3, 2, 2, false)
  {
    assert g.trace == [] + [r] && g.trace[..0] == [];
    TracedSnoc([], r);
    assert RoundChecks(g.trace, 0, 1, 3);
  }

  lemma TwoRoundsPass(p: Round, q: Round, g: Generation)
    requires SevenLike(p, 7, 1) && SevenLike(q, 8, 2) && g == Generation([7, 8], [p, q], None, 8, true)
    ensures Checks(g, 1, 4, 2, 3, false)
  {
    assert g.trace == [p] + [q] && [p] == [] + [p] && g.trace[..0] == [] && g.trace[..1] == [p];
    TracedSnoc([], p);
    TracedSnoc([p], q);
    assert RoundChecks(g.trace, 0, 1, 4) && RoundChecks(g.trace, 1, 1, 4);
  }

  /** The first anchor is not compared with the prefill prediction. */
  lemma FirstAnchorUnchecked()
    ensures Misleads(Generation([8, 7], [SevenRound(8, 1)], None, 8, true), 3, 2, 2, {})
  {
    var r := SevenRound(8, 1);
    var g := Generation([8, 7], [r], None, 8, true);
    SevenRoundIs(8, 1);
    OneRoundPasses(r, g);
    SevenTruthful(g.trace, 0, 8, 1);
    assert !AnchoredAt(g.trace, 7, 0);
    FaithfulIff(Seven(), [1], {}, 3, 2, 2, g);
  }

  /** Two rounds that break nothing but the link between a bonus and the next anchor. */
  lemma BonusLinkUnchecked()
    ensures var g := Generation([7, 8], [SevenRound(7, 1), SevenRound(8, 2)], None, 8, true);
            && Misleads(g, 4, 2, 3, {})
            && AnchoredAt(g.trace, 7, 0) && !AnchoredAt(g.trace, 7, 1)
  {
    var p, q := SevenRound(7, 1), SevenRound(8, 2);
    var g := Generation([7, 8], [p, q], None, 8, true);
    SevenRoundIs(7, 1);
    SevenRoundIs(8, 2);
    TwoRoundsPass(p, q, g);
    SevenTruthful(g.trace, 0, 7, 1);
    SevenTruthful(g.trace, 1, 8, 2);
    assert AnchoredAt(g.trace, 7, 0) && !AnchoredAt(g.trace, 7, 1);
    FaithfulIff(Seven(), [1], {}, 4, 2, 3, g);
  }

  /** With no round at all the single token is not compared with anything. */
  lemma BareTokenUnchecked()
    ensures Misleads(Generation([8], [], None, 8, true), 3, 1, 1, {})
  {
    FaithfulIff(Seven(), [1], {}, 3, 1, 1, Generation([8], [], None, 8, true));
  }

  /** Nor is that token compared with the stops: everything is anchored here, and the target stopped. */
  lemma EmittedStopUnchecked()
    ensures var g := Generation([7], [], None, 8, true);
            Misleads(g, 3, 1, 1, {7}) && Anchored(g, 7) && 7 in g.tokens
  {
    FaithfulIff(Seven(), [1], {7}, 3, 1, 1, Generation([7], [], None, 8, true));
  }

  /** Nor is a stop before the first round, even one the target never predicted. */
  lemma BareStopUnchecked()
    ensures Misleads(Generation([], [], Some(99), 8, true), 3, 5, 1, {99})
  {
    FaithfulIff(Seven(), [1], {99}, 3, 5, 1, Generation([], [], Some(99), 8, true));
  }
}
