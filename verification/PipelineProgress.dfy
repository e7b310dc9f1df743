/** Which runs of the two-node pipeline can complete (examples/parity_node.rs), given the limits of the nodes and of
    the wire between them. */
module PipelineProgress {
  import opened Prelude
  import opened KvRoom
  import opened LayerStack
  import opened Pipeline

  // ---- Runs that fit ------------------------------------------------------------------------------

  /** The first `n` tokens are within every limit: ids the embedding has, a prompt that fits one packet, lengths and
      positions that 32 bits hold, and room on both nodes. */
  predicate Fits(u: Setup, n: nat) {
    n > 0 ==>
      && Embeddable(u.m, u.prompt) && Receivable(u.m, |u.prompt|)
      && |u.prompt| < 0x1_0000_0000 && |u.prompt| + n - 2 < 0x1_0000_0000
      && RoomFor(u.coordKv, 0, u.split, |u.prompt| + n - 1)
      && RoomFor(u.workerKv, u.split, u.m.layers, |u.prompt| + n - 1)
  }

  lemma RoomForFewer(kv: KvPlan, lo: nat, hi: nat, a: nat, b: nat)
    requires a <= b && RoomFor(kv, lo, hi, b)
    ensures RoomFor(kv, lo, hi, a)
  {
    if lo < hi {
      AdmitsShorter(kv, a, b);
    }
  }

  lemma FitsFewer(u: Setup, a: nat, b: nat)
    requires a <= b && Fits(u, b)
    ensures Fits(u, a)
  {
    if a > 0 {
      RoomForFewer(u.coordKv, 0, u.split, |u.prompt| + a - 1, |u.prompt| + b - 1);
      RoomForFewer(u.workerKv, u.split, u.m.layers, |u.prompt| + a - 1, |u.prompt| + b - 1);
    }
  }

  // ---- A run that is left alone completes ---------------------------------------------------------

  ghost predicate Live(u: Setup, s: State)
    requires ValidSetup(u)
  {
    Inv(u, s) && s.phase.Waiting? && s.serving && s.accepted == |s.links|
  }

  /** The pending packet is one the worker takes. */
  lemma PendingTaken(u: Setup, gen: seq<nat>, link: Link)
    requires ValidSetup(u) && Pending(u, gen, link) && Fits(u, |gen| + 1)
    ensures WorkerTakes(u, link.packets[0])
  {
    ProductMonotone(1, |u.prompt|, u.m.width);
  }

  lemma CanServe(u: Setup, s: State) returns (t: State)
    requires ValidSetup(u) && Live(u, s) && Pending(u, s.phase.gen, s.links[|s.links| - 1])
    requires Fits(u, |s.phase.gen| + 1)
    ensures Next(u, s, t) && Live(u, t) && t.phase == s.phase && t.links[|t.links| - 1].tokens != []
  {
    var i := |s.links| - 1;
    var link := s.links[i];
    PendingTaken(u, s.phase.gen, link);
    var after, out := ForwardsExist(u.m, u.split, u.m.layers, s.worker, link.packets[0].rows);
    ForwardsKeepOk(u.m, u.split, u.m.layers, s.worker, s.worker.position, link.packets[0].rows, after, out);
    t := s.(worker := after, links := s.links[i := Answered(u, link, out)]);
    assert Answers(u, s, t, out);
    ServeKeeps(u, s, t);
  }

  /** The next greedy token is one the coordinator can forward and send on. */
  lemma NextTaken(u: Setup, gen: seq<nat>)
    requires ValidSetup(u) && ValidModel(u.m) && Fits(u, |gen| + 2)
    ensures CoordTakes(u, [NextToken(u.m, u.prompt + gen)], |u.prompt| + |gen|)
  {
    NextEmbeddable(u.m, u.prompt + gen);
    ProductMonotone(1, |u.prompt|, u.m.width);
  }

  lemma CanSendOn(u: Setup, s: State, link: Link, gen: seq<nat>) returns (t: State)
    requires ValidSetup(u) && Live(u, s) && link == s.links[|s.links| - 1] && link.tokens != []
    requires gen == s.phase.gen + [link.tokens[0]] && |gen| < Count(u.maxTokens)
    requires CoordTakes(u, [link.tokens[0]], |u.prompt| + |s.phase.gen|)
    ensures Next(u, s, t) && Live(u, t) && t.phase == Waiting(gen)
  {
    var i, pos := |s.links| - 1, |u.prompt| + |s.phase.gen|;
    var after, out := ForwardsExist(u.m, 0, u.split, s.coord, Embeds(u.m, [link.tokens[0]]));
    t := s.(coord := after, phase := Waiting(gen), links := s.links[i := Sent(link, pos, out)]);
    assert Sends(u, s, t, link, gen, pos, out);
    assert Receive(u, s, t);
    ReceiveKeeps(u, s, t);
  }

  lemma CanReceive(u: Setup, s: State) returns (t: State)
    requires ValidSetup(u) && ValidModel(u.m) && Live(u, s) && s.links[|s.links| - 1].tokens != []
    requires Fits(u, Count(u.maxTokens))
    ensures Next(u, s, t) && (t.phase.Done? || (Live(u, t) && |t.phase.gen| == |s.phase.gen| + 1))
  {
    var i := |s.links| - 1;
    var link := s.links[i];
    var gen := s.phase.gen + [link.tokens[0]];
    if |gen| >= Count(u.maxTokens) {
      t := s.(phase := Done(gen), links := s.links[i := Link(link.packets, link.tokens[1..])]);
    } else {
      FitsFewer(u, |gen| + 1, Count(u.maxTokens));
      NextTaken(u, s.phase.gen);
      t := CanSendOn(u, s, link, gen);
    }
  }

  ghost predicate Path(u: Setup, path: seq<State>) {
    path != [] && forall i | 0 <= i < |path| - 1 :: Next(u, path[i], path[i + 1])
  }

  lemma ConsPath(u: Setup, s: State, path: seq<State>)
    requires Path(u, path) && Next(u, s, path[0])
    ensures Path(u, [s] + path) && ([s] + path)[0] == s && ([s] + path)[|path|] == path[|path| - 1]
  {
  }

  ghost predicate Finishes(u: Setup, s: State, path: seq<State>) {
    Path(u, path) && path[0] == s && path[|path| - 1].phase.Done?
  }

  lemma StepFinishes(u: Setup, s: State, t: State, path: seq<State>)
    requires Next(u, s, t) && Finishes(u, t, path)
    ensures Finishes(u, s, [s] + path)
  {
    ConsPath(u, s, path);
  }

  /** From every reachable state in which the worker serves the current run, that run can complete: no
      reachable combination of watermarks and messages is stuck. */
  lemma {:induction false} CanFinish(u: Setup, s: State) returns (path: seq<State>)
    requires ValidSetup(u) && ValidModel(u.m) && Live(u, s) && Fits(u, Count(u.maxTokens))
    ensures Finishes(u, s, path)
    decreases Count(u.maxTokens) - |s.phase.gen|, 1
  {
    if s.links[|s.links| - 1].tokens != [] {
      path := CanFinishReply(u, s);
    } else {
      FitsFewer(u, |s.phase.gen| + 1, Count(u.maxTokens));
      var t := CanServe(u, s);
      path := CanFinishReply(u, t);
      StepFinishes(u, s, t, path);
      path := [s] + path;
    }
  }

  lemma {:induction false} CanFinishReply(u: Setup, s: State) returns (path: seq<State>)
    requires ValidSetup(u) && ValidModel(u.m) && Live(u, s) && Fits(u, Count(u.maxTokens))
    requires s.links[|s.links| - 1].tokens != []
    ensures Finishes(u, s, path)
    decreases Count(u.maxTokens) - |s.phase.gen|, 0
  {
    var t := CanReceive(u, s);
    path := [t];
    if !t.phase.Done? {
      path := CanFinish(u, t);
    }
    StepFinishes(u, s, t, path);
    path := [s] + path;
  }

  /** A waiting run whose connection the worker has not taken yet: earlier connections are hung up on until
      it is. */
  lemma {:induction false} QueuedFinishes(u: Setup, s: State) returns (path: seq<State>)
    requires ValidSetup(u) && ValidModel(u.m) && Inv(u, s) && Fits(u, Count(u.maxTokens))
    requires s.phase.Waiting? && s.accepted < |s.links|
    ensures Finishes(u, s, path)
    decreases |s.links| - s.accepted, s.serving
  {
    if s.serving {
      var free := s.(serving := false);
      assert HangUp(u, s, free);
      HangUpKeeps(u, s, free);
      path := QueuedFinishes(u, free);
      StepFinishes(u, s, free, path);
    } else {
      var t := s.(worker := s.worker.(position := 0), accepted := s.accepted + 1, serving := true);
      AcceptKeeps(u, s, t);
      if t.accepted < |t.links| {
        path := QueuedFinishes(u, t);
      } else {
        path := CanFinish(u, t);
      }
      StepFinishes(u, s, t, path);
    }
    path := [s] + path;
  }

  lemma IdleFinishes(u: Setup, s: State) returns (path: seq<State>)
    requires ValidSetup(u) && ValidModel(u.m) && Inv(u, s) && s.phase == Idle && Fits(u, Count(u.maxTokens))
    ensures Finishes(u, s, path)
  {
    FitsFewer(u, 1, Count(u.maxTokens));
    var coord, out := ForwardsExist(u.m, 0, u.split, s.coord.(position := 0), Embeds(u.m, u.prompt));
    var t := s.(coord := coord, phase := Waiting([]), links := s.links + [Link([Packet(0, out)], [])]);
    assert Begin(u, s, t);
    BeginKeeps(u, s, t);
    path := QueuedFinishes(u, t);
    StepFinishes(u, s, t, path);
    path := [s] + path;
  }

  /** Whatever has happened so far, a run can still complete: at once, by serving the current connection, by
      taking it, or, when the worker has lost it, by a retry. */
  lemma AnyFinishes(u: Setup, s: State) returns (path: seq<State>)
    requires ValidSetup(u) && ValidModel(u.m) && Inv(u, s) && Fits(u, Count(u.maxTokens))
    ensures Finishes(u, s, path)
  {
    match s.phase {
      case Done(_) => path := [s];
      case Idle => path := IdleFinishes(u, s);
      case Waiting(_) =>
        if s.accepted < |s.links| {
          path := QueuedFinishes(u, s);
        } else if s.serving {
          path := CanFinish(u, s);
        } else {
          var idle := s.(phase := Idle);
          assert Abandon(u, s, idle);
          path := IdleFinishes(u, idle);
          StepFinishes(u, s, idle, path);
          path := [s] + path;
        }
    }
  }

  /** What the coordinator has had to forward before token `n`. */
  predicate CoordFits(u: Setup, n: nat) {
    Embeddable(u.m, u.prompt) && (n > 0 ==> RoomFor(u.coordKv, 0, u.split, |u.prompt| + n - 1))
  }

  /** Every token received or on its way came from rows that fit. */
  ghost predicate WithinLimits(u: Setup, s: State) {
    match s.phase
    case Idle => true
    case Waiting(gen) =>
      && CoordFits(u, |gen| + 1) && Fits(u, |gen|)
      && (s.links != [] && s.links[|s.links| - 1].tokens != [] ==> Fits(u, |gen| + 1))
    case Done(gen) => Fits(u, |gen|)
  }

  lemma ServedFits(u: Setup, s: State, t: State, gen: seq<nat>, out: seq<Row>)
    requires ValidSetup(u) && WaitingOk(u, s, gen) && s.serving && 0 < s.accepted == |s.links|
    requires Answers(u, s, t, out) && CoordFits(u, |gen| + 1) && Fits(u, |gen|)
    ensures Fits(u, |gen| + 1)
  {
    var p := s.links[s.accepted - 1].packets[0];
    assert Entering(u.m, u.prompt + gen, u.split, Newest(u, gen), p.rows);
    assert p.pos == Newest(u, gen) && p.pos + |p.rows| == |u.prompt| + |gen|;
  }

  lemma ServeWithinLimits(u: Setup, s: State, t: State)
    requires ValidSetup(u) && Inv(u, s) && WithinLimits(u, s) && Serve(u, s, t)
    ensures WithinLimits(u, t)
  {
    if s.phase.Waiting? && s.accepted == |s.links| {
      var out :| Answers(u, s, t, out);
      ServedFits(u, s, t, s.phase.gen, out);
    }
  }

  lemma ReceiveWithinLimits(u: Setup, s: State, t: State)
    requires ValidSetup(u) && Inv(u, s) && WithinLimits(u, s) && Receive(u, s, t)
    ensures WithinLimits(u, t)
  {
    var link := s.links[|s.links| - 1];
    assert link.tokens[1..] == [];
  }

  lemma NextWithinLimits(u: Setup, s: State, t: State)
    requires ValidSetup(u) && Inv(u, s) && WithinLimits(u, s) && Next(u, s, t)
    ensures WithinLimits(u, t)
  {
    if Serve(u, s, t) {
      ServeWithinLimits(u, s, t);
    } else if Receive(u, s, t) {
      ReceiveWithinLimits(u, s, t);
    }
  }

  lemma StepWithinLimits(u: Setup, s: State, t: State)
    requires ValidSetup(u) && Inv(u, s) && WithinLimits(u, s) && Next(u, s, t)
    ensures Inv(u, t) && WithinLimits(u, t)
  {
    NextKeeps(u, s, t);
    NextWithinLimits(u, s, t);
  }

  lemma {:induction false} PathWithinLimits(u: Setup, path: seq<State>, i: nat)
    requires ValidSetup(u) && Path(u, path) && i < |path| && Inv(u, path[0]) && WithinLimits(u, path[0])
    ensures Inv(u, path[i]) && WithinLimits(u, path[i])
  {
    if i > 0 {
      PathWithinLimits(u, path, i - 1);
      StepWithinLimits(u, path[i - 1], path[i]);
    }
  }

  /** From every reachable state some continuation completes a run exactly when the run fits. */
  lemma CanFinishIff(u: Setup, run: seq<State>, i: nat)
    requires ValidSetup(u) && ValidModel(u.m) && Run(u, run) && i < |run|
    ensures (exists path :: Finishes(u, run[i], path)) <==> Fits(u, Count(u.maxTokens))
    ensures var most := |u.prompt| + (if u.maxTokens == 0 then 1 else u.maxTokens) - 1;
            (exists path :: Finishes(u, run[i], path))
            <==>
            && (forall k | 0 <= k < |u.prompt| :: u.prompt[k] < u.m.vocab)
            && |u.prompt| * u.m.width <= 4_194_304 && |u.prompt| < 0x1_0000_0000 && most <= 0x1_0000_0000
            && (0 < u.split ==> Admits(u.coordKv, most)) && (u.split < u.m.layers ==> Admits(u.workerKv, most))
  {
    PathWithinLimits(u, run, i);
    if Fits(u, Count(u.maxTokens)) {
      var path := AnyFinishes(u, run[i]);
      assert Finishes(u, run[i], path);
    } else if path :| Finishes(u, run[i], path) {
      PathWithinLimits(u, path, |path| - 1);
    }
  }

  // ---- What a single session can do and the pipeline cannot -----------------------------------------

  function Zeros(n: nat): seq<real> {
    seq(n, _ => 0.0)
  }

  /** A prompt of 1366 tokens at width 3072, with two thousand positions of context on every node. */
  function LongPrompt(): Setup {
    var kv := KvPlan(2048, 256, 1, U64_MAX);
    var m := Llama(2, 1, 3072, (_: nat) => Zeros(3072), (_: nat, _: Row, _: nat) => [],
                   (_: nat, _: Row, _: nat, _: seq<KV>) => Zeros(3072), (_: Row) => Zeros(1));
    Setup(m, 1, seq(1366, _ => 0), 50, kv, kv)
  }

  /** The single session generates all fifty tokens of it; no run of the pipeline ever completes, however often
      it is retried, because every attempt's first packet is refused. */
  lemma LongPromptNeverFinishes(run: seq<State>, i: nat)
    requires Run(LongPrompt(), run) && i < |run|
    ensures var u := LongPrompt();
            && ValidSetup(u) && ValidModel(u.m) && FitsAlone(u.m, u.coordKv, u.prompt, u.maxTokens)
            && !run[i].phase.Done?
  {
    var u := LongPrompt();
    CanFinishIff(u, run, i);
    if run[i].phase.Done? {
      assert Finishes(u, run[i], [run[i]]);
    }
  }
}
