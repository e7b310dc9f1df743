/** The two-node pipeline (examples/parity_node.rs) as a state machine: a coordinator that owns layers
    `0..split` and drives whole runs over fresh connections, and a worker that owns the rest and serves
    connections one at a time in the order they were opened. Either side may fail at any point. */
module Pipeline {
  import opened Prelude
  import opened KvRoom
  import opened LayerStack
  import Wire

  /** Positions and lengths travel as 32-bit words. */
  function Word(n: nat): nat {
    n % 0x1_0000_0000
  }

  datatype Setup = Setup(m: Llama, split: nat, prompt: seq<nat>, maxTokens: nat, coordKv: KvPlan, workerKv: KvPlan)

  ghost predicate ValidSetup(u: Setup) {
    u.split <= u.m.layers && u.prompt != []
  }

  datatype Packet = Packet(pos: nat, rows: seq<Row>)

  /** What is in flight on a connection, in each direction. */
  datatype Link = Link(packets: seq<Packet>, tokens: seq<nat>)

  datatype Phase = Idle | Waiting(gen: seq<nat>) | Done(gen: seq<nat>)

  /** The worker has accepted the first `accepted` connections and, when `serving`, is still on the last
      of those; the coordinator's current connection is the last opened. */
  datatype State = State(coord: Cache, phase: Phase, worker: Cache, links: seq<Link>, accepted: nat, serving: bool)

  // ---- Limits -----------------------------------------------------------------------------------

  /** The receiver's limit on the floats of one packet. */
  predicate Receivable(m: Llama, rows: nat) {
    rows * m.width <= Wire.DEFAULT_MAX_ACTIVATION_FLOATS
  }

  /** On the coordinator: ids the embedding has, room for their rows, and a float count that 32 bits hold. */
  predicate CoordTakes(u: Setup, tokens: seq<nat>, pos: nat) {
    && Embeddable(u.m, tokens) && RoomFor(u.coordKv, 0, u.split, pos + |tokens|)
    && |tokens| * u.m.width < 0x1_0000_0000
  }

  /** On the worker: a packet within the float limit whose rows it has room for. */
  predicate WorkerTakes(u: Setup, p: Packet) {
    && 0 < |p.rows| == Word(|p.rows|) && Receivable(u.m, |p.rows|)
    && RoomFor(u.workerKv, u.split, u.m.layers, p.pos + |p.rows|)
  }

  /** The limit is the receiver's: of the packets a sender can frame, those within it and no others are read. */
  lemma ReceivedIff(m: Llama, pos: Wire.Word, rows: nat, floats: seq<Wire.Word>)
    requires |floats| == rows * m.width < 0x1_0000_0000
    ensures var packet := Wire.Encode(Wire.Activation(pos, Word(rows), floats));
            Wire.Receive(Wire.ActivationKind(Wire.DEFAULT_MAX_ACTIVATION_FLOATS), packet).Some?
            <==> Receivable(m, rows)
  {
    Wire.ActivationReceivedIff(Wire.DEFAULT_MAX_ACTIVATION_FLOATS, pos, Word(rows), floats);
  }

  // ---- Steps ------------------------------------------------------------------------------------

  ghost predicate Init(u: Setup, s: State) {
    && CacheOk(u.m, 0, u.split, s.coord) && CacheOk(u.m, u.split, u.m.layers, s.worker)
    && s.phase == Idle && s.links == [] && s.accepted == 0 && !s.serving
  }

  /** A run, or the retry of one: rewind, connect, prefill locally, send the prompt's rows. */
  ghost predicate Begin(u: Setup, s: State, t: State) {
    && !s.phase.Waiting? && CoordTakes(u, u.prompt, 0)
    && exists out ::
         && Forwards(u.m, 0, u.split, s.coord.(position := 0), 0, Embeds(u.m, u.prompt), t.coord, out)
         && t == s.(coord := t.coord, phase := Waiting([]), links := s.links + [Link([Packet(0, out)], [])])
  }

  /** The connection cannot be opened, or the prefill or the first send fails. */
  ghost predicate BeginFails(u: Setup, s: State, t: State) {
    && !s.phase.Waiting?
    && KeepsCommitted(u.m, 0, u.split, s.coord.(position := 0), t.coord)
    && (t.links == s.links || t.links == s.links + [Link([], [])])
    && t == s.(coord := t.coord, phase := Idle, links := t.links)
  }

  /** Any transport or local error abandons the run; what was sent may still reach the worker. */
  ghost predicate Abandon(u: Setup, s: State, t: State) {
    && s.phase.Waiting?
    && KeepsCommitted(u.m, 0, u.split, s.coord, t.coord)
    && t == s.(coord := t.coord, phase := Idle)
  }

  /** The worker takes the next connection and rewinds its watermark; stale rows stay in place. */
  ghost predicate Accept(u: Setup, s: State, t: State) {
    && !s.serving && s.accepted < |s.links|
    && t == s.(worker := s.worker.(position := 0), accepted := s.accepted + 1, serving := true)
  }

  /** The worker forwards the next packet of its connection, whoever sent it, and answers. */
  ghost predicate Serve(u: Setup, s: State, t: State) {
    && s.serving && 0 < s.accepted <= |s.links|
    && exists out :: Answers(u, s, t, out)
  }

  ghost predicate Answers(u: Setup, s: State, t: State, out: seq<Row>)
    requires 0 < s.accepted <= |s.links|
  {
    var i := s.accepted - 1;
    && s.links[i].packets != []
    && var p := s.links[i].packets[0];
       && WorkerTakes(u, p) && |out| == |p.rows|
       && Forwards(u.m, u.split, u.m.layers, s.worker, p.pos, p.rows, t.worker, out)
       && t == s.(worker := t.worker, links := s.links[i := Answered(u, s.links[i], out)])
  }

  ghost function Answered(u: Setup, link: Link, out: seq<Row>): Link
    requires link.packets != [] && out != []
  {
    Link(link.packets[1..], link.tokens + [Argmax(u.m.logits(out[|out| - 1]))])
  }

  /** The worker sees a hang-up, refuses a packet, or fails while serving one. */
  ghost predicate HangUp(u: Setup, s: State, t: State) {
    && s.serving
    && KeepsCommitted(u.m, u.split, u.m.layers, s.worker, t.worker)
    && t == s.(worker := t.worker, serving := false)
  }

  /** The coordinator takes a token; unless it was the last, it forwards it locally and sends it on. */
  ghost predicate Receive(u: Setup, s: State, t: State) {
    && s.phase.Waiting? && s.links != [] && s.links[|s.links| - 1].tokens != []
    && var link := s.links[|s.links| - 1];
       var gen := s.phase.gen + [link.tokens[0]];
       if |gen| >= Count(u.maxTokens) then
         t == s.(phase := Done(gen), links := s.links[|s.links| - 1 := Link(link.packets, link.tokens[1..])])
       else
         SendsOn(u, s, t, link, gen, |u.prompt| + (|gen| - 1))
  }

  ghost predicate SendsOn(u: Setup, s: State, t: State, link: Link, gen: seq<nat>, pos: nat)
    requires s.links != [] && link.tokens != []
  {
    exists out :: Sends(u, s, t, link, gen, pos, out)
  }

  ghost predicate Sends(u: Setup, s: State, t: State, link: Link, gen: seq<nat>, pos: nat, out: seq<Row>)
    requires s.links != [] && link.tokens != []
  {
    && CoordTakes(u, [link.tokens[0]], pos)
    && Forwards(u.m, 0, u.split, s.coord, pos, Embeds(u.m, [link.tokens[0]]), t.coord, out)
    && t == s.(coord := t.coord, phase := Waiting(gen), links := s.links[|s.links| - 1 := Sent(link, pos, out)])
  }

  ghost function Sent(link: Link, pos: nat, out: seq<Row>): Link
    requires link.tokens != []
  {
    Link(link.packets + [Packet(Word(pos), out)], link.tokens[1..])
  }

  ghost predicate Next(u: Setup, s: State, t: State) {
    || Begin(u, s, t) || BeginFails(u, s, t) || Abandon(u, s, t)
    || Accept(u, s, t) || Serve(u, s, t) || HangUp(u, s, t) || Receive(u, s, t)
  }

  ghost predicate Run(u: Setup, run: seq<State>) {
    && run != [] && Init(u, run[0])
    && forall i | 0 <= i < |run| - 1 :: Next(u, run[i], run[i + 1])
  }

  // ---- The invariant ------------------------------------------------------------------------------

  /** Where the newest rows of `prompt + gen` start: the whole prompt at first, then one token. */
  ghost function Newest(u: Setup, gen: seq<nat>): (start: nat)
    ensures gen != [] ==> start == |u.prompt + gen| - 1
  {
    if gen == [] then 0 else |u.prompt| + |gen| - 1
  }

  /** The connection carries exactly the newest rows, unanswered. */
  ghost predicate Pending(u: Setup, gen: seq<nat>, link: Link) {
    && |link.packets| == 1 && link.tokens == []
    && link.packets[0].pos == Word(Newest(u, gen))
    && Entering(u.m, u.prompt + gen, u.split, Newest(u, gen), link.packets[0].rows)
  }

  ghost predicate Reply(u: Setup, gen: seq<nat>, link: Link)
    requires ValidSetup(u)
  {
    link.packets == [] && link.tokens == [NextToken(u.m, u.prompt + gen)]
  }

  ghost predicate WorkerHolds(u: Setup, s: State, tokens: seq<nat>) {
    Holds(u.m, u.split, u.m.layers, s.worker, tokens)
  }

  /** The current connection: not yet accepted, or being served in lock step, or lost by the worker (then
      at most the right answer is still in flight). */
  ghost predicate LinkOk(u: Setup, s: State, gen: seq<nat>, link: Link)
    requires ValidSetup(u)
  {
    && (link.tokens == [] || link.tokens == [NextToken(u.m, u.prompt + gen)])
    && (s.accepted < |s.links| ==> gen == [] && Pending(u, gen, link))
    && (s.accepted == |s.links| && s.serving ==>
          || (Pending(u, gen, link) && WorkerHolds(u, s, (u.prompt + gen)[..Newest(u, gen)]))
          || (Reply(u, gen, link) && WorkerHolds(u, s, u.prompt + gen)))
  }

  ghost predicate WaitingOk(u: Setup, s: State, gen: seq<nat>)
    requires ValidSetup(u)
  {
    && IsGreedy(u.m, u.prompt, gen) && |gen| < Count(u.maxTokens)
    && Holds(u.m, 0, u.split, s.coord, u.prompt + gen)
    && s.links != [] && LinkOk(u, s, gen, s.links[|s.links| - 1])
  }

  ghost predicate Inv(u: Setup, s: State)
    requires ValidSetup(u)
  {
    && CacheOk(u.m, 0, u.split, s.coord) && CacheOk(u.m, u.split, u.m.layers, s.worker)
    && s.accepted <= |s.links| && (s.serving ==> s.accepted > 0)
    && (s.phase.Waiting? ==> WaitingOk(u, s, s.phase.gen))
    && (s.phase.Done? ==> IsGreedy(u.m, u.prompt, s.phase.gen) && |s.phase.gen| == Count(u.maxTokens))
  }

  // ---- Every step keeps it ------------------------------------------------------------------------

  lemma BeginKeeps(u: Setup, s: State, t: State)
    requires ValidSetup(u) && Inv(u, s) && Begin(u, s, t)
    ensures Inv(u, t)
  {
    var prompt, m := u.prompt, u.m;
    var before := s.coord.(position := 0);
    var out :| Forwards(m, 0, u.split, before, 0, Embeds(m, prompt), t.coord, out)
               && t == s.(coord := t.coord, phase := Waiting([]), links := s.links + [Link([Packet(0, out)], [])]);
    NothingHeld(m, 0, u.split, before);
    assert prompt[..0] == [] && prompt[0..] == prompt && prompt + [] == prompt;
    EmbedsSuffix(m, prompt, 0);
    ForwardsHidden(m, 0, u.split, before, 0, Embeds(m, prompt), prompt, t.coord, out);
    assert t.links[|t.links| - 1] == Link([Packet(0, out)], []);
    assert Pending(u, [], t.links[|t.links| - 1]);
    assert IsGreedy(m, prompt, []);
  }

  lemma AcceptKeeps(u: Setup, s: State, t: State)
    requires ValidSetup(u) && Inv(u, s) && Accept(u, s, t)
    ensures Inv(u, t)
  {
    NothingHeld(u.m, u.split, u.m.layers, t.worker);
    if s.phase.Waiting? && t.accepted == |t.links| {
      assert (u.prompt + s.phase.gen)[..Newest(u, s.phase.gen)] == [];
    }
  }

  lemma ServeKeeps(u: Setup, s: State, t: State)
    requires ValidSetup(u) && Inv(u, s) && Serve(u, s, t)
    ensures Inv(u, t)
  {
    var out :| Answers(u, s, t, out);
    var p := s.links[s.accepted - 1].packets[0];
    ForwardsKeepOk(u.m, u.split, u.m.layers, s.worker, p.pos, p.rows, t.worker, out);
    if s.phase.Waiting? {
      ServeKeepsWaiting(u, s, t, s.phase.gen, out);
    }
  }

  lemma ServeKeepsWaiting(u: Setup, s: State, t: State, gen: seq<nat>, out: seq<Row>)
    requires ValidSetup(u) && WaitingOk(u, s, gen) && s.serving && 0 < s.accepted <= |s.links|
    requires Answers(u, s, t, out)
    ensures WaitingOk(u, t, gen)
  {
    var last := |s.links| - 1;
    if s.accepted == |s.links| {
      ServedCurrent(u, s, t, gen, s.links[last], out);
    } else {
      ServedElsewhere(u, s, t, gen, s.links[last]);
    }
  }

  lemma ServedCurrent(u: Setup, s: State, t: State, gen: seq<nat>, link: Link, out: seq<Row>)
    requires ValidSetup(u) && LinkOk(u, s, gen, link) && link.packets != [] && out != []
    requires s.serving && s.accepted == |s.links| && t.accepted == |t.links|
    requires Forwards(u.m, u.split, u.m.layers, s.worker, link.packets[0].pos, link.packets[0].rows, t.worker, out)
    ensures LinkOk(u, t, gen, Answered(u, link, out))
  {
    AnswerIsNext(u, s.worker, t.worker, gen, link, link.packets[0], out);
    ReplyIsOk(u, t, gen, Answered(u, link, out));
  }

  lemma ReplyIsOk(u: Setup, t: State, gen: seq<nat>, link: Link)
    requires ValidSetup(u) && Reply(u, gen, link) && t.accepted == |t.links| && WorkerHolds(u, t, u.prompt + gen)
    ensures LinkOk(u, t, gen, link)
  {
  }

  /** Leftovers of an abandoned connection do not touch the current one. */
  lemma ServedElsewhere(u: Setup, s: State, t: State, gen: seq<nat>, link: Link)
    requires ValidSetup(u) && LinkOk(u, s, gen, link) && s.accepted < |s.links|
    requires t.accepted == s.accepted && |t.links| == |s.links|
    ensures LinkOk(u, t, gen, link)
  {
  }

  /** Serving the current run's packet yields its next greedy token and brings the worker up to date. */
  lemma AnswerIsNext(u: Setup, before: Cache, after: Cache, gen: seq<nat>, link: Link, p: Packet, out: seq<Row>)
    requires ValidSetup(u) && Pending(u, gen, link) && p == link.packets[0] && out != []
    requires Holds(u.m, u.split, u.m.layers, before, (u.prompt + gen)[..Newest(u, gen)])
    requires Forwards(u.m, u.split, u.m.layers, before, p.pos, p.rows, after, out)
    ensures Reply(u, gen, Answered(u, link, out)) && Holds(u.m, u.split, u.m.layers, after, u.prompt + gen)
  {
    var tokens := u.prompt + gen;
    ServedRows(u, before, after, tokens, Newest(u, gen), p, out);
    var token := NextToken(u.m, tokens);
    assert link.tokens + [token] == [token] && link.packets[1..] == [];
  }

  lemma ServedRows(u: Setup, before: Cache, after: Cache, tokens: seq<nat>, start: nat, p: Packet, out: seq<Row>)
    requires u.split <= u.m.layers && start < |tokens| && out != []
    requires Entering(u.m, tokens, u.split, start, p.rows) && Holds(u.m, u.split, u.m.layers, before, tokens[..start])
    requires Forwards(u.m, u.split, u.m.layers, before, p.pos, p.rows, after, out)
    ensures Argmax(u.m.logits(out[|out| - 1])) == NextToken(u.m, tokens)
    ensures Holds(u.m, u.split, u.m.layers, after, tokens)
  {
    assert p.pos == start;
    ForwardsHidden(u.m, u.split, u.m.layers, before, start, p.rows, tokens, after, out);
    LastRowToken(u.m, tokens, start, out);
  }

  lemma HangUpKeeps(u: Setup, s: State, t: State)
    requires ValidSetup(u) && Inv(u, s) && HangUp(u, s, t)
    ensures Inv(u, t)
  {
  }

  lemma ReceiveKeeps(u: Setup, s: State, t: State)
    requires ValidSetup(u) && Inv(u, s) && Receive(u, s, t)
    ensures Inv(u, t)
  {
    var link := s.links[|s.links| - 1];
    var gen := s.phase.gen + [link.tokens[0]];
    GreedySnoc(u.m, u.prompt, s.phase.gen, link.tokens[0]);
    if |gen| < Count(u.maxTokens) {
      SendsOnKeeps(u, s, t, s.phase.gen, link, gen, |u.prompt| + |s.phase.gen|);
    }
  }

  lemma SendsOnKeeps(u: Setup, s: State, t: State, before: seq<nat>, link: Link, gen: seq<nat>, pos: nat)
    requires ValidSetup(u) && WaitingOk(u, s, before) && link == s.links[|s.links| - 1] && link.tokens != []
    requires gen == before + [link.tokens[0]] && |gen| < Count(u.maxTokens) && IsGreedy(u.m, u.prompt, gen)
    requires s.accepted <= |s.links| && pos == |u.prompt| + |before| && SendsOn(u, s, t, link, gen, pos)
    ensures CacheOk(u.m, 0, u.split, t.coord) && WaitingOk(u, t, gen)
    ensures exists out :: Sends(u, s, t, link, gen, pos, out)
  {
    var out :| Sends(u, s, t, link, gen, pos, out);
    ForwardsKeepOk(u.m, 0, u.split, s.coord, pos, Embeds(u.m, [link.tokens[0]]), t.coord, out);
    SendKeeps(u, s, t, before, link, gen, pos, out);
  }

  lemma SendKeeps(u: Setup, s: State, t: State, before: seq<nat>, link: Link, gen: seq<nat>, pos: nat, out: seq<Row>)
    requires ValidSetup(u) && WaitingOk(u, s, before) && link == s.links[|s.links| - 1] && link.tokens != []
    requires gen == before + [link.tokens[0]] && |gen| < Count(u.maxTokens) && IsGreedy(u.m, u.prompt, gen)
    requires s.accepted <= |s.links| && pos == |u.prompt| + |before| && Sends(u, s, t, link, gen, pos, out)
    ensures WaitingOk(u, t, gen)
  {
    SentHolds(u, s.coord, t.coord, before, link.tokens[0], out);
    SentLink(u, s, t, before, link, gen, out);
    assert t.links[|t.links| - 1] == Sent(link, pos, out);
  }

  lemma SentHolds(u: Setup, before: Cache, after: Cache, gen: seq<nat>, token: nat, out: seq<Row>)
    requires ValidSetup(u) && Holds(u.m, 0, u.split, before, u.prompt + gen)
    requires Forwards(u.m, 0, u.split, before, |u.prompt + gen|, Embeds(u.m, [token]), after, out)
    ensures Holds(u.m, 0, u.split, after, u.prompt + (gen + [token]))
    ensures Entering(u.m, u.prompt + (gen + [token]), u.split, |u.prompt + gen|, out)
  {
    Assoc(u.prompt, gen, [token]);
    SendNext(u, before, after, u.prompt + gen, token, out);
  }

  lemma SentLink(u: Setup, s: State, t: State, before: seq<nat>, link: Link, gen: seq<nat>, out: seq<Row>)
    requires ValidSetup(u) && LinkOk(u, s, before, link) && link.tokens != [] && gen == before + [link.tokens[0]]
    requires Entering(u.m, u.prompt + gen, u.split, |u.prompt| + |before|, out)
    requires s.accepted <= |s.links| == |t.links| && t.accepted == s.accepted
    requires t.serving == s.serving && t.worker == s.worker
    ensures LinkOk(u, t, gen, Sent(link, |u.prompt| + |before|, out))
  {
    SentIsPending(u, s, before, link, gen, out);
    PendingIsOk(u, s, t, before, gen, Sent(link, |u.prompt| + |before|, out));
  }

  lemma PendingIsOk(u: Setup, s: State, t: State, before: seq<nat>, gen: seq<nat>, link: Link)
    requires ValidSetup(u) && t.worker == s.worker && |t.links| == |s.links| <= s.accepted == t.accepted
    requires t.serving == s.serving && link.tokens == [] && gen != [] && before == gen[..|gen| - 1]
    requires s.accepted == |s.links| && s.serving ==> Pending(u, gen, link) && WorkerHolds(u, s, u.prompt + before)
    ensures LinkOk(u, t, gen, link)
  {
    assert (u.prompt + gen)[..Newest(u, gen)] == u.prompt + before;
  }

  /** The connection had been drained, so it now carries the new rows alone. */
  lemma SentIsPending(u: Setup, s: State, before: seq<nat>, link: Link, gen: seq<nat>, out: seq<Row>)
    requires ValidSetup(u) && LinkOk(u, s, before, link) && link.tokens != [] && gen == before + [link.tokens[0]]
    requires Entering(u.m, u.prompt + gen, u.split, |u.prompt| + |before|, out)
    ensures s.accepted >= |s.links|
    ensures Sent(link, |u.prompt| + |before|, out).tokens == []
    ensures s.accepted == |s.links| && s.serving ==>
              Pending(u, gen, Sent(link, |u.prompt| + |before|, out)) && WorkerHolds(u, s, u.prompt + before)
  {
  }

  /** Forwarding a received token locally gives the rows the worker needs next. */
  lemma SendNext(u: Setup, before: Cache, after: Cache, was: seq<nat>, token: nat, out: seq<Row>)
    requires u.split <= u.m.layers && Holds(u.m, 0, u.split, before, was)
    requires Forwards(u.m, 0, u.split, before, |was|, Embeds(u.m, [token]), after, out)
    ensures Holds(u.m, 0, u.split, after, was + [token]) && Entering(u.m, was + [token], u.split, |was|, out)
  {
    var tokens := was + [token];
    assert tokens[|was|..] == [token] && tokens[..|was|] == was;
    EmbedsSuffix(u.m, tokens, |was|);
    ForwardsHidden(u.m, 0, u.split, before, |was|, Embeds(u.m, [token]), tokens, after, out);
  }

  lemma NextKeeps(u: Setup, s: State, t: State)
    requires ValidSetup(u) && Inv(u, s) && Next(u, s, t)
    ensures Inv(u, t)
  {
    if Begin(u, s, t) {
      BeginKeeps(u, s, t);
    } else if Accept(u, s, t) {
      AcceptKeeps(u, s, t);
    } else if Serve(u, s, t) {
      ServeKeeps(u, s, t);
    } else if HangUp(u, s, t) {
      HangUpKeeps(u, s, t);
    } else if Receive(u, s, t) {
      ReceiveKeeps(u, s, t);
    }
  }

  lemma {:induction false} RunKeeps(u: Setup, run: seq<State>, i: nat)
    requires ValidSetup(u) && Run(u, run) && i < |run|
    ensures Inv(u, run[i])
  {
    if i > 0 {
      RunKeeps(u, run, i - 1);
      NextKeeps(u, run[i - 1], run[i]);
    }
  }

  // ---- What it buys -------------------------------------------------------------------------------

  /** However many connections were dropped and runs retried before it, a run that completes yields
      exactly the single-node greedy tokens. */
  lemma CompletedRunIsReference(u: Setup, run: seq<State>, i: nat)
    requires ValidSetup(u) && Run(u, run) && i < |run| && run[i].phase.Done?
    ensures run[i].phase.gen == Greedy(u.m, u.prompt, if u.maxTokens == 0 then 1 else u.maxTokens)
    ensures |run[i].phase.gen| == if u.maxTokens == 0 then 1 else u.maxTokens
  {
    RunKeeps(u, run, i);
  }

  /** While the worker serves the current connection the two watermarks differ by exactly the rows in
      flight towards it, and each cache holds the rows of the same tokens. */
  lemma WatermarksInStep(u: Setup, run: seq<State>, i: nat)
    requires ValidSetup(u) && Run(u, run) && i < |run|
    requires run[i].phase.Waiting? && run[i].serving && run[i].accepted == |run[i].links|
    ensures var s := run[i];
            s.links != [] &&
            var packets := s.links[|s.links| - 1].packets;
            && |packets| <= 1
            && s.coord.position == s.worker.position + (if packets == [] then 0 else |packets[0].rows|)
            && s.coord.position == |u.prompt| + |s.phase.gen|
            && Holds(u.m, u.split, u.m.layers, s.worker, (u.prompt + s.phase.gen)[..s.worker.position])
  {
    RunKeeps(u, run, i);
    var tokens := u.prompt + run[i].phase.gen;
    assert tokens[..|tokens|] == tokens;
  }
}
