/** Denoising one canvas, trimming it, and the block-autoregressive loop (src/diffusion_gemma.rs). */
module BlockDiffusion {
  import opened Prelude
  import opened PrefixCache
  import EntropyBound

  // ---- Trimming -------------------------------------------------------------------------------

  /** Seven tokens at this stride, starting at `i`, are equal, anywhere in the whole canvas. */
  ghost predicate RepeatsAt(canvas: seq<nat>, i: nat, stride: nat)
    requires stride > 0
  {
    && i + 6 * stride < |canvas|
    && forall k | i <= k <= i + 6 * stride && (k - i) % stride == 0 :: canvas[k] == canvas[i]
  }

  ghost predicate Onset(canvas: seq<nat>, i: nat) {
    RepeatsAt(canvas, i, 1) || RepeatsAt(canvas, i, 2)
  }

  /** The first end-of-generation index, or the length when there is none. */
  ghost predicate FirstEog(canvas: seq<nat>, eog: set<nat>, e: nat) {
    && e <= |canvas| && (forall k | 0 <= k < e :: canvas[k] !in eog)
    && (e < |canvas| ==> canvas[e] in eog)
  }

  /** The least of the first end-of-generation index and the first loop onset strictly before its
      predecessor. */
  ghost predicate IsTrim(canvas: seq<nat>, eog: set<nat>, cut: nat) {
    exists e: nat :: FirstEog(canvas, eog, e) && CutBefore(canvas, e, cut)
  }

  ghost predicate CutBefore(canvas: seq<nat>, e: nat, cut: nat) {
    && cut <= e
    && (forall i: nat | i < cut && i + 1 < e :: !Onset(canvas, i))
    && (cut < e ==> cut + 1 < e && Onset(canvas, cut))
  }

  lemma TrimUnique(canvas: seq<nat>, eog: set<nat>, a: nat, b: nat)
    requires IsTrim(canvas, eog, a) && IsTrim(canvas, eog, b)
    ensures a == b
  {
    var e: nat :| FirstEog(canvas, eog, e) && CutBefore(canvas, e, a);
    var f: nat :| FirstEog(canvas, eog, f) && CutBefore(canvas, f, b);
    assert e == f;
    assert a < b ==> !Onset(canvas, a);
    assert b < a ==> !Onset(canvas, b);
  }

  /** The kept text holds no end-of-generation token and no complete loop. */
  lemma TrimmedIsClean(canvas: seq<nat>, eog: set<nat>, cut: nat)
    requires IsTrim(canvas, eog, cut)
    ensures cut <= |canvas|
    ensures forall k | 0 <= k < cut :: canvas[k] !in eog
    ensures forall i: nat | i < cut :: !Onset(canvas[..cut], i)
  {
    var e: nat :| FirstEog(canvas, eog, e) && CutBefore(canvas, e, cut);
    forall i: nat | i < cut
      ensures !Onset(canvas[..cut], i)
    {
      if Onset(canvas[..cut], i) {
        OnsetExtends(canvas, cut, i);
      }
    }
  }

  lemma OnsetExtends(canvas: seq<nat>, cut: nat, i: nat)
    requires cut <= |canvas| && Onset(canvas[..cut], i)
    ensures i + 6 < cut && Onset(canvas, i)
  {
    var stride := if RepeatsAt(canvas[..cut], i, 1) then 1 else 2;
    assert RepeatsAt(canvas[..cut], i, stride);
    assert forall k | i <= k <= i + 6 * stride && (k - i) % stride == 0 :: canvas[..cut][k] == canvas[k];
  }

  /** The inner scan: follow equal tokens at the stride to the first difference or the canvas end. */
  method Repeats(canvas: seq<nat>, i: nat, stride: nat) returns (found: bool)
    requires i < |canvas| && (stride == 1 || stride == 2)
    ensures found <==> RepeatsAt(canvas, i, stride)
  {
    var reps, j := 0, i;
    while j + stride < |canvas| && canvas[j] == canvas[j + stride]
      invariant j == i + reps * stride && j < |canvas|
      invariant forall k | i <= k <= j && (k - i) % stride == 0 :: canvas[k] == canvas[i]
      decreases |canvas| - j
    {
      reps, j := reps + 1, j + stride;
    }
    found := reps >= 6;
    assert (j + stride - i) % stride == 0 && (j - i) % stride == 0;
  }

  /** `trim_canvas`. */
  method TrimCanvas(canvas: seq<nat>, eog: set<nat>) returns (cut: nat)
    ensures IsTrim(canvas, eog, cut)
  {
    cut := 0;
    while cut < |canvas| && canvas[cut] !in eog
      invariant cut <= |canvas| && forall k | 0 <= k < cut :: canvas[k] !in eog
    {
      cut := cut + 1;
    }
    ghost var e := cut;
    var i := 0;
    while i + 1 < cut
      invariant cut == e && forall k: nat | k < i && k + 1 < e :: !Onset(canvas, k)
    {
      var found := Repeats(canvas, i, 1);
      if !found {
        found := Repeats(canvas, i, 2);
      }
      if found {
        cut := i;
        break;
      }
      i := i + 1;
    }
    assert FirstEog(canvas, eog, e) && CutBefore(canvas, e, cut);
  }

  // ---- One denoise step -------------------------------------------------------------------------

  /** Row sampling mathematics and the seeded draws. The draws depend only on the seed, so every block
      of a run sees the same ones. */
  datatype Sampler = Sampler(
    tempInv: (nat, nat) -> real,
    argmax: (Row, real) -> nat,
    entropy: (Row, real) -> real,
    sample: (Row, real, real) -> nat,
    canvasInit: nat -> nat,
    u: (nat, nat) -> real,
    renoise: (nat, nat) -> nat)

  datatype Params = Params(maxSteps: int, entropyBound: real, stability: int, confidence: real)

  datatype Step = Step(tempInv: real, argmax: seq<nat>, entropy: seq<real>, denoiser: seq<nat>,
                       accepted: seq<bool>, nextCanvas: seq<nat>, entropySum: real)

  /** The per-position outputs of a step, read off its logits. */
  ghost predicate RowsOf(sm: Sampler, logits: seq<Row>, stepIdx: nat, step: Step) {
    && |step.argmax| == |step.entropy| == |step.denoiser| == |logits|
    && forall i | 0 <= i < |logits| ::
         && step.argmax[i] == sm.argmax(logits[i], step.tempInv)
         && step.entropy[i] == sm.entropy(logits[i], step.tempInv)
         && step.denoiser[i] == sm.sample(logits[i], step.tempInv, sm.u(stepIdx, i))
  }

  /** Accepted positions keep their draw, the others are renoised; which are accepted is the
      entropy-bound rule over some ascending order. */
  ghost predicate Renoised(sm: Sampler, bound: real, stepIdx: nat, step: Step) {
    && |step.nextCanvas| == |step.denoiser| == |step.entropy|
    && (exists order :: EntropyBound.FollowsRule(step.entropy, bound, order, step.accepted))
    && forall i | 0 <= i < |step.nextCanvas| && i < |step.accepted| ::
         step.nextCanvas[i] == if step.accepted[i] then step.denoiser[i] else sm.renoise(stepIdx, i)
  }

  ghost predicate IsStep(sm: Sampler, params: Params, logits: seq<Row>, stepIdx: nat, step: Step) {
    && step.tempInv == sm.tempInv(stepIdx, Steps(params))
    && RowsOf(sm, logits, stepIdx, step)
    && Renoised(sm, params.entropyBound, stepIdx, step)
    && step.entropySum == SumOf(step.entropy)
  }

  function Steps(params: Params): nat {
    if params.maxSteps < 1 then 1 else params.maxSteps
  }

  /** `eb_step`. */
  method DenoiseStep(sm: Sampler, params: Params, logits: seq<Row>, stepIdx: nat) returns (step: Step)
    ensures IsStep(sm, params, logits, stepIdx, step)
  {
    var c := |logits|;
    var t := sm.tempInv(stepIdx, Steps(params));
    var argmax := seq(c, i requires 0 <= i < c => sm.argmax(logits[i], t));
    var entropy := seq(c, i requires 0 <= i < c => sm.entropy(logits[i], t));
    var denoiser := seq(c, i requires 0 <= i < c => sm.sample(logits[i], t, sm.u(stepIdx, i)));
    var accepted, order := EntropyBound.AcceptPositions(entropy, params.entropyBound);
    var next, sum := Renoise(sm, stepIdx, entropy, denoiser, accepted);
    step := Step(t, argmax, entropy, denoiser, accepted, next, sum);
    assert EntropyBound.FollowsRule(step.entropy, params.entropyBound, order, step.accepted);
  }

  method Renoise(sm: Sampler, stepIdx: nat, entropy: seq<real>, denoiser: seq<nat>, accepted: seq<bool>)
    returns (next: seq<nat>, sum: real)
    requires |entropy| == |denoiser| == |accepted|
    ensures |next| == |denoiser| && sum == SumOf(entropy)
    ensures forall i | 0 <= i < |next| :: next[i] == if accepted[i] then denoiser[i] else sm.renoise(stepIdx, i)
  {
    next, sum := [], 0.0;
    for pos := 0 to |denoiser|
      invariant |next| == pos && sum == SumOf(entropy[..pos])
      invariant forall i | 0 <= i < pos :: next[i] == if accepted[i] then denoiser[i] else sm.renoise(stepIdx, i)
    {
      next := next + [if accepted[pos] then denoiser[pos] else sm.renoise(stepIdx, pos)];
      assert entropy[..pos + 1][..pos] == entropy[..pos];
      sum := sum + entropy[pos];
    }
    assert entropy[..|denoiser|] == entropy;
  }

  // ---- The denoise loop -------------------------------------------------------------------------

  datatype Record = Record(stepIdx: nat, canvasIn: seq<nat>, step: Step, finished: bool)

  /** What step `i` is conditioned on: nothing at first, then the previous step's plain-forward logits
      and inverse temperature. */
  ghost function Conditioning(net: Net, prompt: seq<nat>, records: seq<Record>, i: nat): SelfCond
    requires i <= |records|
    decreases i, 0
  {
    if i == 0 then Off else On(StepLogits(net, prompt, records, i - 1), records[i - 1].step.tempInv)
  }

  ghost function StepLogits(net: Net, prompt: seq<nat>, records: seq<Record>, i: nat): seq<Row>
    requires i < |records|
    decreases i, 1
  {
    FullLogits(net, prompt, records[i].canvasIn, Conditioning(net, prompt, records, i))
  }

  lemma {:induction false} ConditioningPrefix(net: Net, prompt: seq<nat>, a: seq<Record>, r: Record, i: nat)
    requires i <= |a|
    ensures Conditioning(net, prompt, a + [r], i) == Conditioning(net, prompt, a, i)
    ensures i < |a| ==> StepLogits(net, prompt, a + [r], i) == StepLogits(net, prompt, a, i)
  {
    if i > 0 {
      ConditioningPrefix(net, prompt, a, r, i - 1);
    }
  }

  function InitialCanvas(sm: Sampler, c: nat): (r: seq<nat>)
    ensures |r| == c
  {
    seq<nat>(c, i requires 0 <= i < c => sm.canvasInit(i))
  }

  ghost function CanvasInto(sm: Sampler, c: nat, records: seq<Record>, i: nat): seq<nat>
    requires i <= |records|
  {
    if i == 0 then InitialCanvas(sm, c) else records[i - 1].step.nextCanvas
  }

  ghost predicate RepeatsArgmax(records: seq<Record>, k: int) {
    0 < k < |records| && records[k].step.argmax == records[k - 1].step.argmax
  }

  /** Exactly the last `h` steps up to `i` repeat their predecessor's argmax. */
  ghost predicate TrailingRepeats(records: seq<Record>, i: nat, h: nat)
    requires i < |records|
  {
    && h <= i
    && (forall k | i - h < k <= i :: RepeatsArgmax(records, k))
    && (h < i ==> !RepeatsArgmax(records, i - h))
  }

  lemma TrailingUnique(records: seq<Record>, i: nat, a: nat, b: nat)
    requires i < |records| && TrailingRepeats(records, i, a) && TrailingRepeats(records, i, b)
    ensures a == b
  {
    assert a < b ==> RepeatsArgmax(records, i - a);
    assert b < a ==> RepeatsArgmax(records, i - b);
  }

  /** Mean entropy under the threshold; an empty canvas has no mean and is never confident. */
  predicate Confident(params: Params, c: nat, step: Step) {
    c > 0 && step.entropySum / (c as real) < params.confidence
  }

  /** The stop rule: the argmax has been stable for the threshold and the step is confident. */
  ghost predicate StopsAt(params: Params, c: nat, records: seq<Record>, i: nat)
    requires i < |records|
  {
    Confident(params, c, records[i].step) && exists h: nat :: TrailingRepeats(records, i, h) && h >= params.stability
  }

  /** Step `i` of a denoise run, against the plain full forward. */
  ghost predicate StepFollows(net: Net, sm: Sampler, params: Params, prompt: seq<nat>, records: seq<Record>, i: nat)
    requires i < |records|
  {
    && records[i].stepIdx == i
    && records[i].canvasIn == CanvasInto(sm, net.canvasLength, records, i)
    && IsStep(sm, params, StepLogits(net, prompt, records, i), i, records[i].step)
    && (records[i].finished <==> StopsAt(params, net.canvasLength, records, i))
  }

  ghost predicate StepsFollow(net: Net, sm: Sampler, params: Params, prompt: seq<nat>, records: seq<Record>) {
    && (forall i: nat | i < |records| :: StepFollows(net, sm, params, prompt, records, i))
    && (forall i: nat | i + 1 < |records| :: !records[i].finished)
  }

  /** A whole run: it ends at the first stable and confident step, or after all scheduled steps. */
  ghost predicate DenoiseRun(net: Net, sm: Sampler, params: Params, prompt: seq<nat>, records: seq<Record>) {
    && StepsFollow(net, sm, params, prompt, records)
    && 1 <= |records| <= Steps(params)
    && (records[|records| - 1].finished || |records| == Steps(params))
  }

  /** Appending a record leaves what was said of the earlier steps unchanged. */
  lemma StepFollowsPrefix(net: Net, sm: Sampler, params: Params, prompt: seq<nat>, a: seq<Record>, r: Record, i: nat)
    requires i < |a| && StepFollows(net, sm, params, prompt, a, i)
    ensures StepFollows(net, sm, params, prompt, a + [r], i)
  {
    ConditioningPrefix(net, prompt, a, r, i);
    forall h: nat
      ensures TrailingRepeats(a + [r], i, h) <==> TrailingRepeats(a, i, h)
    {
      assert forall k | 0 < k <= i :: RepeatsArgmax(a + [r], k) <==> RepeatsArgmax(a, k);
    }
  }

  /** The `held` counter after the step just appended. */
  lemma HeldCounts(a: seq<Record>, r: Record, held: nat)
    requires a != [] ==> TrailingRepeats(a, |a| - 1, held)
    ensures TrailingRepeats(a + [r], |a|,
              if a != [] && a[|a| - 1].step.argmax == r.step.argmax then held + 1 else 0)
  {
    var b := a + [r];
    assert forall k | 0 < k < |a| :: RepeatsArgmax(b, k) <==> RepeatsArgmax(a, k);
  }

  lemma AppendStep(net: Net, sm: Sampler, params: Params, prompt: seq<nat>, a: seq<Record>, r: Record)
    requires StepsFollow(net, sm, params, prompt, a) && (a != [] ==> !a[|a| - 1].finished)
    requires StepFollows(net, sm, params, prompt, a + [r], |a|)
    ensures StepsFollow(net, sm, params, prompt, a + [r])
  {
    var b := a + [r];
    forall i: nat | i < |b|
      ensures StepFollows(net, sm, params, prompt, b, i)
    {
      if i < |a| {
        StepFollowsPrefix(net, sm, params, prompt, a, r, i);
      }
    }
  }

  // ---- A run is determined by its inputs -----------------------------------------------------------

  lemma StepUnique(sm: Sampler, params: Params, logits: seq<Row>, i: nat, a: Step, b: Step)
    requires IsStep(sm, params, logits, i, a) && IsStep(sm, params, logits, i, b)
    ensures a == b
  {
    assert a.argmax == b.argmax && a.entropy == b.entropy && a.denoiser == b.denoiser;
    var o :| EntropyBound.FollowsRule(a.entropy, params.entropyBound, o, a.accepted);
    var q :| EntropyBound.FollowsRule(b.entropy, params.entropyBound, q, b.accepted);
    EntropyBound.RuleUnique(a.entropy, params.entropyBound, o, a.accepted, q, b.accepted);
    assert a.nextCanvas == b.nextCanvas;
  }

  lemma {:induction false} SameConditioning(net: Net, prompt: seq<nat>, a: seq<Record>, b: seq<Record>, i: nat)
    requires i <= |a| && i <= |b| && a[..i] == b[..i]
    ensures Conditioning(net, prompt, a, i) == Conditioning(net, prompt, b, i)
  {
    if i > 0 {
      assert a[i - 1] == a[..i][i - 1] == b[..i][i - 1] == b[i - 1];
      assert a[..i - 1] == a[..i][..i - 1] == b[..i - 1];
      SameConditioning(net, prompt, a, b, i - 1);
    }
  }

  lemma SameStops(params: Params, c: nat, a: seq<Record>, b: seq<Record>, i: nat)
    requires i < |a| && i < |b| && a[..i] == b[..i] && a[i].step == b[i].step
    ensures StopsAt(params, c, a, i) <==> StopsAt(params, c, b, i)
  {
    forall h: nat
      ensures TrailingRepeats(a, i, h) <==> TrailingRepeats(b, i, h)
    {
      assert forall k | 0 <= k < i :: a[k] == a[..i][k] == b[..i][k] == b[k];
      assert forall k | 0 < k <= i :: RepeatsArgmax(a, k) <==> RepeatsArgmax(b, k);
    }
  }

  lemma {:induction false} RunsAgree(net: Net, sm: Sampler, params: Params, prompt: seq<nat>, a: seq<Record>,
                                     b: seq<Record>, n: nat)
    requires StepsFollow(net, sm, params, prompt, a) && StepsFollow(net, sm, params, prompt, b)
    requires n <= |a| && n <= |b|
    ensures a[..n] == b[..n]
  {
    if n > 0 {
      var i := n - 1;
      RunsAgree(net, sm, params, prompt, a, b, i);
      assert StepFollows(net, sm, params, prompt, a, i) && StepFollows(net, sm, params, prompt, b, i);
      assert i > 0 ==> a[i - 1] == a[..i][i - 1] == b[..i][i - 1] == b[i - 1];
      SameConditioning(net, prompt, a, b, i);
      StepUnique(sm, params, StepLogits(net, prompt, a, i), i, a[i].step, b[i].step);
      SameStops(params, net.canvasLength, a, b, i);
      assert a[..n] == a[..i] + [a[i]] && b[..n] == b[..i] + [b[i]];
    }
  }

  /** The network, the sampler's draws, the parameters and the prompt determine the whole run. Fast mode, the
      step cache and its failures have no influence. */
  lemma DenoiseRunUnique(net: Net, sm: Sampler, params: Params, prompt: seq<nat>, a: seq<Record>, b: seq<Record>)
    requires DenoiseRun(net, sm, params, prompt, a) && DenoiseRun(net, sm, params, prompt, b)
    ensures a == b
  {
    var n := if |a| <= |b| then |a| else |b|;
    RunsAgree(net, sm, params, prompt, a, b, n);
    assert a[n - 1] == a[..n][n - 1] == b[..n][n - 1] == b[n - 1];
    assert a == a[..|a|] && b == b[..|b|];
  }

  /** The stability counter as the source keeps it: `previous` starts as a value no argmax equals (unless
      the canvas is empty, when the counter runs one ahead and no step is ever confident). */
  ghost predicate Held(records: seq<Record>, c: nat, previous: seq<int>, held: int) {
    && (records == [] ==> held == 0 && previous == seq(c, _ => -1))
    && (records != [] ==> previous == records[|records| - 1].step.argmax)
    && (records != [] && c > 0 ==> held >= 0 && TrailingRepeats(records, |records| - 1, held))
  }

  method Stability(params: Params, c: nat, ghost a: seq<Record>, previous: seq<int>, held: int,
                   ghost canvas: seq<nat>, step: Step)
    returns (next: int, finished: bool)
    requires Held(a, c, previous, held) && |step.argmax| == c
    ensures var b := a + [Record(|a|, canvas, step, finished)];
            Held(b, c, step.argmax, next) && (finished <==> StopsAt(params, c, b, |a|))
  {
    next := if previous == step.argmax then held + 1 else 0;
    finished := next >= params.stability && Confident(params, c, step);
    ghost var r := Record(|a|, canvas, step, finished);
    ghost var b := a + [r];
    if c > 0 {
      assert a == [] ==> previous[0] == -1 && step.argmax[0] >= 0;
      HeldCounts(a, r, if a == [] then 0 else held);
      assert TrailingRepeats(b, |a|, next);
      forall h: nat | TrailingRepeats(b, |a|, h)
        ensures h == next
      {
        TrailingUnique(b, |a|, h, next);
      }
    }
  }

  /** Between steps: what has been recorded is the unfinished start of a run, and the canvas and conditioning
      are the next step's. */
  ghost predicate Midway(net: Net, sm: Sampler, params: Params, prompt: seq<nat>, records: seq<Record>,
                         canvas: seq<nat>, sc: SelfCond) {
    && StepsFollow(net, sm, params, prompt, records)
    && (records != [] ==> prompt != [] && !records[|records| - 1].finished)
    && canvas == CanvasInto(sm, net.canvasLength, records, |records|) && |canvas| == net.canvasLength
    && sc == Conditioning(net, prompt, records, |records|)
  }

  lemma StepOn(net: Net, sm: Sampler, params: Params, prompt: seq<nat>, a: seq<Record>, canvas: seq<nat>, sc: SelfCond,
               logits: seq<Row>, r: Record)
    requires Midway(net, sm, params, prompt, a, canvas, sc) && prompt != [] && r.stepIdx == |a| && r.canvasIn == canvas
    requires logits == FullLogits(net, prompt, canvas, sc) && |logits| == net.canvasLength
    requires IsStep(sm, params, logits, |a|, r.step)
    requires r.finished <==> StopsAt(params, net.canvasLength, a + [r], |a|)
    ensures StepsFollow(net, sm, params, prompt, a + [r])
    ensures !r.finished ==> Midway(net, sm, params, prompt, a + [r], r.step.nextCanvas, On(logits, r.step.tempInv))
  {
    ConditioningPrefix(net, prompt, a, r, |a|);
    AppendStep(net, sm, params, prompt, a, r);
  }

  /** Every token the sampler can name has an embedding row. */
  ghost predicate InTable(net: Net, sm: Sampler) {
    && (forall i :: net.readable(sm.canvasInit(i))) && (forall row, t :: net.readable(sm.argmax(row, t)))
    && (forall row, t, u :: net.readable(sm.sample(row, t, u))) && (forall step, i :: net.readable(sm.renoise(step, i)))
  }

  lemma StepReadable(net: Net, sm: Sampler, params: Params, logits: seq<Row>, stepIdx: nat, step: Step)
    requires InTable(net, sm) && IsStep(sm, params, logits, stepIdx, step)
    ensures Readable(net, step.nextCanvas) && Readable(net, step.argmax)
  {
    var order :| EntropyBound.FollowsRule(step.entropy, params.entropyBound, order, step.accepted);
    forall i | 0 <= i < |step.nextCanvas|
      ensures net.readable(step.nextCanvas[i])
    {
      assert step.nextCanvas[i] == if step.accepted[i] then step.denoiser[i] else sm.renoise(stepIdx, i);
      var u := sm.u(stepIdx, i);
      assert net.readable(sm.sample(logits[i], step.tempInv, u));
      assert net.readable(sm.renoise(stepIdx, i));
    }
    forall i | 0 <= i < |step.argmax|
      ensures net.readable(step.argmax[i])
    {
      assert step.argmax[i] == sm.argmax(logits[i], step.tempInv);
    }
  }

  /** A denoise run step by step. The first canvas is drawn and unconditioned, every later one is the previous step's
      and conditioned on the previous step's logits and temperature; arguments, entropies and draws are read off the
      step's own logits; the step keeps the accepted draws and renoises the rest. */
  lemma RunEquations(net: Net, sm: Sampler, params: Params, prompt: seq<nat>, records: seq<Record>, i: nat)
    returns (logits: seq<Row>)
    requires DenoiseRun(net, sm, params, prompt, records) && i < |records|
    ensures records[i].stepIdx == i && |records[i].canvasIn| == net.canvasLength
    ensures Conditioning(net, prompt, records, 0) == Off
    ensures i == 0 ==> forall j | 0 <= j < net.canvasLength :: records[0].canvasIn[j] == sm.canvasInit(j)
    ensures i > 0 ==> records[i].canvasIn == records[i - 1].step.nextCanvas && !records[i - 1].finished
    ensures i > 0 ==>
              Conditioning(net, prompt, records, i)
              == On(FullLogits(net, prompt, records[i - 1].canvasIn, Conditioning(net, prompt, records, i - 1)),
                    records[i - 1].step.tempInv)
    ensures logits == FullLogits(net, prompt, records[i].canvasIn, Conditioning(net, prompt, records, i))
    ensures |logits| == net.canvasLength
    ensures var step := records[i].step;
            && step.tempInv == sm.tempInv(i, if params.maxSteps < 1 then 1 else params.maxSteps)
            && |step.argmax| == |step.entropy| == |step.denoiser| == net.canvasLength
            && |step.accepted| == |step.nextCanvas| == net.canvasLength
            && (forall j | 0 <= j < net.canvasLength :: step.argmax[j] == sm.argmax(logits[j], step.tempInv))
            && (forall j | 0 <= j < net.canvasLength :: step.entropy[j] == sm.entropy(logits[j], step.tempInv))
            && (forall j | 0 <= j < net.canvasLength ::
                  step.denoiser[j] == sm.sample(logits[j], step.tempInv, sm.u(i, j)))
            && (forall j | 0 <= j < net.canvasLength ::
                  step.nextCanvas[j] == if step.accepted[j] then step.denoiser[j] else sm.renoise(i, j))
  {
    assert StepFollows(net, sm, params, prompt, records, i);
    logits := StepLogits(net, prompt, records, i);
    CanvasLengths(net, sm, params, prompt, records, i);
    var step := records[i].step;
    var order :| EntropyBound.FollowsRule(step.entropy, params.entropyBound, order, step.accepted);
    if i > 0 {
      assert StepFollows(net, sm, params, prompt, records, i - 1) && !records[i - 1].finished;
    }
  }

  /** A step finishes the run exactly when the argmax is the one of each of the `stability` steps before it and the mean
      entropy is below the confidence threshold; a canvas without positions never does. */
  lemma FinishedIff(net: Net, sm: Sampler, params: Params, prompt: seq<nat>, records: seq<Record>, i: nat)
    requires DenoiseRun(net, sm, params, prompt, records) && i < |records|
    ensures records[i].finished
            <==> (&& net.canvasLength > 0
                  && records[i].step.entropySum / (net.canvasLength as real) < params.confidence
                  && params.stability <= i
                  && forall j: nat | i - params.stability <= j <= i ::
                       records[j].step.argmax == records[i].step.argmax)
  {
    assert StepFollows(net, sm, params, prompt, records, i);
    var h := RepeatsEndingAt(records, i);
    forall g: nat | TrailingRepeats(records, i, g)
      ensures g == h
    {
      TrailingUnique(records, i, g, h);
    }
    SameSince(records, i, h);
    if h < params.stability <= i {
      assert !RepeatsArgmax(records, i - h) && records[i - h - 1].step.argmax != records[i - h].step.argmax;
    }
  }

  lemma {:induction false} SameSince(records: seq<Record>, i: nat, h: nat)
    requires i < |records| && TrailingRepeats(records, i, h)
    ensures forall j: nat | i - h <= j <= i :: records[j].step.argmax == records[i].step.argmax
    decreases h
  {
    if h > 0 {
      assert RepeatsArgmax(records, i);
      var b := i - 1;
      assert TrailingRepeats(records, b, h - 1);
      SameSince(records, b, h - 1);
    }
  }

  /** How many of the steps up to `i` repeat their predecessor's argmax without a break. */
  lemma {:induction false} RepeatsEndingAt(records: seq<Record>, i: nat) returns (h: nat)
    requires i < |records|
    ensures TrailingRepeats(records, i, h)
  {
    h := 0;
    if RepeatsArgmax(records, i) {
      var g := RepeatsEndingAt(records, i - 1);
      h := g + 1;
    }
  }

  lemma RunShape(net: Net, sm: Sampler, params: Params, prompt: seq<nat>, records: seq<Record>)
    requires DenoiseRun(net, sm, params, prompt, records)
    ensures 1 <= |records| <= (if params.maxSteps < 1 then 1 else params.maxSteps)
    ensures !records[|records| - 1].finished ==> |records| == if params.maxSteps < 1 then 1 else params.maxSteps
    ensures forall i: nat | i < |records| ::
              records[i].step.tempInv == sm.tempInv(i, if params.maxSteps < 1 then 1 else params.maxSteps)
  {
    forall i: nat | i < |records|
      ensures records[i].step.tempInv == sm.tempInv(i, if params.maxSteps < 1 then 1 else params.maxSteps)
    {
      assert StepFollows(net, sm, params, prompt, records, i);
    }
  }

  /** `eb_generate`: with the prefix cache in use, and whichever layers' fast attention fails, the run is
      a denoise run over the plain full forward. */
  method Denoise(net: Net, sm: Sampler, params: Params, fastMode: bool, prompt: seq<nat>)
    returns (r: Result<seq<Record>>)
    ensures r.Ok? ==> prompt != [] && Readable(net, prompt)
    ensures InTable(net, sm) ==> (r.Ok? <==> prompt != [] && Readable(net, prompt))
    ensures r.Ok? ==> DenoiseRun(net, sm, params, prompt, r.value)
    ensures r.Ok? ==> 1 <= |r.value| <= (if params.maxSteps < 1 then 1 else params.maxSteps)
    ensures r.Ok? && !r.value[|r.value| - 1].finished ==>
              |r.value| == if params.maxSteps < 1 then 1 else params.maxSteps
    ensures r.Ok? ==> forall i: nat | i < |r.value| ::
              r.value[i].step.tempInv == sm.tempInv(i, if params.maxSteps < 1 then 1 else params.maxSteps)
  {
    r := DenoiseLoop(net, sm, params, fastMode, prompt);
    if r.Ok? {
      RunShape(net, sm, params, prompt, r.value);
    }
  }

  method DenoiseLoop(net: Net, sm: Sampler, params: Params, fastMode: bool, prompt: seq<nat>)
    returns (r: Result<seq<Record>>)
    ensures r.Ok? ==> prompt != [] && Readable(net, prompt)
    ensures InTable(net, sm) ==> (r.Ok? <==> prompt != [] && Readable(net, prompt))
    ensures r.Ok? ==> DenoiseRun(net, sm, params, prompt, r.value)
  {
    var c, s := net.canvasLength, Steps(params);
    var records: seq<Record>, canvas, sc, cache := [], InitialCanvas(sm, c), Off, None;
    var previous: seq<int>, held := seq(c, _ => -1), 0;
    for stepIdx := 0 to s
      invariant |records| == stepIdx && Usable(net, prompt, cache)
      invariant Held(records, c, previous, held)
      invariant Midway(net, sm, params, prompt, records, canvas, sc)
      invariant if records == [] then cache == None else Readable(net, prompt)
      invariant InTable(net, sm) ==> Readable(net, canvas)
    {
      var out;
      var cachedFast: nat -> bool, fullFast: nat -> bool := *, *;   // where the fast path completes
      out, cache := ForwardStep(net, fastMode, prompt, canvas, sc, cache, cachedFast, fullFast);
      if out.Err? {
        return Err;
      }
      var step := DenoiseStep(sm, params, out.value, stepIdx);
      var next, finished := Stability(params, c, records, previous, held, canvas, step);
      var record := Record(stepIdx, canvas, step, finished);
      StepOn(net, sm, params, prompt, records, canvas, sc, out.value, record);
      if InTable(net, sm) {
        StepReadable(net, sm, params, out.value, stepIdx, step);
      }
      previous, held, canvas, sc := step.argmax, next, step.nextCanvas, On(out.value, step.tempInv);
      records := records + [record];
      if finished {
        return Ok(records);
      }
    }
    r := Ok(records);
  }

  // ---- The block loop ---------------------------------------------------------------------------

  /** A denoised block: what the observer is handed, and the returned canvas and cut. */
  datatype Block = Block(prefix: seq<nat>, records: seq<Record>, canvas: seq<nat>, cut: nat)

  datatype Stop = Blocks | Trim | Ubatch

  datatype Generation = Generation(blocks: seq<Block>, response: seq<nat>, stop: Stop)

  function Kept(b: Block): seq<nat> {
    if b.cut <= |b.canvas| then b.canvas[..b.cut] else b.canvas
  }

  ghost function Response(blocks: seq<Block>): seq<nat> {
    if blocks == [] then [] else Response(blocks[..|blocks| - 1]) + Kept(blocks[|blocks| - 1])
  }

  /** `max_ubatch as usize`: a negative 32-bit limit becomes a huge 64-bit one. */
  function UbatchLimit(maxUbatch: int): int {
    if maxUbatch >= 0 then maxUbatch else maxUbatch + 0x1_0000_0000_0000_0000
  }

  function BlockCount(nBlocks: int): nat {
    if nBlocks < 1 then 1 else nBlocks
  }

  /** One block: denoised over the prompt and everything committed so far, within the budget. */
  ghost predicate BlockFollows(net: Net, sm: Sampler, params: Params, eog: set<nat>, prompt: seq<nat>, maxUbatch: int,
                               committed: seq<nat>, b: Block) {
    && b.prefix == prompt + committed
    && |b.prefix| + net.canvasLength <= UbatchLimit(maxUbatch)
    && DenoiseRun(net, sm, params, b.prefix, b.records)
    && b.canvas == b.records[|b.records| - 1].step.argmax
    && |b.canvas| == net.canvasLength
    && IsTrim(b.canvas, eog, b.cut)
  }

  ghost predicate BlocksFollow(net: Net, sm: Sampler, params: Params, eog: set<nat>, prompt: seq<nat>, maxUbatch: int,
                               blocks: seq<Block>) {
    blocks != [] ==>
      var last := |blocks| - 1;
      && BlocksFollow(net, sm, params, eog, prompt, maxUbatch, blocks[..last])
      && (forall i | 0 <= i < last :: blocks[i].cut == net.canvasLength)
      && BlockFollows(net, sm, params, eog, prompt, maxUbatch, Response(blocks[..last]), blocks[last])
  }

  /** The response's length is fixed by the block count and the last cut. */
  lemma {:induction false} ResponseLength(c: nat, blocks: seq<Block>)
    requires blocks != [] && forall i | 0 <= i < |blocks| :: |blocks[i].canvas| == c && blocks[i].cut <= c
    requires forall i | 0 <= i < |blocks| - 1 :: blocks[i].cut == c
    ensures |Response(blocks)| == (|blocks| - 1) * c + blocks[|blocks| - 1].cut
  {
    var last := |blocks| - 1;
    if last > 0 {
      ResponseLength(c, blocks[..last]);
      OneMoreTimes(last - 1, c);
    } else {
      assert Response(blocks[..last]) == [];
    }
  }

  ghost predicate FullAt(c: nat, blocks: seq<Block>, k: nat) {
    k < |blocks| && |blocks[k].canvas| == c && blocks[k].cut == c
  }

  lemma {:induction false} FullLength(c: nat, blocks: seq<Block>)
    requires forall k: nat | k < |blocks| :: FullAt(c, blocks, k)
    ensures |Response(blocks)| == |blocks| * c
  {
    if blocks != [] {
      var n := |blocks| - 1;
      forall k: nat | k < n
        ensures FullAt(c, blocks[..n], k)
      {
        assert FullAt(c, blocks, k);
      }
      FullLength(c, blocks[..n]);
      assert FullAt(c, blocks, n);
      OneMoreTimes(n, c);
    }
  }

  /** Every block is a denoise of the prompt plus all earlier canvases in full, cut where it should be. */
  lemma {:induction false} EachBlock(net: Net, sm: Sampler, params: Params, eog: set<nat>, prompt: seq<nat>,
                                     maxUbatch: int, blocks: seq<Block>, i: nat)
    requires BlocksFollow(net, sm, params, eog, prompt, maxUbatch, blocks) && i < |blocks|
    ensures BlockFollows(net, sm, params, eog, prompt, maxUbatch, Response(blocks[..i]), blocks[i])
    ensures i < |blocks| - 1 ==> blocks[i].cut == net.canvasLength
    decreases |blocks|
  {
    if i < |blocks| - 1 {
      assert blocks[..|blocks| - 1][..i] == blocks[..i];
      EachBlock(net, sm, params, eog, prompt, maxUbatch, blocks[..|blocks| - 1], i);
    }
  }

  ghost predicate Clean(tokens: seq<nat>, eog: set<nat>) {
    forall k | 0 <= k < |tokens| :: tokens[k] !in eog
  }

  /** No end-of-generation token reaches the response. */
  lemma {:induction false} ResponseIsClean(net: Net, sm: Sampler, params: Params, eog: set<nat>, prompt: seq<nat>,
                                           maxUbatch: int, blocks: seq<Block>)
    requires BlocksFollow(net, sm, params, eog, prompt, maxUbatch, blocks)
    ensures Clean(Response(blocks), eog)
  {
    if blocks != [] {
      var last := |blocks| - 1;
      EachBlock(net, sm, params, eog, prompt, maxUbatch, blocks, last);
      TrimmedIsClean(blocks[last].canvas, eog, blocks[last].cut);
      ResponseIsClean(net, sm, params, eog, prompt, maxUbatch, blocks[..last]);
    }
  }

  lemma PrefixLength(net: Net, sm: Sampler, params: Params, eog: set<nat>, prompt: seq<nat>, maxUbatch: int,
                     blocks: seq<Block>, i: nat)
    requires BlocksFollow(net, sm, params, eog, prompt, maxUbatch, blocks) && i < |blocks|
    ensures |blocks[i].prefix| == |prompt| + i * net.canvasLength
  {
    EachBlock(net, sm, params, eog, prompt, maxUbatch, blocks, i);
    CommittedLength(net, sm, params, eog, prompt, maxUbatch, blocks, i);
  }

  lemma CommittedLength(net: Net, sm: Sampler, params: Params, eog: set<nat>, prompt: seq<nat>, maxUbatch: int,
                        blocks: seq<Block>, i: nat)
    requires BlocksFollow(net, sm, params, eog, prompt, maxUbatch, blocks) && i < |blocks|
    ensures |Response(blocks[..i])| == i * net.canvasLength
  {
    var c, full := net.canvasLength, blocks[..i];
    forall k: nat | k < i
      ensures FullAt(c, full, k)
    {
      EachBlock(net, sm, params, eog, prompt, maxUbatch, blocks, k);
    }
    FullLength(c, full);
  }

  /** The stop reason names the condition that held, and no earlier one did. */
  ghost predicate StopFollows(net: Net, prompt: seq<nat>, nBlocks: int, maxUbatch: int, g: Generation) {
    && 1 <= |g.blocks| <= BlockCount(nBlocks)
    && var full := g.blocks[|g.blocks| - 1].cut == net.canvasLength;
       var fits := |prompt| + |g.response| + net.canvasLength <= UbatchLimit(maxUbatch);
       && (g.stop == Trim <==> !full)
       && (g.stop == Blocks <==> full && |g.blocks| == BlockCount(nBlocks))
       && (g.stop == Ubatch <==> full && |g.blocks| < BlockCount(nBlocks) && !fits)
  }

  /** Between blocks: everything so far was committed in full. */
  ghost predicate Ongoing(net: Net, sm: Sampler, params: Params, eog: set<nat>, prompt: seq<nat>, maxUbatch: int,
                          blocks: seq<Block>, response: seq<nat>) {
    && BlocksFollow(net, sm, params, eog, prompt, maxUbatch, blocks)
    && response == Response(blocks)
    && forall i | 0 <= i < |blocks| :: blocks[i].cut == net.canvasLength
  }

  ghost predicate Finished(net: Net, sm: Sampler, params: Params, eog: set<nat>, prompt: seq<nat>, maxUbatch: int,
                           blocks: seq<Block>, response: seq<nat>) {
    BlocksFollow(net, sm, params, eog, prompt, maxUbatch, blocks) && response == Response(blocks)
  }

  lemma AppendBlock(net: Net, sm: Sampler, params: Params, eog: set<nat>, prompt: seq<nat>, maxUbatch: int,
                    blocks: seq<Block>, response: seq<nat>, b: Block)
    requires Ongoing(net, sm, params, eog, prompt, maxUbatch, blocks, response)
    requires BlockFollows(net, sm, params, eog, prompt, maxUbatch, response, b)
    ensures Finished(net, sm, params, eog, prompt, maxUbatch, blocks + [b], response + Kept(b))
    ensures b.cut == net.canvasLength ==>
              Ongoing(net, sm, params, eog, prompt, maxUbatch, blocks + [b], response + Kept(b))
  {
    assert (blocks + [b])[..|blocks|] == blocks;
  }

  /** A prompt whose first block fits the ubatch limit and whose ids can all be embedded. */
  predicate CanStart(net: Net, prompt: seq<nat>, maxUbatch: int) {
    prompt != [] && Readable(net, prompt) && |prompt| + net.canvasLength <= UbatchLimit(maxUbatch)
  }

  /** A run that ends between blocks ends after a full one. */
  lemma EndsFull(net: Net, sm: Sampler, params: Params, eog: set<nat>, prompt: seq<nat>, maxUbatch: int,
                 blocks: seq<Block>, response: seq<nat>)
    requires Ongoing(net, sm, params, eog, prompt, maxUbatch, blocks, response) && blocks != []
    ensures Finished(net, sm, params, eog, prompt, maxUbatch, blocks, response)
    ensures blocks[|blocks| - 1].cut == net.canvasLength
  {
  }

  /** As long as every token named so far has an embedding row, so do all the later ones. */
  ghost predicate StaysReadable(net: Net, sm: Sampler, prompt: seq<nat>, prefix: seq<nat>) {
    InTable(net, sm) && Readable(net, prompt) ==> Readable(net, prefix)
  }

  /** `mc_generate_with_steps`. */
  method GenerateBlocks(net: Net, sm: Sampler, params: Params, fastMode: bool, eog: set<nat>, prompt: seq<nat>,
                        nBlocks: int, maxUbatch: int) returns (r: Result<Generation>)
    ensures r.Ok? ==> CanStart(net, prompt, maxUbatch)
    ensures InTable(net, sm) ==> (r.Ok? <==> CanStart(net, prompt, maxUbatch))
    ensures r.Ok? ==> Finished(net, sm, params, eog, prompt, maxUbatch, r.value.blocks, r.value.response)
    ensures r.Ok? ==> StopFollows(net, prompt, nBlocks, maxUbatch, r.value)
    ensures r.Ok? ==> 1 <= |r.value.blocks| <= (if nBlocks < 1 then 1 else nBlocks)
    ensures r.Ok? && r.value.stop == Blocks ==> |r.value.blocks| == if nBlocks < 1 then 1 else nBlocks
    ensures r.Ok? && maxUbatch >= 0 ==> |prompt| + net.canvasLength <= maxUbatch
    ensures r.Ok? && r.value.stop == Ubatch ==>
              |prompt| + |r.value.response| + net.canvasLength
              > if maxUbatch >= 0 then maxUbatch else 0x1_0000_0000_0000_0000 + maxUbatch
    ensures InTable(net, sm) && prompt != [] && Readable(net, prompt) ==>
              (r.Ok? <==> |prompt| + net.canvasLength
                          <= if maxUbatch >= 0 then maxUbatch else 0x1_0000_0000_0000_0000 + maxUbatch)
  {
    r := BlockLoop(net, sm, params, fastMode, eog, prompt, nBlocks, maxUbatch);
  }

  method BlockLoop(net: Net, sm: Sampler, params: Params, fastMode: bool, eog: set<nat>, prompt: seq<nat>,
                   nBlocks: int, maxUbatch: int) returns (r: Result<Generation>)
    ensures r.Ok? ==> CanStart(net, prompt, maxUbatch)
    ensures InTable(net, sm) ==> (r.Ok? <==> CanStart(net, prompt, maxUbatch))
    ensures r.Ok? ==> Finished(net, sm, params, eog, prompt, maxUbatch, r.value.blocks, r.value.response)
    ensures r.Ok? ==> StopFollows(net, prompt, nBlocks, maxUbatch, r.value)
  {
    var blocks, response, prefix := [], [], prompt;
    for b := 0 to BlockCount(nBlocks)
      invariant |blocks| == b && prefix == prompt + response
      invariant Ongoing(net, sm, params, eog, prompt, maxUbatch, blocks, response)
      invariant b > 0 ==> CanStart(net, prompt, maxUbatch)
      invariant StaysReadable(net, sm, prompt, prefix)
    {
      if |prefix| + net.canvasLength > UbatchLimit(maxUbatch) {
        if b == 0 {
          return Err;
        }
        EndsFull(net, sm, params, eog, prompt, maxUbatch, blocks, response);
        return Ok(Generation(blocks, response, Ubatch));
      }
      var done := NextBlock(net, sm, params, fastMode, eog, prefix, prompt, blocks, response, maxUbatch);
      if done.Err? {
        return Err;
      }
      blocks, response := blocks + [done.value], response + Kept(done.value);
      if done.value.cut != net.canvasLength {
        return Ok(Generation(blocks, response, Trim));
      }
      prefix := prefix + Kept(done.value);
    }
    EndsFull(net, sm, params, eog, prompt, maxUbatch, blocks, response);
    r := Ok(Generation(blocks, response, Blocks));
  }

  /** One more block of a run in which everything so far was committed in full. */
  method NextBlock(net: Net, sm: Sampler, params: Params, fastMode: bool, eog: set<nat>, prefix: seq<nat>,
                   ghost prompt: seq<nat>, ghost blocks: seq<Block>, ghost response: seq<nat>, ghost maxUbatch: int)
    returns (r: Result<Block>)
    requires prefix == prompt + response && |prefix| + net.canvasLength <= UbatchLimit(maxUbatch)
    requires Ongoing(net, sm, params, eog, prompt, maxUbatch, blocks, response)
    ensures r.Ok? ==> prefix != [] && Readable(net, prompt)
    ensures InTable(net, sm) ==> (r.Ok? <==> prefix != [] && Readable(net, prefix))
    ensures r.Ok? ==> StaysReadable(net, sm, prompt, prefix + Kept(r.value))
    ensures r.Ok? ==>
              var b := r.value;
              && prompt + (response + Kept(b)) == prefix + Kept(b)
              && Finished(net, sm, params, eog, prompt, maxUbatch, blocks + [b], response + Kept(b))
              && (b.cut == net.canvasLength ==>
                    Ongoing(net, sm, params, eog, prompt, maxUbatch, blocks + [b], response + Kept(b)))
  {
    r := DenoiseBlock(net, sm, params, fastMode, eog, prefix, prompt, response, maxUbatch);
    if r.Ok? {
      AppendBlock(net, sm, params, eog, prompt, maxUbatch, blocks, response, r.value);
      Assoc(prompt, response, Kept(r.value));
      ReadableMore(net, prefix, r.value);
      ReadableStart(net, prompt, response);
    }
  }

  lemma ReadableStart(net: Net, prompt: seq<nat>, response: seq<nat>)
    requires Readable(net, prompt + response)
    ensures Readable(net, prompt)
  {
    forall i | 0 <= i < |prompt|
      ensures net.readable(prompt[i])
    {
      assert (prompt + response)[i] == prompt[i];
    }
  }

  lemma ReadableMore(net: Net, prefix: seq<nat>, b: Block)
    ensures Readable(net, prefix) && Readable(net, b.canvas) ==> Readable(net, prefix + Kept(b))
  {
  }

  /** One block of the loop, after the budget guard. */
  method DenoiseBlock(net: Net, sm: Sampler, params: Params, fastMode: bool, eog: set<nat>, prefix: seq<nat>,
                      ghost prompt: seq<nat>, ghost committed: seq<nat>, ghost maxUbatch: int)
    returns (r: Result<Block>)
    requires prefix == prompt + committed && |prefix| + net.canvasLength <= UbatchLimit(maxUbatch)
    ensures r.Ok? ==> prefix != [] && Readable(net, prefix)
    ensures InTable(net, sm) ==> (r.Ok? <==> prefix != [] && Readable(net, prefix))
    ensures r.Ok? && InTable(net, sm) ==> Readable(net, r.value.canvas)
    ensures r.Ok? ==> BlockFollows(net, sm, params, eog, prompt, maxUbatch, committed, r.value)
  {
    var run := Denoise(net, sm, params, fastMode, prefix);
    if run.Err? {
      return Err;
    }
    var records := run.value;
    var canvas := records[|records| - 1].step.argmax;
    LastCanvas(net, sm, params, prefix, records, canvas);
    var cut := TrimCanvas(canvas, eog);
    r := Ok(Block(prefix, records, canvas, cut));
  }

  lemma LastCanvas(net: Net, sm: Sampler, params: Params, prompt: seq<nat>, records: seq<Record>, canvas: seq<nat>)
    requires DenoiseRun(net, sm, params, prompt, records) && canvas == records[|records| - 1].step.argmax
    ensures |canvas| == net.canvasLength && (InTable(net, sm) ==> Readable(net, canvas))
  {
    var i := |records| - 1;
    CanvasLengths(net, sm, params, prompt, records, i);
    if InTable(net, sm) {
      assert StepFollows(net, sm, params, prompt, records, i);
      StepReadable(net, sm, params, StepLogits(net, prompt, records, i), i, records[i].step);
    }
  }

  lemma {:induction false} CanvasLengths(net: Net, sm: Sampler, params: Params, prompt: seq<nat>,
                                         records: seq<Record>, i: nat)
    requires i < |records| && StepsFollow(net, sm, params, prompt, records)
    ensures |records[i].canvasIn| == |records[i].step.argmax| == |records[i].step.nextCanvas| == net.canvasLength
  {
    assert StepFollows(net, sm, params, prompt, records, i);
    if i > 0 {
      CanvasLengths(net, sm, params, prompt, records, i - 1);
    }
  }
}
