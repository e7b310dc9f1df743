/** The byte formats between nodes: activation packets and token feedback (src/cluster.rs), headers and
    tensors (src/distributed.rs). Every field is a little-endian 32-bit word. */
module Wire {
  import opened Prelude

  type Byte = x: int | 0 <= x < 0x100
  type Word = x: int | 0 <= x < 0x1_0000_0000

  // ---- Words and bytes ----------------------------------------------------------------------------

  function ByteOf(w: Word, k: nat): Byte {
    if k == 0 then w % 0x100
    else if k == 1 then w / 0x100 % 0x100
    else if k == 2 then w / 0x1_0000 % 0x100
    else w / 0x100_0000
  }

  function FromLe(b0: Byte, b1: Byte, b2: Byte, b3: Byte): Word {
    b0 + 0x100 * b1 + 0x1_0000 * b2 + 0x100_0000 * b3
  }

  lemma LeRoundTrip(w: Word)
    ensures FromLe(ByteOf(w, 0), ByteOf(w, 1), ByteOf(w, 2), ByteOf(w, 3)) == w
  {
    assert w / 0x1_0000 == (w / 0x100) / 0x100;
    assert w / 0x100_0000 == (w / 0x1_0000) / 0x100;
  }

  lemma LeInverse(b0: Byte, b1: Byte, b2: Byte, b3: Byte)
    ensures var w := FromLe(b0, b1, b2, b3);
            ByteOf(w, 0) == b0 && ByteOf(w, 1) == b1 && ByteOf(w, 2) == b2 && ByteOf(w, 3) == b3
  {
    var r2: int := b2 + 0x100 * (b3 as int);
    var r1: int := b1 + 0x100 * r2;
    LowByte(b0, r1);
    LowByte(b1, r2);
    LowByte(b2, b3);
    var w: int := b0 + 0x100 * r1;
    assert w == FromLe(b0, b1, b2, b3);
    assert w / 0x1_0000 == w / 0x100 / 0x100 && w / 0x100_0000 == w / 0x100 / 0x100 / 0x100;
  }

  lemma LowByte(b: Byte, rest: nat)
    ensures (b as int + 0x100 * rest) % 0x100 == b && (b as int + 0x100 * rest) / 0x100 == rest
  {
  }

  function Le(w: Word): (b: seq<Byte>)
    ensures |b| == 4
  {
    [ByteOf(w, 0), ByteOf(w, 1), ByteOf(w, 2), ByteOf(w, 3)]
  }

  function Bytes(ws: seq<Word>): (b: seq<Byte>)
    ensures |b| == 4 * |ws|
  {
    if ws == [] then [] else Bytes(ws[..|ws| - 1]) + Le(ws[|ws| - 1])
  }

  function WordAt(b: seq<Byte>, i: nat): Word
    requires 4 * i + 4 <= |b|
  {
    FromLe(b[4 * i], b[4 * i + 1], b[4 * i + 2], b[4 * i + 3])
  }

  /** The first `n` words of a byte string. */
  function Words(b: seq<Byte>, n: nat): (ws: seq<Word>)
    requires 4 * n <= |b|
    ensures |ws| == n
  {
    if n == 0 then [] else Words(b, n - 1) + [WordAt(b, n - 1)]
  }

  lemma {:induction false} WordsIndex(b: seq<Byte>, n: nat, i: nat)
    requires 4 * n <= |b| && i < n
    ensures Words(b, n)[i] == WordAt(b, i)
  {
    if i < n - 1 {
      WordsIndex(b, n - 1, i);
    }
  }

  /** More bytes only append words. */
  lemma {:induction false} WordsPrefix(b: seq<Byte>, k: nat, n: nat)
    requires k <= n && 4 * n <= |b|
    ensures Words(b, n)[..k] == Words(b, k)
  {
    if k < n {
      WordsPrefix(b, k, n - 1);
      assert Words(b, n)[..k] == Words(b, n - 1)[..k];
    }
  }

  lemma WordAtAfter(b: seq<Byte>, w: Word, tail: seq<Byte>, i: nat)
    requires |b| == 4 * i
    ensures WordAt(b + Le(w) + tail, i) == w
  {
    LeRoundTrip(w);
  }

  lemma {:induction false} WordsOfBytes(ws: seq<Word>, tail: seq<Byte>)
    ensures Words(Bytes(ws) + tail, |ws|) == ws
  {
    if ws != [] {
      var n := |ws| - 1;
      var front, last := Bytes(ws[..n]), Le(ws[n]);
      assert front + last + tail == front + (last + tail);
      WordsOfBytes(ws[..n], last + tail);
      WordAtAfter(front, ws[n], tail, n);
    }
  }

  lemma {:induction false} BytesOfWords(b: seq<Byte>, n: nat)
    requires 4 * n <= |b|
    ensures Bytes(Words(b, n)) == b[..4 * n]
  {
    if n > 0 {
      BytesOfWords(b, n - 1);
      BytesOfNext(b, n - 1, Words(b, n - 1));
    }
  }

  lemma BytesOfNext(b: seq<Byte>, k: nat, ws: seq<Word>)
    requires 4 * k + 4 <= |b| && Bytes(ws) == b[..4 * k]
    ensures Bytes(ws + [WordAt(b, k)]) == b[..4 * k + 4]
  {
    BytesSnoc(ws, WordAt(b, k));
    LeOfWord(b, k);
    SliceJoin(b, 4 * k, 4 * k + 4);
  }

  lemma BytesSnoc(ws: seq<Word>, w: Word)
    ensures Bytes(ws + [w]) == Bytes(ws) + Le(w)
  {
    assert (ws + [w])[..|ws|] == ws;
  }

  lemma SliceJoin(b: seq<Byte>, i: nat, j: nat)
    requires i <= j <= |b|
    ensures b[..i] + b[i..j] == b[..j]
  {
  }

  lemma LeOfWord(b: seq<Byte>, i: nat)
    requires 4 * i + 4 <= |b|
    ensures Le(WordAt(b, i)) == b[4 * i..4 * i + 4]
  {
    LeInverse(b[4 * i], b[4 * i + 1], b[4 * i + 2], b[4 * i + 3]);
  }

  lemma {:induction false} BytesConcat(a: seq<Word>, b: seq<Word>)
    ensures Bytes(a + b) == Bytes(a) + Bytes(b)
  {
    if b == [] {
      assert a + b == a;
    } else {
      var n := |b| - 1;
      assert (a + b)[..|a + b| - 1] == a + b[..n];
      BytesConcat(a, b[..n]);
    }
  }

  // ---- Messages -----------------------------------------------------------------------------------

  /** A float travels as its bit pattern. Tensor dimensions are host integers, wider than the wire's. */
  datatype Message =
    | Activation(pos: Word, seqLen: Word, floats: seq<Word>)
    | Feedback(token: Word, finished: bool)
    | Header(magic: Word, isPrefill: Word, rows: Word, position: Word)
    | Tensor(dims: seq<nat>, data: seq<Word>)

  /** Which message the reader expects, and the receiver's limit for activations. */
  datatype Kind = ActivationKind(limit: nat) | FeedbackKind | HeaderKind | TensorKind

  const ACTIVATION_MAGIC: Word := 0xDEAD_BEEF
  const FEEDBACK_MAGIC: Word := 0xCAFE_FEED
  const DEFAULT_MAX_ACTIVATION_FLOATS: nat := 0x40_0000

  function Truncate(n: nat): Word {
    n % 0x1_0000_0000
  }

  function Truncated(ns: seq<nat>): (r: seq<Word>)
    ensures |r| == |ns| && forall i | 0 <= i < |ns| :: r[i] == Truncate(ns[i])
  {
    seq(|ns|, i requires 0 <= i < |ns| => Truncate(ns[i]))
  }

  /** The words a sender writes. Tensor sizes are cut to 32 bits without a check. */
  function AsWords(msg: Message): seq<Word> {
    match msg
    case Activation(pos, seqLen, floats) => [ACTIVATION_MAGIC, pos, seqLen, Truncate(|floats|)] + floats
    case Feedback(token, finished) => [FEEDBACK_MAGIC, token, if finished then 1 else 0]
    case Header(magic, isPrefill, rows, position) => [magic, isPrefill, rows, position]
    case Tensor(dims, data) => [Truncate(|dims|)] + Truncated(dims) + [Truncate(|data|)] + data
  }

  function Encode(msg: Message): seq<Byte> {
    Bytes(AsWords(msg))
  }

  /** The sizes a message of this kind can have and still be read back. */
  predicate Fits(kind: Kind, msg: Message) {
    match kind
    case ActivationKind(limit) => msg.Activation? && |msg.floats| <= limit && |msg.floats| < 0x1_0000_0000
    case FeedbackKind => msg.Feedback?
    case HeaderKind => msg.Header?
    case TensorKind =>
      && msg.Tensor? && |msg.dims| < 0x1_0000_0000 && |msg.data| < 0x1_0000_0000
      && forall i | 0 <= i < |msg.dims| :: msg.dims[i] < 0x1_0000_0000
  }

  /** What a receiver makes of the words available, and how many it consumes. */
  function Parse(kind: Kind, ws: seq<Word>): (r: Option<(Message, nat)>)
    ensures r.Some? ==> r.value.1 <= |ws|
  {
    match kind
    case ActivationKind(limit) => ParseActivation(limit, ws)
    case FeedbackKind =>
      if |ws| < 3 || ws[0] != FEEDBACK_MAGIC || ws[2] > 1 then None
      else Some((Feedback(ws[1], ws[2] == 1), 3))
    case HeaderKind =>
      if |ws| < 4 then None else Some((Header(ws[0], ws[1], ws[2], ws[3]), 4))
    case TensorKind => ParseTensor(ws)
  }

  function ParseActivation(limit: nat, ws: seq<Word>): (r: Option<(Message, nat)>)
    ensures r.Some? ==> r.value.1 <= |ws|
  {
    if |ws| < 4 || ws[0] != ACTIVATION_MAGIC || ws[3] > limit then None
    else
      var n: nat := ws[3];
      if |ws| < 4 + n then None else Some((Activation(ws[1], ws[2], ws[4..4 + n]), 4 + n))
  }

  function ParseTensor(ws: seq<Word>): (r: Option<(Message, nat)>)
    ensures r.Some? ==> r.value.1 <= |ws|
  {
    if |ws| < 1 then None
    else
      var d: nat := ws[0];
      if |ws| < d + 2 then None
      else
        var n: nat := ws[d + 1];
        if |ws| < d + 2 + n then None else Some((Tensor(ws[1..d + 1], ws[d + 2..d + 2 + n]), d + 2 + n))
  }

  lemma Assemble(ws: seq<Word>, d: nat, n: nat)
    requires |ws| >= d + 2 + n
    ensures ws[..d + 2 + n] == [ws[0]] + ws[1..d + 1] + [ws[d + 1]] + ws[d + 2..d + 2 + n]
  {
  }

  lemma Disassemble(ws: seq<Word>, x: Word, a: seq<Word>, y: Word, b: seq<Word>, n: nat)
    requires n <= |ws| && ws[..n] == [x] + a + [y] + b
    ensures n == |a| + 2 + |b| && ws[0] == x && ws[|a| + 1] == y && ws[1..|a| + 1] == a && ws[|a| + 2..n] == b
  {
    var whole := [x] + a + [y] + b;
    assert |ws[..n]| == n && ws[0] == whole[0] && ws[|a| + 1] == whole[|a| + 1];
    assert whole[1..|a| + 1] == a && whole[|a| + 2..] == b;
    assert ws[..n][1..|a| + 1] == ws[1..|a| + 1] && ws[..n][|a| + 2..] == ws[|a| + 2..n];
  }

  lemma TruncatedSnoc(head: seq<Word>, ns: seq<nat>, i: nat)
    requires i < |ns|
    ensures head + Truncated(ns[..i + 1]) == head + Truncated(ns[..i]) + [Truncate(ns[i])]
  {
    assert Truncated(ns[..i + 1]) == Truncated(ns[..i]) + [Truncate(ns[i])];
  }

  lemma TruncatedSmall(ns: seq<nat>)
    requires forall i | 0 <= i < |ns| :: ns[i] < 0x1_0000_0000
    ensures Truncated(ns) == ns
  {
  }

  /** A receiver reads exactly what was sent: it yields `msg` after `n` words if and only if those words
      are the ones a sender writes for `msg` and `msg` fits. */
  lemma ParseIff(kind: Kind, ws: seq<Word>, msg: Message, n: nat)
    ensures Parse(kind, ws) == Some((msg, n))
            <==> Fits(kind, msg) && n <= |ws| && ws[..n] == AsWords(msg)
  {
    if Fits(kind, msg) && n <= |ws| && ws[..n] == AsWords(msg) {
      SentIsParsed(kind, ws, msg, n);
    }
    if Parse(kind, ws) == Some((msg, n)) {
      ParsedWasSent(kind, ws, msg, n);
    }
  }

  lemma SentIsParsed(kind: Kind, ws: seq<Word>, msg: Message, n: nat)
    requires Fits(kind, msg) && n <= |ws| && ws[..n] == AsWords(msg)
    ensures Parse(kind, ws) == Some((msg, n))
  {
    match msg
    case Activation(pos, seqLen, floats) => SentActivationIsParsed(kind.limit, ws, pos, seqLen, floats, n);
    case Tensor(dims, data) => SentTensorIsParsed(ws, dims, data, n);
    case Feedback(_, _) =>
      assert forall i | 0 <= i < n :: ws[i] == AsWords(msg)[i];
    case Header(_, _, _, _) =>
      assert forall i | 0 <= i < n :: ws[i] == AsWords(msg)[i];
  }

  lemma SentActivationIsParsed(limit: nat, ws: seq<Word>, pos: Word, seqLen: Word, floats: seq<Word>, n: nat)
    requires |floats| <= limit && |floats| < 0x1_0000_0000
    requires n <= |ws| && ws[..n] == [ACTIVATION_MAGIC, pos, seqLen, |floats|] + floats
    ensures ParseActivation(limit, ws) == Some((Activation(pos, seqLen, floats), n))
  {
    var head := [pos, seqLen];
    assert [ACTIVATION_MAGIC, pos, seqLen, |floats|] + floats == [ACTIVATION_MAGIC] + head + [|floats|] + floats;
    Disassemble(ws, ACTIVATION_MAGIC, head, |floats|, floats, n);
    assert ws[1] == head[0] && ws[2] == head[1];
  }

  lemma SentTensorIsParsed(ws: seq<Word>, dims: seq<nat>, data: seq<Word>, n: nat)
    requires Fits(TensorKind, Tensor(dims, data)) && n <= |ws|
    requires ws[..n] == [Truncate(|dims|)] + Truncated(dims) + [Truncate(|data|)] + data
    ensures ParseTensor(ws) == Some((Tensor(dims, data), n))
  {
    Disassemble(ws, Truncate(|dims|), Truncated(dims), Truncate(|data|), data, n);
    TruncatedSmall(dims);
  }

  lemma ParsedWasSent(kind: Kind, ws: seq<Word>, msg: Message, n: nat)
    requires Parse(kind, ws) == Some((msg, n))
    ensures Fits(kind, msg) && n <= |ws| && ws[..n] == AsWords(msg)
  {
    match kind
    case TensorKind => ParsedTensorWasSent(ws, msg, n);
    case ActivationKind(limit) =>
      assert ws[..n] == [ws[0], ws[1], ws[2], ws[3]] + ws[4..n];
    case _ =>
  }

  lemma ParsedTensorWasSent(ws: seq<Word>, msg: Message, n: nat)
    requires ParseTensor(ws) == Some((msg, n))
    ensures Fits(TensorKind, msg) && n <= |ws| && ws[..n] == AsWords(msg)
  {
    var d: nat := ws[0];
    Assemble(ws, d, ws[d + 1]);
    TensorWords(ws[1..d + 1], ws[d + 2..n]);
  }

  lemma TensorWords(dims: seq<Word>, data: seq<Word>)
    requires |dims| < 0x1_0000_0000 && |data| < 0x1_0000_0000
    ensures Fits(TensorKind, Tensor(dims, data))
    ensures AsWords(Tensor(dims, data)) == [|dims|] + dims + [|data|] + data
  {
    TruncatedSmall(dims);
  }

  // ---- Back to back -------------------------------------------------------------------------------

  function Receive(kind: Kind, b: seq<Byte>): (r: Option<(Message, seq<Byte>)>) {
    Leaving(Parse(kind, Words(b, |b| / 4)), b)
  }

  function Leaving(p: Option<(Message, nat)>, b: seq<Byte>): Option<(Message, seq<Byte>)>
    requires p.Some? ==> 4 * p.value.1 <= |b|
  {
    if p.None? then None else Some((p.value.0, b[4 * p.value.1..]))
  }

  /** `all` is every whole word of `b`. */
  ghost predicate WordsIn(b: seq<Byte>, all: seq<Word>) {
    |all| == |b| / 4 && forall i: nat | i < |all| :: IsWordAt(b, all, i)
  }

  ghost predicate IsWordAt(b: seq<Byte>, all: seq<Word>, i: nat) {
    i < |all| && 4 * i + 4 <= |b| && all[i] == WordAt(b, i)
  }

  lemma AllWords(kind: Kind, b: seq<Byte>) returns (all: seq<Word>)
    ensures WordsIn(b, all) && Receive(kind, b) == Leaving(Parse(kind, all), b)
  {
    all := Words(b, |b| / 4);
    forall i: nat | i < |all|
      ensures IsWordAt(b, all, i)
    {
      WordsIndex(b, |b| / 4, i);
    }
  }

  lemma SplitBytes(b: seq<Byte>, n: nat, front: seq<Word>)
    requires 4 * n <= |b| && front == Words(b, n)
    ensures b == Bytes(front) + b[4 * n..]
  {
    BytesOfWords(b, n);
    SplitAt(b, 4 * n, Bytes(front));
  }

  lemma SplitAt(b: seq<Byte>, k: nat, front: seq<Byte>)
    requires k <= |b| && front == b[..k]
    ensures b == front + b[k..]
  {
  }

  lemma JoinBytes(ws: seq<Word>, rest: seq<Byte>, b: seq<Byte>)
    requires b == Bytes(ws) + rest
    ensures |ws| <= |b| / 4 && Words(b, |b| / 4)[..|ws|] == ws && b[4 * |ws|..] == rest
  {
    WordsOfBytes(ws, rest);
    WordsPrefix(b, |ws|, |b| / 4);
  }

  lemma ReceivedWasSent(kind: Kind, b: seq<Byte>, msg: Message, rest: seq<Byte>)
    requires Receive(kind, b) == Some((msg, rest))
    ensures Fits(kind, msg) && b == Encode(msg) + rest
  {
    var ws := Words(b, |b| / 4);
    var n := Parse(kind, ws).value.1;
    ParsedWasSent(kind, ws, msg, n);
    WordsPrefix(b, n, |b| / 4);
    SplitBytes(b, n, ws[..n]);
  }

  lemma SentIsReceived(kind: Kind, msg: Message, rest: seq<Byte>)
    requires Fits(kind, msg)
    ensures Receive(kind, Encode(msg) + rest) == Some((msg, rest))
  {
    var b, n := Encode(msg) + rest, |AsWords(msg)|;
    JoinBytes(AsWords(msg), rest, b);
    SentIsParsed(kind, Words(b, |b| / 4), msg, n);
  }

  /** On bytes: reading yields `msg` and leaves `rest` if and only if the bytes are the encoding of `msg`
      followed by `rest`, and `msg` fits. */
  lemma ReceiveIff(kind: Kind, b: seq<Byte>, msg: Message, rest: seq<Byte>)
    ensures Receive(kind, b) == Some((msg, rest)) <==> Fits(kind, msg) && b == Encode(msg) + rest
  {
    if Receive(kind, b) == Some((msg, rest)) {
      ReceivedWasSent(kind, b, msg, rest);
    }
    if Fits(kind, msg) && b == Encode(msg) + rest {
      SentIsReceived(kind, msg, rest);
    }
  }

  /** A framed activation is read exactly when its float count is within the receiver's limit. */
  lemma ActivationReceivedIff(limit: nat, pos: Word, seqLen: Word, floats: seq<Word>)
    requires |floats| < 0x1_0000_0000
    ensures Receive(ActivationKind(limit), Encode(Activation(pos, seqLen, floats))).Some? <==> |floats| <= limit
  {
    var msg := Activation(pos, seqLen, floats);
    var b, ws := Encode(msg), AsWords(msg);
    assert b == b + [];
    if |floats| <= limit {
      SentIsReceived(ActivationKind(limit), msg, []);
    } else {
      JoinBytes(ws, [], b);
      assert Words(b, |b| / 4)[3] == ws[3];
    }
  }

  ghost function EncodeAll(msgs: seq<Message>): seq<Byte> {
    if msgs == [] then [] else Encode(msgs[0]) + EncodeAll(msgs[1..])
  }

  ghost function ReceiveAll(kinds: seq<Kind>, b: seq<Byte>): Option<(seq<Message>, seq<Byte>)> {
    if kinds == [] then Some(([], b))
    else match Receive(kinds[0], b)
      case None => None
      case Some(first) =>
        match ReceiveAll(kinds[1..], first.1)
        case None => None
        case Some(others) => Some(([first.0] + others.0, others.1))
  }

  ghost predicate AllFit(kinds: seq<Kind>, msgs: seq<Message>) {
    |kinds| == |msgs| && forall i | 0 <= i < |msgs| :: Fits(kinds[i], msgs[i])
  }

  lemma {:induction false} SentAllReceived(kinds: seq<Kind>, msgs: seq<Message>, rest: seq<Byte>)
    requires AllFit(kinds, msgs)
    ensures ReceiveAll(kinds, EncodeAll(msgs) + rest) == Some((msgs, rest))
    decreases |kinds|
  {
    if kinds == [] {
      assert EncodeAll(msgs) + rest == rest;
    } else {
      var others := msgs[1..];
      assert msgs == [msgs[0]] + others;
      ConsMessage(kinds, msgs, msgs[0], others, rest);
      SentIsReceived(kinds[0], msgs[0], EncodeAll(others) + rest);
      SentAllReceived(kinds[1..], others, rest);
      ReceiveCons(kinds, EncodeAll(msgs) + rest, msgs[0], EncodeAll(others) + rest, others, rest);
    }
  }

  lemma ReceiveCons(kinds: seq<Kind>, b: seq<Byte>, msg: Message, after: seq<Byte>, others: seq<Message>,
                    rest: seq<Byte>)
    requires kinds != [] && Receive(kinds[0], b) == Some((msg, after))
             && ReceiveAll(kinds[1..], after) == Some((others, rest))
    ensures ReceiveAll(kinds, b) == Some(([msg] + others, rest))
  {
  }

  lemma {:induction false} ReceivedAllWasSent(kinds: seq<Kind>, b: seq<Byte>, msgs: seq<Message>, rest: seq<Byte>)
    requires ReceiveAll(kinds, b) == Some((msgs, rest))
    ensures AllFit(kinds, msgs) && b == EncodeAll(msgs) + rest
    decreases |kinds|
  {
    if kinds == [] {
      assert EncodeAll(msgs) + rest == rest;
    } else {
      var first := Receive(kinds[0], b).value;
      var others := ReceiveAll(kinds[1..], first.1).value;
      ReceivedWasSent(kinds[0], b, first.0, first.1);
      ReceivedAllWasSent(kinds[1..], first.1, others.0, rest);
      ConsMessage(kinds, msgs, first.0, others.0, rest);
    }
  }

  lemma ConsMessage(kinds: seq<Kind>, msgs: seq<Message>, first: Message, others: seq<Message>, rest: seq<Byte>)
    requires kinds != [] && msgs == [first] + others && Fits(kinds[0], first) && AllFit(kinds[1..], others)
    ensures AllFit(kinds, msgs) && EncodeAll(msgs) + rest == Encode(first) + (EncodeAll(others) + rest)
  {
    assert msgs[1..] == others;
    forall i | 0 <= i < |msgs|
      ensures Fits(kinds[i], msgs[i])
    {
      if i > 0 {
        assert Fits(kinds[1..][i - 1], others[i - 1]);
      }
    }
  }

  /** Any sequence of messages written back to back is read back as itself, consuming exactly its bytes;
      and nothing else is ever read. */
  lemma StreamIff(kinds: seq<Kind>, b: seq<Byte>, msgs: seq<Message>, rest: seq<Byte>)
    ensures ReceiveAll(kinds, b) == Some((msgs, rest)) <==> AllFit(kinds, msgs) && b == EncodeAll(msgs) + rest
  {
    if ReceiveAll(kinds, b) == Some((msgs, rest)) {
      ReceivedAllWasSent(kinds, b, msgs, rest);
    }
    if AllFit(kinds, msgs) && b == EncodeAll(msgs) + rest {
      SentAllReceived(kinds, msgs, rest);
    }
  }

  /** A tensor survives the trip exactly when its rank, its dimensions and its length are 32-bit. */
  lemma TensorSurvivesIff(dims: seq<nat>, data: seq<Word>)
    ensures Receive(TensorKind, Encode(Tensor(dims, data))) == Some((Tensor(dims, data), []))
            <==> Fits(TensorKind, Tensor(dims, data))
  {
    var b := Encode(Tensor(dims, data));
    assert b == b + [];
    ReceiveIff(TensorKind, b, Tensor(dims, data), []);
  }

  /** An oversized dimension raises no error: the tensor comes back with every dimension cut to 32 bits. */
  lemma DimensionsCutSilently(dims: seq<nat>, data: seq<Word>)
    requires |dims| < 0x1_0000_0000 && |data| < 0x1_0000_0000
    ensures Receive(TensorKind, Encode(Tensor(dims, data))) == Some((Tensor(Truncated(dims), data), []))
  {
    var cut := Truncated(dims);
    TruncatedSmall(cut);
    TensorWords(cut, data);
    assert AsWords(Tensor(dims, data)) == AsWords(Tensor(cut, data));
    var b := Encode(Tensor(cut, data));
    assert b == b + [];
    SentIsReceived(TensorKind, Tensor(cut, data), []);
  }

  /** For example, a dimension of 2^32 comes back as zero. */
  lemma LostDimension()
    ensures Receive(TensorKind, Encode(Tensor([0x1_0000_0000], []))) == Some((Tensor([0], []), []))
  {
    DimensionsCutSilently([0x1_0000_0000], []);
    assert Truncated([0x1_0000_0000]) == [0];
  }

  lemma ActivationWords(header: seq<Word>, pos: Word, seqLen: Word, floats: seq<Word>)
    requires |floats| < 0x1_0000_0000 && header == [ACTIVATION_MAGIC, pos, seqLen, |floats|]
    ensures AsWords(Activation(pos, seqLen, floats)) == header + floats
  {
  }

  // ---- The bytes themselves -----------------------------------------------------------------------

  /** A word is four bytes, the lowest first. */
  lemma {:induction false} WordBytes(ws: seq<Word>, i: nat)
    requires i < |ws|
    ensures Bytes(ws)[4 * i] == ws[i] % 0x100 && Bytes(ws)[4 * i + 1] == ws[i] / 0x100 % 0x100
    ensures Bytes(ws)[4 * i + 2] == ws[i] / 0x1_0000 % 0x100 && Bytes(ws)[4 * i + 3] == ws[i] / 0x100_0000
    decreases |ws|
  {
    if i < |ws| - 1 {
      WordBytes(ws[..|ws| - 1], i);
    }
  }

  /** An activation packet: the magic EF BE AD DE, position, sequence length and float count, then the floats. */
  lemma ActivationBytes(pos: Word, seqLen: Word, floats: seq<Word>)
    requires |floats| < 0x1_0000_0000
    ensures var b := Encode(Activation(pos, seqLen, floats));
            && |b| == 16 + 4 * |floats| && b[0] == 0xEF && b[1] == 0xBE && b[2] == 0xAD && b[3] == 0xDE
            && WordIs(b, 1, pos) && WordIs(b, 2, seqLen) && WordIs(b, 3, |floats|)
    ensures forall i: nat | i < |floats| :: WordIs(Encode(Activation(pos, seqLen, floats)), 4 + i, floats[i])
  {
    var header := [ACTIVATION_MAGIC, pos, seqLen, |floats|];
    ActivationWords(header, pos, seqLen, floats);
    HeaderWords(header, floats);
    TailWords(header, floats);
    MagicBytes(header + floats);
  }

  lemma MagicBytes(ws: seq<Word>)
    requires ws != [] && ws[0] == ACTIVATION_MAGIC
    ensures var b := Bytes(ws);
            |b| == 4 * |ws| && b[0] == 0xEF && b[1] == 0xBE && b[2] == 0xAD && b[3] == 0xDE
  {
    WordBytes(ws, 0);
  }

  lemma HeaderWords(header: seq<Word>, tail: seq<Word>)
    requires |header| == 4
    ensures var b := Bytes(header + tail);
            WordIs(b, 1, header[1]) && WordIs(b, 2, header[2]) && WordIs(b, 3, header[3])
  {
    WordInBytes(header + tail, 1);
    WordInBytes(header + tail, 2);
    WordInBytes(header + tail, 3);
  }

  lemma TailWord(header: seq<Word>, tail: seq<Word>, i: nat)
    requires i < |tail|
    ensures WordIs(Bytes(header + tail), |header| + i, tail[i])
  {
    WordInBytes(header + tail, |header| + i);
  }

  lemma TailWords(header: seq<Word>, tail: seq<Word>)
    ensures forall i: nat | i < |tail| :: WordIs(Bytes(header + tail), |header| + i, tail[i])
  {
    forall i: nat | i < |tail|
      ensures WordIs(Bytes(header + tail), |header| + i, tail[i])
    {
      TailWord(header, tail, i);
    }
  }

  /** Token feedback: the magic ED FE FE CA, the token, and one or zero. */
  lemma FeedbackBytes(token: Word, finished: bool)
    ensures var b := Encode(Feedback(token, finished));
            && |b| == 12 && b[0] == 0xED && b[1] == 0xFE && b[2] == 0xFE && b[3] == 0xCA
            && WordIs(b, 1, token)
            && b[8] == (if finished then 1 else 0) && b[9] == b[10] == b[11] == 0
  {
    var ws := AsWords(Feedback(token, finished));
    EachWord(ws);
    assert WordIs(Bytes(ws), 1, ws[1]);
    WordBytes(ws, 0);
    WordBytes(ws, 2);
  }

  /** A tensor: its rank, its dimensions, its length and its data, sizes cut to 32 bits. */
  lemma TensorBytes(dims: seq<nat>, data: seq<Word>)
    ensures var b := Encode(Tensor(dims, data));
            && |b| == 4 * (2 + |dims| + |data|) && WordIs(b, 0, |dims| % 0x1_0000_0000)
            && (forall i: nat | i < |dims| :: WordIs(b, 1 + i, dims[i] % 0x1_0000_0000))
            && WordIs(b, 1 + |dims|, |data| % 0x1_0000_0000)
            && (forall i: nat | i < |data| :: WordIs(b, 2 + |dims| + i, data[i]))
  {
    var ws := AsWords(Tensor(dims, data));
    EachWord(ws);
    assert forall i: nat | i < |dims| :: ws[1 + i] == dims[i] % 0x1_0000_0000;
    assert ws[0] == |dims| % 0x1_0000_0000 && ws[1 + |dims|] == |data| % 0x1_0000_0000;
    assert forall i: nat | i < |data| :: ws[2 + |dims| + i] == data[i];
  }

  /** Word `i` of a byte string. */
  predicate WordIs(b: seq<Byte>, i: nat, w: Word) {
    && 4 * i + 4 <= |b|
    && var low: int, next: int, third: int, high: int := b[4 * i], b[4 * i + 1], b[4 * i + 2], b[4 * i + 3];
       w == low + 0x100 * next + 0x1_0000 * third + 0x100_0000 * high
  }

  lemma WordInBytes(ws: seq<Word>, i: nat)
    requires i < |ws|
    ensures WordIs(Bytes(ws), i, ws[i])
  {
    WordBytes(ws, i);
    var b := Bytes(ws);
    Recomposed(ws[i], b[4 * i], b[4 * i + 1], b[4 * i + 2], b[4 * i + 3]);
  }

  lemma Recomposed(w: Word, low: Byte, next: Byte, third: Byte, high: Byte)
    requires low == w % 0x100 && next == w / 0x100 % 0x100 && third == w / 0x1_0000 % 0x100 && high == w / 0x100_0000
    ensures var a: int, b: int, c: int, d: int := low, next, third, high;
            w == a + 0x100 * b + 0x1_0000 * c + 0x100_0000 * d
  {
    var rest := w / 0x100;
    assert rest / 0x100 == w / 0x1_0000 && rest / 0x1_0000 == w / 0x100_0000;
  }

  lemma EachWord(ws: seq<Word>)
    ensures forall i: nat | i < |ws| :: WordIs(Bytes(ws), i, ws[i])
  {
    forall i: nat | i < |ws|
      ensures WordIs(Bytes(ws), i, ws[i])
    {
      WordInBytes(ws, i);
    }
  }

  /** What a receiver makes of a tensor's words, case by case. */
  lemma TensorOutcome(all: seq<Word>, d: nat, n: nat)
    ensures |all| == 0 ==> ParseTensor(all) == None
    ensures |all| > 0 && all[0] == d && |all| < d + 2 ==> ParseTensor(all) == None
    ensures |all| >= d + 2 && all[0] == d && all[d + 1] == n && |all| < d + 2 + n ==> ParseTensor(all) == None
    ensures |all| >= d + 2 && all[0] == d && all[d + 1] == n && |all| >= d + 2 + n ==>
              ParseTensor(all) == Some((Tensor(all[1..d + 1], all[d + 2..d + 2 + n]), d + 2 + n))
  {
  }

  // ---- Streams ------------------------------------------------------------------------------------

  /** What a transport that takes `limit` bytes in all holds after one more message. */
  function Carried(before: seq<Byte>, message: seq<Byte>, limit: nat): (r: seq<Byte>)
    ensures |before| + |message| <= limit ==> r == before + message
    ensures |before| <= limit < |before| + |message| ==> |r| == limit && before <= r <= before + message
  {
    if |before| + |message| <= limit then before + message
    else if |before| <= limit then (before + message)[..limit]
    else before
  }

  /** Sending in two parts is sending at once. */
  lemma CarriedInParts(before: seq<Byte>, a: seq<Byte>, b: seq<Byte>, limit: nat)
    requires |before| <= limit
    ensures |before| + |a| <= limit ==> Carried(before + a, b, limit) == Carried(before, a + b, limit)
    ensures |before| + |a| > limit ==> Carried(before, a, limit) == Carried(before, a + b, limit)
  {
    assert before + a + b == before + (a + b);
    if |before| + |a| > limit {
      assert (before + a)[..limit] == (before + (a + b))[..limit];
    }
  }

  /** A stream whose transport fails after `limit` bytes. */
  class Writer {
    const limit: nat
    var bytes: seq<Byte>

    ghost predicate Valid()
      reads this
    {
      |bytes| <= limit
    }

    constructor (limit: nat)
      ensures Valid() && bytes == [] && this.limit == limit
    {
      this.limit, bytes := limit, [];
    }

    /** `write_all`: on failure everything up to the limit has been written. */
    method WriteAll(b: seq<Byte>) returns (ok: bool)
      requires Valid()
      modifies this
      ensures Valid() && ok == (|old(bytes)| + |b| <= limit) && bytes == Carried(old(bytes), b, limit)
    {
      ok := |bytes| + |b| <= limit;
      bytes := Carried(bytes, b, limit);
    }

    /** Write two parts of one message. */
    method WriteBoth(a: seq<Byte>, b: seq<Byte>) returns (ok: bool)
      requires Valid()
      modifies this
      ensures Valid() && ok == (|old(bytes)| + |a + b| <= limit) && bytes == Carried(old(bytes), a + b, limit)
    {
      CarriedInParts(bytes, a, b, limit);
      ok := WriteAll(a);
      if ok {
        ok := WriteAll(b);
      }
    }

    method SendActivation(pos: Word, seqLen: Word, floats: seq<Word>) returns (ok: bool)
      requires Valid()
      modifies this
      ensures Valid()
      ensures |floats| >= 0x1_0000_0000 ==> !ok && bytes == old(bytes)
      ensures |floats| < 0x1_0000_0000 ==>
                var message := Encode(Activation(pos, seqLen, floats));
                ok == (|old(bytes)| + |message| <= limit) && bytes == Carried(old(bytes), message, limit)
    {
      if |floats| >= 0x1_0000_0000 {
        return false;
      }
      var header := [ACTIVATION_MAGIC, pos, seqLen, |floats|];
      BytesConcat(header, floats);
      ActivationWords(header, pos, seqLen, floats);
      ok := WriteBoth(Bytes(header), Bytes(floats));
    }

    method SendFeedback(token: Word, finished: bool) returns (ok: bool)
      requires Valid()
      modifies this
      ensures Valid()
      ensures var message := Encode(Feedback(token, finished));
              ok == (|old(bytes)| + |message| <= limit) && bytes == Carried(old(bytes), message, limit)
    {
      ok := WriteAll(Bytes([FEEDBACK_MAGIC, token, if finished then 1 else 0]));
    }

    /** Words of a message under construction: `sent` are on the wire, or the transport has failed. */
    ghost predicate Sending(before: seq<Byte>, sent: seq<Word>, ok: bool)
      reads this
    {
      && Valid() && bytes == Carried(before, Bytes(sent), limit)
      && ok == (|before| + |Bytes(sent)| <= limit) && |before| <= limit
    }

    method WriteWords(more: seq<Word>, ghost before: seq<Byte>, ghost sent: seq<Word>) returns (ok: bool)
      requires Sending(before, sent, true)
      modifies this
      ensures Sending(before, sent + more, ok)
    {
      BytesConcat(sent, more);
      CarriedInParts(before, Bytes(sent), Bytes(more), limit);
      ok := WriteAll(Bytes(more));
    }

    method SerializeTensor(dims: seq<nat>, data: seq<Word>) returns (ok: bool)
      requires Valid()
      modifies this
      ensures Valid()
      ensures var message := Encode(Tensor(dims, data));
              ok == (|old(bytes)| + |message| <= limit) && bytes == Carried(old(bytes), message, limit)
    {
      ghost var before := bytes;
      ghost var all := AsWords(Tensor(dims, data));
      assert Bytes([]) == [] && before + [] == before;
      ok := WriteWords([Truncate(|dims|)], before, []);
      assert [] + [Truncate(|dims|)] == [Truncate(|dims|)];
      var i := 0;
      while ok && i < |dims|
        invariant i <= |dims| && Sending(before, [Truncate(|dims|)] + Truncated(dims[..i]), ok)
      {
        TruncatedSnoc([Truncate(|dims|)], dims, i);
        ok := WriteWords([Truncate(dims[i])], before, [Truncate(|dims|)] + Truncated(dims[..i]));
        i := i + 1;
      }
      ghost var sent := [Truncate(|dims|)] + Truncated(dims[..i]);
      if !ok {
        StaysCut(before, sent, dims, data, i);
        return;
      }
      assert dims[..i] == dims;
      ok := WriteWords([Truncate(|data|)], before, sent);
      if !ok {
        PrefixCut(before, sent + [Truncate(|data|)], data);
        return;
      }
      ok := WriteWords(data, before, sent + [Truncate(|data|)]);
    }

    /** A message cut off in its first words is cut off at the same byte as a whole. */
    lemma PrefixCut(before: seq<Byte>, sent: seq<Word>, rest: seq<Word>)
      requires |before| <= limit < |before| + |Bytes(sent)|
      ensures |before| + |Bytes(sent + rest)| > limit
      ensures Carried(before, Bytes(sent), limit) == Carried(before, Bytes(sent + rest), limit)
    {
      BytesConcat(sent, rest);
      CarriedInParts(before, Bytes(sent), Bytes(rest), limit);
    }

    lemma StaysCut(before: seq<Byte>, sent: seq<Word>, dims: seq<nat>, data: seq<Word>, i: nat)
      requires i <= |dims| && sent == [Truncate(|dims|)] + Truncated(dims[..i])
      requires |before| <= limit < |before| + |Bytes(sent)|
      ensures var message := Encode(Tensor(dims, data));
              |before| + |message| > limit && Carried(before, Bytes(sent), limit) == Carried(before, message, limit)
    {
      var rest := Truncated(dims[i..]) + [Truncate(|data|)] + data;
      TensorSplit(dims, data, i, sent, rest);
      PrefixCut(before, sent, rest);
    }
  }

  lemma TensorSplit(dims: seq<nat>, data: seq<Word>, i: nat, sent: seq<Word>, rest: seq<Word>)
    requires i <= |dims| && sent == [Truncate(|dims|)] + Truncated(dims[..i])
    requires rest == Truncated(dims[i..]) + [Truncate(|data|)] + data
    ensures AsWords(Tensor(dims, data)) == sent + rest
  {
    assert Truncated(dims) == Truncated(dims[..i]) + Truncated(dims[i..]);
  }

  class Reader {
    const data: seq<Byte>
    var at: nat

    ghost predicate Valid()
      reads this
    {
      at <= |data|
    }

    ghost function Remaining(): seq<Byte>
      requires Valid()
      reads this
    {
      data[at..]
    }

    constructor (data: seq<Byte>)
      ensures Valid() && this.data == data && Remaining() == data
    {
      this.data, at := data, 0;
    }

    /** `read_exact` of whole words. */
    method ReadWords(n: nat) returns (r: Result<seq<Word>>)
      requires Valid()
      modifies this
      ensures Valid()
      ensures r.Ok? <==> 4 * n <= |old(Remaining())|
      ensures r.Ok? ==> r.value == Words(old(Remaining()), n) && Remaining() == old(Remaining())[4 * n..]
    {
      if 4 * n > |data| - at {
        at := |data|;
        return Err;
      }
      r := Ok(Words(data[at..], n));
      at := at + 4 * n;
    }

    /** `ReadWords` after `k` words of `b`. */
    method ReadNext(ghost b: seq<Byte>, ghost all: seq<Word>, ghost k: nat, n: nat) returns (r: Result<seq<Word>>)
      requires Valid() && WordsIn(b, all) && 4 * k <= |b| && Remaining() == b[4 * k..]
      modifies this
      ensures Valid()
      ensures r.Ok? <==> k + n <= |all|
      ensures r.Ok? ==> r.value == all[k..k + n] && Remaining() == b[4 * (k + n)..]
    {
      r := ReadWords(n);
      if r.Ok? {
        WordsFrom(b, all, k, n);
      }
    }

    method ReceiveActivation(limit: nat := DEFAULT_MAX_ACTIVATION_FLOATS) returns (r: Result<Message>)
      requires Valid()
      modifies this
      ensures Valid()
      ensures Received(ActivationKind(limit), old(Remaining()), r, Remaining())
    {
      ghost var b := Remaining();
      ghost var all := AllWords(ActivationKind(limit), b);
      var header := ReadNext(b, all, 0, 4);
      if header.Err? {
        return Err;
      }
      var h := header.value;
      if h[0] != ACTIVATION_MAGIC || h[3] > limit {
        return Err;
      }
      var payload := ReadNext(b, all, 4, h[3]);
      if payload.Err? {
        return Err;
      }
      r := Ok(Activation(h[1], h[2], payload.value));
    }

    method ReceiveFeedback() returns (r: Result<Message>)
      requires Valid()
      modifies this
      ensures Valid()
      ensures Received(FeedbackKind, old(Remaining()), r, Remaining())
    {
      ghost var b := Remaining();
      ghost var all := AllWords(FeedbackKind, b);
      var words := ReadNext(b, all, 0, 3);
      if words.Err? {
        return Err;
      }
      var w := words.value;
      if w[0] != FEEDBACK_MAGIC || w[2] > 1 {
        return Err;
      }
      r := Ok(Feedback(w[1], w[2] == 1));
    }

    method DeserializeTensor() returns (r: Result<Message>)
      requires Valid()
      modifies this
      ensures Valid()
      ensures Received(TensorKind, old(Remaining()), r, Remaining())
    {
      ghost var b := Remaining();
      ghost var all := AllWords(TensorKind, b);
      var rank := ReadNext(b, all, 0, 1);
      if rank.Err? {
        TensorOutcome(all, 0, 0);
        return Err;
      }
      var d: nat := rank.value[0];
      TensorOutcome(all, d, 0);
      var dims := ReadDims(d, b, all);
      if dims.Err? {
        return Err;
      }
      r := ReadData(d, dims.value, b, all);
    }

    /** The length and the payload, after the dimensions. */
    method ReadData(ghost d: nat, dims: seq<nat>, ghost b: seq<Byte>, ghost all: seq<Word>) returns (r: Result<Message>)
      requires Valid() && WordsIn(b, all) && Receive(TensorKind, b) == Leaving(ParseTensor(all), b)
      requires 1 + d <= |all| && all[0] == d && dims == all[1..d + 1] && Remaining() == b[4 * (d + 1)..]
      modifies this
      ensures Valid() && Received(TensorKind, b, r, Remaining())
    {
      TensorOutcome(all, d, 0);
      var len := ReadNext(b, all, d + 1, 1);
      if len.Err? {
        return Err;
      }
      r := ReadValues(d, len.value[0], dims, b, all);
    }

    method ReadValues(ghost d: nat, n: nat, dims: seq<nat>, ghost b: seq<Byte>, ghost all: seq<Word>)
      returns (r: Result<Message>)
      requires Valid() && WordsIn(b, all) && Receive(TensorKind, b) == Leaving(ParseTensor(all), b)
      requires 2 + d <= |all| && all[0] == d && all[d + 1] == n && dims == all[1..d + 1]
      requires Remaining() == b[4 * (d + 2)..]
      modifies this
      ensures Valid() && Received(TensorKind, b, r, Remaining())
    {
      TensorOutcome(all, d, n);
      var values := ReadNext(b, all, d + 2, n);
      if values.Err? {
        return Err;
      }
      TensorRead(b, all, d, n, dims, values.value);
      r := Ok(Tensor(dims, values.value));
    }

    method ReadDims(d: nat, ghost b: seq<Byte>, ghost all: seq<Word>) returns (r: Result<seq<nat>>)
      requires Valid() && WordsIn(b, all) && 1 <= |all| && Remaining() == b[4..]
      modifies this
      ensures Valid()
      ensures r.Ok? <==> 1 + d <= |all|
      ensures r.Ok? ==> r.value == all[1..d + 1] && Remaining() == b[4 * (d + 1)..]
    {
      var dims: seq<Word> := [];
      for i := 0 to d
        invariant Valid() && i + 1 <= |all| && Remaining() == b[4 * (i + 1)..] && dims == all[1..i + 1]
      {
        var dim := ReadNext(b, all, i + 1, 1);
        if dim.Err? {
          return Err;
        }
        dims := dims + dim.value;
      }
      r := Ok(dims);
    }
  }

  /** A call that returned `r` and left `rest` unread did what a receiver of this kind does with `b`. */
  ghost predicate Received(kind: Kind, b: seq<Byte>, r: Result<Message>, rest: seq<Byte>) {
    match Receive(kind, b)
    case None => r.Err?
    case Some(p) => r == Ok(p.0) && rest == p.1
  }

  lemma TensorRead(b: seq<Byte>, all: seq<Word>, d: nat, n: nat, dims: seq<nat>, values: seq<Word>)
    requires |all| <= |b| / 4 && d + 2 + n <= |all| && Receive(TensorKind, b) == Leaving(ParseTensor(all), b)
    requires ParseTensor(all) == Some((Tensor(all[1..d + 1], all[d + 2..d + 2 + n]), d + 2 + n))
    requires dims == all[1..d + 1] && values == all[d + 2..d + 2 + n]
    ensures Received(TensorKind, b, Ok(Tensor(dims, values)), b[4 * (d + 2 + n)..])
  {
  }

  /** Reading on from word `k` gives the words from `k` on. */
  lemma WordsFrom(b: seq<Byte>, all: seq<Word>, k: nat, n: nat)
    requires WordsIn(b, all) && k + n <= |all|
    ensures Words(b[4 * k..], n) == all[k..k + n]
    ensures b[4 * k..][4 * n..] == b[4 * (k + n)..]
  {
    var c := b[4 * k..];
    forall i: nat | i < n
      ensures Words(c, n)[i] == all[k..k + n][i]
    {
      WordsIndex(c, n, i);
      assert IsWordAt(b, all, k + i);
      WordAtFrom(b, c, k, i);
    }
  }

  lemma WordAtFrom(b: seq<Byte>, c: seq<Byte>, k: nat, i: nat)
    requires 4 * k <= |b| && c == b[4 * k..] && 4 * i + 4 <= |c|
    ensures WordAt(c, i) == WordAt(b, k + i)
  {
    assert 4 * k + 4 * i == 4 * (k + i);
  }
}
