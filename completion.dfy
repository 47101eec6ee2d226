/** The generation bookkeeping of a context, as functions of its state: prompt
    truncation, the prompt ingestion and sampling step, the context shift, the
    trailing UTF-8 check and the stop-word search. The context class implements each
    of these with the source's loops and is proved against them. */
module Completion {
  import opened Utils

  const TwoTo31: int := 0x8000_0000
  const TwoTo32: int := 0x1_0000_0000
  const TwoTo64: int := 0x1_0000_0000_0000_0000

  /** Conversion of an integer to size_t (reduction modulo 2^64). */
  function ToSize(x: int): (r: nat)
    ensures r < TwoTo64
    ensures 0 <= x < TwoTo64 ==> r == x
    ensures -TwoTo64 <= x < 0 ==> r == x + TwoTo64
  {
    x % TwoTo64
  }

  /** Conversion of an integer to a 32-bit int (two's complement wrap-around). */
  function ToInt32(x: int): (r: int)
    ensures -TwoTo31 <= r < TwoTo31
    ensures -TwoTo31 <= x < TwoTo31 ==> r == x
    ensures (r - x) % TwoTo32 == 0
  {
    var m := x % TwoTo32;
    if m >= TwoTo31 then m - TwoTo32 else m
  }

  /** The parameters of a request that the generation bookkeeping reads. */
  datatype Params = Params(
    prompt: string,
    nCtx: int,           // the requested context size (params.n_ctx)
    nKeep: int,          // tokens of the prompt kept on truncation and on shifts
    nBatch: int,         // largest number of prompt tokens decoded at once
    nPredict: int,       // token budget; -1 means unlimited
    nProbs: int,         // >0: record each generated token
    antiprompt: seq<string>,
    grammar: string,
    image: seq<string>,
    embedding: bool,
    nThreads: int,
    mmprojPath: string)

  /** The engine calls the bookkeeping depends on, as functions. */
  datatype Engine = Engine(
    tokenize: string -> seq<Token>,
    piece: Token -> string,
    hasVocab: bool,
    eos: Token,
    decodeOk: (nat, seq<Token>) -> bool,   // llama_decode of a batch starting at a position
    sample: seq<Token> -> Token)            // the sampler's choice after the tokens so far

  /** The per-request fields of a context that a generation step reads and writes,
      and aborted, which is not a field of the source: it records that the request
      stopped at the assertion of the context shift, which ends the process. */
  datatype GenState = GenState(
    nPast: nat,
    nRemain: nat,
    embd: seq<Token>,
    hasNextToken: bool,
    stoppedEos: bool,
    stoppedLimit: bool,
    numTokensPredicted: nat,
    generatedText: string,
    generatedTokenProbs: seq<Token>,
    incomplete: bool,
    aborted: bool)

  /** What a step returns (the token, -1 for none) and the state it leaves. */
  datatype Step = Step(tok: Token, state: GenState)

  /** n_past never runs ahead of embd, and n_remain is a size_t value. */
  predicate Inv(s: GenState) {
    s.nPast <= |s.embd| && s.nRemain < TwoTo64
  }

  // ---------------------------------------------------------------------------
  // truncatePrompt

  /** Half of the room left after the kept tokens (zero when there is none). */
  function BlockSize(nCtx: int, nKeep: int): int {
    var nLeft := nCtx - nKeep;
    if nLeft > 0 then nLeft / 2 else 0
  }

  /** How many whole blocks are dropped: the unsigned difference is divided and the
      quotient converted back to int. */
  function ErasedBlocks(len: nat, nKeep: int, block: int): int {
    if block > 0 then ToInt32(ToSize(len - nKeep - block) / block) else 0
  }

  function KeepCount(len: nat, nKeep: int): (k: nat)
    ensures k <= len && (0 <= nKeep <= len ==> k == nKeep)
  {
    Min(Max(0, nKeep), len)
  }

  function EndPartStart(len: nat, nCtx: int, nKeep: int): nat {
    var b := BlockSize(nCtx, nKeep);
    KeepCount(len, nKeep) + Max(0, ErasedBlocks(len, nKeep, b) * b)
  }

  /** The prompt after truncation: its first KeepCount tokens followed by a suffix. */
  function TruncatedPrompt(prompt: seq<Token>, nCtx: int, nKeep: int): (r: seq<Token>)
    ensures var k := KeepCount(|prompt|, nKeep);
      k <= |r| <= |prompt| && r[..k] == prompt[..k] && r[k..] == prompt[|prompt| - (|r| - k)..]
  {
    var k := KeepCount(|prompt|, nKeep);
    var start := EndPartStart(|prompt|, nCtx, nKeep);
    prompt[..k] + (if start < |prompt| then prompt[start..] else [])
  }

  /** With the kept count clamped as the prompt loader does, an over-long prompt is cut
      to fewer than nCtx tokens, keeping the first nKeep tokens and at least a block's
      worth of its most recent ones. */
  lemma TruncationFits(prompt: seq<Token>, nCtx: int, nKeep: int)
    requires 2 <= nCtx <= |prompt| < TwoTo31
    requires 0 <= nKeep <= Max(nCtx - 4, 0)
    ensures var r := TruncatedPrompt(prompt, nCtx, nKeep);
      |r| < nCtx && r[..nKeep] == prompt[..nKeep] &&
      |r| - nKeep >= BlockSize(nCtx, nKeep) >= 1
  {
    var len := |prompt|;
    var b := BlockSize(nCtx, nKeep);
    assert nCtx - nKeep >= 2;
    assert b >= 1;
    var m := len - nKeep - b;
    assert 0 <= m < TwoTo31;
    assert ToSize(m) == m;
    var e := m / b;
    DivBounds(m, b);
    assert ErasedBlocks(len, nKeep, b) == e;
    var start := EndPartStart(len, nCtx, nKeep);
    assert start == nKeep + e * b;
    assert start < len;
    var r := TruncatedPrompt(prompt, nCtx, nKeep);
    assert |r| == nKeep + (len - start);
  }

  lemma DivBounds(m: nat, b: int)
    requires b > 0
    ensures 0 <= m / b <= m && (m / b) * b <= m && m - (m / b) * b < b
  {
    var q := m / b;
    assert m == q * b + m % b;
    MulAtLeast(q, b);
  }

  lemma {:induction false} MulAtLeast(q: nat, b: int)
    requires b >= 1
    ensures q * b >= q
  {
    if q > 0 {
      MulAtLeast(q - 1, b);
      assert q * b == (q - 1) * b + b;
    }
  }

  /** A one-token context cannot hold any prompt: truncation keeps the whole prompt,
      so the loader's length assertion fails for every non-empty prompt. */
  lemma TruncationSingleSlot(prompt: seq<Token>)
    requires |prompt| >= 1
    ensures TruncatedPrompt(prompt, 1, 0) == prompt
  {
    assert BlockSize(1, 0) == 0;
    assert prompt[..0] + prompt[0..] == prompt;
  }

  // ---------------------------------------------------------------------------
  // loadPrompt (text-only)

  /** The kept count after loading: a negative value is replaced by the prompt length,
      then the result is clamped to [0, max(nCtx - 4, 0)]. */
  function ClampKeep(nKeep: int, numPrompt: nat, nCtx: int): (r: int)
    ensures 0 <= r <= Max(nCtx - 4, 0)
    ensures 0 <= nKeep <= nCtx - 4 ==> r == nKeep
    ensures nKeep < 0 && numPrompt < TwoTo31 ==> r == Min(numPrompt, Max(nCtx - 4, 0))
  {
    var k := if nKeep < 0 then ToInt32(numPrompt) else nKeep;
    Max(0, Min(if nCtx > 4 then nCtx - 4 else 0, k))
  }

  /** The tokens a text prompt leaves in embd: the tokenised prompt, truncated when it
      reaches the context size. */
  function LoadedTokens(tokens: seq<Token>, nCtx: int, nKeep: int): seq<Token> {
    if |tokens| >= nCtx then TruncatedPrompt(tokens, nCtx, ClampKeep(nKeep, |tokens|, nCtx)) else tokens
  }

  /** A loaded prompt fits the context, unless the context has a single slot (the
      loader's assertion) or no size at all. */
  lemma LoadedTokensFit(tokens: seq<Token>, nCtx: int, nKeep: int)
    requires 0 <= nCtx && |tokens| < TwoTo31
    requires nCtx == 1 ==> tokens == []
    ensures var r := LoadedTokens(tokens, nCtx, nKeep);
      (nCtx > 0 ==> |r| < nCtx) && (|tokens| < nCtx ==> r == tokens) &&
      (nCtx == 0 ==> r == tokens)
  {
    if |tokens| >= nCtx {
      var k := ClampKeep(nKeep, |tokens|, nCtx);
      if nCtx >= 2 {
        TruncationFits(tokens, nCtx, k);
      } else if nCtx == 0 {
        assert BlockSize(0, k) == 0;
        assert tokens[..0] + tokens[0..] == tokens;
      }
    }
  }

  // ---------------------------------------------------------------------------
  // nextToken

  datatype Ingested = Ingested(nPast: nat, ok: bool)

  /** Number of prompt tokens the next decode of the ingestion loop consumes. */
  function ChunkSize(embdLen: nat, nPast: nat, nBatch: int): int {
    Min(embdLen - nPast, nBatch)
  }

  /** The prompt ingestion loop: decode chunks of at most nBatch tokens from nPast on
      until embd is consumed. A failed decode stops it without advancing, an interrupt
      stops it after the chunk, and a non-positive chunk size leaves it early. */
  function Ingest(embd: seq<Token>, nPast: nat, nBatch: int, eng: Engine, interrupted: bool): (r: Ingested)
    requires nPast <= |embd|
    ensures nPast <= r.nPast <= |embd|
    ensures r.ok && nBatch > 0 ==> r.nPast == |embd|
    ensures nBatch <= 0 ==> r == Ingested(nPast, true)
    ensures interrupted && nBatch > 0 && nPast < |embd| ==> !r.ok
    decreases |embd| - nPast
  {
    if nPast >= |embd| then Ingested(nPast, true)
    else
      var n := ChunkSize(|embd|, nPast, nBatch);
      if n <= 0 then Ingested(nPast, true)
      else if !eng.decodeOk(nPast, embd[nPast..nPast + n]) then Ingested(nPast, false)
      else if interrupted then Ingested(nPast + n, false)
      else Ingest(embd, nPast + n, nBatch, eng, interrupted)
  }

  /** With every decode succeeding and no interrupt, the whole prompt is ingested. */
  lemma {:induction false} IngestAll(embd: seq<Token>, nPast: nat, nBatch: int, eng: Engine)
    requires nPast <= |embd| && nBatch > 0
    requires forall i, j :: 0 <= i <= j <= |embd| ==> eng.decodeOk(i, embd[i..j])
    ensures Ingest(embd, nPast, nBatch, eng, false) == Ingested(|embd|, true)
    decreases |embd| - nPast
  {
    if nPast < |embd| {
      var n := ChunkSize(|embd|, nPast, nBatch);
      assert eng.decodeOk(nPast, embd[nPast..nPast + n]);
      IngestAll(embd, nPast + n, nBatch, eng);
    }
  }

  /** The tokens [nKeep+1, nKeep+1+d) are dropped from embd, d being half of what lies
      past the kept region; n_past drops by d. */
  function DiscardCount(nPast: nat, nKeep: int): nat {
    var n := nPast - nKeep - 1;
    if n > 0 then n / 2 else 0
  }

  /** embd without the d tokens that follow its first nKeep + 1. */
  function Discard(embd: seq<Token>, nKeep: int, d: nat): (e: seq<Token>)
    requires nKeep >= -1 && nKeep + 1 + d < |embd|
    ensures |e| == |embd| - d && e[|e| - 1] == embd[|embd| - 1]
    ensures e[..nKeep + 1] == embd[..nKeep + 1] && e[nKeep + 1..] == embd[nKeep + 1 + d..]
  {
    var head := embd[..nKeep + 1];
    var tail := embd[nKeep + 1 + d..];
    assert (head + tail)[..|head|] == head && (head + tail)[|head|..] == tail;
    head + tail
  }

  /** embd after the context shift, which runs when n_past equals the length of
      embd: the d tokens that follow the first nKeep + 1 are dropped, d being half
      of what lies past the kept region (n_past drops by as many). */
  function Shift(embd: seq<Token>, nKeep: int): (e: seq<Token>)
    requires nKeep >= -1
    ensures var d := DiscardCount(|embd|, nKeep);
      |e| == |embd| - d && (d == 0 ==> e == embd) &&
      (d > 0 ==> nKeep + 1 + d < |embd| && e[..nKeep + 1] == embd[..nKeep + 1] &&
                 e[nKeep + 1..] == embd[nKeep + 1 + d..])
    ensures embd != [] ==> e != [] && e[|e| - 1] == embd[|embd| - 1]
  {
    var d := DiscardCount(|embd|, nKeep);
    if d > 0 then Discard(embd, nKeep, d) else embd
  }

  /** Once embd holds two tokens more than the kept prefix, the shift drops at least one. */
  lemma DiscardPositive(nPast: nat, nKeep: int)
    ensures nKeep + 3 <= nPast ==> DiscardCount(nPast, nKeep) >= 1
  {
  }

  /** The prompt ingestion of a step; nothing is decoded when embd is empty. With a
      positive batch size, a step that does not fail evaluates all of embd. With any
      other batch size the loop leaves at once and n_past stays where it is. */
  function IngestStep(s: GenState, nBatch: int, eng: Engine, interrupted: bool): (r: Ingested)
    requires Inv(s)
    ensures s.nPast <= r.nPast <= |s.embd|
    ensures r.ok && nBatch > 0 ==> r.nPast == |s.embd|
    ensures nBatch <= 0 ==> r == Ingested(s.nPast, true)
  {
    if s.embd != [] then Ingest(s.embd, s.nPast, nBatch, eng, interrupted) else Ingested(s.nPast, true)
  }

  /** embd has reached params.n_ctx, compared as a size_t. */
  predicate Full(embd: seq<Token>, p: Params) {
    |embd| >= ToSize(p.nCtx)
  }

  /** params.n_ctx has no room beyond the kept tokens. */
  predicate TooSmall(p: Params) {
    p.nCtx <= p.nKeep + 1
  }

  /** embd after the context shift, which is applied when embd has reached
      params.n_ctx. A shift only drops tokens between the kept prefix and the last
      one, and brings back within params.n_ctx an embd that held at most one token
      more. */
  function ShiftIfFull(embd: seq<Token>, p: Params): (e: seq<Token>)
    requires p.nKeep >= -1
    ensures |e| <= |embd| && (!Full(embd, p) ==> e == embd)
    ensures embd != [] ==> e != [] && e[|e| - 1] == embd[|embd| - 1]
    ensures 0 <= p.nCtx && p.nKeep + 1 < p.nCtx && |embd| <= p.nCtx + 1 ==> |e| <= p.nCtx
  {
    if Full(embd, p) then
      ShiftWindow(embd, p.nCtx, p.nKeep);
      Shift(embd, p.nKeep)
    else embd
  }

  /** A shift of an embd that holds at most one token more than a context with room
      beyond the kept tokens brings it back within that context. */
  lemma ShiftWindow(embd: seq<Token>, nCtx: int, nKeep: int)
    requires nKeep >= -1
    ensures 0 <= nKeep + 1 < nCtx <= |embd| <= nCtx + 1 ==> |Shift(embd, nKeep)| <= nCtx
  {
    DiscardPositive(|embd|, nKeep);
  }

  /** The end of a step after its token tok has been decoded and appended:
      - EOS stops;
      - a params.n_ctx with no room beyond the kept tokens gives up;
      - an embd that has reached params.n_ctx is shifted, and the step stops at the
        assertion when part of embd was never evaluated;
      - an interrupt is honoured. */
  function AfterDecode(s: GenState, tok: Token, p: Params, interrupted: bool, eng: Engine): (r: Step)
    requires s.nPast <= |s.embd| && s.embd != [] && s.embd[|s.embd| - 1] == tok && p.nKeep >= -1
    ensures r.tok == tok && r.state.nPast <= |r.state.embd| && r.state.nRemain == s.nRemain
    ensures |r.state.embd| - r.state.nPast == |s.embd| - s.nPast
    ensures r.state.aborted ==> s.aborted || s.nPast < |s.embd|
    ensures r.state.generatedText == s.generatedText && r.state.generatedTokenProbs == s.generatedTokenProbs
    ensures r.state.incomplete == s.incomplete
  {
    if tok == eng.eos then Step(tok, s.(hasNextToken := false, stoppedEos := true))
    else if Full(s.embd, p) && TooSmall(p) then Step(tok, s.(hasNextToken := false))
    else if Full(s.embd, p) && s.nPast != |s.embd| then Step(tok, s.(hasNextToken := false, aborted := true))
    else Step(tok, Resume(s, p, interrupted))
  }

  /** The last part of a step end: the context shift when embd is full (n_past drops
      with it), then the interrupt and the budget decide has_next_token. */
  function Resume(s: GenState, p: Params, interrupted: bool): (r: GenState)
    requires s.nPast <= |s.embd| && p.nKeep >= -1 && (Full(s.embd, p) ==> s.nPast == |s.embd|)
    ensures r.nPast <= |r.embd| && |r.embd| - r.nPast == |s.embd| - s.nPast
    ensures r.hasNextToken == (!interrupted && (p.nPredict == -1 || s.nRemain > 0))
    ensures r == s.(embd := r.embd, nPast := r.nPast, hasNextToken := r.hasNextToken)
  {
    var e := ShiftIfFull(s.embd, p);
    s.(embd := e, nPast := if Full(s.embd, p) then |e| else s.nPast,
       hasNextToken := !interrupted && (p.nPredict == -1 || s.nRemain > 0))
  }

  /** If generation continues after the step end, then budget is left (or none is
      set), nobody interrupted, and the token is not EOS and is the last one of embd. */
  lemma AfterDecodeContinues(s: GenState, tok: Token, p: Params, interrupted: bool, eng: Engine)
    requires s.nPast <= |s.embd| && s.embd != [] && s.embd[|s.embd| - 1] == tok && p.nKeep >= -1
    ensures var r := AfterDecode(s, tok, p, interrupted, eng).state;
      r.hasNextToken ==>
        (p.nPredict == -1 || r.nRemain > 0) && tok != eng.eos && !interrupted &&
        r.embd != [] && r.embd[|r.embd| - 1] == tok
  {
  }

  /** Generation continues after the step end exactly when all of these hold:
      - the token is not EOS;
      - nobody interrupted;
      - a full embd can be shifted, that is params.n_ctx has room beyond the kept
        tokens and all of embd was evaluated;
      - budget is left, or none is set. */
  lemma AfterDecodeHasNext(s: GenState, tok: Token, p: Params, interrupted: bool, eng: Engine)
    requires s.nPast <= |s.embd| && s.embd != [] && s.embd[|s.embd| - 1] == tok && p.nKeep >= -1
    ensures var r := AfterDecode(s, tok, p, interrupted, eng).state;
      r.hasNextToken <==>
        tok != eng.eos && !interrupted && !(Full(s.embd, p) && (TooSmall(p) || s.nPast != |s.embd|)) &&
        (p.nPredict == -1 || s.nRemain > 0)
  {
  }

  /** The step end stops at the assertion exactly when all of these hold: the token
      is not EOS, it fills a context that has room beyond the kept tokens, and part
      of embd was never evaluated. Such a stop ends generation and leaves embd as
      it is. Nothing clears an earlier stop. */
  lemma AfterDecodeAbort(s: GenState, tok: Token, p: Params, interrupted: bool, eng: Engine)
    requires s.nPast <= |s.embd| && s.embd != [] && s.embd[|s.embd| - 1] == tok && p.nKeep >= -1
    ensures var r := AfterDecode(s, tok, p, interrupted, eng).state;
      (r.aborted <==> s.aborted || (tok != eng.eos && Full(s.embd, p) && !TooSmall(p) && s.nPast != |s.embd|)) &&
      (r.aborted && !s.aborted ==> !r.hasNextToken && r.embd == s.embd && r.nPast == s.nPast)
  {
  }

  /** A step end that lets generation continue keeps embd within params.n_ctx, if
      embd held at most one token more before it. */
  lemma AfterDecodeWindow(s: GenState, tok: Token, p: Params, interrupted: bool, eng: Engine)
    requires s.nPast <= |s.embd| && s.embd != [] && s.embd[|s.embd| - 1] == tok && p.nKeep >= -1
    ensures var r := AfterDecode(s, tok, p, interrupted, eng).state;
      r.hasNextToken && 0 <= p.nCtx && |s.embd| <= p.nCtx + 1 ==> |r.embd| <= p.nCtx
  {
  }

  /** EOS stops generation with embd as it is, and is recorded. */
  lemma AfterDecodeEos(s: GenState, tok: Token, p: Params, interrupted: bool, eng: Engine)
    requires s.nPast <= |s.embd| && s.embd != [] && s.embd[|s.embd| - 1] == tok && p.nKeep >= -1
    ensures var r := AfterDecode(s, tok, p, interrupted, eng).state;
      tok == eng.eos ==> r.stoppedEos && !r.hasNextToken && r.embd == s.embd && r.nPast == s.nPast
  {
  }

  /** The end of a step counts nothing. */
  lemma AfterDecodeCount(s: GenState, tok: Token, p: Params, interrupted: bool, eng: Engine)
    requires s.nPast <= |s.embd| && s.embd != [] && s.embd[|s.embd| - 1] == tok && p.nKeep >= -1
    ensures AfterDecode(s, tok, p, interrupted, eng).state.numTokensPredicted == s.numTokensPredicted
  {
  }

  /** What a continuing step guarantees about the state r and token tok it leaves,
      for a step that started from a state with before tokens in embd:
      - budget is left, or none is set;
      - nobody interrupted;
      - the token is not EOS and is the last one of embd;
      - gap tokens of embd remain unevaluated;
      - embd is within params.n_ctx if it was before the step. */
  predicate Continues(before: nat, gap: int, r: GenState, tok: Token, p: Params, interrupted: bool, eng: Engine) {
    r.hasNextToken ==>
      (p.nPredict == -1 || r.nRemain > 0) && tok != eng.eos && !interrupted &&
      r.nPast + gap == |r.embd| && r.embd != [] && r.embd[|r.embd| - 1] == tok &&
      (0 <= p.nCtx && before <= p.nCtx ==> |r.embd| <= p.nCtx)
  }

  /** Sampling a token, counting it and decoding it. A failed decode stops
      generation without appending the token. A sampled EOS that decodes is
      appended, recorded and ends generation. */
  function Sample(s: GenState, p: Params, interrupted: bool, eng: Engine): (r: Step)
    requires Inv(s) && p.nKeep >= -1
    ensures Inv(r.state) && r.state.numTokensPredicted == s.numTokensPredicted + 1
    ensures |r.state.embd| - r.state.nPast == |s.embd| - s.nPast
    ensures r.state.aborted ==> s.aborted || s.nPast < |s.embd|
    ensures r.state.generatedText == s.generatedText && r.state.generatedTokenProbs == s.generatedTokenProbs
    ensures r.state.incomplete == s.incomplete
  {
    Decode(s.(numTokensPredicted := s.numTokensPredicted + 1), eng.sample(s.embd), p, interrupted, eng)
  }

  /** Decoding the sampled token tok. A failed decode stops generation without
      appending it; otherwise it is appended and the step ends. */
  function Decode(s: GenState, tok: Token, p: Params, interrupted: bool, eng: Engine): (r: Step)
    requires Inv(s) && p.nKeep >= -1
    ensures Inv(r.state) && r.state.numTokensPredicted == s.numTokensPredicted
    ensures |r.state.embd| - r.state.nPast == |s.embd| - s.nPast
    ensures r.state.aborted ==> s.aborted || s.nPast < |s.embd|
    ensures r.state.generatedText == s.generatedText && r.state.generatedTokenProbs == s.generatedTokenProbs
    ensures r.state.incomplete == s.incomplete
  {
    if !eng.decodeOk(s.nPast, [tok]) then Step(tok, s.(hasNextToken := false))
    else
      var s3 := Append(s, tok, p);
      AfterDecodeCount(s3, tok, p, interrupted, eng);
      AfterDecode(s3, tok, p, interrupted, eng)
  }

  /** A decoded token that lets generation continue satisfies Continues. */
  lemma DecodeContinues(s: GenState, tok: Token, p: Params, interrupted: bool, eng: Engine)
    requires Inv(s) && p.nKeep >= -1
    ensures var r := Decode(s, tok, p, interrupted, eng);
      r.tok == tok && Continues(|s.embd|, |s.embd| - s.nPast, r.state, tok, p, interrupted, eng)
  {
    if eng.decodeOk(s.nPast, [tok]) {
      var s3 := Append(s, tok, p);
      AfterDecodeContinues(s3, tok, p, interrupted, eng);
      AfterDecodeWindow(s3, tok, p, interrupted, eng);
    }
  }

  /** An EOS that decodes is appended, recorded and ends generation. */
  lemma DecodeEos(s: GenState, p: Params, interrupted: bool, eng: Engine)
    requires Inv(s) && p.nKeep >= -1
    requires eng.decodeOk(s.nPast, [eng.eos])
    ensures var r := Decode(s, eng.eos, p, interrupted, eng);
      r.tok == eng.eos && r.state.stoppedEos && !r.state.hasNextToken &&
      r.state.embd == s.embd + [eng.eos] && r.state.nPast == s.nPast + 1
  {
    AfterDecodeEos(Append(s, eng.eos, p), eng.eos, p, interrupted, eng);
  }

  /** A sampled token that lets generation continue satisfies Continues. */
  lemma SampleContinues(s: GenState, p: Params, interrupted: bool, eng: Engine)
    requires Inv(s) && p.nKeep >= -1
    ensures var r := Sample(s, p, interrupted, eng);
      Continues(|s.embd|, |s.embd| - s.nPast, r.state, r.tok, p, interrupted, eng)
  {
    var s2 := s.(numTokensPredicted := s.numTokensPredicted + 1);
    assert Sample(s, p, interrupted, eng) == Decode(s2, eng.sample(s.embd), p, interrupted, eng);
    DecodeContinues(s2, eng.sample(s.embd), p, interrupted, eng);
  }

  /** A sampled EOS that decodes is appended, recorded and ends generation. */
  lemma SampleEos(s: GenState, p: Params, interrupted: bool, eng: Engine)
    requires Inv(s) && p.nKeep >= -1
    requires eng.sample(s.embd) == eng.eos && eng.decodeOk(s.nPast, [eng.eos])
    ensures var r := Sample(s, p, interrupted, eng);
      r.tok == eng.eos && r.state.stoppedEos && !r.state.hasNextToken &&
      r.state.embd == s.embd + [eng.eos] && r.state.nPast == s.nPast + 1
  {
    DecodeEos(s.(numTokensPredicted := s.numTokensPredicted + 1), p, interrupted, eng);
  }

  /** The generation part of a step, after the prompt ingestion: check the model
      and the budget, then sample and decode a token, append it and count down
      n_remain. */
  function Generate(s: GenState, p: Params, modelPresent: bool, interrupted: bool, eng: Engine): (r: Step)
    requires Inv(s) && p.nKeep >= -1
    ensures Inv(r.state)
    ensures |r.state.embd| - r.state.nPast == |s.embd| - s.nPast
    ensures r.state.aborted ==> s.aborted || s.nPast < |s.embd|
    ensures r.state.generatedText == s.generatedText && r.state.generatedTokenProbs == s.generatedTokenProbs
    ensures r.state.incomplete == s.incomplete
  {
    if !modelPresent || !eng.hasVocab then Step(-1, s.(hasNextToken := false))
    else if p.nPredict == 0 && s.nRemain == 0 then Step(eng.eos, s.(hasNextToken := false))
    else if s.nRemain == 0 && p.nPredict != -1 then Step(eng.eos, s.(hasNextToken := false, stoppedLimit := true))
    else Sample(s, p, interrupted, eng)
  }

  lemma GenerateContinues(s: GenState, p: Params, modelPresent: bool, interrupted: bool, eng: Engine)
    requires Inv(s) && p.nKeep >= -1
    ensures var r := Generate(s, p, modelPresent, interrupted, eng);
      Continues(|s.embd|, |s.embd| - s.nPast, r.state, r.tok, p, interrupted, eng)
  {
    if modelPresent && eng.hasVocab && !(p.nPredict == 0 && s.nRemain == 0) &&
       !(s.nRemain == 0 && p.nPredict != -1) {
      SampleContinues(s, p, interrupted, eng);
    }
  }

  /** The decoded token joins embd and n_past, and a finite budget counts down; the
      number of unevaluated tokens does not change. */
  function Append(s: GenState, tok: Token, p: Params): (r: GenState)
    requires s.nPast <= |s.embd|
    ensures r.nPast <= |r.embd| && |r.embd| - r.nPast == |s.embd| - s.nPast
    ensures r.embd == s.embd + [tok] && r.embd[|r.embd| - 1] == tok
  {
    s.(nPast := s.nPast + 1, embd := s.embd + [tok],
       nRemain := if s.nRemain > 0 && p.nPredict != -1 then s.nRemain - 1 else s.nRemain)
  }

  /** One generation step (nextToken): finish ingesting the prompt, then generate.
      A step can only stop at the assertion when the batch size is zero or less and
      part of embd is still unevaluated. */
  function NextTokenSpec(s: GenState, p: Params, modelPresent: bool, interrupted: bool, eng: Engine): (r: Step)
    requires Inv(s) && p.nKeep >= -1
    ensures Inv(r.state)
    ensures r.state.aborted ==> s.aborted || (p.nBatch <= 0 && s.nPast < |s.embd|)
    ensures r.state.generatedText == s.generatedText && r.state.generatedTokenProbs == s.generatedTokenProbs
    ensures r.state.incomplete == s.incomplete
  {
    var ing := IngestStep(s, p.nBatch, eng, interrupted);
    if !ing.ok then Step(-1, s.(nPast := ing.nPast, hasNextToken := false))
    else Generate(s.(nPast := ing.nPast), p, modelPresent, interrupted, eng)
  }

  /** If a step lets generation continue, then:
      - budget is left, or none is set;
      - the token is not EOS and is the last one of embd;
      - with a positive batch size all of embd is evaluated; otherwise as many
        tokens stay unevaluated as before;
      - embd stays within params.n_ctx tokens, by the context shift. */
  lemma NextTokenContinues(s: GenState, p: Params, modelPresent: bool, interrupted: bool, eng: Engine)
    requires Inv(s) && p.nKeep >= -1
    ensures var r := NextTokenSpec(s, p, modelPresent, interrupted, eng);
      Continues(|s.embd|, if p.nBatch > 0 then 0 else |s.embd| - s.nPast, r.state, r.tok, p, interrupted, eng)
  {
    var ing := IngestStep(s, p.nBatch, eng, interrupted);
    if ing.ok {
      GenerateContinues(s.(nPast := ing.nPast), p, modelPresent, interrupted, eng);
    }
  }

  /** Conversely, take a step in which all of these hold:
      - the prompt ingestion succeeds;
      - a model and vocabulary are present and budget is left (or none is set);
      - the sampled token is not EOS and decodes;
      - nobody interrupted;
      - if the token fills the context, that context can be shifted.
      Then the step yields the sampled token and counts it, a finite budget pays one
      unit for it, and generation continues exactly while budget is left or none is
      set. */
  lemma NextTokenGoesOn(s: GenState, p: Params, interrupted: bool, eng: Engine)
    requires Inv(s) && p.nKeep >= -1
    requires var ing := IngestStep(s, p.nBatch, eng, interrupted);
      ing.ok && eng.hasVocab && (p.nPredict == -1 || s.nRemain > 0) && !interrupted &&
      eng.sample(s.embd) != eng.eos && eng.decodeOk(ing.nPast, [eng.sample(s.embd)]) &&
      (|s.embd| + 1 >= ToSize(p.nCtx) ==> !TooSmall(p) && ing.nPast == |s.embd|)
    ensures var r := NextTokenSpec(s, p, true, interrupted, eng);
      r.tok == eng.sample(s.embd) && r.state.numTokensPredicted == s.numTokensPredicted + 1 &&
      r.state.nRemain == (if p.nPredict != -1 then s.nRemain - 1 else s.nRemain) &&
      (r.state.hasNextToken <==> p.nPredict == -1 || r.state.nRemain > 0) &&
      r.state.aborted == s.aborted
  {
    var ing := IngestStep(s, p.nBatch, eng, interrupted);
    var tok := eng.sample(s.embd);
    var s1 := s.(nPast := ing.nPast);
    var s2 := s1.(numTokensPredicted := s.numTokensPredicted + 1);
    var s3 := Append(s2, tok, p);
    assert NextTokenSpec(s, p, true, interrupted, eng) == Generate(s1, p, true, interrupted, eng);
    assert Generate(s1, p, true, interrupted, eng) == Decode(s2, tok, p, interrupted, eng);
    assert Decode(s2, tok, p, interrupted, eng) == AfterDecode(s3, tok, p, interrupted, eng);
    AfterDecodeHasNext(s3, tok, p, interrupted, eng);
    AfterDecodeAbort(s3, tok, p, interrupted, eng);
    AfterDecodeCount(s3, tok, p, interrupted, eng);
  }

  /** With a batch size of zero or less the prompt is never evaluated. The step whose
      token fills a context with room beyond the kept tokens then stops at the
      assertion, whether or not an interrupt is pending. */
  lemma NextTokenAborts(s: GenState, p: Params, interrupted: bool, eng: Engine)
    requires Inv(s) && p.nKeep >= -1 && p.nBatch <= 0 && s.nPast < |s.embd|
    requires eng.hasVocab && (p.nPredict == -1 || s.nRemain > 0)
    requires eng.sample(s.embd) != eng.eos && eng.decodeOk(s.nPast, [eng.sample(s.embd)])
    requires |s.embd| + 1 >= ToSize(p.nCtx) && !TooSmall(p)
    ensures var r := NextTokenSpec(s, p, true, interrupted, eng);
      r.tok == eng.sample(s.embd) && r.state.aborted && !r.state.hasNextToken &&
      r.state.embd == s.embd + [r.tok] && r.state.nPast == s.nPast + 1
  {
    var tok := eng.sample(s.embd);
    var s2 := s.(numTokensPredicted := s.numTokensPredicted + 1);
    var s3 := Append(s2, tok, p);
    assert NextTokenSpec(s, p, true, interrupted, eng) == AfterDecode(s3, tok, p, interrupted, eng);
    AfterDecodeAbort(s3, tok, p, interrupted, eng);
  }

  /** With a finite budget, each token sampled is paid for from n_remain. The sum of
      the tokens predicted and the budget left grows by at most one, which happens
      when the decode of the sampled token fails. It does not grow at all when
      generation continues. */
  lemma NextTokenBudget(s: GenState, p: Params, modelPresent: bool, interrupted: bool, eng: Engine)
    requires Inv(s) && p.nKeep >= -1 && p.nPredict != -1
    ensures var r := NextTokenSpec(s, p, modelPresent, interrupted, eng).state;
      var before := s.numTokensPredicted + s.nRemain;
      var after := r.numTokensPredicted + r.nRemain;
      before <= after <= before + 1 && (r.hasNextToken ==> after == before)
  {
    var ing := IngestStep(s, p.nBatch, eng, interrupted);
    var s1 := s.(nPast := ing.nPast);
    if ing.ok {
      assert NextTokenSpec(s, p, modelPresent, interrupted, eng) == Generate(s1, p, modelPresent, interrupted, eng);
      if modelPresent && eng.hasVocab && s1.nRemain > 0 {
        assert Generate(s1, p, modelPresent, interrupted, eng) == Sample(s1, p, interrupted, eng);
        SampleBudget(s1, p, interrupted, eng);
      }
    }
  }

  /** A sampled token costs one unit of a finite budget, unless its decode fails. */
  lemma SampleBudget(s: GenState, p: Params, interrupted: bool, eng: Engine)
    requires Inv(s) && p.nKeep >= -1 && p.nPredict != -1 && s.nRemain > 0
    ensures var r := Sample(s, p, interrupted, eng).state;
      r.nRemain == s.nRemain - 1 || (r.nRemain == s.nRemain && !r.hasNextToken)
  {
  }

  /** An exhausted budget ends generation with EOS and without sampling. Only a
      non-zero n_predict records it as a limit stop. */
  lemma NextTokenLimit(s: GenState, p: Params, interrupted: bool, eng: Engine)
    requires Inv(s) && p.nKeep >= -1
    requires IngestStep(s, p.nBatch, eng, interrupted).ok && s.nRemain == 0 && p.nPredict != -1 && eng.hasVocab
    ensures var r := NextTokenSpec(s, p, true, interrupted, eng);
      r.tok == eng.eos && !r.state.hasNextToken &&
      r.state.numTokensPredicted == s.numTokensPredicted && r.state.embd == s.embd &&
      r.state.stoppedLimit == (p.nPredict != 0 || s.stoppedLimit)
  {
  }

  /** A missing model, or an interrupt while a positive batch size still has prompt
      to ingest, returns no token and stops. */
  lemma NextTokenFailure(s: GenState, p: Params, modelPresent: bool, interrupted: bool, eng: Engine)
    requires Inv(s) && p.nKeep >= -1
    requires !modelPresent || (interrupted && p.nBatch > 0 && s.nPast < |s.embd|)
    ensures var r := NextTokenSpec(s, p, modelPresent, interrupted, eng);
      r.tok == -1 && !r.state.hasNextToken && r.state.embd == s.embd &&
      r.state.numTokensPredicted == s.numTokensPredicted
  {
  }

  /** A sampled EOS that decodes sets stopped_eos and ends generation, after being
      appended to embd. */
  lemma NextTokenEos(s: GenState, p: Params, interrupted: bool, eng: Engine)
    requires Inv(s) && p.nKeep >= -1
    requires var ing := IngestStep(s, p.nBatch, eng, interrupted);
      ing.ok && eng.hasVocab && (p.nPredict == -1 || s.nRemain > 0) &&
      eng.sample(s.embd) == eng.eos && eng.decodeOk(ing.nPast, [eng.eos])
    ensures var r := NextTokenSpec(s, p, true, interrupted, eng);
      r.tok == eng.eos && r.state.stoppedEos && !r.state.hasNextToken &&
      r.state.embd == s.embd + [eng.eos] && r.state.nPast == IngestStep(s, p.nBatch, eng, interrupted).nPast + 1
  {
    var ing := IngestStep(s, p.nBatch, eng, interrupted);
    var s1 := s.(nPast := ing.nPast);
    assert s1.embd == s.embd;
    SampleEos(s1, p, interrupted, eng);
  }

  // ---------------------------------------------------------------------------
  // The trailing UTF-8 check of doCompletion

  function ByteOf(c: char): bv8 { ByteValue(c) as bv8 }

  /** 10xxxxxx */
  predicate IsContinuation(b: bv8) { b & 0xC0 == 0x80 }

  /** The number of continuation bytes a lead byte announces: 110xxxxx one,
      1110xxxx two, 11110xxx three; zero for any other byte. */
  function Expected(b: bv8): (n: nat)
    ensures n <= 3
    ensures n > 0 ==> b & 0xC0 == 0xC0 && !IsContinuation(b)
  {
    if b & 0xE0 == 0xC0 then 1 else if b & 0xF0 == 0xE0 then 2 else if b & 0xF8 == 0xF0 then 3 else 0
  }

  /** The backward scan from the byte lookback positions before the last one. */
  function Lookback(text: string, lookback: nat): bool
    requires 1 <= lookback
    decreases 4 - lookback
  {
    if lookback < 4 && lookback < |text| then
      var prev := ByteOf(text[|text| - 1 - lookback]);
      if prev & 0xC0 == 0xC0 then lookback < Expected(prev)
      else if prev & 0x80 == 0 then false
      else Lookback(text, lookback + 1)
    else false
  }

  /** The check as the source performs it. */
  function Utf8Incomplete(text: string): bool {
    if text == [] then false
    else
      var c := ByteOf(text[|text| - 1]);
      if IsContinuation(c) then Lookback(text, 1)
      else Expected(c) > 0
  }

  /** The last k bytes are continuation bytes. */
  ghost predicate ContinuationTail(text: string, k: nat) {
    k <= |text| && forall i :: |text| - k <= i < |text| ==> IsContinuation(ByteOf(text[i]))
  }

  /** The text ends inside a multi-byte character: a lead byte within the last four
      bytes is followed only by continuation bytes, fewer than it announces. */
  ghost predicate EndsMidCharacter(text: string) {
    exists k :: 0 <= k < 4 && k < |text| && k < Expected(ByteOf(text[|text| - 1 - k])) && ContinuationTail(text, k)
  }

  lemma {:induction false} LookbackChar(text: string, lookback: nat)
    requires 1 <= lookback && ContinuationTail(text, lookback)
    ensures Lookback(text, lookback) <==>
      exists k :: lookback <= k < 4 && k < |text| && k < Expected(ByteOf(text[|text| - 1 - k])) && ContinuationTail(text, k)
    decreases 4 - lookback
  {
    if lookback < 4 && lookback < |text| {
      var prev := ByteOf(text[|text| - 1 - lookback]);
      if prev & 0xC0 == 0xC0 {
        // a lead byte (or an invalid 11111xxx one) ends the scan either way
        forall k | lookback < k < 4 && k < |text| ensures !ContinuationTail(text, k) {
          assert !IsContinuation(ByteOf(text[|text| - 1 - lookback]));
        }
      } else if prev & 0x80 == 0 {
        assert Expected(prev) == 0;
        forall k | lookback < k < 4 && k < |text| ensures !ContinuationTail(text, k) {
          assert !IsContinuation(ByteOf(text[|text| - 1 - lookback]));
        }
      } else {
        assert IsContinuation(prev);
        assert Expected(prev) == 0;
        assert ContinuationTail(text, lookback + 1);
        LookbackChar(text, lookback + 1);
      }
    }
  }

  /** The check reports exactly the texts that end inside a multi-byte character. */
  lemma Utf8IncompleteChar(text: string)
    ensures Utf8Incomplete(text) <==> EndsMidCharacter(text)
  {
    if text != [] {
      var c := ByteOf(text[|text| - 1]);
      assert ContinuationTail(text, 0);
      if IsContinuation(c) {
        assert ContinuationTail(text, 1);
        LookbackChar(text, 1);
        assert Expected(c) == 0;
      } else {
        forall k | 1 <= k < 4 && k < |text| ensures !ContinuationTail(text, k) {
          assert !IsContinuation(ByteOf(text[|text| - 1]));
        }
      }
    }
  }

  /** An empty text and a text ending in an ASCII byte are complete; a text ending in
      a lead byte is not. */
  lemma Utf8LastByte(text: string)
    ensures text == [] ==> !Utf8Incomplete(text)
    ensures text != [] && ByteOf(text[|text| - 1]) & 0x80 == 0 ==> !Utf8Incomplete(text)
    ensures text != [] && Expected(ByteOf(text[|text| - 1])) > 0 ==> Utf8Incomplete(text)
  {
  }

  // ---------------------------------------------------------------------------
  // doCompletion

  /** What doCompletion does with the token of a generation step: its text is
      appended, the token recorded when probabilities are requested, and the UTF-8
      check run; an unfinished character re-enables generation and extends a finite
      budget by one, and a finished step with no budget left is a limit stop. */
  function Emitted(t: GenState, tok: Token, p: Params, ctxPresent: bool, eng: Engine): (r: GenState)
    requires Inv(t)
    ensures Inv(r) && r.nPast == t.nPast && r.embd == t.embd
    ensures r.numTokensPredicted == t.numTokensPredicted && r.stoppedEos == t.stoppedEos && r.aborted == t.aborted
  {
    var text := if ctxPresent && tok != -1 then eng.piece(tok) else "";
    var g := t.generatedText + text;
    var inc := Utf8Incomplete(g);
    var rearm := inc && !t.hasNextToken;
    var has := t.hasNextToken || rearm;
    var nRemain := if rearm && p.nPredict != -1 then ToSize(t.nRemain + 1) else t.nRemain;
    t.(generatedText := g,
       generatedTokenProbs := if p.nProbs > 0 then t.generatedTokenProbs + [tok] else t.generatedTokenProbs,
       incomplete := inc,
       hasNextToken := has,
       nRemain := nRemain,
       stoppedLimit := if !has && nRemain == 0 && p.nPredict != -1 then true else t.stoppedLimit)
  }

  /** One completion step: a generation step, then, unless the step stopped at the
      assertion or failed without a token, the token is emitted. The step's token is
      returned, and emitting it changes only the text, probability, UTF-8, budget
      and stop fields: nothing evaluated, counted or stopped at EOS. */
  function DoCompletionSpec(s: GenState, p: Params, modelPresent: bool, ctxPresent: bool,
                            interrupted: bool, eng: Engine): (r: Step)
    requires Inv(s) && p.nKeep >= -1
    ensures Inv(r.state)
    ensures var st := NextTokenSpec(s, p, modelPresent, interrupted, eng);
      r.tok == st.tok && r.state.nPast == st.state.nPast && r.state.embd == st.state.embd &&
      r.state.numTokensPredicted == st.state.numTokensPredicted && r.state.stoppedEos == st.state.stoppedEos &&
      r.state.aborted == st.state.aborted && (st.state.aborted ==> r == st)
  {
    var st := NextTokenSpec(s, p, modelPresent, interrupted, eng);
    if st.state.aborted || (st.tok == -1 && !st.state.hasNextToken) then st
    else Step(st.tok, Emitted(st.state, st.tok, p, ctxPresent, eng))
  }

  /** With a positive batch size a completion step never stops at the assertion. */
  lemma DoCompletionNoAbort(s: GenState, p: Params, modelPresent: bool, ctxPresent: bool, interrupted: bool,
                            eng: Engine)
    requires Inv(s) && p.nKeep >= -1 && p.nBatch > 0 && !s.aborted
    ensures !DoCompletionSpec(s, p, modelPresent, ctxPresent, interrupted, eng).state.aborted
  {
  }

  /** The generated text only grows, by the piece of the produced token; a step
      that stopped at the assertion adds nothing. */
  lemma DoCompletionText(s: GenState, p: Params, modelPresent: bool, ctxPresent: bool, interrupted: bool, eng: Engine)
    requires Inv(s) && p.nKeep >= -1
    ensures var r := DoCompletionSpec(s, p, modelPresent, ctxPresent, interrupted, eng);
      s.generatedText <= r.state.generatedText &&
      (r.tok != -1 && ctxPresent && !r.state.aborted ==> r.state.generatedText == s.generatedText + eng.piece(r.tok)) &&
      (r.tok == -1 || r.state.aborted ==> r.state.generatedText == s.generatedText)
  {
  }

  /** When a token is emitted, the UTF-8 flag describes the new text, and an
      unfinished character always lets generation go on. A finished step with no
      budget left is a limit stop. */
  lemma DoCompletionUtf8(s: GenState, p: Params, modelPresent: bool, ctxPresent: bool, interrupted: bool, eng: Engine)
    requires Inv(s) && p.nKeep >= -1
    ensures var r := DoCompletionSpec(s, p, modelPresent, ctxPresent, interrupted, eng);
      r.tok != -1 && !r.state.aborted ==>
        (r.state.incomplete <==> EndsMidCharacter(r.state.generatedText)) &&
        (r.state.incomplete ==> r.state.hasNextToken) &&
        (!r.state.hasNextToken && r.state.nRemain == 0 && p.nPredict != -1 ==> r.state.stoppedLimit)
  {
    var r := DoCompletionSpec(s, p, modelPresent, ctxPresent, interrupted, eng);
    Utf8IncompleteChar(r.state.generatedText);
  }

  /** The re-arm.
      Take a generation step that produced a token, stopped generating, did not stop
      at the assertion, and leaves the text ending inside a multi-byte character.
      Such a step re-enables generation, and a finite budget gets one more token.
      In every other case the budget is as the generation step left it. */
  lemma DoCompletionRearm(s: GenState, p: Params, modelPresent: bool, ctxPresent: bool, interrupted: bool, eng: Engine)
    requires Inv(s) && p.nKeep >= -1
    ensures var st := NextTokenSpec(s, p, modelPresent, interrupted, eng);
      var r := DoCompletionSpec(s, p, modelPresent, ctxPresent, interrupted, eng);
      var text := s.generatedText + (if ctxPresent && st.tok != -1 then eng.piece(st.tok) else "");
      var rearm := st.tok != -1 && !st.state.hasNextToken && !st.state.aborted && Utf8Incomplete(text);
      (rearm ==> r.state.hasNextToken) &&
      r.state.nRemain == (if rearm && p.nPredict != -1 then ToSize(st.state.nRemain + 1) else st.state.nRemain)
  {
  }

  // ---------------------------------------------------------------------------
  // findStoppingStrings

  datatype StopType = StopFull | StopPartial

  /** Where the search for a full stop word starts: the word and the last token may
      only just have completed it. */
  function FullFrom(text: string, word: string, lastTokenSize: nat): nat {
    var tmp := ToSize(|word| + lastTokenSize);
    if |text| > tmp then |text| - tmp else 0
  }

  /** The match position of one stop word; empty words never match. */
  function MatchPos(word: string, text: string, lastTokenSize: nat, t: StopType): Option<nat> {
    if word == [] then None
    else if t == StopFull then FindFrom(text, word, FullFrom(text, word, lastTokenSize))
    else FindPartialStopString(word, text)
  }

  /** The match position of every stop word, in order. */
  function Positions(words: seq<string>, text: string, lastTokenSize: nat, t: StopType): (ms: seq<Option<nat>>)
    ensures |ms| == |words|
    ensures forall j :: 0 <= j < |words| ==> ms[j] == MatchPos(words[j], text, lastTokenSize, t)
  {
    seq(|words|, j requires 0 <= j < |words| => MatchPos(words[j], text, lastTokenSize, t))
  }

  datatype StopHit = StopHit(pos: nat, index: nat)

  /** The search over the first n positions: the smallest one, and the first index
      that attains it. */
  function Earliest(ms: seq<Option<nat>>, n: nat): (r: Option<StopHit>)
    requires n <= |ms|
    ensures r.Some? ==> r.value.index < n && ms[r.value.index] == Some(r.value.pos)
  {
    if n == 0 then None
    else
      var prev := Earliest(ms, n - 1);
      if ms[n - 1].Some? && (prev.None? || ms[n - 1].value < prev.value.pos) then Some(StopHit(ms[n - 1].value, n - 1))
      else prev
  }

  /** The hit is the smallest position, attained first at its index, and there is none
      exactly when no position is set. */
  lemma {:induction false} EarliestIsFirstMinimum(ms: seq<Option<nat>>, n: nat)
    requires n <= |ms|
    ensures var r := Earliest(ms, n);
      (r.Some? ==> forall j :: 0 <= j < n && ms[j].Some? ==> r.value.pos <= ms[j].value) &&
      (r.Some? ==> forall j :: 0 <= j < r.value.index ==> ms[j] != Some(r.value.pos)) &&
      (r.None? <==> forall j :: 0 <= j < n ==> ms[j].None?)
  {
    if n > 0 {
      EarliestIsFirstMinimum(ms, n - 1);
    }
  }

  /** The result of the whole search: an empty stop word is never the one found. */
  function StopSearch(words: seq<string>, text: string, lastTokenSize: nat, t: StopType): (r: Option<StopHit>)
    ensures r.Some? ==> r.value.index < |words| && words[r.value.index] != []
  {
    Earliest(Positions(words, text, lastTokenSize, t), |words|)
  }

  /** A full stop word at the end of the text is found, at its final occurrence or at
      an earlier one that overlaps the last token. */
  lemma FullStopFound(word: string, text: string, lastTokenSize: nat)
    requires word != [] && EndsWith(text, word) && |word| + lastTokenSize < TwoTo64
    ensures var m := MatchPos(word, text, lastTokenSize, StopFull);
      m.Some? && FullFrom(text, word, lastTokenSize) <= m.value <= |text| - |word|
  {
    var i := |text| - |word|;
    assert text[i..] == word by {
      assert forall j :: 0 <= j < |word| ==> text[i..][j] == text[|text| - |word| + j];
    }
    assert OccursAt(text, word, i);
  }
}
