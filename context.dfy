/** The inference context: one object holding the loaded model's handles, the request
    parameters and the per-request generation state, with the methods that load a
    model, prepare a prompt, generate tokens, look for stop words, manage LoRA adapters
    and release resources. Engine objects are opaque handles; engine calls are
    parameters. */
module Cactus {
  import opened Utils
  import opened Completion

  /** An engine object (model, context, sampler, multimodal projector, ...). */
  type Handle = nat

  /** A resource released by the destructor, in the order it is released. */
  datatype Resource = Sampler(h: Handle) | Mtmd(h: Handle) | VocoderCtx(h: Handle) | VocoderModel(h: Handle)

  /** A LoRA adapter: its file, its scale, and its engine handle once initialised. */
  datatype AdapterInfo = AdapterInfo(path: string, scale: real, ptr: Option<Handle>)

  /** What the model loader hands back: the model and context (absent on failure), the
      context size, the chat templates and the multimodal projector (absent when it
      fails to load). */
  datatype InitResult = InitResult(model: Option<Handle>, ctx: Option<Handle>, nCtx: int,
                                   templates: Handle, mtmd: Option<Handle>)

  datatype Handles = Handles(model: Option<Handle>, ctx: Option<Handle>, sampler: Option<Handle>,
                             mtmd: Option<Handle>, vocoderModel: Option<Handle>,
                             vocoderCtx: Option<Handle>, templates: Option<Handle>)

  datatype Request = Request(isPredicting: bool, isInterrupted: bool, numPromptTokens: nat,
                             truncated: bool, stoppedWord: bool, stoppingWord: string)

  /** The generation fields after a rewind: counters, buffers and stop flags cleared;
      has_next_token is not among the fields rewind resets. A new request has not
      stopped at the assertion. */
  function Rewound(g: GenState): (r: GenState)
    ensures Inv(r) && r.hasNextToken == g.hasNextToken
    ensures r.nPast == 0 && r.nRemain == 0 && r.embd == [] && r.numTokensPredicted == 0
    ensures r.generatedText == "" && r.generatedTokenProbs == [] && !r.incomplete
    ensures !r.stoppedEos && !r.stoppedLimit && !r.aborted
  {
    GenState(0, 0, [], g.hasNextToken, false, false, 0, "", [], false, false)
  }

  /** Rewinding twice is rewinding once. */
  lemma RewoundIdempotent(g: GenState)
    ensures Rewound(Rewound(g)) == Rewound(g)
  {
  }

  /** An adapter with a path whose initialisation fails. */
  predicate InitFails(a: AdapterInfo, init: string -> Option<Handle>) {
    a.path != [] && init(a.path).None?
  }

  /** An adapter after initialisation: one with an empty path is kept as it is. */
  function Initialised(a: AdapterInfo, init: string -> Option<Handle>): (r: AdapterInfo)
    ensures r.path == a.path && r.scale == a.scale
    ensures r.ptr == if a.path == [] then a.ptr else init(a.path)
  {
    if a.path == [] then a else a.(ptr := init(a.path))
  }

  /** The initialised adapter list, or None when an adapter with a non-empty path fails
      to initialise. */
  function InitAdapters(adapters: seq<AdapterInfo>, init: string -> Option<Handle>): (r: Option<seq<AdapterInfo>>)
    ensures r.None? <==> exists i :: 0 <= i < |adapters| && InitFails(adapters[i], init)
    ensures r.Some? ==> |r.value| == |adapters|
    ensures r.Some? ==> forall i :: 0 <= i < |adapters| ==> r.value[i] == Initialised(adapters[i], init)
  {
    if exists i :: 0 <= i < |adapters| && InitFails(adapters[i], init) then None
    else Some(seq(|adapters|, i requires 0 <= i < |adapters| => Initialised(adapters[i], init)))
  }

  /** Applying a loaded list again initialises every adapter with a non-empty path
      anew. A second call has an initialiser of its own (init2), which may return
      other handles or fail. The result is what applying the original list with
      init2 gives, so none of the first call's handles survives. It has the same
      adapters as the original list, in order: same paths, same scales. */
  lemma InitAdaptersReapply(adapters: seq<AdapterInfo>, init1: string -> Option<Handle>,
                            init2: string -> Option<Handle>)
    requires InitAdapters(adapters, init1).Some?
    ensures var r := InitAdapters(InitAdapters(adapters, init1).value, init2);
      r == InitAdapters(adapters, init2) &&
      (r.Some? ==>
         |r.value| == |adapters| &&
         forall i :: 0 <= i < |adapters| ==> r.value[i].path == adapters[i].path && r.value[i].scale == adapters[i].scale)
  {
    var l := InitAdapters(adapters, init1).value;
    assert forall i :: 0 <= i < |l| ==> l[i].path == adapters[i].path;
    forall i | 0 <= i < |l|
      ensures InitFails(l[i], init2) == InitFails(adapters[i], init2)
      ensures Initialised(l[i], init2) == Initialised(adapters[i], init2)
    {
    }
    if InitAdapters(adapters, init2).Some? {
      assert InitAdapters(l, init2).value == InitAdapters(adapters, init2).value;
    }
  }

  /** The resources the destructor releases, in its order: sampler, multimodal
      projector, vocoder context, vocoder model; each present one exactly once. */
  function FreeList(h: Handles): (r: seq<Resource>)
    ensures |r| <= 4
  {
    (if h.sampler.Some? then [Sampler(h.sampler.value)] else []) +
    (if h.mtmd.Some? then [Mtmd(h.mtmd.value)] else []) +
    (if h.vocoderCtx.Some? then [VocoderCtx(h.vocoderCtx.value)] else []) +
    (if h.vocoderModel.Some? then [VocoderModel(h.vocoderModel.value)] else [])
  }

  /** The handle a resource names is the one held for it. */
  predicate Held(h: Handles, r: Resource) {
    match r
    case Sampler(x) => h.sampler == Some(x)
    case Mtmd(x) => h.mtmd == Some(x)
    case VocoderCtx(x) => h.vocoderCtx == Some(x)
    case VocoderModel(x) => h.vocoderModel == Some(x)
  }

  /** The destructor releases exactly the resources held, nothing twice, and
      releasing what is left after it releases nothing more. */
  lemma FreeListOnce(h: Handles)
    ensures forall r :: r in FreeList(h) <==> Held(h, r)
    ensures forall i, j :: 0 <= i < j < |FreeList(h)| ==> FreeList(h)[i] != FreeList(h)[j]
    ensures FreeList(h.(sampler := None, mtmd := None, vocoderCtx := None, vocoderModel := None)) == []
  {
  }

  /** The trailing UTF-8 check of doCompletion, with the source's backward scan. */
  method CheckUtf8(text: string) returns (incomplete: bool)
    ensures incomplete == Utf8Incomplete(text)
  {
    incomplete := false;
    if text != [] {
      var c := ByteOf(text[|text| - 1]);
      if c & 0xC0 == 0x80 {
        var lookback := 1;
        while lookback < 4 && lookback < |text|
          invariant 1 <= lookback <= 4
          invariant Lookback(text, 1) == Lookback(text, lookback)
          decreases 4 - lookback
        {
          var prev := ByteOf(text[|text| - 1 - lookback]);
          if prev & 0xC0 == 0xC0 {
            var expected := 0;
            if prev & 0xE0 == 0xC0 {
              expected := 1;
            } else if prev & 0xF0 == 0xE0 {
              expected := 2;
            } else if prev & 0xF8 == 0xF0 {
              expected := 3;
            }
            incomplete := lookback < expected;
            return;
          } else if prev & 0x80 == 0x00 {
            return;
          }
          lookback := lookback + 1;
        }
      } else if c & 0xE0 == 0xC0 {
        incomplete := true;
      } else if c & 0xF0 == 0xE0 {
        incomplete := true;
      } else if c & 0xF8 == 0xF0 {
        incomplete := true;
      }
    }
  }

  /** The search for one non-empty stop word: in full mode from where it and the last
      token may only just have completed it, in partial mode as a prefix ending the
      text. */
  method MatchPosition(word: string, text: string, lastTokenSize: nat, t: StopType) returns (pos: Option<nat>)
    requires word != []
    ensures pos == MatchPos(word, text, lastTokenSize, t)
  {
    if t == StopFull {
      var fromPos := 0;
      var tmpLen := ToSize(|word| + lastTokenSize);
      if |text| > tmpLen {
        fromPos := |text| - tmpLen;
      }
      pos := FindFrom(text, word, fromPos);
    } else {
      pos := FindPartialStopString(word, text);
    }
  }

  /** The loop of applyLoraAdapters: each adapter with a path is initialised from it,
      in order, and the first failure abandons the whole list. */
  method InitEach(adapters: seq<AdapterInfo>, init: string -> Option<Handle>) returns (r: Option<seq<AdapterInfo>>)
    ensures r == InitAdapters(adapters, init)
  {
    var las := adapters;
    var i := 0;
    while i < |las|
      invariant 0 <= i <= |las| && |las| == |adapters|
      invariant forall j :: i <= j < |las| ==> las[j] == adapters[j]
      invariant forall j :: 0 <= j < i ==> !InitFails(adapters[j], init) && las[j] == Initialised(adapters[j], init)
    {
      if las[i].path == [] {
        i := i + 1;
        continue;
      }
      var ptr := init(las[i].path);
      las := las[i := las[i].(ptr := ptr)];
      if ptr.None? {
        assert InitFails(adapters[i], init);
        return None;
      }
      i := i + 1;
    }
    assert InitAdapters(adapters, init).value == las;
    return Some(las);
  }

  /** The prompt ingestion loop of nextToken: decodes embd from nPast on in chunks of
      at most nBatch tokens. */
  method IngestPrompt(embd: seq<Token>, nPast: nat, nBatch: int, eng: Engine, interrupted: bool)
    returns (r: Ingested)
    requires nPast <= |embd|
    ensures r == Ingest(embd, nPast, nBatch, eng, interrupted)
  {
    var np := nPast;
    while np < |embd|
      invariant nPast <= np <= |embd|
      invariant Ingest(embd, nPast, nBatch, eng, interrupted) == Ingest(embd, np, nBatch, eng, interrupted)
      decreases |embd| - np
    {
      var nEval := |embd| - np;
      if nEval > nBatch {
        nEval := nBatch;
      }
      if nEval <= 0 {
        break;
      }
      if !eng.decodeOk(np, embd[np..np + nEval]) {
        return Ingested(np, false);
      }
      np := np + nEval;
      if interrupted {
        return Ingested(np, false);
      }
    }
    return Ingested(np, true);
  }

  /** The generation half of nextToken, once embd has been evaluated: no model or
      vocabulary, or an exhausted budget, stops; otherwise a token is sampled. */
  method GenerateStep(s: GenState, p: Params, modelPresent: bool, interrupted: bool, eng: Engine)
    returns (tok: Token, r: GenState)
    requires Inv(s) && p.nKeep >= -1
    ensures Step(tok, r) == Generate(s, p, modelPresent, interrupted, eng)
  {
    if !modelPresent || !eng.hasVocab {
      return -1, s.(hasNextToken := false);
    }
    if p.nPredict == 0 && s.nRemain == 0 {
      return eng.eos, s.(hasNextToken := false);
    }
    if s.nRemain == 0 && p.nPredict != -1 {
      return eng.eos, s.(hasNextToken := false, stoppedLimit := true);
    }
    tok, r := SampleStep(s, p, interrupted, eng);
  }

  /** Samples a token, counts it and decodes it; a failed decode stops generation
      without appending the token. */
  method SampleStep(s: GenState, p: Params, interrupted: bool, eng: Engine) returns (tok: Token, r: GenState)
    requires Inv(s) && p.nKeep >= -1
    ensures Step(tok, r) == Sample(s, p, interrupted, eng)
  {
    tok := eng.sample(s.embd);
    r := DecodeStep(s.(numTokensPredicted := s.numTokensPredicted + 1), tok, p, interrupted, eng);
  }

  /** Decodes the sampled token: a failed decode stops generation without appending
      it; otherwise the token is appended and the step ends. */
  method DecodeStep(s: GenState, tok: Token, p: Params, interrupted: bool, eng: Engine) returns (r: GenState)
    requires Inv(s) && p.nKeep >= -1
    ensures Step(tok, r) == Decode(s, tok, p, interrupted, eng)
  {
    if !eng.decodeOk(s.nPast, [tok]) {
      return s.(hasNextToken := false);
    }
    var g := Append(s, tok, p);
    r := DecodeEnd(g, tok, p, interrupted, eng);
  }

  /** The end of a step whose token has been decoded and appended: EOS, a context
      too small for the kept tokens, the context shift with its assertion, and an
      interrupt. */
  method DecodeEnd(s: GenState, tok: Token, p: Params, interrupted: bool, eng: Engine) returns (r: GenState)
    requires s.nPast <= |s.embd| && s.embd != [] && s.embd[|s.embd| - 1] == tok && p.nKeep >= -1
    ensures r == AfterDecode(s, tok, p, interrupted, eng).state
  {
    r := s;
    if tok == eng.eos {
      return r.(hasNextToken := false, stoppedEos := true);
    }
    if |r.embd| >= ToSize(p.nCtx) {
      if p.nCtx <= p.nKeep + 1 {
        return r.(hasNextToken := false);
      }
      if r.nPast != |r.embd| {
        // the assertion n_past == embd.size() fails, which ends the process
        return r.(hasNextToken := false, aborted := true);
      }
    }
    r := ResumeStep(s, p, interrupted);
  }

  /** The context shift when embd is full, then the interrupt check and the budget
      rule. */
  method ResumeStep(s: GenState, p: Params, interrupted: bool) returns (r: GenState)
    requires s.nPast <= |s.embd| && p.nKeep >= -1 && (Full(s.embd, p) ==> s.nPast == |s.embd|)
    ensures r == Resume(s, p, interrupted)
  {
    var embd, nPast := s.embd, s.nPast;
    if |embd| >= ToSize(p.nCtx) {
      var nDiscard;
      embd, nDiscard := ShiftEmbd(embd, p.nKeep);
      nPast := nPast - nDiscard;
    }
    assert embd == ShiftIfFull(s.embd, p);
    var hasNext := false;
    if !interrupted {
      hasNext := p.nPredict == -1 || s.nRemain > 0;
    }
    r := s.(embd := embd, nPast := nPast, hasNextToken := hasNext);
  }

  /** The context shift on embd, whose length is n_past on this path: n_discard
      tokens after the kept prefix are erased. */
  method ShiftEmbd(embd: seq<Token>, nKeep: int) returns (e: seq<Token>, nDiscard: nat)
    requires nKeep >= -1
    ensures e == Shift(embd, nKeep) && nDiscard == |embd| - |e|
  {
    nDiscard := DiscardCount(|embd|, nKeep);
    e := embd;
    if nDiscard > 0 {
      e := embd[..nKeep + 1] + embd[nKeep + 1 + nDiscard..];
    }
  }

  /** The loop of findStoppingStrings: every non-empty stop word is searched for, in
      full mode from where it and the last token may only just have completed it, in
      partial mode as a prefix ending the text; the smallest position wins, the first
      word reaching it on a tie. */
  method SearchStopWords(words: seq<string>, text: string, lastTokenSize: nat, t: StopType)
    returns (hit: Option<StopHit>)
    ensures hit == StopSearch(words, text, lastTokenSize, t)
  {
    ghost var ms := Positions(words, text, lastTokenSize, t);
    hit := None;
    var i := 0;
    while i < |words|
      invariant 0 <= i <= |words| && hit == Earliest(ms, i)
    {
      var word := words[i];
      assert ms[i] == MatchPos(word, text, lastTokenSize, t);
      if word != [] {
        var pos := MatchPosition(word, text, lastTokenSize, t);
        if pos.Some? && (hit.None? || pos.value < hit.value.pos) {
          hit := Some(StopHit(pos.value, i));
        }
      }
      i := i + 1;
    }
  }

  /** The inference context. Its state is kept in three groups of the source's
      members: gen holds the generation counters and buffers, req the request
      flags, handles the engine objects. */
  class Context {
    /** n_past, n_remain, embd, has_next_token, stopped_eos, stopped_limit,
        num_tokens_predicted, generated_text, generated_token_probs, incomplete */
    var gen: GenState
    /** is_predicting, is_interrupted, num_prompt_tokens, truncated, stopped_word,
        stopping_word */
    var req: Request
    /** model, ctx, ctx_sampling, ctx_mtmd, vocoder_model, vocoder_ctx, templates */
    var handles: Handles
    var params: Params
    var nCtx: int
    var lora: seq<AdapterInfo>
    /** Every resource released so far, in order. */
    ghost var freed: seq<Resource>

    ghost predicate Valid()
      reads this
    {
      Inv(gen)
    }

    /** A context with nothing loaded. */
    constructor (p: Params)
      ensures Valid() && params == p && freed == [] && lora == [] && nCtx == 0
      ensures handles == Handles(None, None, None, None, None, None, None)
      ensures gen == GenState(0, 0, [], false, false, false, 0, "", [], false, false)
      ensures req == Request(false, false, 0, false, false, "")
    {
      gen := GenState(0, 0, [], false, false, false, 0, "", [], false, false);
      req := Request(false, false, 0, false, false, "");
      handles := Handles(None, None, None, None, None, None, None);
      params := p;
      nCtx := 0;
      lora := [];
      freed := [];
    }

    /** ~cactus_context: releases each present resource once, in order, and clears it. */
    method Destroy()
      modifies this
      ensures freed == old(freed) + FreeList(old(handles))
      ensures handles == old(handles).(sampler := None, mtmd := None, vocoderCtx := None, vocoderModel := None)
      ensures gen == old(gen) && req == old(req) && params == old(params) && lora == old(lora) && nCtx == old(nCtx)
    {
      var h := handles;
      ghost var f := freed;
      if h.sampler.Some? {
        f := f + [Sampler(h.sampler.value)];
        h := h.(sampler := None);
      }
      if h.mtmd.Some? {
        f := f + [Mtmd(h.mtmd.value)];
        h := h.(mtmd := None);
      }
      if h.vocoderCtx.Some? {
        f := f + [VocoderCtx(h.vocoderCtx.value)];
        h := h.(vocoderCtx := None);
      }
      if h.vocoderModel.Some? {
        f := f + [VocoderModel(h.vocoderModel.value)];
        h := h.(vocoderModel := None);
      }
      handles := h;
      freed := f;
    }

    /** rewind: clears the per-request state and the stop words and grammar. */
    method Rewind()
      modifies this
      ensures Valid() && gen == Rewound(old(gen))
      ensures req == Request(false, false, 0, false, false, "")
      ensures params == old(params).(antiprompt := [], grammar := "")
      ensures handles == old(handles) && lora == old(lora) && nCtx == old(nCtx) && freed == old(freed)
    {
      req := req.(isInterrupted := false, isPredicting := false);
      params := params.(antiprompt := [], grammar := "");
      req := req.(numPromptTokens := 0);
      gen := gen.(numTokensPredicted := 0, generatedText := "", generatedTokenProbs := []);
      req := req.(truncated := false);
      gen := gen.(stoppedEos := false);
      req := req.(stoppedWord := false);
      gen := gen.(stoppedLimit := false);
      req := req.(stoppingWord := "");
      gen := gen.(incomplete := false, nRemain := 0, nPast := 0, embd := []);
      // a new request starts: an earlier one that stopped at the assertion ended the process
      gen := gen.(aborted := false);
    }

    /** initSampling: releases the current sampler, then creates one from the model;
        fails without a model or when the sampler cannot be created. */
    method InitSampling(created: Option<Handle>) returns (ok: bool)
      modifies this
      ensures ok <==> old(handles.model).Some? && created.Some?
      ensures handles == old(handles).(sampler := if old(handles.model).Some? then created else None)
      ensures freed == old(freed) + (if old(handles.sampler).Some? then [Sampler(old(handles.sampler).value)] else [])
      ensures gen == old(gen) && req == old(req) && params == old(params) && lora == old(lora) && nCtx == old(nCtx)
    {
      if handles.sampler.Some? {
        freed := freed + [Sampler(handles.sampler.value)];
        handles := handles.(sampler := None);
      }
      if handles.model.None? {
        return false;
      }
      handles := handles.(sampler := created);
      if handles.sampler.None? {
        return false;
      }
      return true;
    }

    /** loadModel: takes the parameters and the loader's result; fails exactly when no
        model was loaded. A multimodal projector that fails to load does not fail it. */
    method LoadModel(p: Params, init: InitResult) returns (ok: bool)
      modifies this
      ensures ok <==> init.model.Some?
      ensures params == p && handles.model == init.model && handles.ctx == init.ctx
      ensures ok ==> handles.templates == Some(init.templates) && nCtx == init.nCtx
      ensures ok ==> handles.mtmd == (if p.mmprojPath != [] then init.mtmd else old(handles.mtmd))
      ensures !ok ==> handles.templates == old(handles.templates) && nCtx == old(nCtx) && handles.mtmd == old(handles.mtmd)
      ensures handles.sampler == old(handles.sampler) && handles.vocoderModel == old(handles.vocoderModel)
      ensures handles.vocoderCtx == old(handles.vocoderCtx)
      ensures gen == old(gen) && req == old(req) && lora == old(lora) && freed == old(freed)
    {
      params := p;
      handles := handles.(model := init.model, ctx := init.ctx);
      if handles.model.None? {
        return false;
      }
      handles := handles.(templates := Some(init.templates));
      nCtx := init.nCtx;
      if p.mmprojPath != [] {
        handles := handles.(mtmd := init.mtmd);
      }
      return true;
    }

    /** truncatePrompt: the truncated prompt, and the flag that says it happened. */
    method TruncatePrompt(promptTokens: seq<Token>) returns (r: seq<Token>)
      modifies this
      ensures r == TruncatedPrompt(promptTokens, nCtx, params.nKeep)
      ensures req == old(req).(truncated := true)
      ensures gen == old(gen) && handles == old(handles) && params == old(params)
      ensures lora == old(lora) && nCtx == old(nCtx) && freed == old(freed)
    {
      var nBlockSize := BlockSize(nCtx, params.nKeep);
      var erasedBlocks := ErasedBlocks(|promptTokens|, params.nKeep, nBlockSize);
      var keepCount := KeepCount(|promptTokens|, params.nKeep);
      var newTokens := promptTokens[..keepCount];
      var endPartStartIndex := keepCount + Max(0, erasedBlocks * nBlockSize);
      if endPartStartIndex < |promptTokens| {
        newTokens := newTokens + promptTokens[endPartStartIndex..];
      }
      req := req.(truncated := true);
      r := newTokens;
    }

    /** loadPrompt, text-only, given the engine's tokenisation of params.prompt:
        normalises n_keep, truncates a prompt that reaches the context size, and
        makes the tokens the evaluation queue with nothing evaluated yet; a context
        of size n leaves fewer than n. */
    method LoadPrompt(tokens: seq<Token>)
      requires Valid() && !(handles.mtmd.Some? && params.image != [] && params.prompt != [])
      requires 0 <= nCtx && |tokens| < TwoTo31
      requires nCtx == 1 ==> tokens == []
      modifies this
      ensures gen == old(gen).(embd := LoadedTokens(tokens, nCtx, old(params).nKeep), nPast := 0, hasNextToken := true)
      ensures Valid() && (nCtx > 0 ==> |gen.embd| < nCtx)
      ensures params == old(params).(nKeep := ClampKeep(old(params).nKeep, |tokens|, nCtx))
      ensures req == old(req).(numPromptTokens := |gen.embd|, truncated := old(req).truncated || |tokens| >= nCtx)
      ensures handles == old(handles) && lora == old(lora) && nCtx == old(nCtx) && freed == old(freed)
    {
      // embd is cleared first, so nothing is shared with it and loadPrompt's
      // decrement of n_past for a fully shared prompt cannot apply.
      var embd: seq<Token> := [];
      var promptTokensText := PromptTokens(tokens);
      assert nCtx > 0 ==> |promptTokensText| < nCtx by {
        LoadedTokensFit(tokens, nCtx, old(params).nKeep);
      }
      var common := CommonPart(embd, promptTokensText);
      req := req.(numPromptTokens := |promptTokensText|);
      gen := gen.(nPast := common, embd := promptTokensText, hasNextToken := true);
    }

    /** The first part of loadPrompt: n_keep is normalised (a negative one keeps the
        whole prompt, at most n_ctx - 4 tokens are kept), and a prompt that reaches
        the context size is truncated. */
    method PromptTokens(tokens: seq<Token>) returns (r: seq<Token>)
      modifies this
      ensures r == LoadedTokens(tokens, nCtx, old(params).nKeep)
      ensures params == old(params).(nKeep := ClampKeep(old(params).nKeep, |tokens|, nCtx))
      ensures req == old(req).(truncated := old(req).truncated || |tokens| >= nCtx)
      ensures gen == old(gen) && handles == old(handles) && lora == old(lora)
      ensures nCtx == old(nCtx) && freed == old(freed)
    {
      r := tokens;
      params := params.(nKeep := ClampKeep(params.nKeep, |tokens|, nCtx));
      if |tokens| >= nCtx {
        r := TruncatePrompt(tokens);
      }
    }

    /** beginCompletion: arms the budget with n_predict as a size_t (so -1 becomes
        2^64 - 1) and marks the context as predicting. */
    method BeginCompletion()
      modifies this
      ensures gen == old(gen).(nRemain := ToSize(params.nPredict)) && req == old(req).(isPredicting := true)
      ensures Valid() <==> old(gen).nPast <= |old(gen).embd|
      ensures handles == old(handles) && params == old(params) && lora == old(lora)
      ensures nCtx == old(nCtx) && freed == old(freed)
    {
      gen := gen.(nRemain := ToSize(params.nPredict));
      req := req.(isPredicting := true);
    }

    /** nextToken: one generation step, proved to be NextTokenSpec. */
    method NextToken(eng: Engine) returns (tok: Token)
      requires Valid() && params.nKeep >= -1
      modifies this
      ensures Step(tok, gen) == NextTokenSpec(old(gen), old(params), old(handles.model).Some?, old(req.isInterrupted), eng)
      ensures Valid()
      ensures req == old(req) && handles == old(handles) && params == old(params)
      ensures lora == old(lora) && nCtx == old(nCtx) && freed == old(freed)
    {
      var ing := Ingested(gen.nPast, true);
      if gen.embd != [] {
        ing := IngestPrompt(gen.embd, gen.nPast, params.nBatch, eng, req.isInterrupted);
      }
      assert ing == IngestStep(gen, params.nBatch, eng, req.isInterrupted);
      if !ing.ok {
        gen := gen.(nPast := ing.nPast, hasNextToken := false);
        return -1;
      }
      var g;
      tok, g := GenerateStep(gen.(nPast := ing.nPast), params, handles.model.Some?, req.isInterrupted, eng);
      gen := g;
    }

    /** findStoppingStrings: the earliest match position over the stop words; a
        full-mode hit records the first word reaching it and ends generation, a
        partial-mode search changes nothing. */
    method FindStoppingStrings(text: string, lastTokenSize: nat, t: StopType) returns (stopPos: Option<nat>)
      modifies this
      ensures var hit := StopSearch(params.antiprompt, text, lastTokenSize, t);
        stopPos == (if hit.Some? then Some(hit.value.pos) else None) &&
        if t == StopFull && hit.Some?
        then req == old(req).(stoppingWord := params.antiprompt[hit.value.index], stoppedWord := true) &&
             gen == old(gen).(hasNextToken := false)
        else req == old(req) && gen == old(gen)
      ensures params == old(params) && handles == old(handles) && lora == old(lora)
      ensures nCtx == old(nCtx) && freed == old(freed)
    {
      var words := params.antiprompt;
      var hit := SearchStopWords(words, text, lastTokenSize, t);
      stopPos := if hit.Some? then Some(hit.value.pos) else None;
      if t == StopFull && hit.Some? {
        req := req.(stoppingWord := words[hit.value.index], stoppedWord := true);
        gen := gen.(hasNextToken := false);
      }
    }

    /** doCompletion: one completion step, proved to be DoCompletionSpec. */
    method DoCompletion(eng: Engine) returns (tok: Token)
      requires Valid() && params.nKeep >= -1
      modifies this
      ensures Step(tok, gen) ==
        DoCompletionSpec(old(gen), old(params), old(handles.model).Some?, old(handles.ctx).Some?, old(req.isInterrupted), eng)
      ensures Valid()
      ensures req == old(req) && handles == old(handles) && params == old(params)
      ensures lora == old(lora) && nCtx == old(nCtx) && freed == old(freed)
    {
      tok := NextToken(eng);
      if gen.aborted || (tok == -1 && !gen.hasNextToken) {
        // a step that stopped at the assertion never returns to doCompletion
        return;
      }
      EmitToken(tok, eng);
    }

    /** The part of doCompletion after the generation step, proved to be Emitted. */
    method EmitToken(tok: Token, eng: Engine)
      requires Valid()
      modifies this
      ensures gen == Emitted(old(gen), tok, old(params), old(handles.ctx).Some?, eng)
      ensures req == old(req) && handles == old(handles) && params == old(params)
      ensures lora == old(lora) && nCtx == old(nCtx) && freed == old(freed)
    {
      var tokenText := "";
      if handles.ctx.Some? && tok != -1 {
        tokenText := eng.piece(tok);
      }
      var text := gen.generatedText + tokenText;
      var probs := gen.generatedTokenProbs;
      if params.nProbs > 0 {
        probs := probs + [tok];
      }
      var inc := CheckUtf8(text);
      var has := gen.hasNextToken;
      var nRemain := gen.nRemain;
      if inc && !has {
        has := true;
        if params.nPredict != -1 {
          nRemain := ToSize(nRemain + 1);
        }
      }
      var limit := gen.stoppedLimit;
      if !has && nRemain == 0 && params.nPredict != -1 {
        limit := true;
      }
      gen := gen.(generatedText := text, generatedTokenProbs := probs, incomplete := inc,
                  hasNextToken := has, nRemain := nRemain, stoppedLimit := limit);
    }

    /** applyLoraAdapters: initialises every adapter with a path; on success the list
        replaces the loaded set and 0 is returned, otherwise -1 and the set is kept. */
    method ApplyLoraAdapters(adapters: seq<AdapterInfo>, init: string -> Option<Handle>) returns (rc: int)
      modifies this
      ensures var r := InitAdapters(adapters, init);
        (rc == 0 <==> old(handles.ctx).Some? && old(handles.model).Some? && r.Some?) &&
        (rc == 0 || rc == -1) &&
        lora == (if rc == 0 then r.value else old(lora))
      ensures gen == old(gen) && req == old(req) && handles == old(handles)
      ensures params == old(params) && nCtx == old(nCtx) && freed == old(freed)
    {
      if handles.ctx.None? || handles.model.None? {
        return -1;
      }
      var las := InitEach(adapters, init);
      if las.None? {
        return -1;
      }
      lora := las.value;
      return 0;
    }

    /** removeLoraAdapters: empties the loaded set when there is a context. */
    method RemoveLoraAdapters()
      modifies this
      ensures lora == if old(handles.ctx).Some? then [] else old(lora)
      ensures gen == old(gen) && req == old(req) && handles == old(handles)
      ensures params == old(params) && nCtx == old(nCtx) && freed == old(freed)
    {
      if handles.ctx.None? {
        return;
      }
      lora := [];
    }

    /** getLoadedLoraAdapters: the loaded set as it is. */
    method GetLoadedLoraAdapters() returns (r: seq<AdapterInfo>)
      ensures r == lora
    {
      r := lora;
    }
  }
}
