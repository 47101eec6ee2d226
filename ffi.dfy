/** The C binding layer: argument checks and return codes of the completion entry
    point, its streaming loop with the token callback, the stop flag, the release of
    result strings, and the guard clauses of detokenization and embedding. A C
    pointer that may be null is an Option (for values) or a nullable reference (for
    objects the binding writes through). */
module Ffi {
  import opened Utils
  import opened Completion
  import opened Cactus

  // ---------------------------------------------------------------------------
  // c_str_array_to_vector
  // ---------------------------------------------------------------------------

  /** The present strings of a C string array, in order. */
  function NonNull(xs: seq<Option<string>>): seq<string> {
    if xs == [] then []
    else NonNull(xs[..|xs| - 1]) + (if xs[|xs| - 1].Some? then [xs[|xs| - 1].value] else [])
  }

  /** The strings of the first count entries of a possibly null array. */
  function CStrArray(arr: Option<seq<Option<string>>>, count: int): seq<string>
    requires arr.Some? ==> count <= |arr.value|
  {
    if arr.None? || count <= 0 then [] else NonNull(arr.value[..count])
  }

  /** c_str_array_to_vector: nothing for a null array, otherwise the non-null entries
      among the first count, in order. */
  method CStrArrayToVector(arr: Option<seq<Option<string>>>, count: int) returns (vec: seq<string>)
    requires arr.Some? ==> count <= |arr.value|
    ensures vec == CStrArray(arr, count)
  {
    vec := [];
    if arr.Some? {
      var i := 0;
      while i < count
        invariant 0 <= i <= Max(count, 0)
        invariant vec == NonNull(arr.value[..i])
      {
        assert arr.value[..i + 1][..i] == arr.value[..i];
        if arr.value[i].Some? {
          vec := vec + [arr.value[i].value];
        }
        i := i + 1;
      }
    }
  }

  /** Dropping null entries keeps the order of the rest: it distributes over
      concatenation. */
  lemma {:induction false} NonNullAppend(a: seq<Option<string>>, b: seq<Option<string>>)
    ensures NonNull(a + b) == NonNull(a) + NonNull(b)
    decreases |b|
  {
    if b == [] {
      assert a + b == a;
    } else {
      assert (a + b)[..|a + b| - 1] == a + b[..|b| - 1];
      NonNullAppend(a, b[..|b| - 1]);
    }
  }

  /** A string is kept exactly when some entry holds it, and no more strings come out
      than entries went in. */
  lemma {:induction false} NonNullMembers(xs: seq<Option<string>>, s: string)
    ensures s in NonNull(xs) <==> Some(s) in xs
    ensures |NonNull(xs)| <= |xs|
    decreases |xs|
  {
    if xs != [] {
      var init := xs[..|xs| - 1];
      NonNullMembers(init, s);
      assert xs == init + [xs[|xs| - 1]];
      assert Some(s) in xs <==> (Some(s) in init || Some(s) == xs[|xs| - 1]);
    }
  }

  /** With no null entry every string is kept, in place. */
  lemma {:induction false} NonNullAllPresent(xs: seq<Option<string>>)
    requires forall i :: 0 <= i < |xs| ==> xs[i].Some?
    ensures |NonNull(xs)| == |xs|
    ensures forall i :: 0 <= i < |xs| ==> NonNull(xs)[i] == xs[i].value
    decreases |xs|
  {
    if xs != [] {
      var init := xs[..|xs| - 1];
      assert forall i :: 0 <= i < |init| ==> init[i] == xs[i];
      NonNullAllPresent(init);
    }
  }

  /** A null array, or a count of zero or less, gives no strings; otherwise at most
      count strings, each of them an entry of the array. */
  lemma CStrArrayBounds(arr: Option<seq<Option<string>>>, count: int, s: string)
    requires arr.Some? ==> count <= |arr.value|
    ensures arr.None? || count <= 0 ==> CStrArray(arr, count) == []
    ensures |CStrArray(arr, count)| <= Max(count, 0)
    ensures s in CStrArray(arr, count) <==> arr.Some? && count > 0 && Some(s) in arr.value[..count]
  {
    if arr.Some? && count > 0 {
      NonNullMembers(arr.value[..count], s);
    }
  }

  // ---------------------------------------------------------------------------
  // The streaming loop of cactus_completion_c
  // ---------------------------------------------------------------------------

  /** What the loop leaves: the generation state, the interrupt flag, the texts
      passed to the token callback (in order), the tokens they are the pieces of, and
      the number of doCompletion steps run. */
  datatype Streamed = Streamed(gen: GenState, interrupted: bool, sent: seq<string>,
                               emitted: seq<Token>, steps: nat)

  /** step is doCompletion as a function of the generation state, for the
      parameters and engine of a request that nobody has interrupted. */
  ghost predicate IsCompletionStep(step: GenState -> Step, p: Params, modelPresent: bool, ctxPresent: bool,
                                   eng: Engine) {
    forall g {:trigger DoCompletionSpec(g, p, modelPresent, ctxPresent, false, eng)} ::
      Inv(g) && p.nKeep >= -1 ==>
        step(g) == DoCompletionSpec(g, p, modelPresent, ctxPresent, false, eng)
  }

  /** doCompletion, made total (a state it cannot run on yields no token). */
  function CompletionStep(p: Params, modelPresent: bool, ctxPresent: bool, eng: Engine): (step: GenState -> Step)
    ensures IsCompletionStep(step, p, modelPresent, ctxPresent, eng)
  {
    g => if Inv(g) && p.nKeep >= -1
         then DoCompletionSpec(g, p, modelPresent, ctxPresent, false, eng)
         else Step(-1, g)
  }

  /** The loop from a state on, for at most fuel more steps: while a token may follow
      and nobody interrupted, run a step; stop when it stopped at the assertion (the
      process ends there) or yields no token and none may follow; hand the piece of a
      real token to the callback (which sees all the texts passed so far), and
      interrupt when it answers false. */
  function Stream(step: GenState -> Step, piece: Token -> string, callback: Option<seq<string> -> bool>,
                  g: GenState, interrupted: bool, sent: seq<string>, emitted: seq<Token>, steps: nat,
                  fuel: nat): Streamed
    decreases fuel
  {
    if fuel == 0 || !g.hasNextToken || interrupted then Streamed(g, interrupted, sent, emitted, steps)
    else
      var st := step(g);
      if st.state.aborted || (st.tok == -1 && !st.state.hasNextToken) then
        Streamed(st.state, interrupted, sent, emitted, steps + 1)
      else if st.tok != -1 && callback.Some? then
        var sent' := sent + [piece(st.tok)];
        if !callback.value(sent') then Streamed(st.state, true, sent', emitted + [st.tok], steps + 1)
        else Stream(step, piece, callback, st.state, interrupted, sent', emitted + [st.tok], steps + 1, fuel - 1)
      else Stream(step, piece, callback, st.state, interrupted, sent, emitted, steps + 1, fuel - 1)
  }

  /** The texts the callback receives are the pieces of the tokens the steps
      produced, never of the -1 "no token"; without a callback nothing is sent. */
  lemma {:induction false} StreamSendsPieces(step: GenState -> Step, piece: Token -> string,
                                             callback: Option<seq<string> -> bool>, g: GenState,
                                             interrupted: bool, sent: seq<string>, emitted: seq<Token>,
                                             steps: nat, fuel: nat)
    requires |sent| == |emitted|
    requires forall k :: 0 <= k < |emitted| ==> emitted[k] != -1 && sent[k] == piece(emitted[k])
    ensures var r := Stream(step, piece, callback, g, interrupted, sent, emitted, steps, fuel);
      |r.sent| == |r.emitted| && |sent| <= |r.sent| && r.sent[..|sent|] == sent &&
      (forall k :: 0 <= k < |r.emitted| ==> r.emitted[k] != -1 && r.sent[k] == piece(r.emitted[k])) &&
      (callback.None? ==> r.sent == sent)
    decreases fuel
  {
    if fuel > 0 && g.hasNextToken && !interrupted {
      var st := step(g);
      if st.state.aborted || (st.tok == -1 && !st.state.hasNextToken) {
      } else if st.tok != -1 && callback.Some? {
        var sent' := sent + [piece(st.tok)];
        if callback.value(sent') {
          StreamSendsPieces(step, piece, callback, st.state, interrupted, sent', emitted + [st.tok], steps + 1,
                            fuel - 1);
          var r := Stream(step, piece, callback, st.state, interrupted, sent', emitted + [st.tok], steps + 1,
                          fuel - 1);
          assert r.sent[..|sent|] == r.sent[..|sent'|][..|sent|];
        }
      } else {
        StreamSendsPieces(step, piece, callback, st.state, interrupted, sent, emitted, steps + 1, fuel - 1);
      }
    }
  }

  /** The loop only ends while a token may follow and nobody interrupted when it has
      run out of fuel; it never runs more steps than the fuel allows. */
  lemma {:induction false} StreamEnds(step: GenState -> Step, piece: Token -> string,
                                      callback: Option<seq<string> -> bool>, g: GenState, interrupted: bool,
                                      sent: seq<string>, emitted: seq<Token>, steps: nat, fuel: nat)
    ensures var r := Stream(step, piece, callback, g, interrupted, sent, emitted, steps, fuel);
      steps <= r.steps <= steps + fuel &&
      (r.steps < steps + fuel ==> !r.gen.hasNextToken || r.interrupted || r.gen.aborted)
    decreases fuel
  {
    if fuel > 0 && g.hasNextToken && !interrupted {
      var st := step(g);
      if st.state.aborted || (st.tok == -1 && !st.state.hasNextToken) {
      } else if st.tok != -1 && callback.Some? {
        var sent' := sent + [piece(st.tok)];
        if callback.value(sent') {
          StreamEnds(step, piece, callback, st.state, interrupted, sent', emitted + [st.tok], steps + 1, fuel - 1);
        }
      } else {
        StreamEnds(step, piece, callback, st.state, interrupted, sent, emitted, steps + 1, fuel - 1);
      }
    }
  }

  /** Starting uninterrupted, the run ends interrupted exactly when the callback
      declined, and the declining call is the last one: every earlier call answered
      true. */
  lemma {:induction false} StreamInterrupt(step: GenState -> Step, piece: Token -> string,
                                           callback: Option<seq<string> -> bool>, g: GenState,
                                           sent: seq<string>, emitted: seq<Token>, steps: nat, fuel: nat)
    ensures var r := Stream(step, piece, callback, g, false, sent, emitted, steps, fuel);
      |sent| <= |r.sent| && r.sent[..|sent|] == sent &&
      (r.interrupted <==> callback.Some? && |sent| < |r.sent| && !callback.value(r.sent)) &&
      (callback.None? ==> r.sent == sent) &&
      (callback.Some? ==> forall k :: |sent| < k < |r.sent| ==> callback.value(r.sent[..k]))
    decreases fuel
  {
    if fuel > 0 && g.hasNextToken {
      var st := step(g);
      if st.state.aborted || (st.tok == -1 && !st.state.hasNextToken) {
      } else if st.tok != -1 && callback.Some? {
        var sent' := sent + [piece(st.tok)];
        if callback.value(sent') {
          StreamInterrupt(step, piece, callback, st.state, sent', emitted + [st.tok], steps + 1, fuel - 1);
          var r := Stream(step, piece, callback, st.state, false, sent', emitted + [st.tok], steps + 1, fuel - 1);
          assert r == Stream(step, piece, callback, g, false, sent, emitted, steps, fuel);
          assert r.sent[..|sent|] == r.sent[..|sent'|][..|sent|];
          if |r.sent| == |sent'| {
            assert r.sent == sent';
          }
          forall k | |sent| < k < |r.sent|
            ensures callback.value(r.sent[..k])
          {
            if k == |sent'| {
              assert r.sent[..k] == sent';
            }
          }
        } else {
          var r := Stream(step, piece, callback, g, false, sent, emitted, steps, fuel);
          assert r.sent == sent' && r.interrupted;
          assert r.sent[..|sent|] == sent;
        }
      } else {
        StreamInterrupt(step, piece, callback, st.state, sent, emitted, steps + 1, fuel - 1);
        var r := Stream(step, piece, callback, st.state, false, sent, emitted, steps + 1, fuel - 1);
        assert r == Stream(step, piece, callback, g, false, sent, emitted, steps, fuel);
      }
    }
  }

  /** One step of the loop, unfolded: the step's result decides whether the loop
      ends here (no token and none to follow, or the callback declined) or goes on. */
  lemma StreamUnfold(step: GenState -> Step, piece: Token -> string, callback: Option<seq<string> -> bool>,
                     g: GenState, sent: seq<string>, emitted: seq<Token>, steps: nat, fuel: nat)
    requires fuel > 0 && g.hasNextToken
    ensures var st := step(g);
      var sends := !st.state.aborted && st.tok != -1 && callback.Some?;
      var sent' := if sends then sent + [piece(st.tok)] else sent;
      var emitted' := if sends then emitted + [st.tok] else emitted;
      var declined := sends && !callback.value(sent');
      Stream(step, piece, callback, g, false, sent, emitted, steps, fuel) ==
        if st.state.aborted || (st.tok == -1 && !st.state.hasNextToken) || declined
        then Streamed(st.state, declined, sent', emitted', steps + 1)
        else Stream(step, piece, callback, st.state, false, sent', emitted', steps + 1, fuel - 1)
  {
  }

  /** A step from a well-formed state that has not stopped at the assertion leaves
      such a state. */
  ghost predicate NeverAborts(step: GenState -> Step) {
    forall g {:trigger step(g)} :: Inv(g) && !g.aborted ==> Inv(step(g).state) && !step(g).state.aborted
  }

  /** With a positive batch size doCompletion never stops at the assertion. */
  lemma CompletionNeverAborts(step: GenState -> Step, p: Params, modelPresent: bool, ctxPresent: bool,
                              eng: Engine)
    requires IsCompletionStep(step, p, modelPresent, ctxPresent, eng) && p.nBatch > 0 && p.nKeep >= -1
    ensures NeverAborts(step)
  {
    forall g | Inv(g) && !g.aborted
      ensures Inv(step(g).state) && !step(g).state.aborted
    {
      assert step(g) == DoCompletionSpec(g, p, modelPresent, ctxPresent, false, eng);
      DoCompletionNoAbort(g, p, modelPresent, ctxPresent, false, eng);
    }
  }

  /** A loop whose step never stops at the assertion does not stop there. */
  lemma {:induction false} StreamNoAbort(step: GenState -> Step, piece: Token -> string,
                                         callback: Option<seq<string> -> bool>, g: GenState, interrupted: bool,
                                         sent: seq<string>, emitted: seq<Token>, steps: nat, fuel: nat)
    requires NeverAborts(step) && Inv(g) && !g.aborted
    ensures !Stream(step, piece, callback, g, interrupted, sent, emitted, steps, fuel).gen.aborted
    decreases fuel
  {
    if fuel > 0 && g.hasNextToken && !interrupted {
      var st := step(g);
      if st.state.aborted || (st.tok == -1 && !st.state.hasNextToken) {
      } else if st.tok != -1 && callback.Some? {
        var sent' := sent + [piece(st.tok)];
        if callback.value(sent') {
          StreamNoAbort(step, piece, callback, st.state, interrupted, sent', emitted + [st.tok], steps + 1,
                        fuel - 1);
        }
      } else {
        StreamNoAbort(step, piece, callback, st.state, interrupted, sent, emitted, steps + 1, fuel - 1);
      }
    }
  }

  /** The streaming loop of cactus_completion_c, at most fuel steps of it, on a
      request nobody has interrupted; step is its doCompletion. */
  method StreamTokens(ctx: Context, callback: Option<seq<string> -> bool>, eng: Engine,
                      ghost step: GenState -> Step, fuel: nat)
    returns (sent: seq<string>, emitted: seq<Token>, steps: nat)
    requires ctx.Valid() && ctx.params.nKeep >= -1 && !ctx.req.isInterrupted
    requires IsCompletionStep(step, ctx.params, ctx.handles.model.Some?, ctx.handles.ctx.Some?, eng)
    modifies ctx
    ensures Streamed(ctx.gen, ctx.req.isInterrupted, sent, emitted, steps) ==
      Stream(step, eng.piece, callback, old(ctx.gen), false, [], [], 0, fuel)
    ensures ctx.Valid() && ctx.req == old(ctx.req).(isInterrupted := ctx.req.isInterrupted)
    ensures ctx.handles == old(ctx.handles) && ctx.params == old(ctx.params) && ctx.lora == old(ctx.lora)
    ensures ctx.nCtx == old(ctx.nCtx) && ctx.freed == old(ctx.freed)
  {
    ghost var target := Stream(step, eng.piece, callback, ctx.gen, false, [], [], 0, fuel);
    sent, emitted, steps := [], [], 0;
    var left := fuel;
    while ctx.gen.hasNextToken && left > 0
      invariant ctx.Valid() && ctx.req == old(ctx.req)
      invariant ctx.handles == old(ctx.handles) && ctx.params == old(ctx.params) && ctx.lora == old(ctx.lora)
      invariant ctx.nCtx == old(ctx.nCtx) && ctx.freed == old(ctx.freed)
      invariant target == Stream(step, eng.piece, callback, ctx.gen, false, sent, emitted, steps, left)
      decreases left
    {
      StreamUnfold(step, eng.piece, callback, ctx.gen, sent, emitted, steps, left);
      var stop;
      stop, sent, emitted := StreamOnce(ctx, callback, eng, step, sent, emitted);
      steps := steps + 1;
      if stop {
        return;
      }
      left := left - 1;
    }
  }

  /** One turn of the loop: a doCompletion call, then the callback for a real token.
      It says whether the loop stops here, and interrupts when the callback declines. */
  method StreamOnce(ctx: Context, callback: Option<seq<string> -> bool>, eng: Engine, ghost step: GenState -> Step,
                    sent: seq<string>, emitted: seq<Token>)
    returns (stop: bool, sent': seq<string>, emitted': seq<Token>)
    requires ctx.Valid() && ctx.params.nKeep >= -1 && !ctx.req.isInterrupted
    requires IsCompletionStep(step, ctx.params, ctx.handles.model.Some?, ctx.handles.ctx.Some?, eng)
    modifies ctx
    ensures var st := step(old(ctx.gen));
      var sends := !st.state.aborted && st.tok != -1 && callback.Some?;
      ctx.gen == st.state &&
      sent' == (if sends then sent + [eng.piece(st.tok)] else sent) &&
      emitted' == (if sends then emitted + [st.tok] else emitted) &&
      ctx.req == old(ctx.req).(isInterrupted := sends && !callback.value(sent')) &&
      stop == (st.state.aborted || (st.tok == -1 && !st.state.hasNextToken) || (sends && !callback.value(sent')))
    ensures ctx.Valid() && ctx.handles == old(ctx.handles) && ctx.params == old(ctx.params)
    ensures ctx.lora == old(ctx.lora) && ctx.nCtx == old(ctx.nCtx) && ctx.freed == old(ctx.freed)
  {
    var tok := StreamStep(ctx, eng, step);
    sent', emitted' := sent, emitted;
    if ctx.gen.aborted || (tok == -1 && !ctx.gen.hasNextToken) {
      return true, sent', emitted';
    }
    stop := false;
    if tok != -1 && callback.Some? {
      sent' := sent + [eng.piece(tok)];
      emitted' := emitted + [tok];
      var continueCompletion := callback.value(sent');
      if !continueCompletion {
        ctx.req := ctx.req.(isInterrupted := true);
        stop := true;
      }
    }
  }

  /** One doCompletion call of the loop, with the frame the loop needs. */
  method StreamStep(ctx: Context, eng: Engine, ghost step: GenState -> Step) returns (tok: Token)
    requires ctx.Valid() && ctx.params.nKeep >= -1 && !ctx.req.isInterrupted
    requires IsCompletionStep(step, ctx.params, ctx.handles.model.Some?, ctx.handles.ctx.Some?, eng)
    modifies ctx
    ensures Step(tok, ctx.gen) == step(old(ctx.gen))
    ensures ctx.Valid() && ctx.req == old(ctx.req) && ctx.handles == old(ctx.handles)
    ensures ctx.params == old(ctx.params) && ctx.lora == old(ctx.lora)
    ensures ctx.nCtx == old(ctx.nCtx) && ctx.freed == old(ctx.freed)
  {
    tok := ctx.DoCompletion(eng);
  }

  // ---------------------------------------------------------------------------
  // cactus_completion_c
  // ---------------------------------------------------------------------------

  /** The fields of cactus_completion_params_c_t the binding copies into the context
      (the sampler settings are not modelled), with the token callback. */
  datatype CompletionParamsC = CompletionParamsC(
    prompt: Option<string>,
    imagePath: Option<string>,
    nThreads: int,
    nPredict: int,
    nProbs: int,
    stopSequences: Option<seq<Option<string>>>,
    stopSequenceCount: int,
    grammar: Option<string>,
    tokenCallback: Option<seq<string> -> bool>)

  /** An exception escaping the body of cactus_completion_c: a std::exception, or
      anything else. */
  datatype Thrown = NoException | StdException | OtherException

  /** cactus_completion_result_c_t, written through the caller's pointer. */
  class CompletionResultC {
    var text: Option<string>
    var tokensPredicted: int
    var tokensEvaluated: int
    var truncated: bool
    var stoppedEos: bool
    var stoppedWord: bool
    var stoppedLimit: bool
    var stoppingWord: Option<string>

    /** All fields zero, as memset leaves them. */
    predicate Zeroed()
      reads this
    {
      text.None? && tokensPredicted == 0 && tokensEvaluated == 0 && !truncated && !stoppedEos &&
      !stoppedWord && !stoppedLimit && stoppingWord.None?
    }

    constructor ()
      ensures Zeroed()
    {
      text, tokensPredicted, tokensEvaluated := None, 0, 0;
      truncated, stoppedEos, stoppedWord, stoppedLimit := false, false, false, false;
      stoppingWord := None;
    }

    method Clear()
      modifies this
      ensures Zeroed()
    {
      text, tokensPredicted, tokensEvaluated := None, 0, 0;
      truncated, stoppedEos, stoppedWord, stoppedLimit := false, false, false, false;
      stoppingWord := None;
    }
  }

  /** Whether the arguments pass the first check of cactus_completion_c. */
  predicate ValidArgs(ctx: Context?, params: Option<CompletionParamsC>, result: CompletionResultC?) {
    ctx != null && params.Some? && params.value.prompt.Some? && result != null
  }

  /** The stop-sequence array holds at least the count of entries it is said to. */
  predicate StopArrayOk(p: CompletionParamsC) {
    p.stopSequences.Some? ==> p.stopSequenceCount <= |p.stopSequences.value|
  }

  /** The context parameters after the request's fields are copied in over the
      parameters a rewind left: prompt, image, thread count (when positive), token
      budget, n_probs, stop words (the non-null entries of the array) and grammar (when
      given). */
  function RequestParams(rewound: Params, p: CompletionParamsC): Params
    requires p.prompt.Some? && StopArrayOk(p)
  {
    rewound.(prompt := p.prompt.value,
             image := if p.imagePath.Some? then [p.imagePath.value] else [],
             nThreads := if p.nThreads > 0 then p.nThreads else rewound.nThreads,
             nPredict := p.nPredict,
             nProbs := p.nProbs,
             antiprompt := CStrArray(p.stopSequences, p.stopSequenceCount),
             grammar := if p.grammar.Some? then p.grammar.value else rewound.grammar)
  }

  /** What the text-only prompt load demands of the request: no image to hand to a
      loaded projector, a prompt the 32-bit counters can hold, and no single-slot
      context. */
  predicate CanLoad(ctx: Context, prompt: string, image: bool, eng: Engine)
    reads ctx
  {
    !(ctx.handles.mtmd.Some? && image && prompt != []) &&
    0 <= ctx.nCtx && |eng.tokenize(prompt)| < TwoTo31 &&
    (ctx.nCtx == 1 ==> eng.tokenize(prompt) == [])
  }

  /** cactus_completion_c: -1 for a null handle, parameter block, prompt or result
      (nothing touched); otherwise the result is zeroed, the context is rewound and
      takes the request, and -2 says the sampler could not be set up. Then the prompt
      is loaded (clamping n_keep) and the streaming loop runs. None says the process
      stopped at the assertion of the context shift inside the loop, so the call
      never returns; that needs a batch size of zero or less. An exception escaping
      the loop gives -3 or -4 with the context no longer predicting and interrupted;
      otherwise the result mirrors the context and 0 is returned. The callback texts,
      the tokens they belong to and the number of steps run are returned alongside. */
  method CompletionC(ctx: Context?, params: Option<CompletionParamsC>, result: CompletionResultC?,
                     created: Option<Handle>, eng: Engine, thrown: Thrown, fuel: nat)
    returns (rc: Option<int>, sent: seq<string>, emitted: seq<Token>, steps: nat)
    requires ValidArgs(ctx, params, result) ==>
      StopArrayOk(params.value) &&
      (ctx.handles.model.Some? && created.Some? ==>
         CanLoad(ctx, params.value.prompt.value, params.value.imagePath.Some?, eng))
    modifies ctx, result
    ensures rc == Some(-1) <==> !ValidArgs(ctx, params, result)
    ensures rc == Some(-1) ==> (ctx != null ==> unchanged(ctx)) && (result != null ==> unchanged(result))
    ensures rc == Some(-2) <==> ValidArgs(ctx, params, result) && !(old(ctx.handles.model).Some? && created.Some?)
    ensures rc.None? <==> ValidArgs(ctx, params, result) && old(ctx.handles.model).Some? && created.Some? &&
                          ctx.gen.aborted
    ensures rc.None? ==> ctx.params.nBatch <= 0
    ensures rc == Some(-3) <==> ValidArgs(ctx, params, result) && old(ctx.handles.model).Some? && created.Some? &&
                                !ctx.gen.aborted && thrown == StdException
    ensures rc == Some(-4) <==> ValidArgs(ctx, params, result) && old(ctx.handles.model).Some? && created.Some? &&
                                !ctx.gen.aborted && thrown == OtherException
    ensures rc == Some(0) <==> ValidArgs(ctx, params, result) && old(ctx.handles.model).Some? && created.Some? &&
                               !ctx.gen.aborted && thrown == NoException
    ensures rc == Some(-2) ==>
      ctx.params == RequestParams(old(ctx.params).(antiprompt := [], grammar := ""), params.value)
    ensures rc != Some(-1) && rc != Some(-2) ==>
      var r := RequestParams(old(ctx.params).(antiprompt := [], grammar := ""), params.value);
      ctx.params == r.(nKeep := ClampKeep(r.nKeep, |eng.tokenize(r.prompt)|, ctx.nCtx))
    ensures rc == Some(-2) || rc == Some(-3) || rc == Some(-4) ==> result.Zeroed()
    ensures rc == Some(-3) || rc == Some(-4) ==> ctx.req.isInterrupted
    ensures rc == Some(0) || rc == Some(-3) || rc == Some(-4) ==> !ctx.req.isPredicting
    ensures rc == Some(0) ==>
      result.text == Some(ctx.gen.generatedText) && result.tokensPredicted == ctx.gen.numTokensPredicted &&
      result.tokensEvaluated == ctx.req.numPromptTokens && result.truncated == ctx.req.truncated &&
      result.stoppedEos == ctx.gen.stoppedEos && result.stoppedWord == ctx.req.stoppedWord &&
      result.stoppedLimit == ctx.gen.stoppedLimit && result.stoppingWord == Some(ctx.req.stoppingWord)
    ensures rc == Some(0) ==> steps <= fuel && (steps < fuel ==> !ctx.gen.hasNextToken || ctx.req.isInterrupted)
    ensures rc != Some(-1) && rc != Some(-2) ==> StreamFacts(params.value.tokenCallback, eng, sent, emitted)
    ensures rc == Some(0) ==>
      (ctx.req.isInterrupted <==> params.value.tokenCallback.Some? && sent != [] &&
                                  !params.value.tokenCallback.value(sent))
  {
    sent, emitted, steps := [], [], 0;
    if !ValidArgs(ctx, params, result) {
      return Some(-1), sent, emitted, steps;
    }
    var p := params.value;
    result.Clear();
    BeginRequest(ctx, p);
    var ok := ctx.InitSampling(created);
    if !ok {
      return Some(-2), sent, emitted, steps;
    }
    sent, emitted, steps := RunLoaded(ctx, p.tokenCallback, eng, fuel);
    if ctx.gen.aborted {
      return None, sent, emitted, steps;
    }
    if thrown != NoException {
      ctx.req := ctx.req.(isPredicting := false, isInterrupted := true);
      return Some(if thrown == StdException then -3 else -4), sent, emitted, steps;
    }
    FillResult(ctx, result);
    ctx.req := ctx.req.(isPredicting := false);
    return Some(0), sent, emitted, steps;
  }

  /** What the callback saw: the pieces of real tokens, nothing without a callback,
      and every call but the last answered true. */
  predicate StreamFacts(callback: Option<seq<string> -> bool>, eng: Engine, sent: seq<string>, emitted: seq<Token>) {
    |sent| == |emitted| &&
    (forall k :: 0 <= k < |emitted| ==> emitted[k] != -1 && sent[k] == eng.piece(emitted[k])) &&
    (callback.None? ==> sent == []) &&
    (callback.Some? ==> forall k :: 0 < k < |sent| ==> callback.value(sent[..k]))
  }

  /** The start of the try block: rewind, then copy the request into the parameters. */
  method BeginRequest(ctx: Context, p: CompletionParamsC)
    requires p.prompt.Some? && StopArrayOk(p)
    modifies ctx
    ensures ctx.Valid() && ctx.gen == Rewound(old(ctx.gen)) && ctx.req == Request(false, false, 0, false, false, "")
    ensures ctx.params == RequestParams(old(ctx.params).(antiprompt := [], grammar := ""), p)
    ensures ctx.handles == old(ctx.handles) && ctx.lora == old(ctx.lora) && ctx.nCtx == old(ctx.nCtx)
    ensures ctx.freed == old(ctx.freed)
  {
    ctx.Rewind();
    var antiprompt := CStrArrayToVector(p.stopSequences, p.stopSequenceCount);
    ctx.params := ctx.params.(
      prompt := p.prompt.value,
      image := if p.imagePath.Some? then [p.imagePath.value] else [],
      nThreads := if p.nThreads > 0 then p.nThreads else ctx.params.nThreads,
      nPredict := p.nPredict,
      nProbs := p.nProbs,
      antiprompt := antiprompt,
      grammar := if p.grammar.Some? then p.grammar.value else ctx.params.grammar);
  }

  /** beginCompletion, loadPrompt and the streaming loop, on a freshly rewound
      request. */
  method RunLoaded(ctx: Context, callback: Option<seq<string> -> bool>, eng: Engine, fuel: nat)
    returns (sent: seq<string>, emitted: seq<Token>, steps: nat)
    requires ctx.Valid() && ctx.gen.nPast == 0 && ctx.gen.embd == [] && !ctx.gen.aborted && !ctx.req.isInterrupted
    requires CanLoad(ctx, ctx.params.prompt, ctx.params.image != [], eng)
    modifies ctx
    ensures ctx.params == old(ctx.params).(nKeep := ClampKeep(old(ctx.params).nKeep,
                                                              |eng.tokenize(old(ctx.params).prompt)|, ctx.nCtx))
    ensures ctx.handles == old(ctx.handles) && ctx.lora == old(ctx.lora) && ctx.nCtx == old(ctx.nCtx)
    ensures ctx.freed == old(ctx.freed) && ctx.req.isPredicting
    ensures StreamFacts(callback, eng, sent, emitted)
    ensures steps <= fuel && (steps < fuel ==> !ctx.gen.hasNextToken || ctx.req.isInterrupted || ctx.gen.aborted)
    ensures ctx.req.isInterrupted <==> callback.Some? && sent != [] && !callback.value(sent)
    ensures ctx.gen.aborted ==> ctx.params.nBatch <= 0
  {
    ctx.BeginCompletion();
    ctx.LoadPrompt(eng.tokenize(ctx.params.prompt));
    assert IsCompletionStep(CompletionStep(ctx.params, ctx.handles.model.Some?, ctx.handles.ctx.Some?, eng),
                            ctx.params, ctx.handles.model.Some?, ctx.handles.ctx.Some?, eng);
    ghost var step :| IsCompletionStep(step, ctx.params, ctx.handles.model.Some?, ctx.handles.ctx.Some?, eng);
    ghost var g0 := ctx.gen;
    sent, emitted, steps := StreamTokens(ctx, callback, eng, step, fuel);
    StreamSendsPieces(step, eng.piece, callback, g0, false, [], [], 0, fuel);
    StreamEnds(step, eng.piece, callback, g0, false, [], [], 0, fuel);
    StreamInterrupt(step, eng.piece, callback, g0, [], [], 0, fuel);
    if ctx.params.nBatch > 0 {
      CompletionNeverAborts(step, ctx.params, ctx.handles.model.Some?, ctx.handles.ctx.Some?, eng);
      StreamNoAbort(step, eng.piece, callback, g0, false, [], [], 0, fuel);
    }
  }

  /** The copy of the context's outcome into the result struct. */
  method FillResult(ctx: Context, result: CompletionResultC)
    modifies result
    ensures result.text == Some(ctx.gen.generatedText) && result.tokensPredicted == ctx.gen.numTokensPredicted
    ensures result.tokensEvaluated == ctx.req.numPromptTokens && result.truncated == ctx.req.truncated
    ensures result.stoppedEos == ctx.gen.stoppedEos && result.stoppedWord == ctx.req.stoppedWord
    ensures result.stoppedLimit == ctx.gen.stoppedLimit && result.stoppingWord == Some(ctx.req.stoppingWord)
  {
    result.text := Some(ctx.gen.generatedText);
    result.tokensPredicted := ctx.gen.numTokensPredicted;
    result.tokensEvaluated := ctx.req.numPromptTokens;
    result.truncated := ctx.req.truncated;
    result.stoppedEos := ctx.gen.stoppedEos;
    result.stoppedWord := ctx.req.stoppedWord;
    result.stoppedLimit := ctx.gen.stoppedLimit;
    result.stoppingWord := Some(ctx.req.stoppingWord);
  }

  // ---------------------------------------------------------------------------
  // The other entry points
  // ---------------------------------------------------------------------------

  /** cactus_stop_completion_c: raises the interrupt flag; a null handle is ignored. */
  method StopCompletionC(ctx: Context?)
    modifies ctx
    ensures ctx != null ==> (ctx.req == old(ctx.req).(isInterrupted := true) && ctx.gen == old(ctx.gen) &&
      ctx.handles == old(ctx.handles) && ctx.params == old(ctx.params) && ctx.lora == old(ctx.lora) &&
      ctx.nCtx == old(ctx.nCtx) && ctx.freed == old(ctx.freed))
  {
    if ctx != null {
      ctx.req := ctx.req.(isInterrupted := true);
    }
  }

  /** cactus_free_completion_result_members_c: releases both strings and nulls the
      pointers, so a second call releases nothing; a null result is ignored. */
  method FreeCompletionResultMembersC(result: CompletionResultC?)
    modifies result
    ensures result != null ==> (result.text.None? && result.stoppingWord.None? &&
      result.tokensPredicted == old(result.tokensPredicted) && result.tokensEvaluated == old(result.tokensEvaluated) &&
      result.truncated == old(result.truncated) && result.stoppedEos == old(result.stoppedEos) &&
      result.stoppedWord == old(result.stoppedWord) && result.stoppedLimit == old(result.stoppedLimit))
  {
    if result != null {
      result.text := None;
      result.stoppingWord := None;
    }
  }

  /** cactus_detokenize_c: the empty string for a null handle or token array, a count
      of zero or less, or a context without an engine context; otherwise the pieces
      of the first count tokens, concatenated. */
  method DetokenizeC(ctx: Context?, tokens: Option<seq<Token>>, count: int, piece: Token -> string)
    returns (s: string)
    requires tokens.Some? ==> count <= |tokens.value|
    ensures ctx == null || tokens.None? || count <= 0 || ctx.handles.ctx.None? ==> s == ""
    ensures ctx != null && tokens.Some? && count > 0 && ctx.handles.ctx.Some? ==>
      s == Pieces(tokens.value[..count], piece)
  {
    if ctx == null || tokens.None? || count <= 0 {
      return "";
    }
    if ctx.handles.ctx.None? {
      return "";
    }
    s := TokensToStr(true, tokens.value[..count], piece);
  }

  /** cactus_float_array_c_t: the values (null when absent) and their count. */
  datatype FloatArray = FloatArray(values: Option<seq<real>>, count: nat)

  /** cactus_embedding_c: {null, 0} for a null handle or text, and when the context
      has no engine context or was not set up for embeddings, with the context left
      alone. Otherwise the context is rewound and runs the text as a prompt with no
      token budget, and the embedding it computes (given here, as the embedding
      computation is not part of this model) is returned unless it is empty. */
  method EmbeddingC(ctx: Context?, text: Option<string>, created: Option<Handle>, eng: Engine,
                    embedding: seq<real>) returns (r: FloatArray)
    requires ctx != null && text.Some? && ctx.handles.ctx.Some? && ctx.params.embedding &&
               ctx.handles.model.Some? && created.Some? ==>
             CanLoad(ctx, text.value, ctx.params.image != [], eng)
    modifies ctx
    ensures ctx == null || text.None? || ctx.handles.ctx.None? || !ctx.params.embedding ==>
      r == FloatArray(None, 0) && (ctx != null ==> unchanged(ctx))
    ensures ctx != null && text.Some? && old(ctx.handles.ctx).Some? && old(ctx.params.embedding) ==>
      ctx.params.prompt == text.value && ctx.params.nPredict == 0 && !ctx.req.isPredicting &&
      (r == if old(ctx.handles.model).Some? && created.Some? && embedding != []
            then FloatArray(Some(embedding), |embedding|) else FloatArray(None, 0))
  {
    if ctx == null || text.None? {
      return FloatArray(None, 0);
    }
    if ctx.handles.ctx.None? || !ctx.params.embedding {
      return FloatArray(None, 0);
    }
    ctx.Rewind();
    ctx.params := ctx.params.(prompt := text.value, nPredict := 0);
    var ok := ctx.InitSampling(created);
    if !ok {
      return FloatArray(None, 0);
    }
    ctx.BeginCompletion();
    ctx.LoadPrompt(eng.tokenize(ctx.params.prompt));
    var _ := ctx.DoCompletion(eng);
    r := if embedding != [] then FloatArray(Some(embedding), |embedding|) else FloatArray(None, 0);
    ctx.req := ctx.req.(isPredicting := false);
  }
}
