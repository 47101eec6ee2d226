/** The audio side of speech synthesis: the RIFF/WAVE header that save_wav16 writes,
    the loop that samples audio codes (with guide tokens forcing the words of the
    text), and the filter that keeps only audio codes and offsets them to the
    vocoder's range. */
module TtsAudio {
  import opened Utils

  const U16: nat := 0x1_0000
  const U32: nat := 0x1_0000_0000
  const U64: nat := 0x1_0000_0000_0000_0000

  // ---------------------------------------------------------------------------
  // The WAV header
  // ---------------------------------------------------------------------------

  /** The numeric fields of wav_header, in declaration order; the four-character
      tags are constants of the layout and have no field here. */
  datatype WavHeader = WavHeader(
    chunkSize: nat, fmtChunkSize: nat, audioFormat: nat, numChannels: nat,
    sampleRate: nat, byteRate: nat, blockAlign: nat, bitsPerSample: nat,
    dataSize: nat)

  /** Every field fits the unsigned width the struct declares for it. */
  predicate Fits(h: WavHeader) {
    h.chunkSize < U32 && h.fmtChunkSize < U32 && h.audioFormat < U16 &&
    h.numChannels < U16 && h.sampleRate < U32 && h.byteRate < U32 &&
    h.blockAlign < U16 && h.bitsPerSample < U16 && h.dataSize < U32
  }

  /** The canonical PCM header of the RIFF/WAVE format: a 16-byte fmt chunk of
      format 1, byte rate and block alignment derived from channels and sample
      width, and a RIFF chunk that covers the 36 header bytes after it plus the data. */
  predicate CanonicalPcm(h: WavHeader) {
    h.fmtChunkSize == 16 && h.audioFormat == 1 &&
    h.byteRate == h.sampleRate * h.numChannels * (h.bitsPerSample / 8) &&
    h.blockAlign == h.numChannels * (h.bitsPerSample / 8) &&
    h.chunkSize == 36 + h.dataSize
  }

  /** The header save_wav16 fills for nSamples mono 16-bit samples at sampleRate,
      with the C++ conversions written out: the int sample rate is stored in a
      uint32, the byte rate is computed in uint32, the data size in size_t and then
      stored in a uint32, and the chunk size is computed in uint32. */
  function Wav16Header(nSamples: nat, sampleRate: int): (h: WavHeader)
    ensures Fits(h)
  {
    var sr := sampleRate % U32;
    var dataSize := (nSamples * 2 % U64) % U32;
    WavHeader(
      chunkSize := (36 + dataSize) % U32, fmtChunkSize := 16, audioFormat := 1,
      numChannels := 1, sampleRate := sr, byteRate := (sr * 1 % U32) * 2 % U32,
      blockAlign := 2, bitsPerSample := 16, dataSize := dataSize)
  }

  /** Whenever the sizes fit 32 bits the header is the canonical mono 16-bit PCM
      header: two bytes per sample, twice the sample rate as byte rate, block
      alignment 2 and a RIFF chunk of 36 plus the data size. */
  lemma Wav16HeaderCanonical(nSamples: nat, sampleRate: int)
    requires 0 <= sampleRate && 2 * sampleRate < U32
    requires 36 + 2 * nSamples < U32
    ensures var h := Wav16Header(nSamples, sampleRate);
      CanonicalPcm(h) && h.numChannels == 1 && h.bitsPerSample == 16 &&
      h.sampleRate == sampleRate && h.dataSize == 2 * nSamples &&
      h.byteRate == 2 * sampleRate && h.blockAlign == 2 &&
      h.chunkSize == 36 + 2 * nSamples
  {
  }

  /** Beyond 2^31 samples the data size wraps around: 2^31 samples are announced
      as zero bytes of data. */
  lemma Wav16HeaderWraps()
    ensures Wav16Header(0x8000_0000, 24000).dataSize == 0
    ensures Wav16Header(0x8000_0000, 24000).chunkSize == 36
  {
  }

  /** Byte k (0 = least significant) of x. */
  function ByteOf(x: nat, k: nat): (b: nat)
    requires k < 4
    ensures b < 256
  {
    if k == 0 then x % 256
    else if k == 1 then x / 0x100 % 256
    else if k == 2 then x / 0x1_0000 % 256
    else x / 0x100_0000 % 256
  }

  /** The little-endian 16- and 32-bit numbers at offset i of bs. */
  function U16At(bs: seq<nat>, i: nat): nat
    requires i + 2 <= |bs|
  {
    bs[i] + 0x100 * bs[i + 1]
  }

  function U32At(bs: seq<nat>, i: nat): nat
    requires i + 4 <= |bs|
  {
    bs[i] + 0x100 * bs[i + 1] + 0x1_0000 * bs[i + 2] + 0x100_0000 * bs[i + 3]
  }

  /** Byte k of the header as file.write copies the struct on a little-endian
      machine: "RIFF", chunk size, "WAVE", "fmt ", the fmt fields, "data", data
      size, at the offsets the struct layout gives them. */
  function HeaderByte(h: WavHeader, k: nat): (b: nat)
    requires k < 44
    ensures b < 256
  {
    if k < 4 then [82, 73, 70, 70][k]
    else if k < 8 then ByteOf(h.chunkSize, k - 4)
    else if k < 16 then [87, 65, 86, 69, 102, 109, 116, 32][k - 8]
    else if k < 20 then ByteOf(h.fmtChunkSize, k - 16)
    else if k < 22 then ByteOf(h.audioFormat, k - 20)
    else if k < 24 then ByteOf(h.numChannels, k - 22)
    else if k < 28 then ByteOf(h.sampleRate, k - 24)
    else if k < 32 then ByteOf(h.byteRate, k - 28)
    else if k < 34 then ByteOf(h.blockAlign, k - 32)
    else if k < 36 then ByteOf(h.bitsPerSample, k - 34)
    else if k < 40 then [100, 97, 116, 97][k - 36]
    else ByteOf(h.dataSize, k - 40)
  }

  /** The 44 bytes of the header. */
  function HeaderBytes(h: WavHeader): (bs: seq<nat>)
    ensures |bs| == 44
    ensures forall i :: 0 <= i < |bs| ==> bs[i] < 256
  {
    seq(44, k requires 0 <= k < 44 => HeaderByte(h, k))
  }

  /** The tags "RIFF", "WAVE", "fmt " and "data" at their offsets. */
  predicate HasTags(bs: seq<nat>)
    requires |bs| >= 44
  {
    bs[0] == 82 && bs[1] == 73 && bs[2] == 70 && bs[3] == 70 &&
    bs[8] == 87 && bs[9] == 65 && bs[10] == 86 && bs[11] == 69 &&
    bs[12] == 102 && bs[13] == 109 && bs[14] == 116 && bs[15] == 32 &&
    bs[36] == 100 && bs[37] == 97 && bs[38] == 116 && bs[39] == 97
  }

  /** A reader of the canonical layout: the header fields of the first 44 bytes,
      or None when they are too few or a tag is wrong. */
  function ParseHeader(bs: seq<nat>): Option<WavHeader> {
    if |bs| < 44 || !HasTags(bs) then None
    else Some(WavHeader(
      U32At(bs, 4), U32At(bs, 16), U16At(bs, 20), U16At(bs, 22), U32At(bs, 24),
      U32At(bs, 28), U16At(bs, 32), U16At(bs, 34), U32At(bs, 40)))
  }

  lemma Le16RoundTrip(x: nat)
    requires x < U16
    ensures ByteOf(x, 0) + 0x100 * ByteOf(x, 1) == x
  {
  }

  lemma Le32RoundTrip(x: nat)
    requires x < U32
    ensures ByteOf(x, 0) + 0x100 * ByteOf(x, 1) + 0x1_0000 * ByteOf(x, 2) + 0x100_0000 * ByteOf(x, 3) == x
  {
    var q1 := x / 0x100;
    var q2 := q1 / 0x100;
    var q3 := q2 / 0x100;
    assert x == q1 * 0x100 + x % 256;
    assert q1 == q2 * 0x100 + q1 % 256;
    assert q2 == q3 * 0x100 + q2 % 256;
    assert q3 < 256;
    assert x / 0x1_0000 == q2;
    assert x / 0x100_0000 == q3;
  }

  /** The 32-bit little-endian field at offset i holds the number whose bytes were
      written there. */
  lemma U32Field(bs: seq<nat>, i: nat, x: nat)
    requires x < U32 && i + 4 <= |bs|
    requires bs[i] == ByteOf(x, 0) && bs[i + 1] == ByteOf(x, 1)
    requires bs[i + 2] == ByteOf(x, 2) && bs[i + 3] == ByteOf(x, 3)
    ensures U32At(bs, i) == x
  {
    Le32RoundTrip(x);
  }

  lemma U16Field(bs: seq<nat>, i: nat, x: nat)
    requires x < U16 && i + 2 <= |bs|
    requires bs[i] == ByteOf(x, 0) && bs[i + 1] == ByteOf(x, 1)
    ensures U16At(bs, i) == x
  {
    Le16RoundTrip(x);
  }

  /** Reading back the bytes written gives the header written. */
  lemma HeaderRoundTrip(h: WavHeader)
    requires Fits(h)
    ensures ParseHeader(HeaderBytes(h)) == Some(h)
  {
    var bs := HeaderBytes(h);
    assert HasTags(bs);
    U32Field(bs, 4, h.chunkSize);
    U32Field(bs, 16, h.fmtChunkSize);
    U16Field(bs, 20, h.audioFormat);
    U16Field(bs, 22, h.numChannels);
    U32Field(bs, 24, h.sampleRate);
    U32Field(bs, 28, h.byteRate);
    U16Field(bs, 32, h.blockAlign);
    U16Field(bs, 34, h.bitsPerSample);
    U32Field(bs, 40, h.dataSize);
  }

  /** The mono 16-bit header save_wav16 writes reads back as a canonical header. */
  lemma Wav16BytesCanonical(nSamples: nat, sampleRate: int)
    requires 0 <= sampleRate && 2 * sampleRate < U32
    requires 36 + 2 * nSamples < U32
    ensures var p := ParseHeader(HeaderBytes(Wav16Header(nSamples, sampleRate)));
      p.Some? && CanonicalPcm(p.value) && p.value.dataSize == 2 * nSamples &&
      p.value.sampleRate == sampleRate
  {
    Wav16HeaderCanonical(nSamples, sampleRate);
    HeaderRoundTrip(Wav16Header(nSamples, sampleRate));
  }

  // ---------------------------------------------------------------------------
  // Code generation
  // ---------------------------------------------------------------------------

  /** What the code-generation loop sees of the TTS model: the token the sampler
      picks after the given tokens have been accepted, the vocabulary's control and
      end-of-generation tests, its EOS token, and whether decoding one token at a
      position succeeds. */
  datatype TtsEngine = TtsEngine(
    sample: seq<Token> -> Token,
    isControl: Token -> bool,
    isEog: Token -> bool,
    eos: Token,
    decodeOk: (nat, Token) -> bool)

  /** The outcome of the loop: a decode failure makes synthesizeSpeech give up;
      otherwise the codes generated and the guide tokens left over. */
  datatype CodeGen = DecodeFailed | Generated(codes: seq<Token>, guide: seq<Token>)

  /** n_max_codes: n_predict when positive, 768 otherwise. */
  function MaxCodes(nPredict: int): (r: nat)
    ensures r > 0
    ensures nPredict > 0 ==> r == nPredict
  {
    if nPredict > 0 then nPredict else 768
  }

  /** The word separator token: the first token of the tokenized separator, or -1
      when it tokenizes to nothing. */
  function SeparatorToken(sepTokens: seq<Token>): Token {
    if sepTokens == [] then -1 else sepTokens[0]
  }

  /** The guide-token override of one sampled token: with guide tokens in use and
      left, right after a word separator, and for a token that is neither a control
      nor an end-of-generation token, the next guide token replaces it and is
      consumed. The result is the token kept and the guide left. */
  function Pick(e: TtsEngine, useGuide: bool, id: Token, guide: seq<Token>, useNext: bool): (Token, seq<Token>) {
    if useGuide && guide != [] && useNext && !e.isControl(id) && !e.isEog(id)
    then (guide[0], guide[1..])
    else (id, guide)
  }

  /** The loop of synthesizeSpeech from step i on, with the codes generated so far,
      the guide tokens left and whether the next token may take a guide token. Each
      step samples, applies the override, stops at EOS (which is not kept), keeps
      the token, and decodes it at position promptLen + i. */
  function GenerateFrom(e: TtsEngine, useGuide: bool, sep: Token, promptLen: nat, maxCodes: nat,
                        i: nat, codes: seq<Token>, guide: seq<Token>, useNext: bool): CodeGen
    decreases maxCodes - i
  {
    if i >= maxCodes then Generated(codes, guide)
    else
      var p := Pick(e, useGuide, e.sample(codes), guide, useNext);
      if p.0 == e.eos then Generated(codes, p.1)
      else if !e.decodeOk(promptLen + i, p.0) then DecodeFailed
      else GenerateFrom(e, useGuide, sep, promptLen, maxCodes, i + 1, codes + [p.0], p.1, p.0 == sep)
  }

  /** The whole loop, from no codes, all guide tokens, and a guide token allowed first. */
  function Generate(e: TtsEngine, useGuide: bool, sep: Token, promptLen: nat, nPredict: int,
                    guide: seq<Token>): CodeGen {
    GenerateFrom(e, useGuide, sep, promptLen, MaxCodes(nPredict), 0, [], guide, true)
  }

  /** The code-generation loop of synthesizeSpeech. */
  method GenerateCodes(e: TtsEngine, useGuide: bool, sep: Token, promptLen: nat, nPredict: int,
                       guideTokens: seq<Token>) returns (r: CodeGen)
    ensures r == Generate(e, useGuide, sep, promptLen, nPredict, guideTokens)
  {
    var maxCodes := MaxCodes(nPredict);
    var codes: seq<Token> := [];
    var guide := guideTokens;
    var useNext := true;
    var i := 0;
    while i < maxCodes
      invariant 0 <= i <= maxCodes
      invariant Generate(e, useGuide, sep, promptLen, nPredict, guideTokens) ==
        GenerateFrom(e, useGuide, sep, promptLen, maxCodes, i, codes, guide, useNext)
    {
      var id := e.sample(codes);
      if useGuide && guide != [] && useNext && !e.isControl(id) && !e.isEog(id) {
        id := guide[0];
        guide := guide[1..];
      }
      useNext := id == sep;
      if id == e.eos {
        break;
      }
      codes := codes + [id];
      if !e.decodeOk(promptLen + i, id) {
        return DecodeFailed;
      }
      i := i + 1;
    }
    r := Generated(codes, guide);
  }

  /** Every step keeps at most one code, so the loop ends with at most maxCodes - i
      more codes than it started with, and the codes it started with come first. */
  lemma {:induction false} GenerateFromBound(e: TtsEngine, useGuide: bool, sep: Token, promptLen: nat,
                                             maxCodes: nat, i: nat, codes: seq<Token>, guide: seq<Token>,
                                             useNext: bool)
    requires i <= maxCodes
    ensures var r := GenerateFrom(e, useGuide, sep, promptLen, maxCodes, i, codes, guide, useNext);
      r.Generated? ==> |codes| <= |r.codes| <= |codes| + (maxCodes - i) && r.codes[..|codes|] == codes
    decreases maxCodes - i
  {
    if i < maxCodes {
      var p := Pick(e, useGuide, e.sample(codes), guide, useNext);
      if p.0 != e.eos && e.decodeOk(promptLen + i, p.0) {
        GenerateFromBound(e, useGuide, sep, promptLen, maxCodes, i + 1, codes + [p.0], p.1, p.0 == sep);
        var r := GenerateFrom(e, useGuide, sep, promptLen, maxCodes, i + 1, codes + [p.0], p.1, p.0 == sep);
        if r.Generated? {
          assert r.codes[..|codes|] == (r.codes[..|codes| + 1])[..|codes|];
        }
      }
    }
  }

  /** The EOS token ends the loop and is never kept among the codes. */
  lemma {:induction false} GenerateFromNoEos(e: TtsEngine, useGuide: bool, sep: Token, promptLen: nat,
                                             maxCodes: nat, i: nat, codes: seq<Token>, guide: seq<Token>,
                                             useNext: bool)
    requires e.eos !in codes
    ensures var r := GenerateFrom(e, useGuide, sep, promptLen, maxCodes, i, codes, guide, useNext);
      r.Generated? ==> e.eos !in r.codes
    decreases maxCodes - i
  {
    if i < maxCodes {
      var p := Pick(e, useGuide, e.sample(codes), guide, useNext);
      if p.0 != e.eos && e.decodeOk(promptLen + i, p.0) {
        GenerateFromNoEos(e, useGuide, sep, promptLen, maxCodes, i + 1, codes + [p.0], p.1, p.0 == sep);
      }
    }
  }

  /** Guide tokens are taken from the front, at most one per step: what is left is
      a suffix of the guide, and no more tokens were taken than steps were run, nor
      more than one beyond the codes kept (the step that meets EOS may take one). */
  lemma {:induction false} GenerateFromGuide(e: TtsEngine, useGuide: bool, sep: Token, promptLen: nat,
                                             maxCodes: nat, i: nat, codes: seq<Token>, guide: seq<Token>,
                                             useNext: bool)
    requires i <= maxCodes
    ensures var r := GenerateFrom(e, useGuide, sep, promptLen, maxCodes, i, codes, guide, useNext);
      r.Generated? ==>
        |r.guide| <= |guide| && r.guide == guide[|guide| - |r.guide|..] &&
        |guide| - |r.guide| <= maxCodes - i &&
        |guide| - |r.guide| <= |r.codes| - |codes| + 1
    decreases maxCodes - i
  {
    GenerateFromBound(e, useGuide, sep, promptLen, maxCodes, i, codes, guide, useNext);
    if i < maxCodes {
      var p := Pick(e, useGuide, e.sample(codes), guide, useNext);
      assert |p.1| <= |guide| && p.1 == guide[|guide| - |p.1|..] && |guide| - |p.1| <= 1;
      if p.0 != e.eos && e.decodeOk(promptLen + i, p.0) {
        GenerateFromGuide(e, useGuide, sep, promptLen, maxCodes, i + 1, codes + [p.0], p.1, p.0 == sep);
        var r := GenerateFrom(e, useGuide, sep, promptLen, maxCodes, i + 1, codes + [p.0], p.1, p.0 == sep);
        if r.Generated? {
          assert r.guide == p.1[|p.1| - |r.guide|..];
          assert p.1[|p.1| - |r.guide|..] == guide[|guide| - |r.guide|..];
        }
      }
    }
  }

  /** Without guide tokens in use the guide is never touched. */
  lemma {:induction false} GenerateFromNoGuide(e: TtsEngine, sep: Token, promptLen: nat, maxCodes: nat,
                                               i: nat, codes: seq<Token>, guide: seq<Token>, useNext: bool)
    ensures var r := GenerateFrom(e, false, sep, promptLen, maxCodes, i, codes, guide, useNext);
      r.Generated? ==> r.guide == guide
    decreases maxCodes - i
  {
    if i < maxCodes {
      var p := Pick(e, false, e.sample(codes), guide, useNext);
      if p.0 != e.eos && e.decodeOk(promptLen + i, p.0) {
        GenerateFromNoGuide(e, sep, promptLen, maxCodes, i + 1, codes + [p.0], p.1, p.0 == sep);
      }
    }
  }

  /** The properties of the whole loop: at most n_max_codes codes, no EOS among
      them, and the guide consumed from the front, one token per step at most. */
  lemma GenerateProperties(e: TtsEngine, useGuide: bool, sep: Token, promptLen: nat, nPredict: int,
                           guide: seq<Token>)
    ensures var r := Generate(e, useGuide, sep, promptLen, nPredict, guide);
      r.Generated? ==>
        |r.codes| <= MaxCodes(nPredict) && e.eos !in r.codes &&
        |r.guide| <= |guide| && r.guide == guide[|guide| - |r.guide|..] &&
        |guide| - |r.guide| <= |r.codes| + 1 &&
        (!useGuide ==> r.guide == guide)
  {
    GenerateFromBound(e, useGuide, sep, promptLen, MaxCodes(nPredict), 0, [], guide, true);
    GenerateFromNoEos(e, useGuide, sep, promptLen, MaxCodes(nPredict), 0, [], guide, true);
    GenerateFromGuide(e, useGuide, sep, promptLen, MaxCodes(nPredict), 0, [], guide, true);
    if !useGuide {
      GenerateFromNoGuide(e, sep, promptLen, MaxCodes(nPredict), 0, [], guide, true);
    }
  }

  /** An EOS as the first sample gives no codes; a decode failure on the first token
      fails the synthesis. */
  lemma GenerateFirstStep(e: TtsEngine, sep: Token, promptLen: nat, nPredict: int)
    ensures e.sample([]) == e.eos ==> Generate(e, false, sep, promptLen, nPredict, []) == Generated([], [])
    ensures e.sample([]) != e.eos && !e.decodeOk(promptLen, e.sample([])) ==>
      Generate(e, false, sep, promptLen, nPredict, []) == DecodeFailed
  {
  }

  // ---------------------------------------------------------------------------
  // The audio-code filter
  // ---------------------------------------------------------------------------

  const AudioCodeMin: int := 151672
  const AudioCodeMax: int := 155772

  predicate IsAudioCode(c: Token) {
    AudioCodeMin <= c <= AudioCodeMax
  }

  /** The in-range codes, offset by the first audio code, in their order. */
  function FilterCodes(codes: seq<Token>): seq<Token> {
    if codes == [] then []
    else
      var last := codes[|codes| - 1];
      FilterCodes(codes[..|codes| - 1]) + (if IsAudioCode(last) then [last - AudioCodeMin] else [])
  }

  /** The filter loop of synthesizeSpeech. */
  method FilterAudioCodes(generated: seq<Token>) returns (filtered: seq<Token>)
    ensures filtered == FilterCodes(generated)
  {
    filtered := [];
    for i := 0 to |generated|
      invariant filtered == FilterCodes(generated[..i])
    {
      var code := generated[i];
      assert generated[..i + 1][..i] == generated[..i];
      if code >= AudioCodeMin && code <= AudioCodeMax {
        filtered := filtered + [code - AudioCodeMin];
      }
    }
    assert generated[..|generated|] == generated;
  }

  /** Filtering a concatenation filters each part: order is kept. */
  lemma {:induction false} FilterCodesAppend(a: seq<Token>, b: seq<Token>)
    ensures FilterCodes(a + b) == FilterCodes(a) + FilterCodes(b)
    decreases |b|
  {
    if b == [] {
      assert a + b == a;
    } else {
      var b' := b[..|b| - 1];
      assert (a + b)[..|a + b| - 1] == a + b';
      FilterCodesAppend(a, b');
    }
  }

  /** A single code is kept, offset, exactly when it is an audio code. */
  lemma FilterCodesSingle(c: Token)
    ensures FilterCodes([c]) == (if IsAudioCode(c) then [c - AudioCodeMin] else [])
  {
    assert [c][..0] == [];
  }

  /** Every filtered code lies in the vocoder's range 0 .. 4100. */
  lemma {:induction false} FilterCodesRange(codes: seq<Token>)
    ensures forall k :: 0 <= k < |FilterCodes(codes)| ==>
      0 <= FilterCodes(codes)[k] <= AudioCodeMax - AudioCodeMin
    decreases |codes|
  {
    if codes != [] {
      FilterCodesRange(codes[..|codes| - 1]);
    }
  }

  /** x is a filtered code exactly when x + 151672 is an audio code among the codes. */
  lemma {:induction false} FilterCodesMembers(codes: seq<Token>, x: Token)
    ensures x in FilterCodes(codes) <==> (x + AudioCodeMin in codes && IsAudioCode(x + AudioCodeMin))
    decreases |codes|
  {
    if codes != [] {
      var init := codes[..|codes| - 1];
      FilterCodesMembers(init, x);
      assert codes == init + [codes[|codes| - 1]];
      assert x + AudioCodeMin in codes <==> (x + AudioCodeMin in init || x + AudioCodeMin == codes[|codes| - 1]);
    }
  }

  /** The filter drops codes and never adds any; when every code is an audio code
      each is kept. */
  lemma {:induction false} FilterCodesLength(codes: seq<Token>)
    ensures |FilterCodes(codes)| <= |codes|
    ensures (forall k :: 0 <= k < |codes| ==> IsAudioCode(codes[k])) ==> |FilterCodes(codes)| == |codes|
    decreases |codes|
  {
    if codes != [] {
      var init := codes[..|codes| - 1];
      FilterCodesLength(init);
      assert (forall k :: 0 <= k < |codes| ==> IsAudioCode(codes[k])) ==>
        (forall k :: 0 <= k < |init| ==> IsAudioCode(init[k]));
    }
  }
}
