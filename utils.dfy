/** Token-sequence and string helpers of the completion layer, and the token batch
    buffer that is filled before each decode call. */
module Utils {

  datatype Option<T> = None | Some(value: T)

  /** A vocabulary token id (llama_token, a 32-bit signed integer). */
  type Token = int

  function Min(a: int, b: int): int { if a < b then a else b }
  function Max(a: int, b: int): int { if a < b then b else a }

  // ---------------------------------------------------------------------------
  // common_part

  /** k is the length of the longest common prefix of a and b. */
  ghost predicate IsCommonPrefixLength(a: seq<Token>, b: seq<Token>, k: nat) {
    k <= |a| && k <= |b| && a[..k] == b[..k] && (k < |a| && k < |b| ==> a[k] != b[k])
  }

  /** Counts the leading positions at which a and b agree. */
  method CommonPart(a: seq<Token>, b: seq<Token>) returns (k: nat)
    ensures k <= |a| && k <= |b|
    ensures a[..k] == b[..k]
    ensures k < |a| && k < |b| ==> a[k] != b[k]
  {
    var limit := Min(|a|, |b|);
    k := 0;
    while k < limit && a[k] == b[k]
      invariant k <= limit
      invariant a[..k] == b[..k]
    {
      k := k + 1;
    }
  }

  /** The three postconditions of CommonPart determine its result. */
  lemma CommonPrefixLengthUnique(a: seq<Token>, b: seq<Token>, k1: nat, k2: nat)
    requires IsCommonPrefixLength(a, b, k1) && IsCommonPrefixLength(a, b, k2)
    ensures k1 == k2
  {
    forall i | 0 <= i < k2 ensures a[i] == b[i] {
      assert a[..k2][i] == b[..k2][i];
    }
    forall i | 0 <= i < k1 ensures a[i] == b[i] {
      assert a[..k1][i] == b[..k1][i];
    }
  }

  /** A sequence shares its whole length with itself, and nothing with the empty one. */
  lemma CommonPrefixLengthSelfAndEmpty(a: seq<Token>, k: nat)
    ensures IsCommonPrefixLength(a, a, k) <==> k == |a|
    ensures IsCommonPrefixLength(a, [], k) <==> k == 0
  {
  }

  // ---------------------------------------------------------------------------
  // ends_with

  /** str.size() >= suffix.size() and the last suffix.size() characters compare equal. */
  predicate EndsWith(str: string, suffix: string) {
    |str| >= |suffix| && forall i :: 0 <= i < |suffix| ==> str[|str| - |suffix| + i] == suffix[i]
  }

  lemma EndsWithIffConcat(str: string, suffix: string)
    ensures EndsWith(str, suffix) <==> exists u :: str == u + suffix
  {
    if EndsWith(str, suffix) {
      var u := str[..|str| - |suffix|];
      assert str[|u|..] == suffix;
      assert str == u + str[|u|..];
    }
    if exists u :: str == u + suffix {
      var u :| str == u + suffix;
      forall i | 0 <= i < |suffix| ensures str[|str| - |suffix| + i] == suffix[i] {
        assert str[|u| + i] == suffix[i];
      }
    }
  }

  // ---------------------------------------------------------------------------
  // std::string::find

  /** w occurs in text at index i. */
  predicate OccursAt(text: string, w: string, i: nat) {
    i + |w| <= |text| && text[i..i + |w|] == w
  }

  /** text.find(w, from): the first occurrence of w at an index no smaller than from. */
  function FindFrom(text: string, w: string, from: nat): (r: Option<nat>)
    ensures r.Some? ==> from <= r.value && OccursAt(text, w, r.value)
    ensures r.Some? ==> forall i :: from <= i < r.value ==> !OccursAt(text, w, i)
    ensures r.None? ==> forall i :: from <= i ==> !OccursAt(text, w, i)
    decreases |text| - from
  {
    if from + |w| > |text| then None
    else if text[from..from + |w|] == w then Some(from)
    else FindFrom(text, w, from + 1)
  }

  // ---------------------------------------------------------------------------
  // find_partial_stop_string

  /** The loop of find_partial_stop_string from i = n - 1 down to 0: candidate prefixes
      stop[..n], stop[..n-1], ..., stop[..1] are tried, longest first. */
  function PartialFrom(stop: string, text: string, n: nat): (r: Option<nat>)
    requires n <= |stop| && text != []
    ensures r.Some? ==> r.value < |text| && |text| - r.value <= n
    ensures r.Some? ==> EndsWith(text, stop[..|text| - r.value])
    ensures r.Some? ==> forall k :: |text| - r.value < k <= n ==> !EndsWith(text, stop[..k])
    ensures r.None? ==> forall k :: 1 <= k <= n ==> !EndsWith(text, stop[..k])
    decreases n
  {
    if n == 0 then None
    else if stop[n - 1] == text[|text| - 1] && EndsWith(text, stop[..n]) then Some(|text| - n)
    else
      PartialFrom(stop, text, n - 1)
  }

  /** The position in text at which the longest non-empty prefix of stop that is a
      suffix of text begins; None (npos) when there is none or either string is empty. */
  function FindPartialStopString(stop: string, text: string): (r: Option<nat>)
    ensures text == [] || stop == [] ==> r.None?
    ensures r.Some? ==> r.value < |text| && text[r.value..] <= stop
    ensures r.Some? ==> forall k :: |text| - r.value < k <= |stop| ==> !EndsWith(text, stop[..k])
    ensures r.None? ==> forall k :: 1 <= k <= |stop| ==> !EndsWith(text, stop[..k])
  {
    if text != [] && stop != [] then
      var r := PartialFrom(stop, text, |stop|);
      if r.Some? then
        SuffixIsPrefix(text, stop, |text| - r.value);
        r
      else r
    else None
  }

  lemma SuffixIsPrefix(text: string, stop: string, k: nat)
    requires k <= |stop| && EndsWith(text, stop[..k])
    ensures text[|text| - k..] == stop[..k] && text[|text| - k..] <= stop
  {
    assert forall i :: 0 <= i < k ==> text[|text| - k..][i] == stop[..k][i];
  }

  /** When the whole stop word ends the text, the partial match starts where it does. */
  lemma {:induction false} FullStopIsPartialMatch(stop: string, text: string)
    requires stop != [] && EndsWith(text, stop)
    ensures FindPartialStopString(stop, text) == Some(|text| - |stop|)
  {
    assert stop[..|stop|] == stop;
    var r := FindPartialStopString(stop, text);
    assert r.Some?;
    SuffixIsPrefix(text, stop, |text| - r.value);
  }

  // ---------------------------------------------------------------------------
  // tokens_to_output_formatted_string

  /** The byte a char holds (the unsigned char value of a std::string element). */
  function ByteValue(c: char): nat { (c as int) % 256 }

  function HexDigit(d: nat): char
    requires d < 16
  {
    if d < 10 then ('0' as int + d) as char else ('a' as int + d - 10) as char
  }

  /** Value of a lowercase hexadecimal digit (the inverse of HexDigit). */
  function HexValue(c: char): int {
    if '0' <= c <= '9' then c as int - '0' as int
    else if 'a' <= c <= 'f' then c as int - 'a' as int + 10
    else -1
  }

  /** std::hex rendering of an unsigned value: lowercase digits, no leading zeros. */
  function Hex(v: nat): string
    decreases v
  {
    if v < 16 then [HexDigit(v)] else Hex(v / 16) + [HexDigit(v % 16)]
  }

  /** A one-byte piece whose high bit is set (a fragment of a multi-byte character) is
      shown as "byte: \x" and two hex digits; every other piece is shown as it is. */
  function FormatPiece(out: string): string {
    if |out| == 1 && (ByteValue(out[0]) as bv8) & 0x80 == 0x80 then
      var res := Hex(ByteValue(out[0]));
      "byte: \\x" + (if |res| == 1 then "0" + res else res)
    else out
  }

  /** tokens_to_output_formatted_string: the formatting rule applied to the token's piece. */
  function TokensToOutputFormattedString(ctxPresent: bool, token: Token, piece: Token -> string): string {
    if !ctxPresent then "<null_ctx>"
    else FormatPiece(if token == -1 then "" else piece(token))
  }

  lemma HighBit(b: nat)
    requires b < 256
    ensures (b as bv8) & 0x80 == 0x80 <==> b >= 128
  {
  }

  /** The formatted piece of a high byte carries the byte back as two hex digits. */
  lemma FormatPieceHighByte(out: string)
    requires |out| == 1 && ByteValue(out[0]) >= 128
    ensures var r := FormatPiece(out);
      |r| == 10 && r[..8] == "byte: \\x" &&
      HexValue(r[8]) * 16 + HexValue(r[9]) == ByteValue(out[0]) &&
      HexValue(r[8]) >= 0 && HexValue(r[9]) >= 0
  {
    var b := ByteValue(out[0]);
    HighBit(b);
    assert Hex(b) == [HexDigit(b / 16), HexDigit(b % 16)];
    var r := FormatPiece(out);
    assert r == "byte: \\x" + [HexDigit(b / 16), HexDigit(b % 16)];
    assert r[8] == HexDigit(b / 16) && r[9] == HexDigit(b % 16);
  }

  /** Any piece that is not a single high byte is returned unchanged. */
  lemma FormatPieceOther(out: string)
    requires |out| != 1 || ByteValue(out[0]) < 128
    ensures FormatPiece(out) == out
  {
    if |out| == 1 {
      HighBit(ByteValue(out[0]));
    }
  }

  // ---------------------------------------------------------------------------
  // tokens_to_str

  /** The pieces of the tokens, concatenated. */
  function Pieces(tokens: seq<Token>, piece: Token -> string): string {
    if tokens == [] then "" else Pieces(tokens[..|tokens| - 1], piece) + piece(tokens[|tokens| - 1])
  }

  /** Appends the piece of every token in order; without a context it yields "<null_ctx>". */
  method TokensToStr(ctxPresent: bool, tokens: seq<Token>, piece: Token -> string) returns (ret: string)
    ensures ctxPresent ==> ret == Pieces(tokens, piece)
    ensures !ctxPresent ==> ret == "<null_ctx>"
  {
    ret := "";
    if !ctxPresent {
      return "<null_ctx>";
    }
    var i := 0;
    while i < |tokens|
      invariant i <= |tokens|
      invariant ret == Pieces(tokens[..i], piece)
    {
      assert tokens[..i + 1][..i] == tokens[..i];
      ret := ret + piece(tokens[i]);
      i := i + 1;
    }
    assert tokens[..|tokens|] == tokens;
  }

  lemma {:induction false} PiecesAppend(a: seq<Token>, b: seq<Token>, piece: Token -> string)
    ensures Pieces(a + b, piece) == Pieces(a, piece) + Pieces(b, piece)
    decreases |b|
  {
    if b == [] {
      assert a + b == a;
    } else {
      var b' := b[..|b| - 1];
      assert (a + b)[..|a + b| - 1] == a + b';
      PiecesAppend(a, b', piece);
    }
  }

  // ---------------------------------------------------------------------------
  // llama_batch, llama_batch_add, llama_batch_clear

  /** The token batch handed to a decode call: parallel arrays of capacity slots, of
      which the first nTokens are in use. seqId has one row of sequence ids per slot. */
  class Batch {
    var nTokens: int
    var token: array<Token>
    var pos: array<int>
    var nSeqId: array<int>
    var seqId: array2<int>
    var logits: array<int>

    ghost predicate Valid()
      reads this
    {
      pos.Length == token.Length && nSeqId.Length == token.Length &&
      logits.Length == token.Length && seqId.Length0 == token.Length &&
      token != pos && token != nSeqId && token != logits &&
      pos != nSeqId && pos != logits && nSeqId != logits &&
      0 <= nTokens <= token.Length
    }

    /** llama_batch_init(capacity, 0, nSeqMax). */
    constructor Init(capacity: nat, nSeqMax: nat)
      ensures Valid() && nTokens == 0
      ensures token.Length == capacity && seqId.Length1 == nSeqMax
      ensures fresh(token) && fresh(pos) && fresh(nSeqId) && fresh(seqId) && fresh(logits)
    {
      nTokens := 0;
      token := new Token[capacity];
      pos := new int[capacity];
      nSeqId := new int[capacity];
      seqId := new int[capacity, nSeqMax];
      logits := new int[capacity];
    }
  }

  /** Writes one token into the next free slot and bumps nTokens; a null batch is left
      alone. The source does not check the capacity, so the caller must leave room. */
  method BatchAdd(batch: Batch?, id: Token, p: int, seqIds: seq<int>, logits: bool)
    requires batch != null ==> batch.Valid() && batch.nTokens < batch.token.Length
    requires batch != null ==> |seqIds| <= batch.seqId.Length1
    modifies if batch == null then {} else {batch, batch.token, batch.pos, batch.nSeqId, batch.logits}
    modifies if batch == null then {} else {batch.seqId}
    ensures batch != null ==> batch.Valid()
    ensures batch != null ==>
      batch.token == old(batch.token) && batch.pos == old(batch.pos) &&
      batch.nSeqId == old(batch.nSeqId) && batch.seqId == old(batch.seqId) &&
      batch.logits == old(batch.logits)
    ensures batch != null ==> batch.nTokens == old(batch.nTokens) + 1
    ensures batch != null ==>
      var n := old(batch.nTokens);
      batch.token[..] == old(batch.token[..])[n := id] &&
      batch.pos[..] == old(batch.pos[..])[n := p] &&
      batch.nSeqId[..] == old(batch.nSeqId[..])[n := |seqIds|] &&
      batch.logits[..] == old(batch.logits[..])[n := if logits then 1 else 0]
    ensures batch != null ==>
      forall r, c :: 0 <= r < batch.seqId.Length0 && 0 <= c < batch.seqId.Length1 ==>
        batch.seqId[r, c] == if r == old(batch.nTokens) && c < |seqIds| then seqIds[c] else old(batch.seqId[r, c])
  {
    if batch == null {
      return;
    }
    var n := batch.nTokens;
    batch.token[n] := id;
    batch.pos[n] := p;
    batch.nSeqId[n] := |seqIds|;
    var i := 0;
    while i < |seqIds|
      invariant 0 <= i <= |seqIds|
      invariant batch.token == old(batch.token) && batch.pos == old(batch.pos)
      invariant batch.nSeqId == old(batch.nSeqId) && batch.seqId == old(batch.seqId)
      invariant batch.logits == old(batch.logits) && batch.nTokens == n
      invariant batch.token[..] == old(batch.token[..])[n := id]
      invariant batch.pos[..] == old(batch.pos[..])[n := p]
      invariant batch.nSeqId[..] == old(batch.nSeqId[..])[n := |seqIds|]
      invariant batch.logits[..] == old(batch.logits[..])
      invariant forall r, c :: 0 <= r < batch.seqId.Length0 && 0 <= c < batch.seqId.Length1 ==>
        batch.seqId[r, c] == if r == n && c < i then seqIds[c] else old(batch.seqId[r, c])
    {
      batch.seqId[n, i] := seqIds[i];
      i := i + 1;
    }
    batch.logits[n] := if logits then 1 else 0;
    batch.nTokens := n + 1;
  }

  /** Resets the slot count of a batch and nothing else; a null batch is left alone. */
  method BatchClear(batch: Batch?)
    modifies if batch == null then {} else {batch}
    ensures batch != null ==> batch.nTokens == 0
    ensures batch != null ==>
      batch.token == old(batch.token) && batch.pos == old(batch.pos) &&
      batch.nSeqId == old(batch.nSeqId) && batch.seqId == old(batch.seqId) &&
      batch.logits == old(batch.logits)
  {
    if batch != null {
      batch.nTokens := 0;
    }
  }
}
