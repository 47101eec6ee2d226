/** The text front-end of speech synthesis: numbers spelled out in English words, the
    normalisation of the input text into separator-joined words, the speaker's words
    and the guide tokens. */
module TtsText {
  import opened Utils

  /** The OuteTTS prompt format, which decides the word separator. */
  datatype Version = V0_2 | V0_3

  function Separator(v: Version): (sep: string)
    ensures |sep| >= 9 && sep[0] == '<'
  {
    if v == V0_3 then "<|space|>" else "<|text_sep|>"
  }

  /** The words with sep between each two consecutive ones. */
  function Join(ws: seq<string>, sep: string): string
    decreases |ws|
  {
    if ws == [] then "" else if |ws| == 1 then ws[0] else ws[0] + sep + Join(ws[1..], sep)
  }

  lemma JoinCons(w: string, ws: seq<string>, sep: string)
    ensures Join([w] + ws, sep) == if ws == [] then w else w + sep + Join(ws, sep)
  {
    assert ([w] + ws)[1..] == ws;
  }

  // ---------------------------------------------------------------------------
  // convert_less_than_thousand

  /** The ones map, keys 0..19. */
  function Ones(k: int): string
    requires 0 <= k < 20
  {
    match k
    case 0 => "zero" case 1 => "one" case 2 => "two" case 3 => "three" case 4 => "four"
    case 5 => "five" case 6 => "six" case 7 => "seven" case 8 => "eight" case 9 => "nine"
    case 10 => "ten" case 11 => "eleven" case 12 => "twelve" case 13 => "thirteen"
    case 14 => "fourteen" case 15 => "fifteen" case 16 => "sixteen" case 17 => "seventeen"
    case 18 => "eighteen" case _ => "nineteen"
  }

  /** The tens map, keys 2..9. */
  function Tens(k: int): string
    requires 2 <= k < 10
  {
    match k
    case 2 => "twenty" case 3 => "thirty" case 4 => "forty" case 5 => "fifty"
    case 6 => "sixty" case 7 => "seventy" case 8 => "eighty" case _ => "ninety"
  }

  /** The word for 1..99: a ones word below twenty, otherwise the tens word, followed
      by a hyphen and the ones word when the unit is not zero. */
  function BelowHundred(n: int): string
    requires 0 < n < 100
  {
    if n < 20 then Ones(n) else Tens(n / 10) + (if n % 10 > 0 then "-" + Ones(n % 10) else "")
  }

  /** convert_less_than_thousand as a value: "" for zero (and for a negative number,
      which no branch handles), the word below one hundred, or "<ones> hundred"
      followed by the rest; None stands for the std::out_of_range that ones.at throws
      when the hundreds digit is twenty or more. */
  function BelowThousand(n: int): Option<string> {
    if n <= 0 then Some("")
    else if n < 100 then Some(BelowHundred(n))
    else if n / 100 >= 20 then None
    else Some(Ones(n / 100) + " hundred" + (if n % 100 > 0 then " " + BelowHundred(n % 100) else ""))
  }

  /** The conversion fails exactly from two thousand on. */
  lemma BelowThousandFails(n: int)
    ensures BelowThousand(n).None? <==> n >= 2000
  {
  }

  /** convert_less_than_thousand: appends the hundreds, then the tens and ones, to an
      initially empty result while reducing num. */
  method ConvertLessThanThousand(num0: int) returns (r: Option<string>)
    ensures r == BelowThousand(num0)
  {
    var num := num0;
    var result := "";
    if num == 0 {
      return Some("");
    }
    if num >= 100 {
      if num / 100 >= 20 {
        return None;
      }
      result := result + Ones(num / 100) + " hundred";
      num := num % 100;
      if num > 0 {
        result := result + " ";
      }
    }
    ghost var head := result;
    ghost var low := "";
    if num >= 20 {
      result := result + Tens(num / 10);
      low := Tens(num / 10);
      if num % 10 > 0 {
        AppendAssoc(head, low, "-" + Ones(num % 10));
        result := result + ("-" + Ones(num % 10));
        low := low + ("-" + Ones(num % 10));
      }
    } else if num > 0 {
      result := result + Ones(num);
      low := Ones(num);
    }
    assert result == head + low;
    assert num > 0 ==> low == BelowHundred(num);
    assert num <= 0 ==> low == "";
    if num0 >= 100 {
      assert head == Ones(num0 / 100) + " hundred" + (if num > 0 then " " else "");
      if num > 0 {
        AppendAssoc(Ones(num0 / 100) + " hundred", " ", low);
        assert result == Ones(num0 / 100) + " hundred" + (" " + BelowHundred(num0 % 100));
      } else {
        assert result == Ones(num0 / 100) + " hundred" + "";
      }
    } else if num0 > 0 {
      assert result == BelowHundred(num0);
    } else {
      assert result == "";
    }
    return Some(result);
  }

  lemma AppendAssoc(a: string, b: string, c: string)
    ensures a + b + c == a + (b + c)
  {
  }

  // ---------------------------------------------------------------------------
  // number_to_words

  /** What std::stoll makes of a string: no digits (std::invalid_argument), a value
      outside long long (std::out_of_range), or the value. */
  datatype Parsed = Invalid | OutOfRange | Value(v: int)

  const Int64Min: int := -0x8000_0000_0000_0000

  /** isspace in the C locale: space, tab, newline, vertical tab, form feed, return. */
  predicate IsSpace(c: char) {
    c == ' ' || 9 <= c as int <= 13
  }

  predicate IsDigit(c: char) {
    '0' <= c <= '9'
  }

  /** The length of the run of characters satisfying the test at the start of s. */
  function SpaceRun(s: string): (n: nat)
    ensures n <= |s| && forall i :: 0 <= i < n ==> IsSpace(s[i])
    ensures n < |s| ==> !IsSpace(s[n])
  {
    if s == [] || !IsSpace(s[0]) then 0 else 1 + SpaceRun(s[1..])
  }

  function DigitRun(s: string): (n: nat)
    ensures n <= |s| && forall i :: 0 <= i < n ==> IsDigit(s[i])
    ensures n < |s| ==> !IsDigit(s[n])
  {
    if s == [] || !IsDigit(s[0]) then 0 else 1 + DigitRun(s[1..])
  }

  /** The decimal value of a string of digits. */
  function DigitsValue(ds: string): nat
    requires forall i :: 0 <= i < |ds| ==> IsDigit(ds[i])
  {
    if ds == [] then 0 else 10 * DigitsValue(ds[..|ds| - 1]) + DigitValue(ds[|ds| - 1])
  }

  function DigitValue(c: char): (d: nat)
    requires IsDigit(c)
    ensures d < 10
  {
    c as int - '0' as int
  }

  /** std::stoll in base 10: leading white space, an optional sign, then the longest
      run of digits; whatever follows is ignored. */
  function Stoll(s: string): (r: Parsed)
    ensures r.Value? ==> Int64Min <= r.v < -Int64Min
  {
    var t := s[SpaceRun(s)..];
    var signed := t != [] && (t[0] == '-' || t[0] == '+');
    var u := if signed then t[1..] else t;
    var n := DigitRun(u);
    if n == 0 then Invalid
    else
      var mag: int := DigitsValue(u[..n]);
      var v: int := if signed && t[0] == '-' then -mag else mag;
      if v < Int64Min || v > -Int64Min - 1 then OutOfRange else Value(v)
  }

  /** White space followed by a non-space is skipped: the run ends at the first non-space. */
  lemma {:induction false} SpaceRunPrefix(ws: string, t: string)
    requires forall i :: 0 <= i < |ws| ==> IsSpace(ws[i])
    requires t == [] || !IsSpace(t[0])
    ensures SpaceRun(ws + t) == |ws|
  {
    if ws != [] {
      assert (ws + t)[1..] == ws[1..] + t;
      SpaceRunPrefix(ws[1..], t);
    }
  }

  lemma {:induction false} DigitRunPrefix(ds: string, t: string)
    requires forall i :: 0 <= i < |ds| ==> IsDigit(ds[i])
    requires t == [] || !IsDigit(t[0])
    ensures DigitRun(ds + t) == |ds|
  {
    if ds != [] {
      assert (ds + t)[1..] == ds[1..] + t;
      DigitRunPrefix(ds[1..], t);
    }
  }

  /** std::stoll reads white space, an optional sign and the longest run of digits, and
      ignores the rest: the value is the signed value of the digits, or out of range when
      that does not fit a long long. */
  lemma StollReads(ws: string, sign: string, ds: string, rest: string)
    requires forall i :: 0 <= i < |ws| ==> IsSpace(ws[i])
    requires sign == "" || sign == "-" || sign == "+"
    requires ds != [] && forall i :: 0 <= i < |ds| ==> IsDigit(ds[i])
    requires rest == [] || !IsDigit(rest[0])
    ensures var v: int := if sign == "-" then -(DigitsValue(ds) as int) else DigitsValue(ds);
      Stoll(ws + sign + ds + rest) == if Int64Min <= v < -Int64Min then Value(v) else OutOfRange
  {
    var t := sign + (ds + rest);
    Regroup(ws, sign, ds, rest);
    assert !IsSpace(t[0]) by {
      assert t[0] == if sign == "" then ds[0] else sign[0];
    }
    StollSkipsSpace(ws, t);
    StollSigned(sign, ds, rest);
  }

  lemma Regroup(a: string, b: string, c: string, d: string)
    ensures a + b + c + d == a + (b + (c + d))
  {
  }

  lemma StollSkipsSpace(ws: string, t: string)
    requires forall i :: 0 <= i < |ws| ==> IsSpace(ws[i])
    requires t == [] || !IsSpace(t[0])
    ensures Stoll(ws + t) == Stoll(t)
  {
    SpaceRunPrefix(ws, t);
    SpaceRunPrefix([], t);
    assert (ws + t)[|ws|..] == t;
    assert t[0..] == t;
  }

  lemma StollSigned(sign: string, ds: string, rest: string)
    requires sign == "" || sign == "-" || sign == "+"
    requires ds != [] && forall i :: 0 <= i < |ds| ==> IsDigit(ds[i])
    requires rest == [] || !IsDigit(rest[0])
    ensures var v: int := if sign == "-" then -(DigitsValue(ds) as int) else DigitsValue(ds);
      Stoll(sign + (ds + rest)) == if Int64Min <= v < -Int64Min then Value(v) else OutOfRange
  {
    var t := sign + (ds + rest);
    var u := ds + rest;
    assert t[0] == if sign == "" then ds[0] else sign[0];
    assert SpaceRun(t) == 0;
    assert t[SpaceRun(t)..] == t;
    var signed := t != [] && (t[0] == '-' || t[0] == '+');
    assert signed == (sign != "");
    assert (if signed then t[1..] else t) == u;
    DigitRunPrefix(ds, rest);
    assert u[..DigitRun(u)] == ds;
    assert DigitsValue(u[..DigitRun(u)]) == DigitsValue(ds);
    assert (signed && t[0] == '-') == (sign == "-");
  }

  /** -ll_number on a long long: the negation of the smallest value overflows, and on
      two's-complement hardware leaves it unchanged. */
  function Negate64(v: int): int {
    if v == Int64Min then v else -v
  }

  /** The scales of number_to_words, largest first, and the word that follows a group. */
  function ScaleSize(k: nat): nat
    requires k < 4
  {
    if k == 0 then 1_000_000_000_000 else if k == 1 then 1_000_000_000 else if k == 2 then 1_000_000 else 1000
  }

  function ScaleName(k: nat): string
    requires k < 4
  {
    if k == 0 then " trillion" else if k == 1 then " billion" else if k == 2 then " million" else " thousand"
  }

  /** The phrase of every non-zero group of m from scale k down to the units, largest
      first: the group of scale k is m / ScaleSize(k), and the rest is spelled from the
      remainder. None when a group cannot be spelled. */
  function Phrases(m: nat, k: nat): Option<seq<string>>
    requires k <= 4
    decreases 4 - k
  {
    if k == 4 then
      (if m == 0 then Some([]) else
       var w := BelowThousand(m);
       if w.None? then None else Some([w.value]))
    else if m < ScaleSize(k) then Phrases(m, k + 1)
    else
      var w := BelowThousand(m / ScaleSize(k));
      var rest := Phrases(m % ScaleSize(k), k + 1);
      if w.None? || rest.None? then None else Some([w.value + ScaleName(k)] + rest.value)
  }

  /** The words for a positive number: the phrases of its non-zero groups, with a single
      space between two of them; "" for a number that is not positive. */
  function Spell(m: int): Option<string> {
    if m <= 0 then Some("")
    else
      var ps := Phrases(m, 0);
      if ps.None? then None else Some(Join(ps.value, " "))
  }

  /** A number has no phrases exactly when it is zero. */
  lemma {:induction false} PhrasesEmpty(m: nat, k: nat)
    requires k <= 4 && Phrases(m, k).Some?
    ensures Phrases(m, k).value == [] <==> m == 0
    decreases 4 - k
  {
    if k < 4 {
      if m < ScaleSize(k) {
        PhrasesEmpty(m, k + 1);
      } else {
        PhrasesEmpty(m % ScaleSize(k), k + 1);
      }
    }
  }

  /** Below the scale above, every group is below one thousand and can be spelled. */
  lemma {:induction false} PhrasesDefined(n: nat, k: nat)
    requires 1 <= k <= 4 && n < ScaleSize(k - 1)
    ensures Phrases(n, k).Some?
    decreases 4 - k
  {
    if k == 4 {
      BelowThousandFails(n);
    } else if n < ScaleSize(k) {
      PhrasesDefined(n, k + 1);
    } else {
      BelowThousandFails(n / ScaleSize(k));
      PhrasesDefined(n % ScaleSize(k), k + 1);
    }
  }

  /** Groups below the trillions are below one thousand, so only a trillions group of
      two thousand or more (a number from 2 * 10^15 on) cannot be spelled. */
  lemma SpellFails(m: int)
    ensures Spell(m).None? <==> m >= 2_000_000_000_000_000
  {
    if m > 0 {
      if m < ScaleSize(0) {
        PhrasesDefined(m, 1);
      } else {
        PhrasesDefined(m % ScaleSize(0), 1);
        BelowThousandFails(m / ScaleSize(0));
      }
    }
  }

  /** One scale block of number_to_words: a non-zero group is spelled and followed by
      its scale word, and by a space when a remainder follows. */
  lemma PhrasesStep(m: nat, k: nat)
    requires k < 4 && m >= ScaleSize(k) && Phrases(m, k).Some?
    ensures BelowThousand(m / ScaleSize(k)).Some? && Phrases(m % ScaleSize(k), k + 1).Some?
    ensures Join(Phrases(m, k).value, " ") ==
      BelowThousand(m / ScaleSize(k)).value + ScaleName(k) + (if m % ScaleSize(k) > 0 then " " else "") +
      Join(Phrases(m % ScaleSize(k), k + 1).value, " ")
  {
    var w := BelowThousand(m / ScaleSize(k)).value + ScaleName(k);
    var rest := Phrases(m % ScaleSize(k), k + 1).value;
    PhrasesEmpty(m % ScaleSize(k), k + 1);
    JoinCons(w, rest, " ");
    if rest == [] {
      assert w + "" + "" == w;
    } else {
      AppendAssoc(w, " ", Join(rest, " "));
    }
  }

  /** The text one scale block adds, and the number it leaves for the smaller scales. */
  function BlockText(m: nat, k: nat): string
    requires k < 4 && (m < ScaleSize(k) || BelowThousand(m / ScaleSize(k)).Some?)
  {
    if m < ScaleSize(k) then ""
    else BelowThousand(m / ScaleSize(k)).value + ScaleName(k) + (if m % ScaleSize(k) > 0 then " " else "")
  }

  function BlockRest(m: nat, k: nat): nat
    requires k < 4
  {
    if m < ScaleSize(k) then m else m % ScaleSize(k)
  }

  /** After the blocks above scale k, the words so far and the phrases still to come
      from the number left make up the words for the whole number. */
  ghost predicate Tracks(m: nat, res: string, n: nat, k: nat)
    requires k <= 4
  {
    (Phrases(m, 0).Some? <==> Phrases(n, k).Some?) &&
    (Phrases(n, k).Some? ==> Join(Phrases(m, 0).value, " ") == res + Join(Phrases(n, k).value, " "))
  }

  /** A scale block keeps the words consistent with the phrases of the whole number. */
  lemma TracksNext(m: nat, res: string, n: nat, k: nat)
    requires k < 4 && Tracks(m, res, n, k)
    requires n < ScaleSize(k) || BelowThousand(n / ScaleSize(k)).Some?
    ensures Tracks(m, res + BlockText(n, k), BlockRest(n, k), k + 1)
  {
    if n < ScaleSize(k) {
      assert res + BlockText(n, k) == res;
    } else if Phrases(n, k).Some? {
      PhrasesStep(n, k);
      AppendAssoc(res, BlockText(n, k), Join(Phrases(BlockRest(n, k), k + 1).value, " "));
    }
  }

  /** Below the scale above, a group is always below one thousand. */
  lemma BlockDefined(n: nat, k: nat)
    requires 1 <= k < 4 && n < ScaleSize(k - 1)
    ensures n < ScaleSize(k) || BelowThousand(n / ScaleSize(k)).Some?
  {
    BelowThousandFails(n / ScaleSize(k));
  }

  /** One scale block: when the number reaches the scale, its group is spelled and
      followed by the scale word, the number keeps its remainder, and a space follows
      when the remainder is not zero. ok is false for the std::out_of_range of a group
      that cannot be spelled. */
  method ScaleBlock(res: string, m: nat, k: nat) returns (ok: bool, res2: string, m2: nat)
    requires k < 4
    ensures ok <==> (m < ScaleSize(k) || BelowThousand(m / ScaleSize(k)).Some?)
    ensures ok ==> res2 == res + BlockText(m, k) && m2 == BlockRest(m, k) && m2 < ScaleSize(k)
  {
    res2, m2 := res, m;
    if m2 >= ScaleSize(k) {
      var w := ConvertLessThanThousand(m2 / ScaleSize(k));
      if w.None? {
        return false, res2, m2;
      }
      res2 := res2 + (w.value + ScaleName(k));
      m2 := m2 % ScaleSize(k);
      if m2 > 0 {
        res2 := res2 + " ";
      }
      AppendAssoc(res, w.value + ScaleName(k), if m2 > 0 then " " else "");
    }
    return true, res2, m2;
  }

  /** The scale blocks of number_to_words, trillions down to units, on the magnitude of
      a non-zero number: the words for it, or None for the std::out_of_range thrown when
      the trillions group cannot be spelled. A magnitude that is not positive (the
      negation of the smallest long long) passes none of the blocks. */
  method SpellScales(m: int) returns (r: Option<string>)
    ensures r == Spell(m)
  {
    if m <= 0 {
      return Some("");
    }
    var ok, res, n := ScaleBlock("", m, 0);
    if !ok {
      return None;
    }
    assert Tracks(m, "", m, 0);
    TracksNext(m, "", m, 0);
    res, n := LowerBlock(m, res, n, 1);
    res, n := LowerBlock(m, res, n, 2);
    res, n := LowerBlock(m, res, n, 3);
    res := UnitsBlock(m, res, n);
    return Some(res);
  }

  /** The last block: the units group, spelled, when it is not zero. */
  method UnitsBlock(ghost m: nat, res: string, n: nat) returns (res2: string)
    requires m > 0 && n < 1000 && Tracks(m, res, n, 4)
    ensures Spell(m) == Some(res2)
  {
    TracksUnits(m, res, n);
    res2 := res;
    if n > 0 {
      var w := ConvertLessThanThousand(n);
      res2 := res2 + w.value;
    } else {
      assert res2 == res + "";
    }
  }

  /** A block below the trillions, whose group is below one thousand and so never fails. */
  method LowerBlock(ghost m: nat, res: string, n: nat, k: nat) returns (res2: string, n2: nat)
    requires 1 <= k < 4 && n < ScaleSize(k - 1) && Tracks(m, res, n, k)
    ensures n2 < ScaleSize(k) && Tracks(m, res2, n2, k + 1)
  {
    BlockDefined(n, k);
    var ok;
    ok, res2, n2 := ScaleBlock(res, n, k);
    TracksNext(m, res, n, k);
  }

  /** The units block ends the words: the last group, spelled, if it is not zero. */
  lemma TracksUnits(m: nat, res: string, n: nat)
    requires m > 0 && n < 1000 && Tracks(m, res, n, 4)
    ensures BelowThousand(n).Some?
    ensures Spell(m) == Some(res + (if n > 0 then BelowThousand(n).value else ""))
  {
    BelowThousandFails(n);
    if n > 0 {
      assert Join([BelowThousand(n).value], " ") == BelowThousand(n).value;
    } else {
      assert Join([], " ") == "";
      assert res + "" == res;
    }
  }

  /** The words of the digits of a decimal part, each after a space; any other
      character is skipped. */
  function DigitWords(ds: string): string {
    if ds == [] then ""
    else DigitWords(ds[..|ds| - 1]) + DigitWord(ds[|ds| - 1])
  }

  function DigitWord(c: char): string {
    if IsDigit(c) then " " + Ones(DigitValue(c)) else ""
  }

  /** Drops one trailing space. */
  function DropTrailingSpace(w: string): string {
    if w != [] && w[|w| - 1] == ' ' then w[..|w| - 1] else w
  }

  /** number_to_words: the integer part before the first '.' (taken as "0" when it is
      empty and a decimal point follows) is read by std::stoll; zero is "zero", a
      negative number is "minus " and the words for its negation, and each digit after
      the decimal point follows " point" as a word. A string with neither an integer
      part nor a decimal point gives "", and the string itself comes back unchanged
      when std::stoll or the spelling of a group throws. */
  function NumberWords(s: string): string {
    var dot := FindFrom(s, ".", 0);
    var intPart := if dot.Some? then s[..dot.value] else s;
    if intPart == [] && dot.None? then ""
    else
      var parsed := Stoll(if intPart == [] then "0" else intPart);
      if !parsed.Value? then s
      else
        var words := IntegerWords(parsed.v);
        if words.None? then s
        else Finished(words.value, s, dot)
  }

  /** The words for the integer part, then " point" and the digit words when there is
      a decimal point, without one trailing space. */
  function Finished(words: string, s: string, dot: Option<nat>): string
    requires dot.Some? ==> dot.value < |s|
  {
    DropTrailingSpace(words + DecimalWords(s, dot))
  }

  /** " point" and the digit words after the decimal point; "" without one. */
  function DecimalWords(s: string, dot: Option<nat>): string
    requires dot.Some? ==> dot.value < |s|
  {
    if dot.Some? then " point" + DigitWords(s[dot.value + 1..]) else ""
  }

  /** The words for the integer part: "zero", "minus " and the words for the negation
      of a negative number, or the words for a positive one. */
  function IntegerWords(v: int): Option<string> {
    if v == 0 then Some("zero")
    else if v < 0 then (var w := Spell(Negate64(v)); if w.None? then None else Some("minus " + w.value))
    else Spell(v)
  }

  /** The branch of number_to_words on the value std::stoll returned. */
  method SpellInteger(llNumber0: int) returns (r: Option<string>)
    ensures r == IntegerWords(llNumber0)
  {
    var llNumber := llNumber0;
    if llNumber == 0 {
      return Some("zero");
    }
    var tempRes := "";
    if llNumber < 0 {
      tempRes := tempRes + "minus ";
      assert tempRes == "minus ";
      llNumber := Negate64(llNumber);
    }
    var spelled := SpellScales(llNumber);
    if spelled.None? {
      return None;
    }
    assert llNumber0 > 0 ==> tempRes + spelled.value == spelled.value;
    return Some(tempRes + spelled.value);
  }

  /** The loop over the decimal part of number_to_words. */
  method AppendDigitWords(res: string, ds: string) returns (r: string)
    ensures r == res + DigitWords(ds)
  {
    r := res;
    for i := 0 to |ds|
      invariant r == res + DigitWords(ds[..i])
    {
      assert ds[..i + 1][..i] == ds[..i];
      assert DigitWords(ds[..i + 1]) == DigitWords(ds[..i]) + DigitWord(ds[i]);
      AppendAssoc(res, DigitWords(ds[..i]), DigitWord(ds[i]));
      if '0' <= ds[i] <= '9' {
        r := r + (" " + Ones(ds[i] as int - '0' as int));
      } else {
        assert r == r + DigitWord(ds[i]);
      }
    }
    assert ds[..|ds|] == ds;
  }

  /** number_to_words, with the two exceptions it catches returning the input. */
  method NumberToWords(numberStr: string) returns (r: string)
    ensures r == NumberWords(numberStr)
  {
    var decimalPos := FindFrom(numberStr, ".", 0);
    var integerPartStr := if decimalPos.Some? then numberStr[..decimalPos.value] else numberStr;
    if integerPartStr == [] && decimalPos.Some? {
      integerPartStr := "0";
    }
    if integerPartStr == [] && decimalPos.None? {
      return "";
    }
    var parsed := Stoll(integerPartStr);
    if !parsed.Value? {
      return numberStr;
    }
    var spelled := SpellInteger(parsed.v);
    if spelled.None? {
      return numberStr;
    }
    var resultWords := spelled.value;
    r := FinishWords(spelled.value, numberStr, decimalPos);
  }

  /** The decimal part and the trailing-space removal of number_to_words. */
  method FinishWords(integerWords: string, numberStr: string, decimalPos: Option<nat>) returns (resultWords: string)
    requires decimalPos.Some? ==> decimalPos.value < |numberStr|
    ensures resultWords == Finished(integerWords, numberStr, decimalPos)
  {
    resultWords := AppendDecimal(integerWords, numberStr, decimalPos);
    ghost var full := resultWords;
    if resultWords != [] && resultWords[|resultWords| - 1] == ' ' {
      resultWords := resultWords[..|resultWords| - 1];
    }
    assert resultWords == DropTrailingSpace(full);
  }

  /** " point" and the digit words, when there is a decimal point. */
  method AppendDecimal(integerWords: string, numberStr: string, decimalPos: Option<nat>) returns (resultWords: string)
    requires decimalPos.Some? ==> decimalPos.value < |numberStr|
    ensures resultWords == integerWords + DecimalWords(numberStr, decimalPos)
  {
    resultWords := integerWords;
    if decimalPos.Some? {
      resultWords := resultWords + " point";
      resultWords := AppendDigitWords(resultWords, numberStr[decimalPos.value + 1..]);
      AppendAssoc(integerWords, " point", DigitWords(numberStr[decimalPos.value + 1..]));
      assert DecimalWords(numberStr, decimalPos) == " point" + DigitWords(numberStr[decimalPos.value + 1..]);
    } else {
      assert resultWords == integerWords + "";
    }
  }

  /** The empty string has no words. */
  lemma NumberWordsEmpty()
    ensures NumberWords("") == ""
  {
  }

  lemma StollZero()
    ensures Stoll("0") == Value(0)
  {
    assert SpaceRun("0") == 0 && DigitRun("0") == 1;
    assert DigitsValue("0") == 0;
  }

  lemma DigitWordsFive()
    ensures DigitWords("5") == " five"
  {
    assert "5"[..0] == "";
    assert DigitWord('5') == " five";
  }

  /** A leading decimal point reads as "zero point". */
  lemma NumberWordsPointFive()
    ensures NumberWords(".5") == "zero point five"
  {
    PointFiveParsed();
    PointFiveFinished();
  }

  lemma PointFiveParsed()
    ensures NumberWords(".5") == Finished("zero", ".5", Some(0))
  {
    assert FindFrom(".5", ".", 0) == Some(0);
    StollZero();
  }

  lemma PointFiveFinished()
    ensures Finished("zero", ".5", Some(0)) == "zero point five"
  {
    assert ".5"[1..] == "5";
    DigitWordsFive();
    assert DropTrailingSpace("zero" + (" point" + " five")) == "zero point five";
  }

  /** A sign without digits before the decimal point is not a number for std::stoll, so
      the string comes back unchanged. */
  lemma NumberWordsSignOnly()
    ensures NumberWords("-.5") == "-.5"
  {
    assert FindFrom("-.5", ".", 0) == Some(1) by {
      assert "-.5"[0..1] == "-" && "-.5"[1..2] == ".";
    }
    assert "-.5"[..1] == "-";
    assert Stoll("-") == Invalid by {
      assert SpaceRun("-") == 0;
      assert "-"[1..] == [];
    }
  }

  /** A two-digit number is spelled with a hyphen. */
  lemma NumberWordsFortyTwo()
    ensures NumberWords("42") == "forty-two"
  {
    FortyTwoParsed();
    FortyTwoSpelled();
    EndsInLetterNoSpace("forty-two");
  }

  lemma StollFortyTwo()
    ensures Stoll("42") == Value(42)
  {
    assert SpaceRun("42") == 0;
    assert DigitRun("42") == 2 by { assert DigitRun("2") == 1; }
    assert "42"[..2] == "42" && "42"[..1] == "4";
    assert DigitsValue("42") == 42;
  }

  lemma FortyTwoParsed()
    ensures NumberWords("42") == DropTrailingSpace(IntegerWords(42).value + "")
  {
    assert FindFrom("42", ".", 0) == None by {
      assert "42"[0..1] == "4" && "42"[1..2] == "2";
      assert FindFrom("42", ".", 2) == None;
      assert FindFrom("42", ".", 1) == None;
    }
    StollFortyTwo();
    FortyTwoSpelled();
  }

  lemma FortyTwoSpelled()
    ensures IntegerWords(42) == Some("forty-two")
  {
    assert BelowHundred(42) == "forty-two";
    assert Phrases(42, 4) == Some(["forty-two"]);
    assert Phrases(42, 2) == Phrases(42, 3) == Phrases(42, 4);
    assert Phrases(42, 0) == Phrases(42, 1) == Phrases(42, 2);
    assert Join(["forty-two"], " ") == "forty-two";
  }

  /** The words end in a letter, so removing a trailing space leaves them alone. */
  predicate EndsInLetter(w: string) {
    w != [] && 'a' <= w[|w| - 1] <= 'z'
  }

  lemma EndsInLetterNoSpace(w: string)
    requires EndsInLetter(w)
    ensures DropTrailingSpace(w + "") == w
  {
    assert w + "" == w;
  }

  lemma OnesEndInLetter(k: int)
    requires 0 <= k < 20
    ensures EndsInLetter(Ones(k))
  {
  }

  lemma TensEndInLetter(k: int)
    requires 2 <= k < 10
    ensures EndsInLetter(Tens(k))
  {
  }

  lemma EndsInLetterAppend(a: string, b: string)
    requires EndsInLetter(b)
    ensures EndsInLetter(a + b)
  {
    assert (a + b)[|a + b| - 1] == b[|b| - 1];
  }

  lemma BelowHundredEndsInLetter(u: int)
    requires 0 < u < 100
    ensures EndsInLetter(BelowHundred(u))
  {
    if u < 20 {
      OnesEndInLetter(u);
    } else if u % 10 > 0 {
      OnesEndInLetter(u % 10);
      EndsInLetterAppend("-", Ones(u % 10));
      EndsInLetterAppend(Tens(u / 10), "-" + Ones(u % 10));
    } else {
      TensEndInLetter(u / 10);
      assert BelowHundred(u) == Tens(u / 10) + "";
    }
  }

  lemma BelowThousandEndsInLetter(n: int)
    requires 0 < n < 2000
    ensures BelowThousand(n).Some? && EndsInLetter(BelowThousand(n).value)
  {
    if n < 100 {
      BelowHundredEndsInLetter(n);
    } else {
      var head := Ones(n / 100) + " hundred";
      assert EndsInLetter(" hundred");
      EndsInLetterAppend(Ones(n / 100), " hundred");
      if n % 100 > 0 {
        BelowHundredEndsInLetter(n % 100);
        EndsInLetterAppend(" ", BelowHundred(n % 100));
        EndsInLetterAppend(head, " " + BelowHundred(n % 100));
      } else {
        assert head + "" == head;
      }
    }
  }

  /** Every phrase of a number ends in a letter. */
  lemma {:induction false} PhrasesEndInLetter(m: nat, k: nat)
    requires k <= 4 && Phrases(m, k).Some?
    ensures forall i :: 0 <= i < |Phrases(m, k).value| ==> EndsInLetter(Phrases(m, k).value[i])
    decreases 4 - k
  {
    if k == 4 {
      if m > 0 {
        BelowThousandFails(m);
        BelowThousandEndsInLetter(m);
      }
    } else if m < ScaleSize(k) {
      PhrasesEndInLetter(m, k + 1);
    } else {
      PhrasesEndInLetter(m % ScaleSize(k), k + 1);
      var w := BelowThousand(m / ScaleSize(k)).value + ScaleName(k);
      assert EndsInLetter(w);
    }
  }

  /** Joining words that end in letters ends in a letter. */
  lemma {:induction false} JoinEndsInLetter(ws: seq<string>, sep: string)
    requires ws != [] && forall i :: 0 <= i < |ws| ==> EndsInLetter(ws[i])
    ensures EndsInLetter(Join(ws, sep))
    decreases |ws|
  {
    if |ws| > 1 {
      JoinEndsInLetter(ws[1..], sep);
      assert Join(ws, sep) == ws[0] + sep + Join(ws[1..], sep);
    }
  }

  /** The words for a non-zero number end in a letter, except for the smallest long
      long, whose negation wraps back to itself and leaves only "minus ". */
  lemma IntegerWordsEndInLetter(v: int)
    requires IntegerWords(v).Some? && v != Int64Min
    ensures EndsInLetter(IntegerWords(v).value)
  {
    if v != 0 {
      var m := if v < 0 then -v else v;
      SpellFails(m);
      PhrasesEmpty(m, 0);
      PhrasesEndInLetter(m, 0);
      JoinEndsInLetter(Phrases(m, 0).value, " ");
    }
  }

  /** Without a decimal point the whole string is the integer part. */
  lemma NumberWordsNoDot(s: string)
    requires FindFrom(s, ".", 0).None? && s != []
    ensures NumberWords(s) ==
      if Stoll(s).Value? && IntegerWords(Stoll(s).v).Some? then DropTrailingSpace(IntegerWords(Stoll(s).v).value + "")
      else s
  {
  }

  /** An integer numeral is replaced by the words for its value, or comes back unchanged
      when its magnitude reaches 2 * 10^15 (or std::stoll rejects it). */
  lemma NumberWordsInteger(s: string)
    requires FindFrom(s, ".", 0).None? && s != []
    requires Stoll(s).Value? && Stoll(s).v != Int64Min
    ensures var v := Stoll(s).v;
      v <= -2_000_000_000_000_000 || v >= 2_000_000_000_000_000 ==> NumberWords(s) == s
    ensures var v := Stoll(s).v;
      -2_000_000_000_000_000 < v < 2_000_000_000_000_000 ==>
        IntegerWords(v).Some? && NumberWords(s) == IntegerWords(v).value
  {
    var v := Stoll(s).v;
    NumberWordsNoDot(s);
    IntegerWordsFails(v);
    if IntegerWords(v).Some? {
      IntegerWordsEndInLetter(v);
      EndsInLetterNoSpace(IntegerWords(v).value);
    }
  }

  /** The words for an integer can be made exactly when its magnitude is below 2 * 10^15;
      the smallest long long, whose negation wraps, gives "minus ". */
  lemma IntegerWordsFails(v: int)
    ensures v != Int64Min ==>
      (IntegerWords(v).None? <==> v <= -2_000_000_000_000_000 || v >= 2_000_000_000_000_000)
    ensures IntegerWords(Int64Min) == Some("minus ")
  {
    SpellFails(if v < 0 then -v else v);
    assert Negate64(Int64Min) == Int64Min;
    assert Spell(Int64Min) == Some("");
    assert "minus " + "" == "minus ";
  }

  /** The smallest long long reads as "minus": its negation wraps back to itself, none
      of the scale blocks applies, and the trailing space is dropped. */
  lemma NumberWordsSmallest(s: string)
    requires FindFrom(s, ".", 0).None? && s != [] && Stoll(s) == Value(Int64Min)
    ensures NumberWords(s) == "minus"
  {
    NumberWordsNoDot(s);
    IntegerWordsFails(Int64Min);
    assert "minus " + "" == "minus ";
  }

  // ---------------------------------------------------------------------------
  // The normalisation at the end of process_input_text, applied to the text after its
  // numbers have been replaced by words.

  predicate IsLower(c: char) {
    'a' <= c <= 'z'
  }

  /** ::tolower in the C locale. */
  function ToLower(c: char): char {
    if 'A' <= c <= 'Z' then (c as int + 32) as char else c
  }

  /** The characters the special_chars pattern turns into spaces. */
  predicate IsSpecial(c: char) {
    c == '-' || c == '_' || c == '/' || c == ',' || c == '.' || c == '\\'
  }

  /** Lower-case, then turn each special character into a space. */
  function LowerAndSpecial(t: string): (u: string)
    ensures |u| == |t|
  {
    if t == [] then []
    else
      var c := ToLower(t[0]);
      [if IsSpecial(c) then ' ' else c] + LowerAndSpecial(t[1..])
  }

  /** The non_alpha pattern: remove everything but lower-case letters and white space. */
  function KeepAlpha(t: string): (u: string)
    ensures forall i :: 0 <= i < |u| ==> IsLower(u[i]) || IsSpace(u[i])
  {
    if t == [] then []
    else (if IsLower(t[0]) || IsSpace(t[0]) then [t[0]] else []) + KeepAlpha(t[1..])
  }

  /** The length of the run of non-space characters at the start of u. */
  function WordRun(u: string): (n: nat)
    ensures n <= |u| && forall i :: 0 <= i < n ==> !IsSpace(u[i])
    ensures n < |u| ==> IsSpace(u[n])
  {
    if u == [] || IsSpace(u[0]) then 0 else 1 + WordRun(u[1..])
  }

  /** The multiple_spaces pattern: each maximal run of white space becomes one space. */
  function Collapse(u: string): string
    decreases |u|
  {
    if u == [] then []
    else if IsSpace(u[0]) then " " + Collapse(u[SpaceRun(u)..])
    else u[..WordRun(u)] + Collapse(u[WordRun(u)..])
  }

  /** The length of the run of white space at the end of u. */
  function TrailingSpaceRun(u: string): (n: nat)
    ensures n <= |u|
  {
    if u == [] || !IsSpace(u[|u| - 1]) then 0 else 1 + TrailingSpaceRun(u[..|u| - 1])
  }

  /** The trim pattern: remove white space at both ends. */
  function Trim(u: string): string {
    var v := u[SpaceRun(u)..];
    v[..|v| - TrailingSpaceRun(v)]
  }

  /** The final pattern: each white-space character becomes the separator. */
  function ReplaceSpaces(u: string, sep: string): string {
    if u == [] then [] else (if IsSpace(u[0]) then sep else [u[0]]) + ReplaceSpaces(u[1..], sep)
  }

  /** The tail of process_input_text, after the numbers have been replaced by words. */
  function NormaliseText(t: string, v: Version): string {
    ReplaceSpaces(Trim(Collapse(KeepAlpha(LowerAndSpecial(t)))), Separator(v))
  }

  /** The maximal runs of non-space characters of u, in order. */
  function Words(u: string): seq<string>
    decreases |u|
  {
    if u == [] then []
    else if IsSpace(u[0]) then Words(u[SpaceRun(u)..])
    else [u[..WordRun(u)]] + Words(u[WordRun(u)..])
  }

  /** A word of the normalised text: non-empty lower-case letters. */
  predicate IsWord(w: string) {
    w != [] && forall j :: 0 <= j < |w| ==> IsLower(w[j])
  }

  ghost predicate AllWords(ws: seq<string>) {
    forall i :: 0 <= i < |ws| ==> IsWord(ws[i])
  }

  ghost predicate LettersAndSpaces(u: string) {
    forall i :: 0 <= i < |u| ==> IsLower(u[i]) || IsSpace(u[i])
  }

  /** In a string of letters and white space, the runs between the spaces are words. */
  lemma {:induction false} WordsAreWords(u: string)
    requires LettersAndSpaces(u)
    ensures AllWords(Words(u))
    decreases |u|
  {
    if u != [] {
      if IsSpace(u[0]) {
        WordsAreWords(u[SpaceRun(u)..]);
      } else {
        WordsAreWords(u[WordRun(u)..]);
        assert IsWord(u[..WordRun(u)]) by {
          forall j | 0 <= j < WordRun(u) ensures IsLower(u[..WordRun(u)][j]) {
            assert !IsSpace(u[j]);
          }
        }
      }
    }
  }

  /** The first and last characters of joined non-empty words are those of the first
      and the last word. */
  lemma {:induction false} JoinEnds(ws: seq<string>, sep: string)
    requires ws != [] && AllWords(ws)
    ensures var j := Join(ws, sep); j != [] && j[0] == ws[0][0] && j[|j| - 1] == ws[|ws| - 1][|ws[|ws| - 1]| - 1]
    decreases |ws|
  {
    if |ws| > 1 {
      JoinEnds(ws[1..], sep);
      var rest := Join(ws[1..], sep);
      assert Join(ws, sep) == ws[0] + sep + rest;
      assert ws[|ws| - 1] == ws[1..][|ws[1..]| - 1];
      var j := Join(ws, sep);
      assert j[|j| - 1] == rest[|rest| - 1];
      assert j[0] == ws[0][0];
    }
  }

  /** Collapsing a string that starts with a word gives its words with single spaces
      between them, and one more space if the string ends in white space. */
  lemma {:induction false} CollapseShape(u: string)
    requires u != [] && !IsSpace(u[0]) && LettersAndSpaces(u)
    ensures Words(u) != []
    ensures Collapse(u) == Join(Words(u), " ") + (if IsSpace(u[|u| - 1]) then " " else "")
    decreases |u|
  {
    var n := WordRun(u);
    var w := u[..n];
    var rest := u[n..];
    if rest == [] {
      assert w == u;
      assert Collapse(u) == w + [];
    } else {
      var r2 := rest[SpaceRun(rest)..];
      assert Collapse(rest) == " " + Collapse(r2);
      assert Words(rest) == Words(r2);
      if r2 == [] {
        assert IsSpace(rest[|rest| - 1]);
        assert Collapse(u) == w + " ";
      } else {
        CollapseShape(r2);
        var j2 := Join(Words(r2), " ");
        var e := if IsSpace(u[|u| - 1]) then " " else "";
        assert u[|u| - 1] == r2[|r2| - 1];
        JoinCons(w, Words(r2), " ");
        calc {
          Collapse(u);
          w + (" " + (j2 + e));
          { AppendAssoc(w, " ", j2 + e); AppendAssoc(w + " ", j2, e); }
          w + " " + j2 + e;
        }
      }
    }
  }

  /** Trimming a string of single-spaced words with at most one space at either end
      leaves the words. */
  lemma TrimEdges(ws: seq<string>, front: string, back: string)
    requires ws != [] && AllWords(ws)
    requires front == "" || front == " "
    requires back == "" || back == " "
    ensures Trim(front + Join(ws, " ") + back) == Join(ws, " ")
  {
    var j := Join(ws, " ");
    JoinEnds(ws, " ");
    var x := j + back;
    assert SpaceRun(x) == 0;
    if front == " " {
      assert (front + j + back)[1..] == x;
      assert SpaceRun(front + j + back) == 1 + SpaceRun(x);
    } else {
      assert front + j + back == x;
    }
    if back == " " {
      assert x[..|x| - 1] == j;
      assert TrailingSpaceRun(x) == 1;
    } else {
      assert x == j;
    }
  }

  lemma {:induction false} ReplaceSpacesAppend(a: string, b: string, sep: string)
    ensures ReplaceSpaces(a + b, sep) == ReplaceSpaces(a, sep) + ReplaceSpaces(b, sep)
    decreases |a|
  {
    if a != [] {
      ReplaceSpacesAppend(a[1..], b, sep);
      assert (a + b)[1..] == a[1..] + b;
      AppendAssoc(if IsSpace(a[0]) then sep else [a[0]], ReplaceSpaces(a[1..], sep), ReplaceSpaces(b, sep));
    } else {
      assert a + b == b;
    }
  }

  lemma {:induction false} ReplaceSpacesWord(w: string, sep: string)
    requires forall j :: 0 <= j < |w| ==> IsLower(w[j])
    ensures ReplaceSpaces(w, sep) == w
    decreases |w|
  {
    if w != [] {
      ReplaceSpacesWord(w[1..], sep);
      assert [w[0]] + w[1..] == w;
    }
  }

  /** Replacing the single spaces between words puts the separator between them. */
  lemma {:induction false} ReplaceSpacesJoin(ws: seq<string>, sep: string)
    requires AllWords(ws)
    ensures ReplaceSpaces(Join(ws, " "), sep) == Join(ws, sep)
    decreases |ws|
  {
    if |ws| == 1 {
      ReplaceSpacesWord(ws[0], sep);
    } else if |ws| > 1 {
      ReplaceSpacesJoin(ws[1..], sep);
      ReplaceSpacesWord(ws[0], sep);
      ReplaceSpacesAppend(ws[0] + " ", Join(ws[1..], " "), sep);
      ReplaceSpacesAppend(ws[0], " ", sep);
      assert ReplaceSpaces(" ", sep) == sep + [];
    }
  }

  /** Collapsing and trimming leave the words with single spaces between them. */
  lemma TrimCollapse(u: string)
    requires LettersAndSpaces(u)
    ensures Trim(Collapse(u)) == Join(Words(u), " ")
  {
    if u == [] {
      assert Trim(Collapse(u)) == "";
    } else if IsSpace(u[0]) {
      TrimCollapseSpace(u);
    } else {
      WordsAreWords(u);
      CollapseShape(u);
      var joined := Join(Words(u), " ");
      var e := if IsSpace(u[|u| - 1]) then " " else "";
      assert "" + joined + e == joined + e;
      TrimEdges(Words(u), "", e);
    }
  }

  lemma TrimCollapseSpace(u: string)
    requires LettersAndSpaces(u) && u != [] && IsSpace(u[0])
    ensures Trim(Collapse(u)) == Join(Words(u), " ")
  {
    var r := u[SpaceRun(u)..];
    assert Collapse(u) == " " + Collapse(r);
    assert Words(u) == Words(r);
    if r == [] {
      assert Trim(" ") == "";
    } else {
      WordsAreWords(r);
      CollapseShape(r);
      var joined := Join(Words(r), " ");
      var e := if IsSpace(r[|r| - 1]) then " " else "";
      AppendAssoc(" ", joined, e);
      TrimEdges(Words(r), " ", e);
    }
  }

  /** The normalised text is the words of the filtered text (runs of lower-case
      letters), joined by the separator: it neither starts nor ends with a separator and
      never has two separators in a row. */
  lemma NormaliseTextIsJoin(t: string, v: Version)
    ensures var ws := Words(KeepAlpha(LowerAndSpecial(t)));
      AllWords(ws) && NormaliseText(t, v) == Join(ws, Separator(v))
  {
    var u := KeepAlpha(LowerAndSpecial(t));
    WordsAreWords(u);
    TrimCollapse(u);
    ReplaceSpacesJoin(Words(u), Separator(v));
  }

  /** No leading or trailing separator: the normalised text is empty or starts and ends
      with a letter. */
  lemma NormaliseTextEdges(t: string, v: Version)
    ensures var r := NormaliseText(t, v); r == [] || (IsLower(r[0]) && IsLower(r[|r| - 1]))
  {
    NormaliseTextIsJoin(t, v);
    var ws := Words(KeepAlpha(LowerAndSpecial(t)));
    if ws != [] {
      JoinEnds(ws, Separator(v));
    }
  }

  // ---------------------------------------------------------------------------
  // get_speaker_audio_text

  /** An element of the speaker's "words" array: one without a "word" field, one whose
      word is a string, or one whose word is not a string (get<std::string> throws). */
  datatype WordItem = NoWordField | Word(text: string) | NotAString

  const TextStart: string := "<|text_start|>"

  /** The words of the items that have one, in order. */
  function PresentWords(items: seq<WordItem>): seq<string> {
    if items == [] then []
    else PresentWords(items[..|items| - 1]) + (if items[|items| - 1].Word? then [items[|items| - 1].text] else [])
  }

  predicate HasBadItem(items: seq<WordItem>) {
    exists i :: 0 <= i < |items| && items[i].NotAString?
  }

  /** The speaker's text: "<|text_start|>" and the words joined by the separator; only
      "<|text_start|>" when the speaker has no words array (None) or one of its words is
      not a string. */
  function SpeakerText(words: Option<seq<WordItem>>, v: Version): string {
    if words.None? || HasBadItem(words.value) then TextStart
    else TextStart + Join(PresentWords(words.value), Separator(v))
  }

  /** Each word followed by the separator. */
  function Terminated(ws: seq<string>, sep: string): string {
    if ws == [] then "" else Terminated(ws[..|ws| - 1], sep) + (ws[|ws| - 1] + sep)
  }

  lemma {:induction false} JoinSnoc(ws: seq<string>, w: string, sep: string)
    requires ws != []
    ensures Join(ws + [w], sep) == Join(ws, sep) + sep + w
    decreases |ws|
  {
    if |ws| == 1 {
      assert (ws + [w])[1..] == [w];
    } else {
      assert (ws + [w])[1..] == ws[1..] + [w];
      JoinSnoc(ws[1..], w, sep);
      AppendAssoc(ws[0] + sep, Join(ws[1..], sep) + sep, w);
      AppendAssoc(ws[0] + sep, Join(ws[1..], sep), sep);
    }
  }

  /** Words each followed by the separator are the joined words and one more separator. */
  lemma {:induction false} TerminatedJoin(ws: seq<string>, sep: string)
    requires ws != []
    ensures Terminated(ws, sep) == Join(ws, sep) + sep
    decreases |ws|
  {
    var init := ws[..|ws| - 1];
    var last := ws[|ws| - 1];
    if init == [] {
      assert Terminated(ws, sep) == "" + (last + sep);
    } else {
      TerminatedJoin(init, sep);
      assert init + [last] == ws;
      JoinSnoc(init, last, sep);
      AppendAssoc(Join(init, sep) + sep, last, sep);
    }
  }

  /** get_speaker_audio_text: appends each word and a separator, then removes the final
      separator. rfind(separator) lies at the end exactly when the text ends with it. */
  method SpeakerAudioText(words: Option<seq<WordItem>>, v: Version) returns (audioText: string)
    ensures audioText == SpeakerText(words, v)
  {
    if words.None? {
      return TextStart;
    }
    var separator := Separator(v);
    var failed;
    failed, audioText := AppendWords(words.value, separator);
    if failed {
      return TextStart;
    }
    SpeakerFinish(PresentWords(words.value), v);
    if audioText != [] && |audioText| > |separator| && EndsWith(audioText, separator) {
      audioText := audioText[..|audioText| - |separator|];
    }
  }

  /** The loop of get_speaker_audio_text: each word and a separator after the text-start
      marker; failed for the exception of a word that is not a string. */
  method AppendWords(items: seq<WordItem>, separator: string) returns (failed: bool, audioText: string)
    ensures failed == HasBadItem(items)
    ensures !failed ==> audioText == TextStart + Terminated(PresentWords(items), separator)
  {
    audioText := TextStart;
    for i := 0 to |items|
      invariant audioText == TextStart + Terminated(PresentWords(items[..i]), separator)
      invariant forall j :: 0 <= j < i ==> !items[j].NotAString?
    {
      SpeakerStep(items, i, separator);
      match items[i]
      case Word(w) =>
        AppendAssoc(TextStart, Terminated(PresentWords(items[..i]), separator), w + separator);
        audioText := audioText + (w + separator);
      case NotAString =>
        return true, audioText;
      case NoWordField =>
        assert audioText == audioText + "";
    }
    assert items[..|items|] == items;
    return false, audioText;
  }

  lemma SpeakerStep(items: seq<WordItem>, i: nat, sep: string)
    requires i < |items|
    ensures Terminated(PresentWords(items[..i + 1]), sep) ==
      Terminated(PresentWords(items[..i]), sep) + (if items[i].Word? then items[i].text + sep else "")
  {
    assert items[..i + 1][..i] == items[..i];
    var ws := PresentWords(items[..i]);
    if items[i].Word? {
      assert (ws + [items[i].text])[..|ws|] == ws;
    } else {
      assert ws + [] == ws;
    }
  }

  /** The final separator is there exactly when some word was appended, and removing it
      leaves the joined words. */
  lemma SpeakerFinish(ws: seq<string>, v: Version)
    ensures var t := TextStart + Terminated(ws, Separator(v)); var sep := Separator(v);
      (ws == [] ==> t == TextStart && !EndsWith(t, sep)) &&
      (ws != [] ==> |t| > |sep| && EndsWith(t, sep) && t[..|t| - |sep|] == TextStart + Join(ws, sep))
  {
    var sep := Separator(v);
    if ws == [] {
      assert TextStart + "" == TextStart;
      assert TextStart[|TextStart| - |sep|] != sep[0];
    } else {
      TerminatedJoin(ws, sep);
      AppendAssoc(TextStart, Join(ws, sep), sep);
      var t := TextStart + Join(ws, sep) + sep;
      assert t[..|t| - |sep|] == TextStart + Join(ws, sep);
    }
  }

  /** The speaker's text always starts with the text-start marker. */
  lemma SpeakerTextStart(words: Option<seq<WordItem>>, v: Version)
    ensures |SpeakerText(words, v)| >= |TextStart| && SpeakerText(words, v)[..|TextStart|] == TextStart
  {
  }

  // ---------------------------------------------------------------------------
  // prepare_guide_tokens

  /** The pieces of s from start on between the occurrences of the delimiter d. */
  function SplitFrom(s: string, d: string, start: nat): (ps: seq<string>)
    requires |d| > 0 && start <= |s|
    ensures ps != []
    decreases |s| - start
  {
    var e := FindFrom(s, d, start);
    if e.None? then [s[start..]] else [s[start..e.value]] + SplitFrom(s, d, e.value + |d|)
  }

  /** The first token of a non-empty piece, if its tokenisation has one. */
  function FirstToken(w: string, tokenize: string -> seq<Token>): seq<Token> {
    if w != [] && tokenize(w) != [] then [tokenize(w)[0]] else []
  }

  function FirstTokens(pieces: seq<string>, tokenize: string -> seq<Token>): seq<Token> {
    if pieces == [] then [] else FirstToken(pieces[0], tokenize) + FirstTokens(pieces[1..], tokenize)
  }

  /** The guide tokens: none without a vocabulary; otherwise the first token of "\n",
      then the first token of each non-empty piece of s between separators. */
  function GuideTokens(vocabPresent: bool, s: string, v: Version, tokenize: string -> seq<Token>): seq<Token> {
    if !vocabPresent then []
    else FirstToken("\n", tokenize) + FirstTokens(SplitFrom(s, Separator(v), 0), tokenize)
  }

  /** prepare_guide_tokens, with common_tokenize on the vocabulary as tokenize. */
  method PrepareGuideTokens(vocabPresent: bool, str: string, v: Version, tokenize: string -> seq<Token>)
    returns (resultTokens: seq<Token>)
    ensures resultTokens == GuideTokens(vocabPresent, str, v, tokenize)
  {
    if !vocabPresent {
      return [];
    }
    var delimiter := Separator(v);
    resultTokens := [];
    resultTokens := PushFirstToken(resultTokens, "\n", tokenize);
    resultTokens := GuideWords(str, delimiter, resultTokens, tokenize);
  }

  /** The search loop of prepare_guide_tokens and its last piece. The newline token is
      pushed between the first search and the loop; the search has no effect, so it is
      done here. */
  method GuideWords(str: string, delimiter: string, tokens: seq<Token>, tokenize: string -> seq<Token>)
    returns (resultTokens: seq<Token>)
    requires |delimiter| > 0
    ensures resultTokens == tokens + FirstTokens(SplitFrom(str, delimiter, 0), tokenize)
  {
    resultTokens := tokens;
    var startPos := 0;
    var endPos := FindFrom(str, delimiter, 0);
    while endPos.Some?
      invariant startPos <= |str| && endPos == FindFrom(str, delimiter, startPos)
      invariant tokens + FirstTokens(SplitFrom(str, delimiter, 0), tokenize) ==
        resultTokens + FirstTokens(SplitFrom(str, delimiter, startPos), tokenize)
      decreases |str| - startPos
    {
      resultTokens, startPos, endPos := GuideWord(str, delimiter, resultTokens, startPos, endPos.value, tokenize);
    }
    var lastWord := str[startPos..];
    SplitLast(str, delimiter, startPos, tokenize);
    resultTokens := PushFirstToken(resultTokens, lastWord, tokenize);
  }

  /** One turn of the loop of prepare_guide_tokens: the word up to the delimiter found,
      then the search for the next delimiter. */
  method GuideWord(str: string, delimiter: string, tokens: seq<Token>, startPos: nat, endPos: nat,
                   tokenize: string -> seq<Token>)
    returns (tokens2: seq<Token>, startPos2: nat, endPos2: Option<nat>)
    requires |delimiter| > 0 && startPos <= |str| && FindFrom(str, delimiter, startPos) == Some(endPos)
    ensures startPos < startPos2 <= |str| && endPos2 == FindFrom(str, delimiter, startPos2)
    ensures tokens + FirstTokens(SplitFrom(str, delimiter, startPos), tokenize) ==
      tokens2 + FirstTokens(SplitFrom(str, delimiter, startPos2), tokenize)
  {
    var currentWord := str[startPos..endPos];
    SplitStep(str, delimiter, startPos, endPos, tokens, tokenize);
    tokens2 := PushFirstToken(tokens, currentWord, tokenize);
    startPos2 := endPos + |delimiter|;
    endPos2 := FindFrom(str, delimiter, startPos2);
  }

  /** The step repeated in prepare_guide_tokens: tokenize a non-empty word and keep its
      first token. */
  method PushFirstToken(tokens: seq<Token>, word: string, tokenize: string -> seq<Token>) returns (r: seq<Token>)
    ensures r == tokens + FirstToken(word, tokenize)
  {
    r := tokens;
    if word != [] {
      var tmpTokens := tokenize(word);
      if tmpTokens != [] {
        r := r + [tmpTokens[0]];
      }
    }
    assert r == tokens + FirstToken(word, tokenize);
  }

  /** A delimiter found from start ends the next piece. */
  lemma SplitStep(s: string, d: string, start: nat, e: nat, acc: seq<Token>, tokenize: string -> seq<Token>)
    requires |d| > 0 && start <= |s| && FindFrom(s, d, start) == Some(e)
    ensures start <= e && e + |d| <= |s|
    ensures acc + FirstTokens(SplitFrom(s, d, start), tokenize) ==
      (acc + FirstToken(s[start..e], tokenize)) + FirstTokens(SplitFrom(s, d, e + |d|), tokenize)
  {
    var p := s[start..e];
    var rest := SplitFrom(s, d, e + |d|);
    SplitNext(s, d, start, e);
    FirstTokensCons(p, rest, tokenize);
    var a := FirstToken(p, tokenize);
    var b := FirstTokens(rest, tokenize);
    assert acc + (a + b) == (acc + a) + b;
  }

  lemma SplitNext(s: string, d: string, start: nat, e: nat)
    requires |d| > 0 && start <= |s| && FindFrom(s, d, start) == Some(e)
    ensures start <= e && e + |d| <= |s| && SplitFrom(s, d, start) == [s[start..e]] + SplitFrom(s, d, e + |d|)
  {
  }

  /** Without a further delimiter the rest of s is the last piece. */
  lemma SplitLast(s: string, d: string, start: nat, tokenize: string -> seq<Token>)
    requires |d| > 0 && start <= |s| && FindFrom(s, d, start).None?
    ensures FirstTokens(SplitFrom(s, d, start), tokenize) == FirstToken(s[start..], tokenize)
  {
    assert SplitFrom(s, d, start) == [s[start..]];
    assert FirstTokens([s[start..]], tokenize) == FirstToken(s[start..], tokenize) + [];
  }

  lemma FirstTokensCons(p: string, rest: seq<string>, tokenize: string -> seq<Token>)
    ensures FirstTokens([p] + rest, tokenize) == FirstToken(p, tokenize) + FirstTokens(rest, tokenize)
  {
    assert ([p] + rest)[1..] == rest;
  }

  /** The pieces with the delimiter between them are the string again. */
  lemma {:induction false} SplitJoin(s: string, d: string, start: nat)
    requires |d| > 0 && start <= |s|
    ensures Join(SplitFrom(s, d, start), d) == s[start..]
    decreases |s| - start
  {
    var e := FindFrom(s, d, start);
    if e.Some? {
      var k := e.value;
      SplitJoin(s, d, k + |d|);
      JoinCons(s[start..k], SplitFrom(s, d, k + |d|), d);
      assert s[start..k] + d + s[k + |d|..] == s[start..];
    }
  }

  /** d occurs nowhere in p. */
  ghost predicate Lacks(p: string, d: string) {
    forall i: nat :: !OccursAt(p, d, i)
  }

  lemma OccursInSlice(s: string, d: string, a: nat, b: nat, i: nat)
    requires a <= b <= |s| && OccursAt(s[a..b], d, i)
    ensures OccursAt(s, d, a + i)
  {
    forall j | 0 <= j < |d| ensures s[a + i..a + i + |d|][j] == d[j] {
      assert s[a..b][i..i + |d|][j] == d[j];
    }
    assert s[a + i..a + i + |d|] == d;
  }

  /** No piece contains the delimiter. */
  lemma {:induction false} SplitPiecesFree(s: string, d: string, start: nat)
    requires |d| > 0 && start <= |s|
    ensures forall k :: 0 <= k < |SplitFrom(s, d, start)| ==> Lacks(SplitFrom(s, d, start)[k], d)
    decreases |s| - start
  {
    var e := FindFrom(s, d, start);
    var ps := SplitFrom(s, d, start);
    var stop := if e.Some? then e.value else |s|;
    var p0 := s[start..stop];
    assert ps[0] == p0;
    forall i: nat ensures !OccursAt(p0, d, i) {
      if OccursAt(p0, d, i) {
        OccursInSlice(s, d, start, stop, i);
      }
    }
    if e.Some? {
      SplitPiecesFree(s, d, e.value + |d|);
      var rest := SplitFrom(s, d, e.value + |d|);
      assert ps == [p0] + rest;
      forall k | 0 < k < |ps| ensures Lacks(ps[k], d) {
        assert ps[k] == rest[k - 1];
        assert Lacks(rest[k - 1], d);
      }
    }
  }

  /** At most one guide token per piece, plus the newline token. */
  lemma {:induction false} FirstTokensBound(pieces: seq<string>, tokenize: string -> seq<Token>)
    ensures |FirstTokens(pieces, tokenize)| <= |pieces|
    decreases |pieces|
  {
    if pieces != [] {
      FirstTokensBound(pieces[1..], tokenize);
    }
  }

  /** The guide tokens are the newline token and at most one token per piece. */
  lemma GuideTokensBound(vocabPresent: bool, s: string, v: Version, tokenize: string -> seq<Token>)
    ensures |GuideTokens(vocabPresent, s, v, tokenize)| <= 1 + |SplitFrom(s, Separator(v), 0)|
    ensures !vocabPresent ==> GuideTokens(vocabPresent, s, v, tokenize) == []
  {
    FirstTokensBound(SplitFrom(s, Separator(v), 0), tokenize);
  }
}
