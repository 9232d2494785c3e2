/**
 * What the JSON tokenizer (parser/Tokenizer) reads, as functions of the input
 * that is still unread: the next token and the input it leaves behind. The
 * tokenizer class is proved against these functions.
 *
 * Strings follow section 7 of RFC 8259 (escapes, no raw control chars),
 * numbers section 6 (an optional minus, an integer part without leading
 * zeros, an optional fraction, an optional exponent) and the literals
 * section 3. The char that ends a number stays in the remaining input.
 */
module Lexer {
  import opened Wrappers
  import opened JavaText
  import opened Hex
  import opened Tokens

  /** The char at index i, or -1 (the reader's end of input) past the end. */
  function At(s: seq<CodeUnit>, i: nat): (r: int)
    ensures -1 <= r < 0x1_0000
    ensures r == -1 <==> i >= |s|
  {
    if i < |s| then s[i] else -1
  }

  /** The chars next() skips between tokens: space, tab, CR and LF. */
  predicate IsSkipped(c: int) {
    c == ' ' as int || c == '\t' as int || c == '\r' as int || c == '\n' as int
  }

  /** The chars that begin a token. */
  predicate StartsToken(c: int) {
    c == '"' as int || c == '{' as int || c == '[' as int || c == ':' as int || c == ',' as int
    || c == 't' as int || c == 'f' as int || c == 'n' as int || c == ']' as int || c == '}' as int
    || IsDigit(c) || c == '-' as int
  }

  /** A token and the input after it. */
  datatype Lexed = Lexed(token: Token, rest: seq<CodeUnit>)

  predicate IsSuffix(rest: seq<CodeUnit>, s: seq<CodeUnit>) {
    |rest| <= |s| && rest == s[|s| - |rest|..]
  }

  // ------------------------------------------------------------------ strings

  /** Every char is a hex digit (stated from the back, the way HexFold reads them). */
  predicate AllHex(s: seq<CodeUnit>) {
    |s| == 0 || (AllHex(s[..|s| - 1]) && IsHexDigit(s[|s| - 1]))
  }

  /** AllHex says exactly that each char is a hex digit. */
  lemma {:induction false} AllHexEach(s: seq<CodeUnit>)
    ensures AllHex(s) <==> forall i | 0 <= i < |s| :: IsHexDigit(s[i])
  {
    if |s| > 0 {
      AllHexEach(s[..|s| - 1]);
      assert forall i | 0 <= i < |s| - 1 :: s[..|s| - 1][i] == s[i];
    }
  }

  /** The value of hex digits read most significant first. */
  function HexFold(q: seq<CodeUnit>): (r: int)
    requires AllHex(q)
    ensures 0 <= r
    ensures |q| <= 1 ==> r < 0x10
    ensures |q| <= 2 ==> r < 0x100
    ensures |q| <= 3 ==> r < 0x1000
    ensures |q| <= 4 ==> r < 0x1_0000
  {
    if |q| == 0 then 0 else HexFold(q[..|q| - 1]) * 16 + DigitValue(q[|q| - 1])
  }

  /** One more hex digit shifts the value by a digit. */
  lemma HexFoldSnoc(q: seq<CodeUnit>, c: CodeUnit)
    requires AllHex(q) && IsHexDigit(c)
    ensures AllHex(q + [c]) && HexFold(q + [c]) == HexFold(q) * 16 + DigitValue(c)
  {
    assert (q + [c])[..|q|] == q;
  }

  /** The same, for the prefixes of s: one more digit of s. */
  lemma HexFoldStep(s: seq<CodeUnit>, i: nat)
    requires i < |s| && AllHex(s[..i]) && IsHexDigit(s[i])
    ensures AllHex(s[..i + 1]) && HexFold(s[..i + 1]) == HexFold(s[..i]) * 16 + DigitValue(s[i])
  {
    assert s[..i + 1] == s[..i] + [s[i]];
    HexFoldSnoc(s[..i], s[i]);
  }

  /** The code unit four hex digits spell, most significant digit first. */
  function QuadValue(q: seq<CodeUnit>): (r: CodeUnit)
    requires |q| == 4 && AllHex(q)
    ensures r == DigitValue(q[0]) * 0x1000 + DigitValue(q[1]) * 0x100 + DigitValue(q[2]) * 0x10 + DigitValue(q[3])
  {
    assert q[..3][..2] == q[..2] && q[..2][..1] == q[..1] && q[..1][..0] == [];
    assert AllHex(q[..3]) && AllHex(q[..2]) && AllHex(q[..1]);
    assert HexFold(q[..1]) == DigitValue(q[0]);
    assert HexFold(q[..2]) == DigitValue(q[0]) * 0x10 + DigitValue(q[1]);
    assert HexFold(q[..3]) == DigitValue(q[0]) * 0x100 + DigitValue(q[1]) * 0x10 + DigitValue(q[2]);
    HexFold(q)
  }

  /** The letters that may follow a backslash in a JSON string. */
  predicate IsEscapeLetter(c: CodeUnit) {
    c == 'b' as int || c == 't' as int || c == 'n' as int || c == 'f' as int || c == 'r' as int
    || c == '"' as int || c == '\\' as int || c == '/' as int || c == 'u' as int
  }

  /**
   * unescape: the char an escape stands for, given the input after the
   * backslash. b, t, n, f and r are control chars; `"`, `\` and `/` stand for
   * themselves; `u` takes four hex digits, and a missing or bad digit is a
   * NumberFormatException; any other char (or the end) is a syntax error.
   */
  function Unescape(s: seq<CodeUnit>): (r: Result<(CodeUnit, seq<CodeUnit>)>)
    ensures r.Err? <==> |s| == 0 || !IsEscapeLetter(s[0]) || (s[0] == 'u' as int && !(|s| >= 5 && AllHex(s[1..5])))
    ensures r.Err? ==> (r.failure == NumberFormat <==> |s| > 0 && s[0] == 'u' as int)
    ensures r.Err? ==> r.failure == JsonParse || r.failure == NumberFormat
    ensures |s| > 0 && s[0] == 'b' as int ==> r == Ok((0x08, s[1..]))
    ensures |s| > 0 && s[0] == 't' as int ==> r == Ok((0x09, s[1..]))
    ensures |s| > 0 && s[0] == 'n' as int ==> r == Ok((0x0A, s[1..]))
    ensures |s| > 0 && s[0] == 'f' as int ==> r == Ok((0x0C, s[1..]))
    ensures |s| > 0 && s[0] == 'r' as int ==> r == Ok((0x0D, s[1..]))
    ensures |s| > 0 && s[0] == '"' as int ==> r == Ok(('"' as int, s[1..]))
    ensures |s| > 0 && s[0] == '\\' as int ==> r == Ok(('\\' as int, s[1..]))
    ensures |s| > 0 && s[0] == '/' as int ==> r == Ok(('/' as int, s[1..]))
    ensures |s| >= 5 && s[0] == 'u' as int && AllHex(s[1..5]) ==> r == Ok((QuadValue(s[1..5]), s[5..]))
    ensures r.Ok? ==> IsSuffix(r.value.1, s) && |r.value.1| < |s|
  {
    if |s| == 0 then Err(JsonParse)
    else
      var c := s[0];
      if c == 'b' as int then Ok((0x08, s[1..]))
      else if c == 't' as int then Ok((0x09, s[1..]))
      else if c == 'n' as int then Ok((0x0A, s[1..]))
      else if c == 'f' as int then Ok((0x0C, s[1..]))
      else if c == 'r' as int then Ok((0x0D, s[1..]))
      else if c == '"' as int || c == '\\' as int || c == '/' as int then Ok((c, s[1..]))
      else if c == 'u' as int then
        if |s| >= 5 && AllHex(s[1..5]) then Ok((QuadValue(s[1..5]), s[5..])) else Err(NumberFormat)
      else Err(JsonParse)
  }

  /**
   * readString: the chars up to the closing quote, with escapes replaced;
   * `acc` holds the chars read so far. A raw char below 0x20, or the end of
   * input, is a syntax error.
   */
  function LexString(s: seq<CodeUnit>, acc: seq<CodeUnit>): (r: Result<Lexed>)
    ensures r.Ok? ==> r.value.token.Str? && IsSuffix(r.value.rest, s) && |r.value.rest| < |s|
    decreases |s|
  {
    if |s| == 0 then Err(JsonParse)
    else if s[0] == '"' as int then Ok(Lexed(Str(acc), s[1..]))
    else if s[0] == '\\' as int then
      match Unescape(s[1..])
      case Err(f) => Err(f)
      case Ok((u, rest)) => LexString(rest, acc + [u])
    else if s[0] >= 0x20 then LexString(s[1..], acc + [s[0]])
    else Err(JsonParse)
  }

  /** One step of LexString, by the first char of the input. */
  lemma LexStringStep(s: seq<CodeUnit>, acc: seq<CodeUnit>)
    ensures |s| == 0 ==> LexString(s, acc) == Err(JsonParse)
    ensures |s| > 0 && s[0] == '"' as int ==> LexString(s, acc) == Ok(Lexed(Str(acc), s[1..]))
    ensures |s| > 0 && s[0] == '\\' as int && Unescape(s[1..]).Err? ==>
              LexString(s, acc) == Err(Unescape(s[1..]).failure)
    ensures |s| > 0 && s[0] == '\\' as int && Unescape(s[1..]).Ok? ==>
              LexString(s, acc) == LexString(Unescape(s[1..]).value.1, acc + [Unescape(s[1..]).value.0])
    ensures |s| > 0 && s[0] != '"' as int && s[0] != '\\' as int && s[0] >= 0x20 ==>
              LexString(s, acc) == LexString(s[1..], acc + [s[0]])
    ensures |s| > 0 && s[0] != '"' as int && s[0] != '\\' as int && s[0] < 0x20 ==>
              LexString(s, acc) == Err(JsonParse)
  {
  }

  // ------------------------------------------------------------------ numbers

  /** The first index at or after i that does not hold a digit. */
  function DigitsEnd(s: seq<CodeUnit>, i: nat): (r: nat)
    requires i <= |s|
    ensures i <= r <= |s|
    decreases |s| - i
  {
    if i < |s| && IsDigit(s[i]) then DigitsEnd(s, i + 1) else i
  }

  /** The first char of s[k..] is the char at k. */
  lemma AtFront(s: seq<CodeUnit>, k: nat)
    requires k <= |s|
    ensures At(s[k..], 0) == At(s, k)
  {
  }

  /** DigitsEnd is the end of the digit run: digits from i up to j, and none at j. */
  lemma {:induction false} DigitsEndFrom(s: seq<CodeUnit>, i: nat, j: nat)
    requires i <= j <= |s| && !IsDigit(At(s, j))
    requires forall m | i <= m < j :: IsDigit(s[m])
    ensures DigitsEnd(s, i) == j
    decreases j - i
  {
    if i < j {
      DigitsEndFrom(s, i + 1, j);
    }
  }

  /** DigitsEnd stops at a char that is not a digit (or at the end). */
  lemma {:induction false} DigitsEndStops(s: seq<CodeUnit>, i: nat)
    requires i <= |s|
    ensures !IsDigit(At(s, DigitsEnd(s, i)))
    decreases |s| - i
  {
    if i < |s| && IsDigit(s[i]) {
      DigitsEndStops(s, i + 1);
    }
  }

  /** The chars DigitsEnd passes over are digits. */
  lemma {:induction false} DigitsEndAll(s: seq<CodeUnit>, i: nat)
    requires i <= |s|
    ensures AllDigits(s[i..DigitsEnd(s, i)])
    decreases |s| - i
  {
    if i < |s| && IsDigit(s[i]) {
      DigitsEndAll(s, i + 1);
      assert s[i..DigitsEnd(s, i)] == [s[i]] + s[i + 1..DigitsEnd(s, i + 1)];
    }
  }

  predicate IsExpMark(c: int) { c == 'e' as int || c == 'E' as int }

  predicate IsSign(c: int) { c == '+' as int || c == '-' as int }

  /** The end of the integer part that starts with the digit at i: one char for a 0, else all digits. */
  function IntegerEnd(s: seq<CodeUnit>, i: nat): (r: nat)
    requires i < |s| && IsDigit(s[i])
    ensures i < r <= |s|
  {
    if s[i] == '0' as int then i + 1 else DigitsEnd(s, i + 1)
  }

  /** The end of the fraction: after the dot at i and its digits, or i when there is no dot. */
  function FractionEnd(s: seq<CodeUnit>, i: nat): (r: nat)
    requires i <= |s|
    ensures i <= r <= |s|
  {
    if At(s, i) == '.' as int then DigitsEnd(s, i + 1) else i
  }

  /** Where the exponent digits start, for an exponent mark at i: after the optional sign. */
  function ExponentDigitsStart(s: seq<CodeUnit>, i: nat): (r: nat)
    requires i < |s|
    ensures i < r <= |s|
  {
    if IsSign(At(s, i + 1)) then i + 2 else i + 1
  }

  /** The end of the exponent: after the mark at i, its sign and its digits, or i without a mark. */
  function ExponentEnd(s: seq<CodeUnit>, i: nat): (r: nat)
    requires i <= |s|
    ensures i <= r <= |s|
  {
    if IsExpMark(At(s, i)) then DigitsEnd(s, ExponentDigitsStart(s, i)) else i
  }

  /**
   * readNumber, given the input from the number's first char (a digit or
   * `-`): the lexeme, whether it has a fraction and an exponent, and the input
   * from the char that ended it. A minus without a digit, a dot without a
   * digit and an exponent without a digit are syntax errors.
   */
  function LexNumber(s: seq<CodeUnit>): (r: Result<Lexed>)
    requires |s| > 0 && (IsDigit(s[0]) || s[0] == '-' as int)
    ensures r.Ok? ==> r.value.token.Num? && s == r.value.token.chars + r.value.rest
    ensures r.Ok? ==> |r.value.rest| < |s|
    ensures r.Err? ==> r.failure == JsonParse
  {
    var i := if s[0] == '-' as int then 1 else 0;
    if !IsDigit(At(s, i)) then Err(JsonParse)
    else
      var intEnd := IntegerEnd(s, i);
      var frac := At(s, intEnd) == '.' as int;
      var fracEnd := FractionEnd(s, intEnd);
      if frac && fracEnd == intEnd + 1 then Err(JsonParse)
      else
        var exp := IsExpMark(At(s, fracEnd));
        var expEnd := ExponentEnd(s, fracEnd);
        if exp && expEnd == ExponentDigitsStart(s, fracEnd) then Err(JsonParse)
        else
          assert s == s[..expEnd] + s[expEnd..];
          Ok(Lexed(Num(s[..expEnd], frac, exp), s[expEnd..]))
  }

  /** The three syntax errors of LexNumber and its token, stage by stage. */
  lemma LexNumberNoDigit(s: seq<CodeUnit>, i: nat)
    requires |s| > 0 && (IsDigit(s[0]) || s[0] == '-' as int)
    requires i == (if s[0] == '-' as int then 1 else 0) && !IsDigit(At(s, i))
    ensures LexNumber(s) == Err(JsonParse)
  {
  }

  lemma LexNumberNoFractionDigit(s: seq<CodeUnit>, i: nat, intEnd: nat)
    requires |s| > 0 && (IsDigit(s[0]) || s[0] == '-' as int)
    requires i == (if s[0] == '-' as int then 1 else 0) && IsDigit(At(s, i))
    requires intEnd == IntegerEnd(s, i) && At(s, intEnd) == '.' as int && FractionEnd(s, intEnd) == intEnd + 1
    ensures LexNumber(s) == Err(JsonParse)
  {
  }

  lemma LexNumberNoExponentDigit(s: seq<CodeUnit>, i: nat, intEnd: nat, fracEnd: nat)
    requires |s| > 0 && (IsDigit(s[0]) || s[0] == '-' as int)
    requires i == (if s[0] == '-' as int then 1 else 0) && IsDigit(At(s, i))
    requires intEnd == IntegerEnd(s, i) && fracEnd == FractionEnd(s, intEnd)
    requires !(At(s, intEnd) == '.' as int && fracEnd == intEnd + 1)
    requires IsExpMark(At(s, fracEnd)) && ExponentEnd(s, fracEnd) == ExponentDigitsStart(s, fracEnd)
    ensures LexNumber(s) == Err(JsonParse)
  {
  }

  lemma LexNumberToken(s: seq<CodeUnit>, i: nat, intEnd: nat, fracEnd: nat, expEnd: nat)
    requires |s| > 0 && (IsDigit(s[0]) || s[0] == '-' as int)
    requires i == (if s[0] == '-' as int then 1 else 0) && IsDigit(At(s, i))
    requires intEnd == IntegerEnd(s, i) && fracEnd == FractionEnd(s, intEnd)
    requires !(At(s, intEnd) == '.' as int && fracEnd == intEnd + 1)
    requires expEnd == ExponentEnd(s, fracEnd)
    requires !(IsExpMark(At(s, fracEnd)) && expEnd == ExponentDigitsStart(s, fracEnd))
    ensures LexNumber(s) == Ok(Lexed(Num(s[..expEnd], At(s, intEnd) == '.' as int, IsExpMark(At(s, fracEnd))), s[expEnd..]))
  {
  }

  // ----------------------------------------------------------------- literals

  /** readTrue/readFalse/readNull after the first letter: the rest must follow exactly. */
  function LexWord(s: seq<CodeUnit>, word: seq<CodeUnit>, kind: TokenType): (r: Result<Lexed>)
    requires kind != String && kind != Number
    ensures r.Ok? <==> |word| <= |s| && s[..|word|] == word
    ensures r.Ok? ==> r.value == Lexed(Punct(kind), s[|word|..])
    ensures r.Err? ==> r.failure == JsonParse
  {
    if |word| <= |s| && s[..|word|] == word then Ok(Lexed(Punct(kind), s[|word|..])) else Err(JsonParse)
  }

  const Rue: seq<CodeUnit> := ['r' as int, 'u' as int, 'e' as int]
  const Alse: seq<CodeUnit> := ['a' as int, 'l' as int, 's' as int, 'e' as int]
  const Ull: seq<CodeUnit> := ['u' as int, 'l' as int, 'l' as int]

  // ------------------------------------------------------------------- tokens

  /**
   * next(): skips blanks, then reads one token; the end of input is the EOF
   * token, and a char that starts no token is a syntax error.
   */
  function Lex(s: seq<CodeUnit>): (r: Result<Lexed>)
    ensures r.Ok? ==> WellFormed(r.value.token) && IsSuffix(r.value.rest, s)
    ensures r.Ok? && TypeOf(r.value.token) != Eof ==> |r.value.rest| < |s|
    ensures r.Ok? && TypeOf(r.value.token) == Eof ==> r.value.rest == []
    ensures |s| > 0 && !IsSkipped(s[0]) && !StartsToken(s[0]) ==> r == Err(JsonParse)
    decreases |s|
  {
    if |s| == 0 then Ok(Lexed(Punct(Eof), []))
    else if IsSkipped(s[0]) then Lex(s[1..])
    else LexToken(s)
  }

  /** The token that starts at the first char of s, which is not a blank. */
  function LexToken(s: seq<CodeUnit>): (r: Result<Lexed>)
    requires |s| > 0 && !IsSkipped(s[0])
    ensures r.Ok? ==> WellFormed(r.value.token) && TypeOf(r.value.token) != Eof
    ensures r.Ok? ==> IsSuffix(r.value.rest, s) && |r.value.rest| < |s|
    ensures !StartsToken(s[0]) ==> r == Err(JsonParse)
  {
    var c := s[0];
    if c == '"' as int then LexString(s[1..], [])
    else if c == '{' as int then Ok(Lexed(Punct(CurlyOpen), s[1..]))
    else if c == '[' as int then Ok(Lexed(Punct(SquareOpen), s[1..]))
    else if c == ':' as int then Ok(Lexed(Punct(Colon), s[1..]))
    else if c == ',' as int then Ok(Lexed(Punct(Comma), s[1..]))
    else if c == 't' as int then LexWord(s[1..], Rue, True)
    else if c == 'f' as int then LexWord(s[1..], Alse, False)
    else if c == 'n' as int then LexWord(s[1..], Ull, Null)
    else if c == ']' as int then Ok(Lexed(Punct(SquareClose), s[1..]))
    else if c == '}' as int then Ok(Lexed(Punct(CurlyClose), s[1..]))
    else if IsDigit(c) || c == '-' as int then LexNumber(s)
    else Err(JsonParse)
  }

  /** Which lexing function the first char of a token selects. */
  lemma LexFirst(s: seq<CodeUnit>)
    requires |s| > 0 && !IsSkipped(s[0])
    ensures s[0] == '"' as int ==> LexToken(s) == LexString(s[1..], [])
    ensures s[0] == 't' as int ==> LexToken(s) == LexWord(s[1..], Rue, True)
    ensures s[0] == 'f' as int ==> LexToken(s) == LexWord(s[1..], Alse, False)
    ensures s[0] == 'n' as int ==> LexToken(s) == LexWord(s[1..], Ull, Null)
    ensures IsDigit(s[0]) || s[0] == '-' as int ==> LexToken(s) == LexNumber(s)
  {
  }

  predicate AllSkipped(s: seq<CodeUnit>) { forall i | 0 <= i < |s| :: IsSkipped(s[i]) }

  /** Blanks before a token change nothing. */
  lemma {:induction false} LexSkipsBlanks(blanks: seq<CodeUnit>, s: seq<CodeUnit>)
    requires AllSkipped(blanks)
    ensures Lex(blanks + s) == Lex(s)
  {
    if |blanks| > 0 {
      assert (blanks + s)[0] == blanks[0] && IsSkipped(blanks[0]);
      assert (blanks + s)[1..] == blanks[1..] + s;
      assert Lex(blanks + s) == Lex(blanks[1..] + s);
      LexSkipsBlanks(blanks[1..], s);
    } else {
      assert blanks + s == s;
    }
  }

  /** A leading 0 ends the integer part: the digit after it starts the remaining input. */
  lemma LeadingZeroEndsInteger(s: seq<CodeUnit>)
    requires |s| >= 2 && s[0] == '0' as int && IsDigit(s[1])
    ensures LexNumber(s) == Ok(Lexed(Num([s[0]], false, false), s[1..]))
  {
    assert s[..1] == [s[0]];
  }

  // ------------------------------------------- the number grammar of RFC 8259

  /** The states of a recogniser for the number grammar of section 6 of RFC 8259. */
  datatype NumState = Start | Minus | Zero | IntDigits | Dot | FracDigits | ExpMark | ExpSign | ExpDigits | Reject

  function Step(st: NumState, c: int): NumState {
    match st
    case Start =>
      if c == '-' as int then Minus else if c == '0' as int then Zero
      else if IsDigit(c) then IntDigits else Reject
    case Minus =>
      if c == '0' as int then Zero else if IsDigit(c) then IntDigits else Reject
    case Zero =>
      if c == '.' as int then Dot else if IsExpMark(c) then ExpMark else Reject
    case IntDigits =>
      if IsDigit(c) then IntDigits else if c == '.' as int then Dot
      else if IsExpMark(c) then ExpMark else Reject
    case Dot =>
      if IsDigit(c) then FracDigits else Reject
    case FracDigits =>
      if IsDigit(c) then FracDigits else if IsExpMark(c) then ExpMark else Reject
    case ExpMark =>
      if IsSign(c) then ExpSign else if IsDigit(c) then ExpDigits else Reject
    case ExpSign =>
      if IsDigit(c) then ExpDigits else Reject
    case ExpDigits =>
      if IsDigit(c) then ExpDigits else Reject
    case Reject => Reject
  }

  function Run(st: NumState, s: seq<CodeUnit>): NumState
    decreases |s|
  {
    if |s| == 0 then st else Run(Step(st, s[0]), s[1..])
  }

  predicate Accepting(st: NumState) {
    st.Zero? || st.IntDigits? || st.FracDigits? || st.ExpDigits?
  }

  /** s is a number as section 6 of RFC 8259 defines it. */
  predicate IsJsonNumber(s: seq<CodeUnit>) { Accepting(Run(Start, s)) }

  lemma {:induction false} RunConcat(st: NumState, a: seq<CodeUnit>, b: seq<CodeUnit>)
    ensures Run(st, a + b) == Run(Run(st, a), b)
    decreases |a|
  {
    if |a| > 0 {
      assert (a + b)[0] == a[0] && (a + b)[1..] == a[1..] + b;
      RunConcat(Step(st, a[0]), a[1..], b);
    } else {
      assert a + b == b;
    }
  }

  /** A run of digits keeps each of the digit-loop states. */
  lemma {:induction false} RunDigits(st: NumState, d: seq<CodeUnit>)
    requires st.IntDigits? || st.FracDigits? || st.ExpDigits?
    requires AllDigits(d)
    ensures Run(st, d) == st
    decreases |d|
  {
    if |d| > 0 {
      RunDigits(st, d[1..]);
    }
  }

  /** A digit string without a fraction or exponent after an optional minus. */
  lemma {:induction false} RunInteger(s: seq<CodeUnit>, from: nat)
    requires from <= 1 && from < |s| && AllDigits(s[from..])
    requires from == 1 ==> s[0] == '-' as int
    requires s[from] == '0' as int ==> |s| == from + 1
    ensures Run(Start, s) == (if s[from] == '0' as int then Zero else IntDigits)
  {
    var st := Run(Start, s[..from]);
    assert st == (if from == 1 then Minus else Start) by {
      if from == 1 {
        assert s[..1][1..] == [];
        assert Run(Start, s[..1]) == Run(Step(Start, s[0]), []);
      } else {
        assert s[..0] == [];
      }
    }
    assert s == s[..from] + [s[from]] + s[from + 1..];
    RunConcat(Start, s[..from] + [s[from]], s[from + 1..]);
    RunConcat(Start, s[..from], [s[from]]);
    if s[from] != '0' as int {
      assert s[from + 1..] == s[from..][1..];
      RunDigits(IntDigits, s[from + 1..]);
    }
  }

  /** A dot and a non-empty digit run after an integer part reach the fraction state. */
  lemma {:induction false} RunFraction(st: NumState, f: seq<CodeUnit>)
    requires st.Zero? || st.IntDigits?
    requires |f| >= 2 && f[0] == '.' as int && AllDigits(f[1..])
    ensures Run(st, f) == FracDigits
  {
    assert f[1..][1..] == f[2..];
    assert Run(st, f) == Run(Dot, f[1..]);
    assert Run(Dot, f[1..]) == Run(FracDigits, f[2..]);
    RunDigits(FracDigits, f[2..]);
  }

  /** An exponent mark, an optional sign and a non-empty digit run reach the exponent state. */
  lemma {:induction false} RunExponent(st: NumState, e: seq<CodeUnit>, signed: bool)
    requires st.Zero? || st.IntDigits? || st.FracDigits?
    requires signed ==> |e| >= 3 && IsSign(e[1])
    requires |e| >= 2 && IsExpMark(e[0])
    requires AllDigits(e[if signed then 2 else 1..])
    ensures Run(st, e) == ExpDigits
  {
    var k := if signed then 2 else 1;
    assert e[k..][1..] == e[k + 1..];
    assert Run(st, e) == Run(ExpMark, e[1..]);
    if signed {
      assert e[1..][1..] == e[2..];
      assert Run(ExpMark, e[1..]) == Run(ExpSign, e[2..]);
    }
    assert Run(ExpMark, e[1..]) == Run(ExpDigits, e[k + 1..]);
    RunDigits(ExpDigits, e[k + 1..]);
  }

  /** The integer part readNumber takes: digits after the optional minus, reaching Zero or IntDigits. */
  lemma IntegerPart(s: seq<CodeUnit>, i: nat)
    requires i <= 1 && i < |s| && IsDigit(s[i]) && (i == 1 <==> s[0] == '-' as int)
    ensures AllDigits(s[..IntegerEnd(s, i)][i..])
    ensures Run(Start, s[..IntegerEnd(s, i)]).Zero? || Run(Start, s[..IntegerEnd(s, i)]).IntDigits?
  {
    var n := s[..IntegerEnd(s, i)];
    if s[i] != '0' as int {
      DigitsEndAll(s, i + 1);
      assert n[i..] == [s[i]] + s[i + 1..IntegerEnd(s, i)];
    } else {
      assert n[i..] == [s[i]];
    }
    RunInteger(n, i);
  }

  /** The integer and fraction parts readNumber takes reach Zero, IntDigits or FracDigits. */
  lemma FractionPart(s: seq<CodeUnit>, i: nat)
    requires i <= 1 && i < |s| && IsDigit(s[i]) && (i == 1 <==> s[0] == '-' as int)
    requires FractionEnd(s, IntegerEnd(s, i)) != IntegerEnd(s, i) + 1
    ensures var q := Run(Start, s[..FractionEnd(s, IntegerEnd(s, i))]);
            q.Zero? || q.IntDigits? || q.FracDigits?
  {
    var intEnd := IntegerEnd(s, i);
    var fracEnd := FractionEnd(s, intEnd);
    IntegerPart(s, i);
    if fracEnd != intEnd {
      var n := s[..intEnd];
      DigitsEndAll(s, intEnd + 1);
      assert s[..fracEnd] == n + s[intEnd..fracEnd];
      assert s[intEnd..fracEnd][1..] == s[intEnd + 1..fracEnd];
      RunConcat(Start, n, s[intEnd..fracEnd]);
      RunFraction(Run(Start, n), s[intEnd..fracEnd]);
    }
  }

  /** Every number lexeme readNumber accepts is a number of RFC 8259. */
  lemma LexNumberSound(s: seq<CodeUnit>)
    requires |s| > 0 && (IsDigit(s[0]) || s[0] == '-' as int)
    requires LexNumber(s).Ok?
    ensures IsJsonNumber(LexNumber(s).value.token.chars)
  {
    var i := if s[0] == '-' as int then 1 else 0;
    var intEnd := IntegerEnd(s, i);
    var fracEnd := FractionEnd(s, intEnd);
    var expEnd := ExponentEnd(s, fracEnd);
    assert LexNumber(s).value.token.chars == s[..expEnd];
    FractionPart(s, i);
    if expEnd != fracEnd {
      ExponentPart(s, fracEnd);
    }
  }

  /** An exponent with its digits after a number that ends in a digit leaves an accepted number. */
  lemma ExponentPart(s: seq<CodeUnit>, fracEnd: nat)
    requires fracEnd < |s| && IsExpMark(s[fracEnd])
    requires ExponentEnd(s, fracEnd) != ExponentDigitsStart(s, fracEnd)
    requires var q := Run(Start, s[..fracEnd]); q.Zero? || q.IntDigits? || q.FracDigits?
    ensures IsJsonNumber(s[..ExponentEnd(s, fracEnd)])
  {
    var expEnd := ExponentEnd(s, fracEnd);
    var nf := s[..fracEnd];
    var signEnd := ExponentDigitsStart(s, fracEnd);
    DigitsEndAll(s, signEnd);
    var e := s[fracEnd..expEnd];
    assert s[..expEnd] == nf + e;
    assert e[signEnd - fracEnd..] == s[signEnd..expEnd];
    RunConcat(Start, nf, e);
    RunExponent(Run(Start, nf), e, signEnd == fracEnd + 2);
  }

  /**
   * A number lexeme readNumber accepts has neither fraction nor exponent
   * exactly when it is a plain integer, so getInt and getLong send every
   * lexeme with a fraction or exponent to BigDecimal.
   */
  lemma LexNumberPlain(s: seq<CodeUnit>)
    requires |s| > 0 && (IsDigit(s[0]) || s[0] == '-' as int)
    requires LexNumber(s).Ok?
    ensures (IsPlainInteger(LexNumber(s).value.token.chars)
             <==> !(LexNumber(s).value.token.frac || LexNumber(s).value.token.exp))
  {
    var t := LexNumber(s).value.token;
    var i := if s[0] == '-' as int then 1 else 0;
    var intEnd := IntegerEnd(s, i);
    var fracEnd := FractionEnd(s, intEnd);
    var expEnd := ExponentEnd(s, fracEnd);
    assert t.chars == s[..expEnd];
    IntegerPart(s, i);
    if t.frac {
      assert t.chars[i..][intEnd - i] == '.' as int;
    } else if t.exp {
      assert t.chars[i..][fracEnd - i] == At(s, fracEnd);
    } else {
      assert t.chars == s[..intEnd];
    }
  }
}
