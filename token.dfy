/**
 * Tokens of the JSON tokenizer (parser/Token): the token types, the shared
 * punctuation and literal tokens, and the string and number tokens that view
 * a range of the tokenizer's char buffer, copy it out on first use and then
 * keep the copy; numbers convert to int and long by a digit loop when the
 * lexeme is short enough.
 */
module Tokens {
  import opened Wrappers
  import opened JavaText
  import opened CharArrays

  datatype TokenType =
    | CurlyOpen | SquareOpen | Colon | Comma | String | Number
    | True | False | Null | CurlyClose | SquareClose | Eof

  /**
   * A token as a value: one of the shared singletons, or a string or number
   * token carrying the chars of its range.
   */
  datatype Token =
    | Punct(kind: TokenType)
    | Str(chars: seq<CodeUnit>)
    | Num(chars: seq<CodeUnit>, frac: bool, exp: bool)

  function TypeOf(t: Token): TokenType {
    match t
    case Punct(k) => k
    case Str(_) => String
    case Num(_, _, _) => Number
  }

  /** A token as the tokenizer can build it: singletons never claim STRING or NUMBER. */
  predicate WellFormed(t: Token) {
    t.Punct? ==> t.kind != String && t.kind != Number
  }

  /**
   * Token.of: the shared token of a punctuation, literal or EOF type; STRING and
   * NUMBER have no shared token and are an IllegalArgumentException. Every call
   * with the same type gives the same token.
   */
  function Of(kind: TokenType): (r: Result<Token>)
    ensures r.Ok? <==> kind != String && kind != Number
    ensures r.Ok? ==> WellFormed(r.value) && TypeOf(r.value) == kind
    ensures r.Err? ==> r.failure == IllegalArgument
  {
    match kind
    case String => Err(IllegalArgument)
    case Number => Err(IllegalArgument)
    case _ => Ok(Punct(kind))
  }

  // ---------------------------------------------------------------------------
  // Decimal conversion of integer lexemes

  const LongMax: int := 0x7FFF_FFFF_FFFF_FFFF
  const LongMin: int := -0x8000_0000_0000_0000

  /** Java's 64-bit two's-complement wrap-around. */
  function Int64(x: int): (r: int)
    ensures LongMin <= r <= LongMax
    ensures LongMin <= x <= LongMax ==> r == x
  {
    (x - LongMin) % 0x1_0000_0000_0000_0000 + LongMin
  }

  function Pow10(n: nat): (r: nat)
    ensures r >= 1
  {
    if n == 0 then 1 else 10 * Pow10(n - 1)
  }

  predicate IsDigit(c: int) { '0' as int <= c <= '9' as int }

  predicate AllDigits(s: seq<CodeUnit>) { forall i | 0 <= i < |s| :: IsDigit(s[i]) }

  /** The decimal value of a string of digits. */
  function DecimalValue(s: seq<CodeUnit>): (r: int)
  {
    if |s| == 0 then 0 else DecimalValue(s[..|s| - 1]) * 10 + (s[|s| - 1] - '0' as int)
  }

  /** A plain integer lexeme: an optional `-` and at least one digit. */
  predicate IsPlainInteger(s: seq<CodeUnit>) {
    var from := if |s| > 0 && s[0] == '-' as int then 1 else 0;
    from < |s| && AllDigits(s[from..])
  }

  /** The value a plain integer lexeme denotes. */
  function IntegerValue(s: seq<CodeUnit>): int {
    if |s| > 0 && s[0] == '-' as int then -DecimalValue(s[1..]) else DecimalValue(s)
  }

  /** The loop `num = num * 10 + (ca[i] - '0')` in Java int arithmetic. */
  function IntFold(s: seq<CodeUnit>): (r: int)
    ensures IsInt(r)
  {
    if |s| == 0 then 0 else Int32(IntFold(s[..|s| - 1]) * 10 + (s[|s| - 1] - '0' as int))
  }

  /** The same loop in Java long arithmetic. */
  function LongFold(s: seq<CodeUnit>): (r: int)
    ensures LongMin <= r <= LongMax
  {
    if |s| == 0 then 0 else Int64(LongFold(s[..|s| - 1]) * 10 + (s[|s| - 1] - '0' as int))
  }

  /** A string of digits is below ten to its length. */
  lemma {:induction false} DecimalBound(s: seq<CodeUnit>)
    requires AllDigits(s)
    ensures 0 <= DecimalValue(s) < Pow10(|s|)
  {
    if |s| > 0 {
      DecimalBound(s[..|s| - 1]);
    }
  }

  /** Up to 9 digits, the int loop never wraps and yields the decimal value. */
  lemma {:induction false} IntFoldExact(s: seq<CodeUnit>)
    requires AllDigits(s) && |s| <= 9
    ensures IntFold(s) == DecimalValue(s)
  {
    if |s| > 0 {
      var p := s[..|s| - 1];
      IntFoldExact(p);
      DecimalBound(p);
      Pow10Monotone(|p|, 8);
      Pow10Values();
    }
  }

  /** Up to 18 digits, the long loop never wraps and yields the decimal value. */
  lemma {:induction false} LongFoldExact(s: seq<CodeUnit>)
    requires AllDigits(s) && |s| <= 18
    ensures LongFold(s) == DecimalValue(s)
  {
    if |s| > 0 {
      var p := s[..|s| - 1];
      LongFoldExact(p);
      DecimalBound(p);
      Pow10Monotone(|p|, 17);
      Pow10Values();
    }
  }

  lemma Pow10Values()
    ensures Pow10(8) == 100_000_000
    ensures Pow10(17) == 100_000_000_000_000_000
  {
    assert Pow10(4) == 10_000;
    assert Pow10(8) == 100_000_000;
    assert Pow10(12) == 1_000_000_000_000;
    assert Pow10(16) == 10_000_000_000_000_000;
  }

  lemma {:induction false} Pow10Monotone(m: nat, n: nat)
    requires m <= n
    ensures Pow10(m) <= Pow10(n)
  {
    if m < n {
      Pow10Monotone(m, n - 1);
    }
  }

  /** Whether getInt takes the digit loop rather than BigDecimal. */
  predicate IntFastPath(s: seq<CodeUnit>, frac: bool, exp: bool) {
    var minus := |s| > 0 && s[0] == '-' as int;
    !(frac || exp) && (|s| <= 9 || (minus && |s| == 10))
  }

  /** Whether getLong takes the digit loop rather than BigDecimal. */
  predicate LongFastPath(s: seq<CodeUnit>, frac: bool, exp: bool) {
    var minus := |s| > 0 && s[0] == '-' as int;
    !(frac || exp) && (|s| <= 18 || (minus && |s| == 19))
  }

  /** The digit loop of getInt over ca[from..]. */
  method IntDigitLoop(ca: seq<CodeUnit>, from: nat) returns (num: int)
    requires from <= |ca|
    ensures num == IntFold(ca[from..])
  {
    num := 0;
    var i := from;
    while i < |ca|
      invariant from <= i <= |ca|
      invariant num == IntFold(ca[from..i])
    {
      assert ca[from..i + 1][..i - from] == ca[from..i];
      num := Int32(num * 10 + (ca[i] - '0' as int));
      i := i + 1;
    }
    assert ca[from..i] == ca[from..];
  }

  /** The digit loop of getLong over ca[from..]. */
  method LongDigitLoop(ca: seq<CodeUnit>, from: nat) returns (num: int)
    requires from <= |ca|
    ensures num == LongFold(ca[from..])
  {
    num := 0;
    var i := from;
    while i < |ca|
      invariant from <= i <= |ca|
      invariant num == LongFold(ca[from..i])
    {
      assert ca[from..i + 1][..i - from] == ca[from..i];
      num := Int64(num * 10 + (ca[i] - '0' as int));
      i := i + 1;
    }
    assert ca[from..i] == ca[from..];
  }

  /** A conversion result: a value from the digit loop, or the BigDecimal route. */
  datatype Conversion = FastPath(value: int) | ViaBigDecimal

  /** A number token over a char source, copying the chars out once (Token.Num). */
  class NumToken {
    const source: SubArray
    const frac: bool
    const exp: bool
    var cache: Option<seq<CodeUnit>>

    /** The source range lies within its array, as CharArray.subArray hands it out. */
    ghost predicate SourceValid() {
      0 <= source.start <= source.end <= source.chars.Length <= IntMax
    }

    constructor (source: SubArray, frac: bool, exp: bool)
      ensures this.source == source && this.frac == frac && this.exp == exp && cache == None
    {
      this.source, this.frac, this.exp := source, frac, exp;
      cache := None;
    }

    /**
     * chars(): the source's chars on the first call, remembered; every later
     * call returns the remembered chars.
     */
    method Chars() returns (r: seq<CodeUnit>)
      requires SourceValid()
      modifies this`cache
      ensures old(cache).None? ==> r == source.chars[source.start..source.end]
      ensures old(cache).Some? ==> r == old(cache).value
      ensures cache == Some(r)
    {
      if cache.None? {
        var c := source.Chars();
        assert c.value == source.chars[source.start..source.end];
        cache := Some(c.value);
      }
      r := cache.value;
    }

    /**
     * getInt: a lexeme of at most 9 digits (10 chars with `-`) and no fraction
     * or exponent is converted by the digit loop and yields its decimal value;
     * anything else goes through BigDecimal.
     */
    method GetInt() returns (r: Conversion, ca: seq<CodeUnit>)
      requires SourceValid()
      modifies this`cache
      ensures cache == Some(ca)
      ensures old(cache).Some? ==> ca == old(cache).value
      ensures r.FastPath? <==> IntFastPath(ca, frac, exp)
      ensures frac || exp ==> r == ViaBigDecimal
      ensures r.FastPath? && IsPlainInteger(ca) ==> r.value == IntegerValue(ca)
    {
      ca := Chars();
      var minus := |ca| > 0 && ca[0] == '-' as int;
      if !(frac || exp) && (|ca| <= 9 || (minus && |ca| == 10)) {
        var from := if minus then 1 else 0;
        var num := IntDigitLoop(ca, from);
        if IsPlainInteger(ca) {
          IntFoldExact(ca[from..]);
          if minus {
            DecimalBound(ca[from..]);
          }
        }
        r := FastPath(if minus then Int32(-num) else num);
      } else {
        r := ViaBigDecimal;
      }
    }

    /**
     * getLong: a lexeme of at most 18 digits (19 chars with `-`) and no
     * fraction or exponent is converted by the digit loop and yields its
     * decimal value; anything else goes through BigDecimal.
     */
    method GetLong() returns (r: Conversion, ca: seq<CodeUnit>)
      requires SourceValid()
      modifies this`cache
      ensures cache == Some(ca)
      ensures old(cache).Some? ==> ca == old(cache).value
      ensures r.FastPath? <==> LongFastPath(ca, frac, exp)
      ensures frac || exp ==> r == ViaBigDecimal
      ensures r.FastPath? && IsPlainInteger(ca) ==> r.value == IntegerValue(ca)
    {
      ca := Chars();
      var minus := |ca| > 0 && ca[0] == '-' as int;
      if !(frac || exp) && (|ca| <= 18 || (minus && |ca| == 19)) {
        var from := if minus then 1 else 0;
        var num := LongDigitLoop(ca, from);
        if IsPlainInteger(ca) {
          LongFoldExact(ca[from..]);
          if minus {
            DecimalBound(ca[from..]);
          }
        }
        r := FastPath(if minus then Int64(-num) else num);
      } else {
        r := ViaBigDecimal;
      }
    }
  }

  /** A string token over a char source, copying the chars out once (Token.Str). */
  class StrToken {
    const source: SubArray
    var cache: Option<seq<CodeUnit>>

    ghost predicate SourceValid() {
      0 <= source.start <= source.end <= source.chars.Length <= IntMax
    }

    constructor (source: SubArray)
      ensures this.source == source && cache == None
    {
      this.source := source;
      cache := None;
    }

    /**
     * chars(): the source's chars on the first call, remembered; every later
     * call returns the remembered chars.
     */
    method Chars() returns (r: seq<CodeUnit>)
      requires SourceValid()
      modifies this`cache
      ensures old(cache).None? ==> r == source.chars[source.start..source.end]
      ensures old(cache).Some? ==> r == old(cache).value
      ensures cache == Some(r)
    {
      if cache.None? {
        var c := source.Chars();
        assert c.value == source.chars[source.start..source.end];
        cache := Some(c.value);
      }
      r := cache.value;
    }
  }

  /** The fast paths of a plain integer that fits yield its value exactly. */
  lemma FastPathsExact(s: seq<CodeUnit>)
    requires IsPlainInteger(s)
    ensures IntFastPath(s, false, false) ==>
              (if s[0] == '-' as int then Int32(-IntFold(s[1..])) else IntFold(s)) == IntegerValue(s)
    ensures LongFastPath(s, false, false) ==>
              (if s[0] == '-' as int then Int64(-LongFold(s[1..])) else LongFold(s)) == IntegerValue(s)
  {
    var from := if s[0] == '-' as int then 1 else 0;
    assert s[from..] == if from == 1 then s[1..] else s;
    if IntFastPath(s, false, false) {
      IntFoldExact(s[from..]);
      DecimalBound(s[from..]);
    }
    if LongFastPath(s, false, false) {
      LongFoldExact(s[from..]);
      DecimalBound(s[from..]);
    }
  }
}
