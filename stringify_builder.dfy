/**
 * The writer side of JSON strings (convert/StringifyBuilder): what appendStr,
 * appendNull and appendNum append to the builder's Appendable, and the escaping
 * of string content that section 7 of RFC 8259 asks for. The escaping is proved
 * to be undone by the tokenizer's string reading.
 */
module StringifyBuilders {
  import opened Wrappers
  import opened JavaText
  import opened Hex
  import opened Tokens
  import opened Lexer

  const Quote: CodeUnit := '"' as int
  const Backslash: CodeUnit := '\\' as int
  const Zero: CodeUnit := '0' as int

  /** The chars appendEscOn copies unchanged: %x20-21 / %x23-5B / %x5D-FFFF. */
  predicate Unescaped(c: CodeUnit) {
    c >= 0x20 && c != Quote && c != Backslash
  }

  /** The chars with a two-char escape: the quote, the backslash and \b \f \n \r \t. */
  predicate IsShortEscaped(c: CodeUnit) {
    c == Quote || c == Backslash || c == 0x08 || c == 0x0C || c == 0x0A || c == 0x0D || c == 0x09
  }

  /** The lowercase hex digit of value d, as Integer.toHexString writes it. */
  function HexChar(d: nat): CodeUnit
    requires d < 16
  {
    if d < 10 then '0' as int + d else 'a' as int + (d - 10)
  }

  /** The digit written for d reads back as d. */
  lemma HexCharValue(d: nat)
    requires d < 16
    ensures IsHexDigit(HexChar(d)) && DigitValue(HexChar(d)) == d
  {
  }

  /** Integer.toHexString(n) for n >= 0: lowercase digits, no leading zeros. */
  function ToHexString(n: nat): (r: seq<CodeUnit>)
    ensures 1 <= |r|
  {
    if n < 16 then [HexChar(n)] else ToHexString(n / 16) + [HexChar(n % 16)]
  }

  /** `hex.substring(hex.length() - 4)` with `hex = "000" + Integer.toHexString(c)`. */
  function Quad(c: CodeUnit): (r: seq<CodeUnit>)
    ensures |r| == 4
  {
    var hex := [Zero, Zero, Zero] + ToHexString(c);
    hex[|hex| - 4..]
  }

  /** The escape appendEscOn writes for one char. */
  function EscapeChar(c: CodeUnit): (r: seq<CodeUnit>)
    ensures Unescaped(c) <==> r == [c]
    ensures !Unescaped(c) ==> 2 <= |r| <= 6 && r[0] == Backslash
  {
    if Unescaped(c) then [c]
    else if c == Quote || c == Backslash then [Backslash, c]
    else if c == 0x08 then [Backslash, 'b' as int]
    else if c == 0x0C then [Backslash, 'f' as int]
    else if c == 0x0A then [Backslash, 'n' as int]
    else if c == 0x0D then [Backslash, 'r' as int]
    else if c == 0x09 then [Backslash, 't' as int]
    else [Backslash, 'u' as int, Zero, Zero, HexChar(c / 16), HexChar(c % 16)]
  }

  /** The last branch is `\u` followed by Quad(c), the four digits the source cuts from the hex string. */
  lemma EscapeCharUnicode(c: CodeUnit)
    requires !Unescaped(c) && !IsShortEscaped(c)
    ensures c < 0x20 && EscapeChar(c) == [Backslash, 'u' as int] + Quad(c)
  {
    QuadSpelled(c);
  }

  /** Each char is escaped to one to six chars. */
  lemma {:induction false} EscapedLength(s: seq<CodeUnit>)
    ensures |s| <= |FlatMap(EscapeChar, s)| <= 6 * |s|
  {
    if s != [] {
      EscapedLength(s[..|s| - 1]);
    }
  }

  /** The escaped content: the per-char escapes in input order. */
  function Escape(s: seq<CodeUnit>): (r: seq<CodeUnit>)
    ensures |s| <= |r| <= 6 * |s|
  {
    EscapedLength(s);
    FlatMap(EscapeChar, s)
  }

  /** What appendStr writes for a present string: the escaped content between quotes. */
  function Quoted(s: seq<CodeUnit>): seq<CodeUnit> {
    [Quote] + Escape(s) + [Quote]
  }

  /** The literal appendNull writes. */
  const NullText: seq<CodeUnit> := Units("null")

  // ------------------------------------------------------------------ escaping

  /** The first char's escape comes first. */
  lemma EscapeCons(c: CodeUnit, s: seq<CodeUnit>)
    ensures Escape([c] + s) == EscapeChar(c) + Escape(s)
  {
    FlatMapAppend(EscapeChar, [c], s);
    assert [c][..0] == [];
  }

  /** The last char's escape comes last. */
  lemma EscapeSnoc(s: seq<CodeUnit>, c: CodeUnit)
    ensures Escape(s + [c]) == Escape(s) + EscapeChar(c)
  {
    assert (s + [c])[..|s|] == s;
  }

  /** Escaping one more char of a prefix appends that char's escape. */
  lemma EscapeStep(cs: seq<CodeUnit>, i: nat)
    requires i < |cs|
    ensures Escape(cs[..i + 1]) == Escape(cs[..i]) + EscapeChar(cs[i])
  {
    assert cs[..i + 1] == cs[..i] + [cs[i]];
    EscapeSnoc(cs[..i], cs[i]);
  }

  /** A string with no char to escape is written unchanged. */
  lemma {:induction false} EscapeUnescaped(s: seq<CodeUnit>)
    requires forall i | 0 <= i < |s| :: Unescaped(s[i])
    ensures Escape(s) == s
  {
    if s != [] {
      EscapeUnescaped(s[..|s| - 1]);
    }
  }

  /** No raw control char: section 7 of RFC 8259 requires chars below 0x20 to be escaped. */
  predicate NoControl(t: seq<CodeUnit>) {
    forall i | 0 <= i < |t| :: t[i] >= 0x20
  }

  /** Each escape is free of raw control chars. */
  lemma EscapeCharClean(c: CodeUnit)
    ensures NoControl(EscapeChar(c))
  {
    if !Unescaped(c) && c != Quote && c != Backslash && c != 0x08 && c != 0x0C && c != 0x0A && c != 0x0D && c != 0x09 {
      var e := [Backslash, 'u' as int, Zero, Zero, HexChar(c / 16), HexChar(c % 16)];
      assert EscapeChar(c) == e;
      assert forall i | 0 <= i < 6 :: e[i] >= 0x20;
    }
  }

  /** The escaped output holds no raw control char. */
  lemma {:induction false} EscapeClean(s: seq<CodeUnit>)
    ensures NoControl(Escape(s))
  {
    if s != [] {
      var s', c := s[..|s| - 1], s[|s| - 1];
      EscapeClean(s');
      EscapeCharClean(c);
      assert s == s' + [c];
      EscapeSnoc(s', c);
    }
  }

  /** A control char's four hex digits: two zeros, then its two lowercase digits. */
  lemma QuadSpelled(c: CodeUnit)
    requires c < 0x20
    ensures Quad(c) == [Zero, Zero, HexChar(c / 16), HexChar(c % 16)]
  {
    if c >= 16 {
      assert ToHexString(c / 16) == [HexChar(1)];
    }
  }

  /** The four digits written for a control char read back as that char. */
  lemma QuadReadsBack(c: CodeUnit)
    requires c < 0x20
    ensures AllHex(Quad(c)) && QuadValue(Quad(c)) == c
  {
    QuadSpelled(c);
    var hi, lo := HexChar(c / 16), HexChar(c % 16);
    HexCharValue(0);
    HexCharValue(c / 16);
    HexCharValue(c % 16);
    assert Zero == HexChar(0);
    assert AllHex([]);
    HexFoldSnoc([], Zero);
    assert [] + [Zero] == [Zero];
    assert HexFold([Zero]) == 0;
    HexFoldSnoc([Zero], Zero);
    assert [Zero] + [Zero] == [Zero, Zero];
    assert HexFold([Zero, Zero]) == 0;
    HexFoldSnoc([Zero, Zero], hi);
    assert [Zero, Zero] + [hi] == [Zero, Zero, hi];
    assert HexFold([Zero, Zero, hi]) == c / 16;
    HexFoldSnoc([Zero, Zero, hi], lo);
    assert [Zero, Zero, hi] + [lo] == Quad(c);
    assert HexFold(Quad(c)) == (c / 16) * 16 + c % 16;
  }

  /** A two-char escape reads back as the char its letter unescapes to. */
  lemma ShortReadsBack(c: CodeUnit, letter: CodeUnit, tail: seq<CodeUnit>, acc: seq<CodeUnit>)
    requires Unescape([letter] + tail) == Ok((c, tail))
    ensures LexString([Backslash, letter] + tail, acc) == LexString(tail, acc + [c])
  {
    var s := [Backslash, letter] + tail;
    assert s[1..] == [letter] + tail;
    LexStringStep(s, acc);
  }

  /** A `\u` escape of a control char reads back as that char. */
  lemma UnicodeReadsBack(c: CodeUnit, tail: seq<CodeUnit>, acc: seq<CodeUnit>)
    requires c < 0x20
    ensures LexString([Backslash, 'u' as int, Zero, Zero, HexChar(c / 16), HexChar(c % 16)] + tail, acc)
            == LexString(tail, acc + [c])
  {
    var s := [Backslash, 'u' as int, Zero, Zero, HexChar(c / 16), HexChar(c % 16)] + tail;
    QuadReadsBack(c);
    QuadSpelled(c);
    assert |s[1..][1..5]| == 4;
    assert s[1..][1..5][0] == Zero && s[1..][1..5][1] == Zero;
    assert s[1..][1..5][2] == HexChar(c / 16) && s[1..][1..5][3] == HexChar(c % 16);
    assert s[1..][1..5] == [Zero, Zero, HexChar(c / 16), HexChar(c % 16)];
    assert s[1..][1..5] == Quad(c);
    assert s[1..][5..] == tail;
    LexStringStep(s, acc);
  }

  /** Reading one escape back: the tokenizer's string reading takes exactly that char. */
  lemma EscapeCharReadsBack(c: CodeUnit, tail: seq<CodeUnit>, acc: seq<CodeUnit>)
    ensures LexString(EscapeChar(c) + tail, acc) == LexString(tail, acc + [c])
  {
    if Unescaped(c) {
      var s := [c] + tail;
      assert s[1..] == tail;
      LexStringStep(s, acc);
    } else if c == Quote || c == Backslash {
      ShortReadsBack(c, c, tail, acc);
    } else if c == 0x08 {
      ShortReadsBack(c, 'b' as int, tail, acc);
    } else if c == 0x0C {
      ShortReadsBack(c, 'f' as int, tail, acc);
    } else if c == 0x0A {
      ShortReadsBack(c, 'n' as int, tail, acc);
    } else if c == 0x0D {
      ShortReadsBack(c, 'r' as int, tail, acc);
    } else if c == 0x09 {
      ShortReadsBack(c, 't' as int, tail, acc);
    } else {
      UnicodeReadsBack(c, tail, acc);
    }
  }

  /**
   * Round trip: the tokenizer's string reading, given what appendStr wrote
   * after its opening quote, yields the original chars and stops after the
   * closing quote.
   */
  lemma {:induction false} EscapeRoundTrip(s: seq<CodeUnit>, acc: seq<CodeUnit>, rest: seq<CodeUnit>)
    ensures LexString(Escape(s) + [Quote] + rest, acc) == Ok(Lexed(Str(acc + s), rest))
    decreases |s|
  {
    if s == [] {
      assert Escape(s) + [Quote] + rest == [Quote] + rest;
      assert acc + s == acc;
      LexStringStep([Quote] + rest, acc);
      assert ([Quote] + rest)[1..] == rest;
    } else {
      EscapeCons(s[0], s[1..]);
      assert s == [s[0]] + s[1..];
      assert Escape(s) + [Quote] + rest == EscapeChar(s[0]) + (Escape(s[1..]) + [Quote] + rest);
      EscapeCharReadsBack(s[0], Escape(s[1..]) + [Quote] + rest, acc);
      EscapeRoundTrip(s[1..], acc + [s[0]], rest);
      assert acc + [s[0]] + s[1..] == acc + s;
    }
  }

  /** The whole string token: Quoted(s) lexes back to a string token over s. */
  lemma QuotedLexes(s: seq<CodeUnit>, rest: seq<CodeUnit>)
    ensures Lex(Quoted(s) + rest) == Ok(Lexed(Str(s), rest))
  {
    var t := Quoted(s) + rest;
    assert t[0] == Quote;
    assert t[1..] == Escape(s) + [Quote] + rest;
    EscapeRoundTrip(s, [], rest);
    assert [] + s == s;
    LexFirst(t);
  }

  // ------------------------------------------------------------------- builder

  /** StringifyBuilder: the chars appended to its Appendable so far. */
  class StringifyBuilder {
    var out: seq<CodeUnit>

    /** StringifyBuilder.of(appendable, convert): appends after what the Appendable holds. */
    constructor (init: seq<CodeUnit>)
      ensures out == init
    {
      out := init;
    }

    /** append(cs) and appendNum(cs): the chars as they are. */
    method Append(cs: seq<CodeUnit>)
      modifies this
      ensures out == old(out) + cs
    {
      out := out + cs;
    }

    /** append(ch). */
    method AppendChar(ch: CodeUnit)
      modifies this
      ensures out == old(out) + [ch]
    {
      out := out + [ch];
    }

    /** appendNull(): the literal null. */
    method AppendNull()
      modifies this
      ensures out == old(out) + NullText
    {
      Append(NullText);
    }

    /** appendNum(cs): a number's text, unquoted and unescaped. */
    method AppendNum(cs: seq<CodeUnit>)
      modifies this
      ensures out == old(out) + cs
    {
      Append(cs);
    }

    /** appendStr(cs): null for a null reference, else the quoted escaped chars. */
    method AppendStr(cs: Option<seq<CodeUnit>>)
      modifies this
      ensures cs.None? ==> out == old(out) + NullText
      ensures cs.Some? ==> out == old(out) + Quoted(cs.value)
    {
      if cs.None? {
        AppendNull();
        return;
      }
      AppendChar(Quote);
      AppendEscOn(cs.value);
      AppendChar(Quote);
    }

    /**
     * appendEscOn(cs): runs of chars that need no escape are appended as one
     * subsequence; every other char is appended as its escape.
     */
    method AppendEscOn(cs: seq<CodeUnit>)
      modifies this
      ensures out == old(out) + Escape(cs)
    {
      var len := |cs|;
      var i := 0;
      while i < len
        invariant 0 <= i <= len
        invariant out == old(out) + Escape(cs[..i])
      {
        i := AppendChunk(cs, i, old(out));
      }
      assert cs[..i] == cs;
    }

    /**
     * One turn of appendEscOn's loop: the run of chars that need no escape,
     * then, unless the run reaches the end, the escape of the char after it.
     */
    method AppendChunk(cs: seq<CodeUnit>, begin: nat, ghost base: seq<CodeUnit>) returns (i: nat)
      requires begin < |cs| && out == base + Escape(cs[..begin])
      modifies this
      ensures begin < i <= |cs| && out == base + Escape(cs[..i])
    {
      i := UnescapedRun(cs, begin);
      if begin < i {
        Append(cs[begin..i]);
        if i == |cs| {
          return;
        }
      }
      AppendEscape(cs[i]);
      EscapeStep(cs, i);
      i := i + 1;
    }

    /** The switch of appendEscOn: the escape of one char that needs one. */
    method AppendEscape(c: CodeUnit)
      requires !Unescaped(c)
      modifies this
      ensures out == old(out) + EscapeChar(c)
    {
      if IsShortEscaped(c) {
        AppendShortEscape(c);
      } else {
        AppendUnicodeEscape(c);
      }
    }

    /** The cases of the switch with a two-char escape. */
    method AppendShortEscape(c: CodeUnit)
      requires IsShortEscaped(c)
      modifies this
      ensures out == old(out) + EscapeChar(c)
    {
      if c == Quote || c == Backslash {
        AppendChar(Backslash);
        AppendChar(c);
      } else if c == 0x08 {
        Append([Backslash, 'b' as int]);
      } else if c == 0x0C {
        Append([Backslash, 'f' as int]);
      } else if c == 0x0A {
        Append([Backslash, 'n' as int]);
      } else if c == 0x0D {
        Append([Backslash, 'r' as int]);
      } else {
        Append([Backslash, 't' as int]);
      }
    }

    /** The default case of the switch: a control char as a \u escape of four hex digits. */
    method AppendUnicodeEscape(c: CodeUnit)
      requires !Unescaped(c) && !IsShortEscaped(c)
      modifies this
      ensures out == old(out) + EscapeChar(c)
    {
      EscapeCharUnicode(c);
      Append([Backslash, 'u' as int]);
      Append(Quad(c));
    }
  }

  /**
   * The inner loop of appendEscOn: from `begin`, the end of the run of chars
   * that need no escape, which the escaped output holds as they are.
   */
  method UnescapedRun(cs: seq<CodeUnit>, begin: nat) returns (i: nat)
    requires begin < |cs|
    ensures begin <= i <= |cs|
    ensures i < |cs| ==> !Unescaped(cs[i])
    ensures Escape(cs[..i]) == Escape(cs[..begin]) + cs[begin..i]
  {
    i := begin;
    var c := cs[i];
    while Unescaped(c)
      invariant begin <= i < |cs| && c == cs[i]
      invariant Escape(cs[..i]) == Escape(cs[..begin]) + cs[begin..i]
      decreases |cs| - i
    {
      EscapeStep(cs, i);
      assert cs[begin..i + 1] == cs[begin..i] + [c];
      i := i + 1;
      if i >= |cs| {
        return;
      }
      c := cs[i];
    }
  }
}
