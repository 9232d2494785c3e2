/**
 * The JSON tokenizer (parser/Tokenizer): reads chars from a reader one at a
 * time, with a one-char push-back for the char that ends a number, tracks the
 * line and column, and collects the chars of string and number tokens in a
 * shared CharArray. Every method is proved against the functions of Lexer,
 * applied to the input that is still unread.
 */
module Tokenizers {
  import opened Wrappers
  import opened JavaText
  import opened Hex
  import opened CharArrays
  import opened StringReaders
  import opened Tokens
  import opened Lexer

  /** The four chars after the `u` of an escape, and what follows them. */
  lemma QuadSlices(s: seq<CodeUnit>)
    requires |s| >= 5
    ensures s[1..][..4] == s[1..5] && s[1..][4..] == s[5..]
  {
  }

  /** A char at i < 4 that is not a hex digit spoils the four digits of a `\u` escape. */
  lemma BadQuad(s: seq<CodeUnit>, i: nat)
    requires i < 4 && !IsHexDigit(At(s, i))
    ensures !(|s| >= 4 && AllHex(s[..4]))
  {
    if |s| >= 4 {
      AllHexEach(s[..4]);
      assert s[..4][i] == s[i];
    }
  }

  /** A common prefix grows by a matching element. */
  lemma PrefixStep(s: seq<CodeUnit>, word: seq<CodeUnit>, i: nat)
    requires i < |s| && i < |word| && s[..i] == word[..i] && s[i] == word[i]
    ensures s[..i + 1] == word[..i + 1]
  {
    assert s[..i + 1] == s[..i] + [s[i]];
    assert word[..i + 1] == word[..i] + [word[i]];
  }

  /** A mismatch at i, or the end of s before i, means s does not start with word. */
  lemma PrefixMismatch(s: seq<CodeUnit>, word: seq<CodeUnit>, i: nat)
    requires i < |word| && At(s, i) != word[i]
    ensures !(|word| <= |s| && s[..|word|] == word)
  {
  }

  /** Extending a prefix by one element. */
  lemma TakeOneMore(s: seq<CodeUnit>, i: nat)
    requires i < |s|
    ensures s[..i + 1] == s[..i] + [s[i]]
  {
  }

  class Tokenizer {
    const reader: StringReader
    const ca: CharArray
    var prev: Option<int>
    var line: int
    var colm: int

    ghost predicate PrevOk()
      reads this
    {
      prev.Some? ==> -1 <= prev.value < 0x1_0000
    }

    /** The input not yet consumed: the pushed-back char, if any, then the reader's rest. */
    ghost function In(): seq<CodeUnit>
      reads this, reader
      requires reader.Valid() && PrevOk()
    {
      (if prev.Some? && prev.value >= 0 then [prev.value as CodeUnit] else []) + reader.Remaining()
    }

    /**
     * A pushed-back end of input leaves nothing in the reader, and every char
     * still unread fits into the buffer.
     */
    ghost predicate Valid()
      reads this, reader, ca
    {
      reader.Valid() && ca.Valid() && PrevOk()
      && (prev == Some(-1) ==> reader.Remaining() == [])
      && ca.length + |In()| <= IntMax
    }

    /** Tokenizer.of(reader, ca): line 1, column 0, nothing pushed back. */
    constructor (reader: StringReader, ca: CharArray)
      requires reader.Valid() && ca.Valid() && ca.length + |reader.Remaining()| <= IntMax
      ensures Valid() && this.reader == reader && this.ca == ca
      ensures prev == None && line == 1 && colm == 0 && In() == reader.Remaining()
    {
      this.reader, this.ca := reader, ca;
      prev, line, colm := None, 1, 0;
    }

    /**
     * read(): the pushed-back char if there is one, else the reader's next
     * char. A char from the reader moves the position: `\n` starts a new line
     * at column 0, anything else (the end included) advances the column.
     */
    method Read() returns (ch: int)
      requires Valid()
      modifies this`prev, this`line, this`colm, reader`next
      ensures Valid() && prev == None
      ensures ch == At(old(In()), 0)
      ensures In() == if old(In()) == [] then [] else old(In())[1..]
      ensures old(prev).Some? ==> line == old(line) && colm == old(colm)
      ensures old(prev).None? && ch == '\n' as int ==> line == Int32(old(line) + 1) && colm == 0
      ensures old(prev).None? && ch != '\n' as int ==> line == old(line) && colm == Int32(old(colm) + 1)
    {
      if prev.Some? {
        ch := prev.value;
        prev := None;
        return;
      }
      ch := reader.Read();
      if ch == '\n' as int {
        line := Int32(line + 1);
        colm := 0;
      } else {
        colm := Int32(colm + 1);
      }
    }

    /** ch was read off the front of s: the input from ch on was s. */
    ghost predicate ReadOff(s: seq<CodeUnit>, ch: int)
      reads this, reader
      requires reader.Valid() && PrevOk()
    {
      ch == At(s, 0) && In() == (if s == [] then [] else s[1..])
    }

    /**
     * next(): skips blanks and reads one token, exactly as Lex describes it
     * for the unread input; the input a token leaves is what Lex leaves, so
     * the char that ended a number is read again by the next call.
     */
    method Next() returns (r: Result<Token>)
      requires Valid()
      modifies this`prev, this`line, this`colm, reader`next, ca, ca.elements
      ensures Valid()
      ensures Lex(old(In())).Ok? ==> r == Ok(Lex(old(In())).value.token) && In() == Lex(old(In())).value.rest
      ensures Lex(old(In())).Err? ==> r == Err(Lex(old(In())).failure)
      ensures ca.elements == old(ca.elements) || fresh(ca.elements)
      decreases |In()|
    {
      ghost var s := In();
      var ch := Read();
      if IsSkipped(ch) {
        assert Lex(s) == Lex(s[1..]);
        r := Next();
      } else {
        r := Dispatch(s, ch);
      }
    }

    /** The branches of next() for a char that is not skipped, with s the input from that char on. */
    method Dispatch(ghost s: seq<CodeUnit>, ch: int) returns (r: Result<Token>)
      requires Valid() && prev.None? && ReadOff(s, ch) && !IsSkipped(ch)
      requires ca.length + |s| <= IntMax
      modifies this`prev, this`line, this`colm, reader`next, ca, ca.elements
      ensures Valid()
      ensures Lex(s).Ok? ==> r == Ok(Lex(s).value.token) && In() == Lex(s).value.rest
      ensures Lex(s).Err? ==> r == Err(Lex(s).failure)
      ensures ca.elements == old(ca.elements) || fresh(ca.elements)
    {
      if s != [] {
        assert Lex(s) == LexToken(s);
        LexFirst(s);
      }
      if ch == '"' as int {
        r := ReadString(s[1..]);
      } else if ch == 't' as int {
        r := ReadWord(s[1..], Rue, True);
      } else if ch == 'f' as int {
        r := ReadWord(s[1..], Alse, False);
      } else if ch == 'n' as int {
        r := ReadWord(s[1..], Ull, Null);
      } else if IsDigit(ch) || ch == '-' as int {
        r := ReadNumber(s, ch);
      } else {
        r := Punctuation(s, ch);
      }
    }

    /** The one-char tokens, the end of input, and any other char as a syntax error. */
    method Punctuation(ghost s: seq<CodeUnit>, ch: int) returns (r: Result<Token>)
      requires Valid() && ReadOff(s, ch) && !IsSkipped(ch)
      requires ch != '"' as int && ch != 't' as int && ch != 'f' as int && ch != 'n' as int
      requires !IsDigit(ch) && ch != '-' as int
      ensures Lex(s).Ok? ==> r == Ok(Lex(s).value.token) && In() == Lex(s).value.rest
      ensures Lex(s).Err? ==> r == Err(Lex(s).failure)
    {
      if ch == '{' as int {
        r := Ok(Punct(CurlyOpen));
      } else if ch == '[' as int {
        r := Ok(Punct(SquareOpen));
      } else if ch == ':' as int {
        r := Ok(Punct(Colon));
      } else if ch == ',' as int {
        r := Ok(Punct(Comma));
      } else if ch == ']' as int {
        r := Ok(Punct(SquareClose));
      } else if ch == '}' as int {
        r := Ok(Punct(CurlyClose));
      } else if ch == -1 {
        r := Ok(Punct(Eof));
      } else {
        r := Err(JsonParse);
      }
    }

    /** readTrue/readFalse/readNull after the first letter: each further letter must match. */
    method ReadWord(ghost s: seq<CodeUnit>, word: seq<CodeUnit>, kind: TokenType) returns (r: Result<Token>)
      requires Valid() && prev.None? && In() == s
      requires kind != String && kind != Number
      modifies this`prev, this`line, this`colm, reader`next
      ensures Valid()
      ensures LexWord(s, word, kind).Ok? ==> r == Ok(Punct(kind)) && In() == LexWord(s, word, kind).value.rest
      ensures LexWord(s, word, kind).Err? ==> r == Err(JsonParse)
    {
      var i := 0;
      while i < |word|
        invariant 0 <= i <= |word| && Valid() && prev.None?
        invariant i <= |s| && s[..i] == word[..i] && In() == s[i..]
      {
        ghost var before := In();
        var ch := Read();
        assert ch == At(s, i) by {
          assert before == s[i..];
        }
        if ch != word[i] {
          PrefixMismatch(s, word, i);
          return Err(JsonParse);
        }
        PrefixStep(s, word, i);
        i := i + 1;
      }
      r := Ok(Punct(kind));
    }

    /**
     * readString after the opening quote: plain chars from 0x20 up are kept,
     * escapes are replaced, and the closing quote ends the token, whose chars
     * are the ones added to the buffer.
     */
    method ReadString(ghost s: seq<CodeUnit>) returns (r: Result<Token>)
      requires Valid() && prev.None? && In() == s
      modifies this`prev, this`line, this`colm, reader`next, ca, ca.elements
      ensures Valid()
      ensures LexString(s, []).Ok? ==>
                r == Ok(LexString(s, []).value.token) && In() == LexString(s, []).value.rest
                && ca.Contents() == old(ca.Contents()) + r.value.chars
      ensures LexString(s, []).Err? ==> r == Err(LexString(s, []).failure)
      ensures ca.elements == old(ca.elements) || fresh(ca.elements)
    {
      ghost var base := ca.Contents();
      var start := ca.length;
      assert ca.Contents()[start..] == [];
      while true
        invariant Valid() && prev.None?
        invariant ca.elements == old(ca.elements) || fresh(ca.elements)
        invariant start <= ca.length && ca.Contents()[..start] == base
        invariant LexString(In(), ca.Contents()[start..]) == LexString(s, [])
        decreases |In()|
      {
        var step := StringChar(In(), start, base, ca.Contents()[start..]);
        if step.Err? {
          return Err(step.failure);
        } else if step.value {
          break;
        }
      }
      r := Ok(Str(ca.elements[start..ca.length]));
      assert ca.Contents() == base + r.value.chars;
    }

    /**
     * One turn of readString's loop over the input t, with acc the chars of
     * the token so far: the closing quote ends it (true), a kept or unescaped
     * char is added (false), anything else is the error LexString gives.
     */
    method StringChar(ghost t: seq<CodeUnit>, start: nat, ghost base: seq<CodeUnit>, ghost acc: seq<CodeUnit>)
      returns (step: Result<bool>)
      requires Valid() && prev.None? && In() == t
      requires start <= ca.length && ca.Contents()[..start] == base && ca.Contents()[start..] == acc
      modifies this`prev, this`line, this`colm, reader`next, ca, ca.elements
      ensures Valid() && prev.None?
      ensures ca.elements == old(ca.elements) || fresh(ca.elements)
      ensures start <= ca.length && ca.Contents()[..start] == base
      ensures step == Ok(true) ==> LexString(t, acc) == Ok(Lexed(Str(acc), In())) && ca.Contents()[start..] == acc
      ensures step == Ok(false) ==> LexString(In(), ca.Contents()[start..]) == LexString(t, acc) && |In()| < |t|
      ensures step.Err? ==> LexString(t, acc) == Err(step.failure)
    {
      LexStringStep(t, acc);
      var ch := Read();
      if ch == '"' as int {
        step := Ok(true);
      } else if ch == '\\' as int {
        ghost var u0 := In();
        var next := Read();
        var u := Unescape(u0, next);
        if u.Err? {
          return Err(u.failure);
        }
        Keep(start, u.value);
        step := Ok(false);
      } else if ch >= 0x20 {
        Keep(start, ch);
        step := Ok(false);
      } else {
        step := Err(JsonParse);
      }
    }

    /** Adds c to the chars of the token that starts at index start of the buffer. */
    method Keep(start: nat, c: CodeUnit)
      requires Valid() && start <= ca.length && ca.length + 1 + |In()| <= IntMax
      modifies ca, ca.elements
      ensures Valid() && start <= ca.length
      ensures ca.Contents()[..start] == old(ca.Contents())[..start]
      ensures ca.Contents()[start..] == old(ca.Contents())[start..] + [c]
      ensures ca.elements == old(ca.elements) || fresh(ca.elements)
    {
      var added := ca.AddChar(c);
    }

    /**
     * unescape(ch), with the char after the backslash already read (s is the
     * input from that char on): the char the escape stands for; `u` reads
     * four hex digits, and a bad one is a NumberFormatException.
     */
    method Unescape(ghost s: seq<CodeUnit>, ch: int) returns (r: Result<CodeUnit>)
      requires Valid() && prev.None? && ReadOff(s, ch)
      modifies this`prev, this`line, this`colm, reader`next
      ensures Valid() && prev.None?
      ensures Lexer.Unescape(s).Ok? ==> r == Ok(Lexer.Unescape(s).value.0) && In() == Lexer.Unescape(s).value.1
      ensures Lexer.Unescape(s).Err? ==> r == Err(Lexer.Unescape(s).failure)
    {
      if ch == 'b' as int {
        r := Ok(0x08);
      } else if ch == 't' as int {
        r := Ok(0x09);
      } else if ch == 'n' as int {
        r := Ok(0x0A);
      } else if ch == 'f' as int {
        r := Ok(0x0C);
      } else if ch == 'r' as int {
        r := Ok(0x0D);
      } else if ch == '"' as int || ch == '\\' as int || ch == '/' as int {
        r := Ok(ch);
      } else if ch == 'u' as int {
        r := ReadQuad(s[1..]);
        if |s| >= 5 {
          QuadSlices(s);
        }
      } else {
        r := Err(JsonParse);
      }
    }

    /** The four hex digits of a `\u` escape: their value, or a NumberFormatException. */
    method ReadQuad(ghost s: seq<CodeUnit>) returns (r: Result<CodeUnit>)
      requires Valid() && prev.None? && In() == s
      modifies this`prev, this`line, this`colm, reader`next
      ensures Valid() && prev.None?
      ensures |s| >= 4 && AllHex(s[..4]) ==> r == Ok(HexFold(s[..4])) && In() == s[4..]
      ensures !(|s| >= 4 && AllHex(s[..4])) ==> r == Err(NumberFormat)
    {
      var unicode := 0;
      var i := 0;
      assert s[..0] == [];
      while i < 4
        invariant 0 <= i <= 4 && Valid() && prev.None?
        invariant i <= |s| && AllHex(s[..i]) && unicode == HexFold(s[..i]) && In() == s[i..]
      {
        ghost var before := In();
        var c := Read();
        assert c == At(s, i) by {
          assert before == s[i..];
        }
        var d := DigitValue(c);
        if d < 0 {
          BadQuad(s, i);
          return Err(NumberFormat);
        }
        HexFoldStep(s, i);
        unicode := unicode * 16 + d;
        i := i + 1;
      }
      r := Ok(unicode);
    }

    /** The state while reading a number: s[..k] added to the buffer, ch == At(s, k) just read. */
    ghost predicate Scanning(s: seq<CodeUnit>, base: seq<CodeUnit>, k: nat, ch: int)
      reads this, reader, ca, ca.elements
    {
      Valid() && prev.None? && k <= |s| && ReadOff(s[k..], ch)
      && ca.Contents() == base + s[..k]
      && |base| + |s| <= IntMax
    }

    /** Adds ch == s[k] to the buffer and reads the next char. */
    method Advance(ghost s: seq<CodeUnit>, ghost base: seq<CodeUnit>, ghost k: nat, ch: int) returns (next: int)
      requires Scanning(s, base, k, ch) && k < |s|
      modifies this`prev, this`line, this`colm, reader`next, ca, ca.elements
      ensures Scanning(s, base, k + 1, next)
      ensures ca.elements == old(ca.elements) || fresh(ca.elements)
    {
      var added := ca.AddChar(ch);
      TakeOneMore(s, k);
      next := Read();
    }

    /** Adds the digit run from s[k] on, leaving ch at the first non-digit. */
    method Digits(ghost s: seq<CodeUnit>, ghost base: seq<CodeUnit>, ghost k0: nat, ch0: int)
      returns (ghost k: nat, ch: int, count: nat)
      requires Scanning(s, base, k0, ch0)
      modifies this`prev, this`line, this`colm, reader`next, ca, ca.elements
      ensures Scanning(s, base, k, ch) && k == DigitsEnd(s, k0) && count == k - k0
      ensures ca.elements == old(ca.elements) || fresh(ca.elements)
    {
      k, ch, count := k0, ch0, 0;
      while IsDigit(ch)
        invariant ca.elements == old(ca.elements) || fresh(ca.elements)
        invariant k0 <= k && count == k - k0
        invariant Scanning(s, base, k, ch) && DigitsEnd(s, k) == DigitsEnd(s, k0)
        decreases |s| - k
      {
        ch := AddDigit(s, base, k, ch);
        k, count := k + 1, count + 1;
      }
      AtFront(s, k);
    }

    /** One step of Digits: the digit ch == s[k] is added and the run goes on from k + 1. */
    method AddDigit(ghost s: seq<CodeUnit>, ghost base: seq<CodeUnit>, ghost k: nat, ch: int)
      returns (next: int)
      requires Scanning(s, base, k, ch) && IsDigit(ch)
      modifies this`prev, this`line, this`colm, reader`next, ca, ca.elements
      ensures k < |s| && Scanning(s, base, k + 1, next) && DigitsEnd(s, k + 1) == DigitsEnd(s, k)
      ensures ca.elements == old(ca.elements) || fresh(ca.elements)
    {
      AtFront(s, k);
      next := Advance(s, base, k, ch);
    }

    /**
     * readNumber(ch), with the first char (a digit or `-`) already read: adds
     * the lexeme to the buffer as LexNumber delimits it, pushes the char that
     * ended it back and returns the number token over the added chars.
     */
    method ReadNumber(ghost s: seq<CodeUnit>, ch0: int) returns (r: Result<Token>)
      requires Valid() && prev.None? && ReadOff(s, ch0) && (IsDigit(ch0) || ch0 == '-' as int)
      requires ca.length + |s| <= IntMax
      modifies this`prev, this`line, this`colm, reader`next, ca, ca.elements
      ensures Valid()
      ensures LexNumber(s).Ok? ==>
                r == Ok(LexNumber(s).value.token) && In() == LexNumber(s).value.rest
                && ca.Contents() == old(ca.Contents()) + r.value.chars
      ensures LexNumber(s).Err? ==> r == Err(JsonParse)
      ensures ca.elements == old(ca.elements) || fresh(ca.elements)
    {
      ghost var base := ca.Contents();
      var start := ca.length;
      assert s[..0] == [];
      assert Scanning(s, base, 0, ch0);
      ghost var i := if ch0 == '-' as int then 1 else 0;
      var ch, ok;
      ghost var k;
      ch, k, ok := IntegerPart(s, base, ch0);
      if !ok {
        LexNumberNoDigit(s, i);
        return Err(JsonParse);
      }
      r := NumberTail(s, base, start, i, k, ch);
    }

    /**
     * The rest of readNumber once the integer part ends at intEnd: the optional
     * fraction and exponent, then the pushed-back char and the token.
     */
    method NumberTail(ghost s: seq<CodeUnit>, ghost base: seq<CodeUnit>, start: int, ghost i: nat, ghost intEnd: nat, ch0: int)
      returns (r: Result<Token>)
      requires |s| > 0 && (IsDigit(s[0]) || s[0] == '-' as int)
      requires i == (if s[0] == '-' as int then 1 else 0) && IsDigit(At(s, i))
      requires Scanning(s, base, intEnd, ch0) && intEnd == IntegerEnd(s, i) && start == |base|
      modifies this`prev, this`line, this`colm, reader`next, ca, ca.elements
      ensures Valid()
      ensures LexNumber(s).Ok? ==>
                r == Ok(LexNumber(s).value.token) && In() == LexNumber(s).value.rest
                && ca.Contents() == base + r.value.chars
      ensures LexNumber(s).Err? ==> r == Err(JsonParse)
      ensures ca.elements == old(ca.elements) || fresh(ca.elements)
    {
      var ch, ok, frac;
      ghost var k;
      k, ch, frac, ok := FractionPart(s, base, intEnd, ch0);
      if !ok {
        LexNumberNoFractionDigit(s, i, intEnd);
        return Err(JsonParse);
      }
      ghost var fracEnd := k;
      var exp;
      k, ch, exp, ok := ExponentPart(s, base, k, ch);
      if !ok {
        LexNumberNoExponentDigit(s, i, intEnd, fracEnd);
        return Err(JsonParse);
      }
      LexNumberToken(s, i, intEnd, fracEnd, k);
      PushBack(s, base, k, ch);
      r := Ok(Num(ca.elements[start..ca.length], frac, exp));
    }

    /** `prev = ch`: the char that ended the number is read again by the next call. */
    method PushBack(ghost s: seq<CodeUnit>, ghost base: seq<CodeUnit>, ghost k: nat, ch: int)
      requires Scanning(s, base, k, ch)
      modifies this`prev
      ensures Valid() && In() == s[k..]
      ensures ca.length == |base| + k && ca.Contents() == base + s[..k]
    {
      prev := Some(ch);
      NumberRest(s, k);
    }

    /** The optional minus and the integer part: a zero alone, or a run of digits. */
    method IntegerPart(ghost s: seq<CodeUnit>, ghost base: seq<CodeUnit>, ch0: int)
      returns (ch: int, ghost k: nat, ok: bool)
      requires Scanning(s, base, 0, ch0) && (IsDigit(ch0) || ch0 == '-' as int)
      modifies this`prev, this`line, this`colm, reader`next, ca, ca.elements
      ensures ca.elements == old(ca.elements) || fresh(ca.elements)
      ensures var i := if ch0 == '-' as int then 1 else 0;
              ok <==> IsDigit(At(s, i))
      ensures ok ==> var i := if ch0 == '-' as int then 1 else 0;
              Scanning(s, base, k, ch) && k == IntegerEnd(s, i)
      ensures !ok ==> Valid()
    {
      ch, k := ch0, 0;
      if ch == '-' as int {
        ch := Advance(s, base, k, ch);
        k := k + 1;
        if !IsDigit(ch) {
          return ch, k, false;
        }
      }
      if ch == '0' as int {
        ch := Advance(s, base, k, ch);
        k := k + 1;
      } else {
        ch := Advance(s, base, k, ch);
        k := k + 1;
        var more;
        k, ch, more := Digits(s, base, k, ch);
      }
      ok := true;
    }

    /** An optional fraction: the dot must be followed by at least one digit. */
    method FractionPart(ghost s: seq<CodeUnit>, ghost base: seq<CodeUnit>, ghost k0: nat, ch0: int)
      returns (ghost k: nat, ch: int, frac: bool, ok: bool)
      requires Scanning(s, base, k0, ch0)
      modifies this`prev, this`line, this`colm, reader`next, ca, ca.elements
      ensures ca.elements == old(ca.elements) || fresh(ca.elements)
      ensures frac <==> At(s, k0) == '.' as int
      ensures ok <==> !(frac && FractionEnd(s, k0) == k0 + 1)
      ensures ok ==> Scanning(s, base, k, ch) && k == FractionEnd(s, k0)
      ensures !ok ==> Valid()
    {
      k, ch, frac := k0, ch0, false;
      if ch == '.' as int {
        frac := true;
        ch := Advance(s, base, k, ch);
        k := k + 1;
        var count;
        k, ch, count := Digits(s, base, k, ch);
        if count + 1 == 1 {
          return k, ch, frac, false;
        }
      }
      ok := true;
    }

    /** An optional exponent: the mark, an optional sign, and at least one digit. */
    method ExponentPart(ghost s: seq<CodeUnit>, ghost base: seq<CodeUnit>, ghost k0: nat, ch0: int)
      returns (ghost k: nat, ch: int, exp: bool, ok: bool)
      requires Scanning(s, base, k0, ch0)
      modifies this`prev, this`line, this`colm, reader`next, ca, ca.elements
      ensures ca.elements == old(ca.elements) || fresh(ca.elements)
      ensures exp <==> IsExpMark(At(s, k0))
      ensures ok <==> !(exp && ExponentEnd(s, k0) == ExponentDigitsStart(s, k0))
      ensures ok ==> Scanning(s, base, k, ch) && k == ExponentEnd(s, k0)
      ensures !ok ==> Valid()
    {
      k, ch, exp := k0, ch0, false;
      if ch == 'e' as int || ch == 'E' as int {
        exp := true;
        k, ch := ExponentSign(s, base, k, ch);
        var count;
        k, ch, count := Digits(s, base, k, ch);
        if count == 0 {
          return k, ch, exp, false;
        }
      }
      ok := true;
    }

    /** The exponent mark, then a sign when one follows: the digits start after them. */
    method ExponentSign(ghost s: seq<CodeUnit>, ghost base: seq<CodeUnit>, ghost k0: nat, ch0: int)
      returns (ghost k: nat, ch: int)
      requires Scanning(s, base, k0, ch0) && IsExpMark(ch0)
      modifies this`prev, this`line, this`colm, reader`next, ca, ca.elements
      ensures k0 < |s| && Scanning(s, base, k, ch) && k == ExponentDigitsStart(s, k0)
      ensures ca.elements == old(ca.elements) || fresh(ca.elements)
    {
      ch := Advance(s, base, k0, ch0);
      k := k0 + 1;
      if ch == '+' as int || ch == '-' as int {
        ch := Advance(s, base, k, ch);
        k := k + 1;
      }
    }
  }

  /** The input after a number that ends at k, with the char at k pushed back. */
  lemma NumberRest(s: seq<CodeUnit>, k: nat)
    requires k <= |s|
    ensures (if At(s, k) >= 0 then [At(s, k) as CodeUnit] else []) + (if k < |s| then s[k + 1..] else []) == s[k..]
  {
  }
}
