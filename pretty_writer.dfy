/**
 * JsonPrettyWriter: an Appendable that re-lays out compact JSON text char by
 * char. It drops spaces outside quotes, breaks the line after `{`, `[` and
 * `,` and before `}` and `]`, indents each new line by the nesting level, and
 * puts a space after `:`. Its state is the nesting level, whether it is inside
 * quotes, and the previous char.
 *
 * Step and Run model the writer as written. Brackets inside quotes still move
 * the level and break the line, and an escaped backslash before the closing
 * quote keeps the quote open. StepFixed and RunFixed are the corrected writer:
 * inside a string every char is copied, and it tracks whether a backslash is
 * itself escaped.
 */
module PrettyWriters {
  import opened Wrappers
  import opened JavaText
  import opened StringifyBuilders

  const LF: CodeUnit := 0x0A
  const Space: CodeUnit := ' ' as int
  const Colon: CodeUnit := ':' as int
  const Comma: CodeUnit := ',' as int

  predicate IsOpener(c: CodeUnit) { c == '{' as int || c == '[' as int }
  predicate IsCloser(c: CodeUnit) { c == '}' as int || c == ']' as int }

  // ------------------------------------------------------ driving a writer

  /** A writer state after some chars, and what those chars appended to the peer. */
  datatype Outcome<S> = Outcome(writer: S, out: seq<CodeUnit>)

  /** What x appended, then the outcome r of the chars after it. */
  function After<S>(x: Outcome<S>, r: Result<Outcome<S>>): (o: Result<Outcome<S>>)
    ensures o.Ok? <==> r.Ok?
    ensures o.Ok? ==> o.value.writer == r.value.writer && o.value.out == x.out + r.value.out
  {
    if r.Err? then Err(r.failure) else Ok(Outcome(r.value.writer, x.out + r.value.out))
  }

  /** Feed the chars of s to a writer one at a time; the first exception ends it. */
  function Drive<S>(step: (S, CodeUnit) -> Result<Outcome<S>>, w: S, s: seq<CodeUnit>): Result<Outcome<S>>
    decreases |s|
  {
    if s == [] then Ok(Outcome(w, []))
    else
      var a :- step(w, s[0]);
      var b :- Drive(step, a.writer, s[1..]);
      Ok(Outcome(b.writer, a.out + b.out))
  }

  lemma DriveCons<S>(step: (S, CodeUnit) -> Result<Outcome<S>>, w: S, c: CodeUnit, t: seq<CodeUnit>)
    ensures step(w, c).Err? ==> Drive(step, w, [c] + t) == Err(step(w, c).failure)
    ensures step(w, c).Ok? ==> Drive(step, w, [c] + t) == After(step(w, c).value, Drive(step, step(w, c).value.writer, t))
  {
    var s := [c] + t;
    assert s[0] == c && s[1..] == t;
  }

  /** Feeding a + b is feeding a, then b from the state a left. */
  lemma {:induction false} DriveAppend<S>(step: (S, CodeUnit) -> Result<Outcome<S>>, w: S, a: seq<CodeUnit>, b: seq<CodeUnit>)
    requires Drive(step, w, a).Ok?
    ensures Drive(step, w, a + b) == After(Drive(step, w, a).value, Drive(step, Drive(step, w, a).value.writer, b))
    decreases |a|
  {
    if a == [] {
      assert a + b == b;
      if Drive(step, w, b).Ok? {
        assert [] + Drive(step, w, b).value.out == Drive(step, w, b).value.out;
      }
    } else {
      assert a == [a[0]] + a[1..];
      assert a + b == [a[0]] + (a[1..] + b);
      DriveCons(step, w, a[0], a[1..]);
      DriveCons(step, w, a[0], a[1..] + b);
      var x := step(w, a[0]).value;
      DriveAppend(step, x.writer, a[1..], b);
      var y := Drive(step, x.writer, a[1..]).value;
      var r := Drive(step, y.writer, b);
      if r.Ok? {
        assert x.out + (y.out + r.value.out) == (x.out + y.out) + r.value.out;
      }
    }
  }

  /** An exception on a prefix ends the whole run with that exception. */
  lemma {:induction false} DriveErrPrefix<S>(step: (S, CodeUnit) -> Result<Outcome<S>>, w: S, a: seq<CodeUnit>, b: seq<CodeUnit>)
    requires Drive(step, w, a).Err?
    ensures Drive(step, w, a + b) == Drive(step, w, a)
    decreases |a|
  {
    assert a == [a[0]] + a[1..];
    assert a + b == [a[0]] + (a[1..] + b);
    DriveCons(step, w, a[0], a[1..]);
    DriveCons(step, w, a[0], a[1..] + b);
    if step(w, a[0]).Ok? {
      DriveErrPrefix(step, step(w, a[0]).value.writer, a[1..], b);
    }
  }

  /** One more char at the end is one more step from the state the rest left. */
  lemma DriveSnoc<S>(step: (S, CodeUnit) -> Result<Outcome<S>>, w: S, s: seq<CodeUnit>, c: CodeUnit)
    requires Drive(step, w, s).Ok?
    ensures Drive(step, w, s + [c]) == After(Drive(step, w, s).value, step(Drive(step, w, s).value.writer, c))
  {
    var x := Drive(step, w, s).value;
    DriveAppend(step, w, s, [c]);
    DriveCons(step, x.writer, c, []);
    assert [c] + [] == [c];
    if step(x.writer, c).Ok? {
      var y := step(x.writer, c).value;
      assert y.out + [] == y.out;
    }
  }

  // ------------------------------------------------------ the writer as written

  /** The writer's fields: level, inQuote and prev (a char field, so it starts as 0). */
  datatype Writer = Writer(level: int, inQuote: bool, prev: CodeUnit)

  type Written = Outcome<Writer>

  /** A fresh writer. */
  const Start: Writer := Writer(0, false, 0)

  /** `'\n'` then `indent.repeat(level)`; String.repeat throws for a negative count. */
  function NewLine(indent: seq<CodeUnit>, level: int): (r: Result<seq<CodeUnit>>)
    ensures r.Ok? <==> level >= 0
    ensures r.Ok? ==> r.value == [LF] + Repeat(indent, level)
    ensures r.Err? ==> r.failure == IllegalArgument
  {
    if level < 0 then Err(IllegalArgument) else Ok([LF] + Repeat(indent, level))
  }

  function Spaces(n: nat): (r: seq<CodeUnit>)
    ensures |r| == n && forall i | 0 <= i < n :: r[i] == Space
  {
    if n == 0 then [] else [Space] + Spaces(n - 1)
  }

  /** `" ".repeat(indent)`: the indent string the constructor builds. */
  function IndentOf(size: int): (r: Result<seq<CodeUnit>>)
    ensures r.Ok? <==> size >= 0
    ensures r.Ok? ==> r.value == Spaces(size)
    ensures r.Err? ==> r.failure == IllegalArgument
  {
    if size < 0 then Err(IllegalArgument) else Ok(Spaces(size))
  }

  /** appendInternal(ch), as written. */
  function Step(w: Writer, indent: seq<CodeUnit>, ch: CodeUnit): (r: Result<Written>)
    ensures r.Ok? ==> r.value.writer.prev == ch
  {
    var next := w.(prev := ch);
    if ch == Quote then
      var toggle := !w.inQuote || w.prev != Backslash;
      Ok(Outcome(next.(inQuote := if toggle then !w.inQuote else w.inQuote), [ch]))
    else if ch == Space then
      Ok(Outcome(next, if w.inQuote then [ch] else []))
    else if IsOpener(ch) then
      var nl :- NewLine(indent, w.level + 1);
      Ok(Outcome(next.(level := w.level + 1), [ch] + nl))
    else if IsCloser(ch) then
      var nl :- NewLine(indent, w.level - 1);
      Ok(Outcome(next.(level := w.level - 1), nl + [ch]))
    else if ch == Comma then
      if w.inQuote then Ok(Outcome(next, [ch]))
      else
        var nl :- NewLine(indent, w.level);
        Ok(Outcome(next, [ch] + nl))
    else if ch == Colon then
      Ok(Outcome(next, if w.inQuote then [ch] else [ch, Space]))
    else
      Ok(Outcome(next, [ch]))
  }

  function Stepper(indent: seq<CodeUnit>): (Writer, CodeUnit) -> Result<Written> {
    (w: Writer, ch: CodeUnit) => Step(w, indent, ch)
  }

  /** The writer's only exception is the one a negative level gives, and the last char appended is the previous char. */
  lemma {:induction false} DriveStepper(w: Writer, indent: seq<CodeUnit>, s: seq<CodeUnit>)
    ensures var r := Drive(Stepper(indent), w, s);
      (r.Err? ==> r.failure == IllegalArgument) && (r.Ok? && s != [] ==> r.value.writer.prev == s[|s| - 1])
    decreases |s|
  {
    if s != [] {
      var x := Step(w, indent, s[0]);
      if x.Ok? {
        DriveStepper(x.value.writer, indent, s[1..]);
      }
    }
  }

  /** append(csq): appendInternal on every char in order; the first exception ends it. */
  function Run(w: Writer, indent: seq<CodeUnit>, s: seq<CodeUnit>): (r: Result<Written>)
    ensures s == [] ==> r == Ok(Outcome(w, []))
    ensures r.Err? ==> r.failure == IllegalArgument
    ensures r.Ok? && s != [] ==> r.value.writer.prev == s[|s| - 1]
  {
    DriveStepper(w, indent, s);
    Drive(Stepper(indent), w, s)
  }

  /**
   * append(csq, start, end): charAt(i) for i from start up to end, each
   * appended; charAt throws IndexOutOfBoundsException at the first i outside csq.
   */
  function RangeRun(w: Writer, indent: seq<CodeUnit>, csq: seq<CodeUnit>, start: int, end: int): (r: Result<Written>)
    ensures end <= start ==> r == Ok(Outcome(w, []))
    ensures r.Ok? && start < end ==> 0 <= start && end <= |csq| && r.value.writer.prev == csq[end - 1]
    ensures r.Err? ==> r.failure == IndexOutOfBounds || r.failure == IllegalArgument
  {
    if end <= start then Ok(Outcome(w, []))
    else if start < 0 || start >= |csq| then Err(IndexOutOfBounds)
    else
      var hi := if end < |csq| then end else |csq|;
      var x :- Run(w, indent, csq[start..hi]);
      if end > |csq| then Err(IndexOutOfBounds) else Ok(x)
  }

  /** toPrettyString(csq, indent): a fresh writer over an empty StringBuilder. */
  function PrettyString(csq: seq<CodeUnit>, size: int): (r: Result<seq<CodeUnit>>)
    ensures r.Ok? <==> size >= 0 && DepthOk(0, csq)
    ensures r.Err? ==> r.failure == IllegalArgument
    ensures r.Ok? ==> Ink(r.value) == Ink(csq)
  {
    var indent :- IndentOf(size);
    RunLevel(Start, indent, csq);
    var w :- Run(Start, indent, csq);
    RunInk(Start, indent, csq);
    Ok(w.out)
  }

  /** One more index of the range is one more step. */
  lemma RangeStep(w: Writer, indent: seq<CodeUnit>, csq: seq<CodeUnit>, start: int, i: int)
    requires 0 <= start <= i < |csq| && Run(w, indent, csq[start..i]).Ok?
    ensures Run(w, indent, csq[start..i + 1])
            == After(Run(w, indent, csq[start..i]).value, Step(Run(w, indent, csq[start..i]).value.writer, indent, csq[i]))
  {
    assert csq[start..i + 1] == csq[start..i] + [csq[i]];
    DriveSnoc(Stepper(indent), w, csq[start..i], csq[i]);
  }

  /** An exception at index i ends append(csq, start, end) with that exception. */
  lemma RangeStepErr(w: Writer, indent: seq<CodeUnit>, csq: seq<CodeUnit>, start: int, end: int, i: int)
    requires 0 <= start <= i < |csq| && i < end && Run(w, indent, csq[start..i + 1]).Err?
    ensures RangeRun(w, indent, csq, start, end) == Err(Run(w, indent, csq[start..i + 1]).failure)
  {
    var hi := if end < |csq| then end else |csq|;
    assert csq[start..hi] == csq[start..i + 1] + csq[i + 1..hi];
    DriveErrPrefix(Stepper(indent), w, csq[start..i + 1], csq[i + 1..hi]);
  }

  /** Reaching the end of csq before `end`: charAt throws. */
  lemma RangeAtEnd(w: Writer, indent: seq<CodeUnit>, csq: seq<CodeUnit>, start: int, end: int)
    requires 0 <= start < |csq| < end && Run(w, indent, csq[start..|csq|]).Ok?
    ensures RangeRun(w, indent, csq, start, end) == Err(IndexOutOfBounds)
  {
  }

  /** A range inside csq appends its chars. */
  lemma RangeDone(w: Writer, indent: seq<CodeUnit>, csq: seq<CodeUnit>, start: int, end: int)
    requires 0 <= start < end <= |csq| && Run(w, indent, csq[start..end]).Ok?
    ensures RangeRun(w, indent, csq, start, end) == Run(w, indent, csq[start..end])
  {
  }

  /** append(csq) is append(csq, 0, csq.length()). */
  lemma RangeWhole(w: Writer, indent: seq<CodeUnit>, csq: seq<CodeUnit>)
    ensures RangeRun(w, indent, csq, 0, |csq|) == Run(w, indent, csq)
  {
    assert csq[0..|csq|] == csq;
  }

  /** A range that runs past the end appends what is there and then throws. */
  lemma RangePastEnd(w: Writer, indent: seq<CodeUnit>, csq: seq<CodeUnit>, start: int, end: int)
    requires start < end && end > |csq|
    ensures RangeRun(w, indent, csq, start, end).Err?
  {
  }

  // ------------------------------------------------------------- layout only

  /** The chars that are neither spaces nor line feeds. */
  function Ink(s: seq<CodeUnit>): (r: seq<CodeUnit>)
    ensures |r| <= |s|
  {
    if s == [] then []
    else (if s[0] == Space || s[0] == LF then [] else [s[0]]) + Ink(s[1..])
  }

  lemma {:induction false} InkAppend(a: seq<CodeUnit>, b: seq<CodeUnit>)
    ensures Ink(a + b) == Ink(a) + Ink(b)
  {
    if a != [] {
      assert (a + b)[1..] == a[1..] + b;
      InkAppend(a[1..], b);
    } else {
      assert a + b == b;
    }
  }

  lemma {:induction false} InkSpaces(n: nat)
    ensures Ink(Spaces(n)) == []
  {
    if n > 0 {
      assert Spaces(n)[1..] == Spaces(n - 1);
      InkSpaces(n - 1);
    }
  }

  lemma {:induction false} InkRepeat(indent: seq<CodeUnit>, n: int)
    requires indent == Spaces(|indent|)
    ensures Ink(Repeat(indent, n)) == []
    decreases n
  {
    if n > 0 {
      InkRepeat(indent, n - 1);
      InkAppend(indent, Repeat(indent, n - 1));
      InkSpaces(|indent|);
    }
  }

  /** A line break and its indentation carry no ink. */
  lemma InkNewLine(indent: seq<CodeUnit>, level: int)
    requires indent == Spaces(|indent|) && level >= 0
    ensures Ink(NewLine(indent, level).value) == []
  {
    InkRepeat(indent, level);
    InkAppend([LF], Repeat(indent, level));
    assert [LF][1..] == [];
  }

  lemma InkSingle(c: CodeUnit)
    ensures Ink([c]) == if c == Space || c == LF then [] else [c]
  {
    assert [c][1..] == [];
  }

  /** One char: what it appends has the same ink as the char itself. */
  lemma StepInk(w: Writer, indent: seq<CodeUnit>, ch: CodeUnit)
    requires indent == Spaces(|indent|)
    requires Step(w, indent, ch).Ok?
    ensures Ink(Step(w, indent, ch).value.out) == Ink([ch])
  {
    var out := Step(w, indent, ch).value.out;
    InkSingle(ch);
    if IsOpener(ch) {
      InkNewLine(indent, w.level + 1);
      InkAppend([ch], NewLine(indent, w.level + 1).value);
    } else if IsCloser(ch) {
      InkNewLine(indent, w.level - 1);
      InkAppend(NewLine(indent, w.level - 1).value, [ch]);
    } else if ch == Comma && !w.inQuote {
      InkNewLine(indent, w.level);
      InkAppend([ch], NewLine(indent, w.level).value);
    } else if ch == Colon && !w.inQuote {
      InkAppend([ch], [Space]);
      InkSingle(Space);
    } else if ch == Space && !w.inQuote {
      assert out == [];
    }
  }

  /**
   * The writer only inserts line feeds and indentation (and the space after a
   * colon) and only drops spaces: apart from those, its output is its input.
   */
  lemma {:induction false} RunInk(w: Writer, indent: seq<CodeUnit>, s: seq<CodeUnit>)
    requires indent == Spaces(|indent|)
    requires Run(w, indent, s).Ok?
    ensures Ink(Run(w, indent, s).value.out) == Ink(s)
    decreases |s|
  {
    if s != [] {
      assert s == [s[0]] + s[1..];
      DriveCons(Stepper(indent), w, s[0], s[1..]);
      var a := Step(w, indent, s[0]).value;
      StepInk(w, indent, s[0]);
      RunInk(a.writer, indent, s[1..]);
      InkAppend(a.out, Run(a.writer, indent, s[1..]).value.out);
      InkAppend([s[0]], s[1..]);
    }
  }

  // ------------------------------------------------------------------ nesting

  /** How a char moves the level: +1 for `{` `[`, -1 for `}` `]`, wherever it stands. */
  function Delta(c: CodeUnit): int {
    if IsOpener(c) then 1 else if IsCloser(c) then -1 else 0
  }

  /** Starting at `level`, no prefix of s takes the level below 0. */
  predicate DepthOk(level: int, s: seq<CodeUnit>)
    decreases |s|
  {
    s == [] || (level + Delta(s[0]) >= 0 && DepthOk(level + Delta(s[0]), s[1..]))
  }

  /** The level after s: the openers minus the closers. */
  function Depth(level: int, s: seq<CodeUnit>): int
    decreases |s|
  {
    if s == [] then level else Depth(level + Delta(s[0]), s[1..])
  }

  /** One char fails exactly when it would take a non-negative level below 0. */
  lemma StepFails(w: Writer, indent: seq<CodeUnit>, ch: CodeUnit)
    requires w.level >= 0
    ensures Step(w, indent, ch).Err? <==> w.level + Delta(ch) < 0
    ensures Step(w, indent, ch).Ok? ==> Step(w, indent, ch).value.writer.level == w.level + Delta(ch)
  {
  }

  /**
   * From a non-negative level, append fails exactly when some closer takes the
   * level below 0, and otherwise ends at the start level plus openers minus closers.
   */
  lemma {:induction false} RunLevel(w: Writer, indent: seq<CodeUnit>, s: seq<CodeUnit>)
    requires w.level >= 0
    ensures Run(w, indent, s).Ok? <==> DepthOk(w.level, s)
    ensures Run(w, indent, s).Ok? ==> Run(w, indent, s).value.writer.level == Depth(w.level, s)
    decreases |s|
  {
    if s != [] {
      assert s == [s[0]] + s[1..];
      DriveCons(Stepper(indent), w, s[0], s[1..]);
      StepFails(w, indent, s[0]);
      if Step(w, indent, s[0]).Ok? {
        RunLevel(Step(w, indent, s[0]).value.writer, indent, s[1..]);
      }
    }
  }

  /** Inside quotes a space, a comma and a colon are copied as they are. */
  lemma QuotedPunctuation(w: Writer, indent: seq<CodeUnit>, ch: CodeUnit)
    requires w.inQuote && (ch == Space || ch == Comma || ch == Colon)
    ensures Step(w, indent, ch) == Ok(Outcome(w.(prev := ch), [ch]))
  {
  }

  /** Outside quotes a space is dropped, and a quote opens a string whatever came before. */
  lemma OutsideQuotes(w: Writer, indent: seq<CodeUnit>)
    requires !w.inQuote
    ensures Step(w, indent, Space) == Ok(Outcome(w.(prev := Space), []))
    ensures Step(w, indent, Quote) == Ok(Outcome(w.(prev := Quote, inQuote := true), [Quote]))
  {
  }

  /** Inside quotes a quote after a backslash does not close the string. */
  lemma EscapedQuote(w: Writer, indent: seq<CodeUnit>)
    requires w.inQuote && w.prev == Backslash
    ensures Step(w, indent, Quote) == Ok(Outcome(w.(prev := Quote), [Quote]))
  {
  }

  // ----------------------------------------------------------------- findings

  lemma RunOne(w: Writer, indent: seq<CodeUnit>, c: CodeUnit)
    ensures Run(w, indent, [c]) == Step(w, indent, c)
  {
    DriveSnoc(Stepper(indent), w, [], c);
    assert [] + [c] == [c];
    if Step(w, indent, c).Ok? {
      assert [] + Step(w, indent, c).value.out == Step(w, indent, c).value.out;
    }
  }

  /** `"{"`: the brace inside the string breaks the line and leaves the level at 1. */
  lemma BracketInString(indent: seq<CodeUnit>)
    ensures Quoted(['{' as int]) == [Quote, '{' as int, Quote]
    ensures Run(Start, indent, Quoted(['{' as int]))
            == Ok(Outcome(Writer(1, false, Quote), [Quote, '{' as int, LF] + indent + [Quote]))
  {
    var brace: CodeUnit := '{' as int;
    QuotedBrace();
    OutsideQuotes(Start, indent);
    BraceThenQuote(indent);
    DriveCons(Stepper(indent), Start, Quote, [brace, Quote]);
    assert [Quote] + [brace, Quote] == [Quote, brace, Quote];
    assert [Quote] + ([brace, LF] + indent + [Quote]) == [Quote, brace, LF] + indent + [Quote];
  }

  /** The JSON string holding one brace. */
  lemma QuotedBrace()
    ensures Quoted(['{' as int]) == [Quote, '{' as int, Quote]
  {
    var brace: CodeUnit := '{' as int;
    EscapeCons(brace, []);
    assert Escape([]) == [];
    assert [brace] + [] == [brace];
  }

  /** Inside a string at level 0, a brace then a quote: the line breaks, the level rises and the string closes. */
  lemma BraceThenQuote(indent: seq<CodeUnit>)
    ensures Run(Writer(0, true, Quote), indent, ['{' as int, Quote])
            == Ok(Outcome(Writer(1, false, Quote), ['{' as int, LF] + indent + [Quote]))
  {
    var brace: CodeUnit := '{' as int;
    var w1, w2, w3 := Writer(0, true, Quote), Writer(1, true, brace), Writer(1, false, Quote);
    BraceInQuote(indent);
    RunOne(w2, indent, Quote);
    DriveCons(Stepper(indent), w1, brace, [Quote]);
    assert [brace] + [Quote] == [brace, Quote];
    assert ([brace] + ([LF] + indent)) + [Quote] == [brace, LF] + indent + [Quote];
  }

  /** Inside a string at level 0, the writer as written still takes a brace as an opener. */
  lemma BraceInQuote(indent: seq<CodeUnit>)
    ensures Step(Writer(0, true, Quote), indent, '{' as int)
            == Ok(Outcome(Writer(1, true, '{' as int), ['{' as int] + ([LF] + indent)))
  {
    assert Repeat(indent, 1) == indent + Repeat(indent, 0);
    assert indent + [] == indent;
  }

  /** `"\\"`: a string holding one backslash leaves the writer inside quotes. */
  lemma EscapedBackslash(indent: seq<CodeUnit>)
    ensures Quoted([Backslash]) == [Quote, Backslash, Backslash, Quote]
    ensures Run(Start, indent, Quoted([Backslash])) == Ok(Outcome(Writer(0, true, Quote), Quoted([Backslash])))
  {
    EscapeCons(Backslash, []);
    assert Escape([]) == [];
    assert EscapeChar(Backslash) == [Backslash, Backslash];
    assert Escape([Backslash]) == [Backslash, Backslash] by {
      assert [Backslash] + [] == [Backslash];
    }
    var step := Stepper(indent);
    var w3 := Writer(0, true, Backslash);
    RunOne(w3, indent, Quote);
    DriveCons(step, w3, Backslash, [Quote]);
    assert [Backslash] + [Quote] == [Backslash, Quote];
    var w1 := Writer(0, true, Quote);
    DriveCons(step, w1, Backslash, [Backslash, Quote]);
    assert [Backslash] + [Backslash, Quote] == [Backslash, Backslash, Quote];
    DriveCons(step, Start, Quote, [Backslash, Backslash, Quote]);
    assert [Quote] + [Backslash, Backslash, Quote] == [Quote, Backslash, Backslash, Quote];
  }

  /**
   * The corrected writer's state: whether it is inside a string and whether
   * the previous char inside it was an escaping backslash.
   */
  datatype FixedWriter = FixedWriter(level: int, inQuote: bool, escaped: bool)

  /** appendInternal as intended: inside a string every char is copied and only an unescaped quote ends it. */
  function StepFixed(w: FixedWriter, indent: seq<CodeUnit>, ch: CodeUnit): (r: Result<Outcome<FixedWriter>>)
    ensures w.inQuote ==> r.Ok? && r.value.out == [ch] && r.value.writer.level == w.level
  {
    if w.inQuote then
      if w.escaped then Ok(Outcome(w.(escaped := false), [ch]))
      else if ch == Backslash then Ok(Outcome(w.(escaped := true), [ch]))
      else if ch == Quote then Ok(Outcome(w.(inQuote := false), [ch]))
      else Ok(Outcome(w, [ch]))
    else if ch == Quote then Ok(Outcome(w.(inQuote := true, escaped := false), [ch]))
    else if ch == Space then Ok(Outcome(w, []))
    else if IsOpener(ch) then
      var nl :- NewLine(indent, w.level + 1);
      Ok(Outcome(w.(level := w.level + 1), [ch] + nl))
    else if IsCloser(ch) then
      var nl :- NewLine(indent, w.level - 1);
      Ok(Outcome(w.(level := w.level - 1), nl + [ch]))
    else if ch == Comma then
      var nl :- NewLine(indent, w.level);
      Ok(Outcome(w, [ch] + nl))
    else if ch == Colon then Ok(Outcome(w, [ch, Space]))
    else Ok(Outcome(w, [ch]))
  }

  function FixedStepper(indent: seq<CodeUnit>): (FixedWriter, CodeUnit) -> Result<Outcome<FixedWriter>> {
    (w: FixedWriter, ch: CodeUnit) => StepFixed(w, indent, ch)
  }

  function RunFixed(w: FixedWriter, indent: seq<CodeUnit>, s: seq<CodeUnit>): Result<Outcome<FixedWriter>> {
    Drive(FixedStepper(indent), w, s)
  }

  /** Inside a string, not after a backslash. */
  predicate InString(w: FixedWriter) { w.inQuote && !w.escaped }

  /** Inside a string, a char other than a quote or a backslash is copied. */
  lemma FixedCopy(w: FixedWriter, indent: seq<CodeUnit>, c: CodeUnit, t: seq<CodeUnit>)
    requires InString(w) && c != Quote && c != Backslash
    requires RunFixed(w, indent, t) == Ok(Outcome(w, t))
    ensures RunFixed(w, indent, [c] + t) == Ok(Outcome(w, [c] + t))
  {
    DriveCons(FixedStepper(indent), w, c, t);
  }

  /** Inside a string, a backslash and the char it escapes are copied. */
  lemma FixedPair(w: FixedWriter, indent: seq<CodeUnit>, c: CodeUnit, t: seq<CodeUnit>)
    requires InString(w)
    requires RunFixed(w, indent, t) == Ok(Outcome(w, t))
    ensures RunFixed(w, indent, [Backslash] + ([c] + t)) == Ok(Outcome(w, [Backslash] + ([c] + t)))
  {
    var we := w.(escaped := true);
    assert StepFixed(we, indent, c) == Ok(Outcome(w, [c]));
    DriveCons(FixedStepper(indent), we, c, t);
    assert StepFixed(w, indent, Backslash) == Ok(Outcome(we, [Backslash]));
    DriveCons(FixedStepper(indent), w, Backslash, [c] + t);
  }

  lemma HexCharPlain(d: nat)
    requires d < 16
    ensures HexChar(d) != Quote && HexChar(d) != Backslash
  {
  }

  /** One escape, read inside a string, is copied and leaves the writer inside the string. */
  lemma FixedEscapeChar(w: FixedWriter, indent: seq<CodeUnit>, c: CodeUnit)
    requires InString(w)
    ensures RunFixed(w, indent, EscapeChar(c)) == Ok(Outcome(w, EscapeChar(c)))
  {
    var e := EscapeChar(c);
    assert RunFixed(w, indent, []) == Ok(Outcome(w, []));
    if Unescaped(c) {
      FixedCopy(w, indent, c, []);
      assert e == [c] + [];
    } else if c == Quote || c == Backslash || c == 0x08 || c == 0x0C || c == 0x0A || c == 0x0D || c == 0x09 {
      FixedPair(w, indent, e[1], []);
      assert e == [Backslash] + ([e[1]] + []);
    } else {
      var h1, h2 := HexChar(c / 16), HexChar(c % 16);
      HexCharPlain(c / 16);
      HexCharPlain(c % 16);
      FixedCopy(w, indent, h2, []);
      assert [h2] + [] == [h2];
      FixedCopy(w, indent, h1, [h2]);
      assert [h1] + [h2] == [h1, h2];
      FixedCopy(w, indent, Zero, [h1, h2]);
      assert [Zero] + [h1, h2] == [Zero, h1, h2];
      FixedCopy(w, indent, Zero, [Zero, h1, h2]);
      assert [Zero] + [Zero, h1, h2] == [Zero, Zero, h1, h2];
      FixedPair(w, indent, 'u' as int, [Zero, Zero, h1, h2]);
      assert e == [Backslash] + (['u' as int] + [Zero, Zero, h1, h2]);
    }
  }

  /** The escaped content of a string is copied, and the writer stays inside the string. */
  lemma {:induction false} FixedEscape(w: FixedWriter, indent: seq<CodeUnit>, s: seq<CodeUnit>)
    requires InString(w)
    ensures RunFixed(w, indent, Escape(s)) == Ok(Outcome(w, Escape(s)))
    decreases |s|
  {
    if s == [] {
      assert Escape(s) == [];
    } else {
      var s', c := s[..|s| - 1], s[|s| - 1];
      FixedEscape(w, indent, s');
      EscapeSnoc(s', c);
      assert s' + [c] == s;
      DriveAppend(FixedStepper(indent), w, Escape(s'), EscapeChar(c));
      FixedEscapeChar(w, indent, c);
    }
  }

  /**
   * The corrected writer copies a whole string, as appendStr writes it,
   * unchanged and ends outside quotes at the level it started from.
   */
  lemma FixedKeepsStrings(w: FixedWriter, indent: seq<CodeUnit>, s: seq<CodeUnit>)
    requires !w.inQuote
    ensures RunFixed(w, indent, Quoted(s)) == Ok(Outcome(w.(escaped := false), Quoted(s)))
  {
    var step := FixedStepper(indent);
    var inside := w.(inQuote := true, escaped := false);
    var body := Escape(s) + [Quote];
    FixedEscape(inside, indent, s);
    DriveCons(step, inside, Quote, []);
    assert [Quote] + [] == [Quote];
    DriveAppend(step, inside, Escape(s), [Quote]);
    DriveCons(step, w, Quote, body);
    assert Quoted(s) == [Quote] + body;
  }

  /** The two writers' states agree outside quotes. */
  predicate SameOutside(w: Writer, f: FixedWriter) {
    !w.inQuote && !f.inQuote && w.level == f.level
  }

  /** Outside quotes, on a char other than a quote, the corrected writer does what the original does. */
  lemma FixedStepAgrees(w: Writer, f: FixedWriter, indent: seq<CodeUnit>, ch: CodeUnit)
    requires SameOutside(w, f) && ch != Quote
    ensures Step(w, indent, ch).Ok? <==> StepFixed(f, indent, ch).Ok?
    ensures Step(w, indent, ch).Ok? ==>
              Step(w, indent, ch).value.out == StepFixed(f, indent, ch).value.out
              && SameOutside(Step(w, indent, ch).value.writer, StepFixed(f, indent, ch).value.writer)
  {
  }

  /** On text without quotes the correction changes nothing: same exceptions, same output, same level. */
  lemma {:induction false} FixedAgrees(w: Writer, f: FixedWriter, indent: seq<CodeUnit>, s: seq<CodeUnit>)
    requires SameOutside(w, f) && Quote !in s
    ensures Run(w, indent, s).Ok? <==> RunFixed(f, indent, s).Ok?
    ensures Run(w, indent, s).Ok? ==>
              Run(w, indent, s).value.out == RunFixed(f, indent, s).value.out
              && SameOutside(Run(w, indent, s).value.writer, RunFixed(f, indent, s).value.writer)
    decreases |s|
  {
    if s != [] {
      assert s == [s[0]] + s[1..];
      DriveCons(Stepper(indent), w, s[0], s[1..]);
      DriveCons(FixedStepper(indent), f, s[0], s[1..]);
      FixedStepAgrees(w, f, indent, s[0]);
      if Step(w, indent, s[0]).Ok? {
        FixedAgrees(Step(w, indent, s[0]).value.writer, StepFixed(f, indent, s[0]).value.writer, indent, s[1..]);
      }
    }
  }

  // ------------------------------------------------------- layout round trip

  /** Where a char of JSON text stands: outside strings, or inside one (after an escaping backslash or not). */
  datatype Place = Outside | Inside(escaped: bool)

  /** The place after c, tracked the way the corrected writer tracks strings. */
  function NextPlace(p: Place, c: CodeUnit): Place {
    match p
    case Outside => if c == Quote then Inside(false) else Outside
    case Inside(escaped) =>
      if escaped then Inside(false)
      else if c == Backslash then Inside(true)
      else if c == Quote then Outside
      else Inside(false)
  }

  /** The place after the chars of s. */
  function PlaceAfter(p: Place, s: seq<CodeUnit>): Place
    decreases |s|
  {
    if s == [] then p else PlaceAfter(NextPlace(p, s[0]), s[1..])
  }

  /** The place a corrected writer's state stands at. */
  function PlaceOf(f: FixedWriter): Place {
    if f.inQuote then Inside(f.escaped) else Outside
  }

  /** s without the spaces that stand outside strings. */
  function DropOuterSpaces(p: Place, s: seq<CodeUnit>): (r: seq<CodeUnit>)
    ensures |r| <= |s|
    decreases |s|
  {
    if s == [] then []
    else (if p == Outside && s[0] == Space then [] else [s[0]]) + DropOuterSpaces(NextPlace(p, s[0]), s[1..])
  }

  /** Pretty-printed text without its layout: the spaces and line feeds outside strings removed. */
  function Unlayout(p: Place, s: seq<CodeUnit>): (r: seq<CodeUnit>)
    ensures |r| <= |s|
    decreases |s|
  {
    if s == [] then []
    else (if p == Outside && (s[0] == Space || s[0] == LF) then [] else [s[0]]) + Unlayout(NextPlace(p, s[0]), s[1..])
  }

  /** No line feed stands outside strings. */
  predicate NoOuterLF(p: Place, s: seq<CodeUnit>)
    decreases |s|
  {
    s == [] || (!(p == Outside && s[0] == LF) && NoOuterLF(NextPlace(p, s[0]), s[1..]))
  }

  /** Unlayout works through a concatenation, resuming at the place the first part ends at. */
  lemma {:induction false} UnlayoutAppend(p: Place, a: seq<CodeUnit>, b: seq<CodeUnit>)
    ensures Unlayout(p, a + b) == Unlayout(p, a) + Unlayout(PlaceAfter(p, a), b)
    ensures PlaceAfter(p, a + b) == PlaceAfter(PlaceAfter(p, a), b)
    decreases |a|
  {
    if a == [] {
      assert a + b == b;
    } else {
      assert (a + b)[0] == a[0] && (a + b)[1..] == a[1..] + b;
      UnlayoutAppend(NextPlace(p, a[0]), a[1..], b);
    }
  }

  /** Only spaces and line feeds. */
  predicate Blank(s: seq<CodeUnit>) {
    forall i | 0 <= i < |s| :: s[i] == Space || s[i] == LF
  }

  /** Blank text outside strings has no ink left and stays outside strings. */
  lemma {:induction false} BlankUnlayout(s: seq<CodeUnit>)
    requires Blank(s)
    ensures Unlayout(Outside, s) == [] && PlaceAfter(Outside, s) == Outside
    decreases |s|
  {
    if s != [] {
      assert Blank(s[1..]) by {
        forall i | 0 <= i < |s[1..]| ensures s[1..][i] == Space || s[1..][i] == LF {
          assert s[1..][i] == s[i + 1];
        }
      }
      BlankUnlayout(s[1..]);
    }
  }

  lemma {:induction false} BlankRepeat(indent: seq<CodeUnit>, n: int)
    requires Blank(indent)
    ensures Blank(Repeat(indent, n))
    decreases n
  {
    if n > 0 {
      BlankRepeat(indent, n - 1);
      var r := Repeat(indent, n);
      assert r == indent + Repeat(indent, n - 1);
      forall i | 0 <= i < |r| ensures r[i] == Space || r[i] == LF {
        if i >= |indent| {
          assert r[i] == Repeat(indent, n - 1)[i - |indent|];
        } else {
          assert r[i] == indent[i];
        }
      }
    }
  }

  /** A line break and its indentation are blank. */
  lemma BlankNewLine(indent: seq<CodeUnit>, level: int)
    requires Blank(indent) && level >= 0
    ensures Blank(NewLine(indent, level).value)
  {
    BlankRepeat(indent, level);
    var r := NewLine(indent, level).value;
    forall i | 0 <= i < |r| ensures r[i] == Space || r[i] == LF {
      if i > 0 {
        assert r[i] == Repeat(indent, level)[i - 1];
      }
    }
  }

  lemma UnlayoutSingle(p: Place, c: CodeUnit)
    ensures Unlayout(p, [c]) == (if p == Outside && (c == Space || c == LF) then [] else [c])
    ensures PlaceAfter(p, [c]) == NextPlace(p, c)
  {
    assert [c][1..] == [];
  }

  /** Outside strings, a char that is not layout and not a quote, then blank text: the char is what is left. */
  lemma UnlayoutLead(c: CodeUnit, nl: seq<CodeUnit>)
    requires c != Space && c != LF && c != Quote && Blank(nl)
    ensures Unlayout(Outside, [c] + nl) == [c] && PlaceAfter(Outside, [c] + nl) == Outside
  {
    BlankUnlayout(nl);
    UnlayoutSingle(Outside, c);
    UnlayoutAppend(Outside, [c], nl);
  }

  /** Outside strings, blank text and then such a char: the char is what is left. */
  lemma UnlayoutTrail(nl: seq<CodeUnit>, c: CodeUnit)
    requires c != Space && c != LF && c != Quote && Blank(nl)
    ensures Unlayout(Outside, nl + [c]) == [c] && PlaceAfter(Outside, nl + [c]) == Outside
  {
    BlankUnlayout(nl);
    UnlayoutSingle(Outside, c);
    UnlayoutAppend(Outside, nl, [c]);
  }

  /** Outside strings, a line break then a closer leaves the closer. */
  lemma CloserUnlayout(indent: seq<CodeUnit>, level: int, ch: CodeUnit, out: seq<CodeUnit>)
    requires Blank(indent) && level >= 1 && IsCloser(ch)
    requires out == NewLine(indent, level - 1).value + [ch]
    ensures Unlayout(Outside, out) == [ch] && PlaceAfter(Outside, out) == Outside
  {
    BlankNewLine(indent, level - 1);
    UnlayoutTrail(NewLine(indent, level - 1).value, ch);
  }

  /** Outside strings, a char that opens a line (an opener or a comma) then a line break leaves the char. */
  lemma LeadUnlayout(indent: seq<CodeUnit>, level: int, ch: CodeUnit, out: seq<CodeUnit>)
    requires Blank(indent) && level >= 0 && (IsOpener(ch) || ch == Comma)
    requires out == [ch] + NewLine(indent, level).value
    ensures Unlayout(Outside, out) == [ch] && PlaceAfter(Outside, out) == Outside
  {
    BlankNewLine(indent, level);
    UnlayoutLead(ch, NewLine(indent, level).value);
  }

  /** Outside strings, a colon and the space after it leave the colon. */
  lemma ColonUnlayout(ch: CodeUnit, out: seq<CodeUnit>)
    requires ch == Colon && out == [ch, Space]
    ensures Unlayout(Outside, out) == [ch] && PlaceAfter(Outside, out) == Outside
  {
    assert Blank([Space]);
    UnlayoutLead(ch, [Space]);
    assert [ch] + [Space] == out;
  }

  /** Outside strings, what the corrected writer writes for a layout char. */
  lemma StepLayoutOut(f: FixedWriter, indent: seq<CodeUnit>, ch: CodeUnit)
    requires !f.inQuote && (IsOpener(ch) || IsCloser(ch) || ch == Comma || ch == Colon)
    requires StepFixed(f, indent, ch).Ok?
    ensures !StepFixed(f, indent, ch).value.writer.inQuote
    ensures IsOpener(ch) ==> StepFixed(f, indent, ch).value.out == [ch] + NewLine(indent, f.level + 1).value
    ensures IsCloser(ch) ==> f.level >= 1 && StepFixed(f, indent, ch).value.out == NewLine(indent, f.level - 1).value + [ch]
    ensures ch == Comma ==> f.level >= 0 && StepFixed(f, indent, ch).value.out == [ch] + NewLine(indent, f.level).value
    ensures ch == Colon ==> StepFixed(f, indent, ch).value.out == [ch, Space]
  {
  }

  /** Outside strings, a closer is written after a line break at the level it closes to. */
  lemma StepCloser(f: FixedWriter, indent: seq<CodeUnit>, ch: CodeUnit)
    requires Blank(indent)
    requires !f.inQuote && IsCloser(ch) && StepFixed(f, indent, ch).Ok?
    ensures Unlayout(Outside, StepFixed(f, indent, ch).value.out) == [ch]
    ensures PlaceAfter(Outside, StepFixed(f, indent, ch).value.out) == Outside
  {
    StepLayoutOut(f, indent, ch);
    CloserUnlayout(indent, f.level, ch, StepFixed(f, indent, ch).value.out);
  }

  /** Outside strings, a layout char is written as itself followed or preceded by blank text. */
  lemma StepLayoutChar(f: FixedWriter, indent: seq<CodeUnit>, ch: CodeUnit)
    requires Blank(indent)
    requires !f.inQuote && (IsOpener(ch) || IsCloser(ch) || ch == Comma || ch == Colon)
    requires StepFixed(f, indent, ch).Ok?
    ensures var x := StepFixed(f, indent, ch).value;
      Unlayout(Outside, x.out) == [ch] && PlaceAfter(Outside, x.out) == Outside && !x.writer.inQuote
  {
    var out := StepFixed(f, indent, ch).value.out;
    StepLayoutOut(f, indent, ch);
    if IsOpener(ch) {
      LeadUnlayout(indent, f.level + 1, ch, out);
    } else if IsCloser(ch) {
      StepCloser(f, indent, ch);
    } else if ch == Comma {
      LeadUnlayout(indent, f.level, ch, out);
    } else {
      ColonUnlayout(ch, out);
    }
  }

  /** What one step of the corrected writer appends is its char, up to layout, and it moves the place as the char does. */
  lemma StepUnlayout(f: FixedWriter, indent: seq<CodeUnit>, ch: CodeUnit)
    requires Blank(indent)
    requires StepFixed(f, indent, ch).Ok?
    ensures var x := StepFixed(f, indent, ch).value;
      Unlayout(PlaceOf(f), x.out) == Unlayout(PlaceOf(f), [ch])
      && PlaceAfter(PlaceOf(f), x.out) == PlaceOf(x.writer) == NextPlace(PlaceOf(f), ch)
  {
    var x := StepFixed(f, indent, ch).value;
    UnlayoutSingle(PlaceOf(f), ch);
    if f.inQuote || ch == Quote || ch == Space {
    } else if IsOpener(ch) || IsCloser(ch) || ch == Comma || ch == Colon {
      StepLayoutChar(f, indent, ch);
    } else {
      assert x.out == [ch];
    }
  }

  /**
   * The corrected writer only adds and drops layout: its output, with the
   * spaces and line feeds outside strings removed, is its input with the
   * same removed, and it ends at the place its input ends at.
   */
  lemma {:induction false} RunUnlayout(f: FixedWriter, indent: seq<CodeUnit>, s: seq<CodeUnit>)
    requires Blank(indent)
    requires RunFixed(f, indent, s).Ok?
    ensures Unlayout(PlaceOf(f), RunFixed(f, indent, s).value.out) == Unlayout(PlaceOf(f), s)
    ensures PlaceOf(RunFixed(f, indent, s).value.writer) == PlaceAfter(PlaceOf(f), s)
    decreases |s|
  {
    if s != [] {
      assert s == [s[0]] + s[1..];
      DriveCons(FixedStepper(indent), f, s[0], s[1..]);
      var x := StepFixed(f, indent, s[0]).value;
      StepUnlayout(f, indent, s[0]);
      RunUnlayout(x.writer, indent, s[1..]);
      UnlayoutAppend(PlaceOf(f), x.out, RunFixed(x.writer, indent, s[1..]).value.out);
      UnlayoutAppend(PlaceOf(f), [s[0]], s[1..]);
    }
  }

  /** Without line feeds outside strings, removing the layout only removes the spaces outside strings. */
  lemma {:induction false} UnlayoutNoLF(p: Place, s: seq<CodeUnit>)
    requires NoOuterLF(p, s)
    ensures Unlayout(p, s) == DropOuterSpaces(p, s)
    decreases |s|
  {
    if s != [] {
      UnlayoutNoLF(NextPlace(p, s[0]), s[1..]);
    }
  }

  /** A fresh corrected writer. */
  const FixedStart: FixedWriter := FixedWriter(0, false, false)

  /**
   * The corrected writer's layout round trip: removing the line feeds, the
   * indentation and the spaces after colons it inserts gives back its input
   * without the spaces outside strings; strings come out char for char.
   */
  lemma FixedLayoutOnly(indent: seq<CodeUnit>, s: seq<CodeUnit>)
    requires Blank(indent)
    requires RunFixed(FixedStart, indent, s).Ok? && NoOuterLF(Outside, s)
    ensures Unlayout(Outside, RunFixed(FixedStart, indent, s).value.out) == DropOuterSpaces(Outside, s)
  {
    RunUnlayout(FixedStart, indent, s);
    UnlayoutNoLF(Outside, s);
  }

  /** No bracket and no backslash inside strings. */
  predicate PlainStrings(p: Place, s: seq<CodeUnit>)
    decreases |s|
  {
    s == [] ||
    ((p.Inside? ==> !IsOpener(s[0]) && !IsCloser(s[0]) && s[0] != Backslash)
     && PlainStrings(NextPlace(p, s[0]), s[1..]))
  }

  /** The original and the corrected writer in step: same level and place, and no backslash before a quote inside a string. */
  predicate InStep(w: Writer, f: FixedWriter) {
    w.level == f.level && w.inQuote == f.inQuote && (f.inQuote ==> !f.escaped && w.prev != Backslash)
  }

  /** On a char a plain string allows, the two writers do the same. */
  lemma StepInStep(w: Writer, f: FixedWriter, indent: seq<CodeUnit>, ch: CodeUnit)
    requires InStep(w, f)
    requires f.inQuote ==> !IsOpener(ch) && !IsCloser(ch) && ch != Backslash
    ensures Step(w, indent, ch).Ok? <==> StepFixed(f, indent, ch).Ok?
    ensures Step(w, indent, ch).Ok? ==>
              Step(w, indent, ch).value.out == StepFixed(f, indent, ch).value.out
              && InStep(Step(w, indent, ch).value.writer, StepFixed(f, indent, ch).value.writer)
              && PlaceOf(StepFixed(f, indent, ch).value.writer) == NextPlace(PlaceOf(f), ch)
  {
  }

  /** On text whose strings hold no bracket and no backslash, the writer as written is the corrected one. */
  lemma {:induction false} RunInStep(w: Writer, f: FixedWriter, indent: seq<CodeUnit>, s: seq<CodeUnit>)
    requires InStep(w, f) && PlainStrings(PlaceOf(f), s)
    ensures Run(w, indent, s).Ok? <==> RunFixed(f, indent, s).Ok?
    ensures Run(w, indent, s).Ok? ==> Run(w, indent, s).value.out == RunFixed(f, indent, s).value.out
    decreases |s|
  {
    if s != [] {
      assert s == [s[0]] + s[1..];
      DriveCons(Stepper(indent), w, s[0], s[1..]);
      DriveCons(FixedStepper(indent), f, s[0], s[1..]);
      StepInStep(w, f, indent, s[0]);
      if Step(w, indent, s[0]).Ok? {
        RunInStep(Step(w, indent, s[0]).value.writer, StepFixed(f, indent, s[0]).value.writer, indent, s[1..]);
      }
    }
  }

  /**
   * The writer as written has the layout round trip on text whose strings hold
   * no bracket and no backslash (BracketInString and EscapedBackslash show it
   * failing otherwise).
   */
  lemma LayoutOnly(indent: seq<CodeUnit>, s: seq<CodeUnit>)
    requires Blank(indent)
    requires Run(Start, indent, s).Ok? && NoOuterLF(Outside, s) && PlainStrings(Outside, s)
    ensures Unlayout(Outside, Run(Start, indent, s).value.out) == DropOuterSpaces(Outside, s)
  {
    RunInStep(Start, FixedStart, indent, s);
    FixedLayoutOnly(indent, s);
  }

  // -------------------------------------------------------------------- class

  /** JsonPrettyWriter over a peer whose contents are `peer`. */
  class JsonPrettyWriter {
    var peer: seq<CodeUnit>
    const indent: seq<CodeUnit>
    var level: int
    var inQuote: bool
    var prev: CodeUnit

    function State(): Writer
      reads this
    {
      Writer(level, inQuote, prev)
    }

    /** JsonPrettyWriter(peer, indent), with the indent string already built. */
    constructor (peer0: seq<CodeUnit>, indent: seq<CodeUnit>)
      ensures peer == peer0 && this.indent == indent && State() == Start
    {
      peer, this.indent := peer0, indent;
      level, inQuote, prev := 0, false, 0;
    }

    /**
     * appendInternal(ch). When indent.repeat throws, the line feed before it
     * has already been appended and the level already moved.
     */
    method AppendInternal(ch: CodeUnit) returns (r: Result<()>)
      modifies this
      ensures Step(old(State()), indent, ch).Ok? ==>
                r.Ok? && State() == Step(old(State()), indent, ch).value.writer
                && peer == old(peer) + Step(old(State()), indent, ch).value.out
      ensures Step(old(State()), indent, ch).Err? ==>
                r == Err(IllegalArgument) && level == old(level) + Delta(ch)
                && inQuote == old(inQuote) && prev == old(prev)
                && peer == old(peer) + (if IsCloser(ch) then [LF] else [ch, LF])
    {
      if ch == Quote {
        if !inQuote || prev != Backslash {
          inQuote := !inQuote;
        }
        peer := peer + [ch];
      } else if ch == Space {
        if inQuote {
          peer := peer + [ch];
        }
      } else if IsOpener(ch) {
        peer := peer + [ch];
        level := level + 1;
        r := BreakLine();
        if r.Err? {
          return;
        }
      } else if IsCloser(ch) {
        level := level - 1;
        r := BreakLine();
        if r.Err? {
          return;
        }
        peer := peer + [ch];
      } else if ch == Comma {
        peer := peer + [ch];
        if !inQuote {
          r := BreakLine();
          if r.Err? {
            return;
          }
        }
      } else if ch == Colon {
        peer := peer + [ch];
        if !inQuote {
          peer := peer + [Space];
        }
      } else {
        peer := peer + [ch];
      }
      prev := ch;
      r := Ok(());
    }

    /** `peer.append('\n').append(indent.repeat(level))`: the repeat throws after the line feed is appended. */
    method BreakLine() returns (r: Result<()>)
      modifies this`peer
      ensures NewLine(indent, level).Ok? ==> r.Ok? && peer == old(peer) + NewLine(indent, level).value
      ensures NewLine(indent, level).Err? ==> r == Err(IllegalArgument) && peer == old(peer) + [LF]
    {
      peer := peer + [LF];
      if level < 0 {
        return Err(IllegalArgument);
      }
      peer := peer + Repeat(indent, level);
      r := Ok(());
    }

    /** append(csq, start, end): append(csq.charAt(i)) for each i in start .. end-1. */
    method AppendRange(csq: seq<CodeUnit>, start: int, end: int) returns (r: Result<()>)
      modifies this
      ensures RangeRun(old(State()), indent, csq, start, end).Ok? ==>
                r.Ok? && State() == RangeRun(old(State()), indent, csq, start, end).value.writer
                && peer == old(peer) + RangeRun(old(State()), indent, csq, start, end).value.out
      ensures RangeRun(old(State()), indent, csq, start, end).Err? ==>
                r == Err(RangeRun(old(State()), indent, csq, start, end).failure)
    {
      ghost var w0 := State();
      var i := start;
      while i < end
        invariant start <= i && (i > start ==> 0 <= start && i <= end && i <= |csq|)
        invariant i == start ==> State() == w0 && peer == old(peer)
        invariant i > start ==> Run(w0, indent, csq[start..i]).Ok?
                                && State() == Run(w0, indent, csq[start..i]).value.writer
                                && peer == old(peer) + Run(w0, indent, csq[start..i]).value.out
      {
        if i < 0 || i >= |csq| {
          if i > start {
            RangeAtEnd(w0, indent, csq, start, end);
          }
          return Err(IndexOutOfBounds);
        }
        if i == start {
          assert csq[start..i] == [];
        }
        RangeStep(w0, indent, csq, start, i);
        var step := AppendInternal(csq[i]);
        if step.Err? {
          RangeStepErr(w0, indent, csq, start, end, i);
          return step;
        }
        i := i + 1;
      }
      if i > start {
        RangeDone(w0, indent, csq, start, end);
      }
      r := Ok(());
    }

    /** append(csq): append(csq, 0, csq.length()). */
    method Append(csq: seq<CodeUnit>) returns (r: Result<()>)
      modifies this
      ensures Run(old(State()), indent, csq).Ok? ==>
                r.Ok? && State() == Run(old(State()), indent, csq).value.writer
                && peer == old(peer) + Run(old(State()), indent, csq).value.out
      ensures Run(old(State()), indent, csq).Err? ==> r == Err(Run(old(State()), indent, csq).failure)
    {
      RangeWhole(State(), indent, csq);
      r := AppendRange(csq, 0, |csq|);
    }
  }

  /** toPrettyString(csq, indent). */
  method ToPrettyString(csq: seq<CodeUnit>, size: int) returns (r: Result<seq<CodeUnit>>)
    ensures r == PrettyString(csq, size)
  {
    var indent := IndentOf(size);
    if indent.Err? {
      return Err(indent.failure);
    }
    var writer := new JsonPrettyWriter([], indent.value);
    assert writer.State() == Start;
    var done := writer.Append(csq);
    if done.Err? {
      assert Run(Start, indent.value, csq).Err?;
      return Err(done.failure);
    }
    assert writer.peer == Run(Start, indent.value, csq).value.out;
    r := Ok(writer.peer);
  }
}
