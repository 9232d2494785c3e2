/**
 * What JsonPrettyWriter makes of a whole JSON document written compactly, the
 * way StringifyBuilder writes it: every member and element on its own line,
 * indented by its depth, with a space after each colon. Doc is the document,
 * Compact the text fed to the writer and Pretty the indented text it appends;
 * the writer as written is proved to turn the one into the other when no
 * string holds a bracket or a backslash.
 */
module PrettyLayouts {
  import opened Wrappers
  import opened JavaText
  import opened StringifyBuilders
  import opened PrettyWriters

  const OpenBrace: CodeUnit := '{' as int
  const CloseBrace: CodeUnit := '}' as int
  const OpenBracket: CodeUnit := '[' as int
  const CloseBracket: CodeUnit := ']' as int

  /** A JSON document: a string, a number or literal as its text, an array, or an object with its members in order. */
  datatype Doc =
    | DStr(chars: seq<CodeUnit>)
    | DLit(text: seq<CodeUnit>)
    | DArr(items: seq<Doc>)
    | DObj(members: seq<Member>)

  datatype Member = Member(name: seq<CodeUnit>, value: Doc)

  // --------------------------------------------------------- the two texts

  /** The document written compactly: no spaces, commas between items, a colon after each name. */
  function Compact(d: Doc): seq<CodeUnit> {
    match d
    case DStr(s) => Quoted(s)
    case DLit(t) => t
    case DArr(items) => [OpenBracket] + CompactItems(items) + [CloseBracket]
    case DObj(ms) => [OpenBrace] + CompactMembers(ms) + [CloseBrace]
  }

  function CompactItems(items: seq<Doc>): seq<CodeUnit> {
    if items == [] then []
    else if |items| == 1 then Compact(items[0])
    else Compact(items[0]) + [Comma] + CompactItems(items[1..])
  }

  function CompactMember(m: Member): seq<CodeUnit> {
    Quoted(m.name) + [Colon] + Compact(m.value)
  }

  function CompactMembers(ms: seq<Member>): seq<CodeUnit> {
    if ms == [] then []
    else if |ms| == 1 then CompactMember(ms[0])
    else CompactMember(ms[0]) + [Comma] + CompactMembers(ms[1..])
  }

  /** A line feed, then the indent once per level. */
  function Break(indent: seq<CodeUnit>, level: nat): seq<CodeUnit> {
    [LF] + Repeat(indent, level)
  }

  /**
   * The document laid out at a nesting level: a structure opens its line,
   * puts each item on a line of its own one level deeper, and closes on a
   * line at its own level.
   */
  function Pretty(indent: seq<CodeUnit>, d: Doc, level: nat): seq<CodeUnit> {
    match d
    case DStr(s) => Quoted(s)
    case DLit(t) => t
    case DArr(items) =>
      [OpenBracket] + Break(indent, level + 1) + PrettyItems(indent, items, level + 1) + Break(indent, level) + [CloseBracket]
    case DObj(ms) =>
      [OpenBrace] + Break(indent, level + 1) + PrettyMembers(indent, ms, level + 1) + Break(indent, level) + [CloseBrace]
  }

  function PrettyItems(indent: seq<CodeUnit>, items: seq<Doc>, level: nat): seq<CodeUnit> {
    if items == [] then []
    else if |items| == 1 then Pretty(indent, items[0], level)
    else Pretty(indent, items[0], level) + [Comma] + Break(indent, level) + PrettyItems(indent, items[1..], level)
  }

  function PrettyMember(indent: seq<CodeUnit>, m: Member, level: nat): seq<CodeUnit> {
    Quoted(m.name) + [Colon, Space] + Pretty(indent, m.value, level)
  }

  function PrettyMembers(indent: seq<CodeUnit>, ms: seq<Member>, level: nat): seq<CodeUnit> {
    if ms == [] then []
    else if |ms| == 1 then PrettyMember(indent, ms[0], level)
    else PrettyMember(indent, ms[0], level) + [Comma] + Break(indent, level) + PrettyMembers(indent, ms[1..], level)
  }

  // ------------------------------------------------------ what is written

  /** String content the writer as written copies: no bracket and no backslash. */
  predicate PlainText(s: seq<CodeUnit>) {
    forall i | 0 <= i < |s| :: !IsOpener(s[i]) && !IsCloser(s[i]) && s[i] != Backslash
  }

  /** A number or literal: none of the chars the writer lays out or that open a string. */
  predicate PlainLiteral(t: seq<CodeUnit>) {
    forall i | 0 <= i < |t| ::
      t[i] != Quote && t[i] != Space && !IsOpener(t[i]) && !IsCloser(t[i]) && t[i] != Comma && t[i] != Colon
  }

  /** Every string and name of the document is plain text, and every literal a plain literal. */
  predicate Plain(d: Doc) {
    match d
    case DStr(s) => PlainText(s)
    case DLit(t) => PlainLiteral(t)
    case DArr(items) => forall i | 0 <= i < |items| :: Plain(items[i])
    case DObj(ms) => forall i | 0 <= i < |ms| :: PlainText(ms[i].name) && Plain(ms[i].value)
  }

  // ------------------------------------------------------- the writer runs

  /** From w, the chars of s append out and leave the writer outside quotes at the given level. */
  predicate Lays(w: Writer, indent: seq<CodeUnit>, s: seq<CodeUnit>, out: seq<CodeUnit>, level: int) {
    Run(w, indent, s).Ok? && Run(w, indent, s).value.out == out
    && !Run(w, indent, s).value.writer.inQuote && Run(w, indent, s).value.writer.level == level
  }

  /** Laying out a + b is laying out a, then b from where a left the writer. */
  lemma LaysAppend(w: Writer, indent: seq<CodeUnit>, a: seq<CodeUnit>, oa: seq<CodeUnit>, la: int,
                   b: seq<CodeUnit>, ob: seq<CodeUnit>, lb: int)
    requires Lays(w, indent, a, oa, la)
    requires Lays(Run(w, indent, a).value.writer, indent, b, ob, lb)
    ensures Lays(w, indent, a + b, oa + ob, lb)
  {
    DriveAppend(Stepper(indent), w, a, b);
  }

  lemma NewLineBreak(indent: seq<CodeUnit>, level: nat)
    ensures NewLine(indent, level) == Ok(Break(indent, level))
  {
  }

  /** Outside quotes an opener breaks the line one level deeper. */
  lemma LaysOpen(w: Writer, indent: seq<CodeUnit>, o: CodeUnit)
    requires !w.inQuote && w.level >= 0 && IsOpener(o)
    ensures Lays(w, indent, [o], [o] + Break(indent, w.level + 1), w.level + 1)
  {
    RunOne(w, indent, o);
    NewLineBreak(indent, w.level + 1);
  }

  /** Outside quotes a closer goes on a new line one level up. */
  lemma LaysClose(w: Writer, indent: seq<CodeUnit>, c: CodeUnit)
    requires !w.inQuote && w.level >= 1 && IsCloser(c)
    ensures Lays(w, indent, [c], Break(indent, w.level - 1) + [c], w.level - 1)
  {
    RunOne(w, indent, c);
    NewLineBreak(indent, w.level - 1);
  }

  /** Outside quotes a comma breaks the line at the same level. */
  lemma LaysComma(w: Writer, indent: seq<CodeUnit>)
    requires !w.inQuote && w.level >= 0
    ensures Lays(w, indent, [Comma], [Comma] + Break(indent, w.level), w.level)
  {
    RunOne(w, indent, Comma);
    NewLineBreak(indent, w.level);
  }

  /** Outside quotes a colon gets a space after it. */
  lemma LaysColon(w: Writer, indent: seq<CodeUnit>)
    requires !w.inQuote
    ensures Lays(w, indent, [Colon], [Colon, Space], w.level)
  {
    RunOne(w, indent, Colon);
  }

  /** A plain literal is copied. */
  lemma {:induction false} LaysLiteral(w: Writer, indent: seq<CodeUnit>, t: seq<CodeUnit>)
    requires !w.inQuote && PlainLiteral(t)
    ensures Lays(w, indent, t, t, w.level)
    decreases |t|
  {
    if t != [] {
      assert t == [t[0]] + t[1..];
      DriveCons(Stepper(indent), w, t[0], t[1..]);
      var x := Step(w, indent, t[0]).value;
      assert x == Outcome(w.(prev := t[0]), [t[0]]);
      assert PlainLiteral(t[1..]) by {
        forall i | 0 <= i < |t[1..]| ensures t[1..][i] == t[i + 1] { }
      }
      LaysLiteral(x.writer, indent, t[1..]);
    }
  }

  // ------------------------------------------------------------- strings

  /**
   * Inside quotes, s holds no bracket, and each quote in it comes right
   * after a backslash (the char before s being prev).
   */
  predicate QuoteSafe(prev: CodeUnit, s: seq<CodeUnit>)
    decreases |s|
  {
    s == [] ||
    (!IsOpener(s[0]) && !IsCloser(s[0]) && (s[0] == Quote ==> prev == Backslash) && QuoteSafe(s[0], s[1..]))
  }

  /** The last char of s, or prev when s is empty. */
  function LastOr(prev: CodeUnit, s: seq<CodeUnit>): CodeUnit {
    if s == [] then prev else s[|s| - 1]
  }

  /** Inside quotes, quote-safe text is copied and the writer stays inside quotes. */
  lemma {:induction false} QuotingRun(w: Writer, indent: seq<CodeUnit>, s: seq<CodeUnit>)
    requires w.inQuote && QuoteSafe(w.prev, s)
    ensures Run(w, indent, s) == Ok(Outcome(w.(prev := LastOr(w.prev, s)), s))
    decreases |s|
  {
    if s != [] {
      assert s == [s[0]] + s[1..];
      DriveCons(Stepper(indent), w, s[0], s[1..]);
      assert Step(w, indent, s[0]) == Ok(Outcome(w.(prev := s[0]), [s[0]]));
      QuotingRun(w.(prev := s[0]), indent, s[1..]);
      assert LastOr(s[0], s[1..]) == LastOr(w.prev, s);
    }
  }

  /** The escape of a char that is no bracket and no backslash is quote-safe and does not end in a backslash. */
  lemma EscapeCharSafe(prev: CodeUnit, c: CodeUnit)
    requires prev != Backslash && !IsOpener(c) && !IsCloser(c) && c != Backslash
    ensures QuoteSafe(prev, EscapeChar(c)) && LastOr(prev, EscapeChar(c)) != Backslash
  {
    var e := EscapeChar(c);
    if Unescaped(c) {
      assert e == [c] && e[1..] == [];
    } else if |e| == 2 {
      assert e[1..] == [e[1]] && e[1..][1..] == [];
    } else {
      var h1, h2 := HexChar(c / 16), HexChar(c % 16);
      assert e == [Backslash, 'u' as int, Zero, Zero, h1, h2];
      assert QuoteSafe(h1, [h2]) by { assert [h2][1..] == []; }
      assert QuoteSafe(Zero, [h1, h2]) by { assert [h1, h2][1..] == [h2]; }
      assert QuoteSafe(Zero, [Zero, h1, h2]) by { assert [Zero, h1, h2][1..] == [h1, h2]; }
      assert QuoteSafe('u' as int, [Zero, Zero, h1, h2]) by { assert [Zero, Zero, h1, h2][1..] == [Zero, h1, h2]; }
      assert QuoteSafe(Backslash, e[1..]) by { assert e[1..] == ['u' as int, Zero, Zero, h1, h2]; }
    }
  }

  /** Inside quotes after a char other than a backslash. */
  predicate Quoting(w: Writer) {
    w.inQuote && w.prev != Backslash
  }

  /** Inside quotes, the escaped plain text is copied. */
  lemma {:induction false} QuotingEscape(w: Writer, indent: seq<CodeUnit>, s: seq<CodeUnit>)
    requires Quoting(w) && PlainText(s)
    ensures Run(w, indent, Escape(s)).Ok? && Run(w, indent, Escape(s)).value.out == Escape(s)
    ensures Quoting(Run(w, indent, Escape(s)).value.writer) && Run(w, indent, Escape(s)).value.writer.level == w.level
    decreases |s|
  {
    if s == [] {
      assert Escape(s) == [];
    } else {
      var s', c := s[..|s| - 1], s[|s| - 1];
      assert s' + [c] == s;
      assert PlainText(s') by {
        forall i | 0 <= i < |s'| ensures s'[i] == s[i] { }
      }
      QuotingEscape(w, indent, s');
      EscapeSnoc(s', c);
      var x := Run(w, indent, Escape(s')).value;
      EscapeCharSafe(x.writer.prev, c);
      QuotingRun(x.writer, indent, EscapeChar(c));
      DriveAppend(Stepper(indent), w, Escape(s'), EscapeChar(c));
    }
  }

  /** A string whose content is plain text is copied, quotes and escapes included. */
  lemma LaysString(w: Writer, indent: seq<CodeUnit>, s: seq<CodeUnit>)
    requires !w.inQuote && PlainText(s)
    ensures Lays(w, indent, Quoted(s), Quoted(s), w.level)
  {
    var inside := w.(inQuote := true, prev := Quote);
    RunOne(w, indent, Quote);
    assert Run(w, indent, [Quote]) == Ok(Outcome(inside, [Quote]));
    QuotingEscape(inside, indent, s);
    var x := Run(inside, indent, Escape(s)).value;
    RunOne(x.writer, indent, Quote);
    DriveAppend(Stepper(indent), w, [Quote], Escape(s));
    DriveAppend(Stepper(indent), w, [Quote] + Escape(s), [Quote]);
  }

  // ----------------------------------------------------------- documents

  /** The writer as written turns a plain document written compactly into its layout at the writer's level. */
  lemma {:induction false} LaysDoc(w: Writer, indent: seq<CodeUnit>, d: Doc)
    requires !w.inQuote && w.level >= 0 && Plain(d)
    ensures Lays(w, indent, Compact(d), Pretty(indent, d, w.level), w.level)
    decreases d, 1
  {
    match d
    case DStr(s) => LaysString(w, indent, s);
    case DLit(t) => LaysLiteral(w, indent, t);
    case DArr(items) => LaysArray(w, indent, items);
    case DObj(ms) => LaysObject(w, indent, ms);
  }

  /** An array: its bracket, its items one level deeper, one per line, then the closing bracket on a line of its own. */
  lemma {:induction false} LaysArray(w: Writer, indent: seq<CodeUnit>, items: seq<Doc>)
    requires !w.inQuote && w.level >= 0 && forall i | 0 <= i < |items| :: Plain(items[i])
    ensures Lays(w, indent, [OpenBracket] + CompactItems(items) + [CloseBracket],
                 [OpenBracket] + Break(indent, w.level + 1) + PrettyItems(indent, items, w.level + 1)
                 + Break(indent, w.level) + [CloseBracket], w.level)
    decreases items, 1
  {
    LaysOpen(w, indent, OpenBracket);
    LaysItems(Run(w, indent, [OpenBracket]).value.writer, indent, items);
    LaysStructure(w, indent, OpenBracket, CloseBracket, CompactItems(items), PrettyItems(indent, items, w.level + 1));
  }

  /** An object: its brace, its members one level deeper, one per line, then the closing brace on a line of its own. */
  lemma {:induction false} LaysObject(w: Writer, indent: seq<CodeUnit>, ms: seq<Member>)
    requires !w.inQuote && w.level >= 0 && forall i | 0 <= i < |ms| :: PlainText(ms[i].name) && Plain(ms[i].value)
    ensures Lays(w, indent, [OpenBrace] + CompactMembers(ms) + [CloseBrace],
                 [OpenBrace] + Break(indent, w.level + 1) + PrettyMembers(indent, ms, w.level + 1)
                 + Break(indent, w.level) + [CloseBrace], w.level)
    decreases ms, 1
  {
    LaysOpen(w, indent, OpenBrace);
    LaysMembers(Run(w, indent, [OpenBrace]).value.writer, indent, ms);
    LaysStructure(w, indent, OpenBrace, CloseBrace, CompactMembers(ms), PrettyMembers(indent, ms, w.level + 1));
  }

  /** An opener, content laid out one level deeper, then the closer. */
  lemma LaysStructure(w: Writer, indent: seq<CodeUnit>, o: CodeUnit, c: CodeUnit, inner: seq<CodeUnit>, out: seq<CodeUnit>)
    requires !w.inQuote && w.level >= 0 && IsOpener(o) && IsCloser(c)
    requires Lays(w, indent, [o], [o] + Break(indent, w.level + 1), w.level + 1)
    requires Lays(Run(w, indent, [o]).value.writer, indent, inner, out, w.level + 1)
    ensures Lays(w, indent, [o] + inner + [c], [o] + Break(indent, w.level + 1) + out + Break(indent, w.level) + [c], w.level)
  {
    LaysAppend(w, indent, [o], [o] + Break(indent, w.level + 1), w.level + 1, inner, out, w.level + 1);
    var y := Run(w, indent, [o] + inner).value.writer;
    LaysClose(y, indent, c);
    LaysAppend(w, indent, [o] + inner, [o] + Break(indent, w.level + 1) + out, w.level + 1,
               [c], Break(indent, w.level) + [c], w.level);
  }

  /** A comma and its line break, then the rest at the same level. */
  lemma LaysSeparated(w: Writer, indent: seq<CodeUnit>, first: seq<CodeUnit>, out1: seq<CodeUnit>,
                      rest: seq<CodeUnit>, out2: seq<CodeUnit>)
    requires !w.inQuote && w.level >= 0
    requires Lays(w, indent, first, out1, w.level)
    requires Lays(Run(w, indent, first).value.writer.(prev := Comma), indent, rest, out2, w.level)
    ensures Lays(w, indent, first + [Comma] + rest, out1 + [Comma] + Break(indent, w.level) + out2, w.level)
  {
    var x := Run(w, indent, first).value.writer;
    LaysComma(x, indent);
    RunOne(x, indent, Comma);
    LaysAppend(w, indent, first, out1, w.level, [Comma], [Comma] + Break(indent, w.level), w.level);
    DriveAppend(Stepper(indent), w, first, [Comma]);
    LaysAppend(w, indent, first + [Comma], out1 + ([Comma] + Break(indent, w.level)), w.level, rest, out2, w.level);
    assert out1 + ([Comma] + Break(indent, w.level)) + out2 == out1 + [Comma] + Break(indent, w.level) + out2;
  }

  lemma {:induction false} LaysItems(w: Writer, indent: seq<CodeUnit>, items: seq<Doc>)
    requires !w.inQuote && w.level >= 0 && forall i | 0 <= i < |items| :: Plain(items[i])
    ensures Lays(w, indent, CompactItems(items), PrettyItems(indent, items, w.level), w.level)
    decreases items, 0
  {
    if items == [] {
    } else if |items| == 1 {
      LaysDoc(w, indent, items[0]);
    } else {
      LaysDoc(w, indent, items[0]);
      var x := Run(w, indent, Compact(items[0])).value.writer;
      LaysItems(x.(prev := Comma), indent, items[1..]);
      LaysSeparated(w, indent, Compact(items[0]), Pretty(indent, items[0], w.level),
                    CompactItems(items[1..]), PrettyItems(indent, items[1..], w.level));
    }
  }

  /** One member: its quoted name, the colon and its space, then its value. */
  lemma LaysMember(w: Writer, indent: seq<CodeUnit>, m: Member)
    requires !w.inQuote && w.level >= 0 && PlainText(m.name) && Plain(m.value)
    ensures Lays(w, indent, CompactMember(m), PrettyMember(indent, m, w.level), w.level)
    decreases m, 2
  {
    LaysString(w, indent, m.name);
    LaysColon(Run(w, indent, Quoted(m.name)).value.writer, indent);
    LaysAppend(w, indent, Quoted(m.name), Quoted(m.name), w.level, [Colon], [Colon, Space], w.level);
    LaysDoc(Run(w, indent, Quoted(m.name) + [Colon]).value.writer, indent, m.value);
    LaysAppend(w, indent, Quoted(m.name) + [Colon], Quoted(m.name) + [Colon, Space], w.level,
               Compact(m.value), Pretty(indent, m.value, w.level), w.level);
  }

  lemma {:induction false} LaysMembers(w: Writer, indent: seq<CodeUnit>, ms: seq<Member>)
    requires !w.inQuote && w.level >= 0 && forall i | 0 <= i < |ms| :: PlainText(ms[i].name) && Plain(ms[i].value)
    ensures Lays(w, indent, CompactMembers(ms), PrettyMembers(indent, ms, w.level), w.level)
    decreases ms, 0
  {
    if ms == [] {
    } else if |ms| == 1 {
      LaysMember(w, indent, ms[0]);
    } else {
      LaysMember(w, indent, ms[0]);
      var x := Run(w, indent, CompactMember(ms[0])).value.writer;
      LaysMembers(x.(prev := Comma), indent, ms[1..]);
      LaysSeparated(w, indent, CompactMember(ms[0]), PrettyMember(indent, ms[0], w.level),
                    CompactMembers(ms[1..]), PrettyMembers(indent, ms[1..], w.level));
    }
  }

  /**
   * toPrettyString of a plain document written compactly is its layout at
   * level 0, with the indent size in spaces.
   */
  lemma PrettyStringOf(d: Doc, size: nat)
    requires Plain(d)
    ensures PrettyString(Compact(d), size) == Ok(Pretty(Spaces(size), d, 0))
  {
    LaysDoc(Start, Spaces(size), d);
  }
}
