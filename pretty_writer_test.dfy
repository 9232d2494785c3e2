/**
 * testPrettyString of JsonPrettyWriterTest: its input, the text it expects,
 * and the proof that toPrettyString turns the one into the other. The
 * texts are cut into their tokens, the document's layout is cut into the
 * same tokens, and the two are regrouped.
 */
module PrettyWriterTestCase {
  import opened Wrappers
  import opened JavaText
  import opened StringifyBuilders
  import opened PrettyWriters
  import opened PrettyLayouts

  /** A JSON string whose content is the code units of s. */
  function Str(s: string): Doc
    requires forall i | 0 <= i < |s| :: s[i] as int < 0x1_0000
  {
    DStr(Units(s))
  }

  /** The document of testPrettyString. */
  function TestDoc(): Doc {
    DObj([
      Member(Units("str"), Str("a\",1")),
      Member(Units("obj"), DObj([Member(Units("n1"), Str("v1")), Member(Units("n2"), Str("v2"))])),
      Member(Units("list1"), DArr([Str("11"), Str("12")])),
      Member(Units("list2"), DArr([Str("21"), Str("22")]))
    ])
  }

  /** testPrettyString's input: a single line, written here in eight pieces. */
  const TestInput: seq<CodeUnit> :=
    Units("{\"str\":\"a\\\",1\",")
    + Units("\"obj\":{") + Units("\"n1\":\"v1\",") + Units("\"n2\":\"v2\"},")
    + Units("\"list1\":[") + Units("\"11\",\"12\"],")
    + Units("\"list2\":[") + Units("\"21\",\"22\"]}")

  /** The text testPrettyString expects, line by line; the last line has no line feed. */
  const TestExpected: seq<CodeUnit> :=
    Line1 + Line2 + Line3 + Line4 + Line5 + Line6 + Line7 + Line8 + Line9 + Line10 + Line11 + Line12 + Line13 + Line14 + Line15

  const Line1: seq<CodeUnit> := Units("{\n")
  const Line2: seq<CodeUnit> := Units("  \"str\": \"a\\\",1\",\n")
  const Line3: seq<CodeUnit> := Units("  \"obj\": {\n")
  const Line4: seq<CodeUnit> := Units("    \"n1\": \"v1\",\n")
  const Line5: seq<CodeUnit> := Units("    \"n2\": \"v2\"\n")
  const Line6: seq<CodeUnit> := Units("  },\n")
  const Line7: seq<CodeUnit> := Units("  \"list1\": [\n")
  const Line8: seq<CodeUnit> := Units("    \"11\",\n")
  const Line9: seq<CodeUnit> := Units("    \"12\"\n")
  const Line10: seq<CodeUnit> := Units("  ],\n")
  const Line11: seq<CodeUnit> := Units("  \"list2\": [\n")
  const Line12: seq<CodeUnit> := Units("    \"21\",\n")
  const Line13: seq<CodeUnit> := Units("    \"22\"\n")
  const Line14: seq<CodeUnit> := Units("  ]\n")
  const Line15: seq<CodeUnit> := Units("}")

  /** toPrettyString's default indent: two spaces. */
  const Indent: seq<CodeUnit> := Spaces(2)

  /** The margins of the lines at levels one and two. */
  const Margin1: seq<CodeUnit> := Units("  ")
  const Margin2: seq<CodeUnit> := Units("    ")

  // ------------------------------------------------------------ the tokens

  /** The quoted names and string values of the document. */
  const QStr: seq<CodeUnit> := Quoted(Units("str"))
  const QA: seq<CodeUnit> := Quoted(Units("a\",1"))
  const QObj: seq<CodeUnit> := Quoted(Units("obj"))
  const QN1: seq<CodeUnit> := Quoted(Units("n1"))
  const QV1: seq<CodeUnit> := Quoted(Units("v1"))
  const QN2: seq<CodeUnit> := Quoted(Units("n2"))
  const QV2: seq<CodeUnit> := Quoted(Units("v2"))
  const QList1: seq<CodeUnit> := Quoted(Units("list1"))
  const Q11: seq<CodeUnit> := Quoted(Units("11"))
  const Q12: seq<CodeUnit> := Quoted(Units("12"))
  const QList2: seq<CodeUnit> := Quoted(Units("list2"))
  const Q21: seq<CodeUnit> := Quoted(Units("21"))
  const Q22: seq<CodeUnit> := Quoted(Units("22"))

  /** A name or string content without chars to escape is written between quotes as it is. */
  lemma QuotedPlain(s: string)
    requires forall i | 0 <= i < |s| :: 0x20 <= s[i] as int < 0x1_0000 && s[i] != '"' && s[i] != '\\'
    ensures Quoted(Units(s)) == [Quote] + Units(s) + [Quote]
  {
    EscapeUnescaped(Units(s));
  }

  /** The quote inside the first member's value is escaped. */
  lemma EscapedQuoteText()
    ensures QA == [Quote] + Units("a\\\",1") + [Quote]
  {
    var s := Units("a\",1");
    assert s == [s[0]] + ([s[1]] + ([s[2]] + [s[3]]));
    EscapeCons(s[0], [s[1]] + ([s[2]] + [s[3]]));
    EscapeCons(s[1], [s[2]] + [s[3]]);
    EscapeCons(s[2], [s[3]]);
    EscapeUnescaped([s[3]]);
  }

  /** The line breaks at the three levels. */
  lemma Breaks()
    ensures Break(Indent, 0) == [LF]
    ensures Break(Indent, 1) == [LF] + Margin1
    ensures Break(Indent, 2) == [LF] + Margin2
  {
    assert Repeat(Indent, 1) == Indent + Repeat(Indent, 0);
    assert Repeat(Indent, 2) == Indent + Repeat(Indent, 1);
  }

  // ------------------------------------------------------------- the input

  lemma InputPiece1()
    ensures Units("{\"str\":\"a\\\",1\",") == [OpenBrace] + (QStr + [Colon] + QA) + [Comma]
  {
    QuotedPlain("str");
    EscapedQuoteText();
  }

  lemma InputPiece2()
    ensures Units("\"obj\":{") == QObj + [Colon] + [OpenBrace]
  {
    QuotedPlain("obj");
  }

  lemma InputPiece3()
    ensures Units("\"n1\":\"v1\",") == (QN1 + [Colon] + QV1) + [Comma]
  {
    QuotedPlain("n1");
    QuotedPlain("v1");
  }

  lemma InputPiece4()
    ensures Units("\"n2\":\"v2\"},") == (QN2 + [Colon] + QV2) + [CloseBrace] + [Comma]
  {
    QuotedPlain("n2");
    QuotedPlain("v2");
  }

  lemma InputPiece5()
    ensures Units("\"list1\":[") == QList1 + [Colon] + [OpenBracket]
  {
    QuotedPlain("list1");
  }

  lemma InputPiece6()
    ensures Units("\"11\",\"12\"],") == Q11 + [Comma] + Q12 + [CloseBracket] + [Comma]
  {
    QuotedPlain("11");
    QuotedPlain("12");
  }

  lemma InputPiece7()
    ensures Units("\"list2\":[") == QList2 + [Colon] + [OpenBracket]
  {
    QuotedPlain("list2");
  }

  lemma InputPiece8()
    ensures Units("\"21\",\"22\"]}") == Q21 + [Comma] + Q22 + [CloseBracket] + [CloseBrace]
  {
    QuotedPlain("21");
    QuotedPlain("22");
  }

  /** The compact writing, regrouped into the input's pieces. */
  lemma RegroupCompact<T>(ob: seq<T>, cb: seq<T>, obk: seq<T>, cbk: seq<T>, c: seq<T>, col: seq<T>,
                          qs: seq<T>, qa: seq<T>, qo: seq<T>, qn1: seq<T>, qv1: seq<T>, qn2: seq<T>, qv2: seq<T>,
                          ql1: seq<T>, q11: seq<T>, q12: seq<T>, ql2: seq<T>, q21: seq<T>, q22: seq<T>)
    ensures ob + ((qs + col + qa) + c + ((qo + col + (ob + ((qn1 + col + qv1) + c + (qn2 + col + qv2)) + cb)) + c
              + ((ql1 + col + (obk + (q11 + c + q12) + cbk)) + c + (ql2 + col + (obk + (q21 + c + q22) + cbk))))) + cb
         == (ob + (qs + col + qa) + c) + (qo + col + ob) + ((qn1 + col + qv1) + c) + ((qn2 + col + qv2) + cb + c)
            + (ql1 + col + obk) + (q11 + c + q12 + cbk + c) + (ql2 + col + obk) + (q21 + c + q22 + cbk + cb)
  {
  }

  /** The document written compactly, token by token. */
  lemma CompactForm()
    ensures
      var ob, cb, obk, cbk, c, col := [OpenBrace], [CloseBrace], [OpenBracket], [CloseBracket], [Comma], [Colon];
      Compact(TestDoc())
      == ob + ((QStr + col + QA) + c + ((QObj + col + (ob + ((QN1 + col + QV1) + c + (QN2 + col + QV2)) + cb)) + c
           + ((QList1 + col + (obk + (Q11 + c + Q12) + cbk)) + c + (QList2 + col + (obk + (Q21 + c + Q22) + cbk))))) + cb
  {
    var ms := TestDoc().members;
    assert CompactMembers(ms[3..]) == CompactMember(ms[3]);
    assert CompactMembers(ms[2..]) == CompactMember(ms[2]) + [Comma] + CompactMembers(ms[3..]);
    assert CompactMembers(ms[1..]) == CompactMember(ms[1]) + [Comma] + CompactMembers(ms[2..]);
    var v := ms[1].value;
    assert CompactMembers(v.members[1..]) == CompactMember(v.members[1]);
    assert CompactItems(ms[2].value.items[1..]) == Compact(ms[2].value.items[1]);
    assert CompactItems(ms[3].value.items[1..]) == Compact(ms[3].value.items[1]);
  }

  /** The document written compactly is the test's input. */
  lemma TestInputIsCompact()
    ensures Compact(TestDoc()) == TestInput
  {
    CompactForm();
    RegroupCompact([OpenBrace], [CloseBrace], [OpenBracket], [CloseBracket], [Comma], [Colon],
      QStr, QA, QObj,
      QN1, QV1, QN2, QV2,
      QList1, Q11, Q12,
      QList2, Q21, Q22);
    InputPiece1();
    InputPiece2();
    InputPiece3();
    InputPiece4();
    InputPiece5();
    InputPiece6();
    InputPiece7();
    InputPiece8();
  }

  // ----------------------------------------------------- the expected text

  lemma ShortLines()
    ensures Line1 == [OpenBrace] + [LF]
    ensures Line15 == [CloseBrace]
    ensures Line6 == Margin1 + [CloseBrace] + [Comma] + [LF]
    ensures Line10 == Margin1 + [CloseBracket] + [Comma] + [LF]
    ensures Line14 == Margin1 + [CloseBracket] + [LF]
  {
  }

  lemma SecondLine()
    ensures Line2 == Margin1 + (QStr + [Colon, Space] + QA) + [Comma] + [LF]
  {
    QuotedPlain("str");
    EscapedQuoteText();
  }

  lemma ObjLine()
    ensures Line3 == Margin1 + QObj + [Colon, Space] + [OpenBrace] + [LF]
  {
    QuotedPlain("obj");
  }

  lemma N1Line()
    ensures Line4 == Margin2 + (QN1 + [Colon, Space] + QV1) + [Comma] + [LF]
  {
    QuotedPlain("n1");
    QuotedPlain("v1");
  }

  lemma N2Line()
    ensures Line5 == Margin2 + (QN2 + [Colon, Space] + QV2) + [LF]
  {
    QuotedPlain("n2");
    QuotedPlain("v2");
  }

  lemma List1Line()
    ensures Line7 == Margin1 + QList1 + [Colon, Space] + [OpenBracket] + [LF]
  {
    QuotedPlain("list1");
  }

  lemma List1Items()
    ensures Line8 == Margin2 + Q11 + [Comma] + [LF]
    ensures Line9 == Margin2 + Q12 + [LF]
  {
    QuotedPlain("11");
    QuotedPlain("12");
  }

  lemma List2Line()
    ensures Line11 == Margin1 + QList2 + [Colon, Space] + [OpenBracket] + [LF]
  {
    QuotedPlain("list2");
  }

  lemma List2Items()
    ensures Line12 == Margin2 + Q21 + [Comma] + [LF]
    ensures Line13 == Margin2 + Q22 + [LF]
  {
    QuotedPlain("21");
    QuotedPlain("22");
  }

  /** A structure laid out one level in, after the line break before it. */
  lemma RegroupBlock<T>(lf: seq<T>, i1: seq<T>, i2: seq<T>, c: seq<T>, cs: seq<T>, q: seq<T>, o: seq<T>, cl: seq<T>, x: seq<T>, y: seq<T>)
    ensures (lf + i1) + (q + cs + (o + (lf + i2) + (x + c + (lf + i2) + y) + (lf + i1) + cl))
         == lf + (i1 + q + cs + o + lf) + (i2 + x + c + lf) + (i2 + y + lf) + (i1 + cl)
  {
  }

  /** The object of four members laid out, each member after its line break. */
  lemma RegroupTop<T>(ob: seq<T>, cb: seq<T>, c: seq<T>, lf: seq<T>, i1: seq<T>, pm0: seq<T>, b1: seq<T>, b2: seq<T>, b3: seq<T>)
    ensures ob + (lf + i1) + (pm0 + c + (lf + i1) + (b1 + c + (lf + i1) + (b2 + c + (lf + i1) + b3))) + lf + cb
         == (ob + lf) + (i1 + pm0 + c) + ((lf + i1) + b1) + c + ((lf + i1) + b2) + c + ((lf + i1) + b3) + lf + cb
  {
  }

  /** The pieces in line order. */
  lemma RegroupLines<T>(ob: seq<T>, cb: seq<T>, cbk: seq<T>, c: seq<T>, lf: seq<T>, i1: seq<T>, pm0: seq<T>,
                        l3: seq<T>, l4: seq<T>, l5: seq<T>, l7: seq<T>, l8: seq<T>, l9: seq<T>, l11: seq<T>, l12: seq<T>, l13: seq<T>)
    ensures (ob + lf) + (i1 + pm0 + c) + (lf + l3 + l4 + l5 + (i1 + cb)) + c + (lf + l7 + l8 + l9 + (i1 + cbk)) + c
            + (lf + l11 + l12 + l13 + (i1 + cbk)) + lf + cb
         == (ob + lf) + (i1 + pm0 + c + lf) + l3 + l4 + l5 + (i1 + cb + c + lf) + l7 + l8 + l9 + (i1 + cbk + c + lf)
            + l11 + l12 + l13 + (i1 + cbk + lf) + cb
  {
  }

  /** The members of the document laid out at level one, token by token. */
  lemma PrettyMembersForm()
    ensures
      var ms, cs := TestDoc().members, [Colon, Space];
      var b1, b2 := Break(Indent, 1), Break(Indent, 2);
      && PrettyMember(Indent, ms[0], 1) == QStr + cs + QA
      && PrettyMember(Indent, ms[1], 1)
         == QObj + cs + ([OpenBrace] + b2 + ((QN1 + cs + QV1) + [Comma] + b2 + (QN2 + cs + QV2)) + b1 + [CloseBrace])
      && PrettyMember(Indent, ms[2], 1)
         == QList1 + cs + ([OpenBracket] + b2 + (Q11 + [Comma] + b2 + Q12) + b1 + [CloseBracket])
      && PrettyMember(Indent, ms[3], 1)
         == QList2 + cs + ([OpenBracket] + b2 + (Q21 + [Comma] + b2 + Q22) + b1 + [CloseBracket])
  {
    var ms := TestDoc().members;
    assert PrettyMembers(Indent, ms[1].value.members[1..], 2) == PrettyMember(Indent, ms[1].value.members[1], 2);
    assert PrettyItems(Indent, ms[2].value.items[1..], 2) == Pretty(Indent, ms[2].value.items[1], 2);
    assert PrettyItems(Indent, ms[3].value.items[1..], 2) == Pretty(Indent, ms[3].value.items[1], 2);
  }

  /** The document laid out, in terms of its members. */
  lemma PrettyForm()
    ensures
      var ms, c, b1 := TestDoc().members, [Comma], Break(Indent, 1);
      var pm0, pm1 := PrettyMember(Indent, ms[0], 1), PrettyMember(Indent, ms[1], 1);
      var pm2, pm3 := PrettyMember(Indent, ms[2], 1), PrettyMember(Indent, ms[3], 1);
      Pretty(Indent, TestDoc(), 0)
      == [OpenBrace] + b1 + (pm0 + c + b1 + (pm1 + c + b1 + (pm2 + c + b1 + pm3))) + Break(Indent, 0) + [CloseBrace]
  {
    var ms := TestDoc().members;
    assert PrettyMembers(Indent, ms[3..], 1) == PrettyMember(Indent, ms[3], 1);
    assert PrettyMembers(Indent, ms[2..], 1) == PrettyMember(Indent, ms[2], 1) + [Comma] + Break(Indent, 1) + PrettyMembers(Indent, ms[3..], 1);
    assert PrettyMembers(Indent, ms[1..], 1) == PrettyMember(Indent, ms[1], 1) + [Comma] + Break(Indent, 1) + PrettyMembers(Indent, ms[2..], 1);
  }

  /** The "obj" member after its line break: lines 3 to 5 of the expected text and the closer's margin. */
  lemma BlockObj()
    ensures ([LF] + Margin1) + PrettyMember(Indent, TestDoc().members[1], 1)
         == [LF] + Line3 + Line4 + Line5 + (Margin1 + [CloseBrace])
  {
    PrettyMembersForm();
    Breaks();
    RegroupBlock([LF], Margin1, Margin2, [Comma], [Colon, Space], QObj, [OpenBrace], [CloseBrace],
                 QN1 + [Colon, Space] + QV1, QN2 + [Colon, Space] + QV2);
    ObjLine();
    N1Line();
    N2Line();
  }

  /** The "list1" member after its line break: lines 7 to 9 and the closer's margin. */
  lemma BlockList1()
    ensures ([LF] + Margin1) + PrettyMember(Indent, TestDoc().members[2], 1)
         == [LF] + Line7 + Line8 + Line9 + (Margin1 + [CloseBracket])
  {
    PrettyMembersForm();
    Breaks();
    RegroupBlock([LF], Margin1, Margin2, [Comma], [Colon, Space], QList1, [OpenBracket], [CloseBracket], Q11, Q12);
    List1Line();
    List1Items();
  }

  /** The "list2" member after its line break: lines 11 to 13 and the closer's margin. */
  lemma BlockList2()
    ensures ([LF] + Margin1) + PrettyMember(Indent, TestDoc().members[3], 1)
         == [LF] + Line11 + Line12 + Line13 + (Margin1 + [CloseBracket])
  {
    PrettyMembersForm();
    Breaks();
    RegroupBlock([LF], Margin1, Margin2, [Comma], [Colon, Space], QList2, [OpenBracket], [CloseBracket], Q21, Q22);
    List2Line();
    List2Items();
  }

  /** The document laid out is the text the test expects. */
  lemma PrettyIsExpected()
    ensures Pretty(Indent, TestDoc(), 0) == TestExpected
  {
    var ms := TestDoc().members;
    var pm0, pm1 := PrettyMember(Indent, ms[0], 1), PrettyMember(Indent, ms[1], 1);
    var pm2, pm3 := PrettyMember(Indent, ms[2], 1), PrettyMember(Indent, ms[3], 1);
    PrettyForm();
    Breaks();
    RegroupTop([OpenBrace], [CloseBrace], [Comma], [LF], Margin1, pm0, pm1, pm2, pm3);
    BlockObj();
    BlockList1();
    BlockList2();
    RegroupLines([OpenBrace], [CloseBrace], [CloseBracket], [Comma], [LF], Margin1, pm0,
      Line3, Line4, Line5,
      Line7, Line8, Line9,
      Line11, Line12, Line13);
    PrettyMembersForm();
    SecondLine();
    ShortLines();
  }

  /** Letters, digits, quotes and commas are plain text. */
  lemma PlainUnits(s: string)
    requires forall i | 0 <= i < |s| :: 'a' <= s[i] <= 'z' || '0' <= s[i] <= '9' || s[i] == '"' || s[i] == ','
    ensures PlainText(Units(s))
  {
  }

  lemma ObjPlain()
    ensures Plain(TestDoc().members[1].value)
  {
    PlainUnits("n1");
    PlainUnits("v1");
    PlainUnits("n2");
    PlainUnits("v2");
  }

  lemma ListsPlain()
    ensures Plain(TestDoc().members[2].value)
    ensures Plain(TestDoc().members[3].value)
  {
    PlainUnits("11");
    PlainUnits("12");
    PlainUnits("21");
    PlainUnits("22");
  }

  /** Every string and name of the document is plain text. */
  lemma TestDocPlain()
    ensures Plain(TestDoc())
  {
    PlainUnits("str");
    PlainUnits("a\",1");
    PlainUnits("obj");
    PlainUnits("list1");
    PlainUnits("list2");
    ObjPlain();
    ListsPlain();
  }

  /**
   * JsonPrettyWriterTest.testPrettyString: toPrettyString with the default
   * indent of two spaces lays out the test's single-line input as the
   * expected fifteen lines.
   */
  lemma TestPrettyString()
    ensures PrettyString(TestInput, 2) == Ok(TestExpected)
  {
    TestDocPlain();
    PrettyStringOf(TestDoc(), 2);
    TestInputIsCompact();
    PrettyIsExpected();
  }
}
