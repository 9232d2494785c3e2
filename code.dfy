/**
 * Code: a block of generated source text held as a list of lines, together with the imports
 * the text needs. Templates are filled in place: keys are interpolated, cleared, lines are
 * indented and other blocks are appended.
 */
module Codes {
  import opened Wrappers
  import opened JavaText
  import opened ImportLists
  import Iterate

  const LF: string := "\n"

  /** The indent unit, four spaces. */
  const IndentUnit: string := "    "

  // ------------------------------------------------------------ trimming blank lines

  /** trimLines, first loop: the leading blank lines are dropped. */
  function DropLeadingBlank(ls: seq<string>): (r: seq<string>)
    ensures |r| <= |ls|
    ensures r == ls[|ls| - |r|..]
    ensures r == [] || !IsBlank(r[0])
    ensures forall k | 0 <= k < |ls| - |r| :: IsBlank(ls[k])
  {
    if ls == [] || !IsBlank(ls[0]) then ls else DropLeadingBlank(ls[1..])
  }

  /** trimLines, second loop: trailing blank lines are dropped while more than one line is left. */
  function DropTrailingBlank(ls: seq<string>): (r: seq<string>)
    ensures r <= ls
    ensures ls != [] ==> r != []
    ensures |r| >= 2 ==> !IsBlank(r[|r| - 1])
    ensures forall k | |r| <= k < |ls| :: IsBlank(ls[k])
  {
    if |ls| <= 1 || !IsBlank(ls[|ls| - 1]) then ls else DropTrailingBlank(ls[..|ls| - 1])
  }

  /** The lines Code.of keeps of a literal. */
  function TrimBlankLines(ls: seq<string>): (r: seq<string>)
    ensures |r| <= |ls|
    ensures ls != [] && !IsBlank(ls[0]) ==> r != [] && r[0] == ls[0]
  {
    DropTrailingBlank(DropLeadingBlank(ls))
  }

  /** The number of leading blank lines. */
  function LeadingBlanks(ls: seq<string>): nat {
    |ls| - |DropLeadingBlank(ls)|
  }

  /** The kept lines are a contiguous run of the input, starting after its leading blank lines. */
  lemma TrimBlankLinesRun(ls: seq<string>)
    ensures var r := TrimBlankLines(ls); var n := LeadingBlanks(ls);
      n + |r| <= |ls| && r == ls[n..n + |r|]
  {
    PrefixOfSuffix(ls, LeadingBlanks(ls), DropTrailingBlank(DropLeadingBlank(ls)));
  }

  /** A prefix of the suffix from n on is the slice from n of the same length. */
  lemma PrefixOfSuffix<T>(ls: seq<T>, n: nat, r: seq<T>)
    requires n <= |ls| && r <= ls[n..]
    ensures n + |r| <= |ls| && r == ls[n..n + |r|]
  {
  }

  /** Only blank lines are dropped, before the run and after it. */
  lemma TrimBlankLinesAround(ls: seq<string>)
    ensures var r := TrimBlankLines(ls); var n := LeadingBlanks(ls);
      (forall k | 0 <= k < n :: IsBlank(ls[k])) && (forall k | n + |r| <= k < |ls| :: IsBlank(ls[k]))
  {
    var d := DropLeadingBlank(ls);
    var r := DropTrailingBlank(d);
    var n := LeadingBlanks(ls);
    forall k | n + |r| <= k < |ls| ensures IsBlank(ls[k]) {
      assert ls[k] == d[k - n];
    }
  }

  /** Nothing is kept exactly when every line is blank. */
  lemma TrimBlankLinesEmpty(ls: seq<string>)
    ensures TrimBlankLines(ls) == [] <==> forall k | 0 <= k < |ls| :: IsBlank(ls[k])
  {
    var d := DropLeadingBlank(ls);
    if d != [] {
      assert ls[|ls| - |d|] == d[0];
    }
  }

  /**
   * What is kept starts and ends with a line that is not blank (so the "at least one line"
   * rule of the second loop never keeps a blank line).
   */
  lemma TrimBlankLinesEnds(ls: seq<string>)
    ensures var r := TrimBlankLines(ls);
      r != [] ==> !IsBlank(r[0]) && !IsBlank(r[|r| - 1])
  {
    var d := DropLeadingBlank(ls);
    var r := DropTrailingBlank(d);
    if r != [] {
      assert r[0] == d[0];
      if |r| == 1 {
        assert r[|r| - 1] == d[0];
      }
    }
  }

  /** Lines that already start and end with a non-blank line are kept as they are. */
  lemma {:induction false} TrimBlankLinesKeeps(ls: seq<string>)
    requires ls != [] ==> !IsBlank(ls[0]) && !IsBlank(ls[|ls| - 1])
    ensures TrimBlankLines(ls) == ls
  {
    if ls == [] {
      assert DropLeadingBlank(ls) == [];
    } else {
      LeadingKept(ls);
      TrailingKept(ls);
    }
  }

  /** A first line that is not blank stops the first loop at once. */
  lemma LeadingKept(ls: seq<string>)
    requires ls != [] && !IsBlank(ls[0])
    ensures DropLeadingBlank(ls) == ls
  {
  }

  /** A last line that is not blank stops the second loop at once. */
  lemma TrailingKept(ls: seq<string>)
    requires ls != [] && !IsBlank(ls[|ls| - 1])
    ensures DropTrailingBlank(ls) == ls
  {
  }

  /** Trimming twice is trimming once. */
  lemma TrimBlankLinesIdempotent(ls: seq<string>)
    ensures TrimBlankLines(TrimBlankLines(ls)) == TrimBlankLines(ls)
  {
    TrimBlankLinesEnds(ls);
    TrimBlankLinesKeeps(TrimBlankLines(ls));
  }

  /** trimLines: drop blank lines at the head, then at the tail while more than one is left. */
  method TrimLines(lines: seq<string>) returns (ret: seq<string>)
    ensures ret == TrimBlankLines(lines)
  {
    ret := lines;
    if ret == [] {
      return;
    }
    while ret != [] && IsBlank(ret[0])
      invariant DropLeadingBlank(ret) == DropLeadingBlank(lines)
      decreases |ret|
    {
      ret := ret[1..];
    }
    ghost var head := ret;
    while |ret| - 1 > 0 && IsBlank(ret[|ret| - 1])
      invariant DropTrailingBlank(ret) == DropTrailingBlank(head)
      decreases |ret|
    {
      ret := ret[..|ret| - 1];
    }
  }

  // ------------------------------------------------------------ content

  /** String.endsWith("\n"). */
  predicate EndsWithLF(line: string) {
    line != [] && line[|line| - 1] == '\n'
  }

  /** A line as content writes it: a line feed follows when another line does, unless it ends in one. */
  function LineOut(line: string, hasNext: bool): string {
    if hasNext && !EndsWithLF(line) then line + LF else line
  }

  /** The text of the lines: each written with LineOut. */
  function ContentOf(ls: seq<string>): (r: string)
    ensures ls != [] ==> StartsWith(r, ls[0]) && EndsWith(r, ls[|ls| - 1])
  {
    if ls == [] then [] else LineOut(ls[0], |ls| > 1) + ContentOf(ls[1..])
  }

  /** The content from line i on: line i as written, then the rest. */
  lemma ContentStep(ls: seq<string>, i: nat)
    requires i < |ls|
    ensures ContentOf(ls[i..]) == LineOut(ls[i], i + 1 < |ls|) + ContentOf(ls[i + 1..])
  {
    assert ls[i..][1..] == ls[i + 1..];
  }

  /** One more line written keeps the text written so far a prefix of the content. */
  lemma ContentAdvance(ls: seq<string>, i: nat, r: string)
    requires i < |ls| && r + ContentOf(ls[i..]) == ContentOf(ls)
    ensures (r + LineOut(ls[i], i + 1 < |ls|)) + ContentOf(ls[i + 1..]) == ContentOf(ls)
  {
    ContentStep(ls, i);
    ConcatAssoc(r, LineOut(ls[i], i + 1 < |ls|), ContentOf(ls[i + 1..]));
  }

  /** Concatenation is associative. */
  lemma ConcatAssoc<T>(a: seq<T>, b: seq<T>, c: seq<T>)
    ensures (a + b) + c == a + (b + c)
  {
  }

  /** With every line written, the text is the content. */
  lemma ContentEnd(ls: seq<string>, r: string)
    requires r + ContentOf(ls[|ls|..]) == ContentOf(ls)
    ensures r == ContentOf(ls)
  {
    assert ls[|ls|..] == [];
    assert r + [] == r;
  }

  /** Lines that do not end in a line feed are joined with one line feed between them. */
  lemma {:induction false} ContentJoin(ls: seq<string>)
    requires forall i | 0 <= i < |ls| :: !EndsWithLF(ls[i])
    ensures ContentOf(ls) == Join(ls, LF)
  {
    if |ls| > 1 {
      ContentJoin(ls[1..]);
      assert ContentOf(ls) == ls[0] + LF + ContentOf(ls[1..]);
    } else if |ls| == 1 {
      assert ContentOf(ls[1..]) == [];
      assert ls[0] + [] == ls[0];
    }
  }

  /** Appending to the last line appends to the content. */
  lemma {:induction false} ContentAppendLast(ls: seq<string>, literal: string)
    requires ls != []
    ensures ContentOf(ls[..|ls| - 1] + [ls[|ls| - 1] + literal]) == ContentOf(ls) + literal
  {
    var ms := ls[..|ls| - 1] + [ls[|ls| - 1] + literal];
    if |ls| == 1 {
      assert ms == [ls[0] + literal];
      assert ContentOf(ms[1..]) == [];
      assert ContentOf(ls[1..]) == [];
    } else {
      ContentAppendLast(ls[1..], literal);
      assert ms[0] == ls[0];
      assert ms[1..] == ls[1..][..|ls[1..]| - 1] + [ls[1..][|ls[1..]| - 1] + literal];
    }
  }

  /** The separator content puts after a line that has a successor: a line feed unless it ends in one. */
  function Separator(line: string): (r: string)
    ensures LineOut(line, true) == line + r
  {
    if EndsWithLF(line) then [] else LF
  }

  /** The content of two blocks put together: the first block's content, a separator, the second's. */
  lemma {:induction false} ContentConcat(a: seq<string>, b: seq<string>)
    requires a != [] && b != []
    ensures ContentOf(a + b) == ContentOf(a) + Separator(a[|a| - 1]) + ContentOf(b)
  {
    ConsSplit(a, b);
    var h := LineOut(a[0], true);
    if |a| == 1 {
      assert ContentOf(a[1..]) == [];
    } else {
      ContentConcat(a[1..], b);
      var sep := Separator(a[|a| - 1]);
      Regroup(h, ContentOf(a[1..]) + sep, ContentOf(b));
      Regroup(h, ContentOf(a[1..]), sep);
    }
  }

  /** No line terminator from i up to k, and a terminator (or the end) at k: the line ends at k. */
  lemma {:induction false} LineEndAt(s: string, i: nat, k: nat)
    requires i <= k <= |s|
    requires forall m | i <= m < k :: s[m] != '\n' && s[m] != '\r'
    requires k == |s| || s[k] == '\n'
    ensures LineEnd(s, i) == k
    decreases k - i
  {
    if i < k {
      LineEndAt(s, i + 1, k);
    }
  }

  /**
   * Reading the content back as lines gives the lines again, when no line holds a terminator
   * and the last line is not empty (String.lines drops a final empty line).
   */
  lemma {:induction false} LinesContent(ls: seq<string>)
    requires forall i | 0 <= i < |ls| :: '\n' !in ls[i] && '\r' !in ls[i]
    requires ls != [] ==> ls[|ls| - 1] != []
    ensures Lines(ContentOf(ls)) == ls
  {
    if |ls| == 1 {
      var s := ContentOf(ls);
      assert ContentOf(ls[1..]) == [];
      assert s == ls[0];
      LineEndAt(s, 0, |s|);
    } else if |ls| > 1 {
      var l := ls[0];
      LinesContent(ls[1..]);
      assert !EndsWithLF(l) by {
        if |l| >= 1 { assert l[|l| - 1] in l; }
      }
      assert ContentOf(ls) == l + LF + ContentOf(ls[1..]);
      LinesCons(l, ContentOf(ls[1..]));
    }
  }

  /** A line without terminators, a line feed and more text: the line is the first of the lines. */
  lemma LinesCons(l: string, rest: string)
    requires '\n' !in l && '\r' !in l
    ensures Lines(l + LF + rest) == [l] + Lines(rest)
  {
    var s := l + LF + rest;
    forall m | 0 <= m < |l| ensures s[m] != '\n' && s[m] != '\r' {
      assert s[m] == l[m];
      assert l[m] in l;
    }
    assert s[|l|] == '\n';
    LineEndAt(s, 0, |l|);
    assert s[..|l|] == l;
    assert s[|l| + 1..] == rest;
  }

  /**
   * Code.of of a block's content has the block's lines again, for lines without terminators
   * that start and end with a line that is not blank.
   */
  lemma OfContent(ls: seq<string>)
    requires forall i | 0 <= i < |ls| :: '\n' !in ls[i] && '\r' !in ls[i]
    requires ls != [] ==> !IsBlank(ls[0]) && !IsBlank(ls[|ls| - 1])
    ensures TrimBlankLines(Lines(ContentOf(ls))) == ls
  {
    LinesContent(ls);
    TrimBlankLinesKeeps(ls);
  }

  // ------------------------------------------------------------ indentation

  /** An indent is all spaces. */
  lemma {:induction false} IndentSpaces(level: int)
    ensures forall k | 0 <= k < |Repeat(IndentUnit, level)| :: Repeat(IndentUnit, level)[k] == ' '
    decreases level
  {
    if level > 0 {
      IndentSpaces(level - 1);
      var rest := Repeat(IndentUnit, level - 1);
      assert Repeat(IndentUnit, level) == IndentUnit + rest;
    }
  }

  /** trim ignores an indent. */
  lemma TrimIndent(line: string, level: int)
    ensures Trim(Repeat(IndentUnit, level) + line) == Trim(line)
  {
    IndentSpaces(level);
    TrimStartBlankPrefix(Repeat(IndentUnit, level), line);
  }

  // ------------------------------------------------------------ clearing a key

  /** clear on one line: a line that is the key is removed, the key is deleted from any other. */
  function ClearLine(line: string, key: string): (r: seq<string>)
    ensures |r| <= 1
    ensures r == [] <==> Trim(line) == key
    ensures !Contains(line, key) ==> r == [line]
  {
    TrimContains(line);
    if Trim(line) == key then []
    else if Contains(line, key) then [Replace(line, key, [])]
    else [line]
  }

  /** clear on all lines, in order. */
  function Cleared(ls: seq<string>, key: string): seq<string> {
    if ls == [] then [] else ClearLine(ls[0], key) + Cleared(ls[1..], key)
  }

  /** clear goes on from line j of o with the lines done so far. */
  lemma ClearStep(done: seq<string>, o: seq<string>, j: nat, key: string)
    requires j < |o| && done + Cleared(o[j..], key) == Cleared(o, key)
    ensures (done + ClearLine(o[j], key)) + Cleared(o[j + 1..], key) == Cleared(o, key)
  {
    assert o[j..][1..] == o[j + 1..];
    Regroup(done, ClearLine(o[j], key), Cleared(o[j + 1..], key));
  }

  /** clear ends with every line of o done. */
  lemma ClearEnd(done: seq<string>, o: seq<string>, j: nat, key: string)
    requires j <= |o| && |done + o[j..]| == |done| && done + Cleared(o[j..], key) == Cleared(o, key)
    ensures done + o[j..] == Cleared(o, key)
  {
    assert o[j..] == [];
    assert done + [] == done;
  }

  /** The number of lines that, trimmed, are the key. */
  function KeyLines(ls: seq<string>, key: string): nat {
    if ls == [] then 0 else (if Trim(ls[0]) == key then 1 else 0) + KeyLines(ls[1..], key)
  }

  /** Exactly the key lines are removed; every other line stays, one for one. */
  lemma {:induction false} ClearedCount(ls: seq<string>, key: string)
    ensures |Cleared(ls, key)| + KeyLines(ls, key) == |ls|
  {
    if ls != [] {
      ClearedCount(ls[1..], key);
    }
  }

  /** A block that does not mention the key is left as it is. */
  lemma {:induction false} ClearedAbsent(ls: seq<string>, key: string)
    requires forall i | 0 <= i < |ls| :: !Contains(ls[i], key)
    ensures Cleared(ls, key) == ls
  {
    if ls != [] {
      ClearedAbsent(ls[1..], key);
      TrimContains(ls[0]);
      assert ClearLine(ls[0], key) == [ls[0]];
    }
  }

  // ------------------------------------------------------------ substitution

  /** The outcome of a substitution over the lines: the result and the lines it leaves. */
  datatype Substitution = Substitution(result: Result<()>, lines: seq<string>)

  /** The lines after the first, each indented to the key's column. */
  function IndentedRest(multi: seq<string>, indent: string): (r: seq<string>)
    requires multi != []
    ensures |r| == |multi| - 1
    ensures forall j | 0 <= j < |r| :: r[j] == indent + multi[j + 1]
  {
    seq(|multi| - 1, j requires 0 <= j < |multi| - 1 => indent + multi[j + 1])
  }

  /**
   * applySubstitution on one line. A value of one line replaces the key wherever it occurs.
   * Otherwise the key is replaced by the whole value, the result is cut at its line feeds and
   * the continuation lines are indented to the key's column; a line that cuts into nothing
   * fails on its first element.
   */
  function SubstLine(line: string, key: string, value: string): (r: Result<seq<string>>)
    ensures !Contains(line, key) ==> r == Ok([line])
    ensures r.Ok? ==> r.value != []
    ensures r.Ok? ==> forall j | 1 <= j < |r.value| :: StartsWith(r.value[j], Repeat(" ", IndexOf(line, key)))
    ensures r.Err? ==> r.failure == IndexOutOfBounds
  {
    if !Contains(line, key) then Ok([line])
    else if |Split(value, '\n')| == 1 then Ok([Replace(line, key, Split(value, '\n')[0])])
    else
      var multi := Split(Replace(line, key, value), '\n');
      if multi == [] then Err(IndexOutOfBounds)
      else Ok([multi[0]] + IndentedRest(multi, Repeat(" ", IndexOf(line, key))))
  }

  /** Each line substituted in turn; the first failure stops with the later lines untouched. */
  function SubstAll(ls: seq<string>, key: string, value: string): (r: Substitution)
    ensures r.result.Ok? <==> forall i | 0 <= i < |ls| :: SubstLine(ls[i], key, value).Ok?
    ensures r.result.Err? ==> r.result.failure == IndexOutOfBounds
  {
    if ls == [] then Substitution(Ok(()), [])
    else
      match SubstLine(ls[0], key, value)
      case Err(e) => Substitution(Err(e), ls)
      case Ok(out) =>
        var rest := SubstAll(ls[1..], key, value);
        Substitution(rest.result, out + rest.lines)
  }

  /** The outcome a, after the lines done have been written. */
  function Resumed(done: seq<string>, a: Substitution): Substitution {
    Substitution(a.result, done + a.lines)
  }

  /** The substitution goes on from line j of o with the lines done so far. */
  lemma SubstStep(done: seq<string>, o: seq<string>, j: nat, key: string, value: string)
    requires j < |o| && SubstAll(o, key, value) == Resumed(done, SubstAll(o[j..], key, value))
    ensures SubstLine(o[j], key, value).Err? ==>
      SubstAll(o, key, value) == Substitution(Err(SubstLine(o[j], key, value).failure), done + o[j..])
    ensures SubstLine(o[j], key, value).Ok? ==>
      SubstAll(o, key, value) == Resumed(done + SubstLine(o[j], key, value).value, SubstAll(o[j + 1..], key, value))
  {
    assert o[j..][1..] == o[j + 1..];
    if SubstLine(o[j], key, value).Ok? {
      var out := SubstLine(o[j], key, value).value;
      Regroup(done, out, SubstAll(o[j + 1..], key, value).lines);
    }
  }

  /** The substitution ends with every line of o done. */
  lemma SubstEnd(done: seq<string>, o: seq<string>, j: nat, key: string, value: string)
    requires j <= |o| && |done + o[j..]| == |done| && SubstAll(o, key, value) == Resumed(done, SubstAll(o[j..], key, value))
    ensures SubstAll(o, key, value) == Substitution(Ok(()), done + o[j..])
  {
    assert o[j..] == [];
    assert done + [] == done;
  }

  /**
   * Midway through a substitution over o: ls holds the lines done, written for the first j lines
   * of o, followed by the rest of o untouched, and i is where the rest begins.
   */
  ghost predicate Midway(o: seq<string>, done: seq<string>, j: nat, key: string, value: string, ls: seq<string>, i: nat) {
    j <= |o| && ls == done + o[j..] && i == |done| &&
    SubstAll(o, key, value) == Resumed(done, SubstAll(o[j..], key, value))
  }

  /** Lines that do not mention the key are untouched. */
  lemma {:induction false} SubstAbsent(ls: seq<string>, key: string, value: string)
    requires forall i | 0 <= i < |ls| :: !Contains(ls[i], key)
    ensures SubstAll(ls, key, value) == Substitution(Ok(()), ls)
  {
    if ls != [] {
      SubstAbsent(ls[1..], key, value);
    }
  }

  /** A value without a line feed is put in place of every occurrence, line by line. */
  lemma {:induction false} SubstSingleLine(ls: seq<string>, key: string, value: string)
    requires '\n' !in value
    ensures SubstAll(ls, key, value).result == Ok(())
    ensures |SubstAll(ls, key, value).lines| == |ls|
    ensures forall i | 0 <= i < |ls| :: SubstAll(ls, key, value).lines[i] == Replace(ls[i], key, value)
  {
    if ls != [] {
      SubstSingleLine(ls[1..], key, value);
      assert Split(value, '\n') == [value];
      if !Contains(ls[0], key) {
        ReplaceAbsentLine(ls[0], key, value);
      }
      var r := SubstAll(ls, key, value).lines;
      forall i | 0 <= i < |ls| ensures r[i] == Replace(ls[i], key, value) {
        if i > 0 {
          assert r[i] == SubstAll(ls[1..], key, value).lines[i - 1];
        }
      }
    }
  }

  /** A line without the key is its own replacement. */
  lemma ReplaceAbsentLine(line: string, key: string, value: string)
    requires !Contains(line, key)
    ensures Replace(line, key, value) == line
  {
    if key == [] {
      assert OccursAt(line, key, 0);
    } else {
      ReplaceAbsent(line, key, value);
    }
  }

  /** The substitution never loses a line: a successful one leaves at least as many. */
  lemma {:induction false} SubstKeepsLines(ls: seq<string>, key: string, value: string)
    ensures SubstAll(ls, key, value).result.Ok? ==> |SubstAll(ls, key, value).lines| >= |ls|
    ensures SubstAll(ls, key, value).result.Err? ==> |SubstAll(ls, key, value).lines| >= |ls|
  {
    if ls != [] {
      SubstKeepsLines(ls[1..], key, value);
    }
  }

  /**
   * The multi-line loop of applySubstitution as written: after a line with the key it moves on
   * by the number of lines of the value plus one, which lands past the next original line.
   * None when the fuel runs out first.
   */
  function SubstAsWritten(ls: seq<string>, key: string, value: string, i: nat, fuel: nat): (r: Option<Substitution>)
    ensures r.Some? ==> |r.value.lines| >= |ls|
    ensures r.Some? && r.value.result.Err? ==> r.value.result.failure == IndexOutOfBounds
    decreases fuel
  {
    if i >= |ls| then Some(Substitution(Ok(()), ls))
    else if fuel == 0 then None
    else if !Contains(ls[i], key) then SubstAsWritten(ls, key, value, i + 1, fuel - 1)
    else
      var multi := Split(Replace(ls[i], key, value), '\n');
      if multi == [] then Some(Substitution(Err(IndexOutOfBounds), ls))
      else
        var indent := Repeat(" ", IndexOf(ls[i], key));
        var next := ls[..i] + [multi[0]] + IndentedRest(multi, indent) + ls[i + 1..];
        SubstAsWritten(next, key, value, i + |Split(value, '\n')| + 1, fuel - 1)
  }

  /**
   * Two lines that are both the key, interpolated with a two-line value: as written the second
   * line is stepped over and keeps its key, where a line-by-line substitution fills both.
   */
  lemma SubstSkipsLine()
    ensures SubstAsWritten(["$", "$"], "$", "a\nb", 0, 10) == Some(Substitution(Ok(()), ["a", "b", "$"]))
  {
    var v := "a\nb";
    TwoLines();
    KeyLineExpands();
    var once := ["a", "b", "$"];
    assert ["$", "$"][..0] + ["a", "b"] + ["$", "$"][1..] == once;
    AsWrittenExpands(["$", "$"], "$", v, 0, 10);
    AsWrittenDone(once, "$", v, 3, 9);
  }

  /** As written, a line with the key that expands is replaced by its block and the index jumps. */
  lemma AsWrittenExpands(ls: seq<string>, key: string, value: string, i: nat, fuel: nat)
    requires i < |ls| && fuel > 0 && Contains(ls[i], key) && |Split(value, '\n')| != 1
    requires SubstLine(ls[i], key, value).Ok?
    ensures SubstAsWritten(ls, key, value, i, fuel)
      == SubstAsWritten(ls[..i] + SubstLine(ls[i], key, value).value + ls[i + 1..], key, value,
                        i + |Split(value, '\n')| + 1, fuel - 1)
  {
    var multi := Split(Replace(ls[i], key, value), '\n');
    var rest := IndentedRest(multi, Repeat(" ", IndexOf(ls[i], key)));
    assert SubstLine(ls[i], key, value).value == [multi[0]] + rest;
    Regroup(ls[..i], [multi[0]], rest);
  }

  /** As written, the loop stops once the index is past the last line. */
  lemma AsWrittenDone(ls: seq<string>, key: string, value: string, i: nat, fuel: nat)
    requires i >= |ls|
    ensures SubstAsWritten(ls, key, value, i, fuel) == Some(Substitution(Ok(()), ls))
  {
  }

  /** The same two lines substituted line by line: both are filled. */
  lemma SubstFillsBoth()
    ensures SubstAll(["$", "$"], "$", "a\nb") == Substitution(Ok(()), ["a", "b", "a", "b"])
  {
    var v := "a\nb";
    KeyLineExpands();
    assert SubstAll(["$"], "$", v) == Substitution(Ok(()), ["a", "b"]) by {
      assert ["$"][1..] == [];
    }
    assert ["$", "$"][1..] == ["$"];
  }

  /**
   * Every line contains the empty key, so interpolating it puts the value before every
   * character and at the end: the line `ab` with the value `X` becomes `XaXbX`.
   */
  lemma SubstEmptyKey()
    ensures SubstAll(["ab"], "", "X") == Substitution(Ok(()), ["XaXbX"])
  {
    SubstSingleLine(["ab"], "", "X");
    ReplaceEmptyExample();
    var lines := SubstAll(["ab"], "", "X").lines;
    assert lines == [lines[0]];
  }

  /** "a\nb" is two lines. */
  lemma TwoLines()
    ensures Split("a\nb", '\n') == ["a", "b"]
  {
    var v := "a\nb";
    var e: string := [];
    assert v[0] == 'a' && v[1..] == "\nb" && v[1] == '\n';
    assert "\nb"[0] == '\n' && "\nb"[1..] == "b";
    assert "b"[0] == 'b' && "b"[1..] == e;
    assert Pieces(e, '\n') == [e];
    assert Pieces("b", '\n') == [['b'] + e];
    assert ['b'] + e == "b";
    assert Pieces("\nb", '\n') == [e, "b"];
    assert Pieces(v, '\n') == [['a'] + e, "b"];
    assert ['a'] + e == "a";
    assert '\n' in v;
    assert DropTrailingEmpty(["a", "b"]) == ["a", "b"];
  }

  /** The line "$" with the key "$" and the value "a\nb" becomes the lines "a" and "b". */
  lemma KeyLineExpands()
    ensures Split(Replace("$", "$", "a\nb"), '\n') == ["a", "b"]
    ensures IndexOf("$", "$") == 0
    ensures SubstLine("$", "$", "a\nb") == Ok(["a", "b"])
  {
    var v := "a\nb";
    TwoLines();
    assert OccursAt("$", "$", 0);
    assert Replace("$", "$", v) == v by {
      assert "$"[1..] == [];
      assert v + [] == v;
    }
    assert Repeat(" ", 0) == [];
    var e: string := [];
    var rest := IndentedRest(["a", "b"], e);
    assert |rest| == 1 && rest[0] == e + "b";
    assert e + "b" == "b";
    assert rest == ["b"];
  }

  // ------------------------------------------------------------ addBeforeLast

  /** The last line from the second on whose trimmed text starts with mark, or -1. */
  function LastMark(ls: seq<string>, mark: string, i: int): (r: int)
    requires i < |ls|
    ensures r == -1 || (0 < r <= i && StartsWith(Trim(ls[r]), mark))
    ensures forall k | r < k <= i && 0 < k :: !StartsWith(Trim(ls[k]), mark)
    decreases i
  {
    if i <= 0 then -1
    else if StartsWith(Trim(ls[i]), mark) then i
    else LastMark(ls, mark, i - 1)
  }

  // ------------------------------------------------------------ the code block

  class Code {
    /** The code lines. */
    var lines: seq<string>
    /** The imports the lines need. */
    const imports: Imports

    /** Code.of(): no lines, fresh imports. */
    constructor Of()
      ensures lines == [] && fresh(imports)
      ensures imports.names == {} && imports.implicits == {"java.lang."}
    {
      lines := [];
      imports := new Imports.Of();
    }

    /** Code.of(literal): the literal's lines without blank lines at its head and tail. */
    constructor OfLiteral(literal: string)
      ensures lines == TrimBlankLines(Lines(literal)) && fresh(imports)
      ensures imports.names == {} && imports.implicits == {"java.lang."}
    {
      var ls := TrimLines(Lines(literal));
      lines := ls;
      imports := new Imports.Of();
    }

    /** indent(level): every line gains level indent units; a level of zero or less does nothing. */
    method Indent(level: int)
      modifies this`lines
      ensures level <= 0 ==> lines == old(lines)
      ensures |lines| == |old(lines)|
      ensures level > 0 ==> forall i | 0 <= i < |lines| :: lines[i] == Repeat(IndentUnit, level) + old(lines)[i]
    {
      if level <= 0 {
        return;
      }
      var i := 0;
      while i < |lines|
        invariant 0 <= i <= |lines| == |old(lines)|
        invariant forall k | 0 <= k < i :: lines[k] == Repeat(IndentUnit, level) + old(lines)[k]
        invariant lines[i..] == old(lines)[i..]
      {
        assert lines[i] == lines[i..][0];
        lines := lines[i := Repeat(IndentUnit, level) + lines[i]];
        i := i + 1;
      }
    }

    /** indent(): one level. */
    method IndentOne()
      modifies this`lines
      ensures |lines| == |old(lines)|
      ensures forall i | 0 <= i < |lines| :: lines[i] == IndentUnit + old(lines)[i]
    {
      Indent(1);
      assert Repeat(IndentUnit, 1) == IndentUnit + [];
    }

    /** append(literal): the last line is extended; without lines the index -1 is out of bounds. */
    method Append(literal: string) returns (r: Result<()>)
      modifies this`lines
      ensures old(lines) == [] ==> r == Err(IndexOutOfBounds) && lines == old(lines)
      ensures old(lines) != [] ==>
        r == Ok(()) && lines == old(lines)[..|old(lines)| - 1] + [old(lines)[|old(lines)| - 1] + literal]
    {
      var index := |lines| - 1;
      if index < 0 {
        return Err(IndexOutOfBounds);
      }
      lines := lines[index := lines[index] + literal];
      assert lines == old(lines)[..index] + [old(lines)[index] + literal];
      return Ok(());
    }

    /** clear(key): lines that are the key go, the key is deleted from the others. */
    method Clear(key: string)
      modifies this`lines
      ensures lines == Cleared(old(lines), key)
    {
      ghost var o := lines;
      ghost var done: seq<string> := [];
      ghost var j := 0;
      var i := 0;
      while i < |lines|
        invariant j <= |o| && lines == done + o[j..] && i == |done|
        invariant done + Cleared(o[j..], key) == Cleared(o, key)
        decreases |o| - j
      {
        ClearStep(done, o, j, key);
        assert lines[i] == o[j] && lines[..i] == done && lines[i + 1..] == o[j + 1..];
        i := ClearAt(i, key);
        Regroup(done, ClearLine(o[j], key), o[j + 1..]);
        done := done + ClearLine(o[j], key);
        j := j + 1;
      }
      ClearEnd(done, o, j, key);
    }

    /** One step of clear at line i: the line goes, loses the key, or stays; then the next index. */
    method ClearAt(i: nat, key: string) returns (next: nat)
      requires i < |lines|
      modifies this`lines
      ensures lines == old(lines[..i]) + ClearLine(old(lines[i]), key) + old(lines[i + 1..])
      ensures next == i + |ClearLine(old(lines[i]), key)|
    {
      if Trim(lines[i]) == key {
        lines := lines[..i] + lines[i + 1..];
        next := i;
      } else if Contains(lines[i], key) {
        lines := lines[i := Replace(lines[i], key, [])];
        next := i + 1;
      } else {
        assert lines == lines[..i] + [lines[i]] + lines[i + 1..];
        next := i + 1;
      }
    }

    /** The index of the line addBeforeLast inserts before, or -1. */
    method FindMark(mark: string) returns (i: int)
      ensures i == LastMark(lines, mark, |lines| - 1)
    {
      i := |lines| - 1;
      while i > 0
        invariant i < |lines|
        invariant LastMark(lines, mark, i) == LastMark(lines, mark, |lines| - 1)
        decreases i
      {
        if StartsWith(Trim(lines[i]), mark) {
          return;
        }
        i := i - 1;
      }
      i := -1;
    }

    /**
     * addBeforeLast as written: the block goes in before the last marked line (the first line
     * is never looked at), and then the method throws whether it inserted or not.
     */
    method AddBeforeLastAsWritten(mark: string, code: Code) returns (r: Result<()>)
      modifies this`lines
      ensures r == Err(Runtime)
      ensures var k := LastMark(old(lines), mark, |old(lines)| - 1);
        if k == -1 then lines == old(lines)
        else lines == old(lines)[..k] + old(code.lines) + old(lines)[k..]
    {
      var inserted := AddBeforeLast(mark, code);
      r := Err(Runtime);
    }

    /** addBeforeLast as intended: it throws only when no line is marked. */
    method AddBeforeLast(mark: string, code: Code) returns (r: Result<()>)
      modifies this`lines
      ensures var k := LastMark(old(lines), mark, |old(lines)| - 1);
        if k == -1 then r == Err(Runtime) && lines == old(lines)
        else r == Ok(()) && lines == old(lines)[..k] + old(code.lines) + old(lines)[k..]
    {
      var block := code.lines;
      var k := FindMark(mark);
      if k == -1 {
        r := Err(Runtime);
      } else {
        lines := lines[..k] + block + lines[k..];
        r := Ok(());
      }
    }

    /** add(code): the other block's lines follow these, and its imports are merged in. */
    method Add(code: Code)
      modifies this`lines, imports`names
      ensures lines == old(lines) + old(code.lines)
      ensures imports.names == old(imports.names) + old(code.imports.names)
    {
      lines := lines + code.lines;
      imports.Marge(code.imports);
    }

    /** add(imports): the imports are merged in; the lines stay. */
    method AddImports(other: Imports)
      modifies imports`names
      ensures imports.names == old(imports.names) + old(other.names)
    {
      imports.Marge(other);
    }

    /** content(): the lines, a line feed after each that has a successor and does not end in one. */
    method Content() returns (r: string)
      ensures r == ContentOf(lines)
    {
      if lines == [] {
        return "";
      }
      if |lines| == 1 {
        ContentStep(lines, 0);
        return lines[0];
      }
      var entries := Iterate.EntriesOf(lines);
      r := "";
      var i := 0;
      while i < |entries|
        invariant 0 <= i <= |entries|
        invariant r + ContentOf(lines[i..]) == ContentOf(lines)
      {
        var written := WriteLine(entries[i]);
        ContentAdvance(lines, i, r);
        r := r + written;
        i := i + 1;
      }
      ContentEnd(lines, r);
    }

    /** One step of content: the entry's line, and a line feed when another follows and it has none. */
    static method WriteLine(line: Iterate.Iteration<string>) returns (written: string)
      requires line.Entry?
      ensures written == LineOut(line.value, Iterate.HasNext(line))
    {
      written := line.value;
      if Iterate.HasNext(line) && !EndsWithLF(line.value) {
        written := written + LF;
      }
    }

    /** applySubstitution: a one-line value is put in place, any other is expanded over lines. */
    method ApplySubstitution(key: string, value: string) returns (r: Result<()>)
      modifies this`lines
      ensures r == SubstAll(old(lines), key, value).result
      ensures lines == SubstAll(old(lines), key, value).lines
    {
      var code := Split(value, '\n');
      if |code| == 1 {
        ReplaceEach(key, value, code[0]);
        r := Ok(());
      } else {
        r := ExpandEach(key, value);
      }
    }

    /** The single-line loop: every line with the key gets the one line of the value in its place. */
    method ReplaceEach(key: string, value: string, line: string)
      requires Split(value, '\n') == [line]
      modifies this`lines
      ensures SubstAll(old(lines), key, value) == Substitution(Ok(()), lines)
    {
      ghost var o := lines;
      ghost var done: seq<string> := [];
      ghost var j := 0;
      var i := 0;
      while i < |lines|
        invariant j <= |o| && lines == done + o[j..] && i == |done|
        invariant SubstAll(o, key, value) == Resumed(done, SubstAll(o[j..], key, value))
        decreases |o| - j
      {
        done := ReplaceStep(i, key, value, line, o, done, j);
        i := i + 1;
        j := j + 1;
      }
      SubstEnd(done, o, j, key, value);
    }

    /**
     * The multi-line loop, moving past each block it inserts (see SubstAsWritten for the step
     * the source takes instead).
     */
    method ExpandEach(key: string, value: string) returns (r: Result<()>)
      requires |Split(value, '\n')| != 1
      modifies this`lines
      ensures SubstAll(old(lines), key, value) == Substitution(r, lines)
    {
      ghost var o := lines;
      ghost var done: seq<string> := [];
      ghost var j := 0;
      var i: nat := 0;
      r := Ok(());
      while r.Ok? && i < |lines|
        invariant r.Ok? ==> r == Ok(()) && Midway(o, done, j, key, value, lines, i)
        invariant r.Err? ==> SubstAll(o, key, value) == Substitution(r, lines)
        decreases |o| - j, r.Ok?
      {
        var next: Result<nat>;
        next, done := ExpandStep(i, key, value, o, done, j);
        if next.Err? {
          r := Err(next.failure);
        } else {
          i := next.value;
          j := j + 1;
        }
      }
      if r.Ok? {
        SubstEnd(done, o, j, key, value);
      }
    }

    /** One turn of the single-line loop: line i, the j-th of the original lines o, is substituted. */
    method ReplaceStep(i: nat, key: string, value: string, line: string, ghost o: seq<string>, ghost done: seq<string>, ghost j: nat)
      returns (ghost done': seq<string>)
      requires Split(value, '\n') == [line]
      requires j < |o| && lines == done + o[j..] && i == |done|
      requires SubstAll(o, key, value) == Resumed(done, SubstAll(o[j..], key, value))
      modifies this`lines
      ensures lines == done' + o[j + 1..] && i + 1 == |done'|
      ensures SubstAll(o, key, value) == Resumed(done', SubstAll(o[j + 1..], key, value))
    {
      SubstStep(done, o, j, key, value);
      assert lines[i] == o[j] && lines[..i] == done && lines[i + 1..] == o[j + 1..];
      ReplaceAt(i, key, value, line);
      ghost var out := SubstLine(o[j], key, value).value;
      Regroup(done, out, o[j + 1..]);
      done' := done + out;
    }

    /**
     * One turn of the multi-line loop: line i, the j-th of the original lines o, is expanded and
     * the index after its block returned, or the failure with the lines as they were.
     */
    method ExpandStep(i: nat, key: string, value: string, ghost o: seq<string>, ghost done: seq<string>, ghost j: nat)
      returns (next: Result<nat>, ghost done': seq<string>)
      requires |Split(value, '\n')| != 1
      requires j < |o| && lines == done + o[j..] && i == |done|
      requires SubstAll(o, key, value) == Resumed(done, SubstAll(o[j..], key, value))
      modifies this`lines
      ensures next.Err? ==> SubstAll(o, key, value) == Substitution(Err(next.failure), lines)
      ensures next.Ok? ==> lines == done' + o[j + 1..] && next.value == |done'|
      ensures next.Ok? ==> SubstAll(o, key, value) == Resumed(done', SubstAll(o[j + 1..], key, value))
    {
      SubstStep(done, o, j, key, value);
      assert lines[i] == o[j] && lines[..i] == done && lines[i + 1..] == o[j + 1..];
      done' := done;
      next := ExpandAt(i, key, value);
      if next.Ok? {
        ghost var out := SubstLine(o[j], key, value).value;
        Regroup(done, out, o[j + 1..]);
        done' := done + out;
      }
    }

    /** The single-line step: the key, wherever it occurs in line i, becomes the one line of the value. */
    method ReplaceAt(i: nat, key: string, value: string, line: string)
      requires i < |lines| && Split(value, '\n') == [line]
      modifies this`lines
      ensures SubstLine(old(lines[i]), key, value).Ok?
      ensures lines == old(lines[..i]) + SubstLine(old(lines[i]), key, value).value + old(lines[i + 1..])
    {
      if Contains(lines[i], key) {
        lines := lines[i := Replace(lines[i], key, line)];
      }
      assert lines == old(lines[..i]) + [lines[i]] + old(lines[i + 1..]);
    }

    /**
     * The multi-line step at line i: the line with the key replaced by the value, cut at its line
     * feeds, the continuation lines indented to the key's column; then the index after them.
     */
    method ExpandAt(i: nat, key: string, value: string) returns (next: Result<nat>)
      requires i < |lines| && |Split(value, '\n')| != 1
      modifies this`lines
      ensures SubstLine(old(lines[i]), key, value).Err? ==>
        next == Err(SubstLine(old(lines[i]), key, value).failure) && lines == old(lines)
      ensures SubstLine(old(lines[i]), key, value).Ok? ==>
        var out := SubstLine(old(lines[i]), key, value).value;
        next == Ok(i + |out|) && lines == old(lines[..i]) + out + old(lines[i + 1..])
    {
      var line := lines[i];
      if !Contains(line, key) {
        assert lines == lines[..i] + [line] + lines[i + 1..];
        return Ok(i + 1);
      }
      var indent := Repeat(" ", IndexOf(line, key));
      var multi := Split(Replace(line, key, value), '\n');
      if multi == [] {
        return Err(IndexOutOfBounds);
      }
      var out := [multi[0]] + IndentedRest(multi, indent);
      assert SubstLine(line, key, value) == Ok(out);
      lines := lines[..i] + out + lines[i + 1..];
      return Ok(i + |out|);
    }

    /** interpolate(key, content): the text put in place of the key. */
    method Interpolate(key: string, content: string) returns (r: Result<()>)
      modifies this`lines
      ensures r == SubstAll(old(lines), key, content).result
      ensures lines == SubstAll(old(lines), key, content).lines
    {
      r := ApplySubstitution(key, content);
    }

    /** interpolateType(key, type): the type shortened by the imports, then put in place of the key. */
    method InterpolateType(key: string, type_: string) returns (r: Result<()>)
      modifies this`lines, imports`names
      ensures var a := ApplyAll(TypePieces(StripStatement(type_)));
        imports.names == old(imports.names) + a.recorded &&
        if a.result.Err? then r == Err(a.result.failure) && lines == old(lines)
        else r == SubstAll(old(lines), key, a.result.value).result && lines == SubstAll(old(lines), key, a.result.value).lines
    {
      var t := imports.Apply(type_);
      if t.Err? {
        return Err(t.failure);
      }
      r := ApplySubstitution(key, t.value);
    }

    /** interpolate(key, other): the other block's content in place of the key, then its imports. */
    method InterpolateCode(key: string, other: Code) returns (r: Result<()>)
      modifies this`lines, imports`names
      ensures var s := SubstAll(old(lines), key, ContentOf(old(other.lines)));
        r == s.result && lines == s.lines &&
        imports.names == old(imports.names) + (if r.Ok? then old(other.imports.names) else {})
    {
      var content := other.Content();
      r := ApplySubstitution(key, content);
      if r.Ok? {
        imports.Marge(other.imports);
      }
    }
  }
}
