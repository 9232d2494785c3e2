/**
 * Imports of the code generator: the fully-qualified names a generated source file must
 * import, and the shortening of a (possibly generic) type name to the simple names that
 * those imports make valid.
 */
module ImportLists {
  import opened Wrappers
  import opened JavaText

  // ------------------------------------------------------------ names

  /** The chars around which applyImport splits a generic type name. */
  predicate IsDelim(c: char) { c == '<' || c == '>' || c == ',' }

  /** A segment that `matches("[<>,]")`: exactly one delimiter. */
  predicate IsDelimSegment(s: string) { |s| == 1 && IsDelim(s[0]) }

  predicate NoDelim(s: string) { forall i | 0 <= i < |s| :: !IsDelim(s[i]) }

  /** The segments applySingle accepts. */
  predicate Legal(s: string) {
    !IsBlank(s) && ' ' !in s && ';' !in s && '\n' !in s && '<' !in s && '>' !in s && ',' !in s
  }

  /** simpleName: the text after the last `.`. */
  function SimpleName(fqcn: string): (r: string)
    ensures '.' !in r
    ensures '.' !in fqcn ==> r == fqcn
    ensures '.' in fqcn ==> |r| < |fqcn| && fqcn == fqcn[..|fqcn| - |r| - 1] + ['.'] + r
  {
    var k := LastIndexOf(fqcn, '.');
    assert k != -1 ==> fqcn == fqcn[..k] + ['.'] + fqcn[k + 1..];
    fqcn[k + 1..]
  }

  /** What applySingle returns for a legal segment. */
  function SingleName(s: string): string {
    if '.' in s then SimpleName(s) else s
  }

  /** What applySingle records for a legal segment. */
  function Recorded(s: string): set<string> {
    if '.' in s then {s} else {}
  }

  /** strip: trim, then drop a leading "import " and a trailing ";". */
  function StripStatement(s: string): (r: string)
    ensures |r| <= |s|
  {
    var t := Trim(s);
    var u := if StartsWith(t, "import ") then t[7..] else t;
    if EndsWith(u, ";") then u[..|u| - 1] else u
  }

  /** The delimiters of a text, in order. */
  function Delims(s: string): string {
    if s == [] then [] else (if IsDelim(s[0]) then [s[0]] else []) + Delims(s[1..])
  }

  // ------------------------------------------------------------ splitting

  /** The end of the run of non-delimiters from i. */
  function RunEnd(s: string, i: nat): (r: nat)
    requires i <= |s|
    ensures i <= r <= |s|
    ensures forall k | i <= k < r :: !IsDelim(s[k])
    ensures r < |s| ==> IsDelim(s[r])
    decreases |s| - i
  {
    if i == |s| || IsDelim(s[i]) then i else RunEnd(s, i + 1)
  }

  /**
   * split("((?<=[<>,])|(?=[<>,]))"): a cut before and after every delimiter, which leaves
   * each delimiter as a segment of its own and each maximal run between them as another.
   */
  function Segments(s: string): (r: seq<string>)
    ensures forall k | 0 <= k < |r| :: r[k] != [] && (IsDelimSegment(r[k]) || NoDelim(r[k]))
    decreases |s|
  {
    if s == [] then []
    else if IsDelim(s[0]) then [[s[0]]] + Segments(s[1..])
    else
      var k := RunEnd(s, 0);
      [s[..k]] + Segments(s[k..])
  }

  /** `.map(String::trim).filter(not(String::isBlank))`. */
  /** No segment is blank. */
  predicate NoneBlank(segs: seq<string>) {
    forall k | 0 <= k < |segs| :: !IsBlank(segs[k])
  }

  function Kept(segs: seq<string>): (r: seq<string>)
    ensures |r| <= |segs|
    ensures NoneBlank(r)
  {
    if segs == [] then [] else KeptOne(segs[0]) + Kept(segs[1..])
  }

  /** One segment trimmed, or nothing when that is blank. */
  function KeptOne(h: string): (r: seq<string>)
    ensures |r| <= 1
  {
    var t := Trim(h);
    if IsBlank(t) then [] else [t]
  }

  /** The pieces applyImport hands to applySingle or keeps, for a type name. */
  function TypePieces(fqcn: string): (r: seq<string>)
    ensures NoneBlank(r)
  {
    Kept(Segments(fqcn))
  }

  // ------------------------------------------------------------ shortening

  /** The outcome of applyImport: the shortened text or the failure, and the names recorded. */
  datatype Applied = Applied(result: Result<string>, recorded: set<string>)

  function Prepend(p: string, r: Result<string>): Result<string> {
    if r.Ok? then Ok(p + r.value) else r
  }

  /** What the stream makes of one piece: a delimiter as it is, any other through applySingle. */
  function Piece(h: string): (r: Result<string>)
    ensures r.Err? <==> !IsDelimSegment(h) && !Legal(h)
  {
    if IsDelimSegment(h) then Ok(h) else if !Legal(h) then Err(IllegalArgument) else Ok(SingleName(h))
  }

  /** The name one piece records. */
  function PieceRecorded(h: string): set<string> {
    if IsDelimSegment(h) then {} else Recorded(h)
  }

  /**
   * The stream of applyImport: the pieces in order; the first illegal piece throws, after
   * the earlier pieces have been recorded.
   */
  /** Every piece shortens without failure. */
  predicate AllPiecesApply(segs: seq<string>) {
    forall k | 0 <= k < |segs| :: Piece(segs[k]).Ok?
  }

  function ApplyAll(segs: seq<string>): (r: Applied)
    ensures r.result.Ok? <==> AllPiecesApply(segs)
    ensures r.result.Err? ==> r.result.failure == IllegalArgument
    decreases |segs|
  {
    if segs == [] then Applied(Ok([]), {})
    else
      var p := Piece(segs[0]);
      if p.Err? then Applied(p, {})
      else
        var rest := ApplyAll(segs[1..]);
        Applied(Prepend(p.value, rest.result), PieceRecorded(segs[0]) + rest.recorded)
  }

  /** The outcome a, after out has been written and rec recorded. */
  function Resume(out: string, rec: set<string>, a: Applied): Applied {
    Applied(Prepend(out, a.result), rec + a.recorded)
  }

  /** add(imports): applyImport on the stripped non-blank lines, in order, up to a failure. */
  function ApplyLines(ls: seq<string>): Applied
    decreases |ls|
  {
    if ls == [] then Applied(Ok([]), {})
    else if IsBlank(ls[0]) then ApplyLines(ls[1..])
    else
      var a := ApplyAll(TypePieces(StripStatement(ls[0])));
      if a.result.Err? then a
      else
        var rest := ApplyLines(ls[1..]);
        Applied(rest.result, a.recorded + rest.recorded)
  }

  // ------------------------------------------------------------ ordering

  /** String.compareTo(b) < 0: lexicographic order on the chars. */
  predicate LexLess(a: string, b: string)
    decreases |a|
  {
    b != [] && (a == [] || a[0] < b[0] || (a[0] == b[0] && LexLess(a[1..], b[1..])))
  }

  predicate StrictlySorted(s: seq<string>) {
    forall i, j | 0 <= i < j < |s| :: LexLess(s[i], s[j])
  }

  /** Inserts x into a sorted list, unless it is there already. */
  function Insert(s: seq<string>, x: string): (r: seq<string>)
    requires StrictlySorted(s)
    ensures StrictlySorted(r)
    ensures forall n :: n in r <==> n in s || n == x
  {
    if s == [] then [x]
    else if x == s[0] then s
    else if LexLess(x, s[0]) then
      forall j | 0 <= j < |s| ensures LexLess(x, s[j]) {
        if j > 0 { LexTrans(x, s[0], s[j]); }
      }
      [x] + s
    else
      LexTotal(x, s[0]);
      var t := Insert(s[1..], x);
      assert forall n | n in t :: LexLess(s[0], n);
      [s[0]] + t
  }

  /** What normalize lists: recorded, not blank, and under no implicit prefix. */
  predicate Listed(n: string, implicits: set<string>) {
    !IsBlank(n) && forall p | p in implicits :: !StartsWith(n, p)
  }

  /** The list normalize returns for the given fields. */
  ghost predicate Normalized(names: seq<string>, recorded: set<string>, implicits: set<string>) {
    StrictlySorted(names) && forall n :: n in names <==> n in recorded && Listed(n, implicits)
  }

  /** The import statement of one name. */
  function ImportLine(n: string): string {
    "import " + n + ";"
  }

  /**
   * One import statement per name, joined by newlines: cut at its line feeds, the text gives
   * the statements back, one per name and in order.
   */
  function Statements(names: seq<string>): (r: string)
    ensures names == [] <==> r == []
    ensures names != [] && (forall k | 0 <= k < |names| :: '\n' !in names[k]) ==>
      Pieces(r, '\n') == seq(|names|, i requires 0 <= i < |names| => ImportLine(names[i]))
  {
    var lines := seq(|names|, i requires 0 <= i < |names| => ImportLine(names[i]));
    if names == [] then []
    else if forall k | 0 <= k < |names| :: '\n' !in names[k] then
      assert forall k | 0 <= k < |lines| :: '\n' !in lines[k] by {
        forall k | 0 <= k < |lines| ensures '\n' !in lines[k] {
          assert lines[k] == "import " + names[k] + ";";
        }
      }
      JoinPieces(lines, '\n');
      Join(lines, "\n")
    else
      Join(lines, "\n")
  }

  /** The trailing dot addImplicit ensures. */
  function WithDot(p: string): (r: string)
    ensures EndsWith(r, ".")
    ensures EndsWith(p, ".") ==> r == p
  {
    if EndsWith(p, ".") then p else p + "."
  }

  // ------------------------------------------------------------ the collector

  class Imports {
    /** The fully-qualified names recorded. */
    var names: set<string>
    /** The package prefixes imported implicitly, each ending in `.`. */
    var implicits: set<string>

    predicate Valid()
      reads this
    {
      "java.lang." in implicits && forall p | p in implicits :: EndsWith(p, ".")
    }

    /** Imports.of(): nothing recorded, java.lang implicit. */
    constructor Of()
      ensures Valid()
      ensures names == {} && implicits == {"java.lang."}
    {
      names := {};
      implicits := {"java.lang."};
    }

    /** Imports.of(literal): the stripped non-blank lines, as they are. */
    constructor OfLiteral(literal: string)
      ensures Valid()
      ensures names == set l | l in Lines(literal) && !IsBlank(l) :: StripStatement(l)
      ensures implicits == {"java.lang."}
    {
      names := set l | l in Lines(literal) && !IsBlank(l) :: StripStatement(l);
      implicits := {"java.lang."};
    }

    /** marge(that): the union of both name sets. */
    method Marge(that: Imports)
      modifies this`names
      ensures names == old(names) + old(that.names)
    {
      names := names + that.names;
    }

    /** addImplicit(implicit): the prefix with a trailing `.`. */
    method AddImplicit(implicit: string)
      requires Valid()
      modifies this`implicits
      ensures Valid()
      ensures implicits == old(implicits) + {WithDot(implicit)}
    {
      implicits := implicits + {WithDot(implicit)};
    }

    /**
     * applySingle(fqcn): an illegal segment throws; a name without `.` is returned as it is;
     * any other is recorded and shortened to its simple name.
     */
    method ApplySingle(fqcn: string) returns (r: Result<string>)
      modifies this`names
      ensures !Legal(fqcn) ==> r == Err(IllegalArgument) && names == old(names)
      ensures Legal(fqcn) ==> r == Ok(SingleName(fqcn)) && names == old(names) + Recorded(fqcn)
    {
      if !Legal(fqcn) {
        return Err(IllegalArgument);
      }
      if '.' !in fqcn {
        return Ok(fqcn);
      }
      names := names + {fqcn};
      return Ok(SimpleName(fqcn));
    }

    /** One piece of applyImport's stream. */
    method ApplyPiece(h: string) returns (r: Result<string>)
      modifies this`names
      ensures r == Piece(h)
      ensures r.Ok? ==> names == old(names) + PieceRecorded(h)
      ensures r.Err? ==> names == old(names)
    {
      if IsDelimSegment(h) {
        return Ok(h);
      }
      r := ApplySingle(h);
    }

    /** applyImport(fqcn): every piece in order, delimiters kept and the rest shortened. */
    method ApplyImport(fqcn: string) returns (r: Result<string>)
      modifies this`names
      ensures r == ApplyAll(TypePieces(fqcn)).result
      ensures names == old(names) + ApplyAll(TypePieces(fqcn)).recorded
    {
      var segs := TypePieces(fqcn);
      var out := "";
      ghost var rec: set<string> := {};
      var i := 0;
      ResumeStart(segs);
      while i < |segs|
        invariant 0 <= i <= |segs|
        invariant names == old(names) + rec
        invariant ApplyAll(segs) == Resume(out, rec, ApplyAll(segs[i..]))
      {
        var x := ApplyPiece(segs[i]);
        ResumeStep(segs, i, out, rec);
        if x.Err? {
          return Err(x.failure);
        }
        out := out + x.value;
        rec := rec + PieceRecorded(segs[i]);
        i := i + 1;
      }
      ResumeEnd(segs, out, rec);
      return Ok(out);
    }

    /** apply(fqcn): applyImport on the stripped name. */
    method Apply(fqcn: string) returns (r: Result<string>)
      modifies this`names
      ensures r == ApplyAll(TypePieces(StripStatement(fqcn))).result
      ensures names == old(names) + ApplyAll(TypePieces(StripStatement(fqcn))).recorded
    {
      r := ApplyImport(StripStatement(fqcn));
    }

    /** add(imports): applyImport on every stripped non-blank line, in order. */
    method Add(imports: string) returns (r: Result<()>)
      modifies this`names
      ensures r.Ok? <==> ApplyLines(Lines(imports)).result.Ok?
      ensures names == old(names) + ApplyLines(Lines(imports)).recorded
    {
      var ls := Lines(imports);
      ghost var rec: set<string> := {};
      var i := 0;
      while i < |ls|
        invariant 0 <= i <= |ls|
        invariant names == old(names) + rec
        invariant ApplyLines(ls).result.Ok? <==> ApplyLines(ls[i..]).result.Ok?
        invariant ApplyLines(ls).recorded == rec + ApplyLines(ls[i..]).recorded
      {
        assert ls[i..][1..] == ls[i + 1..];
        if !IsBlank(ls[i]) {
          var x := ApplyImport(StripStatement(ls[i]));
          if x.Err? {
            return Err(x.failure);
          }
          rec := rec + ApplyAll(TypePieces(StripStatement(ls[i]))).recorded;
        }
        i := i + 1;
      }
      return Ok(());
    }

    /** normalize(): the listed names, sorted. */
    method Normalize() returns (list: seq<string>)
      ensures Normalized(list, names, implicits)
    {
      var rest := names;
      list := [];
      while rest != {}
        invariant rest <= names
        invariant StrictlySorted(list)
        invariant forall n :: n in list <==> n in names && n !in rest && Listed(n, implicits)
        decreases |rest|
      {
        var n :| n in rest;
        rest := rest - {n};
        if Listed(n, implicits) {
          list := Insert(list, n);
        }
      }
    }

    /** toString(): one `import X;` line per listed name, sorted, joined by newlines. */
    method ToString() returns (r: string)
      ensures exists list | Normalized(list, names, implicits) :: r == Statements(list)
    {
      var list := Normalize();
      r := Statements(list);
    }
  }

  // ------------------------------------------------------------ lemmas

  lemma ResumeStart(segs: seq<string>)
    ensures ApplyAll(segs) == Resume("", {}, ApplyAll(segs[0..]))
  {
    assert segs[0..] == segs;
    var r := ApplyAll(segs).result;
    if r.Ok? {
      assert "" + r.value == r.value;
    }
  }

  /** A turn of applyImport's loop: piece i written, or its failure. */
  lemma ResumeStep(segs: seq<string>, i: nat, out: string, rec: set<string>)
    requires i < |segs|
    ensures Piece(segs[i]).Err? ==> Resume(out, rec, ApplyAll(segs[i..])) == Applied(Piece(segs[i]), rec)
    ensures Piece(segs[i]).Ok? ==>
      Resume(out, rec, ApplyAll(segs[i..]))
      == Resume(out + Piece(segs[i]).value, rec + PieceRecorded(segs[i]), ApplyAll(segs[i + 1..]))
  {
    assert segs[i..][0] == segs[i] && segs[i..][1..] == segs[i + 1..];
    var p := Piece(segs[i]);
    if p.Ok? {
      var r := ApplyAll(segs[i + 1..]).result;
      if r.Ok? {
        assert out + (p.value + r.value) == (out + p.value) + r.value;
      }
    }
  }

  lemma ResumeEnd(segs: seq<string>, out: string, rec: set<string>)
    ensures Resume(out, rec, ApplyAll(segs[|segs|..])) == Applied(Ok(out), rec)
  {
    assert segs[|segs|..] == [];
    assert out + [] == out;
  }

  lemma {:induction false} LexTotal(a: string, b: string)
    ensures a == b || LexLess(a, b) || LexLess(b, a)
    decreases |a|
  {
    if a != [] && b != [] && a[0] == b[0] {
      LexTotal(a[1..], b[1..]);
      if a[1..] == b[1..] {
        assert a == [a[0]] + a[1..] && b == [b[0]] + b[1..];
      }
    }
  }

  lemma {:induction false} LexTrans(a: string, b: string, c: string)
    requires LexLess(a, b) && LexLess(b, c)
    ensures LexLess(a, c)
    decreases |a|
  {
    if a != [] && a[0] == b[0] && b[0] == c[0] {
      LexTrans(a[1..], b[1..], c[1..]);
    }
  }

  lemma {:induction false} LexIrreflexive(a: string)
    ensures !LexLess(a, a)
    decreases |a|
  {
    if a != [] {
      LexIrreflexive(a[1..]);
    }
  }

  /** The sorted list of a set is unique, so toString is determined by the fields. */
  lemma {:induction false} SortedUnique(a: seq<string>, b: seq<string>)
    requires StrictlySorted(a) && StrictlySorted(b)
    requires forall n :: n in a <==> n in b
    ensures a == b
    decreases |a|
  {
    assert a != [] ==> a[0] in a;
    assert b != [] ==> b[0] in b;
    if a != [] && b != [] {
      assert a[0] in b && b[0] in a;
      SortedHead(a, b[0]);
      SortedHead(b, a[0]);
      LexAsymmetric(a[0], b[0]);
      forall n ensures n in a[1..] ==> n in b[1..] {
        if n in a[1..] {
          var i :| 0 <= i < |a[1..]| && a[1..][i] == n;
          assert a[i + 1] == n && n in b;
          LexIrreflexive(n);
          var j :| 0 <= j < |b| && b[j] == n;
          assert j != 0;
          assert b[1..][j - 1] == n;
        }
      }
      forall n ensures n in b[1..] ==> n in a[1..] {
        if n in b[1..] {
          var j :| 0 <= j < |b[1..]| && b[1..][j] == n;
          assert b[j + 1] == n && n in a;
          LexIrreflexive(n);
          var i :| 0 <= i < |a| && a[i] == n;
          assert i != 0;
          assert a[1..][i - 1] == n;
        }
      }
      SortedUnique(a[1..], b[1..]);
      assert a == [a[0]] + a[1..] && b == [b[0]] + b[1..];
    }
  }

  /** The head of a sorted list is its least element. */
  lemma SortedHead(s: seq<string>, x: string)
    requires StrictlySorted(s) && x in s
    ensures x == s[0] || LexLess(s[0], x)
  {
  }

  lemma LexAsymmetric(a: string, b: string)
    ensures !(LexLess(a, b) && LexLess(b, a))
  {
    if LexLess(a, b) && LexLess(b, a) {
      LexTrans(a, b, a);
      LexIrreflexive(a);
    }
  }

  lemma ToStringDetermined(a: seq<string>, b: seq<string>, recorded: set<string>, implicits: set<string>)
    requires Normalized(a, recorded, implicits) && Normalized(b, recorded, implicits)
    ensures Statements(a) == Statements(b)
  {
    SortedUnique(a, b);
  }

  /** A shortened piece has no `.`: the output names no package. */
  lemma {:induction false} ApplyAllNoDots(segs: seq<string>)
    ensures ApplyAll(segs).result.Ok? ==> '.' !in ApplyAll(segs).result.value
    decreases |segs|
  {
    if segs != [] {
      ApplyAllNoDots(segs[1..]);
      PieceNoDot(segs[0]);
      var p := Piece(segs[0]);
      var rest := ApplyAll(segs[1..]).result;
      if p.Ok? && rest.Ok? {
        assert forall c | c in p.value + rest.value :: c in p.value || c in rest.value;
      }
    }
  }

  /** One shortened piece has no `.`. */
  lemma PieceNoDot(h: string)
    ensures Piece(h).Ok? ==> '.' !in Piece(h).value
  {
    if IsDelimSegment(h) {
      assert h == [h[0]];
    }
  }

  /** A shortened type has no line feed, so it fills a single line. */
  lemma {:induction false} ApplyAllNoLineFeed(segs: seq<string>)
    ensures ApplyAll(segs).result.Ok? ==> '\n' !in ApplyAll(segs).result.value
    decreases |segs|
  {
    if segs != [] {
      ApplyAllNoLineFeed(segs[1..]);
      PieceNoLineFeed(segs[0]);
      var p := Piece(segs[0]);
      var rest := ApplyAll(segs[1..]).result;
      if p.Ok? && rest.Ok? {
        assert forall c | c in p.value + rest.value :: c in p.value || c in rest.value;
      }
    }
  }

  /** One shortened piece has no line feed. */
  lemma PieceNoLineFeed(h: string)
    ensures Piece(h).Ok? ==> '\n' !in Piece(h).value
  {
    if IsDelimSegment(h) {
      assert h == [h[0]];
    } else if Legal(h) && '.' in h {
      var r := SimpleName(h);
      assert h == h[..|h| - |r| - 1] + ['.'] + r;
      assert forall c | c in r :: c in h;
    }
  }

  /** The segments put back together are the type name. */
  lemma {:induction false} SegmentsConcat(s: string)
    ensures Concat(Segments(s)) == s
    decreases |s|
  {
    if s != [] {
      if IsDelim(s[0]) {
        SegmentsConcat(s[1..]);
        assert [s[0]] + s[1..] == s;
      } else {
        var k := RunEnd(s, 0);
        SegmentsConcat(s[k..]);
        assert s[..k] + s[k..] == s;
      }
    }
  }

  lemma {:induction false} DelimsAppend(a: string, b: string)
    ensures Delims(a + b) == Delims(a) + Delims(b)
    decreases |a|
  {
    if a != [] {
      assert (a + b)[1..] == a[1..] + b;
      DelimsAppend(a[1..], b);
    } else {
      assert a + b == b;
    }
  }

  lemma {:induction false} DelimsNone(s: string)
    requires NoDelim(s)
    ensures Delims(s) == []
    decreases |s|
  {
    if s != [] {
      DelimsNone(s[1..]);
    }
  }

  /** Dropping leading blanks keeps a run free of delimiters. */
  lemma NoDelimTrimStart(s: string)
    requires NoDelim(s)
    ensures NoDelim(TrimStart(s))
  {
    var t := TrimStart(s);
    forall i | 0 <= i < |t| ensures !IsDelim(t[i]) {
      assert t[i] == s[|s| - |t| + i];
    }
  }

  /** Dropping trailing blanks keeps a run free of delimiters. */
  lemma NoDelimTrimEnd(s: string)
    requires NoDelim(s)
    ensures NoDelim(TrimEnd(s))
  {
    var t := TrimEnd(s);
    forall i | 0 <= i < |t| ensures !IsDelim(t[i]) {
      assert t[i] == s[i];
    }
  }

  lemma ConcatSingle(t: string)
    ensures Concat([t]) == t
  {
    assert [t][1..] == [];
    assert t + [] == t;
  }

  /** A delimiter segment is kept as it is. */
  lemma KeptDelim(h: string)
    requires IsDelimSegment(h)
    ensures KeptOne(h) == [h]
  {
    DelimSegmentTrim(h);
  }

  /** A delimiter segment is visible: trimming keeps it and it is not blank. */
  lemma DelimSegmentTrim(h: string)
    requires IsDelimSegment(h)
    ensures Trim(h) == h && !IsBlank(h)
  {
    var c := h[0];
    assert c > ' ' && !IsWhitespace(c as int);
    assert h == [c];
    TrimSingle(c);
  }

  /** A run without delimiters is kept, trimmed, without delimiters. */
  lemma KeptPlain(h: string)
    requires NoDelim(h)
    ensures Delims(Concat(KeptOne(h))) == []
  {
    NoDelimTrimStart(h);
    NoDelimTrimEnd(TrimStart(h));
    var t := Trim(h);
    if !IsBlank(t) {
      ConcatSingle(t);
      DelimsNone(t);
    }
  }

  /** Trimming a segment, or dropping it when blank, drops no delimiter. */
  lemma DelimsKeptOne(h: string)
    requires IsDelimSegment(h) || NoDelim(h)
    ensures Delims(Concat(KeptOne(h))) == Delims(h)
  {
    if IsDelimSegment(h) {
      KeptDelim(h);
      ConcatSingle(h);
    } else {
      KeptPlain(h);
      DelimsNone(h);
    }
  }

  /** One shortened piece has the delimiters of the piece. */
  lemma DelimsPiece(h: string)
    requires Piece(h).Ok?
    ensures Delims(Piece(h).value) == Delims(h)
  {
    if !IsDelimSegment(h) {
      assert NoDelim(h);
      DelimsNone(h);
      var n := SingleName(h);
      forall i | 0 <= i < |n| ensures !IsDelim(n[i]) {
        assert n[i] == h[|h| - |n| + i];
      }
      DelimsNone(n);
    }
  }

  /** Trimming and dropping blank segments drops no delimiter. */
  lemma {:induction false} DelimsKept(segs: seq<string>)
    requires forall k | 0 <= k < |segs| :: IsDelimSegment(segs[k]) || NoDelim(segs[k])
    ensures Delims(Concat(Kept(segs))) == Delims(Concat(segs))
    decreases |segs|
  {
    if segs != [] {
      var h := segs[0];
      DelimsKept(segs[1..]);
      DelimsKeptOne(h);
      assert Concat(segs) == h + Concat(segs[1..]);
      DelimsAppend(h, Concat(segs[1..]));
      ConcatAppend(KeptOne(h), Kept(segs[1..]));
      DelimsAppend(Concat(KeptOne(h)), Concat(Kept(segs[1..])));
    }
  }

  /** Shortening keeps every delimiter, in order. */
  lemma {:induction false} DelimsApplied(segs: seq<string>)
    ensures ApplyAll(segs).result.Ok? ==> Delims(ApplyAll(segs).result.value) == Delims(Concat(segs))
    decreases |segs|
  {
    if segs != [] {
      var h := segs[0];
      var p := Piece(h);
      if p.Ok? {
        DelimsApplied(segs[1..]);
        var rest := ApplyAll(segs[1..]).result;
        assert [h] + segs[1..] == segs;
        ConcatAppend([h], segs[1..]);
        DelimsAppend(h, Concat(segs[1..]));
        if rest.Ok? {
          DelimsAppend(p.value, rest.value);
          DelimsPiece(h);
        }
      }
    }
  }

  /** The generic shape survives: the shortened type has the delimiters of the full one. */
  lemma DelimsPreserved(fqcn: string)
    ensures ApplyAll(TypePieces(fqcn)).result.Ok? ==>
      Delims(ApplyAll(TypePieces(fqcn)).result.value) == Delims(fqcn)
  {
    SegmentsConcat(fqcn);
    DelimsKept(Segments(fqcn));
    DelimsApplied(TypePieces(fqcn));
  }

  /** Every recorded name is a legal piece with a `.`. */
  lemma {:induction false} RecordedNames(segs: seq<string>)
    ensures forall n | n in ApplyAll(segs).recorded :: n in segs && Legal(n) && '.' in n
    decreases |segs|
  {
    if segs != [] {
      RecordedNames(segs[1..]);
    }
  }

  /** Without delimiters a run reaches the end of the text. */
  lemma {:induction false} RunEndAll(s: string, i: nat)
    requires i <= |s| && NoDelim(s)
    ensures RunEnd(s, i) == |s|
    decreases |s| - i
  {
    if i < |s| {
      assert !IsDelim(s[i]);
      RunEndAll(s, i + 1);
    }
  }

  /** A plain qualified name is one piece: it is shortened to its simple name and recorded. */
  lemma ApplyPlainName(n: string)
    requires Legal(n) && n[0] > ' ' && n[|n| - 1] > ' '
    ensures ApplyAll(TypePieces(n)) == Applied(Ok(SingleName(n)), Recorded(n))
  {
    assert NoDelim(n);
    RunEndAll(n, 0);
    assert n[|n|..] == [];
    assert Segments(n) == [n[..|n|]];
    assert n[..|n|] == n;
    assert Trim(n) == n;
    var ps := TypePieces(n);
    assert ps == [n];
    assert ps[1..] == [];
    assert SingleName(n) + [] == SingleName(n);
  }

  /** strip takes an import statement back to its name. */
  lemma StripImport(x: string)
    ensures StripStatement("import " + x + ";") == x
  {
    var s := "import " + x + ";";
    assert s[0] == 'i' && s[|s| - 1] == ';';
    assert TrimStart(s) == s;
    assert Trim(s) == s;
    assert s[..7] == "import ";
    var u := s[7..];
    assert u == x + ";";
    assert u[..|u| - 1] == x;
  }
}
