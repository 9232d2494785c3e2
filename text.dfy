/**
 * The parts of java.lang.String and java.lang.Character that the modelled code relies on,
 * stated over sequences. Java's char is a UTF-16 code unit, which may be a lone surrogate;
 * the JSON engine therefore works over CodeUnit, while generated Java source is a Dafny string.
 */
module JavaText {

  /** A Java char: one UTF-16 code unit. */
  type CodeUnit = c: int | 0 <= c < 0x1_0000

  /** The code units of a string literal made of Basic Multilingual Plane characters. */
  function Units(s: string): (r: seq<CodeUnit>)
    requires forall i | 0 <= i < |s| :: s[i] as int < 0x1_0000
    ensures |r| == |s| && forall i | 0 <= i < |s| :: r[i] == s[i] as int
  {
    seq(|s|, i requires 0 <= i < |s| => s[i] as int as CodeUnit)
  }

  lemma UnitsAppend(a: string, b: string)
    requires forall i | 0 <= i < |a| :: a[i] as int < 0x1_0000
    requires forall i | 0 <= i < |b| :: b[i] as int < 0x1_0000
    ensures Units(a + b) == Units(a) + Units(b)
  {
  }

  // ---------------------------------------------------------------- searching

  predicate OccursAt<T(==)>(s: seq<T>, t: seq<T>, i: int) {
    0 <= i && i + |t| <= |s| && s[i..i + |t|] == t
  }

  predicate Contains<T(==)>(s: seq<T>, t: seq<T>) {
    exists i | 0 <= i <= |s| :: OccursAt(s, t, i)
  }

  predicate StartsWith<T(==)>(s: seq<T>, p: seq<T>) { |p| <= |s| && s[..|p|] == p }

  predicate EndsWith<T(==)>(s: seq<T>, p: seq<T>) { |p| <= |s| && s[|s| - |p|..] == p }

  /** String.indexOf(str, from): the first occurrence at or after from, or -1. */
  function IndexOfFrom<T(==)>(s: seq<T>, t: seq<T>, from: nat): (r: int)
    ensures r == -1 || (from <= r && OccursAt(s, t, r))
    ensures forall i :: from <= i && (r == -1 || i < r) ==> !OccursAt(s, t, i)
    decreases |s| - from
  {
    if from + |t| > |s| then -1
    else if s[from..from + |t|] == t then from
    else IndexOfFrom(s, t, from + 1)
  }

  /** String.indexOf(str). */
  function IndexOf<T(==)>(s: seq<T>, t: seq<T>): (r: int)
    ensures r == -1 <==> !Contains(s, t)
    ensures r != -1 ==> OccursAt(s, t, r) && forall i :: 0 <= i < r ==> !OccursAt(s, t, i)
  {
    IndexOfFrom(s, t, 0)
  }

  /** String.lastIndexOf(ch). */
  function LastIndexOf<T(==)>(s: seq<T>, c: T): (r: int)
    ensures -1 <= r < |s|
    ensures r == -1 <==> c !in s
    ensures r != -1 ==> s[r] == c && c !in s[r + 1..]
  {
    if s == [] then -1
    else if s[|s| - 1] == c then |s| - 1
    else
      var k := LastIndexOf(s[..|s| - 1], c);
      assert s == s[..|s| - 1] + [s[|s| - 1]];
      k
  }

  /** The last occurrence is the one with no occurrence after it. */
  lemma LastIndexOfAt<T>(s: seq<T>, c: T, k: nat)
    requires k < |s| && s[k] == c && c !in s[k + 1..]
    ensures LastIndexOf(s, c) == k
  {
    var r := LastIndexOf(s, c);
    assert c in s;
    forall j | k < j < |s|
      ensures s[j] != c
    {
      assert s[k + 1..][j - k - 1] == s[j];
    }
    forall j | r < j < |s|
      ensures s[j] != c
    {
      assert s[r + 1..][j - r - 1] == s[j];
    }
  }

  // ---------------------------------------------------------------- building

  function Repeat<T>(s: seq<T>, n: int): (r: seq<T>)
    ensures n <= 0 ==> r == []
    decreases n
  {
    if n <= 0 then [] else s + Repeat(s, n - 1)
  }

  /** String.join(sep, parts). */
  function Join<T>(parts: seq<seq<T>>, sep: seq<T>): seq<T> {
    if parts == [] then []
    else if |parts| == 1 then parts[0]
    else parts[0] + sep + Join(parts[1..], sep)
  }

  /** A non-empty sequence put before another: its head first, then its tail and the other. */
  lemma ConsSplit<T>(a: seq<T>, b: seq<T>)
    requires a != []
    ensures (a + b)[0] == a[0] && (a + b)[1..] == a[1..] + b
  {
  }

  /** Concatenation regrouped. */
  lemma Regroup<T>(a: seq<T>, b: seq<T>, c: seq<T>)
    ensures (a + b) + c == a + (b + c)
  {
  }

  /** Nothing appended. */
  lemma AppendEmpty<T>(c: seq<T>)
    ensures c + [] == c
  {
  }

  /** The slice up to the length is the whole. */
  lemma FullSlice<T>(c: seq<T>)
    ensures c[..|c|] == c
  {
  }

  /** The first n elements are the first n - 1 and then element n - 1. */
  lemma SnocSlice<T>(c: seq<T>, n: nat)
    requires 1 <= n <= |c|
    ensures c[..n] == c[..n - 1] + [c[n - 1]]
  {
  }

  /** The concatenation of a part followed by more parts. */
  lemma ConcatCons<T>(x: seq<T>, rest: seq<seq<T>>)
    ensures Concat([x] + rest) == x + Concat(rest)
  {
    assert ([x] + rest)[1..] == rest;
  }

  /** The concatenation of all parts. */
  function Concat<T>(parts: seq<seq<T>>): seq<T> {
    if parts == [] then [] else parts[0] + Concat(parts[1..])
  }

  lemma ConcatAppend<T>(a: seq<seq<T>>, b: seq<seq<T>>)
    ensures Concat(a + b) == Concat(a) + Concat(b)
  {
    if a == [] {
      assert a + b == b;
    } else {
      assert (a + b)[1..] == a[1..] + b;
      ConcatAppend(a[1..], b);
    }
  }

  /** The pieces f gives for the elements of s, concatenated in order (built from the back). */
  function FlatMap<T, U>(f: T -> seq<U>, s: seq<T>): seq<U> {
    if s == [] then [] else FlatMap(f, s[..|s| - 1]) + f(s[|s| - 1])
  }

  lemma {:induction false} FlatMapAppend<T, U>(f: T -> seq<U>, a: seq<T>, b: seq<T>)
    ensures FlatMap(f, a + b) == FlatMap(f, a) + FlatMap(f, b)
    decreases |b|
  {
    if b != [] {
      var b' := b[..|b| - 1];
      assert (a + b)[..|a + b| - 1] == a + b';
      assert (a + b)[|a + b| - 1] == b[|b| - 1];
      FlatMapAppend(f, a, b');
    } else {
      assert a + b == a;
    }
  }

  /**
   * String.replace(target, replacement): every occurrence of a non-empty target, scanning left
   * to right without overlap; an empty target matches before every element and at the end, so
   * the replacement is inserted there (`"ab".replace("", "X")` is `"XaXbX"`).
   */
  function Replace<T(==)>(s: seq<T>, target: seq<T>, repl: seq<T>): (r: seq<T>)
    ensures target == [] ==> StartsWith(r, repl)
    decreases |s|
  {
    if target == [] then
      if s == [] then repl else repl + [s[0]] + Replace(s[1..], target, repl)
    else if |s| < |target| then s
    else if s[..|target|] == target then repl + Replace(s[|target|..], target, repl)
    else [s[0]] + Replace(s[1..], target, repl)
  }

  /** Replacing a target that does not occur changes nothing. */
  lemma {:induction false} ReplaceAbsent<T>(s: seq<T>, target: seq<T>, repl: seq<T>)
    requires target != [] && !Contains(s, target)
    ensures Replace(s, target, repl) == s
    decreases |s|
  {
    if |s| >= |target| {
      assert !OccursAt(s, target, 0);
      assert !Contains(s[1..], target) by {
        if Contains(s[1..], target) {
          var i :| 0 <= i <= |s[1..]| && OccursAt(s[1..], target, i);
          assert s[i + 1..i + 1 + |target|] == s[1..][i..i + |target|];
          assert OccursAt(s, target, i + 1);
        }
      }
      ReplaceAbsent(s[1..], target, repl);
      assert [s[0]] + s[1..] == s;
    }
  }

  /** A text without the target's first element does not contain the target. */
  lemma AbsentHead<T>(s: seq<T>, target: seq<T>)
    requires target != [] && target[0] !in s
    ensures !Contains(s, target)
  {
    forall i | 0 <= i <= |s|
      ensures !OccursAt(s, target, i)
    {
      if i + |target| <= |s| {
        assert s[i..i + |target|][0] == s[i];
      }
    }
  }

  /** A target whose first element occurs nowhere around it is replaced at its one occurrence. */
  lemma {:induction false} ReplaceOnce<T>(a: seq<T>, target: seq<T>, b: seq<T>, repl: seq<T>)
    requires target != [] && target[0] !in a && target[0] !in b
    ensures Replace(a + target + b, target, repl) == a + repl + b
    decreases |a|
  {
    var s := a + target + b;
    if a == [] {
      assert s[..|target|] == target && s[|target|..] == b;
      assert !Contains(b, target);
      ReplaceAbsent(b, target, repl);
    } else {
      assert s[0] == a[0] && s[..|target|][0] == a[0];
      assert s[1..] == a[1..] + target + b;
      ReplaceOnce(a[1..], target, b, repl);
      assert [a[0]] + (a[1..] + repl + b) == a + repl + b;
    }
  }

  /** A replacement no longer than its non-empty target never lengthens the text. */
  lemma {:induction false} ReplaceShorter<T>(s: seq<T>, target: seq<T>, repl: seq<T>)
    requires target != [] && |repl| <= |target|
    ensures |Replace(s, target, repl)| <= |s|
    decreases |s|
  {
    if |s| >= |target| {
      if s[..|target|] == target {
        ReplaceShorter(s[|target|..], target, repl);
      } else {
        ReplaceShorter(s[1..], target, repl);
      }
    }
  }

  /**
   * An empty target occurs before every element and at the end: the replacement goes first,
   * then after every element comes the replacement again.
   */
  lemma {:induction false} ReplaceEmptyTarget<T>(s: seq<T>, repl: seq<T>)
    ensures Replace(s, [], repl) == repl + FlatMap((c: T) => [c] + repl, s)
    decreases |s|
  {
    var f := (c: T) => [c] + repl;
    if s != [] {
      ReplaceEmptyTarget(s[1..], repl);
      FlatMapAppend(f, [s[0]], s[1..]);
      assert [s[0]] + s[1..] == s;
      assert [s[0]][..0] == [];
      assert FlatMap(f, [s[0]]) == f(s[0]);
    }
  }

  /** With an empty target the replacement is inserted |s| + 1 times. */
  lemma {:induction false} ReplaceEmptyLength<T>(s: seq<T>, repl: seq<T>)
    ensures |Replace(s, [], repl)| == |s| + (|s| + 1) * |repl|
    decreases |s|
  {
    if s != [] {
      ReplaceEmptyLength(s[1..], repl);
      assert (|s| + 1) * |repl| == |repl| + |s| * |repl|;
    }
  }

  /** Element i of s lands after i + 1 copies of the replacement and i elements before it. */
  lemma {:induction false} ReplaceEmptyAt<T>(s: seq<T>, repl: seq<T>, i: nat)
    requires i < |s|
    ensures var k := i * (|repl| + 1);
      k + |repl| < |Replace(s, [], repl)| &&
      Replace(s, [], repl)[k..k + |repl|] == repl && Replace(s, [], repl)[k + |repl|] == s[i]
    decreases i
  {
    var n := |repl|;
    var t := Replace(s[1..], [], repl);
    var a := repl + [s[0]];
    assert Replace(s, [], repl) == a + t;
    if i > 0 {
      ReplaceEmptyAt(s[1..], repl, i - 1);
      var k' := (i - 1) * (n + 1);
      Stride(i, n);
      SliceAfter(a, t, k', k' + n);
    } else {
      SliceAfter([], a + t, 0, n);
    }
  }

  lemma Stride(i: nat, n: nat)
    requires i > 0
    ensures i * (n + 1) == (i - 1) * (n + 1) + n + 1
  {
  }

  lemma SliceAfter<T>(a: seq<T>, t: seq<T>, x: nat, y: nat)
    requires x <= y < |t|
    ensures (a + t)[|a| + x..|a| + y] == t[x..y] && (a + t)[|a| + y] == t[y]
  {
  }

  /** String.replace with an empty target: `"ab".replace("", "X")` is `"XaXbX"`. */
  lemma ReplaceEmptyExample()
    ensures Replace("ab", "", "X") == "XaXbX"
  {
  }

  // ---------------------------------------------------------------- splitting

  /** The pieces between the occurrences of d, always one more than the occurrences. */
  function Pieces<T(==)>(s: seq<T>, d: T): (r: seq<seq<T>>)
    ensures |r| >= 1
    ensures forall i | 0 <= i < |r| :: d !in r[i]
  {
    if s == [] then [[]]
    else if s[0] == d then [[]] + Pieces(s[1..], d)
    else var p := Pieces(s[1..], d); [[s[0]] + p[0]] + p[1..]
  }

  lemma {:induction false} PiecesJoin<T>(s: seq<T>, d: T)
    ensures Join(Pieces(s, d), [d]) == s
  {
    if s == [] {
    } else if s[0] == d {
      PiecesJoin(s[1..], d);
      var p := Pieces(s[1..], d);
      assert Pieces(s, d) == [[]] + p;
      assert ([[]] + p)[1..] == p;
    } else {
      PiecesJoin(s[1..], d);
      var p := Pieces(s[1..], d);
      assert Pieces(s, d) == [[s[0]] + p[0]] + p[1..];
      if |p| > 1 {
        assert Join(p, [d]) == p[0] + [d] + Join(p[1..], [d]);
        assert ([[s[0]] + p[0]] + p[1..])[1..] == p[1..];
      }
    }
  }

  /** Without the delimiter there is one piece, the whole. */
  lemma {:induction false} PiecesNoDelim<T>(x: seq<T>, d: T)
    requires d !in x
    ensures Pieces(x, d) == [x]
  {
    if x != [] {
      assert x == [x[0]] + x[1..];
      PiecesNoDelim(x[1..], d);
      assert [x[0]] + x[1..] == x;
    }
  }

  /** A piece without the delimiter, then the delimiter: that piece first, then the pieces of the rest. */
  lemma {:induction false} PiecesDelim<T>(x: seq<T>, d: T, y: seq<T>)
    requires d !in x
    ensures Pieces(x + [d] + y, d) == [x] + Pieces(y, d)
  {
    if x == [] {
      assert x + [d] + y == [d] + y;
      assert ([d] + y)[1..] == y;
    } else {
      assert x == [x[0]] + x[1..];
      PiecesDelim(x[1..], d, y);
      var s := x + [d] + y;
      assert s[0] == x[0] && s[0] != d;
      assert s[1..] == x[1..] + [d] + y;
      assert [x[0]] + x[1..] == x;
    }
  }

  /** Cutting joined parts at the delimiter gives the parts back, when no part holds it. */
  lemma {:induction false} JoinPieces<T>(parts: seq<seq<T>>, d: T)
    requires parts != []
    requires forall i | 0 <= i < |parts| :: d !in parts[i]
    ensures Pieces(Join(parts, [d]), d) == parts
  {
    if |parts| == 1 {
      PiecesNoDelim(parts[0], d);
    } else {
      JoinPieces(parts[1..], d);
      PiecesDelim(parts[0], d, Join(parts[1..], [d]));
      assert [parts[0]] + parts[1..] == parts;
    }
  }

  /** One more part joined at the end. */
  lemma {:induction false} JoinSnoc<T>(parts: seq<seq<T>>, sep: seq<T>, x: seq<T>)
    requires parts != []
    ensures Join(parts + [x], sep) == Join(parts, sep) + sep + x
  {
    if |parts| == 1 {
      assert (parts + [x])[1..] == [x];
    } else {
      JoinSnoc(parts[1..], sep, x);
      assert (parts + [x])[1..] == parts[1..] + [x];
      var h := parts[0];
      var j := Join(parts[1..], sep);
      assert Join(parts + [x], sep) == h + sep + (j + sep + x);
      assert Join(parts, sep) == h + sep + j;
    }
  }

  /** Drops the empty pieces at the end, as java.lang.String.split does. */
  function DropTrailingEmpty<T>(p: seq<seq<T>>): (r: seq<seq<T>>)
    ensures r <= p
    ensures r == [] || r[|r| - 1] != []
    ensures forall i | |r| <= i < |p| :: p[i] == []
  {
    if p == [] then []
    else if p[|p| - 1] == [] then DropTrailingEmpty(p[..|p| - 1])
    else p
  }

  /**
   * String.split on a one-character delimiter: the whole string when the delimiter does not
   * occur (even when that string is empty), otherwise the pieces without trailing empty ones.
   */
  function Split<T(==)>(s: seq<T>, d: T): (r: seq<seq<T>>)
    ensures d !in s ==> r == [s]
    ensures d in s ==> r == DropTrailingEmpty(Pieces(s, d))
  {
    if d !in s then [s] else DropTrailingEmpty(Pieces(s, d))
  }

  /** Index of the first line terminator ('\n' or '\r') at or after i, or |s|. */
  function LineEnd(s: string, i: nat): (r: nat)
    requires i <= |s|
    ensures i <= r <= |s|
    ensures forall k | i <= k < r :: s[k] != '\n' && s[k] != '\r'
    ensures r < |s| ==> s[r] == '\n' || s[r] == '\r'
    decreases |s| - i
  {
    if i == |s| || s[i] == '\n' || s[i] == '\r' then i else LineEnd(s, i + 1)
  }

  /**
   * String.lines(): the lines separated by "\n", "\r" or "\r\n"; a terminator at the very
   * end does not start another (empty) line, and the empty string has no lines.
   */
  function Lines(s: string): (r: seq<string>)
    ensures s == [] <==> r == []
    ensures forall i | 0 <= i < |r| :: '\n' !in r[i] && '\r' !in r[i]
    decreases |s|
  {
    if s == [] then []
    else
      var i := LineEnd(s, 0);
      if i == |s| then [s]
      else
        var j := if s[i] == '\r' && i + 1 < |s| && s[i + 1] == '\n' then i + 2 else i + 1;
        [s[..i]] + Lines(s[j..])
  }

  // ---------------------------------------------------------------- characters

  /** Character.isWhitespace on a code point. */
  predicate IsWhitespace(c: int) {
    c == 0x20 || 0x09 <= c <= 0x0D || 0x1C <= c <= 0x1F
    || c == 0x1680 || (0x2000 <= c <= 0x200A && c != 0x2007)
    || c == 0x2028 || c == 0x2029 || c == 0x205F || c == 0x3000
  }

  /** String.isBlank. */
  predicate IsBlank(s: string) { forall i | 0 <= i < |s| :: IsWhitespace(s[i] as int) }

  /** String.isBlank on code units. */
  predicate IsBlankUnits(s: seq<CodeUnit>) { forall i | 0 <= i < |s| :: IsWhitespace(s[i]) }

  /** String.trim: drops the characters at or below ' ' from both ends. */
  function Trim(s: string): (r: string)
    ensures |r| <= |s|
    ensures r == [] || (r[0] > ' ' && r[|r| - 1] > ' ')
  {
    TrimEnd(TrimStart(s))
  }

  /** One visible char is its own trim. */
  lemma TrimSingle(c: char)
    requires c > ' '
    ensures Trim([c]) == [c]
  {
    var s := [c];
    assert TrimFrom(s, 0) == 0;
    assert s[0..] == s;
    assert TrimTo(s, 1) == 1;
    assert s[..1] == s;
  }

  /** The index of the first character above ' ' at or after i, or |s|. */
  function TrimFrom(s: string, i: nat): (k: nat)
    requires i <= |s|
    ensures i <= k <= |s|
    ensures k == |s| || s[k] > ' '
    ensures forall m | i <= m < k :: s[m] <= ' '
    decreases |s| - i
  {
    if i == |s| || s[i] > ' ' then i else TrimFrom(s, i + 1)
  }

  /** The end of s before the characters at or below ' ' that close it, looking below j. */
  function TrimTo(s: string, j: nat): (k: nat)
    requires j <= |s|
    ensures k <= j
    ensures k == 0 || s[k - 1] > ' '
    ensures forall m | k <= m < j :: s[m] <= ' '
    decreases j
  {
    if j == 0 || s[j - 1] > ' ' then j else TrimTo(s, j - 1)
  }

  function TrimStart(s: string): (r: string)
    ensures |r| <= |s|
    ensures r == [] || r[0] > ' '
  {
    s[TrimFrom(s, 0)..]
  }

  function TrimEnd(s: string): (r: string)
    ensures r == [] || r[|r| - 1] > ' '
    ensures s != [] && s[0] > ' ' ==> r != [] && r[0] == s[0]
  {
    s[..TrimTo(s, |s|)]
  }

  /** The trimmed text is found inside the text. */
  lemma TrimContains(s: string)
    ensures Contains(s, Trim(s))
  {
    var a := TrimFrom(s, 0);
    var t := s[a..];
    assert Trim(s) == t[..TrimTo(t, |t|)];
    assert OccursAt(s, Trim(s), a);
  }

  /** Characters at or below ' ' in front of a text: they start the scan at its first character. */
  lemma {:induction false} TrimFromShift(p: string, x: string, j: nat)
    requires j <= |x|
    ensures TrimFrom(p + x, |p| + j) == |p| + TrimFrom(x, j)
    decreases |x| - j
  {
    if j < |x| {
      assert (p + x)[|p| + j] == x[j];
      if x[j] <= ' ' {
        TrimFromShift(p, x, j + 1);
      }
    }
  }

  /** Leading characters at or below ' ' do not survive trimming. */
  lemma {:induction false} TrimFromBlank(p: string, x: string, i: nat)
    requires i <= |p|
    requires forall k | 0 <= k < |p| :: p[k] <= ' '
    ensures TrimFrom(p + x, i) == |p| + TrimFrom(x, 0)
    decreases |p| - i
  {
    if i < |p| {
      assert (p + x)[i] == p[i];
      TrimFromBlank(p, x, i + 1);
    } else {
      TrimFromShift(p, x, 0);
    }
  }

  /** A prefix of characters at or below ' ' is trimmed away. */
  lemma TrimStartBlankPrefix(p: string, x: string)
    requires forall k | 0 <= k < |p| :: p[k] <= ' '
    ensures TrimStart(p + x) == TrimStart(x)
  {
    TrimFromBlank(p, x, 0);
    assert (p + x)[|p| + TrimFrom(x, 0)..] == x[TrimFrom(x, 0)..];
  }

  /** String.strip: drops whitespace (Character.isWhitespace) from both ends. */
  function Strip(s: string): (r: string)
    ensures |r| <= |s|
    ensures r == [] || (!IsWhitespace(r[0] as int) && !IsWhitespace(r[|r| - 1] as int))
  {
    StripEnd(StripStart(s))
  }

  function StripStart(s: string): (r: string)
    ensures |r| <= |s|
    ensures r == [] || !IsWhitespace(r[0] as int)
  {
    if s == [] || !IsWhitespace(s[0] as int) then s else StripStart(s[1..])
  }

  function StripEnd(s: string): (r: string)
    ensures r <= s
    ensures r == [] || !IsWhitespace(r[|r| - 1] as int)
    ensures s != [] && !IsWhitespace(s[0] as int) ==> r != [] && r[0] == s[0]
  {
    if s == [] || !IsWhitespace(s[|s| - 1] as int) then s else StripEnd(s[..|s| - 1])
  }

  lemma {:induction false} StripNotBlank(s: string)
    ensures Strip(s) == [] <==> IsBlank(s)
  {
    if s == [] {
    } else if !IsWhitespace(s[0] as int) {
      assert Strip(s) != [];
    } else {
      StripNotBlank(s[1..]);
      assert StripStart(s) == StripStart(s[1..]);
      assert IsBlank(s) <==> IsBlank(s[1..]) by {
        if IsBlank(s[1..]) {
          forall i | 0 <= i < |s| ensures IsWhitespace(s[i] as int) {
            if i > 0 { assert s[i] == s[1..][i - 1]; }
          }
        }
      }
    }
  }

  /** Character.isUpperCase, on ASCII letters. */
  predicate IsUpper(c: char) { 'A' <= c <= 'Z' }

  /** Character.toUpperCase, on ASCII letters. */
  function ToUpper(c: char): (r: char)
    ensures 'a' <= c <= 'z' ==> IsUpper(r)
    ensures !('a' <= c <= 'z') ==> r == c
  {
    if 'a' <= c <= 'z' then (c as int - 32) as char else c
  }

  /** Character.toLowerCase, on ASCII letters. */
  function ToLower(c: char): (r: char)
    ensures IsUpper(c) ==> 'a' <= r <= 'z' && ToUpper(r) == c
    ensures !IsUpper(c) ==> r == c
  {
    if IsUpper(c) then (c as int + 32) as char else c
  }
}
