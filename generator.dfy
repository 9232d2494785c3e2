/**
 * What the two code generators (Objectify and Stringify) share: the count of
 * a type on the stack of types being generated and the budget that bounds
 * the recursion, the fresh-name rule of uniqueName, and the template
 * operations on the lines of a generated block (Code.interpolate,
 * Code.interpolateType and Code.append on values).
 */
module Generators {
  import opened Wrappers
  import opened JavaText
  import opened ImportLists
  import opened Codes

  // ---------------------------------------------------------------- the type stack

  /** stack.stream().filter(n::equals).count(). */
  function Count(stack: seq<string>, n: string): nat {
    if stack == [] then 0 else (if stack[0] == n then 1 else 0) + Count(stack[1..], n)
  }

  /** How many more times n may be pushed before the cut-off answers instead. */
  function Slack(stack: seq<string>, n: string, depth: int): nat {
    if Count(stack, n) > depth then 0 else depth + 1 - Count(stack, n)
  }

  /** The pushes left for all the names: the measure that makes generation on cyclic types finite. */
  function Budget(stack: seq<string>, names: seq<string>, depth: int): nat {
    if names == [] then 0 else Slack(stack, names[0], depth) + Budget(stack, names[1..], depth)
  }

  /** Pushing n adds one occurrence of n and none of any other name. */
  lemma CountPush(stack: seq<string>, n: string, m: string)
    ensures Count([n] + stack, m) == Count(stack, m) + (if m == n then 1 else 0)
  {
    assert ([n] + stack)[1..] == stack;
  }

  /**
   * A push the cut-off allows never raises the budget, and lowers it when the
   * name is one of the names counted.
   */
  lemma {:induction false} PushShrinks(stack: seq<string>, n: string, names: seq<string>, depth: int)
    requires Count(stack, n) <= depth
    ensures Budget([n] + stack, names, depth) <= Budget(stack, names, depth)
    ensures n in names ==> Budget([n] + stack, names, depth) < Budget(stack, names, depth)
    decreases |names|
  {
    if names != [] {
      CountPush(stack, n, names[0]);
      PushShrinks(stack, n, names[1..], depth);
      if n in names && n != names[0] {
        assert n in names[1..];
      }
    }
  }

  // ---------------------------------------------------------------- uniqueName

  function Digit(d: nat): char
    requires d < 10
  {
    "0123456789"[d]
  }

  /** Integer.toString of a non-negative int. */
  function Decimal(k: nat): (r: string)
    ensures |r| >= 1
  {
    if k < 10 then [Digit(k)] else Decimal(k / 10) + [Digit(k % 10)]
  }

  /**
   * The candidate after k collisions: uniqueName appends the loop counter to
   * the candidate it already extended, so "x" becomes "x1", then "x12".
   */
  function Chained(c: string, k: nat): (r: string)
    ensures |r| >= |c| + k && r[..|c|] == c
  {
    if k == 0 then c
    else
      var p := Chained(c, k - 1);
      assert (p + Decimal(k))[..|c|] == p[..|c|];
      p + Decimal(k)
  }

  /** The names at least len long. */
  function Longer(defined: set<string>, len: nat): set<string> {
    set n | n in defined && |n| >= len
  }

  /** A defined name of length len1 is among the names at least len1 long and not among the longer ones. */
  lemma LongerShrinks(defined: set<string>, x: string, len2: nat)
    requires x in defined && |x| < len2
    ensures |Longer(defined, len2)| < |Longer(defined, |x|)|
  {
    var a := Longer(defined, len2);
    var b := Longer(defined, |x|);
    assert a <= b - {x};
    assert x in b;
    SubsetCard(a, b - {x});
  }

  lemma {:induction false} SubsetCard<T>(a: set<T>, b: set<T>)
    requires a <= b
    ensures |a| <= |b|
    decreases |b|
  {
    if a != {} {
      var x :| x in a;
      SubsetCard(a - {x}, b - {x});
    }
  }

  /** The number of collisions uniqueName meets from the k-th candidate on. */
  function FreeIndex(defined: set<string>, c: string, k: nat): (j: nat)
    ensures j >= k && Chained(c, j) !in defined
    ensures forall i | k <= i < j :: Chained(c, i) in defined
    decreases |Longer(defined, |Chained(c, k)|)|
  {
    var x := Chained(c, k);
    if x !in defined then k
    else
      LongerShrinks(defined, x, |Chained(c, k + 1)|);
      FreeIndex(defined, c, k + 1)
  }

  /**
   * The name uniqueName settles on: the first candidate in the chain that is
   * not defined yet; it is the candidate itself when that is free, and always
   * starts with the candidate.
   */
  function FreeName(defined: set<string>, c: string): (r: string)
    ensures r !in defined
    ensures |r| >= |c| && r[..|c|] == c
    ensures c !in defined ==> r == c
  {
    Chained(c, FreeIndex(defined, c, 0))
  }

  /** Two collisions on "x": "x1" is taken as well, so the name is "x12". */
  lemma FreeNameCumulative()
    ensures FreeName({"x", "x1"}, "x") == "x12"
  {
    var d: set<string> := {"x", "x1"};
    assert Decimal(1) == "1" && Decimal(2) == "2";
    assert Chained("x", 1) == "x1";
    assert Chained("x", 2) == "x12";
    assert "x12" !in d;
    assert FreeIndex(d, "x", 2) == 2;
    assert FreeIndex(d, "x", 1) == 2;
  }

  /** The loop of uniqueName: the candidate is extended with the counter until no defined name equals it. */
  method FreshName(defined: set<string>, candidate: string) returns (name: string)
    ensures name == FreeName(defined, candidate)
  {
    name := candidate;
    var i := 1;
    while name in defined
      invariant i >= 1 && name == Chained(candidate, i - 1)
      invariant FreeIndex(defined, candidate, i - 1) == FreeIndex(defined, candidate, 0)
      decreases |Longer(defined, |name|)|
    {
      LongerShrinks(defined, name, |name + Decimal(i)|);
      name := name + Decimal(i);
      i := i + 1;
    }
  }

  // ---------------------------------------------------------------- template operations on lines

  /** Code.interpolate(key, text) on the lines ls. */
  function Fill(ls: seq<string>, key: string, value: string): (r: Result<seq<string>>)
    ensures r.Err? ==> r.failure == IndexOutOfBounds
    ensures r.Ok? ==> |r.value| >= |ls|
    ensures '\n' !in value ==> r.Ok? && |r.value| == |ls|
  {
    var s := SubstAll(ls, key, value);
    SubstKeepsLines(ls, key, value);
    assert '\n' !in value ==> s.result.Ok? && |s.lines| == |ls| by {
      if '\n' !in value { SubstSingleLine(ls, key, value); }
    }
    if s.result.Err? then Err(s.result.failure) else Ok(s.lines)
  }

  /** A one-line template holding the key once: the value takes the key's place. */
  lemma FillOneLine(pre: string, key: string, post: string, value: string)
    requires key != [] && key[0] !in pre && key[0] !in post && '\n' !in value
    ensures Fill([pre + key + post], key, value) == Ok([pre + value + post])
  {
    SubstSingleLine([pre + key + post], key, value);
    ReplaceOnce(pre, key, post, value);
    var lines := SubstAll([pre + key + post], key, value).lines;
    assert lines == [lines[0]];
  }

  /** A two-line template: each line has the key replaced. */
  lemma FillPair(l0: string, l1: string, key: string, value: string)
    requires '\n' !in value
    ensures Fill([l0, l1], key, value) == Ok([Replace(l0, key, value), Replace(l1, key, value)])
  {
    SubstSingleLine([l0, l1], key, value);
    var lines := SubstAll([l0, l1], key, value).lines;
    assert lines == [lines[0], lines[1]];
  }

  /** Code.interpolate(key, code): the code's content in place of the key. */
  function FillCode(ls: seq<string>, key: string, code: seq<string>): (r: Result<seq<string>>)
    ensures r.Err? ==> r.failure == IndexOutOfBounds
    ensures r.Ok? ==> |r.value| >= |ls|
  {
    Fill(ls, key, ContentOf(code))
  }

  /** The type text shortened by a fresh import set, as interpolateType writes it. */
  function ShortType(typeText: string): (r: Result<string>)
    ensures r.Ok? ==> '.' !in r.value && '\n' !in r.value
    ensures r.Err? ==> r.failure == IllegalArgument
  {
    ApplyAllNoDots(TypePieces(StripStatement(typeText)));
    ApplyAllNoLineFeed(TypePieces(StripStatement(typeText)));
    ApplyAll(TypePieces(StripStatement(typeText))).result
  }

  /** Code.interpolateType(key, type) on the lines ls. */
  function FillType(ls: seq<string>, key: string, typeText: string): (r: Result<seq<string>>)
    ensures r.Ok? <==> ShortType(typeText).Ok?
    ensures r.Err? ==> r.failure == IllegalArgument
    ensures r.Ok? ==> |r.value| == |ls|
  {
    var t :- ShortType(typeText);
    Fill(ls, key, t)
  }

  /** Code.append(literal): the last line is extended; a block without lines has no last line. */
  function AppendLast(ls: seq<string>, literal: string): (r: Result<seq<string>>)
    ensures r.Err? <==> ls == []
    ensures r.Ok? ==> |r.value| == |ls| && r.value[..|ls| - 1] == ls[..|ls| - 1]
    ensures r.Ok? ==> r.value[|ls| - 1] == ls[|ls| - 1] + literal
  {
    if ls == [] then Err(IndexOutOfBounds) else Ok(ls[..|ls| - 1] + [ls[|ls| - 1] + literal])
  }

  /**
   * The blocks a loop over n entries adds, in order, each with `sep` appended
   * to its last line when another entry follows.
   */
  /** No block is empty, so each has a last line to append to. */
  predicate NoneEmpty(pieces: seq<seq<string>>) {
    forall k | 0 <= k < |pieces| :: pieces[k] != []
  }

  function Listed(pieces: seq<seq<string>>, n: nat, sep: string): (r: Result<seq<string>>)
    ensures r.Ok? <==> NoneEmpty(pieces)
    ensures r.Err? ==> r.failure == IndexOutOfBounds
    decreases |pieces|
  {
    if pieces == [] then Ok([])
    else
      var k := |pieces| - 1;
      var front :- Listed(pieces[..k], n, sep);
      var last :- AppendLast(pieces[k], if k < n - 1 then sep else "");
      Ok(front + last)
  }

  /** One more block: the lines so far, then the block with its separator. */
  lemma ListedSnoc(pieces: seq<seq<string>>, p: seq<string>, n: nat, sep: string, lines: seq<string>, last: seq<string>)
    requires Listed(pieces, n, sep) == Ok(lines)
    requires AppendLast(p, if |pieces| < n - 1 then sep else "") == Ok(last)
    ensures Listed(pieces + [p], n, sep) == Ok(lines + last)
  {
    assert (pieces + [p])[..|pieces|] == pieces;
  }

  /**
   * One-line blocks come out one per line, each but the last followed by the
   * separator: there is no separator after the last entry.
   */
  lemma {:induction false} ListedSingles(pieces: seq<seq<string>>, n: nat, sep: string)
    requires |pieces| <= n
    requires forall k | 0 <= k < |pieces| :: |pieces[k]| == 1
    ensures Listed(pieces, n, sep).Ok?
    ensures var r := Listed(pieces, n, sep).value;
      |r| == |pieces| && forall k | 0 <= k < |r| :: r[k] == pieces[k][0] + (if k < n - 1 then sep else "")
    decreases |pieces|
  {
    if pieces != [] {
      var k := |pieces| - 1;
      var init := pieces[..k];
      assert init + [pieces[k]] == pieces;
      ListedSingles(init, n, sep);
      var front := Listed(init, n, sep).value;
      ListedSinglesStep(init, pieces[k], n, sep, front);
      var r := front + [pieces[k][0] + (if k < n - 1 then sep else "")];
      forall j | 0 <= j < |r|
        ensures r[j] == pieces[j][0] + (if j < n - 1 then sep else "")
      {
        if j < k {
          assert r[j] == front[j] && init[j] == pieces[j];
        }
      }
    }
  }

  /** One more one-line block: it comes out as one line, with the separator when another entry follows. */
  lemma ListedSinglesStep(init: seq<seq<string>>, p: seq<string>, n: nat, sep: string, front: seq<string>)
    requires |init| < n && |p| == 1
    requires Listed(init, n, sep) == Ok(front)
    ensures Listed(init + [p], n, sep) == Ok(front + [p[0] + (if |init| < n - 1 then sep else "")])
  {
    var pieces := init + [p];
    assert pieces[..|init|] == init;
  }

  /** A block without lines stops the loop: Code.append has no line to extend. */
  lemma {:induction false} ListedEmptyPiece(pieces: seq<seq<string>>, n: nat, sep: string, k: nat)
    requires k < |pieces| && pieces[k] == []
    ensures Listed(pieces, n, sep).Err?
    decreases |pieces|
  {
    var last := |pieces| - 1;
    if k < last {
      assert pieces[..last][k] == pieces[k];
      ListedEmptyPiece(pieces[..last], n, sep, k);
    }
  }
}
