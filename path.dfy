/**
 * Path: the property names leading from a root object to the value a generated method works
 * on, joined three ways for the generated source: as an Optional chain, as a JSON pointer and
 * as a camel-case identifier.
 */
module Paths {
  import opened Wrappers
  import opened JavaText
  import Iterate

  // ------------------------------------------------------------ segments

  /** The segments that are not blank, in order. */
  function NonBlank(ps: seq<string>): (r: seq<string>)
    ensures |r| <= |ps|
    ensures forall i | 0 <= i < |r| :: !IsBlank(r[i])
  {
    if ps == [] then []
    else (if IsBlank(ps[0]) then [] else [ps[0]]) + NonBlank(ps[1..])
  }

  /** Segments free of a character stay free of it when the blank ones are dropped. */
  lemma {:induction false} NonBlankFree(ps: seq<string>, c: char)
    requires forall i | 0 <= i < |ps| :: c !in ps[i]
    ensures forall i | 0 <= i < |NonBlank(ps)| :: c !in NonBlank(ps)[i]
  {
    if ps != [] {
      NonBlankFree(ps[1..], c);
      var head: seq<string> := if IsBlank(ps[0]) then [] else [ps[0]];
      assert NonBlank(ps) == head + NonBlank(ps[1..]);
    }
  }

  /** A segment that is not blank has a first character. */
  lemma NotBlankNonEmpty(s: string)
    requires !IsBlank(s)
    ensures s != []
  {
  }

  // ------------------------------------------------------------ pointerJoin

  /** pointerJoin: "/" and the non-blank segments joined by "/". */
  function PointerOf(ps: seq<string>): (r: string)
    ensures r != [] && r[0] == '/'
    ensures r == "/" <==> NonBlank(ps) == []
  {
    var parts := NonBlank(ps);
    assert parts != [] ==> parts[0] != [] by {
      if parts != [] { NotBlankNonEmpty(parts[0]); }
    }
    "/" + Join(parts, "/")
  }

  /**
   * The pointer is read back by cutting it after its leading "/" at every "/": the non-blank
   * segments come back in order when none of them holds a "/", and only blank ones give "/".
   */
  lemma PointerSegments(ps: seq<string>)
    requires forall i | 0 <= i < |ps| :: '/' !in ps[i]
    ensures PointerOf(ps)[0] == '/'
    ensures NonBlank(ps) == [] ==> PointerOf(ps) == "/"
    ensures NonBlank(ps) != [] ==> Split(PointerOf(ps)[1..], '/') == NonBlank(ps)
  {
    var parts := NonBlank(ps);
    assert PointerOf(ps)[1..] == Join(parts, "/");
    if parts != [] {
      NonBlankFree(ps, '/');
      JoinSplit(parts, '/');
    }
  }

  /** Parts that are not empty and hold no d, joined by d and split at d, come back. */
  lemma JoinSplit(parts: seq<string>, d: char)
    requires parts != [] && parts[|parts| - 1] != []
    requires forall i | 0 <= i < |parts| :: d !in parts[i]
    ensures Split(Join(parts, [d]), d) == parts
  {
    var s := Join(parts, [d]);
    JoinPieces(parts, d);
    if |parts| == 1 {
      assert s == parts[0];
    } else {
      assert s == parts[0] + [d] + Join(parts[1..], [d]);
      assert s[|parts[0]|] == d;
    }
  }

  // ------------------------------------------------------------ camelJoin

  /** A segment with its first character upper-cased. */
  function Capitalized(s: string): (r: string)
    requires s != []
    ensures |r| == |s| && r[0] == ToUpper(s[0]) && r[1..] == s[1..]
  {
    [ToUpper(s[0])] + s[1..]
  }

  /** The capitalized non-blank segments, concatenated. */
  function CamelParts(ps: seq<string>): string {
    if ps == [] then []
    else (if IsBlank(ps[0]) then [] else Capitalized(ps[0])) + CamelParts(ps[1..])
  }

  /**
   * camelJoin: every non-blank segment capitalized, concatenated, and the first character
   * lower-cased; without a non-blank segment charAt(0) is out of bounds. Otherwise the
   * identifier has one character for each character of the non-blank segments.
   */
  function CamelOf(ps: seq<string>): (r: Result<string>)
    ensures r.Err? <==> NonBlank(ps) == []
    ensures r.Err? ==> r.failure == IndexOutOfBounds
    ensures r.Ok? ==> |r.value| == |Concat(NonBlank(ps))|
  {
    var ret := CamelParts(ps);
    CamelPartsLength(ps);
    if ret == [] then Err(IndexOutOfBounds) else Ok([ToLower(ret[0])] + ret[1..])
  }

  /** The camel-case parts are as long as the non-blank segments together, and empty only without any. */
  lemma {:induction false} CamelPartsLength(ps: seq<string>)
    ensures |CamelParts(ps)| == |Concat(NonBlank(ps))|
    ensures CamelParts(ps) == [] <==> NonBlank(ps) == []
  {
    if ps != [] {
      CamelPartsLength(ps[1..]);
      if IsBlank(ps[0]) {
        assert NonBlank(ps) == [] + NonBlank(ps[1..]) == NonBlank(ps[1..]);
        assert CamelParts(ps) == [] + CamelParts(ps[1..]) == CamelParts(ps[1..]);
      } else {
        NotBlankNonEmpty(ps[0]);
        assert NonBlank(ps) == [ps[0]] + NonBlank(ps[1..]);
        ConcatCons(ps[0], NonBlank(ps[1..]));
        assert CamelParts(ps) == Capitalized(ps[0]) + CamelParts(ps[1..]);
      }
    }
  }

  /** A single segment that starts with a lower-case letter is its own camel case. */
  lemma CamelSingle(s: string)
    requires s != [] && 'a' <= s[0] <= 'z'
    ensures CamelOf([s]) == Ok(s)
  {
    assert !IsWhitespace(s[0] as int);
    assert !IsBlank(s);
    assert [s][0] == s && [s][1..] == [];
    var c := Capitalized(s);
    assert CamelParts([s]) == c + [];
    assert c + [] == c;
    assert ToLower(c[0]) == s[0];
    assert [ToLower(c[0])] + c[1..] == [s[0]] + s[1..] == s;
  }

  /** Each later segment starts a word: camelJoin of ["aa", "bb"] is "aaBb". */
  lemma CamelTwo()
    ensures CamelOf(["aa", "bb"]) == Ok("aaBb")
  {
    var ps := ["aa", "bb"];
    assert !IsWhitespace("aa"[0] as int) && !IsWhitespace("bb"[0] as int);
    assert !IsBlank("aa") && !IsBlank("bb");
    assert ps[0] == "aa" && ps[1..] == ["bb"];
    assert ps[1..][0] == "bb" && ps[1..][1..] == [];
    assert Capitalized("aa") == "Aa";
    assert Capitalized("bb") == "Bb";
    assert CamelParts(["bb"]) == "Bb" + [];
    var ret := CamelParts(ps);
    assert ret == "Aa" + "Bb" == "AaBb";
    assert ToLower(ret[0]) == 'a';
    assert [ToLower(ret[0])] + ret[1..] == "aaBb";
  }

  /** camelJoinOr(other): the camel case, or other when there is no non-blank segment. */
  function CamelOr(ps: seq<string>, other: string): (r: string)
    ensures NonBlank(ps) == [] ==> r == other
    ensures NonBlank(ps) != [] ==> Ok(r) == CamelOf(ps)
  {
    match CamelOf(ps)
    case Ok(s) => s
    case Err(_) => other
  }

  // ------------------------------------------------------------ elvisJoin

  const ElvisHead: string := "Optional.ofNullable("
  const ElvisSep: string := ").map(e -> e."

  /** String.endsWith(")"). */
  predicate EndsWithParen(s: string) {
    s != [] && s[|s| - 1] == ')'
  }

  /** A segment as elvisJoin writes it: a later segment is called, unless it already ends in ")". */
  function Called(seg: string, first: bool): string {
    if !first && !EndsWithParen(seg) then seg + "()" else seg
  }

  /**
   * What elvisJoin writes for entry i: nothing for a blank segment; otherwise the segment,
   * then the separator when the walk has another entry (blank or not).
   */
  function ElvisPart(ps: seq<string>, i: nat, sep: string): string
    requires i < |ps|
  {
    if IsBlank(ps[i]) then []
    else Called(ps[i], i == 0) + (if i + 1 < |ps| then sep else [])
  }

  /** The parts of the first n entries. */
  function ElvisUpTo(ps: seq<string>, n: nat, sep: string): string
    requires n <= |ps|
  {
    if n == 0 then [] else ElvisUpTo(ps, n - 1, sep) + ElvisPart(ps, n - 1, sep)
  }

  /** elvisJoin: the head, the parts of all entries, and ")". */
  function ElvisOf(ps: seq<string>): (r: string)
    ensures StartsWith(r, ElvisHead) && EndsWith(r, ")")
    ensures ps == [] ==> r == ElvisHead + ")"
  {
    ElvisHead + ElvisUpTo(ps, |ps|, ElvisSep) + ")"
  }

  /**
   * The Optional chain on the first n segments: the first segment as it is, then a
   * ".map(e -> e.<segment>())" step for each later one (sep stands for ").map(e -> e.").
   */
  function Chain(ps: seq<string>, n: nat, sep: string): string
    requires 1 <= n <= |ps|
  {
    if n == 1 then ps[0] else Chain(ps, n - 1, sep) + sep + Called(ps[n - 1], false)
  }

  /** Segment i is not blank (stated apart so that only explicit uses of it reach the solver). */
  predicate Shown(ps: seq<string>, i: int)
    requires 0 <= i < |ps|
  {
    !IsBlank(ps[i])
  }

  /** With no blank segment, the parts of the first n entries, short of the last entry, are the chain followed by the separator. */
  lemma {:induction false} ElvisUpToChain(ps: seq<string>, n: nat, sep: string)
    requires 1 <= n < |ps|
    requires forall i | 0 <= i < |ps| :: Shown(ps, i)
    ensures ElvisUpTo(ps, n, sep) == Chain(ps, n, sep) + sep
    decreases n
  {
    if n == 1 {
      assert Shown(ps, 0);
      assert ElvisUpTo(ps, 0, sep) == [];
    } else {
      ElvisUpToChain(ps, n - 1, sep);
      assert Shown(ps, n - 1);
      var c := Chain(ps, n - 1, sep);
      var d := Called(ps[n - 1], false);
      assert ElvisUpTo(ps, n, sep) == (c + sep) + (d + sep);
      Regroup(c + sep, d, sep);
    }
  }

  /** With no blank segment, the parts of all the entries are the chain. */
  lemma ElvisUpToAll(ps: seq<string>, sep: string)
    requires ps != []
    requires forall i | 0 <= i < |ps| :: Shown(ps, i)
    ensures ElvisUpTo(ps, |ps|, sep) == Chain(ps, |ps|, sep)
  {
    var n := |ps|;
    assert Shown(ps, n - 1);
    if n == 1 {
      assert ElvisUpTo(ps, 0, sep) == [];
      AppendEmpty(ps[0]);
    } else {
      ElvisUpToChain(ps, n - 1, sep);
      var c := Chain(ps, n - 1, sep);
      var d := Called(ps[n - 1], false);
      AppendEmpty(d);
      assert ElvisUpTo(ps, n, sep) == (c + sep) + d;
    }
  }

  /** With no blank segment, elvisJoin is the Optional chain on all the segments. */
  lemma ElvisChain(ps: seq<string>)
    requires ps != []
    requires forall i | 0 <= i < |ps| :: Shown(ps, i)
    ensures ElvisOf(ps) == ElvisHead + Chain(ps, |ps|, ElvisSep) + ")"
  {
    ElvisUpToAll(ps, ElvisSep);
  }

  /** elvisJoin of ["aa", "bb"]: the second segment is called on the first. */
  lemma ElvisTwo()
    ensures ElvisOf(["aa", "bb"]) == "Optional.ofNullable(aa).map(e -> e.bb())"
  {
    var ps := ["aa", "bb"];
    forall i | 0 <= i < |ps|
      ensures Shown(ps, i)
    {
      assert !IsWhitespace(ps[i][0] as int);
    }
    ElvisChain(ps);
    assert Called("bb", false) == "bb()";
    assert Chain(ps, 2, ElvisSep) == "aa" + ElvisSep + "bb()";
    ElvisTwoText();
  }

  /** The two-segment chain, written out. */
  lemma ElvisTwoText()
    ensures ElvisHead + ("aa" + ElvisSep + "bb()") + ")" == "Optional.ofNullable(aa).map(e -> e.bb())"
  {
  }

  /**
   * A blank last segment writes nothing, but the entry before it still sees a next entry: the
   * chain ends in a dangling ").map(e -> e." step.
   */
  lemma ElvisTrailingBlank(s: string)
    requires !IsBlank(s)
    ensures ElvisOf([s, " "]) == ElvisHead + s + ElvisSep + ")"
  {
    var ps := [s, " "];
    assert ps[0] == s && ps[1] == " ";
    assert IsBlank(" ");
    assert Called(s, true) == s;
    assert ElvisPart(ps, 0, ElvisSep) == s + ElvisSep;
    assert ElvisPart(ps, 1, ElvisSep) == [];
    assert ElvisUpTo(ps, 1, ElvisSep) == [] + (s + ElvisSep);
    assert ElvisUpTo(ps, 2, ElvisSep) == ElvisUpTo(ps, 1, ElvisSep) + [];
  }

  // ------------------------------------------------------------ the path

  class Path {
    /** The segments. */
    var paths: seq<string>

    /** Path.of(): no segments. */
    constructor Of()
      ensures paths == []
    {
      paths := [];
    }

    /** Path.of(paths...): the given segments. */
    constructor OfAll(ps: seq<string>)
      ensures paths == ps
    {
      paths := ps;
    }

    /** with(name): a new path, the segments and then name; this path is left as it is. */
    method With(name: string) returns (ret: Path)
      ensures fresh(ret)
      ensures ret.paths == paths + [name] && !ret.IsEmpty()
    {
      ret := new Path.Of();
      ret.paths := ret.paths + paths;
      ret.paths := ret.paths + [name];
    }

    /** isEmpty(). */
    function IsEmpty(): (r: bool)
      reads this
      ensures r <==> |paths| == 0
    {
      paths == []
    }

    /** add(path): the segment goes at the end. */
    method Add(path: string)
      modifies this
      ensures paths == old(paths) + [path] && !IsEmpty()
    {
      paths := paths + [path];
    }

    /** clear(). */
    method Clear()
      modifies this
      ensures paths == [] && IsEmpty()
    {
      paths := [];
    }

    /** elvisJoin(): a walk over the entries, skipping blank segments. */
    method ElvisJoin() returns (r: string)
      ensures r == ElvisOf(paths)
    {
      var entries := Iterate.EntriesOf(paths);
      r := ElvisHead;
      var i := 0;
      while i < |entries|
        invariant i <= |entries|
        invariant r == ElvisHead + ElvisUpTo(paths, i, ElvisSep)
      {
        var piece := ElvisStep(entries[i]);
        assert piece == ElvisPart(paths, i, ElvisSep);
        Regroup(ElvisHead, ElvisUpTo(paths, i, ElvisSep), piece);
        r := r + piece;
        i := i + 1;
      }
      r := r + ")";
    }

    /** One entry of elvisJoin: what it appends for that entry. */
    static method ElvisStep(entry: Iterate.Iteration<string>) returns (piece: string)
      requires entry.Entry?
      ensures IsBlank(entry.value) ==> piece == []
      ensures !IsBlank(entry.value) ==>
        piece == Called(entry.value, Iterate.IsFirst(entry)) + (if Iterate.HasNext(entry) then ElvisSep else [])
    {
      var path := entry.value;
      if IsBlank(path) {
        return [];
      }
      if !Iterate.IsFirst(entry) && !EndsWithParen(path) {
        path := path + "()";
      }
      piece := path;
      if Iterate.HasNext(entry) {
        piece := piece + ElvisSep;
      }
    }

    /** pointerJoin(). */
    method PointerJoin() returns (r: string)
      ensures r == PointerOf(paths)
    {
      r := "/" + Join(NonBlank(paths), "/");
    }

    /** camelJoin(). */
    method CamelJoin() returns (r: Result<string>)
      ensures r == CamelOf(paths)
    {
      var ret := CamelParts(paths);
      if ret == [] {
        return Err(IndexOutOfBounds);
      }
      r := Ok([ToLower(ret[0])] + ret[1..]);
    }
  }
}
