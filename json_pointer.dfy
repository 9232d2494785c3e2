/**
 * JSON Pointer (RFC 6901, sections 3 and 4): the pointer's text is cut at every `/` into
 * reference tokens, each token has `~1` and `~0` decoded, and getValue follows the tokens
 * after the first one from a structure down to a value.
 */
module JsonPointers {
  import opened Wrappers
  import opened JavaText
  import opened CharArrays
  import opened Tokens
  import opened JsonValues

  const Slash: CodeUnit := '/' as int
  const Tilde: CodeUnit := '~' as int
  const Zero: CodeUnit := '0' as int
  const One: CodeUnit := '1' as int
  const Plus: CodeUnit := '+' as int
  const Minus: CodeUnit := '-' as int

  // ------------------------------------------------------------ reference tokens

  /** unescape: `~1` becomes `/` first, then `~0` becomes `~`; a token without `~` is kept. */
  function Unescape(t: seq<CodeUnit>): (r: seq<CodeUnit>)
    ensures Tilde !in t ==> r == t
    ensures |r| <= |t|
  {
    if Tilde in t then
      var once := Replace(t, [Tilde, One], [Slash]);
      ReplaceShorter(t, [Tilde, One], [Slash]);
      ReplaceShorter(once, [Tilde, Zero], [Tilde]);
      Replace(once, [Tilde, Zero], [Tilde])
    else t
  }

  /** Each piece unescaped, in order. */
  function UnescapeAll(p: seq<seq<CodeUnit>>): (r: seq<seq<CodeUnit>>)
    ensures |r| == |p|
  {
    if p == [] then [] else [Unescape(p[0])] + UnescapeAll(p[1..])
  }

  /** What split returns: the unescaped pieces between the slashes, in order. */
  function RefTokens(s: seq<CodeUnit>): (r: seq<seq<CodeUnit>>)
    ensures |r| >= 1
  {
    UnescapeAll(Pieces(s, Slash))
  }

  /** The encoding RFC 6901 prescribes for a member name: `~` as `~0`, `/` as `~1`. */
  function Encode(t: seq<CodeUnit>): (r: seq<CodeUnit>)
    ensures Slash !in r
  {
    if t == [] then []
    else
      var e := if t[0] == Tilde then [Tilde, Zero] else if t[0] == Slash then [Tilde, One] else [t[0]];
      e + Encode(t[1..])
  }

  /**
   * split(cs): every piece up to the next `/` found by indexOf, unescaped, and then the rest
   * after the last `/`.
   */
  method Split(cs: seq<CodeUnit>) returns (list: seq<seq<CodeUnit>>)
    ensures list == RefTokens(cs)
  {
    var off := 0;
    list := [];
    var next := IndexOfFrom(cs, [Slash], off);
    while next != -1
      invariant 0 <= off <= |cs|
      invariant next == IndexOfFrom(cs, [Slash], off)
      invariant list + RefTokens(cs[off..]) == RefTokens(cs)
      decreases |cs| - off
    {
      SplitStep(cs, off, next, list);
      list := list + [Unescape(cs[off..next])];
      off := next + 1;
      next := IndexOfFrom(cs, [Slash], off);
    }
    TokensNoSlash(cs, off);
    list := list + [Unescape(cs[off..])];
  }

  /** One turn of split: the token before the next `/` joins the list, and the rest follows that `/`. */
  lemma SplitStep(cs: seq<CodeUnit>, off: nat, next: int, list: seq<seq<CodeUnit>>)
    requires off <= |cs| && next == IndexOfFrom(cs, [Slash], off) && next != -1
    requires list + RefTokens(cs[off..]) == RefTokens(cs)
    ensures off <= next < |cs|
    ensures (list + [Unescape(cs[off..next])]) + RefTokens(cs[next + 1..]) == RefTokens(cs)
  {
    TokensAtSlash(cs, off, next);
  }

  // ------------------------------------------------------------ the pointer

  /** A JsonPointer: its text and the tokens split from it. */
  datatype Pointer = Pointer(val: seq<CodeUnit>, tokens: seq<seq<CodeUnit>>)

  /** What the constructor establishes. */
  predicate Valid(p: Pointer) {
    p.tokens == RefTokens(p.val) && p.tokens[0] == []
  }

  /**
   * JsonPointer.of(val): split, then reject a pointer whose first token is not empty,
   * which is exactly a non-empty text that does not start with `/`.
   */
  method Of(val: seq<CodeUnit>) returns (r: Result<Pointer>)
    ensures r.Ok? <==> val == [] || val[0] == Slash
    ensures r.Ok? ==> r.value == Pointer(val, RefTokens(val)) && Valid(r.value)
    ensures r.Err? ==> r.failure == Runtime
  {
    var tokens := Split(val);
    FirstTokenEmpty(val);
    if tokens[0] != [] {
      return Err(Runtime);
    }
    return Ok(Pointer(val, tokens));
  }

  /** token(index): the token, or IndexOutOfBoundsException outside 0 .. tokenSize()-1. */
  function Token(p: Pointer, index: int): (r: Result<seq<CodeUnit>>)
    ensures r.Ok? <==> 0 <= index < |p.tokens|
    ensures r.Ok? ==> r.value == p.tokens[index]
    ensures r.Err? ==> r.failure == IndexOutOfBounds
  {
    if 0 <= index < |p.tokens| then Ok(p.tokens[index]) else Err(IndexOutOfBounds)
  }

  /** tokenSize(): one more than the number of slashes in the text. */
  function TokenSize(p: Pointer): (r: nat)
    requires Valid(p)
    ensures r == multiset(p.val)[Slash] + 1
  {
    TokenCount(p.val);
    |p.tokens|
  }

  // ------------------------------------------------------------ array indices

  /** Integer.parseInt on a text without sign: ASCII digits whose value fits an int. */
  function ParseUnsigned(t: seq<CodeUnit>): (r: Result<int>)
    ensures r.Ok? <==> t != [] && AllDigits(t) && DecimalValue(t) <= IntMax
    ensures r.Ok? ==> r.value == DecimalValue(t)
    ensures r.Ok? ==> r.value >= 0
    ensures r.Err? ==> r.failure == NumberFormat
  {
    if t != [] && AllDigits(t) && DecimalValue(t) <= IntMax then
      DecimalBound(t);
      Ok(DecimalValue(t))
    else Err(NumberFormat)
  }

  /**
   * asIndex(token): `-` is -1 (the element after the last), `0` is 0; a blank token or one
   * with a leading sign is rejected, and so is anything Integer.parseInt rejects.
   */
  function AsIndex(token: seq<CodeUnit>): (r: Result<int>)
    ensures r.Ok? <==> token == [Minus] || (token != [] && AllDigits(token) && DecimalValue(token) <= IntMax)
    ensures r == Ok(-1) <==> token == [Minus]
    ensures r.Ok? && token != [Minus] ==> 0 <= r.value == DecimalValue(token)
    ensures r.Err? ==> r.failure == Runtime
  {
    if IsBlankUnits(token) then
      assert token != [] && AllDigits(token) ==> !IsWhitespace(token[0]);
      Err(Runtime)
    else if token == [Minus] then Ok(-1)
    else if token == [Zero] then Ok(0)
    else if token[0] == Plus || token[0] == Minus then Err(Runtime)
    else
      match ParseUnsigned(token)
      case Ok(n) => Ok(n)
      case Err(_) => Err(Runtime)
  }

  // ------------------------------------------------------------ evaluation

  /** One turn of getValue's loop: into an object's member or an array's element. */
  function StepInto(v: JsonValue, token: seq<CodeUnit>): (r: Result<JsonValue>)
    ensures v.JObject? ==> (r.Ok? <==> token in v.members)
    ensures v.JObject? && r.Ok? ==> r.value == v.members[token]
    ensures v.JArray? ==> (r.Ok? <==> AsIndex(token).Ok? && 0 <= AsIndex(token).value < |v.elements|)
    ensures v.JArray? && r.Ok? ==> r.value == v.elements[AsIndex(token).value]
    ensures !v.JObject? && !v.JArray? ==> r == Err(Runtime)
  {
    match v
    case JObject(members) =>
      (match Get(members, token)
       case Some(x) => Ok(x)
       case None => Err(Runtime))
    case JArray(elements) =>
      var index :- AsIndex(token);
      ElementAt(elements, index)
    case _ => Err(Runtime)
  }

  /** The value the tokens lead to from v, one token after the other. */
  function Eval(v: JsonValue, tokens: seq<seq<CodeUnit>>): (r: Result<JsonValue>)
    ensures tokens == [] ==> r == Ok(v)
    ensures tokens != [] && !IsStructure(v) ==> r == Err(Runtime)
    ensures r.Err? ==> r.failure == Runtime || r.failure == IndexOutOfBounds
    decreases |tokens|
  {
    if tokens == [] then Ok(v)
    else
      var x :- StepInto(v, tokens[0]);
      Eval(x, tokens[1..])
  }

  /**
   * getValue(structure): the structure itself for the root pointer, else the value reached
   * through every token after the first.
   */
  method GetValue(p: Pointer, structure: JsonValue) returns (r: Result<JsonValue>)
    requires Valid(p) && IsStructure(structure)
    ensures r == Eval(structure, p.tokens[1..])
    ensures |p.tokens| == 1 ==> r == Ok(structure)
  {
    if |p.tokens| == 1 {
      return Ok(structure);
    }
    var value := structure;
    var i := 1;
    while i < |p.tokens|
      invariant 1 <= i <= |p.tokens|
      invariant Eval(value, p.tokens[i..]) == Eval(structure, p.tokens[1..])
    {
      var x := StepInto(value, p.tokens[i]);
      if x.Err? {
        return Err(x.failure);
      }
      assert p.tokens[i..][1..] == p.tokens[i + 1..];
      value := x.value;
      i := i + 1;
    }
    return Ok(value);
  }

  // ------------------------------------------------------------ equality

  /** String.hashCode: h = 31 * h + c over the chars, in int arithmetic. */
  function StringHash(s: seq<CodeUnit>): (r: int)
    ensures IsInt(r)
  {
    if s == [] then 0 else Int32(31 * StringHash(s[..|s| - 1]) + s[|s| - 1])
  }

  /** equals: two pointers are equal when their texts are. */
  predicate Equals(a: Pointer, b: Pointer)
    ensures Equals(a, b) ==> HashCode(a) == HashCode(b)
  {
    a.val == b.val
  }

  /** hashCode: the hash of the text. */
  function HashCode(p: Pointer): (r: int)
    ensures IsInt(r)
  {
    StringHash(p.val)
  }

  // ------------------------------------------------------------ lemmas

  /** The pieces of s after its first `d` at k. */
  lemma {:induction false} PiecesFirst<T>(s: seq<T>, d: T, k: nat)
    requires k < |s| && s[k] == d && d !in s[..k]
    ensures Pieces(s, d) == [s[..k]] + Pieces(s[k + 1..], d)
    decreases k
  {
    if k > 0 {
      assert s[0] == s[..k][0];
      assert s[1..][..k - 1] == s[1..k];
      assert d !in s[1..][..k - 1];
      PiecesFirst(s[1..], d, k - 1);
      assert s[1..][k..] == s[k + 1..];
      var p := Pieces(s[1..], d);
      assert [s[0]] + s[1..k] == s[..k];
    }
  }

  /** Without `d`, s is its only piece. */
  lemma {:induction false} PiecesNone<T>(s: seq<T>, d: T)
    requires d !in s
    ensures Pieces(s, d) == [s]
  {
    if s != [] {
      assert d !in s[1..];
      PiecesNone(s[1..], d);
      assert [s[0]] + s[1..] == s;
    }
  }

  /** A `d` at the end adds one empty piece. */
  lemma {:induction false} PiecesSnoc<T>(s: seq<T>, d: T)
    ensures Pieces(s + [d], d) == Pieces(s, d) + [[]]
  {
    if s == [] {
      assert [d][1..] == [];
    } else {
      assert (s + [d])[1..] == s[1..] + [d];
      PiecesSnoc(s[1..], d);
    }
  }

  /** The pieces outnumber the delimiters by one. */
  lemma {:induction false} PiecesCount<T>(s: seq<T>, d: T)
    ensures |Pieces(s, d)| == multiset(s)[d] + 1
  {
    if s != [] {
      PiecesCount(s[1..], d);
      assert s == [s[0]] + s[1..];
      assert multiset(s) == multiset([s[0]]) + multiset(s[1..]);
    }
  }

  lemma TokensCons(s: seq<CodeUnit>, a: seq<CodeUnit>, rest: seq<CodeUnit>)
    requires Pieces(s, Slash) == [a] + Pieces(rest, Slash)
    ensures RefTokens(s) == [Unescape(a)] + RefTokens(rest)
  {
    assert ([a] + Pieces(rest, Slash))[1..] == Pieces(rest, Slash);
  }

  /** What indexOf found: a `/` at next, and none from off up to it. */
  lemma FirstSlash(cs: seq<CodeUnit>, off: nat, next: int)
    requires off <= |cs| && next == IndexOfFrom(cs, [Slash], off) && next != -1
    ensures off <= next < |cs| && cs[next] == Slash && Slash !in cs[off..next]
  {
    assert cs[next..next + 1] == [cs[next]];
    forall j | off <= j < next ensures cs[j] != Slash {
      assert !OccursAt(cs, [Slash], j);
      assert cs[j..j + 1] == [cs[j]];
    }
  }

  /** A turn of split: the token before the next `/`, then the tokens after it. */
  lemma TokensAtSlash(cs: seq<CodeUnit>, off: nat, next: int)
    requires off <= |cs| && next == IndexOfFrom(cs, [Slash], off) && next != -1
    ensures off <= next < |cs|
    ensures RefTokens(cs[off..]) == [Unescape(cs[off..next])] + RefTokens(cs[next + 1..])
  {
    var s := cs[off..];
    var k := next - off;
    FirstSlash(cs, off, next);
    assert s[..k] == cs[off..next];
    PiecesFirst(s, Slash, k);
    assert s[..k] == cs[off..next] && s[k + 1..] == cs[next + 1..];
    TokensCons(s, s[..k], s[k + 1..]);
  }

  /** The last turn of split: no `/` remains, and the rest is the last token. */
  lemma TokensNoSlash(cs: seq<CodeUnit>, off: nat)
    requires off <= |cs| && IndexOfFrom(cs, [Slash], off) == -1
    ensures RefTokens(cs[off..]) == [Unescape(cs[off..])]
  {
    var t := cs[off..];
    NoSlashAfter(cs, off);
    PiecesNone(t, Slash);
    var one: seq<seq<CodeUnit>> := [t];
    assert one[1..] == [];
    assert UnescapeAll(one) == [Unescape(t)];
  }

  /** No `/` found from off on means none is there. */
  lemma NoSlashAfter(cs: seq<CodeUnit>, off: nat)
    requires off <= |cs| && IndexOfFrom(cs, [Slash], off) == -1
    ensures Slash !in cs[off..]
  {
    var t := cs[off..];
    forall j | 0 <= j < |t| ensures t[j] != Slash {
      assert !OccursAt(cs, [Slash], off + j);
      assert cs[off + j..off + j + 1] == [cs[off + j]];
    }
  }

  /** The token count is the number of slashes plus one. */
  lemma TokenCount(s: seq<CodeUnit>)
    ensures |RefTokens(s)| == multiset(s)[Slash] + 1
  {
    PiecesCount(s, Slash);
  }

  /** A trailing `/` gives a final empty token. */
  lemma TrailingSlash(s: seq<CodeUnit>)
    ensures RefTokens(s + [Slash]) == RefTokens(s) + [[]]
  {
    PiecesSnoc(s, Slash);
    UnescapeAllSnoc(Pieces(s, Slash), []);
  }

  lemma {:induction false} UnescapeAllSnoc(p: seq<seq<CodeUnit>>, x: seq<CodeUnit>)
    ensures UnescapeAll(p + [x]) == UnescapeAll(p) + [Unescape(x)]
  {
    if p == [] {
      assert p + [x] == [x];
      var one: seq<seq<CodeUnit>> := [x];
      assert one[1..] == [];
    } else {
      assert (p + [x])[1..] == p[1..] + [x];
      UnescapeAllSnoc(p[1..], x);
    }
  }

  lemma ReplaceNonEmpty(s: seq<CodeUnit>, target: seq<CodeUnit>, repl: seq<CodeUnit>)
    requires s != [] && target != [] && repl != []
    ensures Replace(s, target, repl) != []
  {
  }

  /** Decoding never empties a token. */
  lemma UnescapeEmpty(t: seq<CodeUnit>)
    ensures Unescape(t) == [] <==> t == []
  {
    if t != [] && Tilde in t {
      ReplaceNonEmpty(t, [Tilde, One], [Slash]);
      ReplaceNonEmpty(Replace(t, [Tilde, One], [Slash]), [Tilde, Zero], [Tilde]);
    }
  }

  /** The first token is empty exactly when the text is empty or starts with `/`. */
  lemma FirstTokenEmpty(val: seq<CodeUnit>)
    ensures RefTokens(val)[0] == [] <==> val == [] || val[0] == Slash
  {
    var p := Pieces(val, Slash);
    UnescapeEmpty(p[0]);
    if val != [] && val[0] != Slash {
      assert p[0] == [val[0]] + Pieces(val[1..], Slash)[0];
    }
  }

  /** `~01` decodes to `~1`: `~1` is decoded first, so a decoded `~` never meets a `1`. */
  lemma UnescapeOrder()
    ensures Unescape([Tilde, Zero, One]) == [Tilde, One]
    ensures Unescape([Tilde, One, Zero]) == [Slash, Zero]
  {
    var a := [Tilde, Zero, One];
    assert a[1..] == [Zero, One] && a[1..][1..] == [One];
    assert Replace([One], [Tilde, One], [Slash]) == [One];
    assert Replace([Zero, One], [Tilde, One], [Slash]) == [Zero, One];
    assert Replace(a, [Tilde, One], [Slash]) == a;
    assert Replace([One], [Tilde, Zero], [Tilde]) == [One];
    assert a[2..] == [One];
    var b := [Tilde, One, Zero];
    assert b[2..] == [Zero];
    assert Replace([Zero], [Tilde, One], [Slash]) == [Zero];
    assert Replace(b, [Tilde, One], [Slash]) == [Slash, Zero];
    assert [Slash, Zero][1..] == [Zero];
    assert Replace([Zero], [Tilde, Zero], [Tilde]) == [Zero];
    assert Replace([Slash, Zero], [Tilde, Zero], [Tilde]) == [Slash, Zero];
  }

  /** Decoding inverts the encoding of RFC 6901 section 4. */
  lemma UnescapeEncode(t: seq<CodeUnit>)
    ensures Unescape(Encode(t)) == t
  {
    var e := Encode(t);
    PassOne(t);
    PassTwo(t);
    if Tilde !in e {
      NoTildePlain(t);
    }
  }

  /** The text with every `~` as `~0` and every `/` kept. */
  function TildesEncoded(t: seq<CodeUnit>): seq<CodeUnit> {
    if t == [] then []
    else (if t[0] == Tilde then [Tilde, Zero] else [t[0]]) + TildesEncoded(t[1..])
  }

  /** Replace on a text that starts with the target. */
  lemma ReplaceMatch(target: seq<CodeUnit>, rest: seq<CodeUnit>, repl: seq<CodeUnit>)
    requires target != []
    ensures Replace(target + rest, target, repl) == repl + Replace(rest, target, repl)
  {
    var s := target + rest;
    assert s[..|target|] == target && s[|target|..] == rest;
  }

  /** Replace on a text that does not start with the target. */
  lemma ReplaceSkip(c: CodeUnit, rest: seq<CodeUnit>, target: seq<CodeUnit>, repl: seq<CodeUnit>)
    requires target != []
    requires c != target[0] || (|target| >= 2 && rest != [] && rest[0] != target[1])
    ensures Replace([c] + rest, target, repl) == [c] + Replace(rest, target, repl)
  {
    var s := [c] + rest;
    assert s[1..] == rest;
    assert s[0] == c && (rest != [] ==> s[1] == rest[0]);
    if |s| >= |target| {
      if c != target[0] {
        assert s[..|target|][0] == c;
      } else {
        assert s[..|target|][1] == rest[0];
      }
    }
    if |s| < |target| {
      assert Replace(rest, target, repl) == rest;
    }
  }

  lemma {:induction false} PassOne(t: seq<CodeUnit>)
    ensures Replace(Encode(t), [Tilde, One], [Slash]) == TildesEncoded(t)
  {
    if t != [] {
      PassOne(t[1..]);
      PassOneHead(t);
    }
  }

  /** The first pass on the encoding of the first char. */
  lemma PassOneHead(t: seq<CodeUnit>)
    requires t != []
    ensures Replace(Encode(t), [Tilde, One], [Slash])
         == (if t[0] == Tilde then [Tilde, Zero] else [t[0]]) + Replace(Encode(t[1..]), [Tilde, One], [Slash])
  {
    var rest := Encode(t[1..]);
    if t[0] == Tilde {
      assert Encode(t) == [Tilde, Zero] + rest;
      PassOneTilde(rest);
    } else if t[0] == Slash {
      assert Encode(t) == [Tilde, One] + rest;
      ReplaceMatch([Tilde, One], rest, [Slash]);
    } else {
      assert Encode(t) == [t[0]] + rest;
      ReplaceSkip(t[0], rest, [Tilde, One], [Slash]);
    }
  }

  /** The first pass leaves an encoded `~` alone. */
  lemma PassOneTilde(rest: seq<CodeUnit>)
    ensures Replace([Tilde, Zero] + rest, [Tilde, One], [Slash]) == [Tilde, Zero] + Replace(rest, [Tilde, One], [Slash])
  {
    assert [Tilde, Zero] + rest == [Tilde] + ([Zero] + rest);
    assert ([Zero] + rest)[0] == Zero;
    ReplaceSkip(Tilde, [Zero] + rest, [Tilde, One], [Slash]);
    ReplaceSkip(Zero, rest, [Tilde, One], [Slash]);
  }

  lemma {:induction false} PassTwo(t: seq<CodeUnit>)
    ensures Replace(TildesEncoded(t), [Tilde, Zero], [Tilde]) == t
  {
    if t != [] {
      PassTwo(t[1..]);
      var rest := TildesEncoded(t[1..]);
      if t[0] == Tilde {
        assert TildesEncoded(t) == [Tilde, Zero] + rest;
        ReplaceMatch([Tilde, Zero], rest, [Tilde]);
      } else {
        assert TildesEncoded(t) == [t[0]] + rest;
        ReplaceSkip(t[0], rest, [Tilde, Zero], [Tilde]);
      }
      assert [t[0]] + t[1..] == t;
    }
  }

  /** Without `~` in the encoding, the token had neither `~` nor `/` and is its encoding. */
  lemma {:induction false} NoTildePlain(t: seq<CodeUnit>)
    requires Tilde !in Encode(t)
    ensures Encode(t) == t
  {
    if t != [] {
      var rest := Encode(t[1..]);
      assert Encode(t)[0] != Tilde;
      assert Encode(t) == [t[0]] + rest;
      assert Tilde !in rest;
      NoTildePlain(t[1..]);
      assert [t[0]] + t[1..] == t;
    }
  }

  /** Resolving a + b resolves a, then b from where a led. */
  lemma {:induction false} EvalAppend(v: JsonValue, a: seq<seq<CodeUnit>>, b: seq<seq<CodeUnit>>)
    ensures Eval(v, a + b) == if Eval(v, a).Ok? then Eval(Eval(v, a).value, b) else Eval(v, a)
    decreases |a|
  {
    if a == [] {
      assert a + b == b;
    } else {
      assert (a + b)[0] == a[0] && (a + b)[1..] == a[1..] + b;
      var x := StepInto(v, a[0]);
      if x.Ok? {
        EvalAppend(x.value, a[1..], b);
      }
    }
  }

  /** Stepping into a scalar, or into an object without the member, fails. */
  lemma EvalFails(v: JsonValue, token: seq<CodeUnit>, rest: seq<seq<CodeUnit>>)
    requires !IsStructure(v) || (v.JObject? && token !in v.members)
    ensures Eval(v, [token] + rest) == Err(Runtime)
  {
    assert ([token] + rest)[0] == token;
  }

  /** The pointer `/` + the encoded name leads from an object to that member. */
  lemma MemberPointer(members: map<Key, JsonValue>, name: Key)
    ensures RefTokens([Slash] + Encode(name)) == [[], name]
    ensures Eval(JObject(members), RefTokens([Slash] + Encode(name))[1..])
         == if name in members then Ok(members[name]) else Err(Runtime)
  {
    var e := Encode(name);
    var s := [Slash] + e;
    assert s[1..] == e;
    PiecesNone(e, Slash);
    assert Pieces(s, Slash) == [[]] + [e];
    UnescapeEncode(name);
    var t := RefTokens(s);
    var one: seq<seq<CodeUnit>> := [e];
    assert one[1..] == [];
    assert UnescapeAll(one) == [name];
    assert ([[]] + one)[1..] == one;
    assert t == [Unescape([])] + [name];
    assert t == [[], name];
    assert t[1..] == [name];
    assert [name][1..] == [];
  }

  /** Integer.toString on a non-negative int: its decimal digits. */
  function DecimalText(n: nat): (r: seq<CodeUnit>)
    ensures r != [] && AllDigits(r) && DecimalValue(r) == n
  {
    var d := (Zero + n % 10) as CodeUnit;
    var prefix := if n < 10 then [] else DecimalText(n / 10);
    var r := prefix + [d];
    assert r[..|r| - 1] == prefix;
    r
  }

  /** The pointer `/` + the decimal index leads from an array to that element. */
  lemma IndexPointer(elements: seq<JsonValue>, n: nat)
    requires n < |elements| && n <= IntMax
    ensures Eval(JArray(elements), [DecimalText(n)]) == Ok(elements[n])
  {
    var t := DecimalText(n);
    assert t != [Minus] by { assert IsDigit(t[0]); }
    assert AsIndex(t) == Ok(n);
    assert StepInto(JArray(elements), t) == Ok(elements[n]);
    var ts: seq<seq<CodeUnit>> := [t];
    assert ts[1..] == [];
  }

  /** Equal texts give equal hash codes; for built pointers, equality is the datatype's. */
  lemma EqualsHash(a: Pointer, b: Pointer)
    requires Valid(a) && Valid(b)
    ensures Equals(a, b) <==> a == b
    ensures Equals(a, b) ==> HashCode(a) == HashCode(b)
  {
  }
}
