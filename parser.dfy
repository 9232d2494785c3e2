/**
 * Parser: a recursive-descent parser that pulls tokens from the Tokenizer and builds the
 * JsonValue tree. The functions below describe what the parser computes from the unread
 * input (the loop of parseObject and parseArray as recursion over the tokens Lex reads),
 * and the Parser class is proved to compute exactly that.
 */
module Parsers {
  import opened Wrappers
  import opened JavaText
  import opened Tokens
  import opened Lexer
  import opened JsonValues
  import opened StringReaders
  import opened CharArrays
  import opened Tokenizers

  type Members = map<Key, JsonValue>

  /** A token source: the token at the start of the input and the input after it. */
  type LexFn = seq<CodeUnit> -> Result<Lexed>

  /** Every token but the end of input consumes input; Lex is such a source (LexConsumes). */
  ghost predicate Consumes(lex: LexFn) {
    forall s :: lex(s).Ok? && lex(s).value.token != Punct(Eof) ==> |lex(s).value.rest| < |s|
  }

  lemma LexConsumes()
    ensures Consumes(Lex)
  {
  }

  /** A parsed value and the input after its last token. */
  datatype Parsed<T> = Parsed(value: T, rest: seq<CodeUnit>)

  /** After one pass of a parse loop: go on with a pending name and the values so far, or return. */
  datatype Pass<T> = Again(name: Option<Key>, acc: T) | Done(result: Result<T>)

  /** The value a token stands for inside a structure, when it is a scalar. */
  function ScalarOf(t: Token): (r: Option<JsonValue>)
    ensures r.Some? <==> TypeOf(t) in {String, Number, True, False, Null} && WellFormed(t)
    ensures t.Str? ==> r == Some(JString(t.chars))
    ensures t.Num? ==> r == Some(JNumber(t.chars))
  {
    match t
    case Str(cs) => Some(JString(cs))
    case Num(cs, _, _) => Some(JNumber(cs))
    case Punct(k) =>
      if k == True then Some(JTrue)
      else if k == False then Some(JFalse)
      else if k == Null then Some(JNull)
      else None
  }

  /** keying(name, consumer): a value needs a pending member name. */
  function Keying(name: Option<Key>): (r: Result<Key>)
    ensures r.Ok? <==> name.Some?
    ensures r.Ok? ==> r.value == name.value
    ensures r.Err? ==> r.failure == JsonParse
  {
    if name.None? then Err(JsonParse) else Ok(name.value)
  }

  /** The pending name survives only when the previous token is a colon. */
  function Pending(prev: Option<Token>, name: Option<Key>): (r: Option<Key>)
    ensures r.Some? <==> name.Some? && prev.Some? && TypeOf(prev.value) == Colon
    ensures r.Some? ==> r == name
  {
    if prev.Some? && TypeOf(prev.value) == Colon then name else None
  }

  /** The previous tokens after which a comma is a syntax error in an array. */
  predicate CommaMisplaced(prev: Option<Token>) {
    prev.None? || TypeOf(prev.value) in {CurlyOpen, SquareOpen, Comma}
  }

  /**
   * The loop of parseObject(obj): `curr` is the token read last (it becomes `prev`), `name`
   * the pending member name, `obj` the members put so far. The result is the object's
   * members and the input after the closing `}`; the end of input is a syntax error.
   */
  function ObjectLoop(lex: LexFn, s: seq<CodeUnit>, curr: Option<Token>, name: Option<Key>, obj: Members)
    : (r: Result<Parsed<Members>>)
    requires Consumes(lex)
    ensures r.Ok? ==> |r.value.rest| < |s|
    decreases |s|, 1
  {
    var lexed :- lex(s);
    if lexed.token == Punct(Eof) then Err(JsonParse)
    else ObjectStep(lex, lexed.token, lexed.rest, curr, Pending(curr, name), obj)
  }

  /** One pass of parseObject's loop body on the token `tok` just read, with `rest` after it. */
  function ObjectStep(lex: LexFn, tok: Token, rest: seq<CodeUnit>, prev: Option<Token>, name: Option<Key>, obj: Members)
    : (r: Result<Parsed<Members>>)
    requires Consumes(lex)
    ensures r.Ok? ==> |r.value.rest| <= |rest|
    decreases |rest|, 2
  {
    match tok
    case Str(cs) =>
      if name.None? then ObjectLoop(lex, rest, Some(tok), name, obj)
      else ObjectLoop(lex, rest, Some(tok), name, obj[name.value := JString(cs)])
    case Num(cs, _, _) =>
      var k :- Keying(name);
      ObjectLoop(lex, rest, Some(tok), name, obj[k := JNumber(cs)])
    case Punct(kind) =>
      if kind == CurlyOpen then
        var k :- Keying(name);
        var inner :- ObjectLoop(lex, rest, Some(tok), None, map[]);
        ObjectLoop(lex, inner.rest, Some(Punct(CurlyClose)), name, obj[k := JObject(inner.value)])
      else if kind == SquareOpen then
        var k :- Keying(name);
        var inner :- ArrayLoop(lex, rest, Some(tok), []);
        ObjectLoop(lex, inner.rest, Some(Punct(SquareClose)), name, obj[k := JArray(inner.value)])
      else if kind == True || kind == False || kind == Null then
        var k :- Keying(name);
        ObjectLoop(lex, rest, Some(tok), name, obj[k := ScalarOf(tok).value])
      else if kind == Colon then
        if prev.Some? && prev.value.Str? then ObjectLoop(lex, rest, Some(tok), Some(prev.value.chars), obj)
        else Err(JsonParse)
      else if kind == Comma then
        if name.Some? || CommaMisplaced(prev) || TypeOf(prev.value) == Colon then Err(JsonParse)
        else ObjectLoop(lex, rest, Some(tok), name, obj)
      else if kind == CurlyClose then
        Ok(Parsed(obj, rest))
      else
        Err(JsonParse)
  }

  /**
   * The loop of parseArray(array): `curr` is the token read last, `elements` the values
   * added so far. The result is the elements and the input after the closing `]`; the end
   * of input is a syntax error.
   */
  function ArrayLoop(lex: LexFn, s: seq<CodeUnit>, curr: Option<Token>, elements: seq<JsonValue>)
    : (r: Result<Parsed<seq<JsonValue>>>)
    requires Consumes(lex)
    ensures r.Ok? ==> |r.value.rest| < |s|
    decreases |s|, 1
  {
    var lexed :- lex(s);
    if lexed.token == Punct(Eof) then Err(JsonParse)
    else ArrayStep(lex, lexed.token, lexed.rest, curr, elements)
  }

  /** One pass of parseArray's loop body on the token `tok` just read, with `rest` after it. */
  function ArrayStep(lex: LexFn, tok: Token, rest: seq<CodeUnit>, prev: Option<Token>, elements: seq<JsonValue>)
    : (r: Result<Parsed<seq<JsonValue>>>)
    requires Consumes(lex)
    ensures r.Ok? ==> |r.value.rest| <= |rest|
    decreases |rest|, 2
  {
    match tok
    case Str(cs) => ArrayLoop(lex, rest, Some(tok), elements + [JString(cs)])
    case Num(cs, _, _) => ArrayLoop(lex, rest, Some(tok), elements + [JNumber(cs)])
    case Punct(kind) =>
      if kind == CurlyOpen then
        var inner :- ObjectLoop(lex, rest, Some(tok), None, map[]);
        ArrayLoop(lex, inner.rest, Some(Punct(CurlyClose)), elements + [JObject(inner.value)])
      else if kind == SquareOpen then
        var inner :- ArrayLoop(lex, rest, Some(tok), []);
        ArrayLoop(lex, inner.rest, Some(Punct(SquareClose)), elements + [JArray(inner.value)])
      else if kind == True || kind == False || kind == Null then
        ArrayLoop(lex, rest, Some(tok), elements + [ScalarOf(tok).value])
      else if kind == Comma then
        if CommaMisplaced(prev) then Err(Runtime)
        else ArrayLoop(lex, rest, Some(tok), elements)
      else if kind == SquareClose then
        Ok(Parsed(elements, rest))
      else
        Err(JsonParse)
  }

  /**
   * parse(): the first token decides. `{` and `[` start an object or an array, the end of
   * input gives null, and anything else is a syntax error. Whatever follows the structure is
   * left unread. `curr` is the parser's current token, which parse() does not update.
   */
  function ParseDocument(lex: LexFn, s: seq<CodeUnit>, curr: Option<Token>): (r: Result<Parsed<Option<JsonValue>>>)
    requires Consumes(lex)
    ensures lex(s).Err? ==> r == Err(lex(s).failure)
    ensures lex(s).Ok? && lex(s).value.token == Punct(Eof) ==> r == Ok(Parsed(None, lex(s).value.rest))
    ensures lex(s).Ok? && lex(s).value.token !in {Punct(CurlyOpen), Punct(SquareOpen), Punct(Eof)} ==>
              r == Err(JsonParse)
    ensures r.Ok? && r.value.value.Some? ==>
              (r.value.value.value.JObject? <==> lex(s).value.token == Punct(CurlyOpen))
              && (r.value.value.value.JArray? <==> lex(s).value.token == Punct(SquareOpen))
  {
    var lexed :- lex(s);
    if lexed.token == Punct(CurlyOpen) then
      var o :- ObjectLoop(lex, lexed.rest, curr, None, map[]);
      Ok(Parsed(Some(JObject(o.value)), o.rest))
    else if lexed.token == Punct(SquareOpen) then
      var a :- ArrayLoop(lex, lexed.rest, curr, []);
      Ok(Parsed(Some(JArray(a.value)), a.rest))
    else if lexed.token == Punct(Eof) then
      Ok(Parsed(None, lexed.rest))
    else
      Err(JsonParse)
  }

  /** ObjectLoop after the first token: a lexing error, the end of input, or one ObjectStep. */
  lemma ObjectLoopFirst(lex: LexFn, s: seq<CodeUnit>, curr: Option<Token>, name: Option<Key>, obj: Members)
    requires Consumes(lex)
    ensures lex(s).Err? ==> ObjectLoop(lex, s, curr, name, obj) == Err(lex(s).failure)
    ensures lex(s).Ok? && lex(s).value.token == Punct(Eof) ==> ObjectLoop(lex, s, curr, name, obj) == Err(JsonParse)
    ensures lex(s).Ok? && lex(s).value.token != Punct(Eof) ==>
              |lex(s).value.rest| < |s|
              && ObjectLoop(lex, s, curr, name, obj) == ObjectStep(lex, lex(s).value.token, lex(s).value.rest, curr, Pending(curr, name), obj)
  {
  }

  /** ArrayLoop after the first token: a lexing error, the end of input, or one ArrayStep. */
  lemma ArrayLoopFirst(lex: LexFn, s: seq<CodeUnit>, curr: Option<Token>, elements: seq<JsonValue>)
    requires Consumes(lex)
    ensures lex(s).Err? ==> ArrayLoop(lex, s, curr, elements) == Err(lex(s).failure)
    ensures lex(s).Ok? && lex(s).value.token == Punct(Eof) ==> ArrayLoop(lex, s, curr, elements) == Err(JsonParse)
    ensures lex(s).Ok? && lex(s).value.token != Punct(Eof) ==>
              |lex(s).value.rest| < |s|
              && ArrayLoop(lex, s, curr, elements) == ArrayStep(lex, lex(s).value.token, lex(s).value.rest, curr, elements)
  {
  }

  // ------------------------------------------------------------------ properties

  /** Input made of blanks only, the empty input included, parses to null. */
  lemma ParseBlank(s: seq<CodeUnit>, curr: Option<Token>)
    requires AllSkipped(s)
    ensures ParseDocument(Lex, s, curr) == Ok(Parsed(None, []))
  {
    LexSkipsBlanks(s, []);
    assert s + [] == s;
  }

  /** A structural char that starts the input is a token by itself. */
  lemma LexPunct(s: seq<CodeUnit>, c: char, kind: TokenType)
    requires |s| > 0 && s[0] == c as int
    requires (c, kind) in {('{', CurlyOpen), ('}', CurlyClose), ('[', SquareOpen), (']', SquareClose)}
    ensures Lex(s) == Ok(Lexed(Punct(kind), s[1..]))
  {
    assert !IsSkipped(s[0]);
    assert Lex(s) == LexToken(s);
  }

  /** Only the first structure is read: `[]` parses to the empty array whatever follows it. */
  lemma TrailingAfterArray(t: seq<CodeUnit>, curr: Option<Token>)
    ensures ParseDocument(Lex, ['[' as int, ']' as int] + t, curr) == Ok(Parsed(Some(JArray([])), t))
  {
    var a := ['[' as int, ']' as int] + t;
    LexPunct(a, '[', SquareOpen);
    assert a[1..] == [']' as int] + t && a[1..][1..] == t;
    LexPunct(a[1..], ']', SquareClose);
    assert ArrayLoop(Lex, a[1..], curr, []) == Ok(Parsed([], t));
  }

  /** Only the first structure is read: `{}` parses to the empty object whatever follows it. */
  lemma TrailingAfterObject(t: seq<CodeUnit>, curr: Option<Token>)
    ensures ParseDocument(Lex, ['{' as int, '}' as int] + t, curr) == Ok(Parsed(Some(JObject(map[])), t))
  {
    var o := ['{' as int, '}' as int] + t;
    LexPunct(o, '{', CurlyOpen);
    assert o[1..] == ['}' as int] + t && o[1..][1..] == t;
    LexPunct(o[1..], '}', CurlyClose);
    assert ObjectLoop(Lex, o[1..], curr, None, map[]) == Ok(Parsed(map[], t));
  }

  /**
   * Array elements are kept in document order: what parseArray adds comes after the
   * elements already there, and does not depend on them.
   */
  lemma {:induction false} ArrayLoopAppends(lex: LexFn, s: seq<CodeUnit>, curr: Option<Token>, elements: seq<JsonValue>)
    requires Consumes(lex)
    ensures ArrayLoop(lex, s, curr, elements).Ok? <==> ArrayLoop(lex, s, curr, []).Ok?
    ensures ArrayLoop(lex, s, curr, elements).Ok? ==>
              ArrayLoop(lex, s, curr, elements).value
                == Parsed(elements + ArrayLoop(lex, s, curr, []).value.value, ArrayLoop(lex, s, curr, []).value.rest)
    decreases |s|, 1
  {
    var lx := lex(s);
    if lx.Ok? && lx.value.token != Punct(Eof) {
      ArrayStepAppends(lex, lx.value.token, lx.value.rest, curr, elements);
    }
  }

  /** ArrayLoopAppends for one pass of the loop body. */
  lemma {:induction false} ArrayStepAppends(lex: LexFn, tok: Token, rest: seq<CodeUnit>, prev: Option<Token>, elements: seq<JsonValue>)
    requires Consumes(lex)
    ensures ArrayStep(lex, tok, rest, prev, elements).Ok? <==> ArrayStep(lex, tok, rest, prev, []).Ok?
    ensures ArrayStep(lex, tok, rest, prev, elements).Ok? ==>
              ArrayStep(lex, tok, rest, prev, elements).value
                == Parsed(elements + ArrayStep(lex, tok, rest, prev, []).value.value, ArrayStep(lex, tok, rest, prev, []).value.rest)
    decreases |rest|, 3
  {
    match tok
    case Str(cs) =>
      AddThenAppend(lex, rest, Some(tok), elements, JString(cs));
    case Num(cs, _, _) =>
      AddThenAppend(lex, rest, Some(tok), elements, JNumber(cs));
    case Punct(kind) =>
      if kind == CurlyOpen {
        var inner := ObjectLoop(lex, rest, Some(tok), None, map[]);
        if inner.Ok? {
          AddThenAppend(lex, inner.value.rest, Some(Punct(CurlyClose)), elements, JObject(inner.value.value));
        }
      } else if kind == SquareOpen {
        var inner := ArrayLoop(lex, rest, Some(tok), []);
        if inner.Ok? {
          AddThenAppend(lex, inner.value.rest, Some(Punct(SquareClose)), elements, JArray(inner.value.value));
        }
      } else if kind == True || kind == False || kind == Null {
        AddThenAppend(lex, rest, Some(tok), elements, ScalarOf(tok).value);
      } else if kind == Comma && !CommaMisplaced(prev) {
        ArrayLoopAppends(lex, rest, Some(tok), elements);
      } else if kind == SquareClose {
        assert elements + [] == elements;
      }
  }

  /** The add step of ArrayStepAppends: elements + [v] + later == elements + ([v] + later). */
  lemma {:induction false} AddThenAppend(lex: LexFn, s: seq<CodeUnit>, curr: Option<Token>, elements: seq<JsonValue>, v: JsonValue)
    requires Consumes(lex)
    ensures ArrayLoop(lex, s, curr, elements + [v]).Ok? <==> ArrayLoop(lex, s, curr, [] + [v]).Ok?
    ensures ArrayLoop(lex, s, curr, elements + [v]).Ok? ==>
              ArrayLoop(lex, s, curr, elements + [v]).value
                == Parsed(elements + ArrayLoop(lex, s, curr, [] + [v]).value.value, ArrayLoop(lex, s, curr, [] + [v]).value.rest)
    decreases |s|, 2
  {
    assert [] + [v] == [v];
    ArrayLoopAppends(lex, s, curr, elements + [v]);
    ArrayLoopAppends(lex, s, curr, [v]);
    if ArrayLoop(lex, s, curr, []).Ok? {
      var later := ArrayLoop(lex, s, curr, []).value.value;
      assert elements + [v] + later == elements + ([v] + later);
    }
  }

  /**
   * A member put later replaces one put earlier under the same name: the members parseObject
   * collects override the ones already in the object (map `+` keeps the right-hand value).
   */
  lemma {:induction false} ObjectLoopOverrides(lex: LexFn, s: seq<CodeUnit>, curr: Option<Token>, name: Option<Key>, obj: Members)
    requires Consumes(lex)
    ensures ObjectLoop(lex, s, curr, name, obj).Ok? <==> ObjectLoop(lex, s, curr, name, map[]).Ok?
    ensures ObjectLoop(lex, s, curr, name, obj).Ok? ==>
              ObjectLoop(lex, s, curr, name, obj).value
                == Parsed(obj + ObjectLoop(lex, s, curr, name, map[]).value.value, ObjectLoop(lex, s, curr, name, map[]).value.rest)
    decreases |s|, 1
  {
    var lx := lex(s);
    if lx.Ok? && lx.value.token != Punct(Eof) {
      var tok, rest, n := lx.value.token, lx.value.rest, Pending(curr, name);
      assert ObjectLoop(lex, s, curr, name, obj) == ObjectStep(lex, tok, rest, curr, n, obj);
      assert ObjectLoop(lex, s, curr, name, map[]) == ObjectStep(lex, tok, rest, curr, n, map[]);
      ObjectStepOverrides(lex, tok, rest, curr, n, obj);
    }
  }

  /** ObjectLoopOverrides for one pass of the loop body. */
  lemma {:induction false} ObjectStepOverrides(lex: LexFn, tok: Token, rest: seq<CodeUnit>, prev: Option<Token>, name: Option<Key>, obj: Members)
    requires Consumes(lex)
    ensures ObjectStep(lex, tok, rest, prev, name, obj).Ok? <==> ObjectStep(lex, tok, rest, prev, name, map[]).Ok?
    ensures ObjectStep(lex, tok, rest, prev, name, obj).Ok? ==>
              ObjectStep(lex, tok, rest, prev, name, obj).value
                == Parsed(obj + ObjectStep(lex, tok, rest, prev, name, map[]).value.value, ObjectStep(lex, tok, rest, prev, name, map[]).value.rest)
    decreases |rest|, 3
  {
    match tok
    case Str(cs) =>
      if name.None? {
        ObjectLoopOverrides(lex, rest, Some(tok), name, obj);
      } else {
        PutThenOverride(lex, rest, Some(tok), name, obj, name.value, JString(cs));
      }
    case Num(cs, _, _) =>
      if name.Some? {
        PutThenOverride(lex, rest, Some(tok), name, obj, name.value, JNumber(cs));
      }
    case Punct(kind) =>
      if kind == CurlyOpen {
        var inner := ObjectLoop(lex, rest, Some(tok), None, map[]);
        if name.Some? && inner.Ok? {
          PutThenOverride(lex, inner.value.rest, Some(Punct(CurlyClose)), name, obj, name.value, JObject(inner.value.value));
        }
      } else if kind == SquareOpen {
        var inner := ArrayLoop(lex, rest, Some(tok), []);
        if name.Some? && inner.Ok? {
          PutThenOverride(lex, inner.value.rest, Some(Punct(SquareClose)), name, obj, name.value, JArray(inner.value.value));
        }
      } else if kind == True || kind == False || kind == Null {
        if name.Some? {
          PutThenOverride(lex, rest, Some(tok), name, obj, name.value, ScalarOf(tok).value);
        }
      } else if kind == Colon {
        if prev.Some? && prev.value.Str? {
          ObjectLoopOverrides(lex, rest, Some(tok), Some(prev.value.chars), obj);
        }
      } else if kind == Comma {
        ObjectLoopOverrides(lex, rest, Some(tok), name, obj);
      } else if kind == CurlyClose {
        assert obj + map[] == obj;
      }
  }

  /** The put step of ObjectStepOverrides: obj[k := v] + later == obj + (map[k := v] + later). */
  lemma {:induction false} PutThenOverride(lex: LexFn, s: seq<CodeUnit>, curr: Option<Token>, name: Option<Key>,
                                           obj: Members, k: Key, v: JsonValue)
    requires Consumes(lex)
    ensures ObjectLoop(lex, s, curr, name, obj[k := v]).Ok? <==> ObjectLoop(lex, s, curr, name, map[k := v]).Ok?
    ensures ObjectLoop(lex, s, curr, name, obj[k := v]).Ok? ==>
              ObjectLoop(lex, s, curr, name, obj[k := v]).value
                == Parsed(obj + ObjectLoop(lex, s, curr, name, map[k := v]).value.value, ObjectLoop(lex, s, curr, name, map[k := v]).value.rest)
    decreases |s|, 2
  {
    ObjectLoopOverrides(lex, s, curr, name, obj[k := v]);
    ObjectLoopOverrides(lex, s, curr, name, map[k := v]);
    if ObjectLoop(lex, s, curr, name, map[]).Ok? {
      var later := ObjectLoop(lex, s, curr, name, map[]).value.value;
      assert obj[k := v] + later == obj + (map[k := v] + later);
    }
  }

  /** A later duplicate name wins: its value is the one the object ends up with. */
  lemma DuplicateKeyKeepsLater(lex: LexFn, s: seq<CodeUnit>, curr: Option<Token>, name: Option<Key>, obj: Members, k: Key)
    requires Consumes(lex)
    requires ObjectLoop(lex, s, curr, name, map[]).Ok? && k in ObjectLoop(lex, s, curr, name, map[]).value.value
    ensures ObjectLoop(lex, s, curr, name, obj).Ok? && k in ObjectLoop(lex, s, curr, name, obj).value.value
    ensures ObjectLoop(lex, s, curr, name, obj).value.value[k] == ObjectLoop(lex, s, curr, name, map[]).value.value[k]
  {
    ObjectLoopOverrides(lex, s, curr, name, obj);
  }

  /** A colon right after a string makes that string the pending name; after anything else it is an error. */
  lemma ColonTakesName(lex: LexFn, rest: seq<CodeUnit>, prev: Option<Token>, name: Option<Key>, obj: Members)
    requires Consumes(lex)
    ensures prev.Some? && prev.value.Str? ==>
              ObjectStep(lex, Punct(Colon), rest, prev, name, obj) == ObjectLoop(lex, rest, Some(Punct(Colon)), Some(prev.value.chars), obj)
    ensures !(prev.Some? && prev.value.Str?) ==> ObjectStep(lex, Punct(Colon), rest, prev, name, obj) == Err(JsonParse)
  {
  }

  /**
   * A value is put under the pending name and nowhere else; with no pending name (none was
   * set, or the previous token is not a colon) a value is an error, and a string is taken as
   * a possible name.
   */
  lemma ValueUnderPendingName(lex: LexFn, s: seq<CodeUnit>, curr: Option<Token>, name: Option<Key>, obj: Members)
    requires Consumes(lex)
    requires lex(s).Ok? && ScalarOf(lex(s).value.token).Some?
    ensures var tok, rest := lex(s).value.token, lex(s).value.rest;
            Pending(curr, name).Some? ==>
              ObjectLoop(lex, s, curr, name, obj) == ObjectLoop(lex, rest, Some(tok), name, obj[name.value := ScalarOf(tok).value])
    ensures var tok, rest := lex(s).value.token, lex(s).value.rest;
            Pending(curr, name).None? && tok.Str? ==> ObjectLoop(lex, s, curr, name, obj) == ObjectLoop(lex, rest, Some(tok), None, obj)
    ensures var tok := lex(s).value.token;
            Pending(curr, name).None? && !tok.Str? ==> ObjectLoop(lex, s, curr, name, obj) == Err(JsonParse)
  {
    var tok, rest := lex(s).value.token, lex(s).value.rest;
    assert ObjectLoop(lex, s, curr, name, obj) == ObjectStep(lex, tok, rest, curr, Pending(curr, name), obj);
  }

  /** A nested structure as a member value also needs a pending name. */
  lemma NestedNeedsName(lex: LexFn, rest: seq<CodeUnit>, prev: Option<Token>, obj: Members)
    requires Consumes(lex)
    ensures ObjectStep(lex, Punct(CurlyOpen), rest, prev, None, obj) == Err(JsonParse)
    ensures ObjectStep(lex, Punct(SquareOpen), rest, prev, None, obj) == Err(JsonParse)
  {
  }

  /**
   * Commas in an object: an error at the start, right after `{`, `[`, `,` or `:`, or while a
   * name is pending; anywhere else the comma is skipped.
   */
  lemma ObjectComma(lex: LexFn, rest: seq<CodeUnit>, prev: Option<Token>, name: Option<Key>, obj: Members)
    requires Consumes(lex)
    ensures name.Some? || CommaMisplaced(prev) || TypeOf(prev.value) == Colon ==>
              ObjectStep(lex, Punct(Comma), rest, prev, name, obj) == Err(JsonParse)
    ensures !(name.Some? || CommaMisplaced(prev) || TypeOf(prev.value) == Colon) ==>
              ObjectStep(lex, Punct(Comma), rest, prev, name, obj) == ObjectLoop(lex, rest, Some(Punct(Comma)), name, obj)
  {
  }

  /**
   * Commas in an array: a RuntimeException at the start or right after `{`, `[` or `,`;
   * anywhere else the comma is skipped.
   */
  lemma ArrayComma(lex: LexFn, rest: seq<CodeUnit>, prev: Option<Token>, elements: seq<JsonValue>)
    requires Consumes(lex)
    ensures CommaMisplaced(prev) ==> ArrayStep(lex, Punct(Comma), rest, prev, elements) == Err(Runtime)
    ensures !CommaMisplaced(prev) ==> ArrayStep(lex, Punct(Comma), rest, prev, elements) == ArrayLoop(lex, rest, Some(Punct(Comma)), elements)
  {
  }

  /** The end of input, or a closer or colon that does not fit, inside a structure is a syntax error. */
  lemma UnexpectedInStructure(lex: LexFn, s: seq<CodeUnit>, rest: seq<CodeUnit>, prev: Option<Token>, name: Option<Key>,
                              obj: Members, elements: seq<JsonValue>)
    requires Consumes(lex)
    ensures lex(s) == Ok(Lexed(Punct(Eof), [])) ==> ObjectLoop(lex, s, prev, name, obj) == Err(JsonParse)
    ensures lex(s) == Ok(Lexed(Punct(Eof), [])) ==> ArrayLoop(lex, s, prev, elements) == Err(JsonParse)
    ensures ObjectStep(lex, Punct(SquareClose), rest, prev, name, obj) == Err(JsonParse)
    ensures ArrayStep(lex, Punct(CurlyClose), rest, prev, elements) == Err(JsonParse)
    ensures ArrayStep(lex, Punct(Colon), rest, prev, elements) == Err(JsonParse)
  {
  }

  // ------------------------------------------------------------------ the parser

  /** A parser over a tokenizer, with the current and the previous token. */
  class Parser {
    const tokenizer: Tokenizer
    var curr: Option<Token>
    var prev: Option<Token>

    ghost predicate Valid()
      reads tokenizer, tokenizer.reader, tokenizer.ca
    {
      tokenizer.Valid()
    }

    /** The input the tokenizer has not consumed yet. */
    ghost function In(): seq<CodeUnit>
      reads tokenizer, tokenizer.reader
      requires tokenizer.reader.Valid() && tokenizer.PrevOk()
    {
      tokenizer.In()
    }

    /** Parser.of(...): no current or previous token yet. */
    constructor (tokenizer: Tokenizer)
      requires tokenizer.Valid()
      ensures Valid() && this.tokenizer == tokenizer && curr == None && prev == None
    {
      this.tokenizer := tokenizer;
      curr, prev := None, None;
    }

    /** parse(): reads the first token and the structure it opens, as ParseDocument describes. */
    method Parse() returns (r: Result<Option<JsonValue>>)
      requires Valid()
      modifies this`curr, this`prev, tokenizer`prev, tokenizer`line, tokenizer`colm, tokenizer.reader`next
      modifies tokenizer.ca, tokenizer.ca.elements
      ensures Valid()
      ensures ParseDocument(Lex, old(In()), old(curr)).Ok? ==>
                r == Ok(ParseDocument(Lex, old(In()), old(curr)).value.value) && In() == ParseDocument(Lex, old(In()), old(curr)).value.rest
      ensures ParseDocument(Lex, old(In()), old(curr)).Err? ==> r == Err(ParseDocument(Lex, old(In()), old(curr)).failure)
    {
      var t := tokenizer.Next();
      if t.Err? {
        return Err(t.failure);
      }
      if t.value == Punct(CurlyOpen) {
        var o := ParseObject(In(), map[]);
        if o.Err? {
          return Err(o.failure);
        }
        r := Ok(Some(JObject(o.value)));
      } else if t.value == Punct(SquareOpen) {
        var a := ParseArray(In(), []);
        if a.Err? {
          return Err(a.failure);
        }
        r := Ok(Some(JArray(a.value)));
      } else if t.value == Punct(Eof) {
        r := Ok(None);
      } else {
        r := Err(JsonParse);
      }
    }

    /** prev := curr; curr := tokenizer.next(): one token further along the input. */
    method Advance() returns (t: Result<Token>)
      requires Valid()
      modifies this`curr, this`prev, tokenizer`prev, tokenizer`line, tokenizer`colm, tokenizer.reader`next
      modifies tokenizer.ca, tokenizer.ca.elements
      ensures Valid() && prev == old(curr)
      ensures tokenizer.ca.elements == old(tokenizer.ca.elements) || fresh(tokenizer.ca.elements)
      ensures Lex(old(In())).Ok? ==> t == Ok(Lex(old(In())).value.token) && In() == Lex(old(In())).value.rest && curr == Some(t.value)
      ensures Lex(old(In())).Err? ==> t == Err(Lex(old(In())).failure)
    {
      prev := curr;
      t := tokenizer.Next();
      if t.Ok? {
        curr := Some(t.value);
      }
    }

    /** parseObject(obj): reads members up to the matching `}`, as ObjectLoop describes. */
    method ParseObject(ghost s: seq<CodeUnit>, obj: Members) returns (r: Result<Members>)
      requires Valid() && In() == s
      modifies this`curr, this`prev, tokenizer`prev, tokenizer`line, tokenizer`colm, tokenizer.reader`next
      modifies tokenizer.ca, tokenizer.ca.elements
      ensures Valid()
      ensures tokenizer.ca.elements == old(tokenizer.ca.elements) || fresh(tokenizer.ca.elements)
      ensures ObjectLoop(Lex, s, old(curr), None, obj).Ok? ==>
                r == Ok(ObjectLoop(Lex, s, old(curr), None, obj).value.value)
                && In() == ObjectLoop(Lex, s, old(curr), None, obj).value.rest && curr == Some(Punct(CurlyClose))
      ensures ObjectLoop(Lex, s, old(curr), None, obj).Err? ==> r == Err(ObjectLoop(Lex, s, old(curr), None, obj).failure)
      decreases |s|, 3
    {
      var name: Option<Key> := None;
      var members := obj;
      while true
        invariant Valid()
        invariant tokenizer.ca.elements == old(tokenizer.ca.elements) || fresh(tokenizer.ca.elements)
        invariant |In()| <= |s|
        invariant ObjectLoop(Lex, In(), curr, name, members) == ObjectLoop(Lex, s, old(curr), None, obj)
        decreases |In()|
      {
        var pass := ObjectPass(In(), name, members);
        if pass.Done? {
          return pass.result;
        }
        name, members := pass.name, pass.acc;
      }
    }

    /**
     * One pass of parseObject's loop: prev := curr, curr := the next token, the pending name
     * dropped unless prev is a colon, then the switch on curr.
     */
    method ObjectPass(ghost s: seq<CodeUnit>, name: Option<Key>, members: Members) returns (pass: Pass<Members>)
      requires Valid() && In() == s
      modifies this`curr, this`prev, tokenizer`prev, tokenizer`line, tokenizer`colm, tokenizer.reader`next
      modifies tokenizer.ca, tokenizer.ca.elements
      ensures Valid()
      ensures tokenizer.ca.elements == old(tokenizer.ca.elements) || fresh(tokenizer.ca.elements)
      ensures pass.Again? ==>
                |In()| < |s| && ObjectLoop(Lex, In(), curr, pass.name, pass.acc) == ObjectLoop(Lex, s, old(curr), name, members)
      ensures pass.Done? && ObjectLoop(Lex, s, old(curr), name, members).Ok? ==>
                pass.result == Ok(ObjectLoop(Lex, s, old(curr), name, members).value.value)
                && In() == ObjectLoop(Lex, s, old(curr), name, members).value.rest && curr == Some(Punct(CurlyClose))
      ensures pass.Done? && ObjectLoop(Lex, s, old(curr), name, members).Err? ==>
                pass.result == Err(ObjectLoop(Lex, s, old(curr), name, members).failure)
      decreases |s|, 2
    {
      ObjectLoopFirst(Lex, s, curr, name, members);
      var t := Advance();
      if t.Err? {
        return Done(Err(t.failure));
      }
      var pending := name;
      if prev.None? || TypeOf(prev.value) != Colon {
        pending := None;
      }
      if t.value == Punct(Eof) {
        return Done(Err(JsonParse));
      }
      pass := ObjectToken(In(), t.value, pending, members);
    }

    /**
     * The switch in parseObject's loop on the token `tok` just read (not the end of input),
     * with `s` the input after it: either the loop goes on with a new pending name and new
     * members, or parseObject returns.
     */
    method ObjectToken(ghost s: seq<CodeUnit>, tok: Token, name: Option<Key>, members: Members)
      returns (pass: Pass<Members>)
      requires Valid() && In() == s && curr == Some(tok)
      modifies this`curr, this`prev, tokenizer`prev, tokenizer`line, tokenizer`colm, tokenizer.reader`next
      modifies tokenizer.ca, tokenizer.ca.elements
      ensures Valid()
      ensures tokenizer.ca.elements == old(tokenizer.ca.elements) || fresh(tokenizer.ca.elements)
      ensures pass.Again? ==>
                |In()| <= |s| && ObjectLoop(Lex, In(), curr, pass.name, pass.acc) == ObjectStep(Lex, tok, s, old(prev), name, members)
      ensures pass.Done? && ObjectStep(Lex, tok, s, old(prev), name, members).Ok? ==>
                pass.result == Ok(ObjectStep(Lex, tok, s, old(prev), name, members).value.value)
                && In() == ObjectStep(Lex, tok, s, old(prev), name, members).value.rest && curr == Some(Punct(CurlyClose))
      ensures pass.Done? && ObjectStep(Lex, tok, s, old(prev), name, members).Err? ==>
                pass.result == Err(ObjectStep(Lex, tok, s, old(prev), name, members).failure)
      decreases |s|, 4
    {
      match tok
      case Str(cs) =>
        if name.Some? {
          return Again(name, members[name.value := JString(cs)]);
        }
        return Again(name, members);
      case Num(cs, _, _) =>
        if name.None? {
          return Done(Err(JsonParse));
        }
        return Again(name, members[name.value := JNumber(cs)]);
      case Punct(kind) =>
        if kind == CurlyOpen {
          if name.None? {
            return Done(Err(JsonParse));
          }
          var inner := ParseObject(s, map[]);
          if inner.Err? {
            return Done(Err(inner.failure));
          }
          return Again(name, members[name.value := JObject(inner.value)]);
        } else if kind == SquareOpen {
          if name.None? {
            return Done(Err(JsonParse));
          }
          var inner := ParseArray(s, []);
          if inner.Err? {
            return Done(Err(inner.failure));
          }
          return Again(name, members[name.value := JArray(inner.value)]);
        } else if kind == True || kind == False || kind == Null {
          if name.None? {
            return Done(Err(JsonParse));
          }
          return Again(name, members[name.value := ScalarOf(tok).value]);
        } else if kind == Colon {
          if prev.Some? && prev.value.Str? {
            return Again(Some(prev.value.chars), members);
          }
          return Done(Err(JsonParse));
        } else if kind == Comma {
          if name.Some? || CommaMisplaced(prev) || TypeOf(prev.value) == Colon {
            return Done(Err(JsonParse));
          }
          return Again(name, members);
        } else if kind == CurlyClose {
          return Done(Ok(members));
        }
        return Done(Err(JsonParse));
    }

    /** parseArray(array): reads elements up to the matching `]`, as ArrayLoop describes. */
    method ParseArray(ghost s: seq<CodeUnit>, arr: seq<JsonValue>) returns (r: Result<seq<JsonValue>>)
      requires Valid() && In() == s
      modifies this`curr, this`prev, tokenizer`prev, tokenizer`line, tokenizer`colm, tokenizer.reader`next
      modifies tokenizer.ca, tokenizer.ca.elements
      ensures Valid()
      ensures tokenizer.ca.elements == old(tokenizer.ca.elements) || fresh(tokenizer.ca.elements)
      ensures ArrayLoop(Lex, s, old(curr), arr).Ok? ==>
                r == Ok(ArrayLoop(Lex, s, old(curr), arr).value.value)
                && In() == ArrayLoop(Lex, s, old(curr), arr).value.rest && curr == Some(Punct(SquareClose))
      ensures ArrayLoop(Lex, s, old(curr), arr).Err? ==> r == Err(ArrayLoop(Lex, s, old(curr), arr).failure)
      decreases |s|, 3
    {
      var elements := arr;
      while true
        invariant Valid()
        invariant tokenizer.ca.elements == old(tokenizer.ca.elements) || fresh(tokenizer.ca.elements)
        invariant |In()| <= |s|
        invariant ArrayLoop(Lex, In(), curr, elements) == ArrayLoop(Lex, s, old(curr), arr)
        decreases |In()|
      {
        var pass := ArrayPass(In(), elements);
        if pass.Done? {
          return pass.result;
        }
        elements := pass.acc;
      }
    }

    /** One pass of parseArray's loop: prev := curr, curr := the next token, then the switch on curr. */
    method ArrayPass(ghost s: seq<CodeUnit>, elements: seq<JsonValue>) returns (pass: Pass<seq<JsonValue>>)
      requires Valid() && In() == s
      modifies this`curr, this`prev, tokenizer`prev, tokenizer`line, tokenizer`colm, tokenizer.reader`next
      modifies tokenizer.ca, tokenizer.ca.elements
      ensures Valid()
      ensures tokenizer.ca.elements == old(tokenizer.ca.elements) || fresh(tokenizer.ca.elements)
      ensures pass.Again? ==>
                |In()| < |s| && ArrayLoop(Lex, In(), curr, pass.acc) == ArrayLoop(Lex, s, old(curr), elements)
      ensures pass.Done? && ArrayLoop(Lex, s, old(curr), elements).Ok? ==>
                pass.result == Ok(ArrayLoop(Lex, s, old(curr), elements).value.value)
                && In() == ArrayLoop(Lex, s, old(curr), elements).value.rest && curr == Some(Punct(SquareClose))
      ensures pass.Done? && ArrayLoop(Lex, s, old(curr), elements).Err? ==>
                pass.result == Err(ArrayLoop(Lex, s, old(curr), elements).failure)
      decreases |s|, 2
    {
      ArrayLoopFirst(Lex, s, curr, elements);
      var t := Advance();
      if t.Err? {
        return Done(Err(t.failure));
      }
      if t.value == Punct(Eof) {
        return Done(Err(JsonParse));
      }
      pass := ArrayToken(In(), t.value, elements);
    }

    /**
     * The switch in parseArray's loop on the token `tok` just read (not the end of input),
     * with `s` the input after it: either the loop goes on with new elements, or parseArray
     * returns.
     */
    method ArrayToken(ghost s: seq<CodeUnit>, tok: Token, elements: seq<JsonValue>)
      returns (pass: Pass<seq<JsonValue>>)
      requires Valid() && In() == s && curr == Some(tok)
      modifies this`curr, this`prev, tokenizer`prev, tokenizer`line, tokenizer`colm, tokenizer.reader`next
      modifies tokenizer.ca, tokenizer.ca.elements
      ensures Valid()
      ensures tokenizer.ca.elements == old(tokenizer.ca.elements) || fresh(tokenizer.ca.elements)
      ensures pass.Again? ==>
                |In()| <= |s| && ArrayLoop(Lex, In(), curr, pass.acc) == ArrayStep(Lex, tok, s, old(prev), elements)
      ensures pass.Done? && ArrayStep(Lex, tok, s, old(prev), elements).Ok? ==>
                pass.result == Ok(ArrayStep(Lex, tok, s, old(prev), elements).value.value)
                && In() == ArrayStep(Lex, tok, s, old(prev), elements).value.rest && curr == Some(Punct(SquareClose))
      ensures pass.Done? && ArrayStep(Lex, tok, s, old(prev), elements).Err? ==>
                pass.result == Err(ArrayStep(Lex, tok, s, old(prev), elements).failure)
      decreases |s|, 4
    {
      match tok
      case Str(cs) =>
        return Again(None, elements + [JString(cs)]);
      case Num(cs, _, _) =>
        return Again(None, elements + [JNumber(cs)]);
      case Punct(kind) =>
        if kind == CurlyOpen {
          var inner := ParseObject(s, map[]);
          if inner.Err? {
            return Done(Err(inner.failure));
          }
          return Again(None, elements + [JObject(inner.value)]);
        } else if kind == SquareOpen {
          var inner := ParseArray(s, []);
          if inner.Err? {
            return Done(Err(inner.failure));
          }
          return Again(None, elements + [JArray(inner.value)]);
        } else if kind == True || kind == False || kind == Null {
          return Again(None, elements + [ScalarOf(tok).value]);
        } else if kind == Comma {
          if CommaMisplaced(prev) {
            return Done(Err(Runtime));
          }
          return Again(None, elements);
        } else if kind == SquareClose {
          return Done(Ok(elements));
        }
        return Done(Err(JsonParse));
    }
  }
}
