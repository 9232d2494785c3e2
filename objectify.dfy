/**
 * Objectify: generates the Java expression that builds an object of a given
 * type from a JSON value, together with the backing methods and JSON pointer
 * constants the expression calls. The generator keeps the stack of types it
 * is inside, the names it has defined and the block of backing code.
 *
 * Generated blocks are handled as the lines of the Code blocks the source
 * builds, through the same operations that specify Code (SubstAll for
 * interpolate, ContentOf for a block put inside another); the backing code
 * is a Code object.
 */
module Objectifies {
  import opened Wrappers
  import opened JavaText
  import opened LangUtils
  import opened Paths
  import opened Codes
  import opened Generators
  import Iterate

  // ---------------------------------------------------------------- templates (the lines of each Code.of literal)

  const ObjectTemplate: seq<string> := [
    "!(json.at(#{pointerName}) instanceof JsonStructure) ? null",
    ": #{newMethod}(",
    "    #{params}",
    ")"]

  const DefaultsTemplate: seq<string> := ["convert.defaults(#{type}.class)"]

  const BasicRootTemplate: seq<string> := ["json.as(convert.to(#{type}.class))"]

  const BasicTemplate: seq<string> := ["json.as(#{pointerName}, convert.to(#{type}.class))"]

  const EnumRootTemplate: seq<string> :=
    ["Optional.<String>ofNullable(json.as(convert.to(String.class))).map(#{enumType}::valueOf).orElse(null)"]

  const EnumTemplate: seq<string> :=
    ["Optional.<String>ofNullable(json.as(#{pointerName}, convert.to(String.class))).map(#{enumType}::valueOf).orElse(null)"]

  const ListTemplate: seq<string> := [
    "private List<#{type}> #{methodName}(JsonValue array) {",
    "    if (array == null || array instanceof JsonValue.JsonNull) return null;",
    "    List<#{type}> list = new ArrayList<>();",
    "    for (JsonValue json : (JsonArray) array) {",
    "        list.add(#{entry});",
    "    }",
    "    return list;",
    "}"]

  const SetTemplate: seq<string> := [
    "private Set<#{type}> #{methodName}(JsonValue array) {",
    "    if (array == null || array instanceof JsonValue.JsonNull) return null;",
    "    Set<#{type}> set = new LinkedHashSet<>();",
    "    for (JsonValue json : (JsonArray) array) {",
    "        set.add(#{entry});",
    "    }",
    "    return set;",
    "}"]

  const ArrayTemplate: seq<string> := [
    "private #{type}[] #{methodName}(JsonValue array) {",
    "    if (array == null || array instanceof JsonValue.JsonNull) return null;",
    "    List<#{type}> list = new ArrayList<>();",
    "    for (JsonValue json : (JsonArray) array) {",
    "        list.add(#{entry});",
    "    }",
    "    return list.toArray(new #{typeNew}[0]);",
    "}"]

  const MapTemplate: seq<string> := [
    "private Map<#{keyType}, #{valType}> #{methodName}(JsonValue str) {",
    "    if (str == null || str instanceof JsonValue.JsonNull) return null;",
    "    Map<#{keyType}, #{valType}> map = new LinkedHashMap<>();",
    "    if (str instanceof JsonObject obj) {",
    "        for (Map.Entry<String, JsonValue> e : obj.entrySet()) {",
    "            #{keyType} key = Optional.ofNullable(JsonString.of(e.getKey())).<#{keyType}>map(json -> #{key}).orElse(null);",
    "            JsonValue json = e.getValue();",
    "            #{valType} val = #{val};",
    "            map.put(key, val);",
    "        }",
    "    } else if (str instanceof JsonArray array) {",
    "        JsonValue prev = null;",
    "        for (Iterate.Entry<JsonValue> e : Iterate.of(array)) {",
    "            if (e.isEven()) {",
    "                prev = e.value();",
    "                continue;",
    "            }",
    "            #{keyType} key = Optional.ofNullable(prev).<#{keyType}>map(json -> #{key}).orElse(null);",
    "            JsonValue json = e.value();",
    "            #{valType} val = #{val};",
    "            map.put(key, val);",
    "        }",
    "    } else {",
    "        throw new JsonStructException();",
    "    }",
    "    return map;",
    "}"]

  const CallTemplate: seq<string> := ["#{methodName}(json.at(#{pointerName}))"]

  const PointerTemplate: seq<string> :=
    ["private static final JsonPointer #{pointerName} = JsonPointer.of(\"#{name}\");"]

  // ---------------------------------------------------------------- the generated blocks

  /** The ways toCode can generate a value of a type, in the order it tries them. */
  datatype Shape = BasicShape | EnumShape | ArrayShape | ListShape | SetShape | MapShape | ObjectShape

  /** toCode's dispatch: basic class, enum, array, list, set, map, and otherwise an object. */
  function ShapeOf(basic: set<string>, w: World, t: TypeMirror): (r: Shape)
    ensures t.ArrayOf? && TypeText(t) !in basic ==> r == ArrayShape
    ensures r == EnumShape || r == ListShape || r == SetShape || r == MapShape ==> t.Declared?
    ensures !t.Declared? && !t.ArrayOf? && TypeText(t) !in basic ==> r == ObjectShape
    ensures r == BasicShape <==> TypeText(t) in basic
    ensures r == EnumShape <==> TypeText(t) !in basic && IsEnum(w, t)
    ensures r == ArrayShape <==> TypeText(t) !in basic && t.ArrayOf?
    ensures r == ListShape <==> TypeText(t) !in basic && !IsEnum(w, t) && IsListLike(w, t)
    ensures r == SetShape <==> TypeText(t) !in basic && !IsEnum(w, t) && !IsListLike(w, t) && IsSetLike(w, t)
    ensures r == MapShape <==>
              TypeText(t) !in basic && !IsEnum(w, t) && !IsListLike(w, t) && !IsSetLike(w, t) && IsMapLike(w, t)
    ensures r == ObjectShape <==>
              TypeText(t) !in basic && !IsEnum(w, t) && !t.ArrayOf?
              && !IsListLike(w, t) && !IsSetLike(w, t) && !IsMapLike(w, t)
  {
    if TypeText(t) in basic then BasicShape
    else if IsEnum(w, t) then EnumShape
    else if IsArrayLike(t) then ArrayShape
    else if IsListLike(w, t) then ListShape
    else if IsSetLike(w, t) then SetShape
    else if IsMapLike(w, t) then MapShape
    else ObjectShape
  }

  /** The stem a backing method's name gets after the path's camel name. */
  function Suffix(shape: Shape): string {
    match shape
    case ArrayShape => "ObjectifyArray"
    case ListShape => "ObjectifyList"
    case SetShape => "ObjectifySet"
    case _ => "ObjectifyMap"
  }

  /** The name of the pointer constant for a path: its camel name (or "self") and "Pointer". */
  function PointerName(ps: seq<string>): string {
    CamelOr(ps, "self") + "Pointer"
  }

  /** The declaration createPointer puts at the head of the backing code. */
  function PointerDecl(name: string, ps: seq<string>): Result<seq<string>> {
    var a :- Fill(PointerTemplate, "#{pointerName}", name);
    Fill(a, "#{name}", PointerOf(ps))
  }

  /** basic at the root: the value converted as a whole. */
  function BasicRoot(t: TypeMirror): Result<seq<string>> {
    FillType(BasicRootTemplate, "#{type}", TypeText(t))
  }

  /** basic below the root: the value at the pointer, converted. */
  function BasicAt(t: TypeMirror, pointer: string): Result<seq<string>> {
    var a :- Fill(BasicTemplate, "#{pointerName}", pointer);
    FillType(a, "#{type}", TypeText(t))
  }

  function EnumRoot(t: TypeMirror): Result<seq<string>> {
    FillType(EnumRootTemplate, "#{enumType}", TypeText(t))
  }

  function EnumAt(t: TypeMirror, pointer: string): Result<seq<string>> {
    var a :- Fill(EnumTemplate, "#{pointerName}", pointer);
    FillType(a, "#{enumType}", TypeText(t))
  }

  /** The call of a backing method on the value at the pointer. */
  function CallSite(methodName: string, pointer: string): Result<seq<string>> {
    var a :- Fill(CallTemplate, "#{methodName}", methodName);
    Fill(a, "#{pointerName}", pointer)
  }

  /** defaults: the converter's default for the erased type of an ignored parameter. */
  function DefaultsCode(t: TypeMirror): (r: Result<seq<string>>)
    ensures r.Ok? <==> ShortType(TypeText(Erasure(t))).Ok?
    ensures r.Err? ==> r.failure == IllegalArgument
    ensures r.Ok? ==> r.value == ["convert.defaults(" + ShortType(TypeText(Erasure(t))).value + ".class)"]
  {
    var short := ShortType(TypeText(Erasure(t)));
    if short.Err? then Err(short.failure)
    else DefaultsLine(short.value); Fill(DefaultsTemplate, "#{type}", short.value)
  }

  /** The defaults template filled with a short type name. */
  lemma DefaultsLine(short: string)
    requires '\n' !in short
    ensures Fill(DefaultsTemplate, "#{type}", short) == Ok(["convert.defaults(" + short + ".class)"])
  {
    assert DefaultsTemplate[0] == "convert.defaults(" + "#{type}" + ".class)";
    assert DefaultsTemplate == ["convert.defaults(" + "#{type}" + ".class)"];
    FillOneLine("convert.defaults(", "#{type}", ".class)", short);
  }

  /** A list, set or array backing method before its entry code is put in. */
  function IterableHead(shape: Shape, entry: TypeMirror, methodName: string): Result<seq<string>> {
    var text := TypeText(entry);
    if shape == ArrayShape then
      var a :- FillType(ArrayTemplate, "#{type}", text);
      var b :- FillType(a, "#{typeNew}", Replace(text, "[]", "[0]"));
      Fill(b, "#{methodName}", methodName)
    else
      var a :- FillType(if shape == ListShape then ListTemplate else SetTemplate, "#{type}", text);
      Fill(a, "#{methodName}", methodName)
  }

  /** The map backing method before its key and value code are put in. */
  function MapHead(key: TypeMirror, val: TypeMirror, methodName: string): Result<seq<string>> {
    var a :- FillType(MapTemplate, "#{keyType}", TypeText(key));
    var b :- FillType(a, "#{valType}", TypeText(val));
    Fill(b, "#{methodName}", methodName)
  }

  /** object's expression: null unless the value at the JSON pointer is a structure, else the instantiation with its arguments. */
  function ObjectCode(pointer: string, instantiation: string, params: seq<string>): Result<seq<string>> {
    var a :- Fill(ObjectTemplate, "#{pointerName}", pointer);
    var b :- Fill(a, "#{newMethod}", instantiation);
    FillCode(b, "#{params}", params)
  }

  /**
   * instantiation: `new` and the constructor's text up to its parenthesis,
   * or the simple name of the factory's declared return type, a dot and the
   * factory's name; anything else throws.
   */
  function Instantiation(c: Element): (r: Result<string>)
    ensures IsConstructor(c) ==> (r.Ok? <==> Contains(c.text, "("))
    ensures IsConstructor(c) && r.Ok? ==>
      StartsWith(r.value, "new ") && '(' !in r.value[4..] && StartsWith(c.text, r.value[4..] + "(")
    ensures IsStaticFactory(c) ==> (r.Ok? <==> c.returnType.Declared?)
    ensures IsStaticFactory(c) && r.Ok? ==>
      var k := |r.value| - |c.name| - 1;
      k >= 0 && r.value[k..] == "." + c.name && '.' !in r.value[..k]
    ensures !IsConstructor(c) && !IsStaticFactory(c) ==> r == Err(Runtime)
  {
    if IsConstructor(c) then NewOf(c.text)
    else if IsStaticFactory(c) then FactoryOf(c.returnType, c.name)
    else Err(Runtime)
  }

  /** A constructor: `new` and its text before the first parenthesis; a text without one fails the substring. */
  function NewOf(text: string): (r: Result<string>)
    ensures r.Ok? <==> Contains(text, "(")
    ensures r.Err? ==> r == Err(IndexOutOfBounds)
    ensures r.Ok? ==> StartsWith(r.value, "new ") && '(' !in r.value[4..] && StartsWith(text, r.value[4..] + "(")
  {
    var k := IndexOf(text, "(");
    if k < 0 then Err(IndexOutOfBounds)
    else
      FirstParen(text, k);
      assert ("new " + text[..k])[4..] == text[..k];
      Ok("new " + text[..k])
  }

  /** A static factory: the simple name of its declared return type, a dot and its own name. */
  function FactoryOf(returnType: TypeMirror, name: string): (r: Result<string>)
    ensures r.Ok? <==> returnType.Declared?
    ensures r.Err? ==> r == Err(Runtime)
    ensures r.Ok? ==>
      var k := |r.value| - |name| - 1;
      k >= 0 && r.value[k..] == "." + name && '.' !in r.value[..k]
  {
    if returnType.Declared? then
      var n := SimpleName(returnType.name);
      DotJoin(n, name);
      Ok(n + "." + name)
    else Err(Runtime)
  }

  /** A dotted name splits back at its last dot when the head has none. */
  lemma DotJoin(n: string, name: string)
    requires '.' !in n
    ensures var v := n + "." + name; var k := |v| - |name| - 1;
      k == |n| && v[k..] == "." + name && '.' !in v[..k]
  {
    var v := n + "." + name;
    assert v[..|n|] == n;
    assert v[|n|..] == "." + name;
  }

  /** The first occurrence of "(" ends a prefix without one. */
  lemma FirstParen(s: string, k: int)
    requires k != -1 && OccursAt(s, "(", k) && forall i :: 0 <= i < k ==> !OccursAt(s, "(", i)
    ensures '(' !in s[..k] && StartsWith(s, s[..k] + "(")
  {
    forall i | 0 <= i < k
      ensures s[i] != '('
    {
      assert !OccursAt(s, "(", i);
      assert s[i..i + 1] == [s[i]];
    }
    assert s[k..k + 1] == "(";
    assert s[..k + 1] == s[..k] + "(";
  }

  /** The constructor printed as `Book(java.lang.String,int)` is instantiated as `new Book`. */
  lemma InstantiationOfConstructor(ctor: Element)
    requires IsConstructor(ctor) && ctor.text == "Book(java.lang.String,int)"
    ensures Instantiation(ctor) == Ok("new Book")
  {
    BookParen(ctor.text);
    assert "new " + ctor.text[..4] == "new Book";
  }

  lemma BookParen(s: string)
    requires s == "Book(java.lang.String,int)"
    ensures IndexOf(s, "(") == 4 && s[..4] == "Book"
  {
    assert s[4] == '(';
    assert OccursAt(s, "(", 4) by {
      assert s[4..5] == [s[4]];
    }
    forall i | 0 <= i < 4
      ensures !OccursAt(s, "(", i)
    {
      assert s[i..i + 1] == [s[i]];
    }
  }

  /** The factory `of` returning com.example.Book is instantiated as `Book.of`. */
  lemma InstantiationOfFactory(factory: Element)
    requires IsStaticFactory(factory) && factory.name == "of"
    requires factory.returnType == Declared("com.example.Book", [])
    ensures Instantiation(factory) == Ok("Book.of")
  {
    BookSimpleName(factory.returnType.name);
    assert !IsConstructor(factory);
    assert "Book" + "." + factory.name == "Book.of";
  }

  lemma BookSimpleName(qn: string)
    requires qn == "com.example.Book"
    ensures SimpleName(qn) == "Book"
  {
    assert qn[11] == '.' && qn[12..] == "Book";
    LastIndexOfAt(qn, '.', 11);
  }

  /**
   * code is the expression object writes for e at the pointer: the selected
   * constructor or factory applied to one piece per parameter, listed with
   * commas, an ignored parameter's piece being its type's default.
   */
  ghost predicate ObjectPieces(e: Element, pointer: string, pieces: seq<seq<string>>, code: seq<string>) {
    var sel := SelectConstructorLike(e, Some(JsonStructAnnotation));
    sel.Some?
    && var c := sel.value;
       |pieces| == |c.params| && Listed(pieces, |c.params|, ",").Ok? && Instantiation(c).Ok?
       && IgnoredDefaults(c.params, pieces)
       && Ok(code) == ObjectCode(pointer, Instantiation(c).value, Listed(pieces, |c.params|, ",").value)
  }

  /** Each piece for an ignored parameter is the default of the parameter's type. */
  predicate IgnoredDefaults(ps: seq<Element>, pieces: seq<seq<string>>) {
    forall k | 0 <= k < |pieces| && k < |ps| && IsAnnotated(ps[k], JsonStructIgnoreAnnotation) ::
      DefaultsCode(AsType(ps[k])) == Ok(pieces[k])
  }

  /** One more piece keeps the ignored parameters at their defaults. */
  lemma {:induction false} IgnoredDefaultsSnoc(ps: seq<Element>, pieces: seq<seq<string>>, piece: seq<string>)
    requires |pieces| < |ps| && IgnoredDefaults(ps, pieces)
    requires IsAnnotated(ps[|pieces|], JsonStructIgnoreAnnotation) ==> DefaultsCode(AsType(ps[|pieces|])) == Ok(piece)
    ensures IgnoredDefaults(ps, pieces + [piece])
  {
    var more := pieces + [piece];
    forall k | 0 <= k < |more| && k < |ps| && IsAnnotated(ps[k], JsonStructIgnoreAnnotation)
      ensures DefaultsCode(AsType(ps[k])) == Ok(more[k])
    {
      if k < |pieces| {
        assert more[k] == pieces[k];
      } else {
        assert k == |pieces| && more[k] == piece;
      }
    }
  }

  /** code is object's expression for e at the pointer, for some parameter pieces. */
  ghost predicate IsObjectCode(e: Element, pointer: string, code: seq<string>) {
    exists pieces :: ObjectPieces(e, pointer, pieces, code)
  }

  /** What build returns: the object's expression and the backing code behind it. */
  datatype BackingCode = BackingCode(code: seq<string>, backing: Code)

  // ---------------------------------------------------------------- the generator

  class Objectify {
    /** The type utilities' answers. */
    const world: World
    /** The qualified names of the classes the converters handle directly. */
    const basicClasses: set<string>
    /** How many times a type may be on the stack before its object code is cut off. */
    const cyclicDepth: int
    /** The backing methods and pointer constants generated so far. */
    var backingCodes: Code
    /** The qualified names of the types being generated, innermost first. */
    var stack: seq<string>
    /** The method and pointer names defined so far. */
    var definedNames: set<string>

    /** Objectify.of: empty stack and names, fresh backing code. */
    constructor Of(world: World, basicClasses: set<string>, cyclicDepth: int)
      ensures this.world == world && this.basicClasses == basicClasses && this.cyclicDepth == cyclicDepth
      ensures fresh(backingCodes) && backingCodes.lines == []
      ensures stack == [] && definedNames == {}
    {
      this.world := world;
      this.basicClasses := basicClasses;
      this.cyclicDepth := cyclicDepth;
      backingCodes := new Code.Of();
      stack := [];
      definedNames := {};
    }

    /** The pushes the cut-off still allows. */
    function Remaining(): nat
      reads this
    {
      Generators.Budget(stack, TypeNames(world), cyclicDepth)
    }

    /**
     * build: the object expression for the element at the root path, then the
     * backing code handed over and the generator reset.
     */
    method Build(element: Element) returns (r: Result<BackingCode>)
      requires element.TypeElement? && element.qualifiedName in TypeNames(world)
      modifies this, backingCodes`lines
      ensures r.Ok? ==> stack == [] && definedNames == {}
      ensures r.Ok? ==> fresh(backingCodes) && backingCodes.lines == [] && r.value.backing == old(backingCodes)
      ensures !IsClassKind(element.kind) ==> r == Err(Runtime)
      ensures IsClassKind(element.kind) && Count(old(stack), element.qualifiedName) > cyclicDepth ==>
        r.Ok? && r.value.code == ["null"]
      ensures IsClassKind(element.kind) && Count(old(stack), element.qualifiedName) <= cyclicDepth ==>
        (SelectConstructorLike(element, Some(JsonStructAnnotation)).None? ==> r == Err(NoSuchElement))
        && (r.Ok? ==> IsObjectCode(element, PointerName([]), r.value.code))
    {
      var root := new Path.Of();
      var code := WithStack(element, root);
      if code.Err? {
        return Err(code.failure);
      }
      var backing := BackingWithClear();
      r := Ok(BackingCode(code.value, backing));
    }

    /** backingWithClear: the backing code so far is returned; fresh code, an empty stack and no names follow. */
    method BackingWithClear() returns (ret: Code)
      modifies this`backingCodes, this`stack, this`definedNames
      ensures ret == old(backingCodes)
      ensures fresh(backingCodes) && backingCodes.lines == []
      ensures stack == [] && definedNames == {}
    {
      ret := backingCodes;
      backingCodes := new Code.Of();
      stack := [];
      definedNames := {};
    }

    /** uniqueName: the first name of the candidate's chain not defined yet, now defined. */
    method UniqueName(candidate: string) returns (name: string)
      modifies this`definedNames
      ensures name == FreeName(old(definedNames), candidate) && name !in old(definedNames)
      ensures definedNames == old(definedNames) + {name}
    {
      name := FreshName(definedNames, candidate);
      definedNames := definedNames + {name};
    }

    /**
     * createPointer: the path's pointer name; its declaration goes at the head
     * of the backing code the first time only.
     */
    method CreatePointer(path: Path) returns (r: Result<string>)
      modifies this`definedNames, backingCodes`lines
      ensures var name := PointerName(path.paths);
        name in old(definedNames) ==>
          r == Ok(name) && definedNames == old(definedNames) && backingCodes.lines == old(backingCodes.lines)
      ensures var name := PointerName(path.paths);
        name !in old(definedNames) && PointerDecl(name, path.paths).Err? ==>
          r.Err? && definedNames == old(definedNames) && backingCodes.lines == old(backingCodes.lines)
      ensures var name := PointerName(path.paths);
        name !in old(definedNames) && PointerDecl(name, path.paths).Ok? ==>
          r == Ok(name) && definedNames == old(definedNames) + {name}
          && backingCodes.lines == PointerDecl(name, path.paths).value + old(backingCodes.lines)
    {
      var name := CamelOr(path.paths, "self") + "Pointer";
      if name in definedNames {
        return Ok(name);
      }
      var pointer := path.PointerJoin();
      var decl := Fill(PointerTemplate, "#{pointerName}", name);
      if decl.Err? {
        return Err(decl.failure);
      }
      var filled := Fill(decl.value, "#{name}", pointer);
      if filled.Err? {
        return Err(filled.failure);
      }
      backingCodes.lines := filled.value + backingCodes.lines;  // addHead
      definedNames := definedNames + {name};
      r := Ok(name);
    }

    /**
     * What toCode yields for a value of type t at the path segments `paths`,
     * by the first shape that fits, from the stack `stack0` and the defined
     * names `names0` it starts with, `names` being the defined names after it.
     */
    ghost predicate Generated(t: TypeMirror, paths: seq<string>, stack0: seq<string>, names0: set<string>,
                              names: set<string>, r: Result<seq<string>>)
    {
      var shape := ShapeOf(basicClasses, world, t);
      (shape == BasicShape && paths == [] ==> r == BasicRoot(t))
      && (shape == BasicShape && paths != [] && r.Ok? ==> r == BasicAt(t, PointerName(paths)))
      && (shape == EnumShape && paths == [] ==> r == EnumRoot(t))
      && (shape == EnumShape && paths != [] && r.Ok? ==> r == EnumAt(t, PointerName(paths)))
      && (shape in {ArrayShape, ListShape, SetShape, MapShape} && r.Ok? ==>
            var name := FreeName(names0, CamelOr(paths, "self") + Suffix(shape));
            name in names && Ok(r.value) == CallSite(name, PointerName(paths)))
      && (shape == ObjectShape && AsTypeElement(world, t).None? ==> r == Err(Runtime))
      && (shape == ObjectShape && AsTypeElement(world, t).Some? ==>
            var e := AsTypeElement(world, t).value;
            (!IsClassKind(e.kind) ==> r == Err(Runtime))
            && (IsClassKind(e.kind) && Count(stack0, e.qualifiedName) > cyclicDepth ==> r == Ok(["null"]))
            && (IsClassKind(e.kind) && Count(stack0, e.qualifiedName) <= cyclicDepth ==>
                  (SelectConstructorLike(e, Some(JsonStructAnnotation)).None? ==> r == Err(NoSuchElement))
                  && (r.Ok? ==> IsObjectCode(e, PointerName(paths), r.value))))
    }

    /** toCode: the expression for a value of type t at the path, by the first shape that fits. */
    method ToCode(t: TypeMirror, path: Path) returns (r: Result<seq<string>>)
      modifies this`stack, this`definedNames, backingCodes`lines
      decreases Remaining(), 0, TypeSize(t), 4
      ensures r.Ok? ==> stack == old(stack)
      ensures old(definedNames) <= definedNames
      ensures Generated(t, path.paths, old(stack), old(definedNames), definedNames, r)
    {
      var shape := ShapeOf(basicClasses, world, t);
      if shape == BasicShape {
        r := Basic(t, path);
      } else if shape == EnumShape {
        r := Enumerate(t, path);
      } else if shape == ArrayShape || shape == ListShape || shape == SetShape {
        r := Iterable(t, path, shape);
      } else if shape == MapShape {
        r := MapCode(t, path);
      } else {
        var e := AsTypeElement(world, t);
        if e.None? {
          return Err(Runtime);
        }
        KnownTypeNamed(world, t);
        r := WithStack(e.value, path);
      }
    }

    /** basic: the converted value, at the root or at the path's pointer. */
    method Basic(t: TypeMirror, path: Path) returns (r: Result<seq<string>>)
      modifies this`definedNames, backingCodes`lines
      ensures path.paths == [] ==> r == BasicRoot(t) && definedNames == old(definedNames)
      ensures path.paths != [] && r.Ok? ==> r == BasicAt(t, PointerName(path.paths))
      ensures old(definedNames) <= definedNames <= old(definedNames) + {PointerName(path.paths)}
    {
      if path.IsEmpty() {
        return BasicRoot(t);
      }
      var pointer := CreatePointer(path);
      if pointer.Err? {
        return Err(pointer.failure);
      }
      r := BasicAt(t, pointer.value);
    }

    /** enumerate: the string value mapped through the enum's valueOf, at the root or at the pointer. */
    method Enumerate(t: TypeMirror, path: Path) returns (r: Result<seq<string>>)
      modifies this`definedNames, backingCodes`lines
      ensures path.paths == [] ==> r == EnumRoot(t) && definedNames == old(definedNames)
      ensures path.paths != [] && r.Ok? ==> r == EnumAt(t, PointerName(path.paths))
      ensures old(definedNames) <= definedNames <= old(definedNames) + {PointerName(path.paths)}
    {
      if path.IsEmpty() {
        return EnumRoot(t);
      }
      var pointer := CreatePointer(path);
      if pointer.Err? {
        return Err(pointer.failure);
      }
      r := EnumAt(t, pointer.value);
    }

    /**
     * list, set and array: a backing method with a fresh name that converts
     * each entry goes into the backing code after an empty line, and the
     * expression calls it on the value at the pointer.
     */
    method Iterable(t: TypeMirror, path: Path, shape: Shape) returns (r: Result<seq<string>>)
      requires shape in {ArrayShape, ListShape, SetShape}
      modifies this`stack, this`definedNames, backingCodes`lines
      decreases Remaining(), 0, TypeSize(t), 3
      ensures r.Ok? ==> stack == old(stack)
      ensures old(definedNames) <= definedNames
      ensures EntryType(t).Err? ==> r == Err(Runtime) && definedNames == old(definedNames)
      ensures r.Ok? ==>
        var name := FreeName(old(definedNames), CamelOr(path.paths, "self") + Suffix(shape));
        name in definedNames && PointerName(path.paths) in definedNames
        && Ok(r.value) == CallSite(name, PointerName(path.paths))
    {
      var entry := EntryType(t);
      if entry.Err? {
        return Err(entry.failure);
      }
      var name := UniqueName(CamelOr(path.paths, "self") + Suffix(shape));
      backingCodes.lines := backingCodes.lines + [""];  // addEmptyLine
      var method_ := IterableMethod(t, entry.value, shape, name);
      if method_.Err? {
        return Err(method_.failure);
      }
      backingCodes.lines := backingCodes.lines + method_.value;
      r := Call(name, path);
    }

    /** The backing method of a list, set or array: its head with the entry's code put in. */
    method IterableMethod(ghost t: TypeMirror, entry: TypeMirror, shape: Shape, name: string)
      returns (r: Result<seq<string>>)
      requires TypeSize(entry) < TypeSize(t)
      modifies this`stack, this`definedNames, backingCodes`lines
      decreases Remaining(), 0, TypeSize(t), 2
      ensures r.Ok? ==> stack == old(stack)
      ensures old(definedNames) <= definedNames
      ensures IterableHead(shape, entry, name).Err? ==> r.Err? && definedNames == old(definedNames)
    {
      var head := IterableHead(shape, entry, name);
      if head.Err? {
        return Err(head.failure);
      }
      r := FillRoot(t, head.value, "#{entry}", entry);
    }

    /**
     * map: a backing method with a fresh name reading either an object of
     * key/value members or an array alternating keys and values goes into the
     * backing code after an empty line, and the expression calls it on the
     * value at the pointer.
     */
    method MapCode(t: TypeMirror, path: Path) returns (r: Result<seq<string>>)
      modifies this`stack, this`definedNames, backingCodes`lines
      decreases Remaining(), 0, TypeSize(t), 3
      ensures r.Ok? ==> stack == old(stack)
      ensures old(definedNames) <= definedNames
      ensures BiEntryTypes(t).Err? ==> r == Err(Runtime) && definedNames == old(definedNames)
      ensures r.Ok? ==>
        var name := FreeName(old(definedNames), CamelOr(path.paths, "self") + "ObjectifyMap");
        name in definedNames && PointerName(path.paths) in definedNames
        && Ok(r.value) == CallSite(name, PointerName(path.paths))
    {
      var kv := BiEntryTypes(t);
      if kv.Err? {
        return Err(kv.failure);
      }
      var name := UniqueName(CamelOr(path.paths, "self") + "ObjectifyMap");
      backingCodes.lines := backingCodes.lines + [""];  // addEmptyLine
      var method_ := MapMethod(t, kv.value.0, kv.value.1, name);
      if method_.Err? {
        return Err(method_.failure);
      }
      backingCodes.lines := backingCodes.lines + method_.value;
      r := Call(name, path);
    }

    /** The backing method of a map: its head with the key's code and then the value's code put in. */
    method MapMethod(ghost t: TypeMirror, key: TypeMirror, val: TypeMirror, name: string)
      returns (r: Result<seq<string>>)
      requires TypeSize(key) < TypeSize(t) && TypeSize(val) < TypeSize(t)
      modifies this`stack, this`definedNames, backingCodes`lines
      decreases Remaining(), 0, TypeSize(t), 2
      ensures r.Ok? ==> stack == old(stack)
      ensures old(definedNames) <= definedNames
      ensures MapHead(key, val, name).Err? ==> r.Err? && definedNames == old(definedNames)
    {
      var head := MapHead(key, val, name);
      if head.Err? {
        return Err(head.failure);
      }
      var withKey := FillRoot(t, head.value, "#{key}", key);
      if withKey.Err? {
        return Err(withKey.failure);
      }
      r := FillRoot(t, withKey.value, "#{val}", val);
    }

    /** interpolate(key, toCode(u, Path.of())): the code for a part u of the type t put in place of the key. */
    method FillRoot(ghost t: TypeMirror, ls: seq<string>, key: string, u: TypeMirror) returns (r: Result<seq<string>>)
      requires TypeSize(u) < TypeSize(t)
      modifies this`stack, this`definedNames, backingCodes`lines
      decreases Remaining(), 0, TypeSize(t), 1
      ensures r.Ok? ==> stack == old(stack)
      ensures old(definedNames) <= definedNames
    {
      var code := RootCode(t, u);
      if code.Err? {
        return Err(code.failure);
      }
      r := FillCode(ls, key, code.value);
    }

    /** toCode(u, Path.of()): the code for a part u of the type t, at the root of the value a backing method gets. */
    method RootCode(ghost t: TypeMirror, u: TypeMirror) returns (r: Result<seq<string>>)
      requires TypeSize(u) < TypeSize(t)
      modifies this`stack, this`definedNames, backingCodes`lines
      decreases Remaining(), 0, TypeSize(t), 0
      ensures r.Ok? ==> stack == old(stack)
      ensures old(definedNames) <= definedNames
      ensures Generated(u, [], old(stack), old(definedNames), definedNames, r)
    {
      var root := new Path.Of();
      r := ToCode(u, root);
    }

    /** The call expression of a backing method: its name, then the pointer (created if need be). */
    method Call(name: string, path: Path) returns (r: Result<seq<string>>)
      modifies this`definedNames, backingCodes`lines
      ensures old(definedNames) <= definedNames <= old(definedNames) + {PointerName(path.paths)}
      ensures r.Ok? ==> PointerName(path.paths) in definedNames && Ok(r.value) == CallSite(name, PointerName(path.paths))
    {
      var a := Fill(CallTemplate, "#{methodName}", name);
      if a.Err? {
        return Err(a.failure);
      }
      var pointer := CreatePointer(path);
      if pointer.Err? {
        return Err(pointer.failure);
      }
      r := Fill(a.value, "#{pointerName}", pointer.value);
    }

    /**
     * withStack: a type that is not a class, enum or record throws; a type
     * already on the stack more than cyclicDepth times gives "null"; otherwise
     * the object code is generated with the type pushed, and the stack is
     * popped back.
     */
    method WithStack(e: Element, path: Path) returns (r: Result<seq<string>>)
      requires e.TypeElement? && e.qualifiedName in TypeNames(world)
      modifies this`stack, this`definedNames, backingCodes`lines
      decreases Remaining(), 0, 0, 0
      ensures r.Ok? ==> stack == old(stack)
      ensures old(definedNames) <= definedNames
      ensures !IsClassKind(e.kind) ==> r == Err(Runtime) && stack == old(stack)
      ensures IsClassKind(e.kind) && Count(old(stack), e.qualifiedName) > cyclicDepth ==>
        r == Ok(["null"]) && definedNames == old(definedNames) && backingCodes.lines == old(backingCodes.lines)
      ensures IsClassKind(e.kind) && Count(old(stack), e.qualifiedName) <= cyclicDepth ==>
        (SelectConstructorLike(e, Some(JsonStructAnnotation)).None? ==> r == Err(NoSuchElement))
        && (r.Ok? ==> IsObjectCode(e, PointerName(path.paths), r.value))
    {
      if !IsClassKind(e.kind) {
        return Err(Runtime);
      }
      if Count(stack, e.qualifiedName) > cyclicDepth {
        return Ok(["null"]);
      }
      PushShrinks(stack, e.qualifiedName, TypeNames(world), cyclicDepth);
      stack := [e.qualifiedName] + stack;
      ghost var pieces;
      r, pieces := Object(e, path);
      if r.Err? {
        return;
      }
      assert ObjectPieces(e, PointerName(path.paths), pieces, r.value);
      stack := stack[1..];
    }

    /**
     * object: the selected constructor or factory applied to one piece of
     * code per parameter, an ignored parameter getting its default, with a
     * comma after every piece but the last; the object is null unless the
     * value at the pointer is a structure.
     */
    method Object(e: Element, path: Path) returns (r: Result<seq<string>>, ghost pieces: seq<seq<string>>)
      modifies this`stack, this`definedNames, backingCodes`lines
      decreases Remaining(), 3, 0, 0
      ensures r.Ok? ==> stack == old(stack)
      ensures old(definedNames) <= definedNames
      ensures SelectConstructorLike(e, Some(JsonStructAnnotation)).None? ==> r == Err(NoSuchElement)
      ensures r.Ok? ==> PointerName(path.paths) in definedNames && ObjectPieces(e, PointerName(path.paths), pieces, r.value)
    {
      pieces := [];
      var ctor := SelectConstructorLike(e, Some(JsonStructAnnotation));
      if ctor.None? {
        return Err(NoSuchElement), pieces;
      }
      var c := ctor.value;
      var params;
      params, pieces := Params(c.params, path);
      if params.Err? {
        return Err(params.failure), pieces;
      }
      r := Wrap(c, path, params.value);
    }

    /** The end of object: the pointer, then the instantiation, then the parameters, put into the template. */
    method Wrap(c: Element, path: Path, params: seq<string>) returns (r: Result<seq<string>>)
      modifies this`definedNames, backingCodes`lines
      ensures old(definedNames) <= definedNames <= old(definedNames) + {PointerName(path.paths)}
      ensures r.Ok? ==>
        Instantiation(c).Ok? && PointerName(path.paths) in definedNames
        && Ok(r.value) == ObjectCode(PointerName(path.paths), Instantiation(c).value, params)
    {
      var pointer := CreatePointer(path);
      if pointer.Err? {
        return Err(pointer.failure);
      }
      var a := Fill(ObjectTemplate, "#{pointerName}", pointer.value);
      if a.Err? {
        return Err(a.failure);
      }
      var inst := Instantiation(c);
      if inst.Err? {
        return Err(inst.failure);
      }
      var b := Fill(a.value, "#{newMethod}", inst.value);
      if b.Err? {
        return Err(b.failure);
      }
      r := FillCode(b.value, "#{params}", params);
    }

    /** The loop of object: each parameter's piece, with a comma appended when another parameter follows. */
    method Params(ps: seq<Element>, path: Path) returns (r: Result<seq<string>>, ghost pieces: seq<seq<string>>)
      modifies this`stack, this`definedNames, backingCodes`lines
      decreases Remaining(), 2, 0, 0
      ensures r.Ok? ==> stack == old(stack)
      ensures old(definedNames) <= definedNames
      ensures r.Ok? ==> |pieces| == |ps| && Listed(pieces, |ps|, ",") == r && IgnoredDefaults(ps, pieces)
    {
      pieces := [];
      var entries := Iterate.EntriesOf(ps);
      var lines: seq<string> := [];
      var i := 0;
      while i < |entries|
        invariant 0 <= i <= |entries| && |pieces| == i
        invariant stack == old(stack)
        invariant old(definedNames) <= definedNames
        invariant Listed(pieces, |ps|, ",") == Ok(lines)
        invariant IgnoredDefaults(ps, pieces)
      {
        assert entries[i].value == ps[i];
        var piece := ParamCode(entries[i].value, path);
        if piece.Err? {
          return Err(piece.failure), pieces;
        }
        var last := AppendLast(piece.value, if Iterate.HasNext(entries[i]) then "," else "");
        if last.Err? {
          return Err(last.failure), pieces;
        }
        ListedSnoc(pieces, piece.value, |ps|, ",", lines, last.value);
        IgnoredDefaultsSnoc(ps, pieces, piece.value);
        lines := lines + last.value;
        pieces := pieces + [piece.value];
        i := i + 1;
      }
      r := Ok(lines);
    }

    /** One parameter's piece: the default for an ignored parameter, else the code for its type at its name. */
    method ParamCode(param: Element, path: Path) returns (r: Result<seq<string>>)
      modifies this`stack, this`definedNames, backingCodes`lines
      decreases Remaining(), 1, 0, 0
      ensures r.Ok? ==> stack == old(stack)
      ensures old(definedNames) <= definedNames
      ensures IsAnnotated(param, JsonStructIgnoreAnnotation) ==>
        r == DefaultsCode(AsType(param)) && definedNames == old(definedNames)
      ensures !IsAnnotated(param, JsonStructIgnoreAnnotation) ==>
        Generated(AsType(param), path.paths + [param.name], old(stack), old(definedNames), definedNames, r)
    {
      if IsAnnotated(param, JsonStructIgnoreAnnotation) {
        return DefaultsCode(AsType(param));
      }
      var sub := path.With(param.name);
      r := ToCode(AsType(param), sub);
    }
  }
}
