/**
 * Stringify: generates the Java statements that write an object of a given
 * type as JSON text through a StringifyBuilder, together with the backing
 * methods that write arrays, collections and maps. Values are reached from
 * the root object through null-safe Optional chains (Path.elvisJoin).
 */
module Stringifies {
  import opened Wrappers
  import opened JavaText
  import opened LangUtils
  import opened Paths
  import opened Codes
  import opened Generators
  import Iterate

  // ---------------------------------------------------------------- templates (the lines of each Code.of literal)

  const BasicTemplate: seq<string> := [".appendObj(#{path}.orElse(null))"]

  const PropTemplate: seq<string> := [
    ".append(\"\\\"#{name}\\\":\")",
    "    #{value}"]

  const ObjectTemplate: seq<string> := [
    ".append(\"{\")",
    "    #{props}",
    ".append(\"}\")"]

  const ArrayCallTemplate: seq<string> := [
    ".append(\"[\")",
    "    .appendFun(b -> #{methodName}(Arrays.asList(#{path}.orElse(new #{type}[0])), b))",
    ".append(\"]\")"]

  const CollectionCallTemplate: seq<string> := [
    ".append(\"[\")",
    "    .appendFun(b -> #{methodName}(#{path}.orElse(List.of()), b))",
    ".append(\"]\")"]

  const IterableTemplate: seq<string> := [
    "private void #{methodName}(Iterable<#{type}> iterable, StringifyBuilder sb) {",
    "    for (Iterate.Entry<#{type}> entry : Iterate.of(iterable)) {",
    "        if (!entry.isFirst()) sb.append(',');",
    "        sb#{entry};",
    "    }",
    "}"]

  /** The map method for basic keys: each entry as a member, its key and a colon before its value. */
  const MapObjectTemplate: seq<string> := [
    "private void #{methodName}(Iterable<Map.Entry<#{keyType}, #{valType}>> iterable, StringifyBuilder sb) {",
    "    for (Iterate.Entry<Map.Entry<#{keyType}, #{valType}>> entry : Iterate.of(iterable)) {",
    "        if (!entry.isFirst()) sb.append(',');",
    "        sb#{keyEntry}.append(\":\")",
    "            #{valEntry};",
    "    }",
    "}"]

  /** The map method for other keys: each entry as a key and a value, a comma between them. */
  const MapArrayTemplate: seq<string> := [
    "private void #{methodName}(Iterable<Map.Entry<#{keyType}, #{valType}>> iterable, StringifyBuilder sb) {",
    "    for (Iterate.Entry<Map.Entry<#{keyType}, #{valType}>> entry : Iterate.of(iterable)) {",
    "        if (!entry.isFirst()) sb.append(',');",
    "        sb#{keyEntry}.append(\",\")",
    "            #{valEntry};",
    "    }",
    "}"]

  const MapObjectCallTemplate: seq<string> := [
    ".append(\"{\")",
    "    .appendFun(b -> #{methodName}(#{path}.orElse(Map.of()).entrySet(), b))",
    ".append(\"}\")"]

  const MapArrayCallTemplate: seq<string> := [
    ".append(\"[\")",
    "    .appendFun(b -> #{methodName}(#{path}.orElse(Map.of()).entrySet(), b))",
    ".append(\"]\")"]

  /** The separator appended to every property but the last. */
  const PropSep: string := ".append(',')"

  // ---------------------------------------------------------------- the generated blocks

  /** The ways toCode can write a value of a type, in the order it tries them. */
  datatype Shape = BasicShape | ArrayShape | CollectionShape | MapShape | ObjectShape

  /** toCode's dispatch: basic class or enum, array, list or set, map, and otherwise an object. */
  function ShapeOf(basic: set<string>, w: World, t: TypeMirror): (r: Shape)
    ensures IsEnum(w, t) ==> r == BasicShape
    ensures t.ArrayOf? && TypeText(t) !in basic ==> r == ArrayShape
    ensures r == CollectionShape || r == MapShape ==> t.Declared?
    ensures r == BasicShape <==> TypeText(t) in basic || IsEnum(w, t)
    ensures r == ArrayShape <==> TypeText(t) !in basic && t.ArrayOf?
    ensures r == CollectionShape <==>
              TypeText(t) !in basic && !IsEnum(w, t) && (IsListLike(w, t) || IsSetLike(w, t))
    ensures r == MapShape <==>
              TypeText(t) !in basic && !IsEnum(w, t) && !IsListLike(w, t) && !IsSetLike(w, t) && IsMapLike(w, t)
    ensures r == ObjectShape <==>
              TypeText(t) !in basic && !IsEnum(w, t) && !t.ArrayOf?
              && !IsListLike(w, t) && !IsSetLike(w, t) && !IsMapLike(w, t)
  {
    if TypeText(t) in basic || IsEnum(w, t) then BasicShape
    else if IsArrayLike(t) then ArrayShape
    else if IsListLike(w, t) || IsSetLike(w, t) then CollectionShape
    else if IsMapLike(w, t) then MapShape
    else ObjectShape
  }

  /** basic: the value reached by the elvis chain, or null, appended as it converts. */
  function BasicCode(elvis: string): (r: Result<seq<string>>)
    ensures r.Err? ==> r.failure == IndexOutOfBounds
    ensures '\n' !in elvis ==> r == Ok([".appendObj(" + elvis + ".orElse(null))"])
  {
    if '\n' in elvis then Fill(BasicTemplate, "#{path}", elvis)
    else BasicLine(elvis); Fill(BasicTemplate, "#{path}", elvis)
  }

  /** The basic template filled with a one-line path. */
  lemma BasicLine(elvis: string)
    requires '\n' !in elvis
    ensures Fill(BasicTemplate, "#{path}", elvis) == Ok([".appendObj(" + elvis + ".orElse(null))"])
  {
    assert BasicTemplate[0] == ".appendObj(" + "#{path}" + ".orElse(null))";
    assert BasicTemplate == [".appendObj(" + "#{path}" + ".orElse(null))"];
    FillOneLine(".appendObj(", "#{path}", ".orElse(null))", elvis);
  }

  /** One property: its quoted name and a colon, then the code writing its value. */
  function Prop(name: string, value: seq<string>): (r: Result<seq<string>>)
    ensures r.Err? ==> r.failure == IndexOutOfBounds
    ensures r.Ok? ==> |r.value| >= |PropTemplate|
    ensures '\n' !in name && '#' !in name && |value| == 1 && '\n' !in value[0] ==>
              r == Ok([NameLine(name), "    " + value[0]])
  {
    var a :- Fill(PropTemplate, "#{name}", name);
    var r := FillCode(a, "#{value}", value);
    assert '\n' !in name && '#' !in name && |value| == 1 && '\n' !in value[0] ==>
             r == Ok([NameLine(name), "    " + value[0]]) by {
      if '\n' !in name && '#' !in name && |value| == 1 && '\n' !in value[0] {
        PropNameLines(name);
        assert ContentOf(value) == value[0];
        PropValueLines(name, value[0]);
      }
    }
    r
  }

  /** The first line of a property: `.append("\"name\":")`. */
  function NameLine(name: string): string {
    ".append(\"\\\"" + name + "\\\":\")"
  }

  /** The property template with a one-line name filled in and the value key still open. */
  lemma PropNameLines(name: string)
    requires '\n' !in name
    ensures Fill(PropTemplate, "#{name}", name) == Ok([NameLine(name), "    #{value}"])
  {
    FillPair(PropTemplate[0], PropTemplate[1], "#{name}", name);
    assert PropTemplate == [PropTemplate[0], PropTemplate[1]];
    NameLineFilled(name);
    ValueLineOpen();
    ReplaceAbsent(PropTemplate[1], "#{name}", name);
  }

  /** The name key of the first template line takes the name. */
  lemma NameLineFilled(name: string)
    ensures Replace(PropTemplate[0], "#{name}", name) == NameLine(name)
  {
    assert PropTemplate[0] == ".append(\"\\\"" + "#{name}" + "\\\":\")";
    ReplaceOnce(".append(\"\\\"", "#{name}", "\\\":\")", name);
  }

  /** The value line of the template does not hold the name key. */
  lemma ValueLineOpen()
    ensures PropTemplate[1] == "    #{value}" && !Contains(PropTemplate[1], "#{name}")
  {
    var line := PropTemplate[1];
    assert line == "    #{value}";
    forall i | 0 <= i <= |line|
      ensures !OccursAt(line, "#{name}", i)
    {
      if i + 7 <= |line| {
        assert line[i..i + 7][0] == line[i] && line[i..i + 7][2] == line[i + 2];
      }
    }
  }

  /** The value key filled with a one-line value. */
  lemma PropValueLines(name: string, v: string)
    requires '\n' !in name && '#' !in name && '\n' !in v
    ensures Fill([NameLine(name), "    #{value}"], "#{value}", v) == Ok([NameLine(name), "    " + v])
  {
    FillPair(NameLine(name), "    #{value}", "#{value}", v);
    NameLineKeyFree(name, v);
    ValueLineFilled(v);
  }

  /** A name without '#' leaves no key in the name line. */
  lemma NameLineKeyFree(name: string, v: string)
    requires '#' !in name
    ensures Replace(NameLine(name), "#{value}", v) == NameLine(name)
  {
    assert '#' !in NameLine(name);
    AbsentHead(NameLine(name), "#{value}");
    ReplaceAbsent(NameLine(name), "#{value}", v);
  }

  /** The value line's key takes the value. */
  lemma ValueLineFilled(v: string)
    ensures Replace("    #{value}", "#{value}", v) == "    " + v
  {
    assert "    #{value}" == "    " + "#{value}" + "";
    ReplaceOnce("    ", "#{value}", "", v);
  }

  /** object: the properties between braces. */
  function ObjectCode(props: seq<string>): Result<seq<string>> {
    FillCode(ObjectTemplate, "#{props}", props)
  }

  /** The call writing an array between brackets, an absent array as an empty one. */
  function ArrayCall(methodName: string, elvis: string, entry: TypeMirror): Result<seq<string>> {
    var a :- Fill(ArrayCallTemplate, "#{methodName}", methodName);
    var b :- Fill(a, "#{path}", elvis);
    FillType(b, "#{type}", Replace(TypeText(entry), "[]", "[0]"))
  }

  /** The call writing a list or set between brackets, an absent one as an empty list. */
  function CollectionCall(methodName: string, elvis: string): Result<seq<string>> {
    var a :- Fill(CollectionCallTemplate, "#{methodName}", methodName);
    Fill(a, "#{path}", elvis)
  }

  /**
   * The call writing a map: between braces as an object when the key is a
   * basic class, else between brackets as a flat array of keys and values.
   */
  function MapCall(basicKey: bool, methodName: string, elvis: string): Result<seq<string>> {
    var a :- Fill(if basicKey then MapObjectCallTemplate else MapArrayCallTemplate, "#{methodName}", methodName);
    Fill(a, "#{path}", elvis)
  }

  /** The iterable method before its entry code is put in. */
  function IterableHead(entry: TypeMirror, methodName: string): Result<seq<string>> {
    var a :- FillType(IterableTemplate, "#{type}", TypeText(entry));
    Fill(a, "#{methodName}", methodName)
  }

  /** The map method before its key and value code are put in. */
  function MapHead(basicKey: bool, key: TypeMirror, val: TypeMirror, methodName: string): Result<seq<string>> {
    var a :- FillType(if basicKey then MapObjectTemplate else MapArrayTemplate, "#{keyType}", TypeText(key));
    var b :- FillType(a, "#{valType}", TypeText(val));
    Fill(b, "#{methodName}", methodName)
  }

  /** The paths inside the backing methods: the entry's value, its key and its value. */
  const EntryValue: seq<string> := ["entry", "value"]
  const EntryKey: seq<string> := ["entry", "value", "getKey"]
  const EntryVal: seq<string> := ["entry", "value", "getValue"]

  /**
   * code is what object writes for e: one property per selected accessor, in
   * order, each the accessor's property name with a value code, listed with
   * commas and put between braces.
   */
  ghost predicate ObjectProps(e: Element, pieces: seq<seq<string>>, values: seq<seq<string>>, code: seq<string>) {
    var accessors := SelectAccessors(e, JsonStructIgnoreAnnotation);
    |pieces| == |values| == |accessors| && Listed(pieces, |accessors|, PropSep).Ok?
    && PropsAgree(accessors, pieces, values)
    && Ok(code) == ObjectCode(Listed(pieces, |accessors|, PropSep).value)
  }

  /** Each piece so far is the property of the accessor at its place, with the value code at that place. */
  predicate PropsAgree(accessors: seq<Element>, pieces: seq<seq<string>>, values: seq<seq<string>>)
    requires |pieces| == |values| <= |accessors|
  {
    forall k | 0 <= k < |pieces| :: Prop(PropertyName(accessors[k]), values[k]) == Ok(pieces[k])
  }

  /** One more turn of object's loop keeps the pieces in agreement and extends the listed lines. */
  lemma PropsStep(accessors: seq<Element>, pieces: seq<seq<string>>, values: seq<seq<string>>, lines: seq<string>,
                  p: seq<string>, v: seq<string>, last: seq<string>)
    requires |pieces| == |values| < |accessors|
    requires PropsAgree(accessors, pieces, values) && Listed(pieces, |accessors|, PropSep) == Ok(lines)
    requires Prop(PropertyName(accessors[|pieces|]), v) == Ok(p)
    requires AppendLast(p, if |pieces| < |accessors| - 1 then PropSep else "") == Ok(last)
    ensures PropsAgree(accessors, pieces + [p], values + [v])
    ensures Listed(pieces + [p], |accessors|, PropSep) == Ok(lines + last)
  {
    ListedSnoc(pieces, p, |accessors|, PropSep, lines, last);
  }

  /** code is object's statements for e, for some property pieces and value codes. */
  ghost predicate IsObjectCode(e: Element, code: seq<string>) {
    exists pieces, values :: ObjectProps(e, pieces, values, code)
  }

  /** What build returns: the statements writing the object and the backing methods behind them. */
  datatype BackingCode = BackingCode(code: seq<string>, backing: Code)

  // ---------------------------------------------------------------- the generator

  class Stringify {
    /** The type utilities' answers. */
    const world: World
    /** The qualified names of the classes the builder appends directly. */
    const basicClasses: set<string>
    /** How many times a type may be on the stack before its object code is cut off. */
    const cyclicDepth: int
    /** The backing methods generated so far. */
    var backingMethods: Code
    /** The qualified names of the types being generated, innermost first. */
    var stack: seq<string>
    /** The method names defined so far. */
    var definedNames: set<string>

    /** Stringify.of: empty stack and names, fresh backing methods. */
    constructor Of(world: World, basicClasses: set<string>, cyclicDepth: int)
      ensures this.world == world && this.basicClasses == basicClasses && this.cyclicDepth == cyclicDepth
      ensures fresh(backingMethods) && backingMethods.lines == []
      ensures stack == [] && definedNames == {}
    {
      this.world := world;
      this.basicClasses := basicClasses;
      this.cyclicDepth := cyclicDepth;
      backingMethods := new Code.Of();
      stack := [];
      definedNames := {};
    }

    /** The pushes the cut-off still allows. */
    function Remaining(): nat
      reads this
    {
      Generators.Budget(stack, TypeNames(world), cyclicDepth)
    }

    /**
     * build: the statements for the element, reached as `object`, then the
     * backing methods handed over; the names stay defined.
     */
    method Build(element: Element) returns (r: Result<BackingCode>)
      requires element.TypeElement? && element.qualifiedName in TypeNames(world)
      modifies this, backingMethods`lines
      ensures r.Ok? ==> stack == [] && old(definedNames) <= definedNames
      ensures r.Ok? ==> fresh(backingMethods) && backingMethods.lines == [] && r.value.backing == old(backingMethods)
      ensures !IsClassKind(element.kind) ==> r == Err(Runtime)
      ensures IsClassKind(element.kind) && Count(old(stack), element.qualifiedName) > cyclicDepth ==>
        r.Ok? && r.value.code == []
      ensures IsClassKind(element.kind) && Count(old(stack), element.qualifiedName) <= cyclicDepth && r.Ok? ==>
        IsObjectCode(element, r.value.code)
    {
      var root := new Path.OfAll(["object"]);
      var code := WithStack(element, root);
      if code.Err? {
        return Err(code.failure);
      }
      var backing := BackingWithClear();
      r := Ok(BackingCode(code.value, backing));
    }

    /** backingWithClear: the backing methods so far are returned; fresh code and an empty stack follow. */
    method BackingWithClear() returns (ret: Code)
      modifies this`backingMethods, this`stack
      ensures ret == old(backingMethods)
      ensures fresh(backingMethods) && backingMethods.lines == []
      ensures stack == []
    {
      ret := backingMethods;
      backingMethods := new Code.Of();
      stack := [];
    }

    /** uniqueName: the first name of the candidate's chain not defined yet, now defined. */
    method UniqueName(candidate: string) returns (name: string)
      modifies this`definedNames
      ensures name == FreeName(old(definedNames), candidate) && name !in old(definedNames)
      ensures definedNames == old(definedNames) + {name}
    {
      name := FreshName(definedNames, candidate);
      definedNames := definedNames + {name};
    }

    /**
     * What toCode yields for a value of type t reached by the path segments
     * `paths`, by the first shape that fits, from the stack `stack0` and the
     * defined names `names0` it starts with, `names` being the defined names
     * after it.
     */
    ghost predicate Generated(t: TypeMirror, paths: seq<string>, stack0: seq<string>, names0: set<string>,
                              names: set<string>, r: Result<seq<string>>)
    {
      var shape := ShapeOf(basicClasses, world, t);
      var name := FreeName(names0, CamelOr(paths, "self") + "Stringify");
      (shape == BasicShape ==> r == BasicCode(ElvisOf(paths)) && names == names0)
      && (shape == ArrayShape && r.Ok? ==>
            name in names && Ok(r.value) == ArrayCall(name, ElvisOf(paths), t.component))
      && (shape == CollectionShape && r.Ok? ==>
            name in names && Ok(r.value) == CollectionCall(name, ElvisOf(paths)))
      && (shape == MapShape && r.Ok? ==>
            BiEntryTypes(t).Ok? && name in names
            && Ok(r.value) == MapCall(TypeText(BiEntryTypes(t).value.0) in basicClasses, name, ElvisOf(paths)))
      && (shape == ObjectShape && AsTypeElement(world, t).None? ==> r == Err(Runtime))
      && (shape == ObjectShape && AsTypeElement(world, t).Some? ==>
            var e := AsTypeElement(world, t).value;
            (!IsClassKind(e.kind) ==> r == Err(Runtime))
            && (IsClassKind(e.kind) && Count(stack0, e.qualifiedName) > cyclicDepth ==> r == Ok([]))
            && (IsClassKind(e.kind) && Count(stack0, e.qualifiedName) <= cyclicDepth && r.Ok? ==>
                  IsObjectCode(e, r.value)))
    }

    /** toCode: the statements writing a value of type t reached by the path, by the first shape that fits. */
    method ToCode(t: TypeMirror, path: Path) returns (r: Result<seq<string>>)
      modifies this`stack, this`definedNames, backingMethods`lines
      decreases Remaining(), 0, TypeSize(t), 4
      ensures r.Ok? ==> stack == old(stack)
      ensures old(definedNames) <= definedNames
      ensures Generated(t, path.paths, old(stack), old(definedNames), definedNames, r)
    {
      var shape := ShapeOf(basicClasses, world, t);
      if shape == BasicShape {
        var elvis := path.ElvisJoin();
        r := BasicCode(elvis);
      } else if shape == ArrayShape {
        r := ArrayCode(t, path);
      } else if shape == CollectionShape {
        r := CollectionCode(t, path);
      } else if shape == MapShape {
        r := MapCode(t, path);
      } else {
        var e := AsTypeElement(world, t);
        if e.None? {
          return Err(Runtime);
        }
        KnownTypeNamed(world, t);
        r := WithStack(e.value, path);
      }
    }

    /** array: the iterable method for the component type, and the call writing the array through it. */
    method ArrayCode(t: TypeMirror, path: Path) returns (r: Result<seq<string>>)
      requires t.ArrayOf?
      modifies this`stack, this`definedNames, backingMethods`lines
      decreases Remaining(), 0, TypeSize(t), 3
      ensures r.Ok? ==> stack == old(stack)
      ensures old(definedNames) <= definedNames
      ensures r.Ok? ==>
        var name := FreeName(old(definedNames), CamelOr(path.paths, "self") + "Stringify");
        name in definedNames && Ok(r.value) == ArrayCall(name, ElvisOf(path.paths), t.component)
    {
      var entry := EntryType(t);
      var name := UniqueName(CamelOr(path.paths, "self") + "Stringify");
      var built := BuildIterableMethod(t, entry.value, name);
      if built.Err? {
        return Err(built.failure);
      }
      var a := Fill(ArrayCallTemplate, "#{methodName}", name);
      if a.Err? {
        return Err(a.failure);
      }
      var elvis := path.ElvisJoin();
      var b := Fill(a.value, "#{path}", elvis);
      if b.Err? {
        return Err(b.failure);
      }
      r := FillType(b.value, "#{type}", Replace(TypeText(entry.value), "[]", "[0]"));
    }

    /** collection: the iterable method for the entry type, and the call writing the list or set through it. */
    method CollectionCode(t: TypeMirror, path: Path) returns (r: Result<seq<string>>)
      modifies this`stack, this`definedNames, backingMethods`lines
      decreases Remaining(), 0, TypeSize(t), 3
      ensures r.Ok? ==> stack == old(stack)
      ensures old(definedNames) <= definedNames
      ensures EntryType(t).Err? ==> r == Err(Runtime) && definedNames == old(definedNames)
      ensures r.Ok? ==>
        var name := FreeName(old(definedNames), CamelOr(path.paths, "self") + "Stringify");
        name in definedNames && Ok(r.value) == CollectionCall(name, ElvisOf(path.paths))
    {
      var entry := EntryType(t);
      if entry.Err? {
        return Err(entry.failure);
      }
      var name := UniqueName(CamelOr(path.paths, "self") + "Stringify");
      var built := BuildIterableMethod(t, entry.value, name);
      if built.Err? {
        return Err(built.failure);
      }
      var a := Fill(CollectionCallTemplate, "#{methodName}", name);
      if a.Err? {
        return Err(a.failure);
      }
      var elvis := path.ElvisJoin();
      r := Fill(a.value, "#{path}", elvis);
    }

    /**
     * buildIterableMethod: the method writing each entry, a comma before all
     * but the first, goes into the backing methods after an empty line,
     * once the entry's code is complete.
     */
    method BuildIterableMethod(ghost t: TypeMirror, entry: TypeMirror, name: string) returns (r: Result<()>)
      requires TypeSize(entry) < TypeSize(t)
      modifies this`stack, this`definedNames, backingMethods`lines
      decreases Remaining(), 0, TypeSize(t), 2
      ensures r.Ok? ==> stack == old(stack)
      ensures old(definedNames) <= definedNames
      ensures IterableHead(entry, name).Err? ==>
        r.Err? && definedNames == old(definedNames) && backingMethods.lines == old(backingMethods.lines)
    {
      var head := IterableHead(entry, name);
      if head.Err? {
        return Err(head.failure);
      }
      var method_ := FillSub(t, head.value, "#{entry}", entry, EntryValue);
      if method_.Err? {
        return Err(method_.failure);
      }
      backingMethods.lines := backingMethods.lines + [""] + method_.value;  // addEmptyLine().add(...)
      r := Ok(());
    }

    /**
     * map: the method writing each entry, key then value, goes into the
     * backing methods after an empty line, and the call writes the map
     * through it.
     */
    method MapCode(t: TypeMirror, path: Path) returns (r: Result<seq<string>>)
      modifies this`stack, this`definedNames, backingMethods`lines
      decreases Remaining(), 0, TypeSize(t), 3
      ensures r.Ok? ==> stack == old(stack)
      ensures old(definedNames) <= definedNames
      ensures BiEntryTypes(t).Err? ==> r == Err(Runtime) && definedNames == old(definedNames)
      ensures r.Ok? ==>
        var name := FreeName(old(definedNames), CamelOr(path.paths, "self") + "Stringify");
        BiEntryTypes(t).Ok? && name in definedNames
        && Ok(r.value) == MapCall(TypeText(BiEntryTypes(t).value.0) in basicClasses, name, ElvisOf(path.paths))
    {
      var kv := BiEntryTypes(t);
      if kv.Err? {
        return Err(kv.failure);
      }
      var name := UniqueName(CamelOr(path.paths, "self") + "Stringify");
      var basicKey := TypeText(kv.value.0) in basicClasses;
      var built := BuildMapMethod(t, basicKey, kv.value.0, kv.value.1, name);
      if built.Err? {
        return Err(built.failure);
      }
      var a := Fill(if basicKey then MapObjectCallTemplate else MapArrayCallTemplate, "#{methodName}", name);
      if a.Err? {
        return Err(a.failure);
      }
      var elvis := path.ElvisJoin();
      r := Fill(a.value, "#{path}", elvis);
    }

    /** The map method: its head with the key's code and then the value's code put in, after an empty line. */
    method BuildMapMethod(ghost t: TypeMirror, basicKey: bool, key: TypeMirror, val: TypeMirror, name: string)
      returns (r: Result<()>)
      requires TypeSize(key) < TypeSize(t) && TypeSize(val) < TypeSize(t)
      modifies this`stack, this`definedNames, backingMethods`lines
      decreases Remaining(), 0, TypeSize(t), 2
      ensures r.Ok? ==> stack == old(stack)
      ensures old(definedNames) <= definedNames
      ensures MapHead(basicKey, key, val, name).Err? ==>
        r.Err? && definedNames == old(definedNames) && backingMethods.lines == old(backingMethods.lines)
    {
      var head := MapHead(basicKey, key, val, name);
      if head.Err? {
        return Err(head.failure);
      }
      var withKey := FillSub(t, head.value, "#{keyEntry}", key, EntryKey);
      if withKey.Err? {
        return Err(withKey.failure);
      }
      var method_ := FillSub(t, withKey.value, "#{valEntry}", val, EntryVal);
      if method_.Err? {
        return Err(method_.failure);
      }
      backingMethods.lines := backingMethods.lines + [""] + method_.value;  // addEmptyLine().add(...)
      r := Ok(());
    }

    /** interpolate(key, toCode(u, Path.of(segments...))): the code for a part u of the type t put in place of the key. */
    method FillSub(ghost t: TypeMirror, ls: seq<string>, key: string, u: TypeMirror, segments: seq<string>)
      returns (r: Result<seq<string>>)
      requires TypeSize(u) < TypeSize(t)
      modifies this`stack, this`definedNames, backingMethods`lines
      decreases Remaining(), 0, TypeSize(t), 1
      ensures r.Ok? ==> stack == old(stack)
      ensures old(definedNames) <= definedNames
    {
      var code := SubCode(t, u, segments);
      if code.Err? {
        return Err(code.failure);
      }
      r := FillCode(ls, key, code.value);
    }

    /** toCode(u, Path.of(segments...)): the code for a part u of the type t inside a backing method. */
    method SubCode(ghost t: TypeMirror, u: TypeMirror, segments: seq<string>) returns (r: Result<seq<string>>)
      requires TypeSize(u) < TypeSize(t)
      modifies this`stack, this`definedNames, backingMethods`lines
      decreases Remaining(), 0, TypeSize(t), 0
      ensures r.Ok? ==> stack == old(stack)
      ensures old(definedNames) <= definedNames
      ensures Generated(u, segments, old(stack), old(definedNames), definedNames, r)
    {
      var path := new Path.OfAll(segments);
      r := ToCode(u, path);
    }

    /**
     * withStack: a type that is not a class, enum or record throws; a type
     * already on the stack more than cyclicDepth times gives no code at all;
     * otherwise the object code is generated with the type pushed, and the
     * stack is popped back.
     */
    method WithStack(e: Element, path: Path) returns (r: Result<seq<string>>)
      requires e.TypeElement? && e.qualifiedName in TypeNames(world)
      modifies this`stack, this`definedNames, backingMethods`lines
      decreases Remaining(), 0, 0, 0
      ensures r.Ok? ==> stack == old(stack)
      ensures old(definedNames) <= definedNames
      ensures !IsClassKind(e.kind) ==> r == Err(Runtime) && stack == old(stack)
      ensures IsClassKind(e.kind) && Count(old(stack), e.qualifiedName) > cyclicDepth ==>
        r == Ok([]) && definedNames == old(definedNames) && backingMethods.lines == old(backingMethods.lines)
      ensures IsClassKind(e.kind) && Count(old(stack), e.qualifiedName) <= cyclicDepth && r.Ok? ==>
        IsObjectCode(e, r.value)
    {
      if !IsClassKind(e.kind) {
        return Err(Runtime);
      }
      if Count(stack, e.qualifiedName) > cyclicDepth {
        return Ok([]);
      }
      PushShrinks(stack, e.qualifiedName, TypeNames(world), cyclicDepth);
      stack := [e.qualifiedName] + stack;
      ghost var pieces, values;
      r, pieces, values := Object(e, path);
      if r.Err? {
        return;
      }
      assert ObjectProps(e, pieces, values, r.value);
      stack := stack[1..];
    }

    /**
     * object: one property per selected accessor, in order, each its name
     * and the code writing its value, with a comma after every property but
     * the last, all between braces.
     */
    method Object(e: Element, path: Path) returns (r: Result<seq<string>>,
                                                   ghost pieces: seq<seq<string>>, ghost values: seq<seq<string>>)
      modifies this`stack, this`definedNames, backingMethods`lines
      decreases Remaining(), 3, 0, 0
      ensures r.Ok? ==> stack == old(stack)
      ensures old(definedNames) <= definedNames
      ensures r.Ok? ==> ObjectProps(e, pieces, values, r.value)
    {
      var accessors := SelectAccessors(e, JsonStructIgnoreAnnotation);
      var props;
      props, pieces, values := Props(accessors, path);
      if props.Err? {
        return Err(props.failure), pieces, values;
      }
      r := FillCode(ObjectTemplate, "#{props}", props.value);
    }

    /** The loop of object: each accessor's property, with a comma appended when another accessor follows. */
    method Props(accessors: seq<Element>, path: Path)
      returns (r: Result<seq<string>>, ghost pieces: seq<seq<string>>, ghost values: seq<seq<string>>)
      modifies this`stack, this`definedNames, backingMethods`lines
      decreases Remaining(), 2, 0, 0
      ensures r.Ok? ==> stack == old(stack)
      ensures old(definedNames) <= definedNames
      ensures r.Ok? ==> |pieces| == |values| == |accessors| && Listed(pieces, |accessors|, PropSep) == r
      ensures r.Ok? ==> PropsAgree(accessors, pieces, values)
    {
      pieces, values := [], [];
      var entries := Iterate.EntriesOf(accessors);
      var lines: seq<string> := [];
      var i := 0;
      while i < |entries|
        invariant 0 <= i <= |entries| && |pieces| == |values| == i
        invariant stack == old(stack)
        invariant old(definedNames) <= definedNames
        invariant Listed(pieces, |accessors|, PropSep) == Ok(lines)
        invariant PropsAgree(accessors, pieces, values)
      {
        ghost var value;
        var prop;
        prop, value := PropCode(entries[i].value, path);
        if prop.Err? {
          return Err(prop.failure), pieces, values;
        }
        var last := AppendLast(prop.value, if Iterate.HasNext(entries[i]) then PropSep else "");
        // a property has its name line and its value line, so there is a last line to extend
        assert last.Ok?;
        PropsStep(accessors, pieces, values, lines, prop.value, value, last.value);
        lines := lines + last.value;
        pieces := pieces + [prop.value];
        values := values + [value];
        i := i + 1;
      }
      r := Ok(lines);
    }

    /** One property: the accessor's property name, then toCode(accessor, path) for its value. */
    method PropCode(accessor: Element, path: Path) returns (r: Result<seq<string>>, ghost value: seq<string>)
      modifies this`stack, this`definedNames, backingMethods`lines
      decreases Remaining(), 1, 0, 0
      ensures r.Ok? ==> stack == old(stack)
      ensures old(definedNames) <= definedNames
      ensures r.Ok? ==> Prop(PropertyName(accessor), value) == r
      ensures r.Ok? ==>
        Generated(AsType(accessor), path.paths + [accessor.name], old(stack), old(definedNames), definedNames, Ok(value))
    {
      value := [];
      var a := Fill(PropTemplate, "#{name}", PropertyName(accessor));
      if a.Err? {
        return Err(a.failure), value;
      }
      var sub := path.With(accessor.name);
      var code := ToCode(AsType(accessor), sub);
      if code.Err? {
        return Err(code.failure), value;
      }
      value := code.value;
      r := FillCode(a.value, "#{value}", code.value);
    }
  }
}
