/**
 * Converts: the registry the generated code asks for converters. A class is
 * looked up among the custom mappings first, then among the builtin ones;
 * a class in neither gets a converter that answers null. Classes are named
 * by their canonical names.
 */
module Converters {
  import opened Wrappers

  /** An objectify converter, compared by identity: the constant-null one, a builtin, or a custom one adapted to JSON values. */
  datatype Objectifier = ConstNull | BuiltinConverter(id: nat) | Adapted(conv: nat)

  /** A Java object as stringify sees it: null, an enum constant, or an instance with its toString text. */
  datatype JavaObject =
    | Null
    | EnumConstant(enumClass: string, name: string)
    | Instance(cls: string, text: string)

  /** What a stringify function does with an object: opaque, supplied with the mapping. */
  type Stringifier = JavaObject -> string

  // ---------------------------------------------------------------- the lookups on values

  /** to(clazz): null gives the constant-null converter; a custom mapping wins over a builtin one; an unknown class gets constant null. */
  function ToOf(builtin: map<string, Objectifier>, custom: map<string, Objectifier>, clazz: Option<string>): (r: Objectifier)
    ensures r == ConstNull || r in custom.Values || r in builtin.Values
    ensures clazz.None? ==> r == ConstNull
    ensures clazz.Some? && clazz.value in custom ==> r == custom[clazz.value]
    ensures clazz.Some? && clazz.value !in custom && clazz.value in builtin ==> r == builtin[clazz.value]
    ensures clazz.Some? && clazz.value !in custom && clazz.value !in builtin ==> r == ConstNull
  {
    if clazz.None? then ConstNull
    else if custom != map[] && clazz.value in custom then custom[clazz.value]
    else if clazz.value in builtin then builtin[clazz.value]
    else ConstNull
  }

  /** stringify(object): "null", an enum's quoted name, a custom or builtin stringifier, else the quoted toString. */
  function StringifyOf(builtin: map<string, Stringifier>, custom: map<string, Stringifier>, o: JavaObject): (r: string)
    ensures o.Null? ==> r == "null"
    ensures o.EnumConstant? ==> r == "\"" + o.name + "\""
    ensures o.EnumConstant? ==> |r| == |o.name| + 2 && r[0] == '"' == r[|r| - 1]
    ensures o.Instance? && o.cls in custom ==> r == custom[o.cls](o)
    ensures o.Instance? && o.cls !in custom && o.cls in builtin ==> r == builtin[o.cls](o)
    ensures o.Instance? && o.cls !in custom && o.cls !in builtin ==> r == "\"" + o.text + "\""
  {
    match o
    case Null => "null"
    case EnumConstant(_, name) => "\"" + name + "\""
    case Instance(cls, text) =>
      if custom != map[] && cls in custom then custom[cls](o)
      else if cls in builtin then builtin[cls](o)
      else "\"" + text + "\""
  }

  /** typeClasses and stringifyClasses: the names of the builtin and the custom classes together. */
  function ClassesOf<V>(builtin: map<string, V>, custom: map<string, V>): (r: set<string>)
    ensures forall c :: c in r <==> c in builtin || c in custom
  {
    builtin.Keys + custom.Keys
  }

  // ---------------------------------------------------------------- properties of the lookups

  /** A class without a mapping, and null, get the constant-null converter; a listed class gets its mapped converter. */
  lemma ToListed(builtin: map<string, Objectifier>, custom: map<string, Objectifier>, c: string)
    ensures c !in ClassesOf(builtin, custom) ==> ToOf(builtin, custom, Some(c)) == ConstNull
    ensures c in ClassesOf(builtin, custom) ==>
      ToOf(builtin, custom, Some(c)) == (if c in custom then custom[c] else builtin[c])
    ensures ToOf(builtin, custom, None) == ConstNull
  {
    if c in custom {
      assert custom != map[] by {
        assert c in custom.Keys;
      }
    }
  }

  /** After add(c, conv), to(c) is the adapted conv, whatever the builtin had; every other class is looked up as before. */
  lemma AddOverrides(builtin: map<string, Objectifier>, custom: map<string, Objectifier>, c: string, conv: nat, d: Option<string>)
    ensures ToOf(builtin, custom[c := Adapted(conv)], Some(c)) == Adapted(conv)
    ensures d != Some(c) ==> ToOf(builtin, custom[c := Adapted(conv)], d) == ToOf(builtin, custom, d)
  {
    var custom' := custom[c := Adapted(conv)];
    assert c in custom'.Keys;
    if d.Some? && d.value != c && d.value in custom {
      assert d.value in custom'.Keys;
      assert custom != map[] by {
        assert d.value in custom.Keys;
      }
    }
  }

  /** An enum constant is written as its quoted name even when its class has a stringifier. */
  lemma EnumBeforeCustom(builtin: map<string, Stringifier>, custom: map<string, Stringifier>, e: string, name: string)
    ensures StringifyOf(builtin, custom, EnumConstant(e, name)) == "\"" + name + "\""
    ensures |StringifyOf(builtin, custom, EnumConstant(e, name))| == |name| + 2
  {
  }

  /** After addStringify(c, f), an instance of c is written by f; other objects are written as before. */
  lemma AddStringifyOverrides(builtin: map<string, Stringifier>, custom: map<string, Stringifier>, c: string,
                              f: Stringifier, o: JavaObject)
    ensures o.Instance? && o.cls == c ==> StringifyOf(builtin, custom[c := f], o) == f(o)
    ensures !(o.Instance? && o.cls == c) ==> StringifyOf(builtin, custom[c := f], o) == StringifyOf(builtin, custom, o)
  {
    var custom' := custom[c := f];
    assert c in custom'.Keys;
    if o.Instance? && o.cls != c && o.cls in custom {
      assert o.cls in custom'.Keys;
      assert custom != map[] by {
        assert o.cls in custom.Keys;
      }
    }
  }

  /** An instance of a class with no stringifier is written as its toString text in quotes. */
  lemma StringifyUnknown(builtin: map<string, Stringifier>, custom: map<string, Stringifier>, cls: string, text: string)
    requires cls !in ClassesOf(builtin, custom)
    ensures StringifyOf(builtin, custom, Instance(cls, text)) == "\"" + text + "\""
  {
  }

  // ---------------------------------------------------------------- the registry

  class Converts {
    /** BuiltinObjectify.map(): the builtin objectify converters. */
    const objectifyMap: map<string, Objectifier>
    /** BuiltinStringify.map(): the builtin stringifiers. */
    const stringifyMap: map<string, Stringifier>
    /** The custom objectify converters added so far. */
    var objectifyOptMap: map<string, Objectifier>
    /** The custom stringifiers added so far. */
    var stringifyOptMap: map<string, Stringifier>

    /** Converts.of(): the builtin maps and no custom mappings. */
    constructor Of(builtinObjectify: map<string, Objectifier>, builtinStringify: map<string, Stringifier>)
      ensures objectifyMap == builtinObjectify && stringifyMap == builtinStringify
      ensures objectifyOptMap == map[] && stringifyOptMap == map[]
    {
      objectifyMap := builtinObjectify;
      stringifyMap := builtinStringify;
      objectifyOptMap := map[];
      stringifyOptMap := map[];
    }

    /** to(clazz). */
    function To(clazz: Option<string>): (r: Objectifier)
      reads this
      ensures clazz.Some? && clazz.value !in TypeClasses() ==> r == ConstNull
    {
      ToListed(objectifyMap, objectifyOptMap, if clazz.Some? then clazz.value else "");
      ToOf(objectifyMap, objectifyOptMap, clazz)
    }

    /** stringify(object). */
    function Stringify(o: JavaObject): (r: string)
      reads this
      ensures o.Null? ==> r == "null"
      ensures o.EnumConstant? ==> r == "\"" + o.name + "\""
      ensures o.Instance? && o.cls in stringifyOptMap ==> r == stringifyOptMap[o.cls](o)
      ensures o.Instance? && o.cls !in StringifyClasses() ==> r == "\"" + o.text + "\""
    {
      StringifyOf(stringifyMap, stringifyOptMap, o)
    }

    /** typeClasses(): the classes with an objectify converter. */
    function TypeClasses(): (r: set<string>)
      reads this
      ensures forall c :: c in r <==> c in objectifyMap || c in objectifyOptMap
    {
      ClassesOf(objectifyMap, objectifyOptMap)
    }

    /** stringifyClasses(): the classes with a stringifier. */
    function StringifyClasses(): (r: set<string>)
      reads this
      ensures forall c :: c in r <==> c in stringifyMap || c in stringifyOptMap
    {
      ClassesOf(stringifyMap, stringifyOptMap)
    }

    /** add(clazz, conv): the adapted conv is the converter for clazz from now on. */
    method Add(clazz: string, conv: nat)
      modifies this`objectifyOptMap
      ensures objectifyOptMap == old(objectifyOptMap)[clazz := Adapted(conv)]
      ensures To(Some(clazz)) == Adapted(conv)
      ensures TypeClasses() == old(TypeClasses()) + {clazz}
    {
      AddOverrides(objectifyMap, objectifyOptMap, clazz, conv, None);
      objectifyOptMap := objectifyOptMap[clazz := Adapted(conv)];
    }

    /** addStringify(clazz, conv): conv writes the instances of clazz from now on. */
    method AddStringify(clazz: string, conv: Stringifier)
      modifies this`stringifyOptMap
      ensures stringifyOptMap == old(stringifyOptMap)[clazz := conv]
      ensures forall text :: Stringify(Instance(clazz, text)) == conv(Instance(clazz, text))
      ensures StringifyClasses() == old(StringifyClasses()) + {clazz}
    {
      stringifyOptMap := stringifyOptMap[clazz := conv];
      forall text
        ensures Stringify(Instance(clazz, text)) == conv(Instance(clazz, text))
      {
        AddStringifyOverrides(stringifyMap, old(stringifyOptMap), clazz, conv, Instance(clazz, text));
      }
    }
  }
}
