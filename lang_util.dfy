/**
 * LangUtil: the annotation processor's questions about the Java language
 * model. Elements and type mirrors are values; the answers the compiler's
 * type utilities give (which types are assignable to List, Set or Map, and
 * which element a declared type names) come with a World value.
 */
module LangUtils {
  import opened Wrappers
  import opened JavaText

  // ---------------------------------------------------------------- the language model

  /** The kinds of a primitive or no-type mirror. */
  datatype TypeKind = Boolean | Byte | Short | Int | Long | Char | Float | Double | Void

  /** A type mirror: primitive, declared (a qualified name with its type arguments), array, or a type variable. */
  datatype TypeMirror =
    | Primitive(kind: TypeKind)
    | Declared(name: string, args: seq<TypeMirror>)
    | ArrayOf(component: TypeMirror)
    | Variable(name: string)

  datatype ElementKind =
    | Class | Record | Enum | Interface | AnnotationType
    | Constructor | Method | Field | Parameter | RecordComponent | EnumConstant

  datatype Modifier = Public | Protected | Private | Static | Final | Abstract

  /**
   * An element: a type with its enclosed elements, an executable (constructor
   * or method) with its parameters, a variable (field or parameter), or a
   * record component with its accessor. `annotations` holds the qualified
   * names of the annotation types present; `owner` is the qualified name of
   * the type enclosing an executable; `text` is an executable's toString,
   * e.g. "Book(java.lang.String,int)".
   */
  datatype Element =
    | TypeElement(kind: ElementKind, name: string, qualifiedName: string, modifiers: set<Modifier>,
                  annotations: set<string>, enclosed: seq<Element>)
    | Executable(kind: ElementKind, name: string, modifiers: set<Modifier>, annotations: set<string>,
                 params: seq<Element>, returnType: TypeMirror, owner: string, text: string)
    | VariableElement(kind: ElementKind, name: string, modifiers: set<Modifier>, annotations: set<string>,
                      type_: TypeMirror)
    | Component(name: string, annotations: set<string>, type_: TypeMirror, accessor: Element)

  const JsonStructAnnotation: string := "com.mammb.code.jsonstruct.JsonStruct"
  const JsonStructIgnoreAnnotation: string := "com.mammb.code.jsonstruct.JsonStructIgnore"

  function KindOf(e: Element): ElementKind {
    if e.Component? then RecordComponent else e.kind
  }

  function ModifiersOf(e: Element): set<Modifier> {
    if e.Component? then {} else e.modifiers
  }

  /** The number of constructors in a type mirror, a measure for the recursion over type arguments. */
  function TypeSize(t: TypeMirror): (r: nat)
    ensures r >= 1
  {
    match t
    case Declared(_, args) => 1 + ArgsSize(args)
    case ArrayOf(c) => 1 + TypeSize(c)
    case _ => 1
  }

  function ArgsSize(args: seq<TypeMirror>): nat {
    if args == [] then 0 else TypeSize(args[0]) + ArgsSize(args[1..])
  }

  /** Each type argument is smaller than the argument list holding it. */
  lemma {:induction false} ArgSmaller(args: seq<TypeMirror>, i: nat)
    requires i < |args|
    ensures TypeSize(args[i]) <= ArgsSize(args)
    decreases i
  {
    if i > 0 {
      ArgSmaller(args[1..], i - 1);
      assert args[1..][i - 1] == args[i];
    }
  }

  function Keyword(k: TypeKind): string {
    match k
    case Boolean => "boolean" case Byte => "byte" case Short => "short" case Int => "int"
    case Long => "long" case Char => "char" case Float => "float" case Double => "double"
    case Void => "void"
  }

  /** TypeMirror.toString as the compiler prints it: `java.util.Map<java.lang.String,T>`, `int[]`. */
  function TypeText(t: TypeMirror): string
    decreases t
  {
    match t
    case Primitive(k) => Keyword(k)
    case Declared(name, args) =>
      if args == [] then name
      else name + "<" + Join(seq(|args|, i requires 0 <= i < |args| => TypeText(args[i])), ",") + ">"
    case ArrayOf(c) => TypeText(c) + "[]"
    case Variable(name) => name
  }

  // ---------------------------------------------------------------- stream helpers

  /** Stream.filter(p).toList(). */
  function Filter<T>(p: T -> bool, s: seq<T>): (r: seq<T>)
    ensures |r| <= |s|
    ensures forall x | x in r :: x in s && p(x)
    ensures forall x | x in s && p(x) :: x in r
    ensures (forall x | x in s :: !p(x)) ==> r == []
  {
    if s == [] then []
    else if p(s[0]) then [s[0]] + Filter(p, s[1..])
    else Filter(p, s[1..])
  }

  /** Filter keeps the order: the head of a filtered list is the first element that passes. */
  lemma {:induction false} FilterHead<T>(p: T -> bool, s: seq<T>, k: nat)
    requires k < |s| && p(s[k]) && forall j | 0 <= j < k :: !p(s[j])
    ensures Filter(p, s) != [] && Filter(p, s)[0] == s[k]
    decreases k
  {
    if k > 0 {
      FilterHead(p, s[1..], k - 1);
    }
  }

  /** The index of the first element passing p, or -1 (Stream.filter(p).findFirst()). */
  function FirstIndex<T>(p: T -> bool, s: seq<T>): (k: int)
    ensures -1 <= k < |s|
    ensures k == -1 <==> forall x | x in s :: !p(x)
    ensures k >= 0 ==> p(s[k]) && forall j | 0 <= j < k :: !p(s[j])
  {
    if s == [] then -1
    else if p(s[0]) then 0
    else
      var k := FirstIndex(p, s[1..]);
      assert forall j | 1 <= j < |s| :: s[j] == s[1..][j - 1];
      if k == -1 then -1 else k + 1
  }

  function FindFirst<T>(p: T -> bool, s: seq<T>): Option<T> {
    var k := FirstIndex(p, s);
    if k == -1 then None else Some(s[k])
  }

  /**
   * Stream.max(comparingInt(parameter count)) as a left fold from index i:
   * `best` is the first widest of s[..i], and the reduction keeps the earlier
   * of two equally wide elements.
   */
  function WidestFrom(s: seq<Element>, i: nat, best: nat): (k: nat)
    requires best < i <= |s|
    requires forall j | 0 <= j < i :: Arity(s[j]) <= Arity(s[best])
    requires forall j | 0 <= j < best :: Arity(s[j]) < Arity(s[best])
    ensures k < |s|
    ensures forall j | 0 <= j < |s| :: Arity(s[j]) <= Arity(s[k])
    ensures forall j | 0 <= j < k :: Arity(s[j]) < Arity(s[k])
    decreases |s| - i
  {
    if i == |s| then best
    else if Arity(s[best]) >= Arity(s[i]) then WidestFrom(s, i + 1, best)
    else WidestFrom(s, i + 1, i)
  }

  function Arity(e: Element): nat {
    if e.Executable? then |e.params| else 0
  }

  /** The widest element (the most parameters), the first of equals; none for an empty list. */
  function Widest(s: seq<Element>): (r: Option<Element>)
    ensures r.None? <==> s == []
    ensures r.Some? ==> r.value in s && forall x | x in s :: Arity(x) <= Arity(r.value)
    ensures r.Some? ==> exists k | 0 <= k < |s| :: s[k] == r.value && forall j | 0 <= j < k :: Arity(s[j]) < Arity(s[k])
  {
    if s == [] then None
    else
      var k := WidestFrom(s, 1, 0);
      Some(s[k])
  }

  // ---------------------------------------------------------------- element predicates

  /** isClass: a class or a record; null and enums are not. */
  predicate IsClass(e: Option<Element>)
    ensures IsClass(e) ==> e.Some? && !e.value.Component?
    ensures e.Some? && (KindOf(e.value) == Enum || KindOf(e.value) == Interface) ==> !IsClass(e)
  {
    e.Some? && (KindOf(e.value) == Class || KindOf(e.value) == Record)
  }

  /** isConstructor: a public constructor. */
  predicate IsConstructor(e: Element)
    ensures IsConstructor(e) ==> KindOf(e) == Constructor && Public in ModifiersOf(e)
    ensures Public !in ModifiersOf(e) ==> !IsConstructor(e)
  {
    e.Executable? && e.kind == Constructor && Public in e.modifiers
  }

  /** isStaticFactory: a public static method whose return type prints as the enclosing type's qualified name. */
  predicate IsStaticFactory(e: Element)
    ensures IsStaticFactory(e) ==> e.Executable? && !IsConstructor(e)
  {
    e.Executable? && e.kind == Method && Public in e.modifiers && Static in e.modifiers
    && e.owner == TypeText(e.returnType)
  }

  /** isConstructorLike: a public constructor or a public static factory, never both. */
  predicate IsConstructorLike(e: Element)
    ensures IsConstructorLike(e) ==>
              e.Executable? && Public in e.modifiers && (e.kind == Constructor || (e.kind == Method && Static in e.modifiers))
    ensures IsConstructorLike(e) ==> (IsConstructor(e) <==> !IsStaticFactory(e))
  {
    IsConstructor(e) || IsStaticFactory(e)
  }

  /**
   * The factory test compares printed names, so a method returning a
   * parameterized type (`Box<T>`) is never a static factory of its class.
   */
  lemma GenericReturnNotFactory(e: Element)
    requires e.Executable? && e.returnType.Declared? && e.returnType.args != []
    requires forall i | 0 <= i < |e.owner| :: e.owner[i] != '<'
    ensures !IsStaticFactory(e)
  {
    var t := e.returnType;
    var text := TypeText(t);
    assert |text| > |t.name| && text[|t.name|] == '<';
    assert e.owner != text;
  }

  // ---------------------------------------------------------------- selectConstructorLike

  function Candidates(e: Element): seq<Element> {
    if e.TypeElement? then Filter(IsConstructorLike, e.enclosed) else []
  }

  predicate HasParams(e: Element) { e.Executable? && e.params != [] }

  predicate WideConstructor(e: Element) { IsConstructor(e) && HasParams(e) }

  predicate WideFactory(e: Element) { IsStaticFactory(e) && HasParams(e) }

  /**
   * selectConstructorLike(element, marker): among the constructor-like
   * elements, the first one the marker annotates; else the public constructor
   * with the most parameters (at least one); else such a static factory; else
   * the first constructor-like element; else none.
   */
  function SelectConstructorLike(e: Element, marker: Option<string>): (r: Option<Element>)
    ensures r.Some? ==> r.value in Candidates(e) && IsConstructorLike(r.value)
    ensures r.None? <==> Candidates(e) == []
  {
    var cands := Candidates(e);
    var annotated := if marker.Some? then FindFirst((c: Element) => marker.value in c.annotations, cands) else None;
    if annotated.Some? then annotated
    else
      var ctor := Widest(Filter(WideConstructor, cands));
      if ctor.Some? then ctor
      else
        var factory := Widest(Filter(WideFactory, cands));
        if factory.Some? then factory
        else if cands == [] then None
        else Some(cands[0])
  }

  /** A marker-annotated candidate wins, and it is the first annotated one. */
  lemma SelectAnnotatedFirst(e: Element, marker: string, k: nat)
    requires k < |Candidates(e)| && marker in Candidates(e)[k].annotations
    requires forall j | 0 <= j < k :: marker !in Candidates(e)[j].annotations
    ensures SelectConstructorLike(e, Some(marker)) == Some(Candidates(e)[k])
  {
    var p := (c: Element) => marker in c.annotations;
    assert p(Candidates(e)[k]);
    assert FirstIndex(p, Candidates(e)) == k;
  }

  /** Without a marker, or with one that annotates no candidate, no candidate is picked for its annotation. */
  lemma NoneAnnotated(cands: seq<Element>, marker: Option<string>)
    requires marker.None? || forall c | c in cands :: marker.value !in c.annotations
    ensures marker.Some? ==> FindFirst((c: Element) => marker.value in c.annotations, cands) == None
  {
    if marker.Some? {
      var p := (c: Element) => marker.value in c.annotations;
      assert FirstIndex(p, cands) == -1;
    }
  }

  /**
   * With no annotated candidate, a public constructor taking parameters wins:
   * one with the most parameters, and the first of those.
   */
  lemma SelectWidestConstructor(e: Element, marker: Option<string>)
    requires marker.None? || forall c | c in Candidates(e) :: marker.value !in c.annotations
    requires exists c | c in Candidates(e) :: WideConstructor(c)
    ensures var r := SelectConstructorLike(e, marker);
      r.Some? && WideConstructor(r.value) && r.value in Candidates(e)
      && forall c | c in Candidates(e) && WideConstructor(c) :: Arity(c) <= Arity(r.value)
  {
    var cands := Candidates(e);
    NoneAnnotated(cands, marker);
    var wide := Filter(WideConstructor, cands);
    var c :| c in cands && WideConstructor(c);
    assert c in wide;
  }

  /** With no annotated candidate and no public constructor taking parameters, the widest static factory wins. */
  lemma SelectWidestFactory(e: Element, marker: Option<string>)
    requires marker.None? || forall c | c in Candidates(e) :: marker.value !in c.annotations
    requires forall c | c in Candidates(e) :: !WideConstructor(c)
    requires exists c | c in Candidates(e) :: WideFactory(c)
    ensures var r := SelectConstructorLike(e, marker);
      r.Some? && WideFactory(r.value)
      && forall c | c in Candidates(e) && WideFactory(c) :: Arity(c) <= Arity(r.value)
  {
    var cands := Candidates(e);
    NoneAnnotated(cands, marker);
    assert Filter(WideConstructor, cands) == [];
    var c :| c in cands && WideFactory(c);
    assert c in Filter(WideFactory, cands);
  }

  /** Otherwise the first constructor-like element is taken (a no-argument constructor, say). */
  lemma SelectFirstCandidate(e: Element, marker: Option<string>)
    requires Candidates(e) != []
    requires marker.None? || forall c | c in Candidates(e) :: marker.value !in c.annotations
    requires forall c | c in Candidates(e) :: !WideConstructor(c) && !WideFactory(c)
    ensures SelectConstructorLike(e, marker) == Some(Candidates(e)[0])
  {
    var cands := Candidates(e);
    NoneAnnotated(cands, marker);
    assert Filter(WideConstructor, cands) == [];
    assert Filter(WideFactory, cands) == [];
  }

  // ---------------------------------------------------------------- entry types

  /** entryType: an array's component type, or the one type argument of a declared type; else it throws. */
  function EntryType(t: TypeMirror): (r: Result<TypeMirror>)
    ensures r.Ok? <==> t.ArrayOf? || (t.Declared? && |t.args| == 1)
    ensures r.Err? ==> r == Err(Runtime)
    ensures t.ArrayOf? ==> r == Ok(t.component)
    ensures t.Declared? && |t.args| == 1 ==> r == Ok(t.args[0])
    ensures r.Ok? ==> TypeSize(r.value) < TypeSize(t)
  {
    match t
    case ArrayOf(c) => Ok(c)
    case Declared(_, args) =>
      if |args| == 1 then
        ArgSmaller(args, 0);
        Ok(args[0])
      else Err(Runtime)
    case _ => Err(Runtime)
  }

  /** biEntryTypes: the two type arguments of a declared type with exactly two; else it throws. */
  function BiEntryTypes(t: TypeMirror): (r: Result<(TypeMirror, TypeMirror)>)
    ensures r.Ok? <==> t.Declared? && |t.args| == 2
    ensures r.Err? ==> r == Err(Runtime)
    ensures r.Ok? ==> r.value == (t.args[0], t.args[1])
    ensures r.Ok? ==> TypeSize(r.value.0) < TypeSize(t) && TypeSize(r.value.1) < TypeSize(t)
  {
    if t.Declared? && |t.args| == 2 then
      ArgSmaller(t.args, 0);
      ArgSmaller(t.args, 1);
      Ok((t.args[0], t.args[1]))
    else Err(Runtime)
  }

  // ---------------------------------------------------------------- accessors

  /**
   * isBeanAccessor: a public, non-void, parameterless executable named get
   * followed by an upper-case letter, or is followed by an upper-case letter
   * with a boolean result.
   */
  predicate IsBeanAccessor(e: Element)
    ensures IsBeanAccessor(e) ==> e.Executable? && e.params == [] && e.returnType != Primitive(Void)
    ensures IsBeanAccessor(e) ==> var k := if StartsWith(e.name, "get") then 3 else 2; k < |e.name| && IsUpper(e.name[k])
  {
    e.Executable? && Public in e.modifiers && e.returnType != Primitive(Void) && e.params == []
    && ((StartsWith(e.name, "get") && |e.name| > 3 && IsUpper(e.name[3]))
        || (StartsWith(e.name, "is") && |e.name| > 2 && IsUpper(e.name[2]) && e.returnType == Primitive(Boolean)))
  }

  /** Any public parameterless getter with a capital after "get" is an accessor, whatever it returns but void. */
  lemma GetterIsAccessor(e: Element)
    requires e.Executable? && Public in e.modifiers && e.params == [] && e.returnType != Primitive(Void)
    requires |e.name| > 3 && e.name[..3] == "get" && IsUpper(e.name[3])
    ensures IsBeanAccessor(e)
  {
  }

  /** An is-prefixed name is an accessor only with a primitive boolean result. */
  lemma IsPrefixNeedsBoolean(e: Element)
    requires StartsWith(e.name, "is") && e.Executable? && e.returnType != Primitive(Boolean)
    ensures !IsBeanAccessor(e)
  {
    if |e.name| >= 3 {
      assert e.name[..3][..2] == e.name[..2];
      assert e.name[1] == 's';
    }
  }

  /**
   * decapitalize: a blank name stays, a name whose first two characters are
   * upper-case stays, any other name gets its first character in lower case.
   */
  function Decapitalize(name: string): (r: string)
    ensures |r| == |name|
  {
    if IsBlank(name) then name
    else if |name| > 1 && IsUpper(name[1]) && IsUpper(name[0]) then name
    else [ToLower(name[0])] + name[1..]
  }

  /** The three cases of the doc comment: "FooBah" → "fooBah", "X" → "x", "URL" stays. */
  lemma DecapitalizeExamples()
    ensures Decapitalize("FooBah") == "fooBah"
    ensures Decapitalize("X") == "x"
    ensures Decapitalize("URL") == "URL"
  {
    assert !IsWhitespace('F' as int) && !IsWhitespace('X' as int) && !IsWhitespace('U' as int);
    assert "FooBah"[0] == 'F' && !IsUpper("FooBah"[1]);
    assert [ToLower('F')] + "FooBah"[1..] == "fooBah";
    assert [ToLower('X')] + "X"[1..] == "x";
  }

  /** Decapitalizing twice is decapitalizing once. */
  lemma DecapitalizeIdempotent(name: string)
    ensures Decapitalize(Decapitalize(name)) == Decapitalize(name)
  {
    var r := Decapitalize(name);
    if !IsBlank(name) && !(|name| > 1 && IsUpper(name[1]) && IsUpper(name[0])) {
      assert r[1..] == name[1..];
      assert !IsUpper(r[0]);
      assert !IsBlank(r) by {
        if IsUpper(name[0]) {
          assert !IsWhitespace(r[0] as int);
        } else {
          assert r == name;
        }
      }
      assert [ToLower(r[0])] + r[1..] == r;
    }
  }

  /** The result starts in lower case unless the name is blank or starts with two capitals. */
  lemma DecapitalizeLowers(name: string)
    requires !IsBlank(name) && !(|name| > 1 && IsUpper(name[1]) && IsUpper(name[0]))
    ensures !IsUpper(Decapitalize(name)[0]) && Decapitalize(name)[1..] == name[1..]
  {
  }

  /** getPropertyName: a non-accessor keeps its simple name; an accessor loses get or is and is decapitalized. */
  function PropertyName(e: Element): (r: string)
    ensures !IsBeanAccessor(e) ==> r == e.name
    ensures IsBeanAccessor(e) && StartsWith(e.name, "get") ==> r == Decapitalize(e.name[3..])
    ensures IsBeanAccessor(e) && !StartsWith(e.name, "get") ==> r == Decapitalize(e.name[2..])
  {
    if !IsBeanAccessor(e) then e.name
    else if StartsWith(e.name, "get") then Decapitalize(e.name[3..])
    else if StartsWith(e.name, "is") then Decapitalize(e.name[2..])
    else e.name
  }

  /** A getter for a lower-case property name gives back that name: getFooBah → fooBah. */
  lemma PropertyNameOfGetter(e: Element, p: string)
    requires p != [] && 'a' <= p[0] <= 'z' && (|p| > 1 ==> !IsUpper(p[1]))
    requires e.Executable? && Public in e.modifiers && e.params == [] && e.returnType != Primitive(Void)
    requires e.name == "get" + [ToUpper(p[0])] + p[1..]
    ensures PropertyName(e) == p
  {
    var n := e.name;
    assert n[..3] == "get" && n[3] == ToUpper(p[0]);
    assert IsBeanAccessor(e);
    var rest := n[3..];
    assert rest == [ToUpper(p[0])] + p[1..];
    assert !IsWhitespace(rest[0] as int);
    assert !IsUpper(p[0]);
    if |rest| > 1 {
      assert rest[1] == p[1];
    }
    DecapitalizeRoundTrip(p, rest);
  }

  lemma DecapitalizeRoundTrip(p: string, rest: string)
    requires p != [] && 'a' <= p[0] <= 'z'
    requires rest == [ToUpper(p[0])] + p[1..]
    requires !IsBlank(rest)
    requires !(|rest| > 1 && IsUpper(rest[1]) && IsUpper(rest[0]))
    ensures Decapitalize(rest) == p
  {
    assert ToLower(ToUpper(p[0])) == p[0];
    assert [p[0]] + p[1..] == p;
  }

  /** The accessors selectAccessors keeps: those without the excluded annotation. */
  function NotExcluded(exclude: string): Element -> bool {
    (a: Element) => exclude !in a.annotations
  }

  /** The class members selectAccessors keeps: bean-accessor methods without the excluded annotation. */
  function KeptBeanAccessor(exclude: string): Element -> bool {
    (a: Element) => KindOf(a) == Method && IsBeanAccessor(a) && exclude !in a.annotations
  }

  /**
   * selectAccessors: a record's component accessors, or a class's bean-accessor
   * methods, in declaration order, leaving out those with the excluded annotation;
   * nothing for any other kind.
   */
  function SelectAccessors(e: Element, exclude: string): (r: seq<Element>)
    ensures forall a | a in r :: exclude !in a.annotations
    ensures KindOf(e) == Class && e.TypeElement? ==> forall a | a in r :: a in e.enclosed && IsBeanAccessor(a) && KindOf(a) == Method
    ensures KindOf(e) == Class && e.TypeElement? ==>
              forall a | a in e.enclosed && KindOf(a) == Method && IsBeanAccessor(a) && exclude !in a.annotations :: a in r
    ensures KindOf(e) == Class && e.TypeElement? ==> r == Filter(KeptBeanAccessor(exclude), e.enclosed)
    ensures KindOf(e) == Record && e.TypeElement? ==>
              forall a | a in ComponentAccessors(e.enclosed) && exclude !in a.annotations :: a in r
    ensures KindOf(e) == Record && e.TypeElement? ==> r == Filter(NotExcluded(exclude), ComponentAccessors(e.enclosed))
    ensures KindOf(e) != Class && KindOf(e) != Record ==> r == []
  {
    if KindOf(e) == Record && e.TypeElement? then
      Filter(NotExcluded(exclude), ComponentAccessors(e.enclosed))
    else if KindOf(e) == Class && e.TypeElement? then
      Filter(KeptBeanAccessor(exclude), e.enclosed)
    else []
  }

  /** Filter keeps the order: filtering a concatenation filters each part and concatenates the results. */
  lemma {:induction false} FilterAppend<T>(p: T -> bool, a: seq<T>, b: seq<T>)
    ensures Filter(p, a + b) == Filter(p, a) + Filter(p, b)
  {
    if a != [] {
      assert (a + b)[0] == a[0] && (a + b)[1..] == a[1..] + b;
      FilterAppend(p, a[1..], b);
      if p(a[0]) {
        assert Filter(p, a + b) == [a[0]] + Filter(p, a[1..] + b);
        assert Filter(p, a) == [a[0]] + Filter(p, a[1..]);
      } else {
        assert Filter(p, a + b) == Filter(p, a[1..] + b);
      }
    } else {
      assert a + b == b;
    }
  }

  /** The accessors of the record components among `es`, in their order. */
  function ComponentAccessors(es: seq<Element>): (r: seq<Element>)
    ensures |r| <= |es|
  {
    if es == [] then []
    else if es[0].Component? then [es[0].accessor] + ComponentAccessors(es[1..])
    else ComponentAccessors(es[1..])
  }

  /** A record's accessors come in component order: two components give their two accessors. */
  lemma RecordAccessorsInOrder(name: string, qn: string, c1: Element, c2: Element, exclude: string)
    requires c1.Component? && c2.Component?
    requires exclude !in c1.accessor.annotations && exclude !in c2.accessor.annotations
    ensures SelectAccessors(TypeElement(Record, name, qn, {}, {}, [c1, c2]), exclude) == [c1.accessor, c2.accessor]
  {
    var es := [c1, c2];
    assert es[1..] == [c2];
    assert es[1..][1..] == [];
    assert ComponentAccessors(es) == [c1.accessor, c2.accessor];
    var p := NotExcluded(exclude);
    var acc := [c1.accessor, c2.accessor];
    assert acc[1..] == [c2.accessor];
    assert acc[1..][1..] == [];
    assert Filter(p, acc) == acc;
  }

  // ---------------------------------------------------------------- element helpers

  /** ElementKind.isClass(): a class, an enum or a record (the test withStack makes). */
  predicate IsClassKind(k: ElementKind) { k == Class || k == Enum || k == Record }

  /** Element.asType(): a variable's or component's type, an executable's return type, a type's own type. */
  function AsType(e: Element): TypeMirror {
    match e
    case TypeElement(_, _, qn, _, _, _) => Declared(qn, [])
    case Executable(_, _, _, _, _, rt, _, _) => rt
    case VariableElement(_, _, _, _, t) => t
    case Component(_, _, t, _) => t
  }

  /**
   * Types.erasure: type arguments dropped, a type variable replaced by its
   * bound (taken to be java.lang.Object).
   */
  function Erasure(t: TypeMirror): (r: TypeMirror)
    ensures r.Declared? ==> r.args == []
    ensures t.Primitive? ==> r == t
  {
    match t
    case Declared(n, _) => Declared(n, [])
    case ArrayOf(c) => ArrayOf(Erasure(c))
    case Variable(_) => Declared("java.lang.Object", [])
    case Primitive(_) => t
  }

  /** The simple name of a qualified name: what follows its last dot. */
  function SimpleName(qn: string): (r: string)
    ensures EndsWith(qn, r) && '.' !in r
    ensures |r| < |qn| ==> qn[|qn| - |r| - 1] == '.'
  {
    var k := LastIndexOf(qn, '.');
    qn[k + 1..]
  }

  // ---------------------------------------------------------------- the type utilities

  /**
   * What the compiler's Types and Elements utilities answer: the known type
   * elements, and the qualified names whose erasure is assignable to
   * java.util.List, java.util.Set and java.util.Map.
   */
  datatype World = World(types: seq<Element>, lists: set<string>, sets: set<string>, maps: set<string>)

  predicate Names(e: Element, name: string) {
    e.TypeElement? && e.qualifiedName == name
  }

  /** asTypeElement: the element a declared type names, if the world knows it (null otherwise). */
  function AsTypeElement(w: World, t: TypeMirror): (r: Option<Element>)
    ensures r.Some? ==> r.value in w.types && r.value.TypeElement? && t.Declared? && r.value.qualifiedName == t.name
  {
    if t.Declared? then FindFirst((e: Element) => Names(e, t.name), w.types) else None
  }

  /** isEnum: a declared type whose element is an enum. */
  predicate IsEnum(w: World, t: TypeMirror)
    ensures IsEnum(w, t) ==> t.Declared? && !IsClass(AsTypeElement(w, t))
  {
    t.Declared? && var e := AsTypeElement(w, t); e.Some? && KindOf(e.value) == Enum
  }

  /** isArrayLike: an array type, printed as its component type and "[]". */
  predicate IsArrayLike(t: TypeMirror)
    ensures IsArrayLike(t) ==> t.ArrayOf? && TypeSize(t.component) < TypeSize(t)
    ensures IsArrayLike(t) ==> t.ArrayOf? && TypeText(t) == TypeText(t.component) + "[]"
  {
    t.ArrayOf?
  }

  /** isListLike: the erasure of a declared type is assignable to java.util.List; type arguments play no part. */
  predicate IsListLike(w: World, t: TypeMirror)
    ensures IsListLike(w, t) ==> t.Declared? && !IsArrayLike(t)
    ensures t.Declared? ==> (IsListLike(w, t) <==> Erasure(t).name in w.lists)
  {
    t.Declared? && t.name in w.lists
  }

  /** isSetLike: the erasure of a declared type is assignable to java.util.Set. */
  predicate IsSetLike(w: World, t: TypeMirror)
    ensures IsSetLike(w, t) ==> t.Declared? && !IsArrayLike(t)
    ensures t.Declared? ==> (IsSetLike(w, t) <==> Erasure(t).name in w.sets)
  {
    t.Declared? && t.name in w.sets
  }

  /** isMapLike: the erasure of a declared type is assignable to java.util.Map. */
  predicate IsMapLike(w: World, t: TypeMirror)
    ensures IsMapLike(w, t) ==> t.Declared? && !IsArrayLike(t)
    ensures t.Declared? ==> (IsMapLike(w, t) <==> Erasure(t).name in w.maps)
  {
    t.Declared? && t.name in w.maps
  }

  /** isAnnotated. */
  predicate IsAnnotated(e: Element, annotation: string)
    ensures e.annotations == {} ==> !IsAnnotated(e, annotation)
  {
    annotation in e.annotations
  }

  /** The qualified names of the world's types, in order: the names the generators may push. */
  function TypeNames(w: World): (r: seq<string>)
    ensures |r| == |w.types|
  {
    seq(|w.types|, i requires 0 <= i < |w.types| => if w.types[i].TypeElement? then w.types[i].qualifiedName else "")
  }

  /** Every element asTypeElement finds is named in TypeNames. */
  lemma KnownTypeNamed(w: World, t: TypeMirror)
    requires AsTypeElement(w, t).Some?
    ensures AsTypeElement(w, t).value.qualifiedName in TypeNames(w)
  {
    var k := FirstIndex((e: Element) => Names(e, t.name), w.types);
    assert TypeNames(w)[k] == w.types[k].qualifiedName;
  }
}
