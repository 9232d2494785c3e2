/**
 * A growable buffer of chars (lang/CharArray): an array with a fill length that grows by
 * half its capacity (at most 512) at a time, with Java int arithmetic for the sizes.
 */
module CharArrays {
  import opened Wrappers
  import opened JavaText

  const IntMax: int := 0x7FFF_FFFF
  const IntMin: int := -0x8000_0000

  predicate IsInt(x: int) { IntMin <= x <= IntMax }

  /** Java's 32-bit two's-complement wrap-around. */
  function Int32(x: int): (r: int)
    ensures IsInt(r)
    ensures IsInt(x) ==> r == x
    ensures (r - x) % 0x1_0000_0000 == 0
  {
    (x - IntMin) % 0x1_0000_0000 + IntMin
  }

  function Max(a: int, b: int): int { if a < b then b else a }
  function Min(a: int, b: int): int { if a < b then a else b }

  /** newCapacity: the preferred growth when that fits, else the minimum, else OutOfMemoryError. */
  function NewCapacity(oldLength: int, minGrowth: int, prefGrowth: int): (r: Result<int>)
    ensures r.Ok? ==> 0 < r.value <= IntMax
    ensures r.Err? ==> r.failure == OutOfMemory
  {
    var prefLength := Int32(oldLength + Max(minGrowth, prefGrowth));
    if 0 < prefLength <= IntMax - 8 then Ok(prefLength)
    else
      var minLength := Int32(oldLength + minGrowth);
      if minLength < 0 then Err(OutOfMemory) else Ok(Max(minLength, IntMax - 8))
  }

  /** The capacity grow(minCapacity) allocates for a buffer of capacity oldCapacity. */
  function GrownCapacity(oldCapacity: nat, minCapacity: int): (r: Result<int>)
    ensures oldCapacity == 0 ==> r.Ok? && r.value >= 32 && r.value >= minCapacity
    ensures oldCapacity > 0 && r.Ok? ==> 0 < r.value <= IntMax
    ensures r.Err? ==> r.failure == OutOfMemory
  {
    if oldCapacity == 0 then Ok(Max(32, minCapacity))
    else NewCapacity(oldCapacity, Int32(minCapacity - oldCapacity), Min(512, oldCapacity / 2))
  }

  /** newCapacity is at least old + minGrowth unless it throws, and it throws exactly on overflow. */
  lemma NewCapacityBounds(oldLength: int, minGrowth: int, prefGrowth: int)
    requires 0 <= oldLength <= IntMax && IsInt(minGrowth) && 0 <= prefGrowth <= IntMax
    requires 0 <= oldLength + minGrowth
    ensures NewCapacity(oldLength, minGrowth, prefGrowth).Err? <==> oldLength + minGrowth > IntMax
    ensures NewCapacity(oldLength, minGrowth, prefGrowth).Ok? ==>
              oldLength + minGrowth <= NewCapacity(oldLength, minGrowth, prefGrowth).value <= IntMax
  {
    var sum := oldLength + Max(minGrowth, prefGrowth);
    if sum > IntMax {
      assert Int32(sum) == sum - 0x1_0000_0000;
      if oldLength + minGrowth > IntMax {
        assert Int32(oldLength + minGrowth) == oldLength + minGrowth - 0x1_0000_0000;
      }
    }
  }

  /** grow never fails for a non-negative request, and then covers it. */
  lemma GrownCapacityCovers(oldCapacity: nat, minCapacity: int)
    requires oldCapacity <= IntMax && 0 <= minCapacity <= IntMax
    ensures GrownCapacity(oldCapacity, minCapacity).Ok?
    ensures minCapacity <= GrownCapacity(oldCapacity, minCapacity).value <= IntMax
    ensures oldCapacity == 0 ==> GrownCapacity(oldCapacity, minCapacity).value == Max(32, minCapacity)
  {
    if oldCapacity > 0 {
      NewCapacityBounds(oldCapacity, minCapacity - oldCapacity, Min(512, oldCapacity / 2));
    }
  }

  /** A full buffer of Integer.MAX_VALUE chars asks for Integer.MIN_VALUE, and grow throws. */
  lemma GrowPastMax()
    ensures Int32(IntMax + 1) == IntMin
    ensures GrownCapacity(IntMax, IntMin).Err?
  {
    assert Int32(IntMin - IntMax) == 1;
    assert Int32(IntMax + 512) < 0;
  }

  /** The capacity add(char[]) as written ends with: it grows by values.length only. */
  function CapacityAfterAddAsWritten(length: nat, capacity: nat, len: nat): Result<int> {
    if Int32(length + len) > capacity then GrownCapacity(capacity, len) else Ok(capacity)
  }

  /** A full buffer of 32 chars given 100 more grows to 100 only, too small for 132. */
  lemma AddAsWrittenOverflows()
    ensures CapacityAfterAddAsWritten(32, 32, 100) == Ok(100)
    ensures 32 + 100 > 100
  {
    assert Int32(132) == 132;
    assert NewCapacity(32, 68, 16) == Ok(100);
  }

  /** The intended growth, by length + values.length, always leaves room for the new chars. */
  lemma AddRequestCovers(length: nat, capacity: nat, len: nat)
    requires length <= capacity <= IntMax && length + len <= IntMax
    ensures length + len > capacity ==> GrownCapacity(capacity, length + len).Ok?
    ensures length + len > capacity ==> GrownCapacity(capacity, length + len).value >= length + len
  {
    GrownCapacityCovers(capacity, length + len);
  }

  /** A view of [start, end) of a char array, as SubArray holds it. */
  class SubArray {
    const chars: array<CodeUnit>
    const start: int
    const end: int

    constructor (chars: array<CodeUnit>, start: int, end: int)
      ensures this.chars == chars && this.start == start && this.end == end
    {
      this.chars, this.start, this.end := chars, start, end;
    }

    /**
     * Arrays.copyOfRange(chars, start, end): the new length end - start, in int
     * arithmetic, is checked first (IllegalArgumentException when negative); then
     * the copy from start fails with IndexOutOfBounds when start lies outside the
     * array; the chars past the array's end are '\0'.
     */
    method Chars() returns (r: Result<seq<CodeUnit>>)
      ensures Int32(end - start) < 0 ==> r == Err(IllegalArgument)
      ensures Int32(end - start) >= 0 && (start < 0 || start > chars.Length) ==> r == Err(IndexOutOfBounds)
      ensures Int32(end - start) >= 0 && 0 <= start <= chars.Length ==> r.Ok? && |r.value| == Int32(end - start)
      ensures r.Ok? ==> forall i | 0 <= i < |r.value| ::
                r.value[i] == if start + i < chars.Length then chars[start + i] else 0
    {
      var newLength := Int32(end - start);
      if newLength < 0 { return Err(IllegalArgument); }
      if start < 0 || start > chars.Length { return Err(IndexOutOfBounds); }
      var n := Min(chars.Length - start, newLength);
      r := Ok(chars[start..start + n] + seq(newLength - n, _ => 0));
    }
  }

  class CharArray {
    var elements: array<CodeUnit>
    var length: nat

    ghost predicate Valid() reads this {
      length <= elements.Length <= IntMax
    }

    /** The chars added so far. */
    ghost function Contents(): seq<CodeUnit> reads this, elements requires Valid() {
      elements[..length]
    }

    /** CharArray.of(): an empty buffer of capacity 0. */
    constructor Empty()
      ensures Valid() && fresh(elements) && Contents() == [] && elements.Length == 0
    {
      elements := new CodeUnit[0];
      length := 0;
    }

    /**
     * CharArray.of(capacity): an empty buffer over `new char[capacity]`, which
     * throws NegativeArraySizeException for a negative capacity.
     */
    static method WithCapacity(capacity: int) returns (r: Result<CharArray>)
      requires capacity <= IntMax
      ensures r.Err? <==> capacity < 0
      ensures r.Err? ==> r.failure == NegativeArraySize
      ensures r.Ok? ==> fresh(r.value) && fresh(r.value.elements) && r.value.Valid()
                        && r.value.Contents() == [] && r.value.elements.Length == capacity
    {
      if capacity < 0 { return Err(NegativeArraySize); }
      var a := new CharArray.Empty();
      a.elements := new CodeUnit[capacity];
      return Ok(a);
    }

    /** CharArray.of(values): a copy of the values, full to capacity. */
    constructor FromChars(values: seq<CodeUnit>)
      requires |values| <= IntMax
      ensures Valid() && fresh(elements) && Contents() == values && elements.Length == |values|
    {
      var a := new CodeUnit[|values|](i requires 0 <= i < |values| => values[i]);
      assert a[..] == values;
      elements := a;
      length := |values|;
    }

    /** grow: reallocates to GrownCapacity, keeping the contents; fails with OutOfMemoryError. */
    method Grow(minCapacity: int) returns (r: Result<()>)
      requires Valid() && IsInt(minCapacity)
      requires GrownCapacity(elements.Length, minCapacity).Ok? ==> GrownCapacity(elements.Length, minCapacity).value >= length
      modifies this`elements
      ensures Valid() && Contents() == old(Contents())
      ensures r.Err? <==> GrownCapacity(old(elements.Length), minCapacity).Err?
      ensures r.Err? ==> elements == old(elements) && r.failure == OutOfMemory
      ensures r.Ok? ==> fresh(elements) && elements.Length == GrownCapacity(old(elements.Length), minCapacity).value
    {
      var oldCapacity := elements.Length;
      var c := GrownCapacity(oldCapacity, minCapacity);
      if c.Err? { return Err(c.failure); }
      var newCapacity := c.value;
      var grown := new CodeUnit[newCapacity];
      forall i | 0 <= i < length { grown[i] := elements[i]; }
      elements := grown;
      r := Ok(());
    }

    /** add(char): appends one char; fails only when the length would pass Integer.MAX_VALUE. */
    method AddChar(v: CodeUnit) returns (r: Result<()>)
      requires Valid()
      modifies this, elements
      ensures Valid()
      ensures r.Ok? <==> old(length) < IntMax
      ensures r.Ok? ==> Contents() == old(Contents()) + [v]
      ensures elements == old(elements) || fresh(elements)
      ensures r.Err? ==> r.failure == OutOfMemory && Contents() == old(Contents())
    {
      ghost var before := Contents();
      r := Room();
      if r.Err? { return; }
      elements[length] := v;
      assert elements[..length + 1] == before + [v];
      length := length + 1;
    }

    /** The first step of add(char): grow to length + 1 when the array is full. */
    method Room() returns (r: Result<()>)
      requires Valid()
      modifies this`elements
      ensures Valid() && Contents() == old(Contents())
      ensures r.Ok? <==> length < IntMax
      ensures r.Ok? ==> length < elements.Length
      ensures elements == old(elements) || fresh(elements)
      ensures r.Err? ==> r.failure == OutOfMemory
    {
      if length == elements.Length {
        if length < IntMax {
          GrownCapacityCovers(elements.Length, length + 1);
        } else {
          GrowPastMax();
        }
        r := Grow(Int32(length + 1));
      } else {
        r := Ok(());
      }
    }

    /**
     * add(char[]) as written: the buffer is grown by values.length alone, so the copy that
     * follows can run past the new capacity (ArrayIndexOutOfBoundsException).
     */
    method AddCharsAsWritten(values: seq<CodeUnit>) returns (r: Result<()>)
      requires Valid() && |values| <= IntMax
      modifies this, elements
      ensures Valid()
      ensures r.Ok? <==> (CapacityAfterAddAsWritten(old(length), old(elements.Length), |values|).Ok?
                          && old(length) + |values| <= CapacityAfterAddAsWritten(old(length), old(elements.Length), |values|).value)
      ensures r.Ok? ==> Contents() == old(Contents()) + values
      ensures r.Err? ==> length == old(length)
    {
      var len := |values|;
      if Int32(length + len) > elements.Length {
        var c := GrownCapacity(elements.Length, len);
        if c.Ok? && c.value < length {
          // Arrays.copyOf would cut the contents short; the copy below fails in any case
          return Err(IndexOutOfBounds);
        }
        var g := Grow(len);
        if g.Err? { return Err(g.failure); }
      }
      if length + len > elements.Length { return Err(IndexOutOfBounds); }
      CopyIn(values);
      r := Ok(());
    }

    /** add(char[]) with the growth request it needs, length + values.length. */
    method AddChars(values: seq<CodeUnit>) returns (r: Result<()>)
      requires Valid() && |values| <= IntMax
      modifies this, elements
      ensures Valid()
      ensures r.Ok? <==> old(length) + |values| <= IntMax
      ensures r.Ok? ==> Contents() == old(Contents()) + values
      ensures r.Err? ==> Contents() == old(Contents())
    {
      var len := |values|;
      if Int32(length + len) > elements.Length {
        AddRequestCovers(length, elements.Length, len);
        var g := Grow(Int32(length + len));
      }
      if length + len > elements.Length { return Err(IndexOutOfBounds); }
      CopyIn(values);
      r := Ok(());
    }

    /** The arraycopy of add(char[]) into a buffer with room for it. */
    method CopyIn(values: seq<CodeUnit>)
      requires Valid() && length + |values| <= elements.Length
      modifies this`length, elements
      ensures Valid() && Contents() == old(Contents()) + values
    {
      ghost var before := Contents();
      forall i | 0 <= i < |values| { elements[length + i] := values[i]; }
      length := length + |values|;
      assert Contents() == before + values;
    }

    /** get(index): any slot of the backing array, including those past the length. */
    method Get(index: CodeUnit) returns (r: Result<CodeUnit>)
      requires Valid()
      ensures index < elements.Length ==> r == Ok(elements[index])
      ensures index >= elements.Length ==> r == Err(IndexOutOfBounds)
    {
      if index < elements.Length { r := Ok(elements[index]); } else { r := Err(IndexOutOfBounds); }
    }

    /** array(): a copy of exactly the chars added. */
    method Array() returns (a: array<CodeUnit>)
      requires Valid()
      ensures fresh(a) && a[..] == Contents()
    {
      a := new CodeUnit[length];
      forall i | 0 <= i < length { a[i] := elements[i]; }
    }

    /** subArray(start, end): a view sharing the backing array. */
    method SubArrayOf(start: int, end: int) returns (s: SubArray)
      requires Valid()
      ensures fresh(s) && s.chars == elements && s.start == start && s.end == end
    {
      s := new SubArray(elements, start, end);
    }

    /** subArray(start): the view of [start, length). */
    method SubArrayFrom(start: int) returns (s: SubArray)
      requires Valid()
      ensures fresh(s) && s.chars == elements && s.start == start && s.end == length
    {
      s := new SubArray(elements, start, length);
    }

    /** subString(start): the chars from start to the length. */
    method SubString(start: int) returns (r: Result<seq<CodeUnit>>)
      requires Valid()
      ensures 0 <= start <= length ==> r == Ok(Contents()[start..])
      ensures !(0 <= start <= length) ==> r == Err(IndexOutOfBounds)
    {
      if 0 <= start <= length { r := Ok(elements[start..length]); } else { r := Err(IndexOutOfBounds); }
    }

    /** popString(): the contents, leaving the buffer empty with its capacity. */
    method PopString() returns (s: seq<CodeUnit>)
      requires Valid()
      modifies this`length
      ensures Valid() && s == old(Contents()) && Contents() == []
    {
      s := elements[..length];
      length := 0;
    }

    /** popChars(): a copy of the contents, leaving the buffer empty with its capacity. */
    method PopChars() returns (a: array<CodeUnit>)
      requires Valid()
      modifies this`length
      ensures Valid() && fresh(a) && a[..] == old(Contents()) && Contents() == []
    {
      a := new CodeUnit[length];
      forall i | 0 <= i < length { a[i] := elements[i]; }
      length := 0;
    }

    /** clear(): drops the backing array, back to capacity 0. */
    method Clear()
      requires Valid()
      modifies this
      ensures Valid() && Contents() == [] && elements.Length == 0
    {
      elements := new CodeUnit[0];
      length := 0;
    }

    /** reset(): empties the buffer and keeps its capacity. */
    method Reset()
      requires Valid()
      modifies this`length
      ensures Valid() && Contents() == [] && elements == old(elements)
    {
      length := 0;
    }

    function Length(): nat reads this { length }

    function Capacity(): nat reads this, elements { elements.Length }
  }
}
