/** A Reader over a string (lang/StringReader) with a cursor, a mark and no locking. */
module StringReaders {
  import opened Wrappers
  import opened JavaText

  function Min(a: int, b: int): int { if a < b then a else b }
  function Max(a: int, b: int): int { if a < b then b else a }

  /** Objects.checkFromIndexSize(off, len, size). */
  predicate InBounds(off: int, len: int, size: int) { 0 <= off && 0 <= len && off + len <= size }

  /**
   * What read(chars, off, len) returns with `available` chars left: the failure for a bad
   * range, 0 for an empty request, -1 at the end, otherwise the count copied.
   */
  function ReadIntoResult(available: nat, off: int, len: int, size: int): (r: Result<int>)
    ensures r.Ok? <==> InBounds(off, len, size)
    ensures r.Err? ==> r.failure == IndexOutOfBounds
    ensures r.Ok? && len > 0 ==> (r.value == -1 <==> available == 0)
    ensures r.Ok? && r.value != -1 ==> 0 <= r.value <= len && r.value <= available
    ensures r.Ok? && len > 0 && available > 0 ==> r.value == Min(available, len) > 0
  {
    if !InBounds(off, len, size) then Err(IndexOutOfBounds)
    else if len == 0 then Ok(0)
    else if available == 0 then Ok(-1)
    else Ok(Min(available, len))
  }

  class StringReader {
    var str: seq<CodeUnit>
    var length: nat
    var next: nat
    var mark: nat

    ghost predicate Valid() reads this {
      length == |str| && next <= length && mark <= length
    }

    /** The chars not yet read. */
    ghost function Remaining(): seq<CodeUnit> reads this requires Valid() { str[next..] }

    constructor (s: seq<CodeUnit>)
      ensures Valid() && str == s && next == 0 && mark == 0 && Remaining() == s
    {
      str, length, next, mark := s, |s|, 0, 0;
    }

    /** read(): the next char, or -1 once the string is used up (and forever after). */
    method Read() returns (c: int)
      requires Valid()
      modifies this`next
      ensures Valid()
      ensures old(Remaining()) == [] ==> c == -1 && Remaining() == []
      ensures old(Remaining()) != [] ==> c == old(Remaining())[0] && Remaining() == old(Remaining())[1..]
    {
      if next >= length { return -1; }
      c := str[next];
      next := next + 1;
    }

    /**
     * read(chars, off, len): copies min(remaining, len) chars to chars[off..] and returns that
     * count; 0 when len is 0, -1 at the end, IndexOutOfBoundsException for a bad range.
     */
    method ReadInto(chars: array<CodeUnit>, off: int, len: int) returns (r: Result<int>)
      requires Valid()
      modifies this`next, chars
      ensures Valid()
      ensures r == ReadIntoResult(|old(Remaining())|, off, len, chars.Length)
      ensures r.Ok? && r.value > 0 ==>
                (forall i | 0 <= i < r.value :: chars[off + i] == old(Remaining())[i])
                && Remaining() == old(Remaining())[r.value..]
      ensures !(r.Ok? && r.value > 0) ==> Remaining() == old(Remaining())
      ensures forall i | 0 <= i < chars.Length && !(r.Ok? && off <= i < off + r.value) :: chars[i] == old(chars[i])
    {
      if !InBounds(off, len, chars.Length) { return Err(IndexOutOfBounds); }
      if len == 0 { return Ok(0); }
      if next >= length { return Ok(-1); }
      var n := Min(length - next, len);
      forall i | off <= i < off + n { chars[i] := str[next + i - off]; }
      next := next + n;
      r := Ok(n);
    }

    predicate MarkSupported() { true }

    /** mark(limit): remembers the cursor; a negative limit is an IllegalArgumentException. */
    method Mark(readAheadLimit: int) returns (r: Result<()>)
      requires Valid()
      modifies this`mark
      ensures Valid() && next == old(next)
      ensures readAheadLimit < 0 ==> r == Err(IllegalArgument) && mark == old(mark)
      ensures readAheadLimit >= 0 ==> r == Ok(()) && mark == next
    {
      if readAheadLimit < 0 { return Err(IllegalArgument); }
      mark := next;
      r := Ok(());
    }

    /** reset(): back to the last mark (the start when none was set). */
    method Reset()
      requires Valid()
      modifies this`next
      ensures Valid() && next == mark && Remaining() == str[mark..]
    {
      next := mark;
    }

    /**
     * skip(n): moves by n, clamped to [start, end]; nothing at the end. Returns the distance
     * actually moved, negative when n is.
     */
    method Skip(n: int) returns (r: int)
      requires Valid()
      modifies this`next
      ensures Valid()
      ensures next == old(next) + r
      ensures old(next) >= length ==> r == 0
      ensures old(next) < length && n >= 0 ==> r == Min(n, length - old(next))
      ensures old(next) < length && n < 0 ==> r == Max(n, -(old(next) as int))
    {
      if next >= length { return 0; }
      r := Min(length - next, n);
      r := Max(-(next as int), r);
      next := next + r;
    }

    /** close(): drops the string; later reads see an empty stream. */
    method Close()
      modifies this
      ensures Valid() && str == [] && next == 0 && mark == 0 && Remaining() == []
    {
      str, length, next, mark := [], 0, 0, 0;
    }
  }
}
