/**
 * A char reader with a 64-char cache over an inner reader and a one-shot step-back
 * (lang/CharBufferReader). The inner reader is the StringReader model.
 */
module CharBufferReaders {
  import opened Wrappers
  import opened JavaText
  import opened StringReaders

  const BufferSize: nat := 64

  /** (char) x, for x that is -1 or a char: -1 becomes '￿'. */
  function AsChar(x: int): CodeUnit { x % 0x1_0000 }

  predicate IsReadBlank(c: int) { c == ' ' as int || c == '\t' as int || c == '\r' as int || c == '\n' as int }

  /** The number of leading elements that are chars satisfying until; -1 (the end) stops it. */
  function LeadingCount(until: CodeUnit -> bool, s: seq<int>): (r: nat)
    ensures r <= |s|
  {
    if s == [] || !(0 <= s[0] < 0x1_0000 && until(s[0])) then 0
    else 1 + LeadingCount(until, s[1..])
  }

  /** LeadingCount(until, s) is the length of the longest prefix of chars satisfying until. */
  lemma {:induction false} LeadingCountMeaning(until: CodeUnit -> bool, s: seq<int>)
    ensures forall i | 0 <= i < LeadingCount(until, s) :: 0 <= s[i] < 0x1_0000 && until(s[i])
    ensures LeadingCount(until, s) < |s| ==> !(0 <= s[LeadingCount(until, s)] < 0x1_0000 && until(s[LeadingCount(until, s)]))
  {
    if s != [] && 0 <= s[0] < 0x1_0000 && until(s[0]) {
      LeadingCountMeaning(until, s[1..]);
    }
  }

  /** Index of the first element that read-next-char does not skip, or |s|. */
  function FirstNonBlank(s: seq<int>): (k: nat)
    ensures k <= |s|
    ensures forall i | 0 <= i < k :: IsReadBlank(s[i])
    ensures k < |s| ==> !IsReadBlank(s[k])
  {
    if s == [] || !IsReadBlank(s[0]) then 0 else 1 + FirstNonBlank(s[1..])
  }

  /**
   * What length(until) returns as written: with a pending step-back it tests latestRead but
   * does not count it, and its scan of the cache starts one past next.
   */
  function LengthAsWrittenValue(until: CodeUnit -> bool, stepBack: bool, latestRead: int,
                                cached: seq<int>, rest: seq<int>): nat
  {
    if stepBack && !until(AsChar(latestRead)) then 0
    else LeadingCount(until, (if stepBack && cached != [] then cached[1..] else if stepBack then [] else cached) + rest)
  }

  /** After reading 'a' from "ab" and stepping back, as written counts 0 letters ahead, not 2. */
  lemma LengthAsWrittenMissesStepBack()
    ensures var letter := (c: CodeUnit) => 'a' as int <= c <= 'z' as int;
            LengthAsWrittenValue(letter, true, 'a' as int, ['b' as int], []) == 0
            && LeadingCount(letter, ['a' as int, 'b' as int]) == 2
  {
    var letter := (c: CodeUnit) => 'a' as int <= c <= 'z' as int;
    assert LeadingCount(letter, ['a' as int, 'b' as int]) == 1 + LeadingCount(letter, ['b' as int]);
    assert LeadingCount(letter, ['b' as int]) == 1 + LeadingCount(letter, []);
  }

  class CharBufferReader {
    const inner: StringReader
    const buf: array<CodeUnit>
    var position: int
    var limit: nat
    var next: nat
    var latestRead: int
    var stepBack: bool

    ghost predicate Valid() reads this, inner {
      inner.Valid() && buf.Length == BufferSize && next <= limit <= BufferSize && -1 <= latestRead < 0x1_0000
    }

    /** The chars still to come: the stepped-back char, the rest of the cache, the inner reader's rest. */
    ghost function Pending(): seq<int> reads this, inner, buf requires Valid() {
      var back: seq<int> := if stepBack then [latestRead] else [];
      var cached: seq<int> := buf[next..limit];
      var rest: seq<int> := inner.Remaining();
      back + cached + rest
    }

    /** CharBufferReader.of(in): an empty cache over a reader that supports mark. */
    constructor Of(r: StringReader)
      requires r.Valid()
      ensures Valid() && inner == r && fresh(buf) && Pending() == r.Remaining()
      ensures position == 0 && latestRead == -1 && !stepBack
    {
      inner := r;
      buf := new CodeUnit[BufferSize];
      position, limit, next, latestRead, stepBack := 0, 0, 0, -1, false;
      new;
      assert buf[next..limit] == [];
    }

    /** fillBuffer(): refills the exhausted cache with up to 64 chars of the inner reader. */
    method FillBuffer()
      requires Valid() && next == limit
      modifies this`limit, this`next, inner`next, buf
      ensures Valid() && buf[..limit] + inner.Remaining() == old(inner.Remaining())
      ensures next == 0 && limit == if |old(inner.Remaining())| < BufferSize then |old(inner.Remaining())| else BufferSize
      ensures stepBack == old(stepBack) && latestRead == old(latestRead) && position == old(position)
    {
      ghost var n0 := inner.next;
      limit, next := 0, 0;
      var ret := inner.ReadInto(buf, limit, buf.Length - limit);
      ghost var got: nat := if ret.value == -1 then 0 else ret.value;
      while ret.value != -1
        invariant inner.Valid() && inner.str == old(inner.str)
        invariant next == 0 && limit < BufferSize && limit + got <= BufferSize
        invariant ret.Ok? && (ret.value == -1 ==> got == 0 && inner.next == |inner.str|)
        invariant ret.value != -1 ==> 1 <= ret.value == got
        invariant inner.next == n0 + limit + got
        invariant forall k | 0 <= k < limit + got :: buf[k] == inner.str[n0 + k]
        decreases BufferSize - limit
      {
        limit := limit + ret.value;
        if limit == buf.Length {
          got := 0;
          break;
        }
        ret := inner.ReadInto(buf, limit, buf.Length - limit);
        got := if ret.value == -1 then 0 else ret.value;
      }
      FilledPrefix(buf[..limit], inner.str, n0, inner.next);
    }

    /** read(): the next pending char, or -1; a pending step-back is consumed first. */
    method Read() returns (c: int)
      requires Valid()
      modifies this, inner, buf
      ensures Valid()
      ensures position == old(position) + 1 && !stepBack
      ensures old(Pending()) == [] ==> c == -1 && Pending() == []
      ensures old(Pending()) != [] ==> c == old(Pending())[0] && Pending() == old(Pending())[1..]
      ensures c != -1 ==> latestRead == c
      ensures c == -1 ==> latestRead == old(latestRead)
    {
      position := position + 1;
      if stepBack {
        stepBack := false;
        return latestRead;
      }
      if next >= limit { FillBuffer(); }
      if next == limit { return -1; }
      latestRead := buf[next];
      next := next + 1;
      c := latestRead;
    }

    /** readNextChar(): the next char that is not a space, tab, CR or LF, or -1. */
    method ReadNextChar() returns (c: int)
      requires Valid()
      modifies this, inner, buf
      ensures Valid()
      ensures var p, k := old(Pending()), FirstNonBlank(old(Pending()));
              && c == (if k < |p| then p[k] else -1)
              && Pending() == (if k < |p| then p[k + 1..] else [])
              && position == old(position) + k + 1
    {
      ghost var p := Pending();
      ghost var i := 1;
      c := Read();
      while IsReadBlank(c)
        invariant Valid()
        invariant 1 <= i <= |p| + 1
        invariant c == (if i - 1 < |p| then p[i - 1] else -1)
        invariant Pending() == (if i <= |p| then p[i..] else [])
        invariant forall j | 0 <= j < i - 1 :: IsReadBlank(p[j])
        invariant position == old(position) + i
        decreases |p| + 1 - i
      {
        c := Read();
        i := i + 1;
      }
    }

    /** The chars of buf[from..limit], as ints. */
    ghost function CachedFrom(from: nat): seq<int> reads this, buf requires from <= limit <= buf.Length {
      buf[from..limit]
    }

    /** The scan of the cache in length(until): counts passing chars of buf[from..limit]. */
    method CountCached(until: CodeUnit -> bool, from: nat) returns (n: nat, stopped: bool)
      requires Valid() && from <= limit
      ensures n == LeadingCount(until, CachedFrom(from))
      ensures stopped <==> n < limit - from
    {
      var i := from;
      n := 0;
      while i < limit
        invariant from <= i <= limit && n == i - from
        invariant forall j | from <= j < i :: until(buf[j])
      {
        if !until(buf[i]) {
          LeadingCountStops(until, CachedFrom(from), n);
          return n, true;
        }
        i := i + 1;
        n := n + 1;
      }
      LeadingCountStops(until, CachedFrom(from), n);
      stopped := false;
    }

    /** The scan of the inner reader in length(until): mark, count the passing chars, reset. */
    method CountInner(until: CodeUnit -> bool) returns (n: nat)
      requires Valid()
      modifies inner`next, inner`mark
      ensures Valid() && inner.next == old(inner.next) && inner.mark == inner.next
      ensures n == LeadingCount(until, inner.Remaining())
    {
      var m := inner.Mark(0x7FFF_FFFF);
      n := 0;
      while true
        invariant inner.Valid() && inner.mark == old(inner.next) && inner.next == old(inner.next) + n
        invariant forall j | old(inner.next) <= j < inner.next :: until(inner.str[j])
        invariant inner.str == old(inner.str)
        decreases |inner.str| - inner.next
      {
        var ch := inner.Read();
        if ch == -1 || !until(ch) {
          inner.Reset();
          LeadingCountStops(until, inner.Remaining(), n);
          return;
        }
        n := n + 1;
      }
    }

    /** length(until), corrected: counts the pending chars that satisfy until, cursor unmoved. */
    method Length(until: CodeUnit -> bool) returns (length: int)
      requires Valid()
      modifies inner`next, inner`mark
      ensures Valid() && Pending() == old(Pending()) && inner.next == old(inner.next)
      ensures length == LeadingCount(until, old(Pending()))
    {
      ghost var p := Pending();
      var back: seq<int> := if stepBack then [latestRead] else [];
      var cached := CachedFrom(next);
      var rest: seq<int> := inner.Remaining();
      assert p == back + (cached + rest);
      LeadingCountAppend(until, back, cached + rest);
      LeadingCountAppend(until, cached, rest);
      if stepBack && (latestRead == -1 || !until(latestRead)) {
        assert LeadingCount(until, back) == 0;
        return 0;
      }
      assert LeadingCount(until, back) == |back|;
      var n, stopped := CountCached(until, next);
      if stopped {
        assert LeadingCount(until, cached + rest) == n;
        return |back| + n;
      }
      assert LeadingCount(until, cached + rest) == |cached| + LeadingCount(until, rest);
      var k := CountInner(until);
      length := |back| + n + k;
    }

    /** length(until) as written: see LengthAsWrittenValue. */
    method LengthAsWritten(until: CodeUnit -> bool) returns (length: int)
      requires Valid()
      modifies inner`next, inner`mark
      ensures Valid() && Pending() == old(Pending()) && inner.next == old(inner.next)
      ensures length == LengthAsWrittenValue(until, stepBack, latestRead, CachedFrom(next), old(inner.Remaining()))
    {
      ghost var cached := CachedFrom(next);
      ghost var rest: seq<int> := inner.Remaining();
      length := 0;
      if stepBack && !until(AsChar(latestRead)) { return length; }
      var from := next + (if stepBack then 1 else 0);
      ghost var scanned := if from <= limit then CachedFrom(from) else [];
      assert scanned == if stepBack && cached != [] then cached[1..] else if stepBack then [] else cached;
      assert LengthAsWrittenValue(until, stepBack, latestRead, cached, rest) == LeadingCount(until, scanned + rest);
      LeadingCountAppend(until, scanned, rest);
      var n := 0;
      if from <= limit {
        var stopped;
        n, stopped := CountCached(until, from);
        if stopped { return n; }
      }
      assert n == |scanned|;
      var k := CountInner(until);
      length := n + k;
    }

    /**
     * read(chars, off, len): takes a pending step-back, then reads the inner reader directly,
     * bypassing what the cache holds; the position advances by len whatever is read.
     */
    method ReadInto(chars: array<CodeUnit>, off: int, len: int) returns (r: Result<int>)
      requires Valid() && chars != buf
      modifies this, inner, chars
      ensures Valid() && next == old(next) && limit == old(limit) && latestRead == old(latestRead)
      ensures position == old(position) + len
      ensures !old(stepBack) ==> !stepBack && r == ReadIntoResult(|old(inner.Remaining())|, off, len, chars.Length)
      ensures old(stepBack) && !(0 <= off < chars.Length) ==> stepBack && r == Err(IndexOutOfBounds)
      ensures old(stepBack) && 0 <= off < chars.Length ==>
                && !stepBack && chars[off] == AsChar(old(latestRead))
                && var inner := ReadIntoResult(|old(inner.Remaining())|, off + 1, len - 1, chars.Length);
                   r == if inner.Ok? then Ok(inner.value + 1) else inner
      ensures var from := if old(stepBack) then off + 1 else off;
              var n := ReadIntoResult(|old(inner.Remaining())|, from, if old(stepBack) then len - 1 else len, chars.Length);
              n.Ok? && n.value > 0 && (old(stepBack) ==> 0 <= off < chars.Length) ==>
                chars[from..from + n.value] == old(inner.Remaining())[..n.value]
                && inner.Remaining() == old(inner.Remaining())[n.value..]
    {
      position := position + len;
      if stepBack {
        if !(0 <= off < chars.Length) { return Err(IndexOutOfBounds); }
        chars[off] := AsChar(latestRead);
        stepBack := false;
        var inner := inner.ReadInto(chars, off + 1, len - 1);
        if inner.Err? { return inner; }
        r := Ok(inner.value + 1);
      } else {
        r := inner.ReadInto(chars, off, len);
      }
    }

    /** skip(n): n single reads. */
    method Skip(n: int)
      requires Valid()
      modifies this, inner, buf
      ensures Valid()
      ensures var k := if n <= 0 then 0 else if n < |old(Pending())| then n else |old(Pending())|;
              Pending() == old(Pending())[k..]
      ensures position == old(position) + (if n <= 0 then 0 else n)
    {
      ghost var p := Pending();
      var i := 0;
      while i < n
        invariant Valid()
        invariant 0 <= i && (i == 0 || i <= n)
        invariant Pending() == p[if i < |p| then i else |p|..]
        invariant position == old(position) + i
      {
        var c := Read();
        i := i + 1;
      }
    }

    /** stepBack(): the last char read is delivered again by the next read, once. */
    method StepBack()
      requires Valid()
      modifies this`position, this`stepBack
      ensures Valid() && stepBack && position == old(position) - 1
      ensures Pending() == if old(stepBack) then old(Pending()) else [latestRead] + old(Pending())
    {
      position := position - 1;
      stepBack := true;
    }

    function GetPosition(): int reads this { position }
  }

  lemma FilledPrefix(filled: seq<CodeUnit>, str: seq<CodeUnit>, n0: nat, n1: nat)
    requires n0 + |filled| == n1 <= |str|
    requires forall k | 0 <= k < |filled| :: filled[k] == str[n0 + k]
    ensures filled + str[n1..] == str[n0..]
  {
    assert filled == str[n0..n1];
  }

  lemma {:induction false} LeadingCountAppend(until: CodeUnit -> bool, s: seq<int>, t: seq<int>)
    ensures LeadingCount(until, s + t) ==
              if LeadingCount(until, s) < |s| then LeadingCount(until, s) else |s| + LeadingCount(until, t)
  {
    if s != [] {
      assert (s + t)[1..] == s[1..] + t;
      LeadingCountAppend(until, s[1..], t);
    } else {
      assert s + t == t;
    }
  }

  lemma LeadingCountStops(until: CodeUnit -> bool, s: seq<int>, k: nat)
    requires k <= |s|
    requires forall i | 0 <= i < k :: 0 <= s[i] < 0x1_0000 && until(s[i])
    requires k < |s| ==> !(0 <= s[k] < 0x1_0000 && until(s[k]))
    ensures LeadingCount(until, s) == k
  {
    LeadingCountMeaning(until, s);
  }
}
