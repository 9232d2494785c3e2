/** Hexadecimal digit values: a 128-entry lookup table and a range-test variant. */
module Hex {
  import opened JavaText

  const LowerDigits: string := "0123456789abcdef"
  const UpperDigits: string := "0123456789ABCDEF"

  /** ch is a hex digit, in either case: one of the three ranges the table fills. */
  predicate IsHexDigit(ch: int) {
    '0' as int <= ch <= '9' as int || 'a' as int <= ch <= 'f' as int || 'A' as int <= ch <= 'F' as int
  }

  /** The three ranges hold exactly the sixteen digits of either digit string. */
  lemma HexDigitListed(ch: int)
    ensures IsHexDigit(ch) <==> exists k | 0 <= k < 16 :: LowerDigits[k] as int == ch || UpperDigits[k] as int == ch
  {
    if '0' as int <= ch <= '9' as int {
      assert LowerDigits[ch - '0' as int] as int == ch;
    } else if 'a' as int <= ch <= 'f' as int {
      assert LowerDigits[10 + ch - 'a' as int] as int == ch;
    } else if 'A' as int <= ch <= 'F' as int {
      assert UpperDigits[10 + ch - 'A' as int] as int == ch;
    } else {
      assert forall k | 0 <= k < 16 :: LowerDigits[k] as int != ch && UpperDigits[k] as int != ch;
    }
  }

  /** The entry the static initializer stores at index i of the table. */
  function TableValue(i: int): (r: int)
    ensures -1 <= r < 16
    ensures r == -1 <==> !IsHexDigit(i)
    ensures r != -1 ==> LowerDigits[r] as int == i || UpperDigits[r] as int == i
  {
    if '0' as int <= i <= '9' as int then
      assert LowerDigits[i - '0' as int] as int == i;
      i - '0' as int
    else if 'A' as int <= i <= 'F' as int then
      assert UpperDigits[10 + i - 'A' as int] as int == i;
      10 + i - 'A' as int
    else if 'a' as int <= i <= 'f' as int then
      assert LowerDigits[10 + i - 'a' as int] as int == i;
      10 + i - 'a' as int
    else
      -1
  }

  /** A table as the static initializer leaves it. */
  ghost predicate IsTable(tbl: array<int>) reads tbl {
    tbl.Length == 128 && forall i | 0 <= i < 128 :: tbl[i] == TableValue(i)
  }

  /** The static initializer: fill with -1, then the three digit ranges. */
  method InitTable() returns (tbl: array<int>)
    ensures fresh(tbl) && IsTable(tbl)
  {
    tbl := new int[128](_ => -1);
    var i := '0' as int;
    while i <= '9' as int
      invariant '0' as int <= i <= '9' as int + 1
      invariant forall k | 0 <= k < 128 :: tbl[k] == if '0' as int <= k < i then k - '0' as int else -1
    {
      tbl[i] := i - '0' as int;
      i := i + 1;
    }
    i := 'A' as int;
    while i <= 'F' as int
      invariant 'A' as int <= i <= 'F' as int + 1
      invariant forall k | 0 <= k < 128 :: tbl[k] == (
                    if '0' as int <= k <= '9' as int then k - '0' as int
                    else if 'A' as int <= k < i then 10 + k - 'A' as int else -1)
    {
      tbl[i] := 10 + i - 'A' as int;
      i := i + 1;
    }
    i := 'a' as int;
    while i <= 'f' as int
      invariant 'a' as int <= i <= 'f' as int + 1
      invariant forall k | 0 <= k < 128 :: tbl[k] == (
                    if '0' as int <= k <= '9' as int then k - '0' as int
                    else if 'A' as int <= k <= 'F' as int then 10 + k - 'A' as int
                    else if 'a' as int <= k < i then 10 + k - 'a' as int else -1)
    {
      tbl[i] := 10 + i - 'a' as int;
      i := i + 1;
    }
  }

  /** What digit(ch) returns: the table entry inside the table's range, -1 outside it. */
  function DigitValue(ch: int): (r: int)
    ensures -1 <= r < 16
    ensures r == -1 <==> !IsHexDigit(ch)
    ensures r != -1 ==> LowerDigits[r] as int == ch || UpperDigits[r] as int == ch
  {
    if 0 <= ch < 128 then TableValue(ch) else -1
  }

  /** Hex.digit: looks ch up in the initialised table. */
  function Digit(tbl: array<int>, ch: int): (r: int)
    reads tbl
    requires IsTable(tbl)
    ensures r == DigitValue(ch)
    ensures r == -1 <==> !IsHexDigit(ch)
  {
    if 0 <= ch < tbl.Length then tbl[ch] else -1
  }

  /** Hex.deHex: the same digit values as the table, by explicit range tests. */
  function DeHex(c: CodeUnit): (r: int)
    ensures r == DigitValue(c)
  {
    if '0' as int <= c <= '9' as int then c - '0' as int
    else if 'A' as int <= c <= 'F' as int then c - ('A' as int - 10)
    else if 'a' as int <= c <= 'f' as int then c - ('a' as int - 10)
    else -1
  }
}
