/**
 * Text helpers shared by the JSON encoder and the options emitter: joining
 * pieces with a separator, and decimal integers.
 */
module Strings {

  /** The pieces of `parts` in order, with `sep` between neighbours and nowhere else. */
  function Join(parts: seq<string>, sep: string): string
  {
    if |parts| == 0 then ""
    else if |parts| == 1 then parts[0]
    else Join(parts[..|parts| - 1], sep) + sep + parts[|parts| - 1]
  }

  /** Appending a piece appends a separator and the piece. */
  lemma JoinSnoc(parts: seq<string>, last: string, sep: string)
    ensures Join(parts + [last], sep) == if |parts| == 0 then last else Join(parts, sep) + sep + last
  {
    assert (parts + [last])[..|parts|] == parts;
  }

  /** A slice that falls inside the middle part of a concatenation. */
  lemma SliceOfMiddle<T>(a: seq<T>, b: seq<T>, c: seq<T>, i: nat, j: nat)
    requires i <= j <= |b|
    ensures (a + b + c)[|a| + i..|a| + j] == b[i..j]
  {
  }

  /** A slice that falls inside the first part of a concatenation. */
  lemma SliceOfFirst<T>(a: seq<T>, b: seq<T>, c: seq<T>, i: nat, j: nat)
    requires i <= j <= |a|
    ensures (a + b + c)[i..j] == a[i..j]
  {
  }

  /** The last part of a concatenation is its suffix. */
  lemma SuffixOfConcat<T>(a: seq<T>, b: seq<T>, c: seq<T>)
    ensures (a + b + c)[|a| + |b|..] == c
  {
  }

  /**
   * Appending piece i of n to a prefix that ends in a separator exactly when
   * 0 < i < n, and then a separator exactly when another piece follows, keeps
   * the text equal to the join of the pieces so far plus that pending separator.
   */
  lemma JoinStep(prefix: string, parts: seq<string>, last: string, sep: string, n: nat)
    requires |parts| < n
    ensures prefix + Join(parts, sep) + (if 0 < |parts| < n then sep else "") + last +
              (if |parts| + 1 < n then sep else "") ==
            prefix + Join(parts + [last], sep) + (if 0 < |parts| + 1 < n then sep else "")
  {
    JoinSnoc(parts, last, sep);
  }

  /** Sum of the lengths of the pieces. */
  function TotalLength(parts: seq<string>): nat
  {
    if |parts| == 0 then 0 else TotalLength(parts[..|parts| - 1]) + |parts[|parts| - 1]|
  }

  /** Where piece `k` starts inside `Join(parts, sep)`: after every earlier piece and one separator each. */
  function Offset(parts: seq<string>, sep: string, k: nat): nat
    requires k <= |parts|
  {
    if k == 0 then 0 else Offset(parts, sep, k - 1) + |parts[k - 1]| + |sep|
  }

  /** The offset of piece k depends only on the pieces before it. */
  lemma {:induction false} OffsetOfPrefix(parts: seq<string>, sep: string, m: nat, k: nat)
    requires k <= m <= |parts|
    ensures Offset(parts[..m], sep, k) == Offset(parts, sep, k)
  {
    if k > 0 {
      OffsetOfPrefix(parts, sep, m, k - 1);
    }
  }

  /** The last piece ends the joined text. */
  lemma {:induction false} JoinEnd(parts: seq<string>, sep: string)
    requires |parts| > 0
    ensures |Join(parts, sep)| == Offset(parts, sep, |parts| - 1) + |parts[|parts| - 1]|
  {
    var n := |parts|;
    if n > 1 {
      var init := parts[..n - 1];
      JoinEnd(init, sep);
      OffsetOfPrefix(parts, sep, n - 1, n - 2);
    }
  }

  /** n pieces are glued by exactly n - 1 separators. */
  lemma {:induction false} JoinLength(parts: seq<string>, sep: string)
    requires |parts| > 0
    ensures |Join(parts, sep)| == TotalLength(parts) + (|parts| - 1) * |sep|
  {
    var n := |parts|;
    if n > 1 {
      var init := parts[..n - 1];
      JoinLength(init, sep);
      assert |Join(parts, sep)| == |Join(init, sep)| + |sep| + |parts[n - 1]|;
      assert TotalLength(parts) == TotalLength(init) + |parts[n - 1]|;
      assert (n - 2) * |sep| + |sep| == (n - 1) * |sep|;
    }
  }

  /** Piece k of a join sits at Offset(parts, sep, k). */
  lemma {:induction false} JoinPieceAt(parts: seq<string>, sep: string, k: nat)
    requires k < |parts|
    ensures Offset(parts, sep, k) + |parts[k]| <= |Join(parts, sep)|
    ensures Join(parts, sep)[Offset(parts, sep, k)..Offset(parts, sep, k) + |parts[k]|] == parts[k]
  {
    var n := |parts|;
    JoinEnd(parts, sep);
    if k < n - 1 {
      var init := parts[..n - 1];
      JoinPieceAt(init, sep, k);
      OffsetOfPrefix(parts, sep, n - 1, k);
      SliceOfFirst(Join(init, sep), sep, parts[n - 1], Offset(parts, sep, k), Offset(parts, sep, k) + |parts[k]|);
    } else if n > 1 {
      var init := parts[..n - 1];
      JoinEnd(init, sep);
      OffsetOfPrefix(parts, sep, n - 1, n - 2);
      SuffixOfConcat(Join(init, sep), sep, parts[n - 1]);
    }
  }

  /** After every piece but the last comes a separator, and then the next piece. */
  lemma {:induction false} JoinSeparatorAfter(parts: seq<string>, sep: string, k: nat)
    requires k + 1 < |parts|
    ensures Offset(parts, sep, k + 1) <= |Join(parts, sep)|
    ensures Join(parts, sep)[Offset(parts, sep, k) + |parts[k]|..Offset(parts, sep, k + 1)] == sep
  {
    var n := |parts|;
    var init := parts[..n - 1];
    var ji := Join(init, sep);
    assert Join(parts, sep) == ji + sep + parts[n - 1];
    JoinEnd(init, sep);
    OffsetOfPrefix(parts, sep, n - 1, k + 1);
    if k + 1 < n - 1 {
      JoinSeparatorAfter(init, sep, k);
      OffsetOfPrefix(parts, sep, n - 1, k);
      SliceOfFirst(ji, sep, parts[n - 1], Offset(parts, sep, k) + |parts[k]|, Offset(parts, sep, k + 1));
    } else {
      SliceOfMiddle(ji, sep, parts[n - 1], 0, |sep|);
    }
  }

  /** The decimal digit for 0 <= d < 10. */
  function DigitChar(d: nat): char
    requires d < 10
  {
    "0123456789"[d]
  }

  /** The numeric value of a decimal digit character, or -1 for any other character. */
  function DigitValue(c: char): int
  {
    if '0' <= c <= '9' then c as int - '0' as int else -1
  }

  /** Decimal notation of a natural number, without leading zeros. */
  function NatToString(n: nat): string
  {
    if n < 10 then [DigitChar(n)] else NatToString(n / 10) + [DigitChar(n % 10)]
  }

  /** Decimal notation of an integer, with a leading '-' for negatives. */
  function IntToString(i: int): string
  {
    if i < 0 then "-" + NatToString(-i) else NatToString(i)
  }

  /** The value of a string of decimal digits. */
  function DigitsValue(s: string): int
  {
    if |s| == 0 then 0 else DigitsValue(s[..|s| - 1]) * 10 + DigitValue(s[|s| - 1])
  }

  predicate IsDigits(s: string)
  {
    |s| > 0 && forall k :: 0 <= k < |s| ==> '0' <= s[k] <= '9'
  }

  /** Digits read back as the number they stand for. */
  lemma DigitRoundTrip(d: nat)
    requires d < 10
    ensures '0' <= DigitChar(d) <= '9' && DigitValue(DigitChar(d)) == d
  {
  }

  /** Decimal notation is made of digits and has no superfluous leading zero. */
  lemma {:induction false} NatToStringDigits(n: nat)
    ensures IsDigits(NatToString(n))
    ensures |NatToString(n)| > 1 ==> NatToString(n)[0] != '0'
  {
    DigitRoundTrip(n % 10);
    if n >= 10 {
      NatToStringDigits(n / 10);
      var t := NatToString(n / 10);
      assert NatToString(n)[0] == t[0];
      assert forall k :: 0 <= k < |t| ==> NatToString(n)[k] == t[k];
    }
  }

  /** Decimal notation reads back as the number. */
  lemma {:induction false} NatToStringValue(n: nat)
    ensures DigitsValue(NatToString(n)) == n
  {
    DigitRoundTrip(n % 10);
    if n >= 10 {
      NatToStringValue(n / 10);
      var s := NatToString(n);
      assert s[..|s| - 1] == NatToString(n / 10);
    }
  }

  /** The sign is written exactly for negative numbers, and the rest reads back as the magnitude. */
  lemma IntToStringRoundTrip(i: int)
    ensures var s := IntToString(i);
      |s| > 0 && (s[0] == '-' <==> i < 0) &&
      (i < 0 ==> DigitsValue(s[1..]) == -i) && (i >= 0 ==> DigitsValue(s) == i)
  {
    NatToStringDigits(if i < 0 then -i else i);
    NatToStringValue(if i < 0 then -i else i);
    if i < 0 {
      assert IntToString(i)[1..] == NatToString(-i);
    }
  }
}
