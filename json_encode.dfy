/**
 * PHP's `json_encode` over the values of PhpValues, with and without the
 * JSON_FORCE_OBJECT flag. Encoding is split the way PHP does it: first each
 * array is classified as a JSON array or a JSON object (ToJson), then the
 * JSON document is written out (Serialize).
 */
module JsonEncode {
  import opened Wrappers
  import opened Strings
  import opened PhpValues

  /** A JSON document. */
  datatype Json =
    | JNull
    | JBool(b: bool)
    | JInt(i: int)
    | JString(s: string)
    | JArray(items: seq<Json>)
    | JObject(members: seq<(string, Json)>)

  /** A PHP array key as a JSON member name: integer keys are written in decimal. */
  function KeyText(k: Key): string
  {
    match k
    case IntKey(n) => IntToString(n)
    case StrKey(s) => s
  }

  /**
   * The JSON shape json_encode gives a value: an array that is a list
   * becomes a JSON array unless `forceObject` is set; every other array,
   * and with `forceObject` every array, becomes a JSON object.
   */
  function ToJson(v: Value, forceObject: bool): Json
  {
    match v
    case Null => JNull
    case Bool(b) => JBool(b)
    case Int(i) => JInt(i)
    case Str(s) => JString(s)
    case Arr(es) =>
      if !forceObject && IsList(es) then
        JArray(seq(|es|, k requires 0 <= k < |es| => ToJson(es[k].1, forceObject)))
      else
        JObject(seq(|es|, k requires 0 <= k < |es| => (KeyText(es[k].0), ToJson(es[k].1, forceObject))))
  }

  /**
   * Only arrays become JSON arrays or objects, an array becomes a JSON array
   * exactly when it is a list and objects are not forced, and either way it
   * keeps one item or member per entry.
   */
  lemma ToJsonShape(v: Value, forceObject: bool)
    ensures var j := ToJson(v, forceObject);
      ((j.JArray? || j.JObject?) <==> v.Arr?) &&
      (v.Arr? ==> (j.JArray? <==> !forceObject && IsList(v.entries))) &&
      (j.JArray? ==> |j.items| == |v.entries|) &&
      (j.JObject? ==> |j.members| == |v.entries|)
  {
  }

  /** No JSON array occurs anywhere in the document. */
  predicate NoArrays(j: Json)
  {
    match j
    case JArray(_) => false
    case JObject(ms) => forall k :: 0 <= k < |ms| ==> NoArrays(ms[k].1)
    case _ => true
  }

  /** No PHP array anywhere in the value is a list (the empty array is a list). */
  predicate NoLists(v: Value)
  {
    match v
    case Arr(es) => !IsList(es) && forall k :: 0 <= k < |es| ==> NoLists(es[k].1)
    case _ => true
  }

  /** With JSON_FORCE_OBJECT, every array at every depth is written as an object. */
  lemma {:induction false} ForceObjectHasNoArrays(v: Value)
    ensures NoArrays(ToJson(v, true))
  {
    match v
    case Arr(es) =>
      forall k | 0 <= k < |es|
        ensures NoArrays(ToJson(es[k].1, true))
      {
        ForceObjectHasNoArrays(es[k].1);
      }
    case _ =>
  }

  /** JSON_FORCE_OBJECT changes nothing for a value that contains no list. */
  lemma {:induction false} ForceObjectOnlyAffectsLists(v: Value)
    requires NoLists(v)
    ensures ToJson(v, true) == ToJson(v, false)
  {
    match v
    case Arr(es) =>
      forall k | 0 <= k < |es|
        ensures ToJson(es[k].1, true) == ToJson(es[k].1, false)
      {
        ForceObjectOnlyAffectsLists(es[k].1);
      }
    case _ =>
  }

  /**
   * With JSON_FORCE_OBJECT a list becomes an object whose members are named
   * "0", "1", ... after the positions and hold the items in their order.
   */
  lemma ForcedListMembers(es: seq<(Key, Value)>)
    requires IsList(es)
    ensures ToJson(Arr(es), true).JObject?
    ensures |ToJson(Arr(es), true).members| == |es|
    ensures forall k :: 0 <= k < |es| ==> ToJson(Arr(es), true).members[k] == (NatToString(k), ToJson(es[k].1, true))
  {
    forall k | 0 <= k < |es|
      ensures KeyText(es[k].0) == NatToString(k)
    {
      assert es[k].0 == IntKey(k);
    }
  }

  /** Without the flag a list becomes a JSON array of its items, in their order. */
  lemma ListItems(es: seq<(Key, Value)>)
    requires IsList(es)
    ensures ToJson(Arr(es), false).JArray?
    ensures |ToJson(Arr(es), false).items| == |es|
    ensures forall k :: 0 <= k < |es| ==> ToJson(Arr(es), false).items[k] == ToJson(es[k].1, false)
  {
  }

  /**
   * An array that is not a list becomes an object with or without the flag:
   * one member per entry, in order, named by the entry's key.
   */
  lemma NonListMembers(es: seq<(Key, Value)>, forceObject: bool)
    requires !IsList(es)
    ensures ToJson(Arr(es), forceObject).JObject?
    ensures |ToJson(Arr(es), forceObject).members| == |es|
    ensures forall k :: 0 <= k < |es| ==>
      ToJson(Arr(es), forceObject).members[k] == (KeyText(es[k].0), ToJson(es[k].1, forceObject))
  {
  }

  /** The lower-case hexadecimal digit for 0 <= d < 16. */
  function HexDigit(d: nat): char
    requires d < 16
  {
    "0123456789abcdef"[d]
  }

  /** The value of a hexadecimal digit character, or -1 for any other character. */
  function HexDigitValue(c: char): int
  {
    if '0' <= c <= '9' then c as int - '0' as int
    else if 'a' <= c <= 'f' then c as int - 'a' as int + 10
    else if 'A' <= c <= 'F' then c as int - 'A' as int + 10
    else -1
  }

  /** The value of a string of hexadecimal digits, or -1 if some character is not one. */
  function HexValue(s: string): int
  {
    if |s| == 0 then 0
    else
      var high := HexValue(s[..|s| - 1]);
      var low := HexDigitValue(s[|s| - 1]);
      if high < 0 || low < 0 then -1 else high * 16 + low
  }

  /** Four lower-case hexadecimal digits of n, most significant first. */
  function Hex4(n: nat): string
    requires n < 0x1_0000
  {
    [HexDigit(n / 16 / 16 / 16), HexDigit(n / 16 / 16 % 16), HexDigit(n / 16 % 16), HexDigit(n % 16)]
  }

  /** The escape `\uXXXX` of one UTF-16 code unit. */
  function UnitEscape(n: nat): string
    requires n < 0x1_0000
  {
    "\\u" + Hex4(n)
  }

  /**
   * The letter of the two-character escape json_encode writes for `c`, if any:
   * quote, backslash, slash, backspace, form feed, newline, carriage return, tab.
   */
  function ShortCode(c: char): Option<char>
  {
    if c == '"' then Some('"')
    else if c == '\\' then Some('\\')
    else if c == '/' then Some('/')
    else if c as int == 8 then Some('b')
    else if c as int == 12 then Some('f')
    else if c == '\n' then Some('n')
    else if c == '\r' then Some('r')
    else if c == '\t' then Some('t')
    else None
  }

  /**
   * The escapes of the UTF-16 surrogate pair of the character U+10000 + v:
   * the high ten bits of v go in the first, the low ten in the second.
   */
  function SurrogateEscape(v: nat): string
    requires v < 0x10_0000
  {
    UnitEscape(0xD800 + v / 0x400) + UnitEscape(0xDC00 + v % 0x400)
  }

  /** A character json_encode writes as itself: printable ASCII other than quote, backslash and slash. */
  predicate IsPlain(c: char)
  {
    0x20 <= c as int < 0x80 && ShortCode(c).None?
  }

  /**
   * How json_encode writes one character of a string, without flags: quote,
   * backslash and slash behind a backslash, the five short control escapes,
   * other control characters and everything outside ASCII as `\uXXXX`, the
   * latter as a UTF-16 surrogate pair above U+FFFF.
   */
  function EscapeChar(c: char): string
  {
    match ShortCode(c)
    case Some(x) => ['\\', x]
    case None =>
      if c as int < 0x20 || 0x80 <= c as int < 0x1_0000 then UnitEscape(c as int)
      else if c as int < 0x80 then [c]
      else SurrogateEscape(c as int - 0x1_0000)
  }

  /** A character is written as itself exactly when it is plain; otherwise an escape starting with a backslash. */
  lemma EscapeCharPlain(c: char)
    ensures EscapeChar(c) == [c] <==> IsPlain(c)
    ensures !IsPlain(c) ==> |EscapeChar(c)| >= 2 && EscapeChar(c)[0] == '\\'
  {
  }

  /** The inside of a JSON string literal for `s`. */
  function Escape(s: string): string
  {
    if |s| == 0 then "" else EscapeChar(s[0]) + Escape(s[1..])
  }

  /** The character a two-character escape `\x` stands for. */
  function ShortEscape(x: char): Option<char>
  {
    if x == '"' then Some('"')
    else if x == '\\' then Some('\\')
    else if x == '/' then Some('/')
    else if x == 'b' then Some(8 as char)
    else if x == 'f' then Some(12 as char)
    else if x == 'n' then Some('\n')
    else if x == 'r' then Some('\r')
    else if x == 't' then Some('\t')
    else None
  }

  function Prepend(c: char, rest: Option<string>): Option<string>
  {
    match rest
    case None => None
    case Some(s) => Some([c] + s)
  }

  /**
   * Reads the inside of a JSON string literal back, following the string
   * grammar of section 7 of RFC 8259; None when it is malformed. A raw double
   * quote would end the literal and a raw control character is not allowed,
   * so both are rejected. A high surrogate escape must be followed by a low
   * one, and the pair stands for one character above U+FFFF.
   */
  function Unescape(t: string): Option<string>
    decreases |t|
  {
    if |t| == 0 then Some("")
    else if t[0] == '"' || t[0] as int < 0x20 then None
    else if t[0] != '\\' then Prepend(t[0], Unescape(t[1..]))
    else if |t| == 1 then None
    else if t[1] == 'u' then
      if |t| < 6 then None
      else
        var code := HexValue(t[2..6]);
        if code < 0 || 0xDC00 <= code < 0xE000 || code >= 0x1_0000 then None
        else if 0xD800 <= code < 0xDC00 then
          if |t| < 12 || t[6] != '\\' || t[7] != 'u' then None
          else
            var low := HexValue(t[8..12]);
            if low < 0xDC00 || low >= 0xE000 then None
            else Prepend((0x1_0000 + (code - 0xD800) * 0x400 + (low - 0xDC00)) as char, Unescape(t[12..]))
        else Prepend(code as char, Unescape(t[6..]))
    else
      match ShortEscape(t[1])
      case None => None
      case Some(c) => Prepend(c, Unescape(t[2..]))
  }

  lemma HexDigitRoundTrip(d: nat)
    requires d < 16
    ensures HexDigitValue(HexDigit(d)) == d
  {
  }

  /** Four hexadecimal digits read back as the number they were written from. */
  lemma Hex4Value(n: nat)
    requires n < 0x1_0000
    ensures HexValue(Hex4(n)) == n
  {
    var n1 := n / 16;
    var n2 := n1 / 16;
    var d3, d2, d1, d0 := n2 / 16, n2 % 16, n1 % 16, n % 16;
    assert n2 == d3 * 16 + d2 && n1 == n2 * 16 + d1 && n == n1 * 16 + d0;
    HexDigitRoundTrip(d3);
    HexDigitRoundTrip(d2);
    HexDigitRoundTrip(d1);
    HexDigitRoundTrip(d0);
    var h := Hex4(n);
    assert h[..3][..2][..1][..0] == [];
    assert h[..3][..2][..1] == h[..1] && HexValue(h[..1]) == d3;
    assert h[..3][..2] == h[..2] && HexValue(h[..2]) == d3 * 16 + d2;
    assert h[..3] == h[..|h| - 1] && HexValue(h[..3]) == n2 * 16 + d1;
  }

  /** A `\uXXXX` escape of a character below U+10000 reads back as that character. */
  lemma UnescapeUnit(c: char, rest: string)
    requires c as int < 0x1_0000
    ensures Unescape(UnitEscape(c as int) + rest) == Prepend(c, Unescape(rest))
  {
    var t := UnitEscape(c as int) + rest;
    Hex4Value(c as int);
    assert t[2..6] == Hex4(c as int);
    assert t[6..] == rest;
  }

  /** Where the two halves of a pair of `\uXXXX` escapes sit in the text. */
  lemma PairLayout(high: nat, low: nat, rest: string, t: string)
    requires high < 0x1_0000 && low < 0x1_0000
    requires t == UnitEscape(high) + UnitEscape(low) + rest
    ensures |t| >= 12 && t[0] == '\\' && t[1] == 'u' && t[6] == '\\' && t[7] == 'u'
    ensures t[2..6] == Hex4(high) && t[8..12] == Hex4(low) && t[12..] == rest
  {
    assert t[2..6] == Hex4(high);
    assert t[8..12] == Hex4(low);
    assert t[12..] == rest;
  }

  /** A high and a low surrogate escape read back as the character they combine to. */
  lemma UnescapeSurrogates(high: nat, low: nat, rest: string)
    requires 0xD800 <= high < 0xDC00 <= low < 0xE000
    ensures Unescape(UnitEscape(high) + UnitEscape(low) + rest) ==
      Prepend((0x1_0000 + (high - 0xD800) * 0x400 + (low - 0xDC00)) as char, Unescape(rest))
  {
    var t := UnitEscape(high) + UnitEscape(low) + rest;
    PairLayout(high, low, rest, t);
    Hex4Value(high);
    Hex4Value(low);
  }

  /** A surrogate pair of escapes reads back as the character above U+FFFF it encodes. */
  lemma UnescapePair(c: char, rest: string)
    requires c as int >= 0x1_0000
    ensures Unescape(SurrogateEscape(c as int - 0x1_0000) + rest) == Prepend(c, Unescape(rest))
  {
    var v := c as int - 0x1_0000;
    var high, low := 0xD800 + v / 0x400, 0xDC00 + v % 0x400;
    assert v / 0x400 * 0x400 + v % 0x400 == v;
    UnescapeSurrogates(high, low, rest);
  }

  /** Reading a short escape letter back gives the character it was written for. */
  lemma ShortCodeRoundTrip(c: char)
    requires ShortCode(c).Some?
    ensures ShortCode(c).value != 'u' && ShortEscape(ShortCode(c).value) == Some(c)
    ensures 0x20 <= ShortCode(c).value as int < 0x7F
  {
  }

  /** A two-character escape reads back as the character it stands for. */
  lemma UnescapeShort(c: char, x: char, rest: string)
    requires x != 'u' && ShortEscape(x) == Some(c)
    ensures Unescape(['\\', x] + rest) == Prepend(c, Unescape(rest))
  {
    assert (['\\', x] + rest)[2..] == rest;
  }

  /** Unescaping undoes the escape of the first character. */
  lemma UnescapeEscapeChar(c: char, rest: string)
    ensures Unescape(EscapeChar(c) + rest) == Prepend(c, Unescape(rest))
  {
    if ShortCode(c).Some? {
      ShortCodeRoundTrip(c);
      UnescapeShort(c, ShortCode(c).value, rest);
    } else if c as int < 0x20 || 0x80 <= c as int < 0x1_0000 {
      UnescapeUnit(c, rest);
    } else if c as int < 0x80 {
      assert ([c] + rest)[1..] == rest;
    } else {
      UnescapePair(c, rest);
    }
  }

  /** Printable ASCII: from the space up to the tilde. */
  predicate IsPrintableAscii(s: string)
  {
    forall k :: 0 <= k < |s| ==> 0x20 <= s[k] as int < 0x7F
  }

  /** A hexadecimal digit is printable ASCII. */
  lemma HexDigitPrintable(d: nat)
    requires d < 16
    ensures 0x20 <= HexDigit(d) as int < 0x7F
  {
  }

  /** A `\uXXXX` escape is printable ASCII. */
  lemma UnitEscapePrintable(n: nat)
    requires n < 0x1_0000
    ensures IsPrintableAscii(UnitEscape(n))
  {
    HexDigitPrintable(n / 16 / 16 / 16);
    HexDigitPrintable(n / 16 / 16 % 16);
    HexDigitPrintable(n / 16 % 16);
    HexDigitPrintable(n % 16);
  }

  /** Printable ASCII text stays so when concatenated. */
  lemma ConcatPrintable(a: string, b: string)
    requires IsPrintableAscii(a) && IsPrintableAscii(b)
    ensures IsPrintableAscii(a + b)
  {
    assert forall k :: |a| <= k < |a + b| ==> (a + b)[k] == b[k - |a|];
  }

  /** The surrogate pair escape of a character above U+FFFF is printable ASCII. */
  lemma PairPrintable(v: nat)
    requires v < 0x10_0000
    ensures IsPrintableAscii(SurrogateEscape(v))
  {
    UnitEscapePrintable(0xD800 + v / 0x400);
    UnitEscapePrintable(0xDC00 + v % 0x400);
    ConcatPrintable(UnitEscape(0xD800 + v / 0x400), UnitEscape(0xDC00 + v % 0x400));
  }

  /** The escape of one character is printable ASCII, except a DEL, which is written as itself. */
  lemma EscapeCharPrintable(c: char)
    requires c as int != 0x7F
    ensures IsPrintableAscii(EscapeChar(c))
  {
    var e := EscapeChar(c);
    match ShortCode(c)
    case Some(x) =>
      ShortCodeRoundTrip(c);
      assert e == ['\\', x];
    case None =>
      if c as int < 0x20 || 0x80 <= c as int < 0x1_0000 {
        assert e == UnitEscape(c as int);
        UnitEscapePrintable(c as int);
      } else if c as int < 0x80 {
        assert e == [c];
      } else {
        PairPrintable(c as int - 0x1_0000);
      }
  }

  /** Without flags json_encode writes strings in printable ASCII; only a DEL passes through raw. */
  lemma {:induction false} EscapePrintable(s: string)
    requires forall k :: 0 <= k < |s| ==> s[k] as int != 0x7F
    ensures IsPrintableAscii(Escape(s))
  {
    if |s| > 0 {
      EscapeCharPrintable(s[0]);
      EscapePrintable(s[1..]);
    }
  }

  /** A raw double quote or control character makes the inside of a string literal malformed. */
  lemma UnescapeRejectsRaw(c: char, rest: string)
    requires c == '"' || c as int < 0x20
    ensures Unescape([c] + rest) == None
  {
  }

  /** json_encode's string escaping loses nothing: unescaping gives the string back. */
  lemma {:induction false} EscapeRoundTrip(s: string)
    ensures Unescape(Escape(s)) == Some(s)
  {
    if |s| > 0 {
      EscapeRoundTrip(s[1..]);
      UnescapeEscapeChar(s[0], Escape(s[1..]));
      assert [s[0]] + s[1..] == s;
    }
  }

  /**
   * Escaping never shortens a string, and leaves it unchanged exactly when
   * every character is plain.
   */
  lemma {:induction false} EscapeUnchanged(s: string)
    ensures |Escape(s)| >= |s|
    ensures |Escape(s)| == |s| <==> forall k :: 0 <= k < |s| ==> IsPlain(s[k])
    ensures Escape(s) == s <==> forall k :: 0 <= k < |s| ==> IsPlain(s[k])
  {
    if |s| > 0 {
      var rest := s[1..];
      EscapeCharPlain(s[0]);
      EscapeUnchanged(rest);
      assert forall k :: 0 < k < |s| ==> rest[k - 1] == s[k];
      assert s == [s[0]] + rest;
    }
  }

  /** A JSON string literal. */
  function Quote(s: string): string
  {
    "\"" + Escape(s) + "\""
  }

  /** The text of a JSON document, without any whitespace, as json_encode writes it. */
  function Serialize(j: Json): string
  {
    match j
    case JNull => "null"
    case JBool(b) => if b then "true" else "false"
    case JInt(i) => IntToString(i)
    case JString(s) => Quote(s)
    case JArray(items) =>
      "[" + Join(seq(|items|, k requires 0 <= k < |items| => Serialize(items[k])), ",") + "]"
    case JObject(ms) =>
      "{" + Join(seq(|ms|, k requires 0 <= k < |ms| => Quote(ms[k].0) + ":" + Serialize(ms[k].1)), ",") + "}"
  }

  /** A string is written between double quotes, an array between brackets, an object between braces. */
  lemma SerializeDelimiters(j: Json)
    ensures var r := Serialize(j);
      |r| >= 1 &&
      (j.JString? ==> |r| >= 2 && r[0] == '"' && r[|r| - 1] == '"') &&
      (j.JArray? ==> |r| >= 2 && r[0] == '[' && r[|r| - 1] == ']') &&
      (j.JObject? ==> |r| >= 2 && r[0] == '{' && r[|r| - 1] == '}')
  {
  }

  /** `json_encode($v)`, or `json_encode($v, JSON_FORCE_OBJECT)` when `forceObject` holds. */
  function Encode(v: Value, forceObject: bool): string
  {
    Serialize(ToJson(v, forceObject))
  }

  /**
   * An encoded array opens with '[' exactly when it is a list and objects
   * are not forced, and with '{' otherwise; its closing bracket matches.
   */
  lemma ArrayDelimiters(es: seq<(Key, Value)>, forceObject: bool)
    ensures var e := Encode(Arr(es), forceObject);
      |e| >= 2 &&
      (e[0] == '[' <==> !forceObject && IsList(es)) &&
      (e[0] == '[' || e[0] == '{') &&
      e[|e| - 1] == (if e[0] == '[' then ']' else '}')
  {
  }
}
