/** The string primitives of JavaScript that the site's handlers rely on:
    `trim`, `toLowerCase`, `includes`, `split`, `replace` with a character
    class, and `parseInt`. Strings are sequences of Unicode characters. */
module Text {
  import opened Wrappers
  import Seqs

  /** The characters that `\s`, `trim` and `parseInt` treat as white space:
      ECMAScript's WhiteSpace and LineTerminator productions. */
  predicate IsSpace(c: char)
  {
    || c == '\U{0009}' || c == '\U{000A}' || c == '\U{000B}' || c == '\U{000C}'
    || c == '\U{000D}' || c == '\U{0020}' || c == '\U{00A0}' || c == '\U{1680}'
    || ('\U{2000}' <= c <= '\U{200A}')
    || c == '\U{2028}' || c == '\U{2029}' || c == '\U{202F}' || c == '\U{205F}'
    || c == '\U{3000}' || c == '\U{FEFF}'
  }

  predicate AllSpace(s: string)
  {
    forall i :: 0 <= i < |s| ==> IsSpace(s[i])
  }

  /** `s.trimStart()`: the suffix of `s` left after the leading white space. */
  function TrimStart(s: string): (r: string)
    ensures |r| <= |s| && r == s[|s| - |r|..]
    ensures AllSpace(s[..|s| - |r|])
    ensures r == [] || !IsSpace(r[0])
  {
    if s != [] && IsSpace(s[0]) then TrimStart(s[1..]) else s
  }

  /** `s.trimEnd()`: the prefix of `s` left before the trailing white space. */
  function TrimEnd(s: string): (r: string)
    ensures |r| <= |s| && r == s[..|r|]
    ensures AllSpace(s[|r|..])
    ensures r == [] || !IsSpace(r[|r| - 1])
  {
    if s != [] && IsSpace(s[|s| - 1]) then TrimEnd(s[..|s| - 1]) else s
  }

  /** `s.trim()`. */
  function Trim(s: string): string
  {
    TrimEnd(TrimStart(s))
  }

  /** `!s.trim()` holds exactly when every character of `s` is white space. */
  lemma TrimEmptyIffAllSpace(s: string)
    ensures Trim(s) == [] <==> AllSpace(s)
  {
    var u := TrimStart(s);
    if u == [] {
      assert s[..|s|] == s;
    } else {
      assert s[|s| - |u|] == u[0];
      assert u[0..] == u;
    }
  }

  /** ASCII case folding; other characters are kept. */
  function LowerChar(c: char): char
  {
    if 'A' <= c <= 'Z' then (c as int - 'A' as int + 'a' as int) as char else c
  }

  /** `s.toLowerCase()`, restricted to the ASCII letters. */
  function Lower(s: string): (r: string)
    ensures |r| == |s|
    ensures forall i :: 0 <= i < |s| ==> r[i] == LowerChar(s[i])
  {
    seq(|s|, i requires 0 <= i < |s| => LowerChar(s[i]))
  }

  predicate IsPrefix(p: string, s: string)
  {
    |p| <= |s| && s[..|p|] == p
  }

  /** `needle` occurs in `hay` starting at index `i`. */
  predicate OccursAt(hay: string, needle: string, i: int)
  {
    0 <= i <= |hay| - |needle| && hay[i..i + |needle|] == needle
  }

  /** `hay.includes(needle)`: `needle` occurs somewhere in `hay`. */
  function Includes(hay: string, needle: string): (b: bool)
    ensures b <==> exists i :: OccursAt(hay, needle, i)
  {
    if IsPrefix(needle, hay) then
      assert OccursAt(hay, needle, 0);
      true
    else if hay == [] then
      false
    else
      var b := Includes(hay[1..], needle);
      if b then
        var i :| OccursAt(hay[1..], needle, i);
        assert OccursAt(hay, needle, i + 1);
        true
      else
        assert forall i :: OccursAt(hay, needle, i) ==> i == 0 || OccursAt(hay[1..], needle, i - 1);
        false
  }

  /** Every string contains the empty string, so an empty search term matches. */
  lemma IncludesEmpty(hay: string)
    ensures Includes(hay, "")
  {
    assert OccursAt(hay, "", 0);
  }

  /** `parts.join([sep])`. */
  function Join(parts: seq<string>, sep: char): string
  {
    if parts == [] then ""
    else if |parts| == 1 then parts[0]
    else parts[0] + [sep] + Join(parts[1..], sep)
  }

  /** `s.split(sep)` for a one-character separator: the maximal runs of
      non-separator characters, with an empty part next to each separator at
      either end or between two adjacent separators. */
  function Split(s: string, sep: char): (parts: seq<string>)
    ensures |parts| >= 1
    ensures forall i :: 0 <= i < |parts| ==> sep !in parts[i]
    ensures Join(parts, sep) == s
  {
    if s == [] then [""]
    else
      var rest := Split(s[1..], sep);
      if s[0] == sep then
        assert s == [sep] + s[1..];
        [""] + rest
      else
        var parts := [[s[0]] + rest[0]] + rest[1..];
        assert parts[1..] == rest[1..];
        assert s == [s[0]] + s[1..];
        if |rest| == 1 then parts
        else
          assert rest == [rest[0]] + rest[1..];
          parts
  }

  /** Splitting a join of separator-free parts gives the parts back. */
  lemma {:induction false} SplitJoin(parts: seq<string>, sep: char)
    requires |parts| >= 1
    requires forall i :: 0 <= i < |parts| ==> sep !in parts[i]
    ensures Split(Join(parts, sep), sep) == parts
  {
    if |parts| == 1 {
      SplitNoSeparator(parts[0], sep);
    } else {
      SplitJoin(parts[1..], sep);
      SplitPrefix(parts[0], Join(parts[1..], sep), sep);
      assert parts == [parts[0]] + parts[1..];
    }
  }

  lemma {:induction false} SplitNoSeparator(s: string, sep: char)
    requires sep !in s
    ensures Split(s, sep) == [s]
  {
    if s != [] {
      SplitNoSeparator(s[1..], sep);
    }
  }

  lemma {:induction false} SplitPrefix(p: string, s: string, sep: char)
    requires sep !in p
    ensures Split(p + [sep] + s, sep) == [p] + Split(s, sep)
  {
    if p == [] {
      assert ([sep] + s)[1..] == s;
    } else {
      var t := p + [sep] + s;
      assert t[0] == p[0] && t[0] != sep;
      assert t[1..] == p[1..] + [sep] + s;
      SplitPrefix(p[1..], s, sep);
      var rest := Split(t[1..], sep);
      assert rest[0] == p[1..] && rest[1..] == Split(s, sep);
      assert Split(t, sep) == [[t[0]] + rest[0]] + rest[1..];
      assert [t[0]] + rest[0] == p;
    }
  }

  /** `s.replace(/[...]/g, '')`: drops every character of the class, given
      by its membership test. */
  function RemoveAll(s: string, drop: char -> bool): (r: string)
    ensures |r| <= |s|
  {
    if s == [] then "" else (if drop(s[0]) then "" else [s[0]]) + RemoveAll(s[1..], drop)
  }

  function Outside(drop: char -> bool): char -> bool
  {
    (c: char) => !drop(c)
  }

  /** Removing a character class is filtering by its complement, so the
      result keeps the other characters, in order and with their
      multiplicities. */
  lemma {:induction false} RemoveAllIsFilter(s: string, drop: char -> bool)
    ensures RemoveAll(s, drop) == Seqs.Filter(s, Outside(drop))
  {
    if s != [] {
      RemoveAllIsFilter(s[1..], drop);
    }
  }

  lemma {:induction false} RemoveAllConcat(a: string, b: string, drop: char -> bool)
    ensures RemoveAll(a + b, drop) == RemoveAll(a, drop) + RemoveAll(b, drop)
  {
    if a == [] {
      assert a + b == b;
    } else {
      var head := if drop(a[0]) then "" else [a[0]];
      RemoveAllConcat(a[1..], b, drop);
      assert (a + b)[0] == a[0] && (a + b)[1..] == a[1..] + b;
      assert RemoveAll(a + b, drop) == head + RemoveAll(a[1..] + b, drop);
      assert RemoveAll(a, drop) == head + RemoveAll(a[1..], drop);
    }
  }

  /** Text with no character of the class is left as it is. */
  lemma {:induction false} RemoveAllNone(s: string, drop: char -> bool)
    requires forall i :: 0 <= i < |s| ==> !drop(s[i])
    ensures RemoveAll(s, drop) == s
  {
    if s != [] {
      RemoveAllNone(s[1..], drop);
    }
  }

  /** Text made only of characters of the class disappears. */
  lemma {:induction false} RemoveAllEvery(s: string, drop: char -> bool)
    requires forall i :: 0 <= i < |s| ==> drop(s[i])
    ensures RemoveAll(s, drop) == ""
  {
    if s != [] {
      RemoveAllEvery(s[1..], drop);
    }
  }

  predicate IsDigit(c: char, radix: nat)
  {
    if '0' <= c <= '9' then c as int - '0' as int < radix
    else if 'a' <= c <= 'z' then c as int - 'a' as int + 10 < radix
    else if 'A' <= c <= 'Z' then c as int - 'A' as int + 10 < radix
    else false
  }

  function DigitValue(c: char): nat
  {
    if '0' <= c <= '9' then c as int - '0' as int
    else if 'a' <= c <= 'z' then c as int - 'a' as int + 10
    else if 'A' <= c <= 'Z' then c as int - 'A' as int + 10
    else 0
  }

  /** The longest prefix of `s` made of digits of the radix. */
  function DigitPrefix(s: string, radix: nat): (ds: string)
    ensures IsPrefix(ds, s)
    ensures forall i :: 0 <= i < |ds| ==> IsDigit(ds[i], radix)
    ensures |ds| < |s| ==> !IsDigit(s[|ds|], radix)
  {
    if s != [] && IsDigit(s[0], radix) then [s[0]] + DigitPrefix(s[1..], radix) else []
  }

  /** The value of a digit string, most significant digit first. */
  function Value(ds: string, radix: nat): nat
  {
    if ds == [] then 0 else Value(ds[..|ds| - 1], radix) * radix + DigitValue(ds[|ds| - 1])
  }

  /** The global `parseInt(s)` with no radix argument: skip leading white
      space, take an optional sign and an optional `0x`/`0X` prefix (radix 16,
      otherwise 10), then read the longest run of digits. No digits gives
      `NaN`, which is `None` here. */
  function ParseInt(s: string): Option<int>
  {
    ParseTrimmed(TrimStart(s))
  }

  /** `parseInt` after the leading white space is skipped: a `-` negates
      what follows, a `+` is dropped. */
  function ParseTrimmed(t: string): Option<int>
  {
    if |t| > 0 && t[0] == '-' then
      match ParseUnsigned(t[1..])
      case None => None
      case Some(v) => Some(-v)
    else if |t| > 0 && t[0] == '+' then ParseUnsigned(t[1..])
    else ParseUnsigned(t)
  }

  /** The digits after the sign: hexadecimal behind `0x` or `0X`, decimal
      otherwise. */
  function ParseUnsigned(u: string): Option<int>
  {
    var hex := |u| >= 2 && u[0] == '0' && (u[1] == 'x' || u[1] == 'X');
    var radix := if hex then 16 else 10;
    var ds := DigitPrefix(if hex then u[2..] else u, radix);
    if ds == [] then None else Some(Value(ds, radix))
  }

  lemma {:induction false} TrimStartSpace(ws: string, s: string)
    requires AllSpace(ws)
    ensures TrimStart(ws + s) == TrimStart(s)
  {
    if ws != [] {
      var t := ws + s;
      assert t[0] == ws[0] && t[1..] == ws[1..] + s;
      assert TrimStart(t) == TrimStart(t[1..]) by {
        assert IsSpace(t[0]);
      }
      TrimStartSpace(ws[1..], s);
    } else {
      assert ws + s == s;
    }
  }

  /** `parseInt` ignores leading white space. */
  lemma ParseSkipsSpace(ws: string, s: string)
    requires AllSpace(ws)
    ensures ParseInt(ws + s) == ParseInt(s)
  {
    TrimStartSpace(ws, s);
  }

  /** One more low-order decimal digit. */
  lemma ValueStep(ds: string, c: char)
    ensures Value(ds + [c], 10) == Value(ds, 10) * 10 + DigitValue(c)
  {
    assert (ds + [c])[..|ds|] == ds;
  }

  /** Decimal rendering of a natural number, the inverse partner of `Value`. */
  function ShowNat(n: nat): (s: string)
    ensures |s| >= 1
    ensures forall i :: 0 <= i < |s| ==> '0' <= s[i] <= '9'
  {
    var d := ['0' + (n % 10) as char];
    if n < 10 then d else ShowNat(n / 10) + d
  }

  /** `String(n)` for an integer. */
  function Show(n: int): string
  {
    if n < 0 then "-" + ShowNat(-n) else ShowNat(n)
  }

  lemma {:induction false} ValueShowNat(n: nat)
    ensures Value(ShowNat(n), 10) == n
  {
    var s := ShowNat(n);
    if n >= 10 {
      ValueShowNat(n / 10);
      assert s[..|s| - 1] == ShowNat(n / 10);
    }
  }

  lemma DigitPrefixAll(s: string, radix: nat)
    requires forall i :: 0 <= i < |s| ==> IsDigit(s[i], radix)
    ensures DigitPrefix(s, radix) == s
  {
  }

  predicate IsDecimal(digits: string)
  {
    |digits| >= 1 && forall i :: 0 <= i < |digits| ==> '0' <= digits[i] <= '9'
  }

  /** Text that does not start with white space is parsed as it is. */
  lemma ParseUnpadded(s: string)
    requires s != [] && !IsSpace(s[0])
    ensures ParseInt(s) == ParseTrimmed(s)
  {
    assert TrimStart(s) == s;
  }

  /** A run of decimal digits, read after the sign, is its value. */
  lemma UnsignedDecimal(digits: string)
    requires IsDecimal(digits)
    ensures ParseUnsigned(digits) == Some(Value(digits, 10) as int)
  {
    DigitPrefixAll(digits, 10);
    assert |digits| >= 2 ==> digits[1] != 'x' && digits[1] != 'X';
  }

  /** A run of decimal digits parses to its value. */
  lemma ParseDecimal(digits: string)
    requires IsDecimal(digits)
    ensures ParseInt(digits) == Some(Value(digits, 10) as int)
  {
    ParseUnpadded(digits);
    UnsignedDecimal(digits);
    assert digits[0] != '-' && digits[0] != '+';
  }

  /** A leading minus sign negates what the rest parses to. */
  lemma ParseMinus(u: string)
    ensures ParseInt("-" + u) == (match ParseUnsigned(u) case None => None case Some(v) => Some(-v))
  {
    var m := "-" + u;
    assert m[0] == '-' && m[1..] == u;
    assert TrimStart(m) == m;
  }

  /** A minus sign followed by text that parses to `v` parses to `-v`. */
  lemma ParseNegative(u: string, v: int)
    requires ParseUnsigned(u) == Some(v)
    ensures ParseInt("-" + u) == Some(-v)
  {
    ParseMinus(u);
  }

  /** `parseInt` reads back every integer that `String` writes. */
  lemma ParseShow(n: int)
    ensures ParseInt(Show(n)) == Some(n)
  {
    if n < 0 {
      ParseShowNegative(n);
    } else {
      ParseShowNatural(n);
    }
  }

  lemma ParseShowNatural(n: nat)
    ensures ParseInt(Show(n)) == Some(n)
  {
    ValueShowNat(n);
    ParseDecimal(ShowNat(n));
  }

  lemma ParseShowNegative(n: int)
    requires n < 0
    ensures ParseInt(Show(n)) == Some(n)
  {
    var digits := ShowNat(-n);
    assert ParseUnsigned(digits) == Some(-n) by {
      ValueShowNat(-n);
      UnsignedDecimal(digits);
    }
    assert Show(n) == "-" + digits;
    ParseNegative(digits, -n);
  }
}
