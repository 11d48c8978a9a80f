/** The string operations of JavaScript that the pages and scripts rely on:
    `trim`, `includes`, `split` on one character, `padStart`, number-to-string
    conversion and `parseInt` without a radix. Strings are sequences of Unicode
    scalar values. */
module Text {
  import opened Common

  /** The code points `String.prototype.trim` removes: ECMAScript WhiteSpace
      (TAB, VT, FF, SP, NBSP, ZWNBSP and the Zs category) and LineTerminator. */
  predicate IsJsSpace(c: char) {
    c == '\t' || c == '\n' || c == '\U{000B}' || c == '\U{000C}' || c == '\r' ||
    c == ' ' || c == '\U{00A0}' || c == '\U{1680}' || ('\U{2000}' <= c <= '\U{200A}') ||
    c == '\U{2028}' || c == '\U{2029}' || c == '\U{202F}' || c == '\U{205F}' ||
    c == '\U{3000}' || c == '\U{FEFF}'
  }

  predicate IsBlank(s: string) {
    forall k :: 0 <= k < |s| ==> IsJsSpace(s[k])
  }

  /** `s` without its leading white space. */
  function TrimStart(s: string): (r: string)
    ensures |r| <= |s|
    ensures r != [] ==> !IsJsSpace(r[0])
    decreases |s|
  {
    if s != [] && IsJsSpace(s[0]) then TrimStart(s[1..]) else s
  }

  /** What `TrimStart` keeps is a suffix of its argument. */
  lemma {:induction false} TrimStartIsSuffix(s: string)
    ensures TrimStart(s) == s[|s| - |TrimStart(s)|..]
    decreases |s|
  {
    if s != [] && IsJsSpace(s[0]) {
      TrimStartIsSuffix(s[1..]);
      var r := TrimStart(s);
      assert s[1..][|s| - 1 - |r|..] == s[|s| - |r|..];
    }
  }

  /** `s` without its trailing white space. */
  function TrimEnd(s: string): (r: string)
    ensures |r| <= |s|
    ensures r != [] ==> !IsJsSpace(r[|r| - 1])
    decreases |s|
  {
    if s != [] && IsJsSpace(s[|s| - 1]) then TrimEnd(s[..|s| - 1]) else s
  }

  /** What `TrimEnd` keeps is a prefix of its argument. */
  lemma {:induction false} TrimEndIsPrefix(s: string)
    ensures TrimEnd(s) == s[..|TrimEnd(s)|]
    decreases |s|
  {
    if s != [] && IsJsSpace(s[|s| - 1]) {
      TrimEndIsPrefix(s[..|s| - 1]);
      var r := TrimEnd(s);
      assert s[..|s| - 1][..|r|] == s[..|r|];
    }
  }

  /** `s.trim()`. */
  function Trim(s: string): (r: string)
    ensures r != [] ==> !IsJsSpace(r[0]) && !IsJsSpace(r[|r| - 1])
  {
    var t := TrimStart(s);
    TrimEndIsPrefix(t);
    TrimEnd(t)
  }

  /** `TrimStart` removes white space only. */
  lemma {:induction false} TrimStartDropsBlank(s: string)
    ensures IsBlank(s[..|s| - |TrimStart(s)|])
    decreases |s|
  {
    if s != [] && IsJsSpace(s[0]) {
      TrimStartDropsBlank(s[1..]);
      var n := |s| - |TrimStart(s)|;
      assert s[..n] == [s[0]] + s[1..][..n - 1];
    }
  }

  /** `TrimEnd` removes white space only. */
  lemma {:induction false} TrimEndDropsBlank(s: string)
    ensures IsBlank(s[|TrimEnd(s)|..])
    decreases |s|
  {
    if s != [] && IsJsSpace(s[|s| - 1]) {
      TrimEndDropsBlank(s[..|s| - 1]);
      var n := |TrimEnd(s)|;
      assert s[n..] == s[..|s| - 1][n..] + [s[|s| - 1]];
    }
  }

  /** What `trim` removes is white space at either end, and only that. */
  lemma TrimIsInfix(s: string)
    ensures exists i, j {:trigger s[i..j]} :: 0 <= i <= j <= |s| && Trim(s) == s[i..j] &&
              IsBlank(s[..i]) && IsBlank(s[j..])
  {
    var t := TrimStart(s);
    var i := |s| - |t|;
    var j := i + |Trim(s)|;
    TrimStartDropsBlank(s);
    TrimEndDropsBlank(t);
    TrimStartIsSuffix(s);
    TrimEndIsPrefix(t);
    assert t == s[i..];
    assert Trim(s) == TrimEnd(t) == t[..j - i];
    assert t[..j - i] == s[i..j];
    assert s[j..] == t[j - i..];
  }

  /** `trim` gives the empty string exactly for blank text. */
  lemma TrimEmptyIffBlank(s: string)
    ensures Trim(s) == [] <==> IsBlank(s)
  {
    var t := TrimStart(s);
    var i := |s| - |t|;
    TrimStartDropsBlank(s);
    TrimEndDropsBlank(t);
    TrimStartIsSuffix(s);
    assert s == s[..i] + t;
  }

  /** `s.startsWith(p)`. */
  predicate StartsWith(s: string, p: string) {
    |p| <= |s| && s[..|p|] == p
  }

  /** `s.includes(sub)`: `sub` occurs somewhere in `s`. */
  predicate Contains(s: string, sub: string) {
    exists i :: 0 <= i <= |s| && StartsWith(s[i..], sub)
  }

  /** An occurrence of `sub` at position `i` of `s` is one `s.includes(sub)` finds. */
  lemma ContainsAt(s: string, sub: string, i: nat)
    requires i + |sub| <= |s| && s[i..i + |sub|] == sub
    ensures Contains(s, sub)
  {
    assert StartsWith(s[i..], sub);
  }

  /** Joins `parts` with `sep` between neighbours (`parts.join(sep)`). */
  function Join(parts: seq<string>, sep: char): string
  {
    if |parts| == 0 then []
    else if |parts| == 1 then parts[0]
    else parts[0] + [sep] + Join(parts[1..], sep)
  }

  /** `s.split(sep)` for a one-character separator: the pieces between
      separators, so there is always at least one piece. */
  function Split(s: string, sep: char): (parts: seq<string>)
    ensures |parts| >= 1
    ensures forall k :: 0 <= k < |parts| ==> sep !in parts[k]
    ensures Join(parts, sep) == s
  {
    if s == [] then [[]]
    else
      var rest := Split(s[1..], sep);
      if s[0] == sep then
        assert ([[]] + rest)[1..] == rest;
        [[]] + rest
      else
        var parts := [[s[0]] + rest[0]] + rest[1..];
        assert |rest| > 1 ==> parts[1..] == rest[1..] && Join(rest, sep) == rest[0] + [sep] + Join(rest[1..], sep);
        parts
  }

  lemma SplitAtSeparator(s: string, sep: char)
    requires |s| > 0 && s[0] == sep
    ensures Split(s, sep) == [[]] + Split(s[1..], sep)
  {
  }

  lemma SplitAtOther(s: string, sep: char)
    requires |s| > 0 && s[0] != sep
    ensures Split(s, sep) == [[s[0]] + Split(s[1..], sep)[0]] + Split(s[1..], sep)[1..]
  {
  }

  /** Moving the first character of the first piece out in front of `Join`:
      what remains still holds no separator. */
  lemma FirstCharMoved(parts: seq<string>, sep: char)
    requires |parts| >= 1 && parts[0] != []
    requires forall k :: 0 <= k < |parts| ==> sep !in parts[k]
    ensures var tail := [parts[0][1..]] + parts[1..];
      && |tail| == |parts| && tail[0] == parts[0][1..] && tail[1..] == parts[1..]
      && (forall k :: 0 <= k < |tail| ==> sep !in tail[k])
      && Join(parts, sep) == [parts[0][0]] + Join(tail, sep)
  {
    var tail := [parts[0][1..]] + parts[1..];
    assert tail[0] == parts[0][1..] && tail[1..] == parts[1..];
    forall k | 0 <= k < |tail| ensures sep !in tail[k] {
      if k == 0 {
        assert forall x :: x in parts[0][1..] ==> x in parts[0];
      } else {
        assert tail[k] == parts[k];
      }
    }
    if |parts| > 1 {
      assert Join(tail, sep) == parts[0][1..] + [sep] + Join(parts[1..], sep);
    }
  }

  /** Splitting what `Join` built gives the pieces back, when no piece holds the separator. */
  lemma {:induction false} SplitJoin(parts: seq<string>, sep: char)
    requires |parts| >= 1
    requires forall k :: 0 <= k < |parts| ==> sep !in parts[k]
    ensures Split(Join(parts, sep), sep) == parts
    decreases |parts|, |parts[0]|
  {
    var joined := Join(parts, sep);
    if parts[0] == [] {
      if |parts| > 1 {
        var rest := parts[1..];
        assert joined == [sep] + Join(rest, sep);
        assert joined[0] == sep && joined[1..] == Join(rest, sep);
        SplitAtSeparator(joined, sep);
        SplitJoin(rest, sep);
        assert parts == [[]] + rest;
      } else {
        assert joined == [];
        assert parts == [[]];
      }
    } else {
      var c := parts[0][0];
      var tail := [parts[0][1..]] + parts[1..];
      FirstCharMoved(parts, sep);
      SplitJoin(tail, sep);
      assert joined[0] == c && joined[1..] == Join(tail, sep);
      assert c != sep by { assert parts[0][0] in parts[0]; }
      SplitAtOther(joined, sep);
      assert [[c] + tail[0]] + tail[1..] == parts by { assert [c] + parts[0][1..] == parts[0]; }
    }
  }

  /** `(s).padStart(width, [c])`: prefixes copies of `c` until `s` is `width` long. */
  function PadStart(s: string, width: nat, c: char): (r: string)
    ensures |r| == if |s| >= width then |s| else width
    ensures r[|r| - |s|..] == s
    ensures forall k :: 0 <= k < |r| - |s| ==> r[k] == c
    decreases width - |s|
  {
    if |s| >= width then s else PadStart([c] + s, width, c)
  }

  // ----- decimal digits -----

  predicate IsDigit(c: char) {
    '0' <= c <= '9'
  }

  function DigitChar(d: nat): (c: char)
    requires d < 10
    ensures IsDigit(c) && c as int - '0' as int == d
  {
    ('0' as int + d) as char
  }

  /** Value of one digit in radix 10 or 16 (`a`-`f` in either case), if it is one. */
  function DigitValue(c: char, radix: nat): Option<nat>
  {
    var v: int :=
      if '0' <= c <= '9' then c as int - '0' as int
      else if 'a' <= c <= 'f' then c as int - 'a' as int + 10
      else if 'A' <= c <= 'F' then c as int - 'A' as int + 10
      else 99;
    if 0 <= v < radix then Some(v) else None
  }

  /** Length of the longest prefix of `s` made of radix-`radix` digits. */
  function DigitPrefix(s: string, radix: nat): (n: nat)
    ensures n <= |s|
    ensures forall k :: 0 <= k < n ==> DigitValue(s[k], radix).Some?
    ensures n < |s| ==> DigitValue(s[n], radix).None?
  {
    if s == [] || DigitValue(s[0], radix).None? then 0 else 1 + DigitPrefix(s[1..], radix)
  }

  /** The number the digit string `ds` denotes in radix `radix`. */
  function DigitsValue(ds: string, radix: nat): nat
    requires forall k :: 0 <= k < |ds| ==> DigitValue(ds[k], radix).Some?
  {
    if ds == [] then 0
    else
      var init := ds[..|ds| - 1];
      assert forall k :: 0 <= k < |init| ==> init[k] == ds[k];
      var high: nat := DigitsValue(init, radix);
      var low: nat := DigitValue(ds[|ds| - 1], radix).value;
      MulNat(high, radix);
      high * radix + low
  }

  lemma MulNat(a: nat, b: nat)
    ensures a * b >= 0
  {
  }

  /** Decimal text of a natural number, as `String(n)`. */
  function NatToString(n: nat): (s: string)
    ensures |s| >= 1
    ensures forall k :: 0 <= k < |s| ==> IsDigit(s[k])
    ensures s[0] == '0' ==> n == 0 && |s| == 1
  {
    if n < 10 then [DigitChar(n)] else NatToString(n / 10) + [DigitChar(n % 10)]
  }

  /** Decimal text of an integer, as `String(i)`. */
  function IntToString(i: int): (s: string)
    ensures |s| >= 1
    ensures s[0] == '-' <==> i < 0
    ensures i >= 0 ==> forall k :: 0 <= k < |s| ==> IsDigit(s[k])
  {
    if i < 0 then "-" + NatToString(-i) else NatToString(i)
  }

  lemma {:induction false} DecimalDigitsValue(s: string)
    requires forall k :: 0 <= k < |s| ==> IsDigit(s[k])
    ensures forall k :: 0 <= k < |s| ==> DigitValue(s[k], 10) == Some(s[k] as int - '0' as int)
  {
  }

  /** Reading the decimal text of `n` back gives `n`. */
  lemma {:induction false} NatToStringValue(n: nat)
    ensures forall k :: 0 <= k < |NatToString(n)| ==> DigitValue(NatToString(n)[k], 10).Some?
    ensures DigitsValue(NatToString(n), 10) == n
  {
    var s := NatToString(n);
    DecimalDigitsValue(s);
    if n >= 10 {
      NatToStringValue(n / 10);
      assert s[..|s| - 1] == NatToString(n / 10);
      assert s[|s| - 1] == DigitChar(n % 10);
      assert (n / 10) * 10 + n % 10 == n;
    }
  }

  predicate AllDigits(s: string, radix: nat) {
    forall k :: 0 <= k < |s| ==> DigitValue(s[k], radix).Some?
  }

  function Zeros(n: nat): (z: string)
    ensures |z| == n && forall k :: 0 <= k < n ==> z[k] == '0'
  {
    seq(n, _ => '0')
  }

  /** Leading zeros do not change the value of a digit string. */
  lemma {:induction false} LeadingZerosValue(z: nat, ds: string, radix: nat)
    requires radix > 0
    requires AllDigits(ds, radix)
    ensures AllDigits(Zeros(z) + ds, radix)
    ensures DigitsValue(Zeros(z) + ds, radix) == DigitsValue(ds, radix)
  {
    var s := Zeros(z) + ds;
    if ds == [] {
      if z > 0 {
        assert s[..|s| - 1] == Zeros(z - 1) + [];
        LeadingZerosValue(z - 1, [], radix);
      }
    } else {
      LeadingZerosValue(z, ds[..|ds| - 1], radix);
      assert s[..|s| - 1] == Zeros(z) + ds[..|ds| - 1];
    }
  }

  /** `parseInt(s)` with no radix: skips leading white space, takes an optional
      sign, then reads the rest as `ParseUnsigned` does. `None` stands for
      `NaN` (no digits at all). Blank text is `NaN`; a number is read only
      when a digit comes first after the white space and an optional sign,
      and it is negative only after a minus sign. */
  function ParseInt(s: string): (r: Option<int>)
    ensures IsBlank(s) ==> r.None?
    ensures r.Some? ==> var t := TrimStart(s);
      |t| > 0 && (IsDigit(t[0]) || ((t[0] == '-' || t[0] == '+') && |t| > 1 && IsDigit(t[1])))
    ensures r.Some? && r.value < 0 ==> TrimStart(s)[0] == '-'
  {
    TrimStartIsSuffix(s);
    var t := TrimStart(s);
    var negative := |t| > 0 && t[0] == '-';
    var u := if |t| > 0 && (t[0] == '-' || t[0] == '+') then t[1..] else t;
    var magnitude := ParseUnsigned(u);
    if magnitude.None? then None
    else
      var v: int := magnitude.value;
      Some(if negative then -v else v)
  }

  /** The unsigned part of `parseInt`: radix 16 after `0x`/`0X`, otherwise
      radix 10, and then the longest digit prefix. Only text that starts
      with a decimal digit has a value. */
  function ParseUnsigned(u: string): (r: Option<nat>)
    ensures r.Some? ==> |u| > 0 && IsDigit(u[0])
  {
    var hex := |u| >= 2 && u[0] == '0' && (u[1] == 'x' || u[1] == 'X');
    var radix := if hex then 16 else 10;
    var body := if hex then u[2..] else u;
    var digits := body[..DigitPrefix(body, radix)];
    if digits == [] then None else Some(DigitsValue(digits, radix))
  }

  /** The decimal text of `n` reads back as `n`. */
  lemma ParseUnsignedOfNatToString(n: nat)
    ensures ParseUnsigned(NatToString(n)) == Some(n)
  {
    var d := NatToString(n);
    NatToStringValue(n);
    assert !(|d| >= 2 && d[0] == '0');
    assert DigitPrefix(d, 10) == |d| by { DigitPrefixAll(d, 10); }
    assert d[..|d|] == d;
  }

  /** A digit or a minus sign is not white space, so `parseInt` skips nothing before it. */
  lemma NoLeadingSpaces(s: string)
    requires |s| > 0 && (IsDigit(s[0]) || s[0] == '-')
    ensures TrimStart(s) == s
  {
    assert !IsJsSpace(s[0]);
  }

  /** Unsigned text starting with a digit reads as `ParseUnsigned` reads it. */
  lemma ParseIntOfDigits(d: string, n: nat)
    requires |d| > 0 && IsDigit(d[0])
    requires ParseUnsigned(d) == Some(n)
    ensures ParseInt(d) == Some(n)
  {
    NoLeadingSpaces(d);
  }

  /** A minus sign before unsigned text negates what `ParseUnsigned` reads. */
  lemma ParseIntOfNegative(d: string, n: nat)
    requires |d| > 0
    requires ParseUnsigned(d) == Some(n)
    ensures ParseInt("-" + d) == Some(-(n as int))
  {
    var s := "-" + d;
    NoLeadingSpaces(s);
    assert s[1..] == d;
  }

  /** `parseInt(String(i)) == i`: integer text round-trips through `ParseInt`. */
  lemma ParseIntOfIntToString(i: int)
    ensures ParseInt(IntToString(i)) == Some(i)
  {
    var n: nat := if i < 0 then -i else i;
    ParseUnsignedOfNatToString(n);
    if i < 0 {
      ParseIntOfNegative(NatToString(n), n);
    } else {
      ParseIntOfDigits(NatToString(n), n);
    }
  }

  lemma {:induction false} DigitPrefixAll(s: string, radix: nat)
    requires forall k :: 0 <= k < |s| ==> DigitValue(s[k], radix).Some?
    ensures DigitPrefix(s, radix) == |s|
  {
    if s != [] { DigitPrefixAll(s[1..], radix); }
  }

  /** Zero-padding the decimal text of `n` (`String(n).padStart(w, '0')`) keeps its value. */
  lemma PaddedNatValue(n: nat, width: nat)
    ensures AllDigits(PadStart(NatToString(n), width, '0'), 10)
    ensures DigitsValue(PadStart(NatToString(n), width, '0'), 10) == n
  {
    var d := NatToString(n);
    var r := PadStart(d, width, '0');
    var k := |r| - |d|;
    assert r == Zeros(k) + d by {
      assert r[k..] == d;
      assert r[..k] == Zeros(k);
      assert r == r[..k] + r[k..];
    }
    assert AllDigits(r, 10) && DigitsValue(r, 10) == n by {
      NatToStringValue(n);
      LeadingZerosValue(k, d, 10);
    }
  }

  lemma NatToStringBelow100(n: nat)
    requires n < 100
    ensures |NatToString(n)| <= 2
  {
    if n >= 10 {
      assert NatToString(n) == NatToString(n / 10) + [DigitChar(n % 10)];
    }
  }
}
