/** The JavaScript string and number built-ins that the handlers rely on:
    `String.prototype.trim`, `includes`, `Array.prototype.join`, the first two
    fields of `split(':')`, `parseInt` with no radix, and the decimal rendering
    of an integer in a template literal. */
module JsText {
  import opened Wrappers

  /** The characters `trim` and `parseInt` skip: ECMAScript WhiteSpace and
      LineTerminator code points. */
  predicate IsWhitespace(c: char) {
    || c == ' ' || c == '\t' || c == '\n' || c == '\U{000B}' || c == '\U{000C}' || c == '\r'
    || c == '\U{00A0}' || c == '\U{1680}' || ('\U{2000}' <= c <= '\U{200A}')
    || c == '\U{2028}' || c == '\U{2029}' || c == '\U{202F}' || c == '\U{205F}'
    || c == '\U{3000}' || c == '\U{FEFF}'
  }

  predicate AllWhitespace(s: string) {
    forall i :: 0 <= i < |s| ==> IsWhitespace(s[i])
  }

  function TrimStart(s: string): (r: string)
    ensures |r| <= |s| && r == s[|s| - |r|..]
    ensures r == [] || !IsWhitespace(r[0])
  {
    if s != [] && IsWhitespace(s[0]) then TrimStart(s[1..]) else s
  }

  function TrimEnd(s: string): (r: string)
    ensures |r| <= |s| && r == s[..|r|]
    ensures r == [] || !IsWhitespace(r[|r| - 1])
  {
    if s != [] && IsWhitespace(s[|s| - 1]) then TrimEnd(s[..|s| - 1]) else s
  }

  /** `s.trim()`: a piece of `s` that neither starts nor ends with
      whitespace. */
  function Trim(s: string): (r: string)
    ensures |r| <= |s|
    ensures r == [] || (!IsWhitespace(r[0]) && !IsWhitespace(r[|r| - 1]))
  {
    TrimEnd(TrimStart(s))
  }

  /** `!s || s.trim() === ''`: the string is empty or only whitespace. */
  predicate IsBlank(s: string) {
    Trim(s) == []
  }

  lemma {:induction false} TrimStartEmptyIff(s: string)
    ensures TrimStart(s) == [] <==> AllWhitespace(s)
  {
    if s == [] {
    } else if IsWhitespace(s[0]) {
      TrimStartEmptyIff(s[1..]);
      assert TrimStart(s) == TrimStart(s[1..]);
      forall i | 0 < i < |s| ensures s[i] == s[1..][i - 1] {}
      assert AllWhitespace(s) <==> AllWhitespace(s[1..]);
    } else {
      assert TrimStart(s) == s;
      assert !AllWhitespace(s);
    }
  }

  lemma TrimEndOfNonBlank(s: string)
    requires s != [] && !IsWhitespace(s[0])
    ensures TrimEnd(s) != []
  {
  }

  /** A string is blank exactly when every character is whitespace. */
  lemma BlankIff(s: string)
    ensures IsBlank(s) <==> AllWhitespace(s)
  {
    TrimStartEmptyIff(s);
    var t := TrimStart(s);
    if t != [] {
      TrimEndOfNonBlank(t);
    }
  }

  /** Trimming at the end never reaches into a prefix that is followed by a
      non-whitespace character. */
  lemma {:induction false} TrimEndAppend(p: string, q: string)
    requires !AllWhitespace(q)
    ensures TrimEnd(p + q) == p + TrimEnd(q)
  {
    if IsWhitespace(q[|q| - 1]) {
      var q' := q[..|q| - 1];
      assert !AllWhitespace(q') by {
        var i :| 0 <= i < |q| && !IsWhitespace(q[i]);
        assert i < |q| - 1 && q'[i] == q[i];
      }
      assert (p + q)[..|p + q| - 1] == p + q';
      TrimEndAppend(p, q');
    }
  }

  /** Trailing whitespace is dropped by TrimEnd. */
  lemma {:induction false} TrimEndDropsWhitespace(s: string, w: string)
    requires AllWhitespace(w)
    ensures TrimEnd(s + w) == TrimEnd(s)
  {
    if w != [] {
      var w' := w[..|w| - 1];
      assert IsWhitespace((s + w)[|s + w| - 1]) by {
        assert (s + w)[|s + w| - 1] == w[|w| - 1];
      }
      assert (s + w)[..|s + w| - 1] == s + w';
      assert AllWhitespace(w') by {
        forall i | 0 <= i < |w'| ensures IsWhitespace(w'[i]) { assert w'[i] == w[i]; }
      }
      TrimEndDropsWhitespace(s, w');
    } else {
      assert s + w == s;
    }
  }

  /** Leading whitespace is dropped by TrimStart, and a string that begins
      with a non-whitespace character is kept whole. */
  lemma {:induction false} TrimStartDropsWhitespace(w: string, s: string)
    requires AllWhitespace(w)
    requires s != [] && !IsWhitespace(s[0])
    ensures TrimStart(w + s) == s
  {
    if w == [] {
      assert w + s == s;
    } else {
      assert (w + s)[1..] == w[1..] + s;
      TrimStartDropsWhitespace(w[1..], s);
    }
  }

  /** Trimming whitespace-padded text with visible ends gives that text. */
  lemma TrimOfPadded(w1: string, core: string, w2: string)
    requires AllWhitespace(w1) && AllWhitespace(w2)
    requires core != [] && !IsWhitespace(core[0]) && !IsWhitespace(core[|core| - 1])
    ensures Trim(w1 + core + w2) == core
  {
    assert w1 + core + w2 == w1 + (core + w2);
    assert (core + w2)[0] == core[0];
    TrimStartDropsWhitespace(w1, core + w2);
    TrimEndDropsWhitespace(core, w2);
  }

  /** `s.includes(x)` */
  predicate Contains(s: string, x: string) {
    exists i :: 0 <= i <= |s| && OccursAt(s, x, i)
  }

  /** `x` occurs in `s` starting at position `i`. */
  predicate OccursAt(s: string, x: string, i: nat) {
    i + |x| <= |s| && s[i..i + |x|] == x
  }

  lemma ContainsSelf(x: string)
    ensures Contains(x, x)
  {
    assert OccursAt(x, x, 0);
  }

  /** Text added in front keeps an occurrence. */
  lemma ContainsPrepend(p: string, s: string, x: string)
    requires Contains(s, x)
    ensures Contains(p + s, x)
  {
    var i :| 0 <= i <= |s| && OccursAt(s, x, i);
    assert (p + s)[|p| + i..|p| + i + |x|] == s[i..i + |x|];
    assert OccursAt(p + s, x, |p| + i);
  }

  /** Text added behind keeps an occurrence. */
  lemma ContainsAppend(s: string, q: string, x: string)
    requires Contains(s, x)
    ensures Contains(s + q, x)
  {
    var i :| 0 <= i <= |s| && OccursAt(s, x, i);
    assert (s + q)[i..i + |x|] == s[i..i + |x|];
    assert OccursAt(s + q, x, i);
  }

  /** `items.join(sep)` */
  function Join(items: seq<string>, sep: string): (r: string)
    ensures items == [] ==> r == []
    ensures |items| == 1 ==> r == items[0]
  {
    if items == [] then []
    else if |items| == 1 then items[0]
    else Join(items[..|items| - 1], sep) + sep + items[|items| - 1]
  }

  /** Every item shows in the joined text, and so does the separator once
      there are two items or more. */
  lemma {:induction false} JoinShowsParts(items: seq<string>, sep: string)
    ensures forall k :: 0 <= k < |items| ==> Contains(Join(items, sep), items[k])
    ensures |items| >= 2 ==> Contains(Join(items, sep), sep)
  {
    if |items| >= 2 {
      var init := items[..|items| - 1];
      var last := items[|items| - 1];
      var head := Join(init, sep);
      JoinShowsParts(init, sep);
      forall k | 0 <= k < |items| ensures Contains(Join(items, sep), items[k]) {
        if k < |items| - 1 {
          assert items[k] == init[k];
          ContainsAppend(head, sep, items[k]);
          ContainsAppend(head + sep, last, items[k]);
        } else {
          ContainsSelf(last);
          ContainsPrepend(head + sep, last, last);
        }
      }
      ContainsSelf(sep);
      ContainsPrepend(head, sep, sep);
      ContainsAppend(head + sep, last, sep);
    } else if |items| == 1 {
      ContainsSelf(items[0]);
    }
  }

  /** Text holding a visible character is not blank. */
  lemma ContainsVisible(s: string, x: string)
    requires Contains(s, x) && x != [] && !IsWhitespace(x[0])
    ensures !IsBlank(s)
  {
    var i :| 0 <= i <= |s| && OccursAt(s, x, i);
    assert s[i] == x[0];
    BlankIff(s);
  }

  /** Position of the first `c` in `s`, or |s| when there is none. */
  function IndexOf(s: string, c: char): (k: nat)
    ensures k <= |s|
    ensures k < |s| ==> s[k] == c
    ensures forall j :: 0 <= j < k ==> s[j] != c
  {
    if s == [] then 0
    else if s[0] == c then 0
    else 1 + IndexOf(s[1..], c)
  }

  /** `s.split(':')[0]` */
  function FirstField(s: string): (r: string)
    ensures |r| <= |s| && r == s[..|r|] && ':' !in r
    ensures |r| < |s| ==> s[|r|] == ':'
  {
    s[..IndexOf(s, ':')]
  }

  /** `s.split(':')[1]`: None stands for `undefined` when there is no ':'. */
  function SecondField(s: string): (r: Option<string>)
    ensures r.None? <==> ':' !in s
    ensures r.Some? ==> ':' !in r.value
    ensures r.Some? ==>
              var k := |FirstField(s)|;
              && k + 1 + |r.value| <= |s| && s[k + 1..k + 1 + |r.value|] == r.value
              && (k + 1 + |r.value| == |s| || s[k + 1 + |r.value|] == ':')
  {
    var k := IndexOf(s, ':');
    if k == |s| then None else Some(FirstField(s[k + 1..]))
  }

  /** A JavaScript number as far as these handlers use one. */
  datatype JsNumber = NaN | Int(value: int)

  /** The value of a digit in bases up to 16, and 16 for any other
      character. */
  function DigitValue(c: char): (d: int)
    ensures 0 <= d <= 16
    ensures d < 10 <==> '0' <= c <= '9'
    ensures d < 16 <==> '0' <= c <= '9' || 'a' <= c <= 'f' || 'A' <= c <= 'F'
    ensures '0' <= c <= '9' ==> d == c as int - '0' as int
  {
    if '0' <= c <= '9' then c as int - '0' as int
    else if 'a' <= c <= 'f' then c as int - 'a' as int + 10
    else if 'A' <= c <= 'F' then c as int - 'A' as int + 10
    else 16
  }

  predicate IsDigit(c: char, radix: nat) {
    0 <= DigitValue(c) < radix
  }

  /** Length of the longest prefix of `s` made of digits of `radix`. */
  function DigitPrefix(s: string, radix: nat): (n: nat)
    ensures n <= |s|
    ensures forall i :: 0 <= i < n ==> IsDigit(s[i], radix)
    ensures n < |s| ==> !IsDigit(s[n], radix)
  {
    if s != [] && IsDigit(s[0], radix) then 1 + DigitPrefix(s[1..], radix) else 0
  }

  /** The value of a string of digits, most significant first. */
  function DigitsValue(s: string, radix: nat): int {
    if s == [] then 0 else DigitsValue(s[..|s| - 1], radix) * radix + DigitValue(s[|s| - 1])
  }

  /** The digits after the sign: a `0x`/`0X` prefix selects base 16, and the
      longest run of digits is the value; None when there is no digit. */
  function ParseUnsigned(u: string): Option<int> {
    if |u| >= 2 && u[0] == '0' && (u[1] == 'x' || u[1] == 'X') then
      var n := DigitPrefix(u[2..], 16);
      if n == 0 then None else Some(DigitsValue(u[2..][..n], 16))
    else
      var n := DigitPrefix(u, 10);
      if n == 0 then None else Some(DigitsValue(u[..n], 10))
  }

  function Signed(v: Option<int>, negative: bool): JsNumber {
    match v
    case None => NaN
    case Some(m) => Int(if negative then -m else m)
  }

  /** `parseInt(s)`: skip leading whitespace, read an optional sign, then the
      unsigned part; no digit at all is NaN. (Doubles are taken as unbounded
      integers.) */
  function ParseInt(s: string): JsNumber {
    var t := TrimStart(s);
    if t != [] && t[0] == '-' then Signed(ParseUnsigned(t[1..]), true)
    else if t != [] && t[0] == '+' then Signed(ParseUnsigned(t[1..]), false)
    else Signed(ParseUnsigned(t), false)
  }

  /** The decimal digits of `n`, as `${n}` renders a non-negative integer. */
  function NatToString(n: nat): (r: string)
    ensures r != [] && '0' <= r[0] <= '9'
    ensures forall i :: 0 <= i < |r| ==> '0' <= r[i] <= '9'
    ensures r[0] == '0' ==> n == 0
  {
    if n < 10 then [('0' as int + n) as char]
    else NatToString(n / 10) + [('0' as int + n % 10) as char]
  }

  /** `${n}` for an integer. */
  function IntToString(n: int): string {
    if n < 0 then "-" + NatToString(-n) else NatToString(n)
  }

  /** Reading back the decimal digits of `n` gives `n`. */
  lemma {:induction false} DigitsOfNatToString(n: nat)
    ensures DigitsValue(NatToString(n), 10) == n
    ensures DigitPrefix(NatToString(n), 10) == |NatToString(n)|
  {
    var r := NatToString(n);
    if n >= 10 {
      DigitsOfNatToString(n / 10);
      assert r[..|r| - 1] == NatToString(n / 10);
    }
  }

  lemma {:induction false} DigitPrefixOfAppend(d: string, rest: string)
    requires forall i :: 0 <= i < |d| ==> IsDigit(d[i], 10)
    requires rest == [] || !IsDigit(rest[0], 10)
    ensures DigitPrefix(d + rest, 10) == |d|
  {
    if d != [] {
      assert (d + rest)[1..] == d[1..] + rest;
      DigitPrefixOfAppend(d[1..], rest);
    } else {
      assert d + rest == rest;
    }
  }

  /** `parseInt` of a run of decimal digits without a `0x` prefix, followed
      by a non-digit, is the value of the run. */
  lemma ParseIntOfDigits(d: string, rest: string)
    requires d != [] && forall i :: 0 <= i < |d| ==> '0' <= d[i] <= '9'
    requires rest == [] || (!IsDigit(rest[0], 10) && rest[0] != 'x' && rest[0] != 'X')
    ensures ParseInt(d + rest) == Int(DigitsValue(d, 10))
  {
    var s := d + rest;
    assert s[0] == d[0];
    assert TrimStart(s) == s by {
      assert !IsWhitespace(s[0]);
    }
    ParseUnsignedOfDigits(d, rest);
  }

  lemma ParseUnsignedOfDigits(d: string, rest: string)
    requires d != [] && forall i :: 0 <= i < |d| ==> '0' <= d[i] <= '9'
    requires rest == [] || (!IsDigit(rest[0], 10) && rest[0] != 'x' && rest[0] != 'X')
    ensures ParseUnsigned(d + rest) == Some(DigitsValue(d, 10))
  {
    var s := d + rest;
    forall i | 0 <= i < |d| ensures IsDigit(d[i], 10) {}
    DigitPrefixOfAppend(d, rest);
    assert s[..|d|] == d;
    assert !(|s| >= 2 && s[0] == '0' && (s[1] == 'x' || s[1] == 'X')) by {
      if |d| == 1 && |s| >= 2 { assert s[1] == rest[0]; }
      if |d| > 1 { assert s[1] == d[1]; assert '0' <= s[1] <= '9'; }
    }
  }

  /** `parseInt` reads back a rendered natural number, whatever follows it
      that is not a digit (a ':' in a time, a '.' after a list number). */
  lemma ParseIntOfNatToString(n: nat, rest: string)
    requires rest == [] || (!IsDigit(rest[0], 10) && rest[0] != 'x' && rest[0] != 'X')
    ensures ParseInt(NatToString(n) + rest) == Int(n)
  {
    var r := NatToString(n);
    DigitsOfNatToString(n);
    ParseIntOfDigits(r, rest);
  }

  /** `parseInt` reads back a rendered integer, whatever non-digit follows. */
  lemma ParseIntOfIntToString(n: int, rest: string)
    requires rest == [] || (!IsDigit(rest[0], 10) && rest[0] != 'x' && rest[0] != 'X')
    ensures ParseInt(IntToString(n) + rest) == Int(n)
  {
    if n < 0 {
      ParseIntOfNegative(-n, rest);
    } else {
      ParseIntOfNatToString(n, rest);
    }
  }

  lemma ParseIntOfNegative(m: nat, rest: string)
    requires rest == [] || (!IsDigit(rest[0], 10) && rest[0] != 'x' && rest[0] != 'X')
    ensures ParseInt("-" + NatToString(m) + rest) == Int(-(m as int))
  {
    var r := NatToString(m);
    assert "-" + r + rest == "-" + (r + rest);
    NegativeSign(r + rest);
    DigitsOfNatToString(m);
    ParseUnsignedOfDigits(r, rest);
  }

  lemma NegativeSign(u: string)
    ensures ParseInt("-" + u) == Signed(ParseUnsigned(u), true)
  {
    var t := "-" + u;
    assert t[0] == '-' && t[1..] == u;
    assert TrimStart(t) == t;
  }

  /** With leading whitespace, too. */
  lemma ParseIntSkipsWhitespace(w: string, s: string)
    requires AllWhitespace(w)
    requires s != [] && !IsWhitespace(s[0])
    ensures ParseInt(w + s) == ParseInt(s)
  {
    TrimStartDropsWhitespace(w, s);
    TrimStartDropsWhitespace([], s);
    assert [] + s == s;
  }
}
