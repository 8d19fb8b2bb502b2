/**
 * The JavaScript built-ins the middleware and the controller rely on:
 * `String.prototype.split` with a one-character separator, `parseInt(s, 10)`
 * and `Math.ceil(a / b)` on integers.
 */
module Js {
  import opened Wrappers

  // ---------------------------------------------------------------------------
  // String.prototype.split(sep) for a one-character separator
  // ---------------------------------------------------------------------------

  /** `pieces.join(sep)`: the pieces with `sep` between consecutive ones. */
  function Join(pieces: seq<string>, sep: char): string
  {
    if |pieces| == 0 then ""
    else if |pieces| == 1 then pieces[0]
    else pieces[0] + [sep] + Join(pieces[1..], sep)
  }

  /** Position of the first occurrence of `c` in `s`. */
  function IndexOf(s: string, c: char): (k: nat)
    requires c in s
    ensures k < |s| && s[k] == c && c !in s[..k]
  {
    if s[0] == c then 0 else 1 + IndexOf(s[1..], c)
  }

  /**
   * `s.split(sep)`: the maximal pieces of `s` that do not contain `sep`, in
   * order. Consecutive separators yield empty pieces, and the result is never
   * empty (splitting "" gives [""]).
   */
  function Split(s: string, sep: char): (pieces: seq<string>)
    ensures |pieces| >= 1
    ensures Join(pieces, sep) == s
    ensures forall i :: 0 <= i < |pieces| ==> sep !in pieces[i]
    decreases |s|
  {
    if sep !in s then [s]
    else
      var k := IndexOf(s, sep);
      var rest := Split(s[k + 1..], sep);
      assert s == s[..k] + [sep] + s[k + 1..];
      assert ([s[..k]] + rest)[1..] == rest;
      [s[..k]] + rest
  }

  /** The first separator after a separator-free prefix is right after it. */
  lemma {:induction false} IndexOfAfterFreePrefix(a: string, c: char, b: string)
    requires c !in a
    ensures c in a + [c] + b && IndexOf(a + [c] + b, c) == |a|
  {
    if a != [] {
      assert (a + [c] + b)[1..] == a[1..] + [c] + b;
      IndexOfAfterFreePrefix(a[1..], c, b);
    }
  }

  /** The first piece ends at the first separator; the rest is split on its own. */
  lemma {:induction false} SplitAtFirstSeparator(a: string, sep: char, b: string)
    requires sep !in a
    ensures Split(a + [sep] + b, sep) == [a] + Split(b, sep)
  {
    var s := a + [sep] + b;
    IndexOfAfterFreePrefix(a, sep, b);
    assert s[..|a|] == a;
    assert s[|a| + 1..] == b;
  }

  /** A separator-free prefix that ends at a separator (or at the end) is the first piece. */
  lemma {:induction false} SplitFirstPiece(a: string, sep: char, rest: string)
    requires sep !in a
    requires rest == [] || rest[0] == sep
    ensures Split(a + rest, sep)[0] == a
  {
    if rest == [] {
      assert a + rest == a;
    } else {
      assert a + rest == a + [sep] + rest[1..];
      SplitAtFirstSeparator(a, sep, rest[1..]);
    }
  }

  /** Splitting undoes joining pieces that are free of the separator. */
  lemma {:induction false} SplitJoin(pieces: seq<string>, sep: char)
    requires |pieces| >= 1
    requires forall i :: 0 <= i < |pieces| ==> sep !in pieces[i]
    ensures Split(Join(pieces, sep), sep) == pieces
  {
    if |pieces| > 1 {
      var rest := pieces[1..];
      SplitJoin(rest, sep);
      assert Join(pieces, sep) == pieces[0] + [sep] + Join(rest, sep);
      SplitAtFirstSeparator(pieces[0], sep, Join(rest, sep));
      assert pieces == [pieces[0]] + rest;
    }
  }

  // ---------------------------------------------------------------------------
  // parseInt(s, 10)
  // ---------------------------------------------------------------------------

  /** The characters JavaScript's StrWhiteSpaceChar covers: white space and line terminators. */
  predicate IsWhiteSpace(c: char)
  {
    var n := c as int;
    n == 0x09 || n == 0x0A || n == 0x0B || n == 0x0C || n == 0x0D || n == 0x20
    || n == 0xA0 || n == 0x1680 || (0x2000 <= n <= 0x200A) || n == 0x2028 || n == 0x2029
    || n == 0x202F || n == 0x205F || n == 0x3000 || n == 0xFEFF
  }

  predicate IsDigit(c: char)
  {
    '0' <= c <= '9'
  }

  predicate AllDigits(s: string)
  {
    forall i :: 0 <= i < |s| ==> IsDigit(s[i])
  }

  /** `s` with its leading white space removed. */
  function TrimStart(s: string): (t: string)
    ensures |t| <= |s| && t == s[|s| - |t|..]
    ensures t == [] || !IsWhiteSpace(t[0])
  {
    if s != [] && IsWhiteSpace(s[0]) then TrimStart(s[1..]) else s
  }

  /** The longest prefix of `s` made of decimal digits. */
  function DigitPrefix(s: string): (d: string)
    ensures |d| <= |s| && d == s[..|d|] && AllDigits(d)
    ensures |d| == |s| || !IsDigit(s[|d|])
  {
    if s == [] || !IsDigit(s[0]) then "" else [s[0]] + DigitPrefix(s[1..])
  }

  /** The value of a string of decimal digits, most significant first. */
  function DigitsValue(d: string): nat
    requires AllDigits(d)
  {
    if d == [] then 0
    else DigitsValue(d[..|d| - 1]) * 10 + (d[|d| - 1] as int - '0' as int)
  }

  /**
   * `parseInt(s, 10)`, with `None` for NaN: skip leading white space, take an
   * optional sign, then as many decimal digits as follow; NaN when there are
   * none. Whatever follows the digits is ignored.
   */
  function ParseInt(s: string): (r: Option<int>)
    ensures r.Some? ==> exists i :: 0 <= i < |s| && IsDigit(s[i])
  {
    var t := TrimStart(s);
    if ParseTrimmed(t).Some? then
      assert IsDigit(s[|s| - |t| + SignLength(t)]);
      ParseTrimmed(t)
    else None
  }

  /** The length of the sign `parseInt` accepts at the start of `t`: 1 or 0. */
  function SignLength(t: string): (n: nat)
    ensures n <= |t|
  {
    if |t| > 0 && (t[0] == '-' || t[0] == '+') then 1 else 0
  }

  /** `parseInt` once the leading white space is gone; its first digit sits right after the sign. */
  function ParseTrimmed(t: string): (r: Option<int>)
    ensures r.Some? ==> SignLength(t) < |t| && IsDigit(t[SignLength(t)])
  {
    var negative := |t| > 0 && t[0] == '-';
    var u := if |t| > 0 && (t[0] == '-' || t[0] == '+') then t[1..] else t;
    var d := DigitPrefix(u);
    if d == [] then None
    else
      var magnitude: int := DigitsValue(d);
      Some(if negative then -magnitude else magnitude)
  }

  /** The decimal digit of a value below ten. */
  function Digit(n: nat): (c: char)
    requires n < 10
    ensures IsDigit(c) && c as int - '0' as int == n
  {
    ('0' as int + n) as char
  }

  /** `String(n)` for a natural number: its decimal digits, no leading zero. */
  function NatString(n: nat): (s: string)
    ensures s != [] && AllDigits(s)
    ensures s[0] == '0' ==> n == 0
  {
    if n < 10 then [Digit(n)] else NatString(n / 10) + [Digit(n % 10)]
  }

  /** `String(n)` for an integer. */
  function IntString(n: int): string
  {
    if n < 0 then "-" + NatString(-n) else NatString(n)
  }

  /** The digits of `n` have the value `n`. */
  lemma {:induction false} NatStringValue(n: nat)
    ensures DigitsValue(NatString(n)) == n
  {
    var s := NatString(n);
    if n >= 10 {
      NatStringValue(n / 10);
      assert s[..|s| - 1] == NatString(n / 10);
    }
  }

  /** The digit prefix stops where the digits stop. */
  lemma {:induction false} DigitPrefixOfDigits(d: string, rest: string)
    requires AllDigits(d)
    requires rest == [] || !IsDigit(rest[0])
    ensures DigitPrefix(d + rest) == d
  {
    if d != [] {
      assert (d + rest)[1..] == d[1..] + rest;
      DigitPrefixOfDigits(d[1..], rest);
    }
  }

  /** Leading white space is all that `TrimStart` removes. */
  lemma {:induction false} TrimStartAtNonSpace(s: string)
    requires s != [] && !IsWhiteSpace(s[0])
    ensures TrimStart(s) == s
  {
  }

  /** An unsigned digit string followed by a non-digit parses to its value. */
  lemma {:induction false} ParseIntOfDigits(d: string, rest: string)
    requires d != [] && AllDigits(d)
    requires rest == [] || !IsDigit(rest[0])
    ensures ParseInt(d + rest) == Some(DigitsValue(d) as int)
  {
    var plain := d + rest;
    DigitPrefixOfDigits(d, rest);
    assert plain[0] == d[0];
    assert IsDigit(plain[0]);
    TrimStartAtNonSpace(plain);
  }

  /** A `-` before the digits negates the value. */
  lemma {:induction false} ParseIntOfNegatedDigits(d: string, rest: string)
    requires d != [] && AllDigits(d)
    requires rest == [] || !IsDigit(rest[0])
    ensures ParseInt("-" + d + rest) == Some(-(DigitsValue(d) as int))
  {
    var u := d + rest;
    assert "-" + d + rest == ['-'] + u;
    DigitPrefixOfDigits(d, rest);
    ParseTrimmedAfterSign('-', u);
    TrimStartAtNonSpace(['-'] + u);
  }

  /** A sign followed by digits: the digits' value, negated for `-`. */
  lemma ParseTrimmedAfterSign(c: char, u: string)
    requires c == '-' || c == '+'
    requires DigitPrefix(u) != []
    ensures var m: int := DigitsValue(DigitPrefix(u));
            ParseTrimmed([c] + u) == Some(if c == '-' then -m else m)
  {
    assert ([c] + u)[1..] == u;
  }

  /** A `+` before the digits is skipped. */
  lemma {:induction false} ParseIntOfPlusDigits(d: string, rest: string)
    requires d != [] && AllDigits(d)
    requires rest == [] || !IsDigit(rest[0])
    ensures ParseInt("+" + d + rest) == Some(DigitsValue(d) as int)
  {
    var u := d + rest;
    assert "+" + d + rest == ['+'] + u;
    DigitPrefixOfDigits(d, rest);
    ParseTrimmedAfterSign('+', u);
    TrimStartAtNonSpace(['+'] + u);
  }

  /** Leading white space is skipped whatever follows it. */
  lemma {:induction false} TrimStartSkipsWhiteSpace(ws: string, s: string)
    requires forall i :: 0 <= i < |ws| ==> IsWhiteSpace(ws[i])
    ensures TrimStart(ws + s) == TrimStart(s)
  {
    if ws != [] {
      assert (ws + s)[0] == ws[0] && IsWhiteSpace(ws[0]);
      assert (ws + s)[1..] == ws[1..] + s;
      TrimStartSkipsWhiteSpace(ws[1..], s);
    } else {
      assert ws + s == s;
    }
  }

  /** `parseInt` ignores leading white space: `parseInt(" 12") == parseInt("12")`. */
  lemma ParseIntSkipsWhiteSpace(ws: string, s: string)
    requires forall i :: 0 <= i < |ws| ==> IsWhiteSpace(ws[i])
    ensures ParseInt(ws + s) == ParseInt(s)
  {
    TrimStartSkipsWhiteSpace(ws, s);
  }

  /**
   * `parseInt` reads back the decimal form of a number, and stops at the
   * first character that is not a digit: `parseInt("12abc") == 12`,
   * `parseInt("5,6") == 5`.
   */
  lemma {:induction false} ParseIntOfDecimal(n: int, rest: string)
    requires rest == [] || !IsDigit(rest[0])
    ensures ParseInt(IntString(n) + rest) == Some(n)
  {
    var m: nat := if n < 0 then -n else n;
    NatStringValue(m);
    if n < 0 {
      ParseIntOfNegatedDigits(NatString(m), rest);
    } else {
      ParseIntOfDigits(NatString(m), rest);
    }
  }

  // ---------------------------------------------------------------------------
  // Math.ceil(a / b)
  // ---------------------------------------------------------------------------

  /**
   * `Math.ceil(a / b)` for a count `a` and a non-zero integer `b`: the least
   * integer `q` with `q >= a / b`.
   */
  function CeilDiv(a: nat, b: int): (q: int)
    requires b != 0
    ensures b > 0 ==> (q - 1) * b < a <= q * b
    ensures b < 0 ==> q * b <= a < (q - 1) * b
  {
    if b > 0 then (a + b - 1) / b else a / b
  }
}
