/**
 * String helpers standing for the JavaScript string built-ins the core uses:
 * decimal rendering (String(n)), parseInt, trim, toLowerCase, includes,
 * padStart and Array.prototype.join.
 */
module Text {
  import opened Wrappers

  // ---------------------------------------------------------------- digits

  predicate IsDigit(c: char) { '0' <= c <= '9' }

  predicate AllDigits(s: string) { forall i :: 0 <= i < |s| ==> IsDigit(s[i]) }

  function DigitChar(d: nat): char
    requires d < 10
  {
    ('0' as int + d) as char
  }

  function DigitValue(c: char): nat
    requires IsDigit(c)
  {
    c as int - '0' as int
  }

  /** Decimal rendering of a natural number, as String(n) and n.toString() give it. */
  function Itoa(n: nat): (s: string)
    ensures |s| >= 1 && AllDigits(s)
    ensures n < 10 <==> |s| == 1
    ensures n >= 10 ==> s[0] != '0'
    decreases n
  {
    if n < 10 then [DigitChar(n)] else Itoa(n / 10) + [DigitChar(n % 10)]
  }

  /** The number a string of decimal digits denotes (leading zeros allowed). */
  function DigitsValue(s: string): nat
    requires AllDigits(s)
  {
    if s == [] then 0 else DigitsValue(s[..|s| - 1]) * 10 + DigitValue(s[|s| - 1])
  }

  /** Reading back a rendered number gives the number: Itoa is injective. */
  lemma {:induction false} DigitsValueOfItoa(n: nat)
    ensures DigitsValue(Itoa(n)) == n
    decreases n
  {
    if n >= 10 {
      var s := Itoa(n);
      assert s[..|s| - 1] == Itoa(n / 10);
      DigitsValueOfItoa(n / 10);
    }
  }

  lemma ItoaInjective(m: nat, n: nat)
    requires Itoa(m) == Itoa(n)
    ensures m == n
  {
    DigitsValueOfItoa(m);
    DigitsValueOfItoa(n);
  }

  /** Numbers below 100 are rendered with at most two digits. */
  lemma ItoaBelowHundred(n: nat)
    requires n < 100
    ensures |Itoa(n)| <= 2
    ensures n >= 10 ==> |Itoa(n)| == 2
  {
    if n >= 10 {
      assert Itoa(n) == Itoa(n / 10) + [DigitChar(n % 10)];
    }
  }

  /** A leading zero does not change the value of a digit string. */
  lemma {:induction false} DigitsValueLeadingZero(s: string)
    requires AllDigits(s)
    ensures AllDigits("0" + s) && DigitsValue("0" + s) == DigitsValue(s)
    decreases |s|
  {
    var t := "0" + s;
    if s != [] {
      assert t[..|t| - 1] == "0" + s[..|s| - 1];
      DigitsValueLeadingZero(s[..|s| - 1]);
    }
  }

  // ---------------------------------------------------------------- padStart

  /** s.padStart(2, "0"): zeros in front up to length two; longer strings are kept. */
  function PadStart2(s: string): (r: string)
    ensures |r| == if |s| >= 2 then |s| else 2
    ensures r[|r| - |s|..] == s
    ensures forall i :: 0 <= i < |r| - |s| ==> r[i] == '0'
  {
    if |s| >= 2 then s else seq(2 - |s|, _ => '0') + s
  }

  /** Padding a digit string with zeros keeps its value. */
  lemma {:induction false} PadStart2Value(s: string)
    requires AllDigits(s)
    ensures AllDigits(PadStart2(s)) && DigitsValue(PadStart2(s)) == DigitsValue(s)
  {
    if |s| == 1 {
      assert PadStart2(s) == "0" + s;
      DigitsValueLeadingZero(s);
    } else if |s| == 0 {
      assert PadStart2(s) == "0" + "0";
      DigitsValueLeadingZero("0");
      DigitsValueLeadingZero("");
    }
  }

  // ---------------------------------------------------------------- parseInt

  /** The longest prefix of s made of decimal digits. */
  function DigitPrefix(s: string): (d: string)
    ensures |d| <= |s| && d == s[..|d|] && AllDigits(d)
    ensures |d| < |s| ==> !IsDigit(s[|d|])
  {
    if s != [] && IsDigit(s[0]) then [s[0]] + DigitPrefix(s[1..]) else []
  }

  /**
   * parseInt(s) in base ten: leading white space is skipped, an optional sign is read, then
   * the longest run of digits; no digit at all gives NaN, here None.
   */
  function ParseInt(s: string): (r: Option<int>)
  {
    var t := TrimStart(s);
    var signed := t != [] && (t[0] == '+' || t[0] == '-');
    var d := DigitPrefix(if signed then t[1..] else t);
    var v: int := if d == [] then 0 else DigitsValue(d);
    if d == [] then None else if signed && t[0] == '-' then Some(-v) else Some(v)
  }

  /** parseInt reads back what String(n) wrote. */
  lemma ParseIntOfItoa(n: nat)
    ensures ParseInt(Itoa(n)) == Some(n)
  {
    var s := Itoa(n);
    assert !IsWhitespace(s[0]);
    assert TrimStart(s) == s;
    AllDigitsPrefix(s);
    DigitsValueOfItoa(n);
  }

  /** The digit prefix of digits followed by a non-digit is those digits. */
  lemma {:induction false} DigitPrefixStops(d: string, rest: string)
    requires AllDigits(d)
    requires rest != [] && !IsDigit(rest[0])
    ensures DigitPrefix(d + rest) == d
    decreases |d|
  {
    if d != [] {
      assert (d + rest)[1..] == d[1..] + rest;
      DigitPrefixStops(d[1..], rest);
    }
  }

  /** parseInt reads the leading number of a string such as "3. text". */
  lemma ParseIntOfNumbered(n: nat, rest: string)
    requires rest != [] && !IsDigit(rest[0])
    ensures ParseInt(Itoa(n) + rest) == Some(n)
  {
    var s := Itoa(n) + rest;
    assert s[0] == Itoa(n)[0];
    assert !IsWhitespace(s[0]);
    assert TrimStart(s) == s;
    DigitPrefixStops(Itoa(n), rest);
    DigitsValueOfItoa(n);
  }

  lemma {:induction false} AllDigitsPrefix(s: string)
    requires AllDigits(s)
    ensures DigitPrefix(s) == s
    decreases |s|
  {
    if s != [] {
      AllDigitsPrefix(s[1..]);
    }
  }

  // ---------------------------------------------------------------- trim

  /** The characters String.prototype.trim removes: white space and line terminators. */
  predicate IsWhitespace(c: char)
  {
    || c == ' ' || c == '\t' || c == '\n' || c == '\r'
    || c as int == 0x0B || c as int == 0x0C || c as int == 0xA0 || c as int == 0x1680
    || (0x2000 <= c as int <= 0x200A)
    || c as int == 0x2028 || c as int == 0x2029 || c as int == 0x202F || c as int == 0x205F
    || c as int == 0x3000 || c as int == 0xFEFF
  }

  function TrimStart(s: string): (r: string)
    ensures |r| <= |s| && r == s[|s| - |r|..]
    ensures r == [] || !IsWhitespace(r[0])
    ensures forall i :: 0 <= i < |s| - |r| ==> IsWhitespace(s[i])
  {
    if s != [] && IsWhitespace(s[0]) then TrimStart(s[1..]) else s
  }

  function TrimEnd(s: string): (r: string)
    ensures |r| <= |s| && r == s[..|r|]
    ensures r == [] || !IsWhitespace(r[|r| - 1])
    ensures forall i :: |r| <= i < |s| ==> IsWhitespace(s[i])
  {
    if s != [] && IsWhitespace(s[|s| - 1]) then TrimEnd(s[..|s| - 1]) else s
  }

  /** s.trim(): a contiguous piece of s with no white space at either end. */
  function Trim(s: string): (r: string)
  {
    TrimEnd(TrimStart(s))
  }

  /**
   * Trim keeps a contiguous piece of s, drops only white space, leaves none at either end,
   * and is empty exactly when s is all white space.
   */
  lemma TrimSpec(s: string)
    ensures Contains(s, Trim(s))
    ensures Trim(s) == [] || (!IsWhitespace(Trim(s)[0]) && !IsWhitespace(Trim(s)[|Trim(s)| - 1]))
    ensures Trim(s) == [] <==> forall i :: 0 <= i < |s| ==> IsWhitespace(s[i])
  {
    var t := TrimStart(s);
    var r := TrimEnd(t);
    var i := |s| - |t|;
    assert s[i..i + |r|] == t[..|r|] == r;
    assert PieceAt(s, r, i);
    if r != [] {
      assert t[0] == r[0];
      assert s[i] == r[0];
    } else {
      forall j | 0 <= j < |s| ensures IsWhitespace(s[j]) {
        if j >= i { assert s[j] == t[j - i]; }
      }
    }
  }

  /** Trimming twice is trimming once. */
  lemma TrimIdempotent(s: string)
    ensures Trim(Trim(s)) == Trim(s)
  {
    var r := Trim(s);
    TrimSpec(s);
    if r != [] {
      assert TrimStart(r) == r;
      assert TrimEnd(r) == r;
    }
  }

  // ---------------------------------------------------------------- case and substrings

  /** toLowerCase on one character, for the ASCII letters. */
  function LowerChar(c: char): char
  {
    if 'A' <= c <= 'Z' then (c as int + 32) as char else c
  }

  function Lower(s: string): (r: string)
    ensures |r| == |s|
  {
    seq(|s|, i requires 0 <= i < |s| => LowerChar(s[i]))
  }

  /** t occurs in s starting at index i. */
  predicate PieceAt(s: string, t: string, i: int)
  {
    0 <= i <= |s| - |t| && s[i..i + |t|] == t
  }

  /** s.includes(t): t occurs in s as a contiguous piece. */
  predicate Contains(s: string, t: string)
  {
    exists i :: 0 <= i <= |s| - |t| && PieceAt(s, t, i)
  }

  /** Every string includes the empty string, so an empty search term matches everything. */
  lemma ContainsEmpty(s: string)
    ensures Contains(s, "")
  {
    assert PieceAt(s, "", 0);
  }

  // ---------------------------------------------------------------- join and split

  /** xs.join(sep). */
  function Join(xs: seq<string>, sep: string): string
  {
    if |xs| == 0 then "" else if |xs| == 1 then xs[0] else xs[0] + sep + Join(xs[1..], sep)
  }

  /** The index of the first c in s. */
  function FirstIndex(s: string, c: char): (i: nat)
    requires c in s
    ensures i < |s| && s[i] == c && c !in s[..i]
  {
    if s[0] == c then 0 else 1 + FirstIndex(s[1..], c)
  }

  /** The index of the last c in s. */
  function LastIndex(s: string, c: char): (i: nat)
    requires c in s
    ensures i < |s| && s[i] == c && c !in s[i + 1..]
  {
    if s[|s| - 1] == c then |s| - 1 else LastIndex(s[..|s| - 1], c)
  }

  /** s.split(c) for a one-character separator: the pieces between the separators. */
  function Split(s: string, c: char): (parts: seq<string>)
    ensures |parts| >= 1
    decreases |s|
  {
    if c !in s then [s] else var i := FirstIndex(s, c); [s[..i]] + Split(s[i + 1..], c)
  }

  lemma SplitAfterPiece(a: string, c: char, b: string)
    requires c !in a
    ensures Split(a + [c] + b, c) == [a] + Split(b, c)
  {
    var s := a + [c] + b;
    var i := FirstIndex(s, c);
    assert forall j :: 0 <= j < |a| ==> s[j] == a[j];
    assert !(i < |a|);
    assert forall j :: 0 <= j < i ==> s[..i][j] == s[j];
    assert s[|a|] == c;
    assert !(i > |a|);
    assert s[..i] == a;
    assert s[i + 1..] == b;
  }

  /** Splitting the joined lines at the separator gives the lines back, when none contains it. */
  lemma {:induction false} SplitJoin(xs: seq<string>, c: char)
    requires |xs| >= 1
    requires forall k :: 0 <= k < |xs| ==> c !in xs[k]
    ensures Split(Join(xs, [c]), c) == xs
    decreases |xs|
  {
    if |xs| > 1 {
      SplitJoin(xs[1..], c);
      SplitAfterPiece(xs[0], c, Join(xs[1..], [c]));
      assert xs == [xs[0]] + xs[1..];
    }
  }
}
