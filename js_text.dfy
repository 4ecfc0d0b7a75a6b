/**
 * The two JavaScript string operations the request handler relies on to read
 * an item id out of a pathname: `String.prototype.split` with a one-character
 * separator, and the global `parseInt` with no radix argument (section 19.2.5
 * of the ECMAScript 2024 Language Specification). Numbers are mathematical
 * integers here; the double-precision rounding of very long digit strings is
 * not modelled.
 */
module JsText {
  import opened Wrappers

  // ---------------------------------------------------------------------------
  // split(sep)
  // ---------------------------------------------------------------------------

  /** `s.split(sep)` for a one-character separator: the pieces between separators, in order. */
  function Split(s: string, sep: char): (parts: seq<string>)
    ensures |parts| >= 1
    ensures forall i :: 0 <= i < |parts| ==> sep !in parts[i]
    decreases |s|
  {
    if s == [] then [""]
    else
      var init := Split(s[..|s| - 1], sep);
      var c := s[|s| - 1];
      if c == sep then init + [""]
      else init[..|init| - 1] + [init[|init| - 1] + [c]]
  }

  /** `parts.join(sep)`: the inverse of Split. */
  function Join(parts: seq<string>, sep: char): string
    requires |parts| >= 1
  {
    if |parts| == 1 then parts[0]
    else Join(parts[..|parts| - 1], sep) + [sep] + parts[|parts| - 1]
  }

  /** Joining the pieces back gives the original string. */
  lemma {:induction false} JoinSplit(s: string, sep: char)
    ensures Join(Split(s, sep), sep) == s
    decreases |s|
  {
    if s != [] {
      var init := s[..|s| - 1];
      var c := s[|s| - 1];
      var p := Split(init, sep);
      JoinSplit(init, sep);
      assert s == init + [c];
      if c == sep {
        JoinAppendPiece(p, "", sep);
      } else {
        JoinExtendLast(p, c, sep);
      }
    }
  }

  lemma JoinAppendPiece(p: seq<string>, x: string, sep: char)
    requires |p| >= 1
    ensures Join(p + [x], sep) == Join(p, sep) + [sep] + x
  {
    assert (p + [x])[..|p|] == p;
  }

  lemma JoinExtendLast(p: seq<string>, c: char, sep: char)
    requires |p| >= 1
    ensures Join(p[..|p| - 1] + [p[|p| - 1] + [c]], sep) == Join(p, sep) + [c]
  {
    var q := p[..|p| - 1] + [p[|p| - 1] + [c]];
    if |p| > 1 {
      assert q[..|q| - 1] == p[..|p| - 1];
    }
  }

  /** A string without the separator is one piece. */
  lemma {:induction false} SplitNoSeparator(s: string, sep: char)
    requires sep !in s
    ensures Split(s, sep) == [s]
    decreases |s|
  {
    if s != [] {
      assert sep !in s[..|s| - 1];
      SplitNoSeparator(s[..|s| - 1], sep);
      assert s[..|s| - 1] + [s[|s| - 1]] == s;
    }
  }

  /** Appending a separator and a separator-free piece appends exactly that piece. */
  lemma {:induction false} SplitAppend(x: string, sep: char, y: string)
    requires sep !in y
    ensures Split(x + [sep] + y, sep) == Split(x, sep) + [y]
    decreases |y|
  {
    var s := x + [sep] + y;
    if y == [] {
      assert s[..|s| - 1] == x;
    } else {
      var y' := y[..|y| - 1];
      assert sep !in y';
      assert s[..|s| - 1] == x + [sep] + y';
      SplitAppend(x, sep, y');
      assert y' + [y[|y| - 1]] == y;
    }
  }

  /** Splitting a join of separator-free pieces gives the pieces back. */
  lemma {:induction false} SplitJoin(parts: seq<string>, sep: char)
    requires |parts| >= 1
    requires forall i :: 0 <= i < |parts| ==> sep !in parts[i]
    ensures Split(Join(parts, sep), sep) == parts
    decreases |parts|
  {
    if |parts| == 1 {
      SplitNoSeparator(parts[0], sep);
    } else {
      var init := parts[..|parts| - 1];
      SplitJoin(init, sep);
      SplitAppend(Join(init, sep), sep, parts[|parts| - 1]);
      assert init + [parts[|parts| - 1]] == parts;
    }
  }

  /** `parts[parts.length - 1]` of `s.split(sep)`. */
  function LastPiece(s: string, sep: char): (r: string)
    ensures sep !in r
  {
    var parts := Split(s, sep);
    parts[|parts| - 1]
  }

  /** The last piece is the suffix of `s` after its last separator (all of `s` when it has none). */
  lemma {:induction false} LastPieceIsTail(s: string, sep: char)
    ensures |LastPiece(s, sep)| <= |s|
    ensures LastPiece(s, sep) == s[|s| - |LastPiece(s, sep)|..]
    ensures sep !in LastPiece(s, sep)
    ensures |LastPiece(s, sep)| < |s| ==> s[|s| - |LastPiece(s, sep)| - 1] == sep
    decreases |s|
  {
    if s != [] {
      var init := s[..|s| - 1];
      LastPieceIsTail(init, sep);
      var t := LastPiece(init, sep);
      if s[|s| - 1] != sep {
        assert LastPiece(s, sep) == t + [s[|s| - 1]];
        assert s[|s| - |t| - 1..] == init[|init| - |t|..] + [s[|s| - 1]];
      }
    }
  }

  // ---------------------------------------------------------------------------
  // parseInt(string) with no radix
  // ---------------------------------------------------------------------------

  /** The WhiteSpace and LineTerminator code points that parseInt skips before the number. */
  predicate IsJsSpace(c: char) {
    c == '\t' || c == '\n' || c == '\U{B}' || c == '\U{C}' || c == '\r' || c == ' '
    || c == '\U{A0}' || c == '\U{1680}' || ('\U{2000}' <= c <= '\U{200A}')
    || c == '\U{2028}' || c == '\U{2029}' || c == '\U{202F}' || c == '\U{205F}'
    || c == '\U{3000}' || c == '\U{FEFF}'
  }

  /** The string with its leading white space removed. */
  function TrimStart(s: string): (r: string)
    ensures |r| <= |s| && r == s[|s| - |r|..]
    ensures forall i :: 0 <= i < |s| - |r| ==> IsJsSpace(s[i])
    ensures r == [] || !IsJsSpace(r[0])
    decreases |s|
  {
    if s != [] && IsJsSpace(s[0]) then TrimStart(s[1..]) else s
  }

  /** The value of a digit character in radix 36 (36 for a character that is no digit at all). */
  function DigitValue(c: char): (d: nat)
    ensures d <= 36
  {
    if '0' <= c <= '9' then (c - '0') as nat
    else if 'a' <= c <= 'z' then (c - 'a') as nat + 10
    else if 'A' <= c <= 'Z' then (c - 'A') as nat + 10
    else 36
  }

  predicate IsDigit(c: char, radix: nat) {
    DigitValue(c) < radix
  }

  /** The length of the longest prefix of `s` made of radix digits. */
  function DigitRun(s: string, radix: nat): (n: nat)
    ensures n <= |s|
    ensures forall i :: 0 <= i < n ==> IsDigit(s[i], radix)
    ensures n < |s| ==> !IsDigit(s[n], radix)
    decreases |s|
  {
    if s != [] && IsDigit(s[0], radix) then 1 + DigitRun(s[1..], radix) else 0
  }

  /** The number a string of radix digits denotes, most significant digit first. */
  function DigitsValue(ds: string, radix: nat): int
    requires forall i :: 0 <= i < |ds| ==> IsDigit(ds[i], radix)
    decreases |ds|
  {
    if ds == [] then 0
    else
      var init := ds[..|ds| - 1];
      assert forall i :: 0 <= i < |init| ==> init[i] == ds[i];
      DigitsValue(init, radix) * radix + DigitValue(ds[|ds| - 1])
  }

  /**
   * `parseInt(s)`: skip leading white space, take an optional sign, and read
   * the unsigned number that follows; None stands for NaN.
   */
  function ParseInt(s: string): Option<int> {
    ParseSigned(TrimStart(s))
  }

  /** An optional `-` or `+` sign, then an unsigned number. */
  function ParseSigned(t: string): Option<int> {
    if t != [] && (t[0] == '-' || t[0] == '+') then
      match ParseUnsigned(t[1..])
      case None => None
      case Some(m) => Some(if t[0] == '-' then -m else m)
    else
      match ParseUnsigned(t)
      case None => None
      case Some(m) => Some(m)
  }

  /**
   * Radix 16 after a `0x` or `0X` prefix, radix 10 otherwise; the longest run
   * of digits in that radix, None when it is empty. What follows is ignored.
   */
  function ParseUnsigned(u: string): Option<int> {
    var hex := |u| >= 2 && u[0] == '0' && (u[1] == 'x' || u[1] == 'X');
    var radix := if hex then 16 else 10;
    var v := if hex then u[2..] else u;
    var n := DigitRun(v, radix);
    if n == 0 then None else Some(DigitsValue(v[..n], radix))
  }

  // ---------------------------------------------------------------------------
  // Decimal rendering, the partner of ParseInt
  // ---------------------------------------------------------------------------

  function DecimalDigit(d: nat): char
    requires d < 10
  {
    ('0' as int + d) as char
  }

  /** The decimal rendering of a natural number, without leading zeros. */
  function ShowNat(n: nat): string
    decreases n
  {
    if n < 10 then [DecimalDigit(n)] else ShowNat(n / 10) + [DecimalDigit(n % 10)]
  }

  /** The decimal rendering of an integer, with a `-` for a negative one. */
  function ShowInt(n: int): string {
    if n < 0 then "-" + ShowNat(-n) else ShowNat(n)
  }

  /** ShowNat writes only decimal digits, starts with `0` only for zero, and denotes `n`. */
  lemma {:induction false} ShowNatDenotes(n: nat)
    ensures |ShowNat(n)| >= 1
    ensures forall i :: 0 <= i < |ShowNat(n)| ==> IsDigit(ShowNat(n)[i], 10)
    ensures ShowNat(n)[0] == '0' ==> n == 0
    ensures DigitsValue(ShowNat(n), 10) == n
    decreases n
  {
    if n >= 10 {
      ShowNatDenotes(n / 10);
      var s := ShowNat(n);
      assert s[..|s| - 1] == ShowNat(n / 10);
    }
  }

  /** A digit run followed by a non-digit is read up to the non-digit. */
  lemma {:induction false} DigitRunStops(ds: string, rest: string, radix: nat)
    requires forall i :: 0 <= i < |ds| ==> IsDigit(ds[i], radix)
    requires rest == [] || !IsDigit(rest[0], radix)
    ensures DigitRun(ds + rest, radix) == |ds|
    decreases |ds|
  {
    if ds != [] {
      assert (ds + rest)[1..] == ds[1..] + rest;
      DigitRunStops(ds[1..], rest, radix);
    }
  }

  /** An unsigned decimal rendering followed by non-digit text is read back. */
  lemma ParseUnsignedShowNat(m: nat, rest: string)
    requires rest == [] || !IsDigit(rest[0], 10)
    requires m == 0 && rest != [] ==> rest[0] != 'x' && rest[0] != 'X'
    ensures ParseUnsigned(ShowNat(m) + rest) == Some(m)
  {
    var d := ShowNat(m);
    ShowNatDenotes(m);
    DigitRunStops(d, rest, 10);
    assert (d + rest)[..|d|] == d;
    var u := d + rest;
    assert |u| >= 2 && u[0] == '0' ==> m == 0 && u[1] == rest[0];
  }

  /**
   * parseInt reads back a decimal rendering, whatever non-digit text follows
   * it (for zero, as long as that text does not turn `0` into a `0x` prefix).
   */
  lemma ParseIntShowInt(n: int, rest: string)
    requires rest == [] || !IsDigit(rest[0], 10)
    requires n == 0 && rest != [] ==> rest[0] != 'x' && rest[0] != 'X'
    ensures ParseInt(ShowInt(n) + rest) == Some(n)
  {
    if n < 0 {
      ParseIntShowNegative(n, rest);
    } else {
      ParseIntShowNonNegative(n, rest);
    }
  }

  lemma ParseIntShowNegative(n: int, rest: string)
    requires n < 0
    requires rest == [] || !IsDigit(rest[0], 10)
    ensures ParseInt(ShowInt(n) + rest) == Some(n)
  {
    var m := -n;
    var u := ShowNat(m) + rest;
    assert ShowInt(n) + rest == ['-'] + u by {
      ShowNegative(n, rest);
    }
    assert ParseInt(['-'] + u) == Some(n) by {
      ParseUnsignedShowNat(m, rest);
      ParseIntSigned(u, m);
    }
  }

  lemma ShowNegative(n: int, rest: string)
    requires n < 0
    ensures ShowInt(n) + rest == ['-'] + (ShowNat(-n) + rest)
  {
  }

  lemma ParseIntShowNonNegative(n: nat, rest: string)
    requires rest == [] || !IsDigit(rest[0], 10)
    requires n == 0 && rest != [] ==> rest[0] != 'x' && rest[0] != 'X'
    ensures ParseInt(ShowInt(n) + rest) == Some(n)
  {
    var u := ShowNat(n) + rest;
    ParseUnsignedShowNat(n, rest);
    ShowNatStartsWithDigit(n, rest);
    ParseIntDigitFirst(u, n);
    assert ShowInt(n) + rest == u;
  }

  lemma ShowNatStartsWithDigit(m: nat, rest: string)
    ensures ShowNat(m) + rest != [] && IsDigit((ShowNat(m) + rest)[0], 10)
  {
    ShowNatDenotes(m);
  }

  /** Text that starts with a digit is read by ParseUnsigned alone. */
  lemma ParseIntDigitFirst(u: string, m: int)
    requires u != [] && IsDigit(u[0], 10)
    requires ParseUnsigned(u) == Some(m)
    ensures ParseInt(u) == Some(m)
  {
    DigitIsNoSpaceNorSign(u[0]);
  }

  /** A leading minus sign negates what ParseUnsigned reads after it. */
  lemma ParseIntSigned(u: string, m: int)
    requires ParseUnsigned(u) == Some(m)
    ensures ParseInt(['-'] + u) == Some(-m)
  {
    TrimStartNoSpace(['-'] + u);
    ParseSignedMinus(u, m);
  }

  lemma TrimStartNoSpace(t: string)
    requires t != [] && !IsJsSpace(t[0])
    ensures TrimStart(t) == t
  {
  }

  lemma ParseSignedMinus(u: string, m: int)
    requires ParseUnsigned(u) == Some(m)
    ensures ParseSigned(['-'] + u) == Some(-m)
  {
    assert (['-'] + u)[1..] == u;
  }

  lemma DigitIsNoSpaceNorSign(c: char)
    requires IsDigit(c, 10)
    ensures !IsJsSpace(c) && c != '-' && c != '+'
  {
  }

  /** White space in front of the number does not change what parseInt reads. */
  lemma ParseIntSkipsSpace(c: char, s: string)
    requires IsJsSpace(c)
    ensures ParseInt([c] + s) == ParseInt(s)
  {
    assert ([c] + s)[1..] == s;
  }

  /** A `0x` prefix switches to radix 16: `parseInt("0x1f")` is 31. */
  lemma ParseIntHexPrefix()
    ensures ParseInt("0x1f") == Some(31)
  {
    var s := "0x1f";
    TrimStartNoSpace(s);
    assert s[2..] == "1f";
    assert DigitRun("f", 16) == 1 by {
      assert "f"[1..] == "";
    }
    assert DigitRun("1f", 16) == 2 by {
      assert "1f"[1..] == "f";
    }
    assert "1f"[..2] == "1f" && "1f"[..1] == "1";
    assert DigitsValue("1", 16) == 1 by {
      assert "1"[..0] == "";
    }
    assert DigitsValue("1f", 16) == 31;
  }

  /** A `+` sign and leading zeros are accepted: `parseInt("+007")` is 7. */
  lemma ParseIntPlusLeadingZeros()
    ensures ParseInt("+007") == Some(7)
  {
    var s := "+007";
    TrimStartNoSpace(s);
    assert s[1..] == "007";
    assert DigitRun("7", 10) == 1 by {
      assert "7"[1..] == "";
    }
    assert DigitRun("07", 10) == 2 by {
      assert "07"[1..] == "7";
    }
    assert DigitRun("007", 10) == 3 by {
      assert "007"[1..] == "07";
    }
    assert "007"[..3] == "007" && "007"[..2] == "00" && "00"[..1] == "0" && "0"[..0] == "";
    assert DigitsValue("007", 10) == 7;
  }

  /** A `0x` prefix with no hex digit after it is NaN: `parseInt("0xg")`. */
  lemma ParseIntEmptyHex()
    ensures ParseInt("0xg") == None
  {
    var s := "0xg";
    TrimStartNoSpace(s);
    assert s[2..] == "g";
  }

  /** A string that holds no decimal digit at all parses to NaN. */
  lemma ParseIntNoDigits(s: string)
    requires forall i :: 0 <= i < |s| ==> !IsDigit(s[i], 10)
    ensures ParseInt(s) == None
  {
    var t := TrimStart(s);
    assert forall i :: 0 <= i < |t| ==> t[i] == s[|s| - |t| + i];
    if t != [] && (t[0] == '-' || t[0] == '+') {
      ParseUnsignedNoDigit(t[1..]);
    } else {
      ParseUnsignedNoDigit(t);
    }
  }

  /** Text that does not start with a decimal digit holds no number. */
  lemma ParseUnsignedNoDigit(u: string)
    requires u == [] || !IsDigit(u[0], 10)
    ensures ParseUnsigned(u) == None
  {
  }
}
