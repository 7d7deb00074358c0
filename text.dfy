/** Shared vocabulary of the plugin model: optional values, bytes, and the
    string operations the plugin relies on -- ASCII case folding, prefix tests,
    the comma split and join used for MIDI event messages, and the .NET
    `Integer` number style used by `byte.Parse` and `int.TryParse`. */
module Text {

  datatype Option<+T> = None | Some(value: T)

  /** One byte of a MIDI buffer, as its unsigned value. */
  newtype byte = x: int | 0 <= x < 256

  /** `b & 0xF0`: the high nibble kept in place. */
  function HighBits(b: byte): (r: byte)
    ensures r as int % 16 == 0 && r as int <= b as int < r as int + 16
  {
    b / 16 * 16
  }

  /** `b & 0x0F`: the low nibble. */
  function LowBits(b: byte): (r: byte)
    ensures r < 16 && HighBits(b) + r == b
  {
    b % 16
  }

  /** The unchecked C# cast `(byte)n`, and Kotlin's `n.toByte()`: the low eight
      bits of the two's-complement representation of `n`. */
  function LowByte(n: int): (b: byte)
    ensures 0 <= n < 256 ==> b as int == n
    ensures (b as int - n) % 256 == 0
  {
    (n % 256) as byte
  }

  // ---------------------------------------------------------------------
  // Case folding and prefixes
  // ---------------------------------------------------------------------

  predicate IsAsciiUpper(c: char) { 'A' <= c <= 'Z' }

  function AsciiLowerChar(c: char): char
  {
    if IsAsciiUpper(c) then (c as int + 32) as char else c
  }

  /** `ToLower()` / `toLowerCase()`, restricted to the ASCII letters. */
  function AsciiLower(s: string): (r: string)
    ensures |r| == |s|
    ensures forall i :: 0 <= i < |s| ==> r[i] == AsciiLowerChar(s[i])
    ensures forall i :: 0 <= i < |r| ==> !IsAsciiUpper(r[i])
  {
    seq(|s|, i requires 0 <= i < |s| => AsciiLowerChar(s[i]))
  }

  /** A word folds to the text its letters fold to, one by one. */
  lemma LowerOfSpelling(word: string, lower: string)
    requires |word| == |lower|
    requires forall i :: 0 <= i < |word| ==> AsciiLowerChar(word[i]) == lower[i]
    ensures AsciiLower(word) == lower
  {
  }

  /** Folding twice is folding once: a name that is already lower case
      matches a lower-case prefix exactly when its original does. */
  lemma AsciiLowerIdempotent(s: string)
    ensures AsciiLower(AsciiLower(s)) == AsciiLower(s)
  {
    var once := AsciiLower(s);
    var twice := AsciiLower(once);
    forall i | 0 <= i < |s| ensures twice[i] == once[i] {
      assert !IsAsciiUpper(once[i]);
    }
  }

  predicate StartsWith(s: string, prefix: string)
  {
    |prefix| <= |s| && s[..|prefix|] == prefix
  }

  /** `name.ToLower().StartsWith(prefix)`. */
  predicate MatchesPrefix(name: string, prefix: string)
  {
    StartsWith(AsciiLower(name), prefix)
  }

  // ---------------------------------------------------------------------
  // Splitting and joining on a separator
  // ---------------------------------------------------------------------

  /** C# `s.Split(sep)`: every separator ends a part, so adjacent separators
      give empty parts and the empty string gives one empty part. */
  function Split(s: string, sep: char): (parts: seq<string>)
    ensures |parts| >= 1
    ensures forall i :: 0 <= i < |parts| ==> sep !in parts[i]
  {
    if |s| == 0 then [""]
    else
      var rest := Split(s[1..], sep);
      if s[0] == sep then [""] + rest
      else [[s[0]] + rest[0]] + rest[1..]
  }

  /** Kotlin `joinToString(sep)` of a non-empty list of parts. */
  function Join(parts: seq<string>, sep: char): (s: string)
    requires |parts| >= 1
    ensures parts[0] <= s
  {
    if |parts| == 1 then parts[0] else parts[0] + [sep] + Join(parts[1..], sep)
  }

  lemma {:induction false} SplitWithoutSeparator(p: string, sep: char)
    requires sep !in p
    ensures Split(p, sep) == [p]
  {
    if |p| > 0 {
      assert sep !in p[1..];
      SplitWithoutSeparator(p[1..], sep);
      assert [p[0]] + p[1..] == p;
    }
  }

  lemma {:induction false} SplitLeadingPart(p: string, rest: string, sep: char)
    requires sep !in p
    ensures Split(p + [sep] + rest, sep) == [p] + Split(rest, sep)
  {
    var s := p + [sep] + rest;
    if |p| == 0 {
      assert s == [sep] + rest;
      assert s[1..] == rest;
    } else {
      assert s[1..] == p[1..] + [sep] + rest;
      assert sep !in p[1..];
      SplitLeadingPart(p[1..], rest, sep);
      assert [p[0]] + p[1..] == p;
    }
  }

  /** Splitting a joined list gives the parts back, provided no part contains
      the separator. */
  lemma {:induction false} SplitJoin(parts: seq<string>, sep: char)
    requires |parts| >= 1
    requires forall i :: 0 <= i < |parts| ==> sep !in parts[i]
    ensures Split(Join(parts, sep), sep) == parts
  {
    if |parts| == 1 {
      SplitWithoutSeparator(parts[0], sep);
    } else {
      SplitJoin(parts[1..], sep);
      SplitLeadingPart(parts[0], Join(parts[1..], sep), sep);
      assert [parts[0]] + parts[1..] == parts;
    }
  }

  /** Joining the parts of a split gives the string back. */
  lemma {:induction false} JoinSplit(s: string, sep: char)
    ensures Join(Split(s, sep), sep) == s
  {
    if |s| > 0 {
      var rest := Split(s[1..], sep);
      JoinSplit(s[1..], sep);
      if s[0] == sep {
        assert Split(s, sep)[1..] == rest;
        assert s == [sep] + s[1..];
      } else {
        var parts := Split(s, sep);
        assert parts[1..] == rest[1..];
        if |rest| == 1 {
          assert Join(rest, sep) == rest[0];
        } else {
          assert Join(rest, sep) == rest[0] + [sep] + Join(rest[1..], sep);
        }
        assert s == [s[0]] + s[1..];
      }
    }
  }

  // ---------------------------------------------------------------------
  // Decimal numbers
  // ---------------------------------------------------------------------

  predicate IsDigit(c: char) { '0' <= c <= '9' }

  predicate AllDigits(s: string) { forall i :: 0 <= i < |s| ==> IsDigit(s[i]) }

  function DigitValue(c: char): nat
    requires IsDigit(c)
  {
    c as int - '0' as int
  }

  function DigitChar(d: nat): char
    requires d < 10
  {
    ('0' as int + d) as char
  }

  /** The value of a string of decimal digits, most significant first. */
  function DigitsValue(s: string): nat
    requires AllDigits(s)
  {
    if |s| == 0 then 0 else DigitsValue(s[..|s| - 1]) * 10 + DigitValue(s[|s| - 1])
  }

  /** Kotlin `Int.toString()` of a non-negative value: the shortest decimal
      spelling, so never a leading zero, and its digits read back as `n`. */
  function NatToDecimal(n: nat): (s: string)
    ensures |s| >= 1 && AllDigits(s)
    ensures |s| > 1 ==> s[0] != '0'
    ensures DigitsValue(s) == n
  {
    if n < 10 then [DigitChar(n)]
    else
      var s := NatToDecimal(n / 10) + [DigitChar(n % 10)];
      assert s[..|s| - 1] == NatToDecimal(n / 10);
      s
  }

  /** The characters .NET skips around a number: space and U+0009..U+000D. */
  predicate IsNumberWhite(c: char) { c == ' ' || '\t' <= c <= '\r' }

  predicate AllNumberWhite(s: string) { forall i :: 0 <= i < |s| ==> IsNumberWhite(s[i]) }

  lemma AllNumberWhiteAppend(a: string, b: string)
    requires AllNumberWhite(a) && AllNumberWhite(b)
    ensures AllNumberWhite(a + b)
  {
    forall i | 0 <= i < |a + b| ensures IsNumberWhite((a + b)[i]) {
      if i < |a| { assert (a + b)[i] == a[i]; } else { assert (a + b)[i] == b[i - |a|]; }
    }
  }

  /** One white character in front of what the rest trims to. */
  lemma TrimStartStep(s: string, t: string)
    requires |s| > 0 && IsNumberWhite(s[0])
    requires |t| <= |s| - 1 && t == s[1..][|s| - 1 - |t|..] && AllNumberWhite(s[1..][..|s| - 1 - |t|])
    ensures t == s[|s| - |t|..] && AllNumberWhite(s[..|s| - |t|])
  {
    assert s[..|s| - |t|] == [s[0]] + s[1..][..|s| - 1 - |t|];
    assert s[1..][|s| - 1 - |t|..] == s[|s| - |t|..];
    AllNumberWhiteAppend([s[0]], s[1..][..|s| - 1 - |t|]);
  }

  /** One white character behind what the rest trims to. */
  lemma TrimEndStep(s: string, t: string)
    requires |s| > 0 && IsNumberWhite(s[|s| - 1])
    requires |t| <= |s| - 1 && t == s[..|s| - 1][..|t|] && AllNumberWhite(s[..|s| - 1][|t|..])
    ensures t == s[..|t|] && AllNumberWhite(s[|t|..])
  {
    assert s[|t|..] == s[..|s| - 1][|t|..] + [s[|s| - 1]];
    assert s[..|s| - 1][..|t|] == s[..|t|];
    AllNumberWhiteAppend(s[..|s| - 1][|t|..], [s[|s| - 1]]);
  }

  /** Drops the leading white space. */
  function TrimStart(s: string): (t: string)
    ensures |t| <= |s| && (|t| > 0 ==> !IsNumberWhite(t[0]))
  {
    if |s| > 0 && IsNumberWhite(s[0]) then TrimStart(s[1..]) else s
  }

  /** Drops the trailing white space, the mirror image of `TrimStart`. */
  function TrimEnd(s: string): (t: string)
    ensures |t| <= |s| && (|t| > 0 ==> !IsNumberWhite(t[|t| - 1]))
  {
    if |s| > 0 && IsNumberWhite(s[|s| - 1]) then TrimEnd(s[..|s| - 1]) else s
  }

  /** What `TrimStart` drops is all white space, and what it keeps is the
      rest of `s`. */
  lemma {:induction false} TrimStartMeaning(s: string)
    ensures TrimStart(s) == s[|s| - |TrimStart(s)|..]
    ensures AllNumberWhite(s[..|s| - |TrimStart(s)|])
  {
    if |s| > 0 && IsNumberWhite(s[0]) {
      TrimStartMeaning(s[1..]);
      TrimStartStep(s, TrimStart(s[1..]));
    }
  }

  /** What `TrimEnd` drops is all white space, and what it keeps is the
      front of `s`. */
  lemma {:induction false} TrimEndMeaning(s: string)
    ensures TrimEnd(s) == s[..|TrimEnd(s)|]
    ensures AllNumberWhite(s[|TrimEnd(s)|..])
  {
    if |s| > 0 && IsNumberWhite(s[|s| - 1]) {
      TrimEndMeaning(s[..|s| - 1]);
      TrimEndStep(s, TrimEnd(s[..|s| - 1]));
    }
  }

  /** The .NET `Integer` number style: optional white space, an optional
      sign, one or more decimal digits, optional white space. The trailing
      NUL characters .NET also skips are not modelled. Blank text fails. */
  function ParseInteger(s: string): (r: Option<int>)
    ensures AllNumberWhite(s) ==> r.None?
  {
    BlankTrimsToEmpty(s);
    var t := TrimEnd(TrimStart(s));
    if |t| == 0 then None
    else if t[0] == '-' || t[0] == '+' then
      var digits := t[1..];
      if |digits| > 0 && AllDigits(digits) then
        var magnitude: int := DigitsValue(digits);
        Some(if t[0] == '-' then -magnitude else magnitude)
      else None
    else if AllDigits(t) then Some(DigitsValue(t))
    else None
  }

  /**
   * What `ParseInteger` accepts beyond its own contract: a bare run of
   * digits is read as its decimal value, and only a minus sign makes a
   * negative number.
   */
  lemma ParseIntegerMeaning(s: string)
    ensures |s| > 0 && AllDigits(s) ==> ParseInteger(s) == Some(DigitsValue(s))
    ensures ParseInteger(s).Some? && ParseInteger(s).value < 0 ==> '-' in s
  {
    if |s| > 0 && AllDigits(s) {
      ParseIntegerOfDigits(s);
    }
    if ParseInteger(s).Some? && ParseInteger(s).value < 0 {
      NegativeHasMinus(s);
    }
  }

  lemma ParseIntegerOfDigits(s: string)
    requires |s| > 0 && AllDigits(s)
    ensures ParseInteger(s) == Some(DigitsValue(s))
  {
    assert IsDigit(s[0]) && IsDigit(s[|s| - 1]);
    assert TrimStart(s) == s;
    assert TrimEnd(s) == s;
  }

  lemma BlankTrimsToEmpty(s: string)
    ensures AllNumberWhite(s) ==> TrimStart(s) == []
  {
    TrimStartMeaning(s);
    TrimStartFirst(s);
  }

  /** What `TrimStart` keeps begins where the dropped white space ends. */
  lemma TrimStartFirst(s: string)
    ensures |TrimStart(s)| > 0 ==> TrimStart(s)[0] == s[|s| - |TrimStart(s)|]
  {
    TrimStartMeaning(s);
  }

  lemma NegativeHasMinus(s: string)
    requires ParseInteger(s).Some? && ParseInteger(s).value < 0
    ensures '-' in s
  {
    var u := TrimStart(s);
    var t := TrimEnd(u);
    TrimStartMeaning(s);
    TrimEndMeaning(u);
    assert t[0] == '-';
    assert t[0] == u[0] == s[|s| - |u|];
  }

  lemma DecimalIsTrimmed(n: nat)
    ensures TrimEnd(TrimStart(NatToDecimal(n))) == NatToDecimal(n)
  {
    var s := NatToDecimal(n);
    assert !IsNumberWhite(s[0]) && !IsNumberWhite(s[|s| - 1]);
  }

  /** Every decimal spelling produced by `NatToDecimal` parses back. */
  lemma ParseIntegerOfDecimal(n: nat)
    ensures ParseInteger(NatToDecimal(n)) == Some(n)
  {
    DecimalIsTrimmed(n);
  }

  /** `byte.Parse`: an `Integer`-style number in 0..255; anything else fails. */
  function ParseByte(s: string): (r: Option<byte>)
    ensures r.Some? <==> ParseInteger(s).Some? && 0 <= ParseInteger(s).value < 256
    ensures r.Some? ==> r.value as int == ParseInteger(s).value
  {
    match ParseInteger(s)
    case Some(v) => if 0 <= v < 256 then Some(v as byte) else None
    case None => None
  }

  /** `byte.Parse` accepts exactly the decimal spellings of 0..255 among the
      canonical ones, and reports an overflow for larger values. */
  lemma ParseByteOfDecimal(n: nat)
    ensures n < 256 ==> ParseByte(NatToDecimal(n)) == Some(n as byte)
    ensures n >= 256 ==> ParseByte(NatToDecimal(n)) == None
  {
    ParseIntegerOfDecimal(n);
  }

  const Int32Min: int := -0x8000_0000
  const Int32Max: int := 0x7FFF_FFFF

  /** `int.TryParse`: an `Integer`-style number within the 32-bit range. */
  function TryParseInt32(s: string): (r: Option<int>)
    ensures r.Some? ==> Int32Min <= r.value <= Int32Max
    ensures r.Some? ==> ParseInteger(s) == r
    ensures ParseInteger(s).Some? && Int32Min <= ParseInteger(s).value <= Int32Max ==> r == ParseInteger(s)
    ensures ParseInteger(s).Some? && !(Int32Min <= ParseInteger(s).value <= Int32Max) ==> r.None?
  {
    match ParseInteger(s)
    case Some(v) => if Int32Min <= v <= Int32Max then Some(v) else None
    case None => None
  }
}
