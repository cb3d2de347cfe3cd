/** The small string and number helpers of `utils.py`: zero padding, date formatting,
    comma-separated line splitting and the confidence of a win probability. */
module Utils {

  /** Python's `str.isspace` characters, which `str.strip()` with no argument removes. */
  predicate IsSpace(c: char)
  {
    || c == ' ' || ('\t' <= c <= '\r') || ('\U{1C}' <= c <= '\U{1F}')
    || c == '\U{85}' || c == '\U{A0}' || c == '\U{1680}' || ('\U{2000}' <= c <= '\U{200A}')
    || c == '\U{2028}' || c == '\U{2029}' || c == '\U{202F}' || c == '\U{205F}' || c == '\U{3000}'
  }

  predicate IsDigit(c: char)
  {
    '0' <= c <= '9'
  }

  predicate AllDigits(s: string)
  {
    forall i :: 0 <= i < |s| ==> IsDigit(s[i])
  }

  function DigitChar(d: nat): (c: char)
    requires d < 10
    ensures IsDigit(c) && c as int - '0' as int == d
  {
    ('0' as int + d) as char
  }

  /** Decimal value of a string of digits (most significant first). */
  function DigitsValue(s: string): nat
    requires AllDigits(s)
  {
    if s == [] then 0
    else DigitsValue(s[..|s| - 1]) * 10 + (s[|s| - 1] as int - '0' as int)
  }

  /** Python `str(n)` for a non-negative integer: decimal digits, no leading zero. */
  function NatToString(n: nat): (s: string)
    ensures |s| >= 1 && AllDigits(s)
  {
    if n < 10 then [DigitChar(n)] else NatToString(n / 10) + [DigitChar(n % 10)]
  }

  /** Python `str(n)` for any integer: a '-' sign in front of negative numbers. */
  function IntToString(n: int): string
  {
    if n < 0 then "-" + NatToString(-n) else NatToString(n)
  }

  /** Python `s * n`: `n` copies of `s`, the empty string when `n <= 0`. */
  function Repeat(s: string, n: int): (r: string)
    ensures n <= 0 ==> r == []
    ensures n > 0 ==> |r| == |s| * n
    decreases n
  {
    if n <= 0 then [] else s + Repeat(s, n - 1)
  }

  /** `zero_pad(to_pad, length, padder)`: `padder` repeated `length - len(to_pad)` times, then
      `to_pad`. An integer argument is first turned into its decimal string. */
  function ZeroPad(toPad: string, length: int, padder: string): string
  {
    Repeat(padder, length - |toPad|) + toPad
  }

  /** `zero_pad_date(year, month, day)`: "YYYY-MM-DD" with zero padding of each part. */
  function ZeroPadDate(year: int, month: int, day: int): string
  {
    ZeroPad(IntToString(year), 4, "0") + "-" + ZeroPad(IntToString(month), 2, "0") + "-"
    + ZeroPad(IntToString(day), 2, "0")
  }

  /** Number of whitespace characters at the start of `s`. */
  function LeadingSpaces(s: string): (n: nat)
    ensures n <= |s|
    ensures forall k :: 0 <= k < n ==> IsSpace(s[k])
    ensures n < |s| ==> !IsSpace(s[n])
  {
    if s != [] && IsSpace(s[0]) then 1 + LeadingSpaces(s[1..]) else 0
  }

  /** Number of whitespace characters at the end of `s`. */
  function TrailingSpaces(s: string): (n: nat)
    ensures n <= |s|
    ensures forall k :: |s| - n <= k < |s| ==> IsSpace(s[k])
    ensures n < |s| ==> !IsSpace(s[|s| - n - 1])
  {
    if s != [] && IsSpace(s[|s| - 1]) then 1 + TrailingSpaces(s[..|s| - 1]) else 0
  }

  /** Leading and trailing whitespace removed (Python `str.strip()`). */
  function Strip(s: string): string
  {
    var left := s[LeadingSpaces(s)..];
    left[..|left| - TrailingSpaces(left)]
  }

  /** Python `s.split(sep)` for a one-character separator: the pieces between separators,
      empty pieces included; always at least one piece. */
  function Split(s: string, sep: char): (r: seq<string>)
    ensures |r| >= 1
  {
    if s == [] then [[]]
    else
      var rest := Split(s[1..], sep);
      if s[0] == sep then [[]] + rest else [[s[0]] + rest[0]] + rest[1..]
  }

  /** The inverse of `Split`: the pieces joined with the separator between them. */
  function Join(parts: seq<string>, sep: char): string
  {
    if parts == [] then []
    else if |parts| == 1 then parts[0]
    else parts[0] + [sep] + Join(parts[1..], sep)
  }

  function CountChar(s: string, c: char): nat
  {
    if s == [] then 0 else (if s[0] == c then 1 else 0) + CountChar(s[1..], c)
  }

  /** `split_csv_line(line)`: split on ',' and strip every field. */
  function SplitCsvLine(line: string): seq<string>
  {
    var fields := Split(line, ',');
    seq(|fields|, i requires 0 <= i < |fields| => Strip(fields[i]))
  }

  /** `confidence_from_prediction(p)`: the probability of the more likely side. */
  function ConfidenceFromPrediction(p: real): (c: real)
    ensures c >= p && c >= 1.0 - p
    ensures c == p || c == 1.0 - p
  {
    if p >= 0.5 then p else 1.0 - p
  }

  // ---------------------------------------------------------------------------------------
  // zero_pad

  /** A string already at least `length` long is returned unchanged. */
  lemma ZeroPadLongEnough(toPad: string, length: int, padder: string)
    requires |toPad| >= length
    ensures ZeroPad(toPad, length, padder) == toPad
  {
  }

  /** With a one-character padder the result is exactly max(length, len(to_pad)) long, ends with
      `to_pad`, and everything before it is the padder. */
  lemma {:induction false} ZeroPadShape(toPad: string, length: int, padder: char)
    ensures var r := ZeroPad(toPad, length, [padder]);
      && |r| == (if length > |toPad| then length else |toPad|)
      && r[|r| - |toPad|..] == toPad
      && forall i :: 0 <= i < |r| - |toPad| ==> r[i] == padder
  {
    RepeatChar(padder, length - |toPad|);
  }

  lemma {:induction false} RepeatChar(c: char, n: int)
    ensures forall i :: 0 <= i < |Repeat([c], n)| ==> Repeat([c], n)[i] == c
    decreases n
  {
    if n > 0 {
      RepeatChar(c, n - 1);
      assert Repeat([c], n) == [c] + Repeat([c], n - 1);
    }
  }

  // ---------------------------------------------------------------------------------------
  // zero_pad_date

  lemma {:induction false} NatToStringValue(n: nat)
    ensures DigitsValue(NatToString(n)) == n
  {
    if n >= 10 {
      NatToStringValue(n / 10);
      var s := NatToString(n);
      assert s[..|s| - 1] == NatToString(n / 10);
    }
  }

  lemma {:induction false} NatToStringLength(n: nat, k: nat)
    requires 1 <= k && n < Pow10(k)
    ensures |NatToString(n)| <= k
  {
    if n >= 10 {
      assert k != 1 by {
        assert Pow10(1) == 10;
      }
      NatToStringLength(n / 10, k - 1);
    }
  }

  function Pow10(k: nat): (r: nat)
    ensures r >= 1
  {
    if k == 0 then 1 else 10 * Pow10(k - 1)
  }

  lemma {:induction false} LeadingZerosValue(k: int, s: string)
    requires AllDigits(s)
    ensures AllDigits(Repeat("0", k) + s)
    ensures DigitsValue(Repeat("0", k) + s) == DigitsValue(s)
    decreases |s|
  {
    RepeatChar('0', k);
    var z := Repeat("0", k);
    if s == [] {
      assert z + s == z;
      ZerosValue(k);
    } else {
      var t := z + s;
      assert t[..|t| - 1] == z + s[..|s| - 1];
      LeadingZerosValue(k, s[..|s| - 1]);
    }
  }

  lemma {:induction false} ZerosValue(k: int)
    ensures AllDigits(Repeat("0", k))
    ensures DigitsValue(Repeat("0", k)) == 0
    decreases k
  {
    RepeatChar('0', k);
    if k > 0 {
      var z := Repeat("0", k);
      assert z == "0" + Repeat("0", k - 1);
      assert z == Repeat("0", k - 1) + "0" by {
        RepeatSwap(k);
      }
      assert z[..|z| - 1] == Repeat("0", k - 1);
      ZerosValue(k - 1);
    }
  }

  lemma {:induction false} RepeatSwap(k: int)
    requires k > 0
    ensures Repeat("0", k) == Repeat("0", k - 1) + "0"
    decreases k
  {
    if k > 1 {
      RepeatSwap(k - 1);
    }
  }

  /** A string of k digits is worth less than 10^k. */
  lemma {:induction false} DigitsValueBound(s: string)
    requires AllDigits(s)
    ensures DigitsValue(s) < Pow10(|s|)
  {
    if s != [] {
      DigitsValueBound(s[..|s| - 1]);
    }
  }

  lemma {:induction false} Pow10Monotone(j: nat, k: nat)
    requires j <= k
    ensures Pow10(j) <= Pow10(k)
  {
    if j < k {
      Pow10Monotone(j, k - 1);
    }
  }

  /** `str(n)` has at most k characters exactly when n < 10^k. */
  lemma NatToStringLengthIff(n: nat, k: nat)
    requires 1 <= k
    ensures |NatToString(n)| <= k <==> n < Pow10(k)
  {
    if n < Pow10(k) {
      NatToStringLength(n, k);
    }
    if |NatToString(n)| <= k {
      NatToStringValue(n);
      DigitsValueBound(NatToString(n));
      Pow10Monotone(|NatToString(n)|, k);
    }
  }

  /** A date with a 4-digit year, 2-digit month and 2-digit day formats as "YYYY-MM-DD": ten
      characters, dashes at positions 4 and 7, and each part reads back as its number. */
  lemma ZeroPadDateRoundTrip(year: int, month: int, day: int)
    requires 0 <= year <= 9999 && 0 <= month <= 99 && 0 <= day <= 99
    ensures var r := ZeroPadDate(year, month, day);
      && |r| == 10 && r[4] == '-' && r[7] == '-'
      && AllDigits(r[0..4]) && AllDigits(r[5..7]) && AllDigits(r[8..10])
      && DigitsValue(r[0..4]) == year && DigitsValue(r[5..7]) == month
      && DigitsValue(r[8..10]) == day
  {
    var y := PaddedPart(year, 4);
    var m := PaddedPart(month, 2);
    var d := PaddedPart(day, 2);
    DateLayout(y, m, d);
  }

  /** Where the parts of "YYYY-MM-DD" sit once they have their widths. */
  lemma DateLayout(y: string, m: string, d: string)
    requires |y| == 4 && |m| == 2 && |d| == 2
    ensures var r := y + "-" + m + "-" + d;
      && |r| == 10 && r[4] == '-' && r[7] == '-'
      && r[0..4] == y && r[5..7] == m && r[8..10] == d
  {
    var r := y + "-" + m + "-" + d;
    assert r[0..4] == y;
    assert r[5..7] == m;
    assert r[8..10] == d;
  }

  /** One zero-padded part of a date, with the facts `ZeroPadDateRoundTrip` needs. */
  lemma PaddedPart(n: nat, k: nat) returns (p: string)
    requires 1 <= k && n < Pow10(k)
    ensures p == ZeroPad(IntToString(n), k, "0")
    ensures |p| == k && AllDigits(p) && DigitsValue(p) == n
  {
    p := ZeroPad(IntToString(n), k, "0");
    NatToStringLength(n, k);
    NatToStringValue(n);
    ZeroPadShape(IntToString(n), k, '0');
    LeadingZerosValue(k - |NatToString(n)|, NatToString(n));
  }

  // ---------------------------------------------------------------------------------------
  // split_csv_line

  /** Splitting yields one more piece than there are separators. */
  lemma {:induction false} SplitCount(s: string, sep: char)
    ensures |Split(s, sep)| == CountChar(s, sep) + 1
  {
    if s != [] {
      SplitCount(s[1..], sep);
    }
  }

  /** No piece contains the separator. */
  lemma {:induction false} SplitPiecesFree(s: string, sep: char)
    ensures forall i :: 0 <= i < |Split(s, sep)| ==> sep !in Split(s, sep)[i]
  {
    if s != [] {
      SplitPiecesFree(s[1..], sep);
    }
  }

  /** Joining the pieces with the separator gives back the line. */
  lemma {:induction false} SplitJoin(s: string, sep: char)
    ensures Join(Split(s, sep), sep) == s
  {
    if s != [] {
      SplitJoin(s[1..], sep);
      var rest := Split(s[1..], sep);
      if s[0] == sep {
        assert Split(s, sep)[1..] == rest;
      } else {
        var r := Split(s, sep);
        assert r[0] == [s[0]] + rest[0];
        if |rest| > 1 {
          assert r[1..] == rest[1..];
          assert Join(rest, sep) == rest[0] + [sep] + Join(rest[1..], sep);
        }
      }
    }
  }

  /** A piece without the separator splits to itself. */
  lemma {:induction false} SplitNoSeparator(s: string, sep: char)
    requires sep !in s
    ensures Split(s, sep) == [s]
  {
    if s != [] {
      SplitNoSeparator(s[1..], sep);
      assert s[0] != sep;
      assert [s[0]] + s[1..] == s;
    }
  }

  /** A piece followed by the separator splits off as the first piece. */
  lemma {:induction false} SplitAfterPiece(p: string, sep: char, t: string)
    requires sep !in p
    ensures Split(p + [sep] + t, sep) == [p] + Split(t, sep)
  {
    if p == [] {
      assert p + [sep] + t == [sep] + t;
      assert ([sep] + t)[1..] == t;
    } else {
      var s := p + [sep] + t;
      assert s[1..] == p[1..] + [sep] + t;
      SplitAfterPiece(p[1..], sep, t);
      assert s[0] == p[0] && p[0] != sep;
      assert [p[0]] + p[1..] == p;
    }
  }

  /** Splitting a join of separator-free pieces gives the pieces back. */
  lemma {:induction false} JoinSplit(parts: seq<string>, sep: char)
    requires |parts| >= 1
    requires forall i :: 0 <= i < |parts| ==> sep !in parts[i]
    ensures Split(Join(parts, sep), sep) == parts
  {
    if |parts| == 1 {
      SplitNoSeparator(parts[0], sep);
    } else {
      JoinSplit(parts[1..], sep);
      SplitAfterPiece(parts[0], sep, Join(parts[1..], sep));
      assert [parts[0]] + parts[1..] == parts;
    }
  }

  /** `s` has no whitespace at either end, so `strip()` leaves it alone. */
  predicate Trimmed(s: string)
  {
    s == [] || (!IsSpace(s[0]) && !IsSpace(s[|s| - 1]))
  }

  /** A trimmed field written after ", " reads back as itself once stripped. */
  lemma StripAfterSpace(f: string)
    requires Trimmed(f)
    ensures Strip(" " + f) == f
  {
    var s := " " + f;
    assert s[1..] == f;
    if f == [] {
      assert LeadingSpaces(s) == 1;
    } else {
      assert LeadingSpaces(s) == 1 + LeadingSpaces(f);
      assert LeadingSpaces(f) == 0;
      assert TrailingSpaces(f) == 0;
    }
  }

  lemma StripTrimmed(f: string)
    requires Trimmed(f)
    ensures Strip(f) == f
  {
    if f != [] {
      assert LeadingSpaces(f) == 0;
      assert f[0..] == f;
    }
  }

  /** Python `strip()` keeps the middle slice `s[i..i + |r|]` of its input, removes only
      whitespace, and leaves no whitespace at either end. */
  lemma StripProperties(s: string)
    ensures var r, i := Strip(s), LeadingSpaces(s);
      && i + |r| <= |s| && s[i..i + |r|] == r
      && (forall k :: 0 <= k < i ==> IsSpace(s[k]))
      && (forall k :: i + |r| <= k < |s| ==> IsSpace(s[k]))
      && Trimmed(r)
  {
    StripSlice(s);
    StripTrailing(s);
    StripEnds(s);
  }

  lemma StripSlice(s: string)
    ensures var r, i := Strip(s), LeadingSpaces(s);
      i + |r| <= |s| && s[i..i + |r|] == r
  {
    var i := LeadingSpaces(s);
    var left := s[i..];
    var n := |left| - TrailingSpaces(left);
    assert Strip(s) == left[..n];
    assert left[..n] == s[i..i + n];
  }

  lemma StripTrailing(s: string)
    ensures var r, i := Strip(s), LeadingSpaces(s);
      forall k :: i + |r| <= k < |s| ==> IsSpace(s[k])
  {
    var i := LeadingSpaces(s);
    var left := s[i..];
    var n := |left| - TrailingSpaces(left);
    assert |Strip(s)| == n;
    forall k | i + n <= k < |s| ensures IsSpace(s[k]) {
      assert s[k] == left[k - i];
    }
  }

  lemma StripEnds(s: string)
    ensures Trimmed(Strip(s))
  {
    var i := LeadingSpaces(s);
    var left := s[i..];
    var t := TrailingSpaces(left);
    var r := Strip(s);
    if r != [] {
      assert r[0] == s[i];
      assert r[|r| - 1] == left[|left| - t - 1];
    }
  }

  /** `split_csv_line` yields (number of commas + 1) fields, each the stripped piece between
      commas, none with whitespace at either end and none holding a comma. */
  lemma SplitCsvLineFields(line: string)
    ensures var r := SplitCsvLine(line);
      && |r| == CountChar(line, ',') + 1
      && forall i :: 0 <= i < |r| ==>
           && r[i] == Strip(Split(line, ',')[i])
           && ',' !in r[i] && Trimmed(r[i])
  {
    SplitCount(line, ',');
    var r := SplitCsvLine(line);
    forall i | 0 <= i < |r|
      ensures r[i] == Strip(Split(line, ',')[i]) && ',' !in r[i] && Trimmed(r[i])
    {
      SplitCsvField(line, i);
    }
  }

  /** Field `i` of `split_csv_line`. */
  lemma SplitCsvField(line: string, i: nat)
    requires i < |Split(line, ',')|
    ensures var f := SplitCsvLine(line);
      && |f| == |Split(line, ',')| && f[i] == Strip(Split(line, ',')[i]) && ',' !in f[i] && Trimmed(f[i])
  {
    var piece := Split(line, ',')[i];
    SplitPiecesFree(line, ',');
    assert ',' !in piece;
    StripField(piece, ',');
  }

  /** Stripping a piece keeps out a character the piece does not hold, and trims it. */
  lemma StripField(f: string, sep: char)
    requires sep !in f
    ensures sep !in Strip(f) && Trimmed(Strip(f))
  {
    StripProperties(f);
    var r, i := Strip(f), LeadingSpaces(f);
    forall k | 0 <= k < |r| ensures r[k] != sep {
      assert r[k] == f[i + k];
    }
  }

  // ---------------------------------------------------------------------------------------
  // confidence_from_prediction

  /** For a probability the confidence lies in [0.5, 1]. */
  lemma ConfidenceBounds(p: real)
    requires 0.0 <= p <= 1.0
    ensures 0.5 <= ConfidenceFromPrediction(p) <= 1.0
  {
  }

  /** A prediction and its complement have the same confidence. */
  lemma ConfidenceSymmetric(p: real)
    ensures ConfidenceFromPrediction(p) == ConfidenceFromPrediction(1.0 - p)
  {
  }
}
