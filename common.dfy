/** Values shared by the whole model: optional values, JavaScript numbers where the code
    tests isNaN, and the string operations the dashboard relies on (localeCompare,
    substring, toLowerCase, includes, and reading a decimal digit run). */
module Common {

  datatype Option<T> = None | Some(value: T)

  /** A JavaScript number at a place where the code tests `isNaN`: a finite value or NaN. */
  datatype Number = Num(value: real) | NaN

  function Max(a: real, b: real): real
  {
    if a < b then b else a
  }

  /** `a.localeCompare(b)`, taken as lexicographic order on character codes:
      negative, zero or positive as `a` sorts before, with or after `b`. */
  function StrCompare(a: string, b: string): (r: int)
    ensures r == -1 || r == 0 || r == 1
    ensures r == 0 <==> a == b
  {
    if a == [] then (if b == [] then 0 else -1)
    else if b == [] then 1
    else if a[0] < b[0] then -1
    else if a[0] > b[0] then 1
    else
      assert a == [a[0]] + a[1..] && b == [b[0]] + b[1..];
      StrCompare(a[1..], b[1..])
  }

  lemma {:induction false} StrCompareAntisymmetric(a: string, b: string)
    ensures StrCompare(a, b) == -StrCompare(b, a)
  {
    if a != [] && b != [] && a[0] == b[0] {
      StrCompareAntisymmetric(a[1..], b[1..]);
    }
  }

  lemma {:induction false} StrCompareTransitive(a: string, b: string, c: string)
    requires StrCompare(a, b) <= 0 && StrCompare(b, c) <= 0
    ensures StrCompare(a, c) <= 0
  {
    if a != [] && b != [] && c != [] && a[0] == b[0] && b[0] == c[0] {
      StrCompareTransitive(a[1..], b[1..], c[1..]);
    }
  }

  /** `date.substring(0, 7)`: the `YYYY-MM` prefix of an ISO date, or the whole string when shorter. */
  function MonthKey(date: string): (m: string)
    ensures |m| <= 7 && m <= date
    ensures |date| >= 7 ==> |m| == 7
  {
    if |date| < 7 then date else date[..7]
  }

  /** ASCII `toLowerCase`. */
  function ToLowerChar(c: char): (d: char)
    ensures 'A' <= c <= 'Z' ==> 'a' <= d <= 'z' && d as int - c as int == 32
    ensures !('A' <= c <= 'Z') ==> d == c
  {
    if 'A' <= c <= 'Z' then (c as int + 32) as char else c
  }

  function ToLower(s: string): (r: string)
    ensures |r| == |s|
    ensures forall i :: 0 <= i < |s| ==> r[i] == ToLowerChar(s[i])
  {
    seq(|s|, i requires 0 <= i < |s| => ToLowerChar(s[i]))
  }

  /** `s.includes(sub)`: some window of `s` equals `sub` (the empty string is everywhere). */
  predicate Contains(s: string, sub: string)
  {
    exists i | 0 <= i <= |s| - |sub| :: OccursAt(s, sub, i)
  }

  predicate OccursAt(s: string, sub: string, i: int)
  {
    0 <= i && i + |sub| <= |s| && s[i..i + |sub|] == sub
  }

  predicate IsDigit(c: char)
  {
    '0' <= c <= '9'
  }

  predicate NoDigits(s: string)
  {
    forall i :: 0 <= i < |s| ==> !IsDigit(s[i])
  }

  predicate AllDigits(s: string)
  {
    forall i :: 0 <= i < |s| ==> IsDigit(s[i])
  }

  /** `parseInt(digits, 10)` of a non-empty string of decimal digits. */
  function DigitsValue(s: string): (n: nat)
    requires AllDigits(s)
    ensures |s| == 1 ==> n == (s[0] as int - '0' as int)
  {
    if s == [] then 0
    else DigitsValue(s[..|s| - 1]) * 10 + (s[|s| - 1] as int - '0' as int)
  }

  /** `s[i..j]` is the first maximal run of decimal digits of `s`. */
  ghost predicate IsFirstDigitRun(s: string, i: nat, j: nat)
  {
    && i < j <= |s|
    && NoDigits(s[..i])
    && AllDigits(s[i..j])
    && (j == |s| || !IsDigit(s[j]))
  }

  /** The index of the first digit of `s` at or after `from`, or `|s|` when there is none. */
  function FirstDigitFrom(s: string, from: nat): (i: nat)
    requires from <= |s|
    ensures from <= i <= |s|
    ensures forall k :: from <= k < i ==> !IsDigit(s[k])
    ensures i < |s| ==> IsDigit(s[i])
    decreases |s| - from
  {
    if from == |s| || IsDigit(s[from]) then from else FirstDigitFrom(s, from + 1)
  }

  /** The end of the run of digits of `s` that starts at `from`. */
  function DigitRunEnd(s: string, from: nat): (j: nat)
    requires from <= |s|
    ensures from <= j <= |s|
    ensures forall k :: from <= k < j ==> IsDigit(s[k])
    ensures j == |s| || !IsDigit(s[j])
    decreases |s| - from
  {
    if from == |s| || !IsDigit(s[from]) then from else DigitRunEnd(s, from + 1)
  }

  /** The white space and line terminators of JavaScript, which `parseInt` skips. */
  predicate IsJsSpace(c: char)
  {
    var u := c as int;
    || u == 0x09 || u == 0x0A || u == 0x0B || u == 0x0C || u == 0x0D || u == 0x20 || u == 0xA0
    || u == 0x1680 || 0x2000 <= u <= 0x200A || u == 0x2028 || u == 0x2029 || u == 0x202F
    || u == 0x205F || u == 0x3000 || u == 0xFEFF
  }

  /** The index of the first character at or after `from` that is not white space. */
  function SpaceEnd(s: string, from: nat): (i: nat)
    requires from <= |s|
    ensures from <= i <= |s|
    ensures forall k :: from <= k < i ==> IsJsSpace(s[k])
    ensures i == |s| || !IsJsSpace(s[i])
    decreases |s| - from
  {
    if from == |s| || !IsJsSpace(s[from]) then from else SpaceEnd(s, from + 1)
  }

  /** `parseInt(text, 10)`: leading white space is skipped, then an optional sign is read,
      then the longest run of decimal digits; NaN when that run is empty. */
  function ParseInt(text: string): (n: Number)
    ensures text != [] && !IsJsSpace(text[0]) && text[0] != '+' && text[0] != '-' && !IsDigit(text[0]) ==> n == NaN
    ensures text != [] && AllDigits(text) ==> n == Num(DigitsValue(text) as real)
    ensures |text| >= 2 && text[0] == '-' && AllDigits(text[1..]) ==> n == Num(-(DigitsValue(text[1..]) as real))
  {
    var i := SpaceEnd(text, 0);
    var negative := i < |text| && text[i] == '-';
    var start := if i < |text| && (text[i] == '+' || text[i] == '-') then i + 1 else i;
    var j := DigitRunEnd(text, start);
    if j == start then
      NaN
    else
      var digits := text[start..j];
      assert AllDigits(digits) by {
        forall k | 0 <= k < |digits| ensures IsDigit(digits[k]) {
          assert digits[k] == text[start + k];
        }
      }
      assert text != [] && AllDigits(text) ==> digits == text by {
        if text != [] && AllDigits(text) {
          assert i == 0 && start == 0;
          assert j == |text|;
        }
      }
      assert |text| >= 2 && text[0] == '-' && AllDigits(text[1..]) ==> negative && digits == text[1..] by {
        if |text| >= 2 && text[0] == '-' && AllDigits(text[1..]) {
          assert i == 0 && start == 1;
          assert j == |text|;
        }
      }
      var v := DigitsValue(digits) as real;
      Num(if negative then -v else v)
  }
}
