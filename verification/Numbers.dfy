/**
 Integer formatting: number() of vsprintf.c and the digit loops of monitor_write_dec(),
 and what can be read back from what they print.
 */
module Numbers {
  import opened Common

  const SIGN_BIT: nat := 0x8000_0000

  /** The flag bits of number(). */
  datatype Flags = Flags(zeropad: bool, sign: bool, plus: bool, space: bool, left: bool, special: bool, small: bool)

  const LARGE_DIGITS: string := "0123456789ABCDEFGHIJKLMNOPQRSTUVWXYZ"
  const SMALL_DIGITS: string := "0123456789abcdefghijklmnopqrstuvwxyz"

  function DigitTable(small: bool): (r: string)
    ensures |r| == 36
  {
    if small then SMALL_DIGITS else LARGE_DIGITS
  }

  predicate BaseOk(base: int) { 2 <= base <= 36 }

  // ----- digits

  /** The digits of n, most significant first; none for zero. */
  function Digits(n: nat, base: nat, small: bool): string
    requires BaseOk(base)
  {
    if n == 0 then "" else
      LessDigits(n, base);
      Digits(n / base, base, small) + [Digit(n, base, small)]
  }

  /** The character of the least significant digit. */
  function Digit(n: nat, base: nat, small: bool): char
    requires BaseOk(base)
  {
    DigitTable(small)[n % base]
  }

  lemma LastDigit(n: nat, base: nat, small: bool)
    requires BaseOk(base) && n > 0
    ensures Digits(n, base, small) == Digits(n / base, base, small) + [Digit(n, base, small)]
  {}

  /** Moving the last digit over keeps the whole. */
  lemma TakenDigit(n: nat, base: nat, small: bool, tmp: string)
    requires BaseOk(base) && n > 0
    ensures Digits(n / base, base, small) + Reverse(tmp + [Digit(n, base, small)]) == Digits(n, base, small) + Reverse(tmp)
  {
    hide Digits, Reverse, Digit;
    ReverseAppend(tmp, Digit(n, base, small));
    LastDigit(n, base, small);
  }

  lemma NumeralIs(n: nat, base: nat, small: bool)
    requires BaseOk(base)
    ensures Numeral(n, base, small) == if n == 0 then "0" else Digits(n, base, small)
  {}

  lemma NoDigits(base: nat, small: bool)
    requires BaseOk(base)
    ensures Digits(0, base, small) == "" && Reverse("") == "" && Reverse("0") == "0"
  {}

  lemma LessDigits(n: nat, base: nat)
    requires n > 0 && base >= 2
    ensures n / base < n
  {}

  function Numeral(n: nat, base: nat, small: bool): (r: string)
    requires BaseOk(base)
    ensures r != []
  {
    if n == 0 then "0" else Digits(n, base, small)
  }

  function Repeat(c: char, n: int): (r: string)
    ensures |r| == if n < 0 then 0 else n
    ensures forall i :: 0 <= i < |r| ==> r[i] == c
  {
    seq(if n < 0 then 0 else n, _ => c)
  }

  // ----- what number() prints

  predicate Negative(num: Word, f: Flags) { f.sign && num >= SIGN_BIT }

  /** INT_MIN negates to itself and is then divided as unsigned: its magnitude is right. */
  function Magnitude(num: Word, f: Flags): Word {
    if Negative(num, f) then WORDS - num else num
  }

  function SignText(num: Word, f: Flags): string {
    if Negative(num, f) then "-" else if f.plus then "+" else if f.space then " " else ""
  }

  function Prefix(base: int, f: Flags): string {
    if f.special && base == 8 then "0"
    else if f.special && base == 16 then ['0', DigitTable(f.small)[33]]
    else ""
  }

  function Body(num: Word, base: nat, precision: int, f: Flags): string
    requires BaseOk(base)
  {
    var ds := Numeral(Magnitude(num, f), base, f.small);
    Repeat('0', precision - |ds|) + ds
  }

  function NumberText(num: Word, base: int, size: int, precision: int, f: Flags): Option<string> {
    if !BaseOk(base) then None
    else
      var sign, prefix, body := SignText(num, f), Prefix(base, f), Body(num, base, precision, f);
      Some(Padded(sign + prefix, body, size - |sign| - |prefix| - |body|, f))
  }

  /** Padding goes behind, between or in front. */
  function Padded(front: string, body: string, gap: int, f: Flags): string {
    if f.left then front + body + Repeat(' ', gap)
    else if f.zeropad then front + Repeat('0', gap) + body
    else Repeat(' ', gap) + front + body
  }

  // ----- number() itself

  method Number(text: string, num: Word, base: int, size: int, precision: int, f: Flags) returns (r: Option<string>)
    ensures r == match NumberText(num, base, size, precision, f)
                 case None => None
                 case Some(s) => Some(text + s)
  {
    hide Numeral, DigitTable, Magnitude;
    if base < 2 || base > 36 {
      return None;
    }
    var sign, magnitude := SignOf(num, f);
    var width := size;
    if sign != "" { width := width - 1; }
    if f.special {
      if base == 16 { width := width - 2; } else if base == 8 { width := width - 1; }
    }
    var tmp := TakeDigits(magnitude, base, f.small);
    var count := if |tmp| > precision then |tmp| else precision;
    width := width - count;
    assert width == size - |sign| - |Prefix(base, f)| - |Body(num, base, precision, f)|;
    var str := PutNumber(text, sign, base, tmp, count, width, f);
    return Some(str);
  }

  /** number() from its first store on; `width` is the room left for padding. */
  method PutNumber(text: string, sign: string, base: int, tmp: string, count: int, width: int, f: Flags) returns (str: string)
    requires |tmp| <= count
    ensures str == text + Padded(sign + Prefix(base, f), Repeat('0', count - |tmp|) + Reverse(tmp), width, f)
  {
    hide DigitTable, Prefix, Repeat, Reverse, Padded;
    var zeropad := f.zeropad && !f.left;
    var width', count' := width, count;
    str := text;
    if !zeropad && !f.left {
      str, width' := Pad(str, ' ', width);
    }
    str := PutPrefix(str + sign, base, f);
    ghost var front := if zeropad || f.left then text + (sign + Prefix(base, f)) else text + Repeat(' ', width) + (sign + Prefix(base, f));
    assert str == front;
    if !f.left {
      str, width' := Pad(str, if zeropad then '0' else ' ', width');
    }
    ghost var body := Repeat('0', count - |tmp|) + Reverse(tmp);
    NoPadding();
    str, count' := Pad(str, '0', count - |tmp|);
    str := PutReversed(str, tmp);
    assert str == (if zeropad then front + Repeat('0', width) else front) + body;
    str, width' := Pad(str, ' ', width');
    PaddedParts(text, sign + Prefix(base, f), body, width, f);
  }

  method PutPrefix(str: string, base: int, f: Flags) returns (r: string)
    ensures r == str + Prefix(base, f)
  {
    r := str;
    if f.special {
      if base == 8 { r := r + "0"; } else if base == 16 { r := r + ['0', DigitTable(f.small)[33]]; }
    }
  }

  lemma NoPadding()
    ensures forall c, n :: n <= 0 ==> Repeat(c, n) == ""
  {}

  lemma PaddedParts(text: string, front: string, body: string, gap: int, f: Flags)
    ensures text + Padded(front, body, gap, f) ==
      if f.left then text + front + body + Repeat(' ', gap)
      else if f.zeropad then text + front + Repeat('0', gap) + body
      else text + Repeat(' ', gap) + front + body
  {
    hide Repeat;
  }

  /** The sign character, if any, and num = -num. */
  method SignOf(num: Word, f: Flags) returns (sign: string, magnitude: Word)
    ensures sign == SignText(num, f) && magnitude == Magnitude(num, f) && |sign| <= 1
  {
    if f.sign && num >= SIGN_BIT {
      return "-", WORDS - num;
    }
    return if f.plus then "+" else if f.space then " " else "", num;
  }

  /** The division loop: the digits come out least significant first. */
  method TakeDigits(num: nat, base: nat, small: bool) returns (tmp: string)
    requires BaseOk(base)
    ensures Reverse(tmp) == Numeral(num, base, small) && |tmp| == |Numeral(num, base, small)|
  {
    hide Digit, Digits, Reverse, Numeral;
    NumeralIs(num, base, small);
    NoDigits(base, small);
    if num == 0 {
      return "0";
    }
    tmp := "";
    var n: nat := num;
    while n != 0
      invariant Digits(num, base, small) == Digits(n, base, small) + Reverse(tmp)
    {
      LessDigits(n, base);
      TakenDigit(n, base, small, tmp);
      tmp := tmp + [Digit(n, base, small)];
      n := n / base;
    }
  }

  /** Writes `n` times the character, none for a negative `n`; `left` is the counter one below where it stopped. */
  method Pad(str: string, c: char, n: int) returns (r: string, left: int)
    ensures r == str + Repeat(c, n) && left == (if n > 0 then 0 else n) - 1
  {
    r, left := str, n;
    while left > 0
      invariant left == n || 0 <= left <= n
      invariant r == str + Repeat(c, n - left)
    {
      r := r + [c];
      left := left - 1;
    }
    left := left - 1;
  }

  method PutReversed(str: string, tmp: string) returns (r: string)
    ensures r == str + Reverse(tmp)
  {
    r := str;
    var i := |tmp|;
    assert tmp[..i] == tmp;
    while i > 0
      invariant 0 <= i <= |tmp|
      invariant r + Reverse(tmp[..i]) == str + Reverse(tmp)
    {
      i := i - 1;
      assert tmp[..i + 1][..i] == tmp[..i];
      assert Reverse(tmp[..i + 1]) == [tmp[i]] + Reverse(tmp[..i]);
      assert r + ([tmp[i]] + Reverse(tmp[..i])) == (r + [tmp[i]]) + Reverse(tmp[..i]);
      r := r + [tmp[i]];
    }
    assert tmp[..0] == "";
    assert r + "" == r;
  }

  function Reverse(s: string): (r: string)
    ensures |r| == |s|
  {
    if s == "" then "" else [s[|s| - 1]] + Reverse(s[..|s| - 1])
  }

  lemma ReverseAppend(s: string, c: char)
    ensures Reverse(s + [c]) == [c] + Reverse(s)
  {
    assert (s + [c])[..|s|] == s;
  }

  // ----- how long the text is

  lemma {:induction false} DigitsFit(n: nat, base: nat, small: bool, bits: nat)
    requires BaseOk(base) && n < Pow2(bits)
    ensures |Digits(n, base, small)| <= bits
    decreases bits
  {
    hide Digits, Digit;
    if n == 0 {
      NoDigits(base, small);
    } else {
      HalfAtMost(n, base);
      DigitsFit(n / base, base, small, bits - 1);
      LastDigit(n, base, small);
    }
  }

  lemma HalfAtMost(n: nat, base: nat)
    requires base >= 2
    ensures n / base <= n / 2
  {
    var q := n / base;
    QuotientBelow(n, base);
    TwiceAtMost(q, base);
  }

  lemma QuotientBelow(n: nat, base: nat)
    requires base > 0
    ensures n / base * base <= n
  {}

  lemma TwiceAtMost(q: nat, base: nat)
    requires base >= 2
    ensures 2 * q <= q * base
  {
    assert q * base == 2 * q + q * (base - 2);
  }

  /** The digits of a 32-bit number never need more than 32 of the 36 places of tmp. */
  lemma AtMost32Digits(num: Word, base: nat, small: bool)
    requires BaseOk(base)
    ensures 1 <= |Numeral(num, base, small)| <= 32
  {
    assert Pow2(8) == 256 && Pow2(16) == 0x1_0000 && Pow2(24) == 0x100_0000 && Pow2(32) == WORDS;
    DigitsFit(num, base, small, 32);
  }

  /** The text is exactly as wide as asked for, or as its sign, prefix and digits need. */
  lemma NumberWidth(num: Word, base: int, size: int, precision: int, f: Flags)
    requires BaseOk(base)
    ensures var ds := Numeral(Magnitude(num, f), base, f.small);
      |NumberText(num, base, size, precision, f).value| ==
      Max(size, |SignText(num, f)| + |Prefix(base, f)| + Max(|ds|, precision))
  {
    hide Numeral;
  }

  /**
   Where things stand: flush left the number comes first, otherwise its digits come last, and
   with zero padding its sign and prefix come first.
   */
  lemma NumberPlace(num: Word, base: int, size: int, precision: int, f: Flags)
    requires BaseOk(base)
    ensures var t, front, body := NumberText(num, base, size, precision, f).value, SignText(num, f) + Prefix(base, f), Body(num, base, precision, f);
      && |front| + |body| <= |t|
      && (f.left || f.zeropad ==> t[..|front|] == front)
      && (f.left ==> t[|front|..][..|body|] == body)
      && (!f.left ==> t[|t| - |body|..] == body)
      && (!f.left && !f.zeropad ==> t[|t| - |body| - |front|..] == front + body)
    ensures Prefix(base, f) ==
      if !f.special then "" else if base == 8 then "0" else if base == 16 then (if f.small then "0x" else "0X") else ""
  {
    hide Numeral, Body, Repeat, Padded, Prefix;
    var front, body := SignText(num, f) + Prefix(base, f), Body(num, base, precision, f);
    PaddedPlace(front, body, size - |SignText(num, f)| - |Prefix(base, f)| - |body|, f);
    PrefixIs(base, f);
  }

  lemma PrefixIs(base: int, f: Flags)
    ensures Prefix(base, f) ==
      if !f.special then "" else if base == 8 then "0" else if base == 16 then (if f.small then "0x" else "0X") else ""
  {}

  lemma PaddedPlace(front: string, body: string, gap: int, f: Flags)
    ensures var t := Padded(front, body, gap, f);
      && |front| + |body| <= |t|
      && (f.left || f.zeropad ==> t[..|front|] == front)
      && (f.left ==> t[|front|..][..|body|] == body)
      && (!f.left ==> t[|t| - |body|..] == body)
      && (!f.left && !f.zeropad ==> t[|t| - |body| - |front|..] == front + body)
  {
    hide Repeat;
    PadsAround(front, body, if f.left then "" else Repeat(if f.zeropad then '0' else ' ', gap), if f.left then Repeat(' ', gap) else "");
  }

  lemma PadsAround(front: string, body: string, pad: string, back: string)
    ensures (front + body + back)[..|front|] == front && (front + body + back)[|front|..][..|body|] == body
    ensures var t := front + pad + body; t[..|front|] == front && t[|t| - |body|..] == body
    ensures var t := pad + front + body; t[|t| - |body|..] == body && t[|t| - |body| - |front|..] == front + body
  {
    assert (front + body + back)[|front|..] == body + back;
  }

  // ----- reading the text back

  function DigitValue(c: char): nat {
    if '0' <= c <= '9' then c as nat - '0' as nat
    else if 'A' <= c <= 'Z' then c as nat - 'A' as nat + 10
    else if 'a' <= c <= 'z' then c as nat - 'a' as nat + 10
    else 0
  }

  function Value(s: string, base: nat): nat {
    if s == "" then 0 else Value(s[..|s| - 1], base) * base + DigitValue(s[|s| - 1])
  }

  /** The number a text shows: spaces around it, a sign and a radix prefix are skipped. */
  function ReadBack(s: string, base: nat, special: bool): int { ReadCore(Trim(s), base, special) }

  function ReadCore(t: string, base: nat, special: bool): int {
    var u := if t != "" && (t[0] == '-' || t[0] == '+') then t[1..] else t;
    var n := PrefixWidth(base, special);
    var v := if n <= |u| then Value(u[n..], base) else 0;
    if t != "" && t[0] == '-' then -v else v
  }

  function PrefixWidth(base: nat, special: bool): nat {
    if special && base == 16 then 2 else if special && base == 8 then 1 else 0
  }

  function TrimFront(s: string): string {
    if s != "" && s[0] == ' ' then TrimFront(s[1..]) else s
  }

  function TrimBack(s: string): string {
    if s != "" && s[|s| - 1] == ' ' then TrimBack(s[..|s| - 1]) else s
  }

  function Trim(s: string): string { TrimBack(TrimFront(s)) }

  function Shown(num: Word, f: Flags): int { if Negative(num, f) then num - WORDS else num }

  lemma TableValue(small: bool, d: nat)
    requires d < 36
    ensures DigitValue(DigitTable(small)[d]) == d && DigitTable(small)[d] !in {' ', '-', '+'}
  {
    var c := DigitTable(small)[d];
    if d < 10 {
      assert c == ('0' as nat + d) as char;
    } else if small {
      assert c == ('a' as nat + d - 10) as char;
    } else {
      assert c == ('A' as nat + d - 10) as char;
    }
  }

  lemma {:induction false} ValueOfDigits(n: nat, base: nat, small: bool)
    requires BaseOk(base)
    ensures Value(Digits(n, base, small), base) == n
    decreases n
  {
    hide Digits, DigitTable, DigitValue, Value;
    if n == 0 {
      NoDigits(base, small);
      ValueOfNothing(base);
    } else {
      LessDigits(n, base);
      ValueOfDigits(n / base, base, small);
      LastDigit(n, base, small);
      TableValue(small, n % base);
      ValueAppend(Digits(n / base, base, small), Digit(n, base, small), base);
    }
  }

  lemma ValueOfNothing(base: nat)
    ensures Value("", base) == 0
  {}

  lemma ValueAppend(s: string, c: char, base: nat)
    ensures Value(s + [c], base) == Value(s, base) * base + DigitValue(c)
  {
    assert (s + [c])[..|s|] == s;
  }

  lemma {:induction false} ValueOfZeros(k: int, s: string, base: nat)
    ensures Value(Repeat('0', k) + s, base) == Value(s, base)
    decreases if k < 0 then 0 else k, |s|
  {
    var t := Repeat('0', k) + s;
    if s != "" {
      assert t[..|t| - 1] == Repeat('0', k) + s[..|s| - 1];
      ValueOfZeros(k, s[..|s| - 1], base);
    } else if k > 0 {
      assert t == Repeat('0', k) && t[..|t| - 1] == Repeat('0', k - 1) + "";
      ValueOfZeros(k - 1, "", base);
      assert t[|t| - 1] == '0';
    } else {
      assert t == "";
    }
  }

  lemma ValueOfBody(num: Word, base: nat, precision: int, f: Flags)
    requires BaseOk(base)
    ensures Value(Body(num, base, precision, f), base) == Magnitude(num, f)
  {
    hide Digits, Value, Magnitude, Repeat;
    var n := Magnitude(num, f);
    var ds := Numeral(n, base, f.small);
    ValueOfZeros(precision - |ds|, ds, base);
    ValueOfDigits(n, base, f.small);
    ValueOfZero(base);
  }

  lemma ValueOfZero(base: nat)
    ensures Value("0", base) == 0
  {}

  lemma {:induction false} TrimSpaces(a: int, s: string, b: int)
    requires s != "" && s[0] != ' ' && s[|s| - 1] != ' '
    ensures Trim(Repeat(' ', a) + s + Repeat(' ', b)) == s
    decreases if a < 0 then 0 else a, if b < 0 then 0 else b
  {
    var t := Repeat(' ', a) + s + Repeat(' ', b);
    if a > 0 {
      assert t[1..] == Repeat(' ', a - 1) + s + Repeat(' ', b);
      TrimSpaces(a - 1, s, b);
    } else {
      assert t == s + Repeat(' ', b);
      TrimBackSpaces(s, b);
    }
  }

  lemma {:induction false} TrimBackSpaces(s: string, b: int)
    requires s != "" && s[|s| - 1] != ' '
    ensures TrimBack(s + Repeat(' ', b)) == s
    decreases if b < 0 then 0 else b
  {
    var t := s + Repeat(' ', b);
    if b > 0 {
      assert t[..|t| - 1] == s + Repeat(' ', b - 1);
      TrimBackSpaces(s, b - 1);
    } else {
      assert t == s;
    }
  }

  /** A sign that is not a space. */
  function PlainSign(num: Word, f: Flags): string {
    if Negative(num, f) then "-" else if f.plus then "+" else ""
  }

  /** Every layout is spaces, then the number without gaps, then spaces. */
  lemma LayoutOf(num: Word, base: int, size: int, precision: int, f: Flags) returns (a: int, zeros: int, b: int)
    requires BaseOk(base)
    ensures NumberText(num, base, size, precision, f) == Some(
      Repeat(' ', a) + (PlainSign(num, f) + Prefix(base, f) + Repeat('0', zeros) + Body(num, base, precision, f)) + Repeat(' ', b))
  {
    hide Body, Prefix, Repeat;
    var sign, prefix, body := SignText(num, f), Prefix(base, f), Body(num, base, precision, f);
    var gap := size - |sign| - |prefix| - |body|;
    var blank := if sign == " " then 1 else 0;
    NoRepeat();
    assert sign == Repeat(' ', blank) + PlainSign(num, f);
    a, zeros, b := blank, 0, 0;
    if f.left {
      b := gap;
    } else if f.zeropad {
      zeros := gap;
    } else {
      a := a + if gap < 0 then 0 else gap;
    }
    LayoutParts(PlainSign(num, f), prefix, body, blank, gap, f);
  }

  lemma NoRepeat()
    ensures Repeat(' ', 0) == "" && Repeat('0', 0) == "" && Repeat(' ', 1) == " "
  {}

  lemma LayoutParts(plain: string, prefix: string, body: string, blank: nat, gap: int, f: Flags)
    ensures Padded(Repeat(' ', blank) + plain + prefix, body, gap, f) ==
      if f.left then Repeat(' ', blank) + (plain + prefix + Repeat('0', 0) + body) + Repeat(' ', gap)
      else if f.zeropad then Repeat(' ', blank) + (plain + prefix + Repeat('0', gap) + body) + Repeat(' ', 0)
      else Repeat(' ', blank + if gap < 0 then 0 else gap) + (plain + prefix + Repeat('0', 0) + body) + Repeat(' ', 0)
  {
    hide Repeat;
    NoRepeat();
    RepeatMore(' ', gap, blank);
    var front := Repeat(' ', blank) + plain + prefix;
    if f.left {
      assert front + body == Repeat(' ', blank) + (plain + prefix + "" + body);
    } else if f.zeropad {
      assert front + Repeat('0', gap) + body == Repeat(' ', blank) + (plain + prefix + Repeat('0', gap) + body);
    } else {
      var wide := Repeat(' ', gap) + Repeat(' ', blank);
      assert Repeat(' ', gap) + front + body == wide + (plain + prefix + "" + body);
    }
  }

  lemma RepeatMore(c: char, n: int, m: nat)
    ensures Repeat(c, n) + Repeat(c, m) == Repeat(c, m + if n < 0 then 0 else n)
  {}

  /** Whatever the base, the flags, the width and the precision, the text reads back as the number. */
  lemma NumberReadsBack(num: Word, base: int, size: int, precision: int, f: Flags)
    requires BaseOk(base)
    ensures ReadBack(NumberText(num, base, size, precision, f).value, base, f.special) == Shown(num, f)
  {
    hide Body, Repeat, Trim, Value, Magnitude, ReadCore;
    var a, zeros, b := LayoutOf(num, base, size, precision, f);
    var sign, prefix, body := PlainSign(num, f), Prefix(base, f), Body(num, base, precision, f);
    BodyEnds(num, base, precision, f);
    CoreReadsBack(sign, prefix, Repeat('0', zeros), body, a, b, base, f.special);
    ValueOfZeros(zeros, body, base);
    ValueOfBody(num, base, precision, f);
    assert Magnitude(num, f) == if Negative(num, f) then WORDS - num else num by { MagnitudeIs(num, f); }
  }

  lemma MagnitudeIs(num: Word, f: Flags)
    ensures Magnitude(num, f) == if Negative(num, f) then WORDS - num else num
  {}

  lemma ReadSigned(sign: string, prefix: string, rest: string, base: nat, special: bool)
    requires sign == "" || sign == "-" || sign == "+"
    requires |prefix| == PrefixWidth(base, special) && prefix + rest != "" && (prefix + rest)[0] !in {'-', '+'}
    ensures ReadCore(sign + (prefix + rest), base, special) ==
      if sign == "-" then -(Value(rest, base) as int) else Value(rest, base)
  {
    hide Value;
    var t := sign + (prefix + rest);
    assert t[|sign|..] == prefix + rest;
    assert (prefix + rest)[|prefix|..] == rest;
  }

  /** Reading skips the spaces, the sign and the prefix. */
  lemma CoreReadsBack(sign: string, prefix: string, zeros: string, body: string, a: int, b: int, base: nat, special: bool)
    requires sign == "" || sign == "-" || sign == "+"
    requires |prefix| == PrefixWidth(base, special)
    requires (prefix != "" ==> prefix[0] == '0') && forall c :: c in zeros ==> c == '0'
    requires body != "" && body[|body| - 1] != ' ' && body[0] !in {' ', '-', '+'}
    ensures ReadBack(Repeat(' ', a) + (sign + prefix + zeros + body) + Repeat(' ', b), base, special) ==
      if sign == "-" then -(Value(zeros + body, base) as int) else Value(zeros + body, base)
  {
    hide *;
    var core := sign + prefix + zeros + body;
    CoreEnds(sign, prefix, zeros, body);
    TrimSpaces(a, core, b);
    ReadBackIs(Repeat(' ', a) + core + Repeat(' ', b), base, special);
    ReadSigned(sign, prefix, zeros + body, base, special);
  }

  lemma ReadBackIs(s: string, base: nat, special: bool)
    ensures ReadBack(s, base, special) == ReadCore(Trim(s), base, special)
  {}

  lemma CoreEnds(sign: string, prefix: string, zeros: string, body: string)
    requires sign == "" || sign == "-" || sign == "+"
    requires (prefix != "" ==> prefix[0] == '0') && forall c :: c in zeros ==> c == '0'
    requires body != "" && body[|body| - 1] != ' ' && body[0] !in {' ', '-', '+'}
    ensures var core, rest := sign + prefix + zeros + body, prefix + (zeros + body);
      core == sign + rest && core != "" && core[0] != ' ' && core[|core| - 1] != ' ' && rest[0] !in {'-', '+'}
  {
    if prefix == "" && zeros != "" { assert zeros[0] in zeros; }
  }

  lemma BodyEnds(num: Word, base: nat, precision: int, f: Flags)
    requires BaseOk(base)
    ensures var body := Body(num, base, precision, f);
      body != "" && body[|body| - 1] != ' ' && body[0] !in {' ', '-', '+'}
  {
    var n := Magnitude(num, f);
    var ds := Numeral(n, base, f.small);
    DigitsNotBlank(n, base, f.small);
    assert forall c :: c in ds ==> c !in {' ', '-', '+'};
    var zeros := Repeat('0', precision - |ds|);
    var body := Body(num, base, precision, f);
    assert body == zeros + ds;
    assert body[|body| - 1] == ds[|ds| - 1] && ds[|ds| - 1] in ds && ds[0] in ds;
  }

  lemma {:induction false} DigitsNotBlank(n: nat, base: nat, small: bool)
    requires BaseOk(base)
    ensures forall c :: c in Digits(n, base, small) ==> c !in {' ', '-', '+'}
    decreases n
  {
    hide Digits, Digit;
    if n == 0 {
      NoDigits(base, small);
    } else {
      LessDigits(n, base);
      DigitsNotBlank(n / base, base, small);
      LastDigit(n, base, small);
      DigitNotBlank(n, base, small);
    }
  }

  lemma DigitNotBlank(n: nat, base: nat, small: bool)
    requires BaseOk(base)
    ensures Digit(n, base, small) !in {' ', '-', '+'}
  {
    hide DigitTable, DigitValue;
    TableValue(small, n % base);
  }

  // ----- monitor_write_dec()

  const PLAIN: Flags := Flags(false, false, false, false, false, false, false)

  lemma PlainNumber(n: Word)
    ensures NumberText(n, 10, -1, -1, PLAIN) == Some(Numeral(n, 10, false))
  {
    hide Numeral;
    var ds := Numeral(n, 10, false);
    assert Magnitude(n, PLAIN) == n && SignText(n, PLAIN) == "" && Prefix(10, PLAIN) == "";
    assert Repeat('0', -1 - |ds|) == "" && Repeat(' ', -1 - |ds|) == "";
    assert Body(n, 10, -1, PLAIN) == ds;
    assert Padded("" + "", ds, -1 - |ds|, PLAIN) == ds;
  }

  /** The decimal text of monitor_write_dec() is that of number() without width, precision and flags. */
  method WriteDec(n: Word) returns (c2: string)
    ensures Some(c2) == NumberText(n, 10, -1, -1, PLAIN)
  {
    hide Digits, Reverse, Numeral, NumberText;
    NumeralIs(n, 10, false);
    NoDigits(10, false);
    PlainNumber(n);
    if n == 0 {
      return "0";
    }
    var acc: nat := n;
    var c := "";
    while acc > 0
      invariant Digits(n, 10, false) == Digits(acc, 10, false) + Reverse(c)
    {
      var d := ('0' as nat + acc % 10) as char;
      TakenDigit(acc, 10, false, c);
      assert Digit(acc, 10, false) == d;
      c := c + [d];
      acc := acc / 10;
    }
    c2 := PutReversed("", c);
  }
}
