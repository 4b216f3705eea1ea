/**
 What vsprintf() writes, character by character: the digits of a number, the padding around
 it, and the directives that print no number.  Characters and bounds are those of the C text.
 */
module PrintfText {
  import opened Common
  import opened Numbers
  import opened Printf

  // ----- digits

  function DigitChar(d: nat, small: bool): char
    requires d < 36
  {
    if d < 10 then ('0' as int + d) as char
    else if small then ('a' as int + d - 10) as char
    else ('A' as int + d - 10) as char
  }

  /** `n` divided by the base `i` times. */
  function Quotient(n: nat, base: nat, i: nat): nat
    requires base > 0
    decreases i
  {
    if i == 0 then n else Quotient(n / base, base, i - 1)
  }

  lemma TableChar(small: bool, d: nat)
    requires d < 36
    ensures DigitTable(small)[d] == DigitChar(d, small)
  {}

  /** The i-th digit from the right is the i-th remainder, and the first is none too many. */
  lemma {:induction false} DigitAt(n: nat, base: nat, small: bool, i: nat)
    requires BaseOk(base) && i < |Digits(n, base, small)|
    ensures var ds := Digits(n, base, small);
      && ds[|ds| - 1 - i] == DigitChar(Quotient(n, base, i) % base, small)
      && (i == |ds| - 1 ==> 0 < Quotient(n, base, i) < base)
    decreases i
  {
    hide DigitTable, DigitChar, Digits;
    NoDigits(base, small);
    LastDigit(n, base, small);
    var rest := Digits(n / base, base, small);
    if i == 0 {
      TableChar(small, n % base);
      if rest == "" { OneDigit(n, base, small); }
    } else {
      DigitAt(n / base, base, small, i - 1);
    }
  }

  lemma OneDigit(n: nat, base: nat, small: bool)
    requires BaseOk(base) && n > 0 && Digits(n / base, base, small) == ""
    ensures n < base
  {
    if n / base == 0 { Below(n, base); }
  }

  lemma Below(n: nat, base: nat)
    requires base > 0 && n / base == 0
    ensures n < base
  {}

  /** A number in letters of one case: capitals only, or small letters only. */
  lemma DigitsCase(n: nat, base: nat, small: bool, i: nat)
    requires BaseOk(base) && i < |Numeral(n, base, small)|
    ensures var c := Numeral(n, base, small)[i];
      '0' <= c <= '9' || (if small then 'a' <= c <= 'z' else 'A' <= c <= 'Z')
  {
    hide Digits, Quotient, DigitChar;
    if n > 0 {
      var ds := Digits(n, base, small);
      DigitAt(n, base, small, |ds| - 1 - i);
      CharCase(Quotient(n, base, |ds| - 1 - i) % base, small);
    }
  }

  lemma CharCase(d: nat, small: bool)
    requires d < 36
    ensures var c := DigitChar(d, small); '0' <= c <= '9' || (if small then 'a' <= c <= 'z' else 'A' <= c <= 'Z')
  {}

  // ----- the layout of a number

  function Many(c: char, n: int): string { seq(if n < 0 then 0 else n, _ => c) }

  /** Sign, prefix, digits and what fills the width, for every value, base, width, precision and flags. */
  lemma NumberLayout(num: Word, base: int, size: int, precision: int, f: Flags)
    requires 2 <= base <= 36
    ensures var negative := f.sign && num >= 0x8000_0000;
      var sign := if negative then "-" else if f.plus then "+" else if f.space then " " else "";
      var prefix := if !f.special then "" else if base == 8 then "0" else if base == 16 then (if f.small then "0x" else "0X") else "";
      var digits := Numeral(if negative then 0x1_0000_0000 - num else num, base, f.small);
      var zeros := Max(precision - |digits|, 0);
      var gap := size - |sign| - |prefix| - zeros - |digits|;
      NumberText(num, base, size, precision, f) == Some(
        if f.left then sign + prefix + Many('0', zeros) + digits + Many(' ', gap)
        else if f.zeropad then sign + prefix + Many('0', gap) + Many('0', zeros) + digits
        else Many(' ', gap) + sign + prefix + Many('0', zeros) + digits)
  {
    hide Numeral, Prefix;
    PrefixIs(base, f);
    var negative := f.sign && num >= 0x8000_0000;
    var digits := Numeral(if negative then 0x1_0000_0000 - num else num, base, f.small);
    var sign, prefix, zeros := SignText(num, f), Prefix(base, f), precision - |digits|;
    var gap := size - |sign| - |prefix| - |Repeat('0', zeros)| - |digits|;
    BodyIs(num, base, precision, f);
    ManyIs('0', zeros);
    ManyIs('0', gap);
    ManyIs(' ', gap);
    Regroup(sign, prefix, Many('0', zeros), digits, gap);
  }

  lemma BodyIs(num: Word, base: nat, precision: int, f: Flags)
    requires BaseOk(base)
    ensures var digits := Numeral(if f.sign && num >= 0x8000_0000 then 0x1_0000_0000 - num else num, base, f.small);
      Body(num, base, precision, f) == Repeat('0', precision - |digits|) + digits
  {
    hide Numeral;
  }

  lemma ManyIs(c: char, n: int)
    ensures Repeat(c, n) == Many(c, n) == Many(c, Max(n, 0)) && |Many(c, n)| == Max(n, 0)
  {}

  lemma Regroup(sign: string, prefix: string, zeros: string, digits: string, gap: int)
    ensures sign + prefix + (zeros + digits) + Many(' ', gap) == sign + prefix + zeros + digits + Many(' ', gap)
    ensures sign + prefix + Many('0', gap) + (zeros + digits) == sign + prefix + Many('0', gap) + zeros + digits
    ensures Many(' ', gap) + (sign + prefix) + (zeros + digits) == Many(' ', gap) + sign + prefix + zeros + digits
  {
    hide Many;
  }

  // ----- directives that print a character

  /** %c: the low byte of its argument at one edge of the width, spaces for the rest. */
  lemma CharShows(d: Piece, args: seq<Arg>)
    requires d.Directive? && d.conversion == 'c' && !d.star && Fits(d, args)
    ensures var t := PieceText(d, args);
      var at := if d.f.left then 0 else |t| - 1;
      && |t| == Max(d.width, 1)
      && t[at] as nat == args[0].num % 256
      && forall i :: 0 <= i < |t| && i != at ==> t[i] == ' '
  {}

  /** %% prints one percent sign, an unknown conversion is printed behind one, and so is a star. */
  lemma OthersShow(d: Piece, args: seq<Arg>)
    requires d.Directive? && Fits(d, args)
    requires d.star || d.conversion !in {'c', 's', 'o', 'p', 'x', 'X', 'd', 'i', 'u', 'b'}
    ensures PieceText(d, args) ==
      if d.conversion == '%' || d.conversion == '\0' then "%" else ['%', d.conversion]
  {}

  // ----- directives that print a number

  /** What number() gets: %x alone prints small letters, %d and %i alone are signed, a bare %p is eight wide with zeros. */
  lemma NumberDirective(d: Piece, args: seq<Arg>)
    requires d.Directive? && !d.star && Fits(d, args)
    requires d.conversion in {'o', 'p', 'x', 'X', 'd', 'i', 'u', 'b'}
    ensures var c := d.conversion;
      Some(PieceText(d, args)) == NumberText(args[0].num,
        match c case 'o' => 8 case 'p' => 16 case 'x' => 16 case 'X' => 16 case 'b' => 2 case _ => 10,
        if c == 'p' && d.width == -1 then 8 else d.width, d.precision,
        d.f.(small := d.f.small || c == 'x', sign := d.f.sign || c in {'d', 'i'}, zeropad := d.f.zeropad || (c == 'p' && d.width == -1)))
  {
    hide NumberText;
    BaseInRange(d.conversion);
    NumberDefined(args[0].num, BaseOf(d.conversion), if d.conversion == 'p' && d.width == -1 then 8 else d.width, d.precision,
                  FlagsOf(d.f, d.width, d.conversion));
  }

  lemma BaseInRange(c: char)
    ensures 2 <= BaseOf(c) <= 36
  {}

  /** number() gives up on a base outside 2 to 36, and on no other. */
  lemma NumberDefined(num: Word, base: int, size: int, precision: int, f: Flags)
    ensures NumberText(num, base, size, precision, f).Some? <==> 2 <= base <= 36
  {}

  /** What a directive takes from the arguments: one for a known conversion or a star, none for %% and what is unknown. */
  lemma ArgumentTaken(d: Piece)
    requires d.Directive?
    ensures Arguments(d) == if d.star || d.conversion in {'c', 's', 'o', 'p', 'x', 'X', 'd', 'i', 'u', 'b'} then 1 else 0
  {}

  /** No letter of the other case. */
  predicate OneCase(s: string, small: bool) {
    forall c :: c in s ==> if small then !('A' <= c <= 'Z') else !('a' <= c <= 'z')
  }

  /** %x prints no capital and %X no small letter, prefix and digits alike. */
  lemma NumberCase(num: Word, base: int, size: int, precision: int, f: Flags)
    requires 2 <= base <= 36
    ensures NumberText(num, base, size, precision, f).Some? && OneCase(NumberText(num, base, size, precision, f).value, f.small)
  {
    hide NumberText, Numeral, Many, OneCase;
    NumberLayout(num, base, size, precision, f);
    var negative := f.sign && num >= 0x8000_0000;
    var sign := if negative then "-" else if f.plus then "+" else if f.space then " " else "";
    var prefix := if !f.special then "" else if base == 8 then "0" else if base == 16 then (if f.small then "0x" else "0X") else "";
    var n: nat := if negative then 0x1_0000_0000 - num else num;
    var digits := Numeral(n, base, f.small);
    var zeros := Max(precision - |digits|, 0);
    var gap := size - |sign| - |prefix| - zeros - |digits|;
    SignCase(sign, prefix, f.small);
    NumeralCase(n, base, f.small);
    ManyCase('0', zeros, f.small);
    ManyCase('0', gap, f.small);
    ManyCase(' ', gap, f.small);
    FiveCase(sign, prefix, Many('0', zeros), digits, Many(' ', gap), f.small);
    FiveCase(sign, prefix, Many('0', gap), Many('0', zeros), digits, f.small);
    FiveCase(Many(' ', gap), sign, prefix, Many('0', zeros), digits, f.small);
  }

  lemma SignCase(sign: string, prefix: string, small: bool)
    requires sign in {"-", "+", " ", ""} && prefix in {"", "0", if small then "0x" else "0X"}
    ensures OneCase(sign, small) && OneCase(prefix, small)
  {}

  lemma NumeralCase(n: nat, base: nat, small: bool)
    requires BaseOk(base)
    ensures OneCase(Numeral(n, base, small), small)
  {
    hide Numeral;
    var ds := Numeral(n, base, small);
    forall c | c in ds ensures if small then !('A' <= c <= 'Z') else !('a' <= c <= 'z') {
      var i :| 0 <= i < |ds| && ds[i] == c;
      DigitsCase(n, base, small, i);
    }
  }

  lemma ManyCase(c: char, n: int, small: bool)
    requires c == '0' || c == ' '
    ensures OneCase(Many(c, n), small)
  {}

  lemma FiveCase(a: string, b: string, c: string, d: string, e: string, small: bool)
    requires OneCase(a, small) && OneCase(b, small) && OneCase(c, small) && OneCase(d, small) && OneCase(e, small)
    ensures OneCase(a + b + c + d + e, small)
  {}

  // ----- reading a directive

  /** `r` is `f` with the flag of each character of `run`. */
  predicate RunOfFlags(run: string, f: Flags, r: Flags) {
    && (forall c :: c in run ==> c in {'-', '+', ' ', '#', '0'})
    && (r.left <==> f.left || '-' in run) && (r.plus <==> f.plus || '+' in run) && (r.space <==> f.space || ' ' in run)
    && (r.special <==> f.special || '#' in run) && (r.zeropad <==> f.zeropad || '0' in run)
    && r.sign == f.sign && r.small == f.small
  }

  /** The run of flag characters: each sets its own flag, and the first other character ends it. */
  lemma {:induction false} FlagsRead(fmt: string, i: nat, f: Flags)
    requires CString(fmt) && i <= |fmt|
    ensures var (r, j) := ParseFlags(fmt, i, f);
      RunOfFlags(fmt[i..j], f, r) && (j < |fmt| ==> fmt[j] !in {'-', '+', ' ', '#', '0'})
    decreases |fmt| - i
  {
    hide ParseFlags, WithFlag, RunOfFlags;
    FlagStep(fmt, i, f);
    var (r, j) := ParseFlags(fmt, i, f);
    if i < |fmt| && fmt[i] in {'-', '+', ' ', '#', '0'} {
      FlagsRead(fmt, i + 1, WithFlag(f, fmt[i]));
      RunGrows(fmt[i], fmt[i + 1..j], f, r);
      assert fmt[i..j] == [fmt[i]] + fmt[i + 1..j];
    } else {
      EmptyRun(f);
      assert fmt[i..i] == "";
    }
  }

  lemma EmptyRun(f: Flags)
    ensures RunOfFlags("", f, f)
  {}

  lemma RunGrows(c: char, run: string, f: Flags, r: Flags)
    requires Flag(c) && RunOfFlags(run, WithFlag(f, c), r)
    ensures RunOfFlags([c] + run, f, r)
  {
    hide WithFlag;
    FlagSet(f, c);
    assert forall x :: x in [c] + run <==> x == c || x in run;
  }

  lemma FlagStep(fmt: string, i: nat, f: Flags)
    requires CString(fmt) && i <= |fmt|
    ensures ParseFlags(fmt, i, f) ==
      if i < |fmt| && fmt[i] in {'-', '+', ' ', '#', '0'} then ParseFlags(fmt, i + 1, WithFlag(f, fmt[i])) else (f, i)
  {}

  lemma FlagSet(f: Flags, c: char)
    requires Flag(c)
    ensures WithFlag(f, c) == f.(left := f.left || c == '-', plus := f.plus || c == '+', space := f.space || c == ' ',
                                special := f.special || c == '#', zeropad := f.zeropad || c == '0')
  {}

  /** A point without digits asks for precision 0, h, l and L are passed over, and a star is also the conversion. */
  lemma SmallFormats(q: char, c: char)
    requires q in {'h', 'l', 'L'} && c !in {'\0', '-', '+', ' ', '#', '0', '.', '*', '%', 'h', 'l', 'L'} && !('0' <= c <= '9')
    ensures CString(['%', c]) && Parse(['%', c]) == [Directive(NO_FLAGS, -1, -1, false, c)]
    ensures CString(['%', q, c]) && Parse(['%', q, c]) == [Directive(NO_FLAGS, -1, -1, false, c)]
    ensures CString(['%', '.', c]) && Parse(['%', '.', c]) == [Directive(NO_FLAGS, -1, 0, false, c)]
    ensures CString(['%', '*', c]) && Parse(['%', '*', c]) == [Directive(NO_FLAGS, -1, -1, true, '*'), Literal(c)]
    ensures CString(['%', '.', '*', c]) && Parse(['%', '.', '*', c]) == [Directive(NO_FLAGS, -1, 0, true, '*'), Literal(c)]
    ensures CString(['%']) && Parse(['%']) == [Directive(NO_FLAGS, -1, -1, false, '\0')]
  {
    OneDirective(['%', c], 2);
    OneDirective(['%', q, c], 3);
    OneDirective(['%', '.', c], 3);
    OneDirective(['%', '*', c], 2);
    OneDirective(['%', '.', '*', c], 3);
    OneDirective(['%'], 1);
    ParseStep(['%', '*', c], 2);
    ParseStep(['%', '*', c], 3);
    ParseStep(['%', '.', '*', c], 3);
    ParseStep(['%', '.', '*', c], 4);
  }

  lemma OneDirective(fmt: string, j: nat)
    requires CString(fmt) && fmt != "" && fmt[0] == '%' && ParseDirective(fmt, 1).1 == j
    ensures j <= |fmt| && Parse(fmt) == [ParseDirective(fmt, 1).0] + ParseFrom(fmt, j)
    ensures j == |fmt| ==> ParseFrom(fmt, j) == []
  {}
}
