/**
 vsprintf() of vsprintf.c: the loop that reads the format and writes the text, against a
 parse of the format into pieces and a rendering of each piece.
 */
module Printf {
  import opened Common
  import opened Numbers

  const NUL: char := '\0'

  /** What one '%' asks for.  `star`: a '*' stood in for the width or the precision. */
  datatype Piece =
    | Literal(c: char)
    | Directive(f: Flags, width: int, precision: int, star: bool, conversion: char)

  datatype Arg = Number(num: Word) | Text(s: string)

  const NO_FLAGS: Flags := Flags(false, false, false, false, false, false, false)

  /** The format's characters; the terminating NUL behind the last. */
  function At(fmt: string, i: nat): char { if i < |fmt| then fmt[i] else NUL }

  predicate IsDigit(c: char) { '0' <= c <= '9' }

  predicate CString(fmt: string) { NUL !in fmt }

  // ----- the pieces of a format

  function ParseFlags(fmt: string, i: nat, f: Flags): (r: (Flags, nat))
    requires CString(fmt) && i <= |fmt|
    ensures i <= r.1 <= |fmt|
    decreases |fmt| - i
  {
    match At(fmt, i)
    case '-' => ParseFlags(fmt, i + 1, f.(left := true))
    case '+' => ParseFlags(fmt, i + 1, f.(plus := true))
    case ' ' => ParseFlags(fmt, i + 1, f.(space := true))
    case '#' => ParseFlags(fmt, i + 1, f.(special := true))
    case '0' => ParseFlags(fmt, i + 1, f.(zeropad := true))
    case _ => (f, i)
  }

  /** skip_atoi(): the value of a run of digits and its end. */
  function ParseNumber(fmt: string, i: nat, value: nat): (r: (nat, nat))
    requires CString(fmt) && i <= |fmt|
    ensures i <= r.1 <= |fmt|
    decreases |fmt| - i
  {
    if IsDigit(At(fmt, i)) then ParseNumber(fmt, i + 1, value * 10 + (fmt[i] as nat - '0' as nat)) else (value, i)
  }

  function ParseWidth(fmt: string, i: nat): (r: (int, nat))
    requires CString(fmt) && i <= |fmt|
    ensures i <= r.1 <= |fmt|
  {
    if IsDigit(At(fmt, i)) then var (w, j) := ParseNumber(fmt, i, 0); (w, j) else (-1, i)
  }

  /** Without digits after the point the precision is 0, also when a '*' follows. */
  function ParsePrecision(fmt: string, i: nat): (r: (int, nat))
    requires CString(fmt) && i <= |fmt|
    ensures i <= r.1 <= |fmt|
  {
    if At(fmt, i) != '.' then (-1, i)
    else if IsDigit(At(fmt, i + 1)) then var (p, j) := ParseNumber(fmt, i + 1, 0); (p, j)
    else (0, i + 1)
  }

  function ParseQualifier(fmt: string, i: nat): (r: nat)
    requires CString(fmt) && i <= |fmt|
    ensures i <= r <= |fmt|
  {
    if At(fmt, i) in {'h', 'l', 'L'} then i + 1 else i
  }

  /** The directive behind the '%' at i - 1, and the index behind it. */
  function ParseDirective(fmt: string, i: nat): (r: (Piece, nat))
    requires CString(fmt) && i <= |fmt|
    ensures i <= r.1 <= |fmt|
  {
    var (f, i1) := ParseFlags(fmt, i, NO_FLAGS);
    var (width, i2) := ParseWidth(fmt, i1);
    var (precision, i3) := ParsePrecision(fmt, i2);
    var star := (i2 == i1 && At(fmt, i1) == '*') || (i3 == i2 + 1 && At(fmt, i3) == '*');
    var i4 := ParseQualifier(fmt, i3);
    (Directive(f, width, precision, star, At(fmt, i4)), if i4 < |fmt| then i4 + 1 else i4)
  }

  function ParseFrom(fmt: string, i: nat): seq<Piece>
    requires CString(fmt) && i <= |fmt|
    decreases |fmt| - i
  {
    if i == |fmt| then []
    else if fmt[i] != '%' then [Literal(fmt[i])] + ParseFrom(fmt, i + 1)
    else
      var (d, j) := ParseDirective(fmt, i + 1);
      [d] + ParseFrom(fmt, j)
  }

  function Parse(fmt: string): seq<Piece>
    requires CString(fmt)
  {
    ParseFrom(fmt, 0)
  }

  // ----- what a piece prints

  datatype Kind = TakesNumber | TakesText | TakesNothing

  function KindOf(conversion: char): Kind {
    if conversion in {'c', 'o', 'p', 'x', 'X', 'd', 'i', 'u', 'b'} then TakesNumber
    else if conversion == 's' then TakesText
    else TakesNothing
  }

  /** A '*' takes an argument but is not read over, so it is also the conversion, and unknown. */
  function Arguments(d: Piece): nat {
    match d
    case Literal(_) => 0
    case Directive(_, _, _, star, c) => if star || KindOf(c) != TakesNothing then 1 else 0
  }

  predicate Fits(d: Piece, args: seq<Arg>) {
    match d
    case Literal(_) => true
    case Directive(_, _, _, star, c) =>
      && c != 'n'
      && (star ==> args != [] && args[0].Number?)
      && (!star && KindOf(c) == TakesNumber ==> args != [] && args[0].Number?)
      && (!star && KindOf(c) == TakesText ==> args != [] && args[0].Text?)
  }

  function CharText(f: Flags, width: int, num: Word): string {
    var c := [(num % 256) as char];
    if f.left then c + Repeat(' ', width - 1) else Repeat(' ', width - 1) + c
  }

  function StringText(f: Flags, width: int, precision: int, s: string): string {
    var t := if 0 <= precision < |s| then s[..precision] else s;
    if f.left then t + Repeat(' ', width - |t|) else Repeat(' ', width - |t|) + t
  }

  /** The base and the flags number() gets for a conversion. */
  function BaseOf(conversion: char): nat {
    match conversion
    case 'o' => 8
    case 'p' => 16
    case 'x' => 16
    case 'X' => 16
    case 'b' => 2
    case _ => 10
  }

  function FlagsOf(f: Flags, width: int, conversion: char): Flags {
    f.(small := f.small || conversion == 'x',
       sign := f.sign || conversion == 'd' || conversion == 'i',
       zeropad := f.zeropad || (conversion == 'p' && width == -1))
  }

  function PieceText(d: Piece, args: seq<Arg>): string
    requires Fits(d, args)
  {
    match d
    case Literal(c) => [c]
    case Directive(f, width, precision, star, c) =>
      if !star && c == 'c' then CharText(f, width, args[0].num)
      else if !star && c == 's' then StringText(f, width, precision, args[0].s)
      else if !star && KindOf(c) == TakesNumber then
        NumberText(args[0].num, BaseOf(c), if c == 'p' && width == -1 then 8 else width, precision, FlagsOf(f, width, c)).value
      else (if c == '%' then "" else "%") + (if c == NUL then "" else [c])
  }

  predicate AllFit(ds: seq<Piece>, args: seq<Arg>)
    decreases |ds|
  {
    ds != [] ==> Fits(ds[0], args) && Arguments(ds[0]) <= |args| && AllFit(ds[1..], args[Arguments(ds[0])..])
  }

  function Render(ds: seq<Piece>, args: seq<Arg>): string
    requires AllFit(ds, args)
    decreases |ds|
  {
    if ds == [] then "" else PieceText(ds[0], args) + Render(ds[1..], args[Arguments(ds[0])..])
  }

  function ArgumentsOf(ds: seq<Piece>): nat
    decreases |ds|
  {
    if ds == [] then 0 else Arguments(ds[0]) + ArgumentsOf(ds[1..])
  }

  // ----- the text of a format is put together piece by piece

  lemma {:induction false} RenderAppend(a: seq<Piece>, b: seq<Piece>, args: seq<Arg>)
    requires AllFit(a, args) && ArgumentsOf(a) <= |args| && AllFit(b, args[ArgumentsOf(a)..])
    ensures AllFit(a + b, args) && Render(a + b, args) == Render(a, args) + Render(b, args[ArgumentsOf(a)..])
    decreases |a|
  {
    hide Fits, PieceText, Arguments;
    if a == [] {
      assert a + b == b && args[0..] == args;
    } else {
      var n := Arguments(a[0]);
      assert (a + b)[1..] == a[1..] + b && (a + b)[0] == a[0];
      assert args[n..][ArgumentsOf(a[1..])..] == args[ArgumentsOf(a)..];
      RenderAppend(a[1..], b, args[n..]);
    }
  }

  lemma {:induction false} ArgumentsEnough(ds: seq<Piece>, args: seq<Arg>)
    requires AllFit(ds, args)
    ensures ArgumentsOf(ds) <= |args|
    decreases |ds|
  {
    if ds != [] { ArgumentsEnough(ds[1..], args[Arguments(ds[0])..]); }
  }

  // ----- what the text of a directive says

  /** A string directive is as wide as asked for, or as what it shows of the string, which stands at one edge. */
  lemma StringWidth(f: Flags, width: int, precision: int, s: string)
    ensures var t := StringText(f, width, precision, s);
      var n := if precision < 0 || |s| < precision then |s| else precision;
      && |t| == Max(width, n)
      && (if f.left then t[..n] else t[|t| - n..]) == s[..n]
      && forall i :: 0 <= i < |t| && (if f.left then i >= n else i < |t| - n) ==> t[i] == ' '
  {
    var n := if precision < 0 || |s| < precision then |s| else precision;
    assert s[..|s|] == s;
    var t := StringText(f, width, precision, s);
    assert |t| == Max(width, n);
  }

  /** Every integer conversion shows its argument in its base, signed for d and i only. */
  lemma DirectiveShowsNumber(d: Piece, args: seq<Arg>)
    requires d.Directive? && !d.star && Fits(d, args) && !d.f.sign
    requires d.conversion in {'d', 'i', 'u', 'o', 'x', 'X', 'p', 'b'}
    ensures var c, n := d.conversion, args[0].num;
      var base := if c == 'o' then 8 else if c == 'b' then 2 else if c in {'d', 'i', 'u'} then 10 else 16;
      && ReadBack(PieceText(d, args), base, d.f.special) == (if c in {'d', 'i'} && n >= SIGN_BIT then n - WORDS else n)
      && |PieceText(d, args)| >= d.width
  {
    hide ReadBack, NumberText;
    var c := d.conversion;
    var width, f := if c == 'p' && d.width == -1 then 8 else d.width, FlagsOf(d.f, d.width, c);
    NumberReadsBack(args[0].num, BaseOf(c), width, d.precision, f);
    NumberWidth(args[0].num, BaseOf(c), width, d.precision, f);
  }

  // ----- the loops of vsprintf()

  /** Writes one space less than `width`; `left` is what remains of the width. */
  method PadChar(str: string, width: int) returns (r: string, left: int)
    ensures r == str + Repeat(' ', width - 1) && left <= 0
  {
    r, left := str, width - 1;
    while left > 0
      invariant left == width - 1 || 0 <= left < width
      invariant r == str + Repeat(' ', width - 1 - left)
    {
      r := r + " ";
      left := left - 1;
    }
  }

  /** Writes spaces until the width is down to `len`; `left` is what remains of the width. */
  method PadText(str: string, len: nat, width: int) returns (r: string, left: int)
    ensures r == str + Repeat(' ', width - len) && left < len
  {
    r, left := str, width;
    while len < left
      invariant left == width || len <= left <= width
      invariant r == str + Repeat(' ', width - left)
    {
      left := left - 1;
      r := r + " ";
    }
    left := left - 1;
  }

  method SkipAtoi(fmt: string, i: nat) returns (value: nat, j: nat)
    requires CString(fmt) && i <= |fmt|
    ensures (value, j) == ParseNumber(fmt, i, 0)
  {
    value, j := 0, i;
    while IsDigit(At(fmt, j))
      invariant i <= j <= |fmt|
      invariant ParseNumber(fmt, i, 0) == ParseNumber(fmt, j, value)
      decreases |fmt| - j
    {
      value := value * 10 + (fmt[j] as nat - '0' as nat);
      j := j + 1;
    }
  }

  /** The `repeat:` loop; `i` is already behind the '%'. */
  method ReadFlags(fmt: string, i: nat) returns (f: Flags, j: nat)
    requires CString(fmt) && i <= |fmt|
    ensures (f, j) == ParseFlags(fmt, i, NO_FLAGS)
  {
    f, j := NO_FLAGS, i;
    while At(fmt, j) in {'-', '+', ' ', '#', '0'}
      invariant i <= j <= |fmt|
      invariant ParseFlags(fmt, i, NO_FLAGS) == ParseFlags(fmt, j, f)
      decreases |fmt| - j
    {
      match fmt[j] {
        case '-' => f := f.(left := true);
        case '+' => f := f.(plus := true);
        case ' ' => f := f.(space := true);
        case '#' => f := f.(special := true);
        case _ => f := f.(zeropad := true);
      }
      j := j + 1;
    }
  }

  /** From behind the '%' to the conversion; a '*' takes an argument. */
  method ReadDirective(fmt: string, i: nat, args: seq<Arg>) returns (d: Piece, j: nat, rest: seq<Arg>)
    requires CString(fmt) && i <= |fmt| && Fits(ParseDirective(fmt, i).0, args)
    ensures (d, j) == ParseDirective(fmt, i)
    ensures rest == if d.star then args[1..] else args
  {
    var f, i1 := ReadFlags(fmt, i);
    var width: int, star := -1, false;
    rest := args;
    j := i1;
    if IsDigit(At(fmt, j)) {
      width, j := SkipAtoi(fmt, j);
    } else if At(fmt, j) == '*' {
      star, rest := true, rest[1..];
    }
    var precision: int := -1;
    if At(fmt, j) == '.' {
      j := j + 1;
      if IsDigit(At(fmt, j)) {
        precision, j := SkipAtoi(fmt, j);
      } else {
        if At(fmt, j) == '*' {
          star, rest := true, rest[1..];
        }
        precision := 0;
      }
    }
    if At(fmt, j) == 'h' || At(fmt, j) == 'l' || At(fmt, j) == 'L' {
      j := j + 1;
    }
    d := Directive(f, width, precision, star, At(fmt, j));
    if j < |fmt| {
      j := j + 1;
    }
  }

  /** The switch over the conversion. */
  method PutDirective(str: string, d: Piece, args: seq<Arg>) returns (r: string, rest: seq<Arg>)
    requires d.Directive? && d.conversion != 'n' && (d.star ==> d.conversion == '*') && Fits(d.(star := false), args)
    ensures r == str + PieceText(d.(star := false), args)
    ensures rest == args[Arguments(d.(star := false))..]
  {
    var f, width, precision, c := d.f, d.width, d.precision, d.conversion;
    r, rest := str, if KindOf(c) == TakesNothing then args else args[1..];
    if c == 'c' {
      r := PutChar(str, f, width, args[0].num);
    } else if c == 's' {
      r := PutText(str, f, width, precision, args[0].s);
    } else if KindOf(c) == TakesNumber {
      if c == 'p' && width == -1 {
        width := 8;
      }
      var text := Numbers.Number(str, args[0].num, BaseOf(c), width, precision, FlagsOf(f, d.width, c));
      r := text.value;
    } else {
      if c != '%' { r := r + "%"; }
      if c != NUL { r := r + [c]; }
    }
  }

  method PutChar(str: string, f: Flags, width: int, num: Word) returns (r: string)
    ensures r == str + CharText(f, width, num)
    ensures |r| == |str| + Max(width, 1) && r[if f.left then |str| else |r| - 1] as nat == num % 256
  {
    var left := width;
    r := str;
    if !f.left {
      r, left := PadChar(r, left);
    }
    r := r + [(num % 256) as char];
    r, left := PadChar(r, left);
  }

  method PutText(str: string, f: Flags, width: int, precision: int, s: string) returns (r: string)
    ensures r == str + StringText(f, width, precision, s)
  {
    var len, left := |s|, width;
    if 0 <= precision < len {
      len := precision;
    }
    r := str;
    if !f.left {
      r, left := PadText(r, len, left);
    }
    var padded := r;
    for i := 0 to len
      invariant r == padded + s[..i]
    {
      r := r + [s[i]];
    }
    r, left := PadText(r, len, left);
  }

  /** The whole of vsprintf(): the text of the format's pieces in order, and its length. */
  method Vsprintf(fmt: string, args: seq<Arg>) returns (str: string, count: nat)
    requires CString(fmt) && AllFit(Parse(fmt), args)
    ensures str == Render(Parse(fmt), args) && count == |str|
  {
    hide ParseFrom, ParseDirective, Render, AllFit, PieceText, Arguments, Fits;
    var i: nat, rest := 0, args;
    str := "";
    RenderNothing();
    while i < |fmt|
      invariant i <= |fmt| && AllFit(ParseFrom(fmt, i), rest)
      invariant Render(Parse(fmt), args) == str + Render(ParseFrom(fmt, i), rest)
      decreases |fmt| - i
    {
      ghost var before, was, from := str, rest, i;
      if fmt[i] != '%' {
        str := str + [fmt[i]];
        i := i + 1;
        ParseStep(fmt, from);
        RenderFirst(Literal(fmt[from]), ParseFrom(fmt, i), was, before);
        LiteralText(fmt[from], was);
      } else {
        ParseStep(fmt, i);
        RenderFirst(ParseDirective(fmt, i + 1).0, ParseFrom(fmt, ParseDirective(fmt, i + 1).1), was, before);
        StarText(fmt, i + 1, was);
        var d;
        d, i, rest := ReadDirective(fmt, i + 1, rest);
        str, rest := PutDirective(str, d, rest);
      }
    }
    ParseStep(fmt, i);
    return str, |str|;
  }

  lemma RenderNothing()
    ensures forall args :: Render([], args) == ""
  {}

  lemma ParseStep(fmt: string, i: nat)
    requires CString(fmt) && i <= |fmt|
    ensures i == |fmt| ==> ParseFrom(fmt, i) == []
    ensures i < |fmt| && fmt[i] != '%' ==> ParseFrom(fmt, i) == [Literal(fmt[i])] + ParseFrom(fmt, i + 1)
    ensures i < |fmt| && fmt[i] == '%' ==>
      ParseFrom(fmt, i) == [ParseDirective(fmt, i + 1).0] + ParseFrom(fmt, ParseDirective(fmt, i + 1).1)
  {}

  lemma LiteralText(c: char, args: seq<Arg>)
    ensures Fits(Literal(c), args) && PieceText(Literal(c), args) == [c] && Arguments(Literal(c)) == 0
  {}

  /** A star takes its argument first; what is left prints as if there had been none. */
  lemma StarText(fmt: string, i: nat, args: seq<Arg>)
    requires CString(fmt) && i <= |fmt| && Fits(ParseDirective(fmt, i).0, args)
    ensures var d := ParseDirective(fmt, i).0;
      && d.Directive? && d.conversion != 'n' && (d.star ==> d.conversion == '*' && args != [])
      && var rest := if d.star then args[1..] else args;
      && Fits(d.(star := false), rest) && Arguments(d.(star := false)) <= |rest|
      && PieceText(d, args) == PieceText(d.(star := false), rest)
      && args[Arguments(d)..] == rest[Arguments(d.(star := false))..]
  {}

  lemma RenderFirst(d: Piece, ds: seq<Piece>, args: seq<Arg>, before: string)
    requires AllFit([d] + ds, args)
    ensures Fits(d, args) && Arguments(d) <= |args| && AllFit(ds, args[Arguments(d)..])
    ensures before + Render([d] + ds, args) == (before + PieceText(d, args)) + Render(ds, args[Arguments(d)..])
  {
    assert ([d] + ds)[1..] == ds;
  }

  // ----- formats put together

  /** A format that does not end inside a directive. */
  predicate Complete(fmt: string, i: nat)
    requires CString(fmt) && i <= |fmt|
    decreases |fmt| - i
  {
    if i == |fmt| then true
    else if fmt[i] != '%' then Complete(fmt, i + 1)
    else
      var (d, j) := ParseDirective(fmt, i + 1);
      d.conversion != NUL && Complete(fmt, j)
  }

  lemma {:induction false} FlagsAppend(a: string, b: string, i: nat, f: Flags)
    requires CString(a + b) && CString(a) && i <= |a| && ParseFlags(a, i, f).1 < |a|
    ensures ParseFlags(a + b, i, f) == ParseFlags(a, i, f)
    decreases |a| - i
  {
    if i < |a| {
      match a[i]
      case '-' => FlagsAppend(a, b, i + 1, f.(left := true));
      case '+' => FlagsAppend(a, b, i + 1, f.(plus := true));
      case ' ' => FlagsAppend(a, b, i + 1, f.(space := true));
      case '#' => FlagsAppend(a, b, i + 1, f.(special := true));
      case '0' => FlagsAppend(a, b, i + 1, f.(zeropad := true));
      case _ =>
    }
  }

  lemma {:induction false} NumberAppend(a: string, b: string, i: nat, value: nat)
    requires CString(a + b) && CString(a) && i <= |a| && ParseNumber(a, i, value).1 < |a|
    ensures ParseNumber(a + b, i, value) == ParseNumber(a, i, value)
    decreases |a| - i
  {
    if IsDigit(At(a, i)) { NumberAppend(a, b, i + 1, value * 10 + (a[i] as nat - '0' as nat)); }
  }

  lemma DirectiveAppend(a: string, b: string, i: nat)
    requires CString(a + b) && CString(a) && i <= |a| && ParseDirective(a, i).0.conversion != NUL
    ensures ParseDirective(a + b, i) == ParseDirective(a, i)
  {
    var (f, i1) := ParseFlags(a, i, NO_FLAGS);
    FlagsAppend(a, b, i, NO_FLAGS);
    if IsDigit(At(a, i1)) { NumberAppend(a, b, i1, 0); }
    var (width, i2) := ParseWidth(a, i1);
    if At(a, i2) == '.' && IsDigit(At(a, i2 + 1)) { NumberAppend(a, b, i2 + 1, 0); }
  }

  /** Parsing goes on behind a complete format as if it were not there. */
  lemma {:induction false} ParseShift(a: string, b: string, i: nat)
    requires CString(a + b) && CString(b) && i <= |b|
    ensures ParseFrom(a + b, |a| + i) == ParseFrom(b, i)
    decreases |b| - i
  {
    hide ParseDirective, ParseFrom;
    ParseStep(b, i);
    ParseStep(a + b, |a| + i);
    if i < |b| {
      assert (a + b)[|a| + i] == b[i];
      if b[i] != '%' {
        ParseShift(a, b, i + 1);
      } else {
        DirectiveShift(a, b, i + 1);
        var (d, j) := ParseDirective(b, i + 1);
        ParseShift(a, b, j);
      }
    }
  }

  lemma {:induction false} FlagsShift(a: string, b: string, i: nat, f: Flags)
    requires CString(a + b) && CString(b) && i <= |b|
    ensures ParseFlags(a + b, |a| + i, f) == (ParseFlags(b, i, f).0, |a| + ParseFlags(b, i, f).1)
    decreases |b| - i
  {
    if i < |b| {
      match b[i]
      case '-' => FlagsShift(a, b, i + 1, f.(left := true));
      case '+' => FlagsShift(a, b, i + 1, f.(plus := true));
      case ' ' => FlagsShift(a, b, i + 1, f.(space := true));
      case '#' => FlagsShift(a, b, i + 1, f.(special := true));
      case '0' => FlagsShift(a, b, i + 1, f.(zeropad := true));
      case _ =>
    }
  }

  lemma {:induction false} NumberShift(a: string, b: string, i: nat, value: nat)
    requires CString(a + b) && CString(b) && i <= |b|
    ensures ParseNumber(a + b, |a| + i, value) == (ParseNumber(b, i, value).0, |a| + ParseNumber(b, i, value).1)
    decreases |b| - i
  {
    if IsDigit(At(b, i)) { NumberShift(a, b, i + 1, value * 10 + (b[i] as nat - '0' as nat)); }
  }

  lemma WidthShift(a: string, b: string, i: nat)
    requires CString(a + b) && CString(b) && i <= |b|
    ensures ParseWidth(a + b, |a| + i) == (ParseWidth(b, i).0, |a| + ParseWidth(b, i).1)
  {
    hide ParseNumber;
    assert At(a + b, |a| + i) == At(b, i);
    if IsDigit(At(b, i)) { NumberShift(a, b, i, 0); }
  }

  lemma PrecisionShift(a: string, b: string, i: nat)
    requires CString(a + b) && CString(b) && i <= |b|
    ensures ParsePrecision(a + b, |a| + i) == (ParsePrecision(b, i).0, |a| + ParsePrecision(b, i).1)
  {
    hide ParseNumber;
    assert At(a + b, |a| + i) == At(b, i) && At(a + b, |a| + i + 1) == At(b, i + 1);
    if At(b, i) == '.' && IsDigit(At(b, i + 1)) { NumberShift(a, b, i + 1, 0); }
  }

  lemma DirectiveShift(a: string, b: string, i: nat)
    requires CString(a + b) && CString(b) && i <= |b|
    ensures ParseDirective(a + b, |a| + i) == (ParseDirective(b, i).0, |a| + ParseDirective(b, i).1)
  {
    hide ParseFlags, ParseWidth, ParsePrecision;
    var (f, i1) := ParseFlags(b, i, NO_FLAGS);
    var (width, i2) := ParseWidth(b, i1);
    FlagsShift(a, b, i, NO_FLAGS);
    WidthShift(a, b, i1);
    PrecisionShift(a, b, i2);
  }

  lemma {:induction false} ParseAppendFrom(a: string, b: string, i: nat)
    requires CString(a) && CString(b) && CString(a + b) && i <= |a| && Complete(a, i)
    ensures ParseFrom(a + b, i) == ParseFrom(a, i) + Parse(b)
    decreases |a| - i
  {
    if i == |a| {
      ParseShift(a, b, 0);
    } else if a[i] != '%' {
      ParseAppendFrom(a, b, i + 1);
    } else {
      DirectiveAppend(a, b, i + 1);
      ParseAppendFrom(a, b, ParseDirective(a, i + 1).1);
    }
  }

  /**
   Formatting is compositional: the text of one format behind another is one text behind
   the other, unless the first ends inside a directive.
   */
  lemma FormatsCompose(a: string, b: string, args: seq<Arg>)
    requires CString(a) && CString(b) && Complete(a, 0)
    requires AllFit(Parse(a), args) && ArgumentsOf(Parse(a)) <= |args| && AllFit(Parse(b), args[ArgumentsOf(Parse(a))..])
    ensures CString(a + b) && AllFit(Parse(a + b), args)
    ensures Render(Parse(a + b), args) == Render(Parse(a), args) + Render(Parse(b), args[ArgumentsOf(Parse(a))..])
  {
    ParseAppendFrom(a, b, 0);
    RenderAppend(Parse(a), Parse(b), args);
  }

  // ----- writing a format

  function FlagChars(f: Flags): string {
    (if f.left then "-" else "") + (if f.plus then "+" else "") + (if f.space then " " else "")
    + (if f.special then "#" else "") + (if f.zeropad then "0" else "")
  }

  /** Pieces that a format can spell: no star, a width without leading zero, a conversion that is none of the rest. */
  predicate Spellable(d: Piece) {
    match d
    case Literal(c) => c != '%' && c != NUL
    case Directive(f, width, precision, star, c) =>
      && !f.sign && !f.small && !star && (width == -1 || width > 0) && precision >= -1
      && c !in {NUL, '-', '+', ' ', '#', '.', '*', 'h', 'l', 'L'} && !IsDigit(c)
  }

  function Spell(d: Piece): string
    requires Spellable(d)
  {
    match d
    case Literal(c) => [c]
    case Directive(f, width, precision, star, c) =>
      "%" + FlagChars(f) + (if width == -1 then "" else Digits(width, 10, false))
      + (if precision == -1 then "" else "." + Numeral(precision, 10, false)) + [c]
  }

  predicate Flag(c: char) { c in {'-', '+', ' ', '#', '0'} }

  function WithFlag(f: Flags, c: char): Flags
    requires Flag(c)
  {
    match c
    case '-' => f.(left := true)
    case '+' => f.(plus := true)
    case ' ' => f.(space := true)
    case '#' => f.(special := true)
    case _ => f.(zeropad := true)
  }

  lemma FlagHead(c: char, t: string, f: Flags)
    requires Flag(c) && CString(t)
    ensures CString([c] + t) && ParseFlags([c] + t, 0, f) == (ParseFlags(t, 0, WithFlag(f, c)).0, 1 + ParseFlags(t, 0, WithFlag(f, c)).1)
  {
    FlagsShift([c], t, 0, WithFlag(f, c));
  }

  /** One optional flag in front. */
  lemma FlagMaybe(on: bool, c: char, t: string, f: Flags)
    requires Flag(c) && CString(t)
    ensures var u, g := (if on then [c] else "") + t, if on then WithFlag(f, c) else f;
      CString(u) && ParseFlags(u, 0, f) == (ParseFlags(t, 0, g).0, |u| - |t| + ParseFlags(t, 0, g).1)
  {
    if on { FlagHead(c, t, f); } else { assert "" + t == t; }
  }

  lemma NoFlag(t: string, f: Flags)
    requires CString(t) && !Flag(At(t, 0))
    ensures ParseFlags(t, 0, f) == (f, 0)
  {}

  function LastFlags(f: Flags): string {
    (if f.space then " " else "") + ((if f.special then "#" else "") + (if f.zeropad then "0" else ""))
  }

  lemma LastFlagsSpelled(f: Flags, t: string)
    requires CString(t) && !f.sign && !f.small && !Flag(At(t, 0))
    ensures CString(LastFlags(f) + t)
    ensures ParseFlags(LastFlags(f) + t, 0, NO_FLAGS.(left := f.left, plus := f.plus)) == (f, |LastFlags(f)|)
  {
    hide ParseFlags, At;
    var t5 := (if f.zeropad then "0" else "") + t;
    var t4 := (if f.special then "#" else "") + t5;
    assert LastFlags(f) + t == (if f.space then " " else "") + t4;
    var f2 := NO_FLAGS.(left := f.left, plus := f.plus);
    NoFlag(t, f);
    FlagMaybe(f.zeropad, '0', t, f.(zeropad := false));
    FlagMaybe(f.special, '#', t5, f.(zeropad := false, special := false));
    FlagMaybe(f.space, ' ', t4, f2);
  }

  lemma FlagsSpelled(f: Flags, t: string)
    requires CString(t) && !f.sign && !f.small && !Flag(At(t, 0))
    ensures CString(FlagChars(f) + t) && ParseFlags(FlagChars(f) + t, 0, NO_FLAGS) == (f, |FlagChars(f)|)
  {
    hide ParseFlags, At, LastFlags;
    var t3 := LastFlags(f) + t;
    var t2 := (if f.plus then "+" else "") + t3;
    FlagCharsParts(f);
    assert FlagChars(f) + t == (if f.left then "-" else "") + t2;
    LastFlagsSpelled(f, t);
    FlagMaybe(f.plus, '+', t3, NO_FLAGS.(left := f.left));
    FlagMaybe(f.left, '-', t2, NO_FLAGS);
  }

  lemma FlagCharsParts(f: Flags)
    ensures FlagChars(f) == (if f.left then "-" else "") + ((if f.plus then "+" else "") + LastFlags(f))
  {}

  lemma {:induction false} NumberSpelled(ds: string, t: string, i: nat)
    requires CString(ds + t) && i <= |ds| && (forall c :: c in ds ==> IsDigit(c)) && !IsDigit(At(t, 0))
    ensures ParseNumber(ds + t, i, Value(ds[..i], 10)) == (Value(ds, 10), |ds|)
    decreases |ds| - i
  {
    if i < |ds| {
      assert ds[i] in ds && (ds + t)[i] == ds[i];
      assert ds[..i + 1] == ds[..i] + [ds[i]];
      ValueAppend(ds[..i], ds[i], 10);
      NumberSpelled(ds, t, i + 1);
    } else {
      assert ds[..i] == ds;
      assert At(ds + t, i) == At(t, 0);
    }
  }

  lemma {:induction false} DecimalDigits(n: nat)
    ensures forall c :: c in Digits(n, 10, false) ==> IsDigit(c)
    ensures n > 0 ==> Digits(n, 10, false) != "" && Digits(n, 10, false)[0] != '0'
    decreases n
  {
    if n > 0 {
      LessDigits(n, 10);
      DecimalDigits(n / 10);
      LastDigit(n, 10, false);
      var d := LARGE_DIGITS[n % 10];
      assert IsDigit(d) && (n % 10 > 0 ==> d != '0');
      if n / 10 == 0 { NoDigits(10, false); }
    }
  }

  /** The decimal text of a number, then something else, is read as that number. */
  lemma DecimalSpelled(n: nat, t: string)
    requires CString(t) && !IsDigit(At(t, 0))
    ensures var ds := Numeral(n, 10, false);
      CString(ds + t) && IsDigit(ds[0]) && (n > 0 ==> ds == Digits(n, 10, false) && ds[0] != '0')
      && ParseNumber(ds + t, 0, 0) == (n, |ds|)
  {
    var ds := Numeral(n, 10, false);
    DecimalDigits(n);
    assert ds[0] in ds;
    NumberSpelled(ds, t, 0);
    ValueOfDigits(n, 10, false);
  }

  function WidthChars(width: int): string
    requires width >= -1
  {
    if width == -1 then "" else Digits(width, 10, false)
  }

  function PrecisionChars(precision: int): string
    requires precision >= -1
  {
    if precision == -1 then "" else "." + Numeral(precision, 10, false)
  }

  lemma WidthSpelled(width: int, t: string)
    requires (width == -1 || width > 0) && CString(t) && !IsDigit(At(t, 0)) && !Flag(At(t, 0))
    ensures var u := WidthChars(width) + t;
      CString(u) && ParseWidth(u, 0) == (width, |WidthChars(width)|) && !Flag(At(u, 0)) && (At(u, 0) == '*' ==> At(t, 0) == '*')
  {
    if width == -1 { assert "" + t == t; } else { DecimalSpelled(width, t); }
  }

  lemma PrecisionSpelled(precision: int, t: string)
    requires precision >= -1 && CString(t) && !IsDigit(At(t, 0)) && !Flag(At(t, 0)) && At(t, 0) != '.'
    ensures var u := PrecisionChars(precision) + t;
      CString(u) && ParsePrecision(u, 0) == (precision, |PrecisionChars(precision)|)
      && !Flag(At(u, 0)) && !IsDigit(At(u, 0)) && (At(u, 0) == '*' ==> At(t, 0) == '*')
  {
    if precision == -1 {
      assert "" + t == t;
    } else {
      DecimalSpelled(precision, t);
      var ds := Numeral(precision, 10, false);
      assert "." + ds + t == "." + (ds + t);
      NumberShift(".", ds + t, 0, 0);
    }
  }

  /** A spelled directive is read back as it was, and reading stops right behind it. */
  lemma DirectiveSpelled(d: Piece, rest: string)
    requires d.Directive? && Spellable(d) && CString(rest)
    ensures CString(Spell(d) + rest) && ParseDirective(Spell(d) + rest, 1) == (d, |Spell(d)|)
  {
    hide ParseFlags, ParseWidth, ParsePrecision, FlagChars, WidthChars, PrecisionChars, Spell;
    var flags, width, precision := FlagChars(d.f), WidthChars(d.width), PrecisionChars(d.precision);
    var t0 := [d.conversion] + rest;
    var t1 := precision + t0;
    var t2 := width + t1;
    PrecisionSpelled(d.precision, t0);
    WidthSpelled(d.width, t1);
    FlagsSpelled(d.f, t2);
    WidthShift(flags, t2, 0);
    PrecisionShift(flags + width, t1, 0);
    JoinParts(flags, width, precision, t0);
    assert At(flags + t2, |flags|) == At(t2, 0);
    DirectiveParts(flags + t2, d, |flags|, |flags + width|, |flags + width + precision|);
    SpellParts(d);
    assert Spell(d) + rest == "%" + (flags + t2);
    DirectiveShift("%", flags + t2, 0);
  }

  lemma JoinParts(a: string, b: string, c: string, t: string)
    ensures (a + b) + (c + t) == a + (b + (c + t))
    ensures t != "" ==> At(a + (b + (c + t)), |a + b + c|) == t[0] && |a + b + c| < |a + (b + (c + t))|
  {}

  /** A directive is read part by part. */
  lemma DirectiveParts(t: string, d: Piece, i1: nat, i2: nat, i3: nat)
    requires d.Directive? && Spellable(d) && CString(t) && i1 <= i2 <= i3 < |t| && t[i3] == d.conversion
    requires ParseFlags(t, 0, NO_FLAGS) == (d.f, i1) && ParseWidth(t, i1) == (d.width, i2) && ParsePrecision(t, i2) == (d.precision, i3)
    requires At(t, i1) != '*'
    ensures ParseDirective(t, 0) == (d, i3 + 1)
  {
    hide ParseFlags, ParseWidth, ParsePrecision;
  }

  lemma SpellParts(d: Piece)
    requires d.Directive? && Spellable(d)
    ensures Spell(d) == "%" + FlagChars(d.f) + WidthChars(d.width) + PrecisionChars(d.precision) + [d.conversion]
  {}

  lemma FirstSpelled(d: Piece, rest: string)
    requires Spellable(d) && CString(rest)
    ensures CString(Spell(d) + rest) && Parse(Spell(d) + rest) == [d] + Parse(rest)
  {
    hide ParseDirective, Spell;
    if d.Directive? {
      DirectiveSpelled(d, rest);
    }
    SpellStarts(d);
    ParseShift(Spell(d), rest, 0);
    assert (Spell(d) + rest)[0] == Spell(d)[0];
  }

  lemma SpellStarts(d: Piece)
    requires Spellable(d)
    ensures d.Literal? ==> Spell(d) == [d.c] && d.c != '%' && d.c != NUL
    ensures d.Directive? ==> Spell(d) != "" && Spell(d)[0] == '%'
  {}

  lemma ParseNothing()
    ensures Parse("") == []
  {}

  function SpellAll(ds: seq<Piece>): string
    requires forall d :: d in ds ==> Spellable(d)
  {
    if ds == [] then "" else Spell(ds[0]) + SpellAll(ds[1..])
  }

  /** Every list of spellable pieces is the parse of the format that spells it. */
  lemma {:induction false} ParseSpelled(ds: seq<Piece>)
    requires forall d :: d in ds ==> Spellable(d)
    ensures CString(SpellAll(ds)) && Parse(SpellAll(ds)) == ds
    decreases |ds|
  {
    hide Parse, Spell;
    if ds == [] {
      ParseNothing();
    } else {
      var d, rest := ds[0], SpellAll(ds[1..]);
      ParseSpelled(ds[1..]);
      FirstSpelled(d, rest);
    }
  }
}
