/** What formatted output means: digits of a number, padding, and conversion by conversion the text
    of a format string. */
module PrintkSpec {
  import opened Common


  const WORD: nat := 4294967296

  // ---- digits

  function Digit(d: nat): (c: char)
    requires d < 16
  {
    if d < 10 then '0' + d as char else 'a' + (d - 10) as char
  }

  /** The digits of `n` in base `b`, without leading zeros. */
  function Digits(n: nat, b: nat): (s: string)
    requires 2 <= b <= 16
    ensures |s| > 0
  {
    if n < b then [Digit(n)] else Digits(n / b, b) + [Digit(n % b)]
  }

  function DigitValue(c: char): (d: nat) {
    if '0' <= c <= '9' then (c - '0') as nat else if 'a' <= c <= 'f' then (c - 'a') as nat + 10 else 0
  }

  /** Reading digits back. */
  function Value(s: string, b: nat): (n: nat) {
    if s == [] then 0 else Value(s[..|s| - 1], b) * b + DigitValue(s[|s| - 1])
  }

  lemma DigitReadsBack(d: nat)
    requires d < 16
    ensures DigitValue(Digit(d)) == d
  {
  }

  lemma DivMod(n: nat, b: nat)
    requires b > 0
    ensures n / b * b + n % b == n
  {
  }

  lemma {:induction false} ValueSnoc(s: string, c: char, b: nat)
    ensures Value(s + [c], b) == Value(s, b) * b + DigitValue(c)
  {
    assert (s + [c])[..|s|] == s;
  }

  lemma {:induction false} OneMoreDigit(s: string, n: nat, b: nat)
    requires 2 <= b <= 16 && Value(s, b) == n / b
    ensures Value(s + [Digit(n % b)], b) == n
  {
    DigitReadsBack(n % b);
    ValueSnoc(s, Digit(n % b), b);
    DivMod(n, b);
  }

  /** Digits read back to the number they were made from. */
  lemma {:induction false} DigitsReadBack(n: nat, b: nat)
    requires 2 <= b <= 16
    ensures Value(Digits(n, b), b) == n
  {
    if n < b {
      DigitReadsBack(n);
      assert Value([], b) == 0 && [] + [Digit(n)] == [Digit(n)];
      ValueSnoc([], Digit(n), b);
    } else {
      Quotient(n, b);
      DigitsReadBack(n / b, b);
      OneMoreDigit(Digits(n / b, b), n, b);
    }
  }

  /** Only zero starts with a zero. */
  lemma {:induction false} NoLeadingZero(n: nat, b: nat)
    requires 2 <= b <= 16 && n > 0
    ensures Digits(n, b)[0] != '0'
  {
    if n >= b {
      Quotient(n, b);
      var q := n / b;
      NoLeadingZero(q, b);
      assert Digits(n, b) == Digits(q, b) + [Digit(n % b)];
    }
  }

  lemma Quotient(n: nat, b: nat)
    requires 2 <= b <= n
    ensures 0 < n / b < n
  {
  }

  function Repeat(c: char, n: int): (s: string)
    ensures |s| == (if n > 0 then n else 0) && forall i | 0 <= i < |s| :: s[i] == c
  {
    seq(if n > 0 then n else 0, _ => c)
  }


  function Max(a: int, b: int): (r: int) { if a > b then a else b }

  // ---- numbers with padding

  datatype Pad = NoPad | ZeroBefore | SpaceBefore | SpaceAfter

  /** A decimal number: at most ten places are padded in front, any number behind. */
  function Decimal(n: nat, pad: Pad, width: int): (s: string) {
    var digits, w := Digits(n, 10), Max(width, 1);
    if pad == SpaceAfter then digits + Repeat(' ', w - |digits|)
    else Repeat(if pad == ZeroBefore then '0' else ' ', Min(w, 10) - |digits|) + digits
  }

  /** A hexadecimal number: at most eight places are padded in front; behind, the width counts double. */
  function Hex(n: nat, pad: Pad, width: int): (s: string) {
    var digits := Digits(n, 16);
    if pad == SpaceAfter then digits + Repeat(' ', 2 * width - |digits|)
    else if pad == NoPad then digits
    else Repeat(if pad == ZeroBefore then '0' else ' ', Min(width, 8) - |digits|) + digits
  }

  /** Padding in front makes the width the greater of the digits and the width asked for, up to ten. */
  lemma DecimalWidth(n: nat, pad: Pad, width: int)
    requires pad != SpaceAfter
    ensures |Decimal(n, pad, width)| == Max(|Digits(n, 10)|, Min(width, 10))
  {
  }

  lemma {:induction false} LeadingZeros(z: string, s: string, b: nat)
    requires s != [] && forall i | 0 <= i < |z| :: z[i] == '0'
    ensures Value(z + s, b) == Value(s, b)
    decreases |z| + |s|
  {
    var t := z + s;
    assert t[..|t| - 1] == z + s[..|s| - 1];
    if |s| == 1 {
      assert s[..0] == [] && z + [] == z;
      ZerosAreZero(z, b);
    } else {
      LeadingZeros(z, s[..|s| - 1], b);
    }
  }

  lemma {:induction false} ZerosAreZero(z: string, b: nat)
    requires forall i | 0 <= i < |z| :: z[i] == '0'
    ensures Value(z, b) == 0
  {
    if z != [] { ZerosAreZero(z[..|z| - 1], b); }
  }

  /** Zero-padded numbers read back as they are. */
  lemma DecimalReadsBack(n: nat, width: int)
    ensures Value(Decimal(n, ZeroBefore, width), 10) == n
  {
    DigitsReadBack(n, 10);
    LeadingZeros(Repeat('0', Min(Max(width, 1), 10) - |Digits(n, 10)|), Digits(n, 10), 10);
  }

  // ---- formats

  /** An argument: a word (of any length; the machine's words are 32 bits) or a string. */
  datatype Arg = Num(n: nat) | Text(s: string)

  datatype Mode = Mode(formatting: bool, pad: Pad, width: int, longs: nat)

  const PLAIN := Mode(false, NoPad, -1, 0)

  /** The rest of the text and arguments after a conversion; `Bad` when the argument is not there. */
  datatype Conversion = Bad | Converted(text: string, args: seq<Arg>)

  predicate HasNum(args: seq<Arg>) { args != [] && args[0].Num? }

  /** The magnitude of a signed word. */
  function Magnitude(u: nat): (m: nat)
    requires u < WORD
  {
    if u < WORD / 2 then u else WORD - u
  }

  function Signed(u: nat, pad: Pad, width: int): (s: string)
    requires u < WORD
  {
    if u < WORD / 2 then Decimal(u, pad, width) else "-" + Decimal(Magnitude(u), pad, width - 1)
  }

  /** The characters before the NUL that ends a C string. */
  function CText(s: string): (r: string) {
    if s == "" || s[0] == '\0' then "" else [s[0]] + CText(s[1..])
  }

  function Str(s: string, pad: Pad, width: int): (r: string) {
    s + if pad == SpaceAfter then Repeat(' ', width - |s|) else ""
  }

  /** What the conversion character `c` puts out. */
  function Convert(c: char, m: Mode, args: seq<Arg>): (r: Conversion) {
    if c == 'd' || c == 'i' then
      if HasNum(args) then Converted(Signed(args[0].n % WORD, m.pad, m.width), args[1..]) else Bad
    else if c == 'u' then
      if HasNum(args) then Converted(Decimal(args[0].n % WORD, m.pad, m.width), args[1..]) else Bad
    else if c == 'p' then
      if HasNum(args) then Converted("0x" + Hex(args[0].n % WORD, ZeroBefore, 8), args[1..]) else Bad
    else if c == 'x' || c == 'X' then
      if HasNum(args) then Converted(Hex(args[0].n % WORD, m.pad, m.width), args[1..]) else Bad
    else if c == 's' then
      if args != [] && args[0].Text? then Converted(Str(CText(args[0].s), m.pad, m.width), args[1..]) else Bad
    else if c == 'c' then
      if HasNum(args) then Converted([(args[0].n % 256) as char], args[1..]) else Bad
    else if c == '%' then Converted("%", args)
    else Converted(['%', c], args)
  }

  predicate Modifies(c: char) {
    c == '-' || '0' <= c <= '9' || c == 'l' || c == 'z' || c == 'h'
  }

  /** A flag, width digit or length modifier. */
  function Modified(c: char, m: Mode): (r: Mode)
    requires Modifies(c)
  {
    if c == '-' then m.(pad := SpaceAfter)
    else if c == '0' && m.width < 0 && m.pad == NoPad then m.(pad := ZeroBefore)
    else if '0' <= c <= '9' then
      var d := (c - '0') as int;
      m.(width := if m.width < 0 then d else 10 * m.width + d, pad := if m.pad == NoPad then SpaceBefore else m.pad)
    else if c == 'l' then m.(longs := m.longs + 1)
    else m
  }

  datatype Text = Broken | Whole(text: string)

  /** The text of a format string, which ends at a NUL: plain characters stand for themselves, and each
      directive is its flags and width followed by a conversion. */
  function Format(fmt: string, args: seq<Arg>): (r: Text)
    decreases |fmt|
  {
    if fmt == "" || fmt[0] == '\0' then Whole("")
    else if fmt[0] != '%' then
      match Format(fmt[1..], args)
      case Broken => Broken
      case Whole(t) => Whole([fmt[0]] + t)
    else Directive(fmt[1..], PLAIN.(formatting := true), args)
  }

  function Directive(fmt: string, m: Mode, args: seq<Arg>): (r: Text)
    decreases |fmt|
  {
    if fmt == "" || fmt[0] == '\0' then Whole("")
    else if Modifies(fmt[0]) then Directive(fmt[1..], Modified(fmt[0], m), args)
    else
      match Convert(fmt[0], m, args)
      case Bad => Broken
      case Converted(text, rest) =>
        match Format(fmt[1..], rest)
        case Broken => Broken
        case Whole(t) => Whole(text + t)
  }
}
