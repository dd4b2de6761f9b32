/** Formatted output into a caller's buffer. */
module Printk {
  import opened PrintkSpec
  import opened Common

  function Pow(b: nat, k: nat): (r: nat)
    requires b > 0
    ensures r > 0
  {
    if k == 0 then 1 else b * Pow(b, k - 1)
  }

  // ---- one digit at a time

  lemma {:induction false} MulMono(a: nat, c: nat, p: nat)
    requires a <= c
    ensures a * p <= c * p
  {
    if a < c { MulMono(a, c - 1, p); }
  }

  lemma DivUnique(x: nat, p: nat, a: nat, r: nat)
    requires x == a * p + r && r < p
    ensures x / p == a && x % p == r
  {
    var q := x / p;
    assert x == q * p + x % p;
    if q < a {
      MulMono(q + 1, a, p);
    } else if a < q {
      MulMono(a + 1, q, p);
    }
  }

  function Quotient(x: nat, p: nat): (r: nat)
    requires p > 0
  {
    x / p
  }

  function Remainder(x: nat, p: nat): (r: nat)
    requires p > 0
    ensures r < p
  {
    x % p
  }

  /** The next digit of a number whose leading digits are `q` and whose rest is `rest`. */
  lemma NextDigit(n: nat, b: nat, q: nat, p: nat, rest: nat)
    requires b > 0 && p > 0 && n == q * (b * p) + rest && rest < b * p
    ensures rest / p < b && n == (q * b + rest / p) * p + rest % p
  {
    var d := rest / p;
    assert rest == d * p + rest % p;
    if d >= b { MulMono(b, d, p); }
    assert q * (b * p) == (q * b) * p;
    assert (q * b + d) * p == (q * b) * p + d * p;
  }

  lemma DigitsSnoc(q: nat, b: nat, d: nat)
    requires (b == 10 || b == 16) && d < b
    ensures Digits(q * b + d, b) == if q == 0 then [Digit(d)] else Digits(q, b) + [Digit(d)]
    ensures q * b + d > 0 <==> q > 0 || d > 0
  {
    if b == 10 {
      assert (q * 10 + d) / 10 == q && (q * 10 + d) % 10 == d;
    } else {
      assert (q * 16 + d) / 16 == q && (q * 16 + d) % 16 == d;
    }
  }

  // ---- the sink

  /** `struct str_context`; `emitted` is everything ever put out. */
  class StrContext {
    const str: array?<char>
    const max: nat
    ghost const before: string
    var count: nat
    ghost var emitted: string

    /** What the buffer holds at `i` once `s` was put out: characters up to the last cell, a NUL in it
        if it is reached, and the rest as it was. */
    ghost predicate Stored(s: string)
      reads str
    {
      str != null ==>
        && |before| == str.Length && max <= str.Length
        && forall i | 0 <= i < str.Length ::
             str[i] == if i >= |s| || i >= max then before[i] else if i == max - 1 then '\0' else s[i]
    }

    ghost predicate Valid()
      reads this, str
    {
      count == |emitted| && Stored(emitted)
    }

    constructor (str: array?<char>, max: nat)
      requires str != null ==> max <= str.Length
      ensures Valid() && this.str == str && this.max == max && emitted == "" && (str != null ==> before == str[..])
    {
      this.str, this.max := str, max;
      count, emitted, before := 0, "", if str == null then "" else str[..];
    }

    /** `str_out`. */
    method Out(c: char)
      requires Valid()
      modifies this, str
      ensures Valid() && emitted == old(emitted) + [c]
    {
      emitted := emitted + [c];
      if str == null || count >= max {
        count := count + 1;
        return;
      }
      if count == max - 1 {
        str[count] := '\0';
      } else {
        str[count] := c;
      }
      count := count + 1;
    }

    /** Put out a whole text. */
    method Emit(s: string)
      requires Valid()
      modifies this, str
      ensures Valid() && emitted == old(emitted) + s
    {
      var i := 0;
      while i < |s|
        invariant 0 <= i <= |s| && Valid() && emitted == old(emitted) + s[..i]
      {
        Out(s[i]);
        i := i + 1;
      }
      assert s[..i] == s;
    }
  }

  // ---- numbers

  /** `q` are the leading digits of `num`, and `rest` is what the last `k + 1` places are worth. */
  ghost predicate At(num: nat, b: nat, k: nat, q: nat, rest: nat)
    requires b > 0
  {
    num == q * (b * Pow(b, k)) + rest && rest < b * Pow(b, k)
  }

  /** Split off the digit at place `k`, which is worth `p`. */
  method TakePlace(ghost num: nat, b: nat, ghost k: nat, ghost q: nat, rest: nat, p: nat) returns (d: nat, next: nat)
    requires (b == 10 || b == 16) && k > 0 && p == Pow(b, k) && At(num, b, k, q, rest)
    ensures d < b && At(num, b, k - 1, q * b + d, next)
    ensures (d > 0 <==> rest >= p) && (d == 0 ==> next == rest)
  {
    d := Quotient(rest, p);
    next := Remainder(rest, p);
    PlaceStep(num, b, k, q, rest, d, next);
  }

  /** Where the decimal loop is: `k + 1` places to go. */
  ghost predicate Midway(num: nat, pad: Pad, w: int, c: char, k: nat, q: nat, rest: nat, found: bool, s: string, digits: nat) {
    && At(num, 10, k, q, rest) && (found <==> q > 0)
    && s == Partly(c, pad != SpaceAfter, w, 10, q, 10, k + 1)
    && (pad == SpaceAfter ==> digits == 1 + |Prefix(q, 10)|)
  }

  /** One round of the decimal loop, at the place worth `p`. */
  method DecPlace(ghost num: nat, pad: Pad, w: int, c: char, ghost k: nat, ghost q: nat,
                  rest: nat, found0: bool, s0: string, digits0: nat, p: nat, remaining: nat)
    returns (next: nat, found: bool, s: string, digits: nat, ghost q': nat)
    requires 0 < k <= 9 && p == Pow(10, k) && remaining == k + 1 && Midway(num, pad, w, c, k, q, rest, found0, s0, digits0)
    ensures Midway(num, pad, w, c, k - 1, q', next, found, s, digits)
  {
    var d;
    found, s, digits := found0, s0, digits0;
    d, next := TakePlace(num, 10, k, q, rest, p);
    q' := q * 10 + d;
    if found || rest >= p {
      found := true;
      s := PutDigit(s, d, c, pad != SpaceAfter, w, 10, q, 10, k + 1);
      digits := digits + 1;
    } else {
      Skipped(c, pad != SpaceAfter, w, 10, 10, k + 1);
      if remaining <= w && pad != SpaceAfter {
        s := s + [c];
        digits := digits + 1;
      }
    }
  }

  /** The loop of `_printk_dec_ulong`: all places but the last. */
  method DecPlaces(num: nat, pad: Pad, w: int, c: char) returns (s: string, remainder: nat, digits: nat, ghost q: nat)
    requires num < Pow(10, 10)
    ensures At(num, 10, 0, q, remainder) && s == Partly(c, pad != SpaceAfter, w, 10, q, 10, 1)
    ensures pad == SpaceAfter ==> digits == 1 + |Prefix(q, 10)|
  {
    var pos, found, remaining := 999999999, false, 10;
    s, remainder, digits, q := "", num, 1, 0;
    ghost var k := 9;
    TenPowers();
    while pos >= 9
      invariant 0 <= k <= 9 && pos + 1 == Pow(10, k) && remaining == k + 1 && (k > 0 <==> pos >= 9)
      invariant Midway(num, pad, w, c, k, q, remainder, found, s, digits)
      decreases k
    {
      remainder, found, s, digits, q := DecPlace(num, pad, w, c, k, q, remainder, found, s, digits, pos + 1, remaining);
      remaining := remaining - 1;
      Rounded(Pow(10, k - 1), 10);
      pos := pos / 10;
      k := k - 1;
      PowAtLeast(k);
    }
  }

  /** `_printk_dec_ulong`: the text it puts out, for numbers of at most ten digits. */
  method DecUlong(num: nat, pad: Pad, width: int) returns (s: string)
    requires num < Pow(10, 10)
    ensures s == Decimal(num, pad, width)
  {
    var w := if width <= 0 then 1 else width;
    var c := if pad == ZeroBefore then '0' else ' ';
    var remainder, digits;
    ghost var q;
    s, remainder, digits, q := DecPlaces(num, pad, w, c);
    LastPlace(num, 10, q, remainder);
    s := s + [Digit(remainder)];
    Finish(c, pad != SpaceAfter, w, 10, q, 10, remainder);
    if pad == SpaceAfter {
      s := s + Repeat(' ', w - digits);
    }
  }

  /** The loop of `_printk_hex_ulong`: all places but the last. */
  method HexPlaces(num: nat, pad: Pad, width: int, c: char) returns (s: string, digits: nat, ghost q: nat, ghost rest: nat)
    requires num < Pow(16, 8) && c == if pad == ZeroBefore then '0' else ' '
    ensures At(num, 16, 0, q, rest)
    ensures s == Partly(c, pad == ZeroBefore || pad == SpaceBefore, width, 8, q, 16, 1) && digits == |Prefix(q, 16)|
  {
    var size, found, remaining := 8, false, 8;
    ghost var front := pad == ZeroBefore || pad == SpaceBefore;
    s, digits, q, rest := "", 0, 0, num;
    while size > 1
      invariant 1 <= size <= 8 && (!found ==> remaining == size)
      invariant At(num, 16, size - 1, q, rest) && (found <==> q > 0)
      invariant s == Partly(c, front, width, 8, q, 16, size)
      invariant digits == |Prefix(q, 16)|
    {
      var nibble;
      ghost var next;
      nibble, next := TakeNibble(num, size, q, rest);
      if nibble != 0 || found {
        found := true;
        s := PutDigit(s, nibble, c, front, width, 8, q, 16, size);
        digits := digits + 1;
      } else {
        Skipped(c, front, width, 8, 16, size);
        if remaining <= width {
          if pad == ZeroBefore {
            s := s + ['0'];
          } else if pad == SpaceBefore {
            s := s + [' '];
          }
        }
        remaining := remaining - 1;
      }
      rest, q, size := next, q * 16 + nibble, size - 1;
    }
  }

  /** `_printk_hex_ulong`: the text it puts out, for 32-bit numbers. */
  method HexUlong(num: nat, pad: Pad, width: int) returns (s: string)
    requires num < Pow(16, 8)
    ensures s == Hex(num, pad, width)
  {
    var c := if pad == ZeroBefore then '0' else ' ';
    var digits;
    ghost var q, rest;
    s, digits, q, rest := HexPlaces(num, pad, width, c);
    LastPlace(num, 16, q, rest);
    s := s + [Digit(num % 16)];
    digits := digits + 1;
    Finish(c, pad == ZeroBefore || pad == SpaceBefore, width, 8, q, 16, rest);
    ghost var all := Digits(num, 16);
    assert digits == |all|;
    if pad == SpaceAfter {
      assert s == all;
      s := s + Repeat(' ', width * 2 - digits);
    } else if pad == NoPad {
      assert s == all;
    }
  }

  /** The nibble `(num >> ((size - 1) << 2)) & 0xf`. */
  method TakeNibble(num: nat, size: nat, ghost q: nat, ghost rest: nat) returns (nibble: nat, ghost next: nat)
    requires size > 1 && At(num, 16, size - 1, q, rest)
    ensures nibble < 16 && At(num, 16, size - 2, q * 16 + nibble, next)
  {
    ghost var p := Pow(16, size - 1);
    ghost var d := Quotient(rest, p);
    next := Remainder(rest, p);
    PlaceStep(num, 16, size - 1, q, rest, d, next);
    NextDigit(num, 16, q, p, rest);
    DivUnique(num, p, q * 16 + d, next);
    nibble := num / Pow(16, size - 1) % 16;
  }

  lemma LastPlace(num: nat, b: nat, q: nat, rest: nat)
    requires (b == 10 || b == 16) && At(num, b, 0, q, rest)
    ensures num == q * b + rest && rest < b && num % b == rest
  {
    assert Pow(b, 0) == 1;
    DivUnique(num, b, q, rest);
  }

  lemma PowAtLeast(k: nat)
    ensures k > 0 <==> Pow(10, k) >= 10
  {
  }

  /** The digits of leading part `q`, nothing for zero. */
  function Prefix(q: nat, b: nat): (s: string)
    requires 2 <= b <= 16
  {
    if q == 0 then "" else Digits(q, b)
  }

  /** What is out when the leading digits are `q` and `left` places are still to come. */
  function Partly(c: char, front: bool, w: int, most: nat, q: nat, b: nat, left: nat): (s: string)
    requires 2 <= b <= 16
  {
    Repeat(c, if front then Min(w, most) - (|Prefix(q, b)| + left) else 0) + Prefix(q, b)
  }

  lemma TenPowers()
    ensures Pow(10, 9) == 1000000000 && Pow(10, 10) == 10000000000
  {
    assert Pow(10, 3) == 1000;
    assert Pow(10, 6) == 1000000;
  }

  lemma {:induction false} PlaceStep(num: nat, b: nat, k: nat, q: nat, rest: nat, d: nat, next: nat)
    requires (b == 10 || b == 16) && k > 0 && At(num, b, k, q, rest)
    requires d == Quotient(rest, Pow(b, k)) && next == Remainder(rest, Pow(b, k))
    ensures d < b && At(num, b, k - 1, q * b + d, next)
    ensures (rest >= Pow(b, k) <==> d > 0) && (d == 0 ==> next == rest)
  {
    var p := Pow(b, k);
    NextDigit(num, b, q, p, rest);
    if rest < p { DivUnique(rest, p, 0, rest); } else { Quotients(rest, p); }
  }

  lemma Quotients(x: nat, p: nat)
    requires 0 < p <= x
    ensures x / p > 0
  {
  }

  lemma Rounded(p: nat, b: nat)
    requires p > 0 && (b == 10 || b == 16)
    ensures (b * p - 1) / b == p - 1
  {
  }

  /** One more digit. */
  method PutDigit(s: string, d: nat, ghost c: char, ghost front: bool, ghost w: int, ghost most: nat,
                  ghost q: nat, b: nat, ghost left: nat) returns (r: string)
    requires (b == 10 || b == 16) && left > 1 && d < b && (q > 0 || d > 0)
    requires s == Partly(c, front, w, most, q, b, left)
    ensures r == Partly(c, front, w, most, q * b + d, b, left - 1)
    ensures |Prefix(q * b + d, b)| == |Prefix(q, b)| + 1 && q * b + d > 0
  {
    PartlyNext(d, c, front, w, most, q, b, left);
    r := s + [Digit(d)];
  }

  lemma PartlyNext(d: nat, c: char, front: bool, w: int, most: nat, q: nat, b: nat, left: nat)
    requires (b == 10 || b == 16) && left > 1 && d < b && (q > 0 || d > 0)
    ensures Partly(c, front, w, most, q, b, left) + [Digit(d)] == Partly(c, front, w, most, q * b + d, b, left - 1)
    ensures |Prefix(q * b + d, b)| == |Prefix(q, b)| + 1 && q * b + d > 0
  {
    DigitsSnoc(q, b, d);
    assert Prefix(q * b + d, b) == Prefix(q, b) + [Digit(d)];
    Reassociate(Repeat(c, if front then Min(w, most) - (|Prefix(q, b)| + left) else 0), Prefix(q, b), [Digit(d)]);
  }

  /** A place before the first digit: a pad character, or nothing. */
  lemma Skipped(c: char, front: bool, w: int, most: nat, b: nat, left: nat)
    requires 2 <= b <= 16 && 1 < left <= most
    ensures Partly(c, front, w, most, 0, b, left - 1)
         == Partly(c, front, w, most, 0, b, left) + if left <= w && front then [c] else []
  {
    var n := Min(w, most) - left;
    if left <= w && front {
      assert Repeat(c, n + 1) == Repeat(c, n) + [c];
    }
  }

  /** The last digit. */
  lemma {:induction false} Finish(c: char, front: bool, w: int, most: nat, q: nat, b: nat, d: nat)
    requires (b == 10 || b == 16) && d < b
    ensures var all := Digits(q * b + d, b);
      && |all| == |Prefix(q, b)| + 1
      && Partly(c, front, w, most, q, b, 1) + [Digit(d)] == Repeat(c, if front then Min(w, most) - |all| else 0) + all
  {
    DigitsSnoc(q, b, d);
    assert Prefix(q, b) + [Digit(d)] == Digits(q * b + d, b);
    Reassociate(Repeat(c, if front then Min(w, most) - (|Prefix(q, b)| + 1) else 0), Prefix(q, b), [Digit(d)]);
  }

  // ---- formats

  lemma WordFits(n: nat)
    ensures n % WORD < Pow(16, 8) && n % WORD < Pow(10, 10)
  {
    TenPowers();
    assert Pow(16, 4) == 65536;
    assert Pow(16, 8) == WORD;
  }

  /** One conversion of `_vprintk`: the text it puts out and the arguments it leaves. */
  method ConvertArg(c: char, m: Mode, args: seq<Arg>) returns (text: string, rest: seq<Arg>)
    requires Convert(c, m, args).Converted?
    ensures Convert(c, m, args) == Converted(text, rest)
  {
    text, rest := "", args;
    match c {
      case 'd' => text, rest := SignedArg(m, args);
      case 'i' => text, rest := SignedArg(m, args);
      case 'u' =>
        WordFits(args[0].n);
        text := DecUlong(args[0].n % WORD, m.pad, m.width);
        rest := args[1..];
      case 'p' =>
        WordFits(args[0].n);
        var hex := HexUlong(args[0].n % WORD, ZeroBefore, 8);
        text, rest := "0x" + hex, args[1..];
      case 'x' => text, rest := HexArg(m, args);
      case 'X' => text, rest := HexArg(m, args);
      case 's' =>
        text := CopyText(args[0].s);
        rest := args[1..];
        if m.pad == SpaceAfter {
          text := text + Repeat(' ', m.width - |text|);
        }
      case 'c' => text, rest := [(args[0].n % 256) as char], args[1..];
      case '%' => text := "%";
      case _ => text := ['%', c];
    }
  }

  /** The loop of `%s`: characters up to the NUL. */
  method CopyText(s: string) returns (text: string)
    ensures text == CText(s)
  {
    text := "";
    var i := 0;
    assert s[0..] == s;
    while i < |s| && s[i] != '\0'
      invariant 0 <= i <= |s| && text + CText(s[i..]) == CText(s)
    {
      CTextNext(s, i);
      Reassociate(text, [s[i]], CText(s[i + 1..]));
      text := text + [s[i]];
      i := i + 1;
    }
    assert CText(s[i..]) == "" && text + "" == text;
  }

  lemma {:induction false} CTextNext(s: string, i: nat)
    requires i < |s| && s[i] != '\0'
    ensures CText(s[i..]) == [s[i]] + CText(s[i + 1..])
  {
    assert s[i..][1..] == s[i + 1..];
  }

  method SignedArg(m: Mode, args: seq<Arg>) returns (text: string, rest: seq<Arg>)
    requires HasNum(args)
    ensures text == Signed(args[0].n % WORD, m.pad, m.width) && rest == args[1..]
  {
    var u := args[0].n % WORD;
    WordFits(args[0].n);
    rest := args[1..];
    if u >= WORD / 2 {
      var digits := DecUlong(WORD - u, m.pad, m.width - 1);
      text := "-" + digits;
    } else {
      text := DecUlong(u, m.pad, m.width);
    }
  }

  method HexArg(m: Mode, args: seq<Arg>) returns (text: string, rest: seq<Arg>)
    requires HasNum(args)
    ensures text == Hex(args[0].n % WORD, m.pad, m.width) && rest == args[1..]
  {
    WordFits(args[0].n);
    text := HexUlong(args[0].n % WORD, m.pad, m.width);
    rest := args[1..];
  }

  /** The text still to come, in a directive or outside. */
  function Remaining(fmt: string, m: Mode, args: seq<Arg>): (r: PrintkSpec.Text) {
    if m.formatting then Directive(fmt, m, args) else Format(fmt, args)
  }

  /** One character of the format. */
  method Consume(ctx: StrContext, c: char, m: Mode, args: seq<Arg>, ghost tail: string) returns (m': Mode, args': seq<Arg>)
    requires ctx.Valid() && c != '\0' && Remaining([c] + tail, m, args).Whole?
    modifies ctx, ctx.str
    ensures ctx.Valid() && Remaining(tail, m', args').Whole?
    ensures ctx.emitted + Remaining(tail, m', args').text == old(ctx.emitted) + Remaining([c] + tail, m, args).text
  {
    assert ([c] + tail)[1..] == tail;
    m', args' := m, args;
    if !m.formatting {
      if c != '%' {
        ctx.Out(c);
        Reassociate(old(ctx.emitted), [c], Format(tail, args).text);
      } else {
        m' := Mode(true, NoPad, -1, 0);
      }
    } else if Modifies(c) {
      m' := Modified(c, m);
    } else {
      var text;
      text, args' := ConvertArg(c, m, args);
      ctx.Emit(text);
      m' := m.(formatting := false);
      Reassociate(old(ctx.emitted), text, Format(tail, args').text);
    }
  }

  /** `_vprintk`. */
  method VPrintk(ctx: StrContext, fmt: string, args: seq<Arg>)
    requires ctx.Valid() && Format(fmt, args).Whole?
    modifies ctx, ctx.str
    ensures ctx.Valid() && ctx.emitted == old(ctx.emitted) + Format(fmt, args).text
  {
    var i, m, rest := 0, PLAIN, args;
    assert fmt[0..] == fmt;
    while i < |fmt| && fmt[i] != '\0'
      invariant 0 <= i <= |fmt| && ctx.Valid() && Remaining(fmt[i..], m, rest).Whole?
      invariant ctx.emitted + Remaining(fmt[i..], m, rest).text == old(ctx.emitted) + Format(fmt, args).text
    {
      assert fmt[i..] == [fmt[i]] + fmt[i + 1..];
      m, rest := Consume(ctx, fmt[i], m, rest, fmt[i + 1..]);
      i := i + 1;
    }
    assert Remaining(fmt[i..], m, rest).text == "" && ctx.emitted + "" == ctx.emitted;
  }

  /** `snprintk`: the text cut to `size - 1` characters and a NUL, and the length it would have had;
      nothing at all is stored when `size` is 0. The length can also be had without a buffer, unless the
      text is shorter than `size`: then the NUL would go through the null pointer. */
  method Snprintk(str: array?<char>, size: nat, fmt: string, args: seq<Arg>) returns (count: nat)
    requires (str != null ==> size <= str.Length) && Format(fmt, args).Whole?
    requires str == null ==> size <= |Format(fmt, args).text|
    modifies str
    ensures count == |Format(fmt, args).text|
    ensures str != null && size == 0 ==> str[..] == old(str[..])
    ensures str != null && size > 0 ==>
      var n := Min(count, size - 1);
      && str[..n] == Format(fmt, args).text[..n] && str[n] == '\0'
      && forall i | n < i < str.Length :: str[i] == old(str[i])
  {
    var ctx := new StrContext(str, size);
    VPrintk(ctx, fmt, args);
    assert ctx.emitted == Format(fmt, args).text;
    if ctx.count < ctx.max {
      str[ctx.count] := '\0';
    }
    count := ctx.count;
  }
}
