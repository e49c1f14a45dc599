/** The number printer behind the kernel's formatted output. */
module NumberPrinter {
  import opened Words

  /** The format flags of one conversion. */
  datatype Flags = Flags(left: bool, space: bool, zero: bool, sign: bool, plus: bool, special: bool, small: bool)

  /** The size of the digit buffer. */
  const TMP: nat := 50

  /** `digits[v]`. */
  function Digit(v: nat, small: bool): (c: char)
    requires v < 36
    ensures c != ' ' && c != '-' && c != '+'
  {
    if v < 10 then '0' + v as char else if small then 'a' + (v - 10) as char else 'A' + (v - 10) as char
  }

  /** The value of a digit in either case, or 36. */
  function ValueOfDigit(c: char): (v: nat)
    ensures v <= 36
  {
    if '0' <= c <= '9' then (c - '0') as nat
    else if 'a' <= c <= 'z' then (c - 'a') as nat + 10
    else if 'A' <= c <= 'Z' then (c - 'A') as nat + 10
    else 36
  }

  lemma DigitRoundTrip(v: nat, small: bool)
    requires v < 36
    ensures ValueOfDigit(Digit(v, small)) == v
  {
  }

  function Quot(num: nat, base: nat): (q: nat)
    requires base >= 2
    ensures num > 0 ==> q < num
  {
    Halves(num / base, base, num % base);
    num / base
  }

  lemma Halves(q: nat, base: nat, r: nat)
    requires base >= 2
    ensures q * base + r >= 2 * q + r
  {
    assert q * base - 2 * q == q * (base - 2);
  }

  function Rem(num: nat, base: nat): (r: nat)
    requires base >= 2
    ensures r < base
  {
    num % base
  }

  lemma QuotRem(num: nat, base: nat)
    requires base >= 2
    ensures num == Quot(num, base) * base + Rem(num, base)
  {
  }

  /** The digits of a number from the last to the first; none for zero. */
  function Backwards(num: nat, base: nat, small: bool): (r: string)
    requires 2 <= base <= 36
  {
    if num == 0 then [] else [Digit(Rem(num, base), small)] + Backwards(Quot(num, base), base, small)
  }

  function Reversed(s: string): (r: string)
    ensures |r| == |s|
  {
    if s == [] then [] else Reversed(s[1..]) + [s[0]]
  }

  /** The digits as printed. */
  function DigitsOf(num: nat, base: nat, small: bool): (r: string)
    requires 2 <= base <= 36
  {
    if num == 0 then "0" else Reversed(Backwards(num, base, small))
  }

  function Repeat(c: char, n: int): (r: string)
    ensures |r| == if n > 0 then n else 0
    ensures forall k :: 0 <= k < |r| ==> r[k] == c
  {
    if n <= 0 then [] else [c] + Repeat(c, n - 1)
  }

  /** `num = -num` under the sign flag. */
  function Negative(num: Word, f: Flags): bool {
    f.sign && Signed(num) < 0
  }

  function Magnitude(num: Word, f: Flags): Word {
    var n: int := num;
    if Negative(num, f) then Wrap(-n) else num
  }

  function SignOf(num: Word, f: Flags): (s: string)
    ensures |s| <= 1
  {
    if Negative(num, f) then "-" else if f.plus then "+" else if f.space then " " else ""
  }

  function PrefixOf(base: nat, f: Flags): (s: string)
    ensures |s| <= 2
  {
    if f.special && base == 8 then "0" else if f.special && base == 16 then (if f.small then "0x" else "0X") else ""
  }

  /** The digits with zeros in front up to the precision. */
  function Padded(num: Word, base: nat, precision: int, f: Flags): string
    requires 2 <= base <= 36
  {
    var d := DigitsOf(Magnitude(num, f), base, f.small);
    Repeat('0', precision - |d|) + d
  }

  /** What is missing to the width. */
  function Missing(num: Word, base: nat, width: int, precision: int, f: Flags): int
    requires 2 <= base <= 36
  {
    width - |SignOf(num, f)| - |PrefixOf(base, f)| - |Padded(num, base, precision, f)|
  }

  /** The output. */
  function Text(num: Word, base: nat, width: int, precision: int, f: Flags): string
    requires 2 <= base <= 36
  {
    var (s, p, d, n) := (SignOf(num, f), PrefixOf(base, f), Padded(num, base, precision, f),
        Missing(num, base, width, precision, f));
    if f.left then s + p + d + Repeat(' ', n)
    else if f.zero then s + p + Repeat('0', n) + d
    else Repeat(' ', n) + s + p + d
  }

  // ---------------------------------------------------------------- the code

  lemma {:induction false} RepeatMore(c: char, n: nat)
    ensures Repeat(c, n + 1) == Repeat(c, n) + [c]
  {
    if n > 0 {
      RepeatMore(c, n - 1);
    }
  }

  /** `while (n-- > 0) *str++ = c;` */
  method Fill(str: string, c: char, n: int) returns (out: string, rest: int)
    ensures out == str + Repeat(c, n) && rest == (if n > 0 then -1 else n - 1)
  {
    out, rest := str, n;
    ghost var k := 0;
    while rest > 0
      invariant k >= 0 && rest == n - k && (k > 0 ==> k <= n) && out == str + Repeat(c, k)
    {
      RepeatMore(c, k);
      out := out + [c];
      rest := rest - 1;
      k := k + 1;
    }
    if n > 0 {
      assert k == n;
    }
    rest := rest - 1;
  }

  function Power(b: nat, k: nat): nat {
    if k == 0 then 1 else b * Power(b, k - 1)
  }

  lemma Shrinks(num: nat, base: nat, b: nat, p: nat)
    requires 2 <= b <= base && num < b * p
    ensures Quot(num, base) < p
  {
    var q := Quot(num, base);
    QuotRem(num, base);
    if q >= p {
      Products(p, q, b, base);
    }
  }

  lemma Products(p: nat, q: nat, b: nat, c: nat)
    requires p <= q && b <= c
    ensures b * p <= q * c
  {
    assert q * c - b * p == q * (c - b) + b * (q - p);
  }

  /** A number below the k-th power of some smaller base has at most k digits. */
  lemma {:induction false} FewDigits(num: nat, base: nat, small: bool, b: nat, k: nat)
    requires 2 <= b <= base <= 36 && num < Power(b, k)
    ensures |Backwards(num, base, small)| <= k
  {
    if num != 0 {
      Shrinks(num, base, b, Power(b, k - 1));
      hide Quot, Rem, Digit;
      FewDigits(Quot(num, base), base, small, b, k - 1);
    }
  }

  lemma PowersOfThree()
    ensures Power(3, 41) >= TWO_64
  {
    assert Power(3, 5) == 243;
    assert Power(3, 10) == 243 * Power(3, 5);
    assert Power(3, 15) == 243 * Power(3, 10);
    assert Power(3, 20) == 243 * Power(3, 15);
    assert Power(3, 25) == 243 * Power(3, 20);
    assert Power(3, 30) == 243 * Power(3, 25);
    assert Power(3, 35) == 243 * Power(3, 30);
    assert Power(3, 40) == 243 * Power(3, 35);
  }

  /** The digits that the buffer has to hold. */
  predicate Fits(num: Word, base: nat) {
    base == 2 ==> num < 0x4_0000_0000_0000
  }

  lemma PowersOfTwo()
    ensures Power(2, 50) == 0x4_0000_0000_0000
  {
    assert Power(2, 10) == 1024;
    assert Power(2, 20) == 1024 * Power(2, 10);
    assert Power(2, 30) == 1024 * Power(2, 20);
    assert Power(2, 40) == 1024 * Power(2, 30);
  }

  lemma QuotAtLeast(num: nat, base: nat, p: nat)
    requires base >= 2 && num >= base * p
    ensures Quot(num, base) >= p
  {
    QuotRem(num, base);
    var d := p - Quot(num, base);
    hide Quot, Rem;
    assert base * p - Quot(num, base) * base == base * d;
    assert d >= 1 ==> base * d >= base;
  }

  lemma {:induction false} ManyDigits(num: nat, base: nat, small: bool, n: nat)
    requires 2 <= base <= 36 && num >= Power(base, n) && num > 0
    ensures |Backwards(num, base, small)| > n
    decreases n
  {
    hide Quot, Rem, Digit;
    if n > 0 {
      QuotAtLeast(num, base, Power(base, n - 1));
      PowerPositive(base, n - 1);
      ManyDigits(Quot(num, base), base, small, n - 1);
    }
  }

  lemma {:induction false} PowerPositive(base: nat, n: nat)
    requires base >= 2
    ensures Power(base, n) > 0
  {
    if n > 0 {
      PowerPositive(base, n - 1);
    }
  }

  /** The buffer is large enough exactly for every base from 3 on, and for base 2 below 2^50. */
  lemma DigitsFit(num: Word, base: nat, small: bool)
    requires 2 <= base <= 36
    ensures |Backwards(num, base, small)| <= TMP <==> Fits(num, base)
  {
    if !Fits(num, base) {
      PowersOfTwo();
      ManyDigits(num, base, small, 50);
    } else if base == 2 {
      PowersOfTwo();
      FewDigits(num, base, small, 2, 50);
    } else {
      PowersOfThree();
      FewDigits(num, base, small, 3, 41);
    }
  }

  /** The loop that stores the digits, last one first; `inside` tells whether all stores are inside the buffer. */
  method Convert(tmp: array<char>, number: Word, base: nat, small: bool) returns (inside: bool, i: nat)
    requires tmp.Length == TMP && 2 <= base <= 36
    modifies tmp
    ensures inside <==> Fits(number, base)
    ensures inside ==> i <= TMP && Reversed(tmp[..i]) == DigitsOf(number, base, small)
  {
    hide Digit, Quot, Rem, Power, Fits, Backwards;
    DigitsFit(number, base, small);
    if number == 0 {
      tmp[0] := '0';
      inside, i := true, 1;
      ZeroReversed();
      BackwardsNone(base, small);
      assert tmp[..1] == "0";
      return;
    }
    hide Reversed;
    inside, i := StoreDigits(tmp, number, base, small);
    hide DigitsOf;
    DigitsOfIs(number, base, small);
  }

  lemma DigitsOfIs(num: nat, base: nat, small: bool)
    requires 2 <= base <= 36 && num > 0
    ensures DigitsOf(num, base, small) == Reversed(Backwards(num, base, small))
  {
  }

  method StoreDigits(tmp: array<char>, number: nat, base: nat, small: bool) returns (inside: bool, i: nat)
    requires 2 <= base <= 36
    modifies tmp
    ensures inside <==> |Backwards(number, base, small)| <= tmp.Length
    ensures inside ==> i <= tmp.Length && tmp[..i] == Backwards(number, base, small)
  {
    hide Digit, Quot, Rem, Backwards;
    inside, i := true, 0;
    var num := number;
    ghost var done := "";
    while num != 0
      invariant i <= tmp.Length && tmp[..i] == done &&
                done + Backwards(num, base, small) == Backwards(number, base, small)
      decreases num
    {
      BackwardsStep(num, base, small);
      if i == tmp.Length {
        inside := false;
        return;
      }
      var c := Digit(Rem(num, base), small);
      assert done + ([c] + Backwards(Quot(num, base), base, small)) ==
          done + [c] + Backwards(Quot(num, base), base, small);
      tmp[i] := c;
      assert tmp[..i + 1] == tmp[..i] + [c];
      done := done + [c];
      i := i + 1;
      num := Quot(num, base);
    }
    BackwardsNone(base, small);
    assert done + [] == done;
  }

  lemma ZeroReversed()
    ensures Reversed("0") == "0"
  {
    assert "0"[1..] == "";
  }

  lemma BackwardsStep(num: nat, base: nat, small: bool)
    requires 2 <= base <= 36 && num > 0
    ensures Backwards(num, base, small) == [Digit(Rem(num, base), small)] + Backwards(Quot(num, base), base, small)
  {
    hide Quot, Rem, Digit;
  }

  lemma BackwardsNone(base: nat, small: bool)
    requires 2 <= base <= 36
    ensures Backwards(0, base, small) == []
  {
  }

  /** `while (i-- > 0) *str++ = tmp[i];` */
  method Unload(str: string, tmp: array<char>, n: nat) returns (out: string)
    requires n <= tmp.Length
    ensures out == str + Reversed(tmp[..n])
  {
    out := str;
    var i: nat := n;
    while i > 0
      invariant i <= n && out + Reversed(tmp[..i]) == str + Reversed(tmp[..n])
    {
      i := i - 1;
      ReversedLast(tmp[..i], tmp[i]);
      assert tmp[..i + 1] == tmp[..i] + [tmp[i]];
      out := out + [tmp[i]];
    }
    assert out + [] == out;
  }

  lemma {:induction false} ReversedLast(s: string, c: char)
    ensures Reversed(s + [c]) == [c] + Reversed(s)
  {
    if s != [] {
      assert (s + [c])[1..] == s[1..] + [c];
      ReversedLast(s[1..], c);
    }
  }

  /** The text so far, or 0 for a base that is not supported, or a digit stored past the end of the buffer. */
  datatype Output = Printed(text: string) | Unsupported | Overrun

  /** number_to_string, for all arguments. */
  method NumberToString(str: string, number: Word, base: int, width0: int, precision0: int, f: Flags)
    returns (r: Output)
    ensures r == if base < 2 || base > 36 then Unsupported
                 else if Fits(Magnitude(number, f), base) then Printed(str + Text(number, base, width0, precision0, f))
                 else Overrun
  {
    if base < 2 || base > 36 {
      return Unsupported;
    }
    hide Digit, Wrap, Signed, Backwards, Magnitude, DigitsOf, Text;
    var num := Magnitude(number, f);
    var tmp := new char[TMP];
    var inside, i := Convert(tmp, num, base, f.small);
    if !inside {
      return Overrun;
    }
    ghost var d := DigitsOf(num, base, f.small);
    assert |d| == i;
    var width, precision := Widths(number, base, width0, precision0, i, f);
    var out := Emit(str, SignOf(number, f), PrefixOf(base, f), tmp, i, width, precision, f);
    TextInPieces(str, number, base, width0, precision0, f, precision - i, d, out);
    r := Printed(out);
  }

  /** What remains of the width when sign, prefix and digits are taken off. */
  method Widths(number: Word, base: nat, width0: int, precision0: int, i: nat, f: Flags)
          returns (width: int, precision: int)
    requires 2 <= base <= 36 && i == |DigitsOf(Magnitude(number, f), base, f.small)|
    ensures width == Missing(number, base, width0, precision0, f) &&
            precision == if i > precision0 then i else precision0
  {
    hide DigitsOf, Magnitude, Negative;
    width, precision := width0, precision0;
    if SignOf(number, f) != "" {
      width := width - 1;
    }
    if f.special {
      if base == 16 {
        width := width - 2;
      }
      if base == 8 {
        width := width - 1;
      }
    }
    if i > precision {
      precision := i;
    }
    width := width - precision;
  }

  /** The writing loops. */
  method Emit(str: string, sign: string, prefix: string, tmp: array<char>, i: nat, width0: int, precision: int,
          f: Flags)
    returns (out: string)
    requires i <= tmp.Length
    ensures out == str + (if !f.zero && !f.left then Repeat(' ', width0) else "") + sign + prefix
                   + (if !f.left && f.zero then Repeat('0', width0) else "") + Repeat('0', precision - i) +
                       Reversed(tmp[..i])
                   + (if f.left then Repeat(' ', width0) else "")
  {
    hide Repeat;
    var width := width0;
    out := str;
    if !f.zero && !f.left {
      out, width := Fill(out, ' ', width);
    }
    out := out + sign;
    out := out + prefix;
    if !f.left {
      out, width := Fill(out, if f.zero then '0' else ' ', width);
    }
    var zeros;
    out, zeros := Fill(out, '0', precision - i);
    out := Unload(out, tmp, i);
    out, width := Fill(out, ' ', width);
  }

  /** The pieces written one after the other are the text. */
  lemma TextInPieces(str: string, number: Word, base: nat, width: int, precision: int, f: Flags, zeros: int, d: string,
          out: string)
    requires 2 <= base <= 36 && d == DigitsOf(Magnitude(number, f), base, f.small)
    requires zeros == (if |d| > precision then |d| else precision) - |d|
    requires var (s, p, n) := (SignOf(number, f), PrefixOf(base, f), Missing(number, base, width, precision, f));
             out == str + (if !f.zero && !f.left then Repeat(' ', n) else "") + s + p
                    + (if !f.left && f.zero then Repeat('0', n) else "") + Repeat('0', zeros) + d
                    + (if f.left then Repeat(' ', n) else "")
    ensures out == str + Text(number, base, width, precision, f)
  {
    hide DigitsOf, Magnitude, SignOf, PrefixOf, Missing;
    assert Repeat('0', precision - |d|) == Repeat('0', zeros);
    hide Repeat;
    var (s, p, n) := (SignOf(number, f), PrefixOf(base, f), Missing(number, base, width, precision, f));
    Regroup(str, if !f.zero && !f.left then Repeat(' ', n) else "", s, p,
            if !f.left && f.zero then Repeat('0', n) else "", Repeat('0', zeros), d,
            if f.left then Repeat(' ', n) else "");
  }

  lemma Regroup(str: string, before: string, s: string, p: string, fill: string, zeros: string, d: string,
          after: string)
    ensures str + before + s + p + fill + zeros + d + after
         == str + Joined(before, s, p, fill, zeros + d, after)
    ensures before == "" && fill == "" ==> Joined(before, s, p, fill, zeros + d, after) == s + p + (zeros + d) + after
    ensures before == "" && after == "" ==> Joined(before, s, p, fill, zeros + d, after) == s + p + fill + (zeros + d)
    ensures fill == "" && after == "" ==> Joined(before, s, p, fill, zeros + d, after) == before + s + p + (zeros + d)
  {
  }

  function Joined(before: string, s: string, p: string, fill: string, d: string, after: string): string {
    before + s + p + fill + d + after
  }

  // ---------------------------------------------------------------- reading it back

  /** The value of a string of digits. */
  function ValueOf(s: string, base: nat): nat {
    if s == [] then 0 else ValueOf(s[..|s| - 1], base) * base + ValueOfDigit(s[|s| - 1])
  }

  predicate IsDigit(c: char, base: nat) {
    ValueOfDigit(c) < base
  }

  predicate AllDigits(s: string, base: nat) {
    forall k :: 0 <= k < |s| ==> IsDigit(s[k], base)
  }

  function DropSpaces(s: string): string {
    if s != [] && s[0] == ' ' then DropSpaces(s[1..]) else s
  }

  function TakeDigits(s: string, base: nat): string {
    if s != [] && IsDigit(s[0], base) then [s[0]] + TakeDigits(s[1..], base) else []
  }

  function Drop(s: string, n: nat): string {
    if n <= |s| then s[n..] else []
  }

  /** A reader that knows the base and whether a prefix is to be expected. */
  function Parse(s: string, base: nat, f: Flags): int {
    ParseSigned(DropSpaces(s), base, f)
  }

  function ParseSigned(t: string, base: nat, f: Flags): int {
    if t != [] && t[0] == '-' then -(ParseDigits(t[1..], base, f) as int)
    else if t != [] && t[0] == '+' then ParseDigits(t[1..], base, f)
    else ParseDigits(t, base, f)
  }

  function ParseDigits(u: string, base: nat, f: Flags): nat {
    ValueOf(TakeDigits(Drop(u, |PrefixOf(base, f)|), base), base)
  }

  lemma {:induction false} DigitsMean(num: nat, base: nat, small: bool)
    requires 2 <= base <= 36
    ensures var d := Reversed(Backwards(num, base, small)); ValueOf(d, base) == num && AllDigits(d, base)
  {
    hide Quot, Rem, Digit, ValueOfDigit;
    if num > 0 {
      var q, c := Quot(num, base), Digit(Rem(num, base), small);
      DigitsMean(q, base, small);
      QuotRem(num, base);
      DigitRoundTrip(Rem(num, base), small);
      var rest := Reversed(Backwards(q, base, small));
      BackwardsStep(num, base, small);
      assert ([c] + Backwards(q, base, small))[1..] == Backwards(q, base, small);
      assert Reversed(Backwards(num, base, small)) == rest + [c];
      assert (rest + [c])[..|rest|] == rest;
    }
  }

  lemma {:induction false} ZerosCountNothing(n: int, d: string, base: nat)
    requires base >= 2
    ensures ValueOf(Repeat('0', n) + d, base) == ValueOf(d, base) &&
            (AllDigits(d, base) ==> AllDigits(Repeat('0', n) + d, base))
  {
    var z := Repeat('0', n);
    if d != [] {
      ZerosCountNothing(n, d[..|d| - 1], base);
      assert (z + d)[..|z + d| - 1] == z + d[..|d| - 1];
    } else {
      assert z + d == z;
      ZerosAreZero(n, base);
    }
  }

  lemma ValueLast(s: string, c: char, base: nat)
    ensures ValueOf(s + [c], base) == ValueOf(s, base) * base + ValueOfDigit(c)
  {
    assert (s + [c])[..|s|] == s;
  }

  lemma {:induction false} ZerosAreZero(n: int, base: nat)
    ensures ValueOf(Repeat('0', n), base) == 0
  {
    if n > 0 {
      hide ValueOf;
      ZerosAreZero(n - 1, base);
      RepeatMore('0', n - 1);
      ValueLast(Repeat('0', n - 1), '0', base);
    }
  }

  lemma {:induction false} SpacesDropped(n: int, s: string)
    ensures DropSpaces(Repeat(' ', n) + s) == DropSpaces(s)
    decreases if n > 0 then n else 0
  {
    if n > 0 {
      assert (Repeat(' ', n) + s)[1..] == Repeat(' ', n - 1) + s;
      SpacesDropped(n - 1, s);
    } else {
      assert Repeat(' ', n) + s == s;
    }
  }

  lemma {:induction false} DigitsTaken(d: string, n: int, base: nat)
    requires base <= 36 && AllDigits(d, base)
    ensures TakeDigits(d + Repeat(' ', n), base) == d
  {
    if d == [] {
      assert d + Repeat(' ', n) == Repeat(' ', n);
    } else {
      assert (d + Repeat(' ', n))[1..] == d[1..] + Repeat(' ', n);
      DigitsTaken(d[1..], n, base);
    }
  }

  /** The part behind the sign. */
  lemma BodyParses(d: string, after: int, base: nat, f: Flags)
    requires 2 <= base <= 36 && d != [] && AllDigits(d, base)
    ensures var body := PrefixOf(base, f) + d + Repeat(' ', after);
            && ParseDigits(body, base, f) == ValueOf(d, base)
            && body != [] && body[0] != ' ' && body[0] != '-' && body[0] != '+'
  {
    var p, tail := PrefixOf(base, f), d + Repeat(' ', after);
    assert IsDigit(d[0], base);
    assert p + d + Repeat(' ', after) == p + tail;
    assert Drop(p + tail, |p|) == tail;
    DigitsTaken(d, after, base);
    assert (p + tail)[0] == if p == "" then d[0] else p[0];
  }

  lemma SignParses(before: int, s: string, body: string, base: nat, f: Flags)
    requires body != [] && body[0] != ' ' && body[0] != '-' && body[0] != '+' && s in {"-", "+", " ", ""}
    ensures Parse(Repeat(' ', before) + (s + body), base, f) ==
            if s == "-" then -(ParseDigits(body, base, f) as int) else ParseDigits(body, base, f)
  {
    hide ParseDigits, Repeat;
    SpacesDropped(before, s + body);
    if s == "" {
      assert s + body == body;
    } else {
      assert (s + body)[1..] == body;
    }
  }

  /** Reading a text of the shape that is printed. */
  lemma ParseShape(before: int, s: string, d: string, after: int, base: nat, f: Flags)
    requires 2 <= base <= 36 && d != [] && AllDigits(d, base) && s in {"-", "+", " ", ""}
    ensures Parse(Repeat(' ', before) + s + PrefixOf(base, f) + d + Repeat(' ', after), base, f) ==
            if s == "-" then -(ValueOf(d, base) as int) else ValueOf(d, base)
  {
    hide Parse, ParseDigits, ValueOf, PrefixOf, Repeat, AllDigits;
    var body := PrefixOf(base, f) + d + Repeat(' ', after);
    BodyParses(d, after, base, f);
    SignParses(before, s, body, base, f);
    assert Repeat(' ', before) + s + PrefixOf(base, f) + d + Repeat(' ', after) == Repeat(' ', before) + (s + body);
  }

  /** Each layout is of that shape, with more zeros in front of the digits when zero-filled. */
  lemma TextShape(num: Word, base: nat, width: int, precision: int, f: Flags)
    requires 2 <= base <= 36
    ensures var (s, p, d, n) := (SignOf(num, f), PrefixOf(base, f), Padded(num, base, precision, f),
            Missing(num, base, width, precision, f));
            var (before, zeros, after) := (if f.left || f.zero then 0 else n,
                                           if f.zero && !f.left then n else 0,
                                           if f.left then n else 0);
            Text(num, base, width, precision, f) ==
                Repeat(' ', before) + s + p + (Repeat('0', zeros) + d) + Repeat(' ', after)
  {
    hide SignOf, PrefixOf, Padded, Missing;
    var (s, p, d, n) := (SignOf(num, f), PrefixOf(base, f), Padded(num, base, precision, f),
        Missing(num, base, width, precision, f));
    assert Repeat(' ', 0) == [] && Repeat('0', 0) == [];
  }

  /** What is printed reads back as the number: its signed value under the sign flag, its unsigned value otherwise. */
  lemma PrintedReadsBack(num: Word, base: nat, width: int, precision: int, f: Flags)
    requires 2 <= base <= 36
    ensures Parse(Text(num, base, width, precision, f), base, f) == if f.sign then Signed(num) else num
  {
    hide Text, Parse, ValueOf, PrefixOf, Missing, Magnitude, DigitsOf, Repeat, AllDigits, Signed;
    var d, m, n := DigitsOf(Magnitude(num, f), base, f.small), Magnitude(num, f),
        Missing(num, base, width, precision, f);
    TextShape(num, base, width, precision, f);
    PlainDigits(m, base, f.small);
    MagnitudeIs(num, f);
    ZerosCountNothing(precision - |d|, d, base);
    var padded := Padded(num, base, precision, f);
    var zeros := if f.zero && !f.left then n else 0;
    hide Padded;
    ZerosCountNothing(zeros, padded, base);
    ParseShape(if f.left || f.zero then 0 else n, SignOf(num, f), Repeat('0', zeros) + padded,
        if f.left then n else 0, base, f);
  }

  lemma PlainDigits(m: nat, base: nat, small: bool)
    requires 2 <= base <= 36
    ensures var d := DigitsOf(m, base, small); d != [] && ValueOf(d, base) == m && AllDigits(d, base)
  {
    DigitsMean(m, base, small);
    if m == 0 {
      assert "0"[..0] == [];
    } else {
      BackwardsStep(m, base, small);
    }
  }

  lemma MagnitudeIs(num: Word, f: Flags)
    ensures Negative(num, f) ==> SignOf(num, f) == "-" && -(Magnitude(num, f) as int) == Signed(num)
    ensures !Negative(num, f) ==> SignOf(num, f) != "-" && Magnitude(num, f) == num && (f.sign ==> Signed(num) == num)
  {
  }

  /** The length is the larger of the width and the length without padding. */
  lemma LengthIsWidth(num: Word, base: nat, width: int, precision: int, f: Flags)
    requires 2 <= base <= 36
    ensures var digits := |DigitsOf(Magnitude(num, f), base, f.small)|;
            var bare := |SignOf(num, f)| + |PrefixOf(base, f)| + (if digits > precision then digits else precision);
            |Text(num, base, width, precision, f)| == if width > bare then width else bare
  {
    hide DigitsOf, Magnitude, SignOf, PrefixOf;
  }

  // ---------------------------------------------------------------- how it looks

  /** Letters are small exactly under the flag that asks for small ones. */
  predicate RightCase(c: char, small: bool) {
    ('a' <= c <= 'z' ==> small) && ('A' <= c <= 'Z' ==> !small)
  }

  lemma DigitCase(v: nat, small: bool)
    requires v < 36
    ensures RightCase(Digit(v, small), small)
    ensures v >= 10 ==> if small then 'a' <= Digit(v, small) <= 'z' else 'A' <= Digit(v, small) <= 'Z'
  {
  }

  lemma {:induction false} BackwardsCase(num: nat, base: nat, small: bool)
    requires 2 <= base <= 36
    ensures forall k :: 0 <= k < |Backwards(num, base, small)| ==> RightCase(Backwards(num, base, small)[k], small)
  {
    if num > 0 {
      BackwardsStep(num, base, small);
      DigitCase(Rem(num, base), small);
      hide Digit, RightCase, Quot, Rem;
      BackwardsCase(Quot(num, base), base, small);
    }
  }

  lemma {:induction false} ReversedCase(s: string, small: bool)
    requires forall k :: 0 <= k < |s| ==> RightCase(s[k], small)
    ensures forall k :: 0 <= k < |Reversed(s)| ==> RightCase(Reversed(s)[k], small)
  {
    hide RightCase;
    if s != [] {
      ReversedCase(s[1..], small);
    }
  }

  predicate AllCase(s: string, small: bool) {
    forall k :: 0 <= k < |s| ==> RightCase(s[k], small)
  }

  lemma CaseJoined(s: string, t: string, small: bool)
    requires AllCase(s, small) && AllCase(t, small)
    ensures AllCase(s + t, small)
  {
    hide RightCase;
  }

  lemma OthersCase(num: Word, base: nat, f: Flags, n: int)
    ensures AllCase(SignOf(num, f), f.small) && AllCase(PrefixOf(base, f), f.small)
    ensures AllCase(Repeat(' ', n), f.small) && AllCase(Repeat('0', n), f.small)
  {
  }

  /** Every letter that is printed is small or capital as the flag says. */
  lemma TextCase(num: Word, base: nat, width: int, precision: int, f: Flags)
    requires 2 <= base <= 36
    ensures AllCase(Text(num, base, width, precision, f), f.small)
  {
    var m, n := Magnitude(num, f), Missing(num, base, width, precision, f);
    var d := DigitsOf(m, base, f.small);
    BackwardsCase(m, base, f.small);
    ReversedCase(Backwards(m, base, f.small), f.small);
    assert AllCase(d, f.small);
    TextShape(num, base, width, precision, f);
    hide Text, AllCase, Backwards, Reversed, DigitsOf, Magnitude, Missing, SignOf, PrefixOf, Repeat;
    var (before, zeros, after) := (if f.left || f.zero then 0 else n,
                                   if f.zero && !f.left then n else 0,
                                   if f.left then n else 0);
    OthersCase(num, base, f, before);
    OthersCase(num, base, f, zeros);
    OthersCase(num, base, f, after);
    OthersCase(num, base, f, precision - |d|);
    CaseJoined(Repeat('0', precision - |d|), d, f.small);
    CaseJoined(Repeat('0', zeros), Padded(num, base, precision, f), f.small);
    CaseJoined(Repeat(' ', before), SignOf(num, f), f.small);
    CaseJoined(Repeat(' ', before) + SignOf(num, f), PrefixOf(base, f), f.small);
    var body := Repeat('0', zeros) + Padded(num, base, precision, f);
    CaseJoined(Repeat(' ', before) + SignOf(num, f) + PrefixOf(base, f), body, f.small);
    CaseJoined(Repeat(' ', before) + SignOf(num, f) + PrefixOf(base, f) + body, Repeat(' ', after), f.small);
  }

  /**
   Width only adds: blanks behind when left-justified; blanks in front when neither left-justified nor zero-filled;
   otherwise zeros between the prefix and the digits, as more precision would.
   */
  lemma WidthAdds(num: Word, base: nat, width: int, precision: int, f: Flags)
    requires 2 <= base <= 36
    ensures var t, bare, n := Text(num, base, width, precision, f), Text(num, base, 0, precision, f),
                              Missing(num, base, width, precision, f);
            if f.left then t == bare + Repeat(' ', n)
            else if !f.zero then t == Repeat(' ', n) + bare
            else if n <= 0 then t == bare
            else t == Text(num, base, 0, |Padded(num, base, precision, f)| + n, f)
  {
    hide SignOf, PrefixOf, DigitsOf, Magnitude;
    var d := DigitsOf(Magnitude(num, f), base, f.small);
    var n := Missing(num, base, width, precision, f);
    assert Missing(num, base, 0, precision, f) <= 0;
    assert Repeat(' ', 0) == [] && Repeat('0', 0) == [];
    if !f.left && f.zero && n > 0 {
      var p := |Padded(num, base, precision, f)| + n;
      assert Missing(num, base, 0, p, f) <= 0;
      RepeatSum('0', n, if precision > |d| then precision - |d| else 0);
      assert Repeat('0', precision - |d|) == Repeat('0', if precision > |d| then precision - |d| else 0);
    }
  }

  lemma {:induction false} RepeatSum(c: char, m: nat, n: nat)
    ensures Repeat(c, m) + Repeat(c, n) == Repeat(c, m + n)
  {
    if m > 0 {
      RepeatSum(c, m - 1, n);
    }
  }

  /** The number begins with its sign, and then with the prefix of its base. */
  lemma Beginning(num: Word, base: nat, precision: int, f: Flags)
    requires 2 <= base <= 36
    ensures var t := Text(num, base, 0, precision, f);
            var signed := (f.sign && Signed(num) < 0) || f.plus || f.space;
            var at := if signed then 1 else 0;
            && |t| > at
            && (signed ==> t[0] == if f.sign && Signed(num) < 0 then '-' else if f.plus then '+' else ' ')
            && (f.special && base == 8 ==> t[at] == '0')
            && (f.special && base == 16 ==> |t| > at + 2 && t[at..at + 2] == if f.small then "0x" else "0X")
  {
    hide Wrap, Signed, Backwards, Reversed, Magnitude, DigitsOf;
    PlainDigits(Magnitude(num, f), base, f.small);
    hide ValueOf, AllDigits, Repeat;
  }
}
