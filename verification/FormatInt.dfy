/** fmtint and fmtstr: how one converted value is laid out. long and int have 32 bits. */
module FormatInt {

  const WORD: nat := 0x1_0000_0000

  datatype Flags = Flags(minus: bool, plus: bool, space: bool, num: bool, zero: bool, up: bool, unsigned: bool)

  type Base = b: nat | b == 8 || b == 10 || b == 16 witness 10

  function Max(a: int, b: int): (r: int)
    ensures a <= r && b <= r && (r == a || r == b)
  {
    if a >= b then a else b
  }

  function Repeat(c: char, n: int): (r: seq<char>)
    ensures |r| == Max(n, 0) && forall k :: 0 <= k < |r| ==> r[k] == c
    decreases n
  {
    if n <= 0 then [] else Repeat(c, n - 1) + [c]
  }

  // ----- digits

  function Digit(d: nat, up: bool): char
    requires d < 16
  {
    if d < 10 then '0' + d as char else if up then 'A' + (d - 10) as char else 'a' + (d - 10) as char
  }

  function ValueOf(c: char): nat {
    if '0' <= c <= '9' then (c - '0') as nat
    else if 'A' <= c <= 'F' then (c - 'A') as nat + 10
    else if 'a' <= c <= 'f' then (c - 'a') as nat + 10
    else 0
  }

  /** A digit of the base, in the case asked for. */
  predicate IsDigitOf(c: char, base: Base, up: bool) {
    ValueOf(c) < base && c == Digit(ValueOf(c), up)
  }

  /** The number a string of digits denotes. */
  function Number(s: seq<char>, base: Base): nat {
    if s == [] then 0 else Number(s[..|s| - 1], base) * base + ValueOf(s[|s| - 1])
  }

  /** The digits of u, most significant first, without leading zeros. */
  function Digits(u: nat, base: Base, up: bool): (s: seq<char>)
    ensures s != [] && (s[0] == '0' ==> u == 0)
  {
    if u < base then [Digit(u, up)] else Digits(u / base, base, up) + [Digit(u % base, up)]
  }

  lemma DigitValue(d: nat, up: bool)
    requires d < 16
    ensures ValueOf(Digit(d, up)) == d
  {
  }

  lemma DivMod(u: nat, base: Base)
    ensures u / base * base + u % base == u
  {
  }

  lemma {:induction false} DigitsReadBack(u: nat, base: Base, up: bool)
    ensures Number(Digits(u, base, up), base) == u
    decreases u
  {
    hide Digit, ValueOf;
    DigitValue(u % base, up);
    DivMod(u, base);
    var s := Digits(u, base, up);
    if u < base {
      NumberOfOne(Digit(u, up), base);
      DigitValue(u, up);
    } else {
      DigitsReadBack(u / base, base, up);
      NumberAppend(Digits(u / base, base, up), Digit(u % base, up), base);
    }
  }

  lemma NumberAppend(s: seq<char>, c: char, base: Base)
    ensures Number(s + [c], base) == Number(s, base) * base + ValueOf(c)
  {
    hide ValueOf;
    assert (s + [c])[..|s|] == s;
  }

  lemma NumberOfOne(c: char, base: Base)
    ensures Number([c], base) == ValueOf(c)
  {
    hide ValueOf;
    NumberAppend([], c, base);
    assert [] + [c] == [c];
  }

  lemma {:induction false} OnlyDigits(u: nat, base: Base, up: bool)
    ensures forall c :: c in Digits(u, base, up) ==> IsDigitOf(c, base, up)
    decreases u
  {
    hide Digit, ValueOf;
    DigitValue(u % base, up);
    if u < base {
      DigitValue(u, up);
    } else {
      OnlyDigits(u / base, base, up);
    }
  }

  lemma {:induction false} ZerosDoNotCount(z: int, s: seq<char>, base: Base)
    ensures Number(Repeat('0', z) + s, base) == Number(s, base)
    decreases |s|, z
  {
    var r := Repeat('0', z);
    if s != [] {
      assert (r + s)[..|r + s| - 1] == r + s[..|s| - 1];
      ZerosDoNotCount(z, s[..|s| - 1], base);
    } else {
      assert r + s == r;
      if z > 0 {
        assert r[..|r| - 1] == Repeat('0', z - 1);
        ZerosDoNotCount(z - 1, [], base);
        assert Repeat('0', z - 1) + [] == Repeat('0', z - 1);
      }
    }
  }

  // ----- the layout of an integer

  predicate IsLong(value: int) {
    -0x8000_0000 <= value < 0x8000_0000
  }

  function Sign(value: int, flags: Flags): (s: seq<char>)
    ensures |s| <= 1
  {
    if flags.unsigned then []
    else if value < 0 then ['-']
    else if flags.plus then ['+']
    else if flags.space then [' ']
    else []
  }

  /** What the digits stand for: the value as unsigned long, or its absolute value. */
  function Magnitude(value: int, flags: Flags): nat {
    if flags.unsigned then value % WORD else if value < 0 then -value else value
  }

  function ZeroPad(place: nat, sign: nat, min: int, max: int, zero: bool): int {
    var z, s := Max(Max(max, 0) - place, 0), SpaceNeed(place, sign, min, max);
    if zero then Max(z, s) else z
  }

  function SpacePad(place: nat, sign: nat, min: int, max: int, zero: bool): nat {
    if zero then 0 else SpaceNeed(place, sign, min, max)
  }

  function SpaceNeed(place: nat, sign: nat, min: int, max: int): nat {
    Max(min - Max(Max(max, 0), place) - sign, 0)
  }

  function IntText(value: int, base: Base, min: int, max: int, flags: Flags): seq<char> {
    var digits, sign := Digits(Magnitude(value, flags), base, flags.up), Sign(value, flags);
    var zeros := Repeat('0', ZeroPad(|digits|, |sign|, min, max, flags.zero));
    var spaces := Repeat(' ', SpacePad(|digits|, |sign|, min, max, flags.zero));
    if flags.minus then sign + zeros + digits + spaces else spaces + sign + zeros + digits
  }

  /** Whatever the padding, the text is some spaces, a sign, a numeral made of digits of the
      base, and some spaces; and sign and numeral read back as the argument: for every
      32-bit value and every base. */
  lemma IntReadsBack(value: int, base: Base, min: int, max: int, flags: Flags)
      returns (left: nat, numeral: seq<char>, right: nat)
    requires IsLong(value)
    ensures IntText(value, base, min, max, flags) == Repeat(' ', left) + Sign(value, flags) + numeral + Repeat(' ', right)
    ensures numeral != [] && forall c :: c in numeral ==> IsDigitOf(c, base, flags.up)
    ensures flags.unsigned ==> Number(numeral, base) == value % WORD
    ensures !flags.unsigned ==> value == if Sign(value, flags) == ['-'] then 0 - Number(numeral, base) else Number(numeral, base)
  {
    hide Digits, Number, Repeat, ZeroPad, SpacePad;
    var digits, sign := Digits(Magnitude(value, flags), base, flags.up), Sign(value, flags);
    var z := ZeroPad(|digits|, |sign|, min, max, flags.zero);
    var pad := SpacePad(|digits|, |sign|, min, max, flags.zero);
    DigitsReadBack(Magnitude(value, flags), base, flags.up);
    ZerosDoNotCount(z, digits, base);
    OnlyDigits(Magnitude(value, flags), base, flags.up);
    ZeroIsADigit(base, flags.up);
    hide IsDigitOf;
    numeral := Repeat('0', z) + digits;
    left, right := if flags.minus then 0 else pad, if flags.minus then pad else 0;
    assert Repeat(' ', 0) == [];
    if flags.minus {
      assert sign + Repeat('0', z) + digits + Repeat(' ', pad) == [] + sign + numeral + Repeat(' ', pad);
    } else {
      assert Repeat(' ', pad) + sign + Repeat('0', z) + digits == Repeat(' ', pad) + sign + numeral + [];
    }
  }

  lemma ZeroIsADigit(base: Base, up: bool)
    ensures IsDigitOf('0', base, up)
  {
  }

  /** The text has the field width asked for, or the sign and the digits with their
      precision if that is more, unless the flag 0 and a precision both ask for zeros: then,
      and only then, it is shorter. */
  lemma FieldWidth(value: int, base: Base, min: int, max: int, flags: Flags)
    ensures var n, sign := |Digits(Magnitude(value, flags), base, flags.up)|, |Sign(value, flags)|;
      var wide := Max(min, sign + Max(max, n));
      && |IntText(value, base, min, max, flags)| <= wide
      && (|IntText(value, base, min, max, flags)| == wide <==> !(flags.zero && n < max && sign + max < min))
  {
  }

  /** "%06.3d" of 5 is four characters wide, not six. */
  lemma ShortField()
    ensures IntText(5, 10, 6, 3, Flags(false, false, false, false, true, false, false)) == "0005"
  {
    assert Digits(5, 10, false) == ['5'];
    assert Repeat('0', 3) == ['0', '0', '0'];
  }

  /** fmtint: the digits are produced backwards in a buffer of 20 characters, which is never
      full. */
  method FmtInt(value: int, base: Base, min: int, max: int, flags: Flags) returns (out: seq<char>)
    requires IsLong(value)
    ensures out == IntText(value, base, min, max, flags)
  {
    hide Magnitude, Sign, Digits, Repeat, ZeroPad, SpacePad;
    var sign, uvalue := SplitSign(value, flags);
    var convert := new char[20](_ => '0');
    var place := Convert(uvalue, base, flags.up, convert);
    var zpad, spad := Padding(place, |sign|, min, max, flags.zero);
    out := LayOut(sign, zpad, spad, flags.minus, convert, place, Digits(uvalue, base, flags.up));
  }

  /** signvalue and uvalue; the negation of the least long is itself, and right as unsigned. */
  method SplitSign(value: int, flags: Flags) returns (sign: seq<char>, uvalue: nat)
    requires IsLong(value)
    ensures sign == Sign(value, flags) && uvalue == Magnitude(value, flags) < WORD
  {
    sign := [];
    uvalue := value % WORD;
    if !flags.unsigned {
      if value < 0 {
        sign := ['-'];
        uvalue := (-value) % WORD;
      } else if flags.plus {
        sign := ['+'];
      } else if flags.space {
        sign := [' '];
      }
    }
  }

  /** How many zeros and spaces to add; the flag 0 turns the spaces into zeros. */
  method Padding(place: nat, sign: nat, min: int, max0: int, zero: bool) returns (zpad: int, spad: int)
    ensures zpad == ZeroPad(place, sign, min, max0, zero) && spad == SpacePad(place, sign, min, max0, zero)
  {
    var max := if max0 < 0 then 0 else max0;
    zpad, spad := max - place, min - Max(max, place) - sign;
    if zpad < 0 {
      zpad := 0;
    }
    if spad < 0 {
      spad := 0;
    }
    if zero {
      zpad := Max(zpad, spad);
      spad := 0;
    }
  }

  /** Spaces, sign, zeros, the digits from the end of the buffer to its start, spaces. */
  method LayOut(sign: seq<char>, zpad: int, spad: int, minus: bool, convert: array<char>, place0: nat, ghost digits: seq<char>)
    returns (out: seq<char>)
    requires place0 == |digits| <= convert.Length
    requires forall k :: 0 <= k < |digits| ==> convert[k] == digits[|digits| - 1 - k]
    ensures out == if minus then sign + Repeat('0', zpad) + digits + Repeat(' ', spad)
                   else Repeat(' ', spad) + sign + Repeat('0', zpad) + digits
  {
    hide Repeat;
    out := [];
    if !minus {
      out := Pad(out, ' ', spad);
      assert out == Repeat(' ', spad);
    }
    out := out + sign;
    assert out == if minus then sign else Repeat(' ', spad) + sign;
    out := Pad(out, '0', zpad);
    ghost var before := out;
    var place := place0;
    while place > 0
      invariant 0 <= place <= |digits| && out == before + digits[..|digits| - place]
    {
      place := place - 1;
      out := out + [convert[place]];
      assert digits[..|digits| - place] == digits[..|digits| - place - 1] + [digits[|digits| - place - 1]];
    }
    assert digits[..|digits|] == digits;
    if minus {
      out := Pad(out, ' ', spad);
    }
  }

  method Pad(out: seq<char>, c: char, n: int) returns (r: seq<char>)
    ensures r == out + Repeat(c, n)
  {
    r := out;
    var left := n;
    while left > 0
      invariant left <= n || left == n
      invariant r == out + Repeat(c, n - Max(left, 0))
      decreases left
    {
      r := r + [c];
      left := left - 1;
    }
    assert n <= 0 ==> Repeat(c, n) == Repeat(c, n - 0);
  }

  /** What is left of a 32-bit number after p divisions by eight or more. */
  function Cap(p: nat): nat {
    if p == 0 then WORD - 1 else Cap(p - 1) / 8
  }

  /** do { convert[place++] = digit; uvalue /= base; } while (uvalue && place < 20) */
  method Convert(u: nat, base: Base, up: bool, convert: array<char>) returns (place: nat)
    requires u < WORD && convert.Length == 20
    modifies convert
    ensures place == |Digits(u, base, up)| <= 11
    ensures forall k :: 0 <= k < place ==> convert[k] == Digits(u, base, up)[place - 1 - k]
  {
    ghost var all := Digits(u, base, up);
    hide Digits, Cap;
    var uvalue: nat := u;
    place := 0;
    CapShrinks(0, base, 0);
    var more := true;
    while more
      invariant place <= 11 && (place == 11 ==> !more) && uvalue <= Cap(place)
      invariant more ==> place < |all| && Digits(uvalue, base, up) == all[..|all| - place]
      invariant !more ==> place == |all|
      invariant forall k :: 0 <= k < place ==> convert[k] == all[|all| - 1 - k]
      decreases if more then 1 else 0, uvalue
    {
      DigitsStep(uvalue, base, up);
      CapShrinks(uvalue, base, place);
      convert[place] := Digit(uvalue % base, up);
      place := place + 1;
      uvalue := uvalue / base;
      more := uvalue != 0 && place < 20;
    }
  }

  lemma DigitsStep(u: nat, base: Base, up: bool)
    ensures var s := Digits(u, base, up);
      && s[|s| - 1] == Digit(u % base, up)
      && (u / base != 0 ==> 1 < |s| && Digits(u / base, base, up) == s[..|s| - 1])
      && (u / base == 0 ==> |s| == 1)
  {
  }

  lemma CapShrinks(u: nat, base: Base, p: nat)
    requires u <= Cap(p)
    ensures u / base <= Cap(p + 1) && (p == 10 ==> Cap(p + 1) == 0)
    ensures Cap(0) == WORD - 1 && Cap(11) == 0
  {
    assert u / 10 <= u / 8 && u / 16 <= u / 8;
    assert Cap(3) == 0x7F_FFFF && Cap(6) == 0x3FFF && Cap(9) == 31 && Cap(11) == 0;
  }

  // ----- strings

  /** The padded string, cut to max characters: the precision counts the padding too. */
  function StrText(value: seq<char>, minus: bool, min: int, max: int): seq<char> {
    Take(Padded(value, minus, min), max)
  }

  function Padded(value: seq<char>, minus: bool, min: int): (s: seq<char>)
    ensures var pad := Max(min - |value|, 0); var at := if minus then 0 else pad;
      |s| == |value| + pad && forall k :: 0 <= k < |s| ==> s[k] == if at <= k < at + |value| then value[k - at] else ' '
  {
    var pad := Repeat(' ', min - |value|);
    if minus then value + pad else pad + value
  }

  function Take(s: seq<char>, max: int): seq<char> {
    if max <= 0 then [] else if max < |s| then s[..max] else s
  }

  /** fmtstr on a string of the given characters. */
  method FmtStr(value: seq<char>, minus: bool, min: int, max: int) returns (out: seq<char>)
    ensures out == StrText(value, minus, min, max)
  {
    ghost var full := Padded(value, minus, min);
    ghost var pad := Max(min - |value|, 0);
    hide Repeat, Padded;
    var padlen := Max(min - |value|, 0);
    if minus {
      padlen := -padlen;
    }
    out := [];
    var cnt := 0;
    while padlen > 0 && cnt < max
      invariant 0 <= cnt <= Max(max, 0) && cnt <= |full| && out == full[..cnt]
      invariant if minus then padlen == -pad && cnt == 0 else 0 <= padlen == pad - cnt
    {
      out := out + [' '];
      padlen := padlen - 1;
      cnt := cnt + 1;
    }
    var i := 0;
    while i < |value| && cnt < max
      invariant i <= |value| && cnt <= Max(max, 0) && cnt <= |full| && out == full[..cnt]
      invariant if minus then padlen == -pad && cnt == i else i == 0 || (padlen == 0 && cnt == pad + i)
      invariant !minus ==> padlen == pad - cnt + i && (padlen == 0 || cnt == max || max < 0)
    {
      out := out + [value[i]];
      i := i + 1;
      cnt := cnt + 1;
    }
    while padlen < 0 && cnt < max
      invariant cnt <= Max(max, 0) && cnt <= |full| && out == full[..cnt]
      invariant minus ==> padlen == -pad + cnt - i && i <= cnt && padlen <= 0 && (i == |value| || max <= cnt)
      invariant !minus ==> 0 <= padlen && padlen == pad - cnt + i && (padlen == 0 || max <= cnt) && (i == |value| || max <= cnt)
    {
      out := out + [' '];
      padlen := padlen + 1;
      cnt := cnt + 1;
    }
  }

  /** Nothing is cut when the string and its padding fit the precision. */
  lemma WholeString(value: seq<char>, minus: bool, min: int, max: int)
    requires |value| <= max && min <= max
    ensures StrText(value, minus, min, max) ==
      if minus then value + Repeat(' ', min - |value|) else Repeat(' ', min - |value|) + value
  {
  }
}
