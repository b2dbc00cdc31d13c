/** dopr, the printf loop, against the meaning of a format: literal characters and
    directives, one after the other. */
module Printf {
  import opened FormatInt

  /** The machine's arguments: word(i) is the i-th 32-bit word after the format, text(p) the
      string at address p, float the text of a floating point value, which is not modelled. */
  datatype Env = Env(word: nat -> nat, text: nat -> seq<char>, float: (nat, int, int, Flags) -> seq<char>)

  const PLAIN := Flags(false, false, false, false, false, false, false)

  /** Overrun: the loop reads past the end of the format. */
  datatype Output = Text(s: seq<char>) | Overrun

  function Then(s: seq<char>, rest: Output): Output {
    match rest
    case Text(t) => Text(s + t)
    case Overrun => Overrun
  }

  // ----- the meaning of a directive

  datatype Size = Plain | Short | Long | LongDouble

  /** A directive: what it says, where it ends, and the next unread argument word. */
  datatype Directive = Directive(flags: Flags, min: int, max: int, size: Size, conv: char, end: nat, arg: nat)

  datatype Option<T> = None | Some(value: T)

  predicate IsFlag(c: char) {
    c == '-' || c == '+' || c == ' ' || c == '#' || c == '0'
  }

  predicate IsDigit(c: char) {
    '0' <= c <= '9'
  }

  /** Where the longest run of characters satisfying p that starts at i ends. */
  function RunEnd(fmt: seq<char>, i: nat, p: char -> bool): (j: nat)
    requires i <= |fmt|
    ensures i <= j <= |fmt| && (j < |fmt| ==> !p(fmt[j])) && forall k :: i <= k < j ==> p(fmt[k])
    decreases |fmt| - i
  {
    if i < |fmt| && p(fmt[i]) then RunEnd(fmt, i + 1, p) else i
  }

  function FlagsIn(s: seq<char>): Flags {
    Flags('-' in s, '+' in s, ' ' in s, '#' in s, '0' in s, false, false)
  }

  /** The number a run of decimal digits denotes. */
  function Decimal(s: seq<char>): int {
    if s == [] then 0 else 10 * Decimal(s[..|s| - 1]) + (s[|s| - 1] as int - '0' as int)
  }

  function Signed(w: nat): (v: int)
    ensures IsLong(v)
  {
    var u := w % WORD;
    if u < 0x8000_0000 then u else u - WORD
  }

  function CharAt(fmt: seq<char>, i: nat): Option<char> {
    if i < |fmt| then Some(fmt[i]) else None
  }

  /** Digits, then perhaps a star, whose argument replaces them. */
  function NumberAt(e: Env, fmt: seq<char>, i: nat, arg: nat, none: int): (r: (int, nat, nat))
    requires i <= |fmt|
    ensures i <= r.1 <= |fmt|
  {
    var j := RunEnd(fmt, i, IsDigit);
    if CharAt(fmt, j) == Some('*') then (Signed(e.word(arg)), j + 1, arg + 1)
    else if i == j then (none, j, arg)
    else (Decimal(fmt[i..j]), j, arg)
  }

  function SizeOf(c: Option<char>): Size {
    if c == Some('h') then Short else if c == Some('l') then Long else if c == Some('L') then LongDouble else Plain
  }

  /** The directive that follows a percent sign: flags, width, precision, size and
      conversion; None if the format ends before the conversion. */
  function DirectiveAt(e: Env, fmt: seq<char>, i: nat, arg: nat): (d: Option<Directive>)
    requires i <= |fmt|
    ensures d.Some? ==> i < d.value.end <= |fmt|
  {
    var f := RunEnd(fmt, i, IsFlag);
    var (min, m, a) := NumberAt(e, fmt, f, arg, 0);
    var (max, p, b) := if CharAt(fmt, m) == Some('.') then NumberAt(e, fmt, m + 1, a, -1) else (-1, m, a);
    var size := SizeOf(CharAt(fmt, p));
    var c := if size.Plain? then p else p + 1;
    if c < |fmt| then Some(Directive(FlagsIn(fmt[i..f]), min, max, size, fmt[c], c + 1, b)) else None
  }

  /** The text of a directive and the number of argument words its conversion takes. */
  function Convert(e: Env, d: Directive, maxlen: int): (r: (seq<char>, nat)) {
    var v := e.word(d.arg) % WORD;
    var u := d.flags.(unsigned := true);
    match d.conv
    case 'd' => (IntText(Signed(v), 10, d.min, d.max, d.flags), 1)
    case 'i' => (IntText(Signed(v), 10, d.min, d.max, d.flags), 1)
    case 'o' => (IntText(Signed(v), 8, d.min, d.max, u), 1)
    case 'u' => (IntText(Signed(v), 10, d.min, d.max, u), 1)
    case 'x' => (IntText(Signed(v), 16, d.min, d.max, u), 1)
    case 'X' => (IntText(Signed(v), 16, d.min, d.max, u.(up := true)), 1)
    case 'p' => (IntText(Signed(v), 16, d.min, d.max, d.flags), 1)
    case 'c' => ([(v % 256) as char], 1)
    case 's' => (StrText(if v == 0 then "<NULL>" else e.text(v), d.flags.minus, d.min, if d.max < 0 then maxlen else d.max), 1)
    case 'f' => (e.float(d.arg, d.min, d.max, d.flags), RealWords(d.size))
    case 'e' => ([], RealWords(d.size))
    case 'E' => ([], RealWords(d.size))
    case 'g' => ([], RealWords(d.size))
    case 'G' => ([], RealWords(d.size))
    case 'n' => ([], 1)
    case '%' => (['%'], 0)
    case _ => ([], 0)
  }

  /** A double takes two words, a long double three. */
  function RealWords(size: Size): nat {
    if size.LongDouble? then 3 else 2
  }

  /** What is printed for the format from position i on, when len characters are out already:
      the limit is looked at before each character and each directive, never inside one. */
  function Format(e: Env, fmt: seq<char>, maxlen: int, i: nat, arg: nat, len: nat): Output
    requires i <= |fmt|
    decreases |fmt| - i
  {
    if maxlen <= len || i == |fmt| then Text([])
    else if fmt[i] != '%' then Then([fmt[i]], Format(e, fmt, maxlen, i + 1, arg, len + 1))
    else
      match DirectiveAt(e, fmt, i + 1, arg)
      case None => Text([])
      case Some(d) =>
        if d.conv == 'w' then
          if d.end == |fmt| then Overrun else Format(e, fmt, maxlen, d.end + 1, d.arg, len)
        else
          var (t, n) := Convert(e, d, maxlen);
          Then(t, Format(e, fmt, maxlen, d.end, d.arg + n, len + |t|))
  }

  // ----- the state machine

  datatype State = Default | InFlags | InMin | InDot | InMax | InMod | InConv | Done

  /** Zero at the end of the format; formats hold no zero themselves. */
  function Ch(fmt: seq<char>, i: nat): char {
    if i < |fmt| then fmt[i] else '\0'
  }

  function Rank(s: State): nat {
    match s
    case Default => 7
    case InFlags => 6
    case InMin => 5
    case InDot => 4
    case InMax => 3
    case InMod => 2
    case InConv => 1
    case Done => 0
  }

  /** The registers of the loop between two iterations. */
  datatype Regs = Regs(state: State, i: nat, arg: nat, flags: Flags, size: Size, min: int, max: int)

  /** start is where the directive begins; the registers hold what has been read of it. */
  ghost predicate ReadSoFar(e: Env, fmt: seq<char>, start: nat, arg0: nat, r: Regs) {
    && start <= r.i <= |fmt| && r.state != Default && r.state != Done
    && (r.state == InFlags || r.state == InMin ==> r.arg == arg0)
    && var f := RunEnd(fmt, start, IsFlag);
    && (r.state == InFlags ==> r.i <= f && r.flags == FlagsIn(fmt[start..r.i]) && r.min == 0)
    && (r.state != InFlags ==> r.flags == FlagsIn(fmt[start..f]))
    && var (min, m, a) := NumberAt(e, fmt, f, arg0, 0);
    && (r.state == InMin ==> f <= r.i <= RunEnd(fmt, f, IsDigit) && r.min == Decimal(fmt[f..r.i]))
    && (r.state != InFlags && r.state != InMin ==> r.min == min)
    && (r.state == InDot ==> r.i == m && r.arg == a)
    && (r.state == InFlags || r.state == InMin || r.state == InDot ==> r.max == -1)
    && (r.state == InMax ==>
          && CharAt(fmt, m) == Some('.') && r.arg == a && m + 1 <= r.i <= RunEnd(fmt, m + 1, IsDigit)
          && r.max == if r.i == m + 1 then -1 else Decimal(fmt[m + 1..r.i]))
    && var (max, p, b) := if CharAt(fmt, m) == Some('.') then NumberAt(e, fmt, m + 1, a, -1) else (-1, m, a);
    && (r.state == InMod || r.state == InConv ==> r.max == max && r.arg == b)
    && (r.state == InMod ==> r.i == p)
    && (r.state == InConv ==> r.size == SizeOf(CharAt(fmt, p)) && r.i == if r.size.Plain? then p else p + 1)
    && (r.state != InConv ==> r.size == Plain)
  }

  /** One iteration inside a directive, before its conversion. */
  function Advance(e: Env, fmt: seq<char>, r: Regs): Regs
    requires r.i < |fmt|
  {
    var ch := fmt[r.i];
    match r.state
    case InFlags =>
      if ch == '-' then r.(flags := r.flags.(minus := true), i := r.i + 1)
      else if ch == '+' then r.(flags := r.flags.(plus := true), i := r.i + 1)
      else if ch == ' ' then r.(flags := r.flags.(space := true), i := r.i + 1)
      else if ch == '#' then r.(flags := r.flags.(num := true), i := r.i + 1)
      else if ch == '0' then r.(flags := r.flags.(zero := true), i := r.i + 1)
      else r.(state := InMin)
    case InMin =>
      if IsDigit(ch) then r.(min := 10 * r.min + (ch as int - '0' as int), i := r.i + 1)
      else if ch == '*' then r.(min := Signed(e.word(r.arg)), arg := r.arg + 1, i := r.i + 1, state := InDot)
      else r.(state := InDot)
    case InDot => if ch == '.' then r.(state := InMax, i := r.i + 1) else r.(state := InMod)
    case InMax =>
      if IsDigit(ch) then r.(max := 10 * (if r.max < 0 then 0 else r.max) + (ch as int - '0' as int), i := r.i + 1)
      else if ch == '*' then r.(max := Signed(e.word(r.arg)), arg := r.arg + 1, i := r.i + 1, state := InMod)
      else r.(state := InMod)
    case InMod =>
      if ch == 'h' then r.(size := Short, i := r.i + 1, state := InConv)
      else if ch == 'l' then r.(size := Long, i := r.i + 1, state := InConv)
      else if ch == 'L' then r.(size := LongDouble, i := r.i + 1, state := InConv)
      else r.(state := InConv)
    case _ => r
  }

  lemma DecimalGrows(fmt: seq<char>, f: nat, i: nat)
    requires f <= i < |fmt|
    ensures Decimal(fmt[f..i + 1]) == 10 * Decimal(fmt[f..i]) + (fmt[i] as int - '0' as int)
  {
    assert fmt[f..i + 1][..i - f] == fmt[f..i];
  }

  lemma {:induction false} RunEndFrom(fmt: seq<char>, i: nat, j: nat, p: char -> bool)
    requires i <= j <= |fmt| && forall k :: i <= k < j ==> p(fmt[k])
    ensures RunEnd(fmt, i, p) == RunEnd(fmt, j, p)
    decreases j - i
  {
    if i < j { RunEndFrom(fmt, i + 1, j, p); }
  }

  lemma {:induction false} DecimalIsNatural(s: seq<char>)
    requires forall k :: 0 <= k < |s| ==> IsDigit(s[k])
    ensures 0 <= Decimal(s)
  {
    if s != [] { DecimalIsNatural(s[..|s| - 1]); }
  }

  /** One character more: another flag, or the end of the flags. */
  lemma FlagRead(fmt: seq<char>, start: nat, i: nat)
    requires start <= i < |fmt| && i <= RunEnd(fmt, start, IsFlag)
    ensures IsFlag(fmt[i]) <==> i < RunEnd(fmt, start, IsFlag)
    ensures var f, g, c := FlagsIn(fmt[start..i]), FlagsIn(fmt[start..i + 1]), fmt[i];
      && (c == '-' ==> g == f.(minus := true)) && (c == '+' ==> g == f.(plus := true))
      && (c == ' ' ==> g == f.(space := true)) && (c == '#' ==> g == f.(num := true))
      && (c == '0' ==> g == f.(zero := true))
    ensures Decimal(fmt[i..i]) == 0 && i <= RunEnd(fmt, i, IsDigit)
  {
    RunEndFrom(fmt, start, i, IsFlag);
    assert fmt[start..i + 1] == fmt[start..i] + [fmt[i]];
    assert fmt[i..i] == [];
  }

  lemma FlagsRead(e: Env, fmt: seq<char>, start: nat, arg0: nat, r: Regs)
    requires ReadSoFar(e, fmt, start, arg0, r) && r.i < |fmt| && r.state == InFlags
    ensures ReadSoFar(e, fmt, start, arg0, Advance(e, fmt, r))
  {
    hide NumberAt, Decimal, FlagsIn, RunEnd;
    FlagRead(fmt, start, r.i);
  }

  /** Inside a run of digits from f on, the next character is one more digit, or decides
      what the number is. */
  lemma NumberRead(e: Env, fmt: seq<char>, f: nat, i: nat, arg: nat, none: int)
    requires f <= i < |fmt| && i <= RunEnd(fmt, f, IsDigit)
    ensures IsDigit(fmt[i]) ==> i < RunEnd(fmt, f, IsDigit) && 0 <= Decimal(fmt[f..i])
                                && Decimal(fmt[f..i + 1]) == 10 * Decimal(fmt[f..i]) + (fmt[i] as int - '0' as int)
    ensures fmt[i] == '*' ==> NumberAt(e, fmt, f, arg, none) == (Signed(e.word(arg)), i + 1, arg + 1)
    ensures !IsDigit(fmt[i]) && fmt[i] != '*' ==>
      NumberAt(e, fmt, f, arg, none) == (if i == f then none else Decimal(fmt[f..i]), i, arg)
    ensures Decimal(fmt[f..f]) == 0
  {
    RunEndFrom(fmt, f, i, IsDigit);
    DecimalGrows(fmt, f, i);
    DecimalIsNatural(fmt[f..i]);
    assert fmt[f..f] == [];
  }

  lemma MinRead(e: Env, fmt: seq<char>, start: nat, arg0: nat, r: Regs)
    requires ReadSoFar(e, fmt, start, arg0, r) && r.i < |fmt| && r.state == InMin
    ensures ReadSoFar(e, fmt, start, arg0, Advance(e, fmt, r))
  {
    hide RunEnd, NumberAt, Decimal, FlagsIn, Signed;
    NumberRead(e, fmt, RunEnd(fmt, start, IsFlag), r.i, arg0, 0);
  }

  lemma DotRead(e: Env, fmt: seq<char>, start: nat, arg0: nat, r: Regs)
    requires ReadSoFar(e, fmt, start, arg0, r) && r.i < |fmt| && r.state == InDot
    ensures ReadSoFar(e, fmt, start, arg0, Advance(e, fmt, r))
  {
    if fmt[r.i] == '.' { assert fmt[r.i + 1..r.i + 1] == []; }
  }

  lemma MaxRead(e: Env, fmt: seq<char>, start: nat, arg0: nat, r: Regs)
    requires ReadSoFar(e, fmt, start, arg0, r) && r.i < |fmt| && r.state == InMax
    ensures ReadSoFar(e, fmt, start, arg0, Advance(e, fmt, r))
  {
    hide RunEnd, NumberAt, Decimal, FlagsIn, Signed;
    var (min, m, a) := NumberAt(e, fmt, RunEnd(fmt, start, IsFlag), arg0, 0);
    NumberRead(e, fmt, m + 1, r.i, a, -1);
  }

  lemma ModRead(e: Env, fmt: seq<char>, start: nat, arg0: nat, r: Regs)
    requires ReadSoFar(e, fmt, start, arg0, r) && r.i < |fmt| && r.state == InMod
    ensures ReadSoFar(e, fmt, start, arg0, Advance(e, fmt, r))
  {
    hide RunEnd, NumberAt, Decimal, FlagsIn, Signed;
  }

  lemma AdvanceReads(e: Env, fmt: seq<char>, start: nat, arg0: nat, r: Regs)
    requires ReadSoFar(e, fmt, start, arg0, r) && r.i < |fmt| && r.state != InConv
    ensures ReadSoFar(e, fmt, start, arg0, Advance(e, fmt, r))
  {
    match r.state
    case InFlags => FlagsRead(e, fmt, start, arg0, r);
    case InMin => MinRead(e, fmt, start, arg0, r);
    case InDot => DotRead(e, fmt, start, arg0, r);
    case InMax => MaxRead(e, fmt, start, arg0, r);
    case InMod => ModRead(e, fmt, start, arg0, r);
    case _ =>
  }

  /** At the conversion the registers are the directive; if the format ends first, there is
      none. */
  lemma ReadAll(e: Env, fmt: seq<char>, start: nat, arg0: nat, r: Regs)
    requires ReadSoFar(e, fmt, start, arg0, r)
    ensures r.i == |fmt| ==> DirectiveAt(e, fmt, start, arg0) == None
    ensures r.state == InConv && r.i < |fmt| ==>
      DirectiveAt(e, fmt, start, arg0) == Some(Directive(r.flags, r.min, r.max, r.size, fmt[r.i], r.i + 1, r.arg))
  {
    if r.i == |fmt| {
      if r.state == InFlags || r.state == InMin { EndsEarly(e, fmt, start, arg0, r); } else { EndsLate(e, fmt, start, arg0, r); }
    } else {
      hide FlagsIn, Decimal, RunEnd, NumberAt;
    }
  }

  lemma EndsEarly(e: Env, fmt: seq<char>, start: nat, arg0: nat, r: Regs)
    requires ReadSoFar(e, fmt, start, arg0, r) && r.i == |fmt| && (r.state == InFlags || r.state == InMin)
    ensures DirectiveAt(e, fmt, start, arg0) == None
  {
    hide FlagsIn, Decimal;
    if r.state == InFlags { RunEndFrom(fmt, start, r.i, IsFlag); }
    if r.state == InMin { RunEndFrom(fmt, RunEnd(fmt, start, IsFlag), r.i, IsDigit); }
  }

  lemma EndsLate(e: Env, fmt: seq<char>, start: nat, arg0: nat, r: Regs)
    requires ReadSoFar(e, fmt, start, arg0, r) && r.i == |fmt| && r.state != InFlags && r.state != InMin
    ensures DirectiveAt(e, fmt, start, arg0) == None
  {
    hide FlagsIn, Decimal;
    if r.state == InMax {
      var (min, m, a) := NumberAt(e, fmt, RunEnd(fmt, start, IsFlag), arg0, 0);
      RunEndFrom(fmt, m + 1, r.i, IsDigit);
    }
  }

  /** The switch on the conversion character. */
  method Emit(e: Env, maxlen: int, r: Regs, ch: char) returns (t: seq<char>, words: nat)
    ensures (t, words) == Convert(e, Directive(r.flags, r.min, r.max, r.size, ch, r.i + 1, r.arg), maxlen)
  {
    hide IntText, StrText;
    var v := e.word(r.arg) % WORD;
    var u := r.flags.(unsigned := true);
    t, words := [], 1;
    match ch
    case 'd' => t := FmtInt(Signed(v), 10, r.min, r.max, r.flags);
    case 'i' => t := FmtInt(Signed(v), 10, r.min, r.max, r.flags);
    case 'o' => t := FmtInt(Signed(v), 8, r.min, r.max, u);
    case 'u' => t := FmtInt(Signed(v), 10, r.min, r.max, u);
    case 'X' => t := FmtInt(Signed(v), 16, r.min, r.max, u.(up := true));
    case 'x' => t := FmtInt(Signed(v), 16, r.min, r.max, u);
    case 'f' => t, words := e.float(r.arg, r.min, r.max, r.flags), RealWords(r.size);
    case 'E' => words := RealWords(r.size);
    case 'e' => words := RealWords(r.size);
    case 'G' => words := RealWords(r.size);
    case 'g' => words := RealWords(r.size);
    case 'c' => t := [(v % 256) as char];
    case 's' =>
      var max := if r.max < 0 then maxlen else r.max;
      t := FmtStr(if v == 0 then "<NULL>" else e.text(v), r.flags.minus, r.min, max);
    case 'p' => t := FmtInt(Signed(v), 16, r.min, r.max, r.flags);
    case 'n' =>
    case '%' => t, words := ['%'], 0;
    case _ => words := 0;
  }

  lemma ThenAssociates(a: seq<char>, b: seq<char>, rest: Output)
    ensures Then(a, Then(b, rest)) == Then(a + b, rest)
    ensures Then(a, Text([])) == Text(a) && Then([], rest) == rest
  {
    match rest
    case Text(t) => assert a + (b + t) == (a + b) + t; assert [] + t == t; assert a + [] == a;
    case Overrun => assert a + [] == a;
  }

  /** dopr prints what the format means. It ends because every iteration either moves on in
      the format or goes to a later state. */
  method Dopr(e: Env, maxlen: int, fmt: seq<char>) returns (out: Output)
    requires '\0' !in fmt
    ensures out == Format(e, fmt, maxlen, 0, 0, 0)
  {
    hide DirectiveAt, Convert, ReadSoFar, Advance, Then, Format;
    var r := Regs(Default, 0, 0, PLAIN, Plain, 0, -1);
    var text: seq<char> := [];
    ghost var all := Format(e, fmt, maxlen, 0, 0, 0);
    ghost var start: nat, arg0: nat := 0, 0;
    ThenAssociates([], [], all);
    while r.state != Done
      invariant r.i <= |fmt|
      invariant r.state == Default ==>
        r == Regs(Default, r.i, r.arg, PLAIN, Plain, 0, -1) && all == Then(text, Format(e, fmt, maxlen, r.i, r.arg, |text|))
      invariant r.state != Default && r.state != Done ==>
        && 0 < start <= |fmt| && ReadSoFar(e, fmt, start, arg0, r) && |text| < maxlen && fmt[start - 1] == '%'
        && all == Then(text, Format(e, fmt, maxlen, start - 1, arg0, |text|))
      invariant r.state == Done ==> all == Text(text)
      decreases |fmt| - r.i, Rank(r.state)
    {
      if r.i < |fmt| { assert fmt[r.i] in fmt; }
      var ch := Ch(fmt, r.i);
      if ch == '\0' || |text| >= maxlen {
        Ends(e, fmt, maxlen, start, arg0, r, text, all);
        r := r.(state := Done);
      } else if r.state == Default {
        if ch == '%' {
          start, arg0 := r.i + 1, r.arg;
          r := r.(state := InFlags, i := r.i + 1);
          DirectiveStarts(e, fmt, start, arg0, r);
        } else {
          LiteralStep(e, fmt, maxlen, r.i, r.arg, text, all);
          text := text + [ch];
          r := r.(i := r.i + 1);
        }
      } else if r.state == InConv {
        ReadAll(e, fmt, start, arg0, r);
        var skip := ch == 'w';
        if skip && r.i + 1 == |fmt| {
          SkipsPastEnd(e, fmt, maxlen, start, arg0, r, text, all);
          return Overrun;
        }
        var t, words := Emit(e, maxlen, r, ch);
        DirectiveStep(e, fmt, maxlen, start, arg0, r, text, all);
        text := text + t;
        r := Regs(Default, if skip then r.i + 2 else r.i + 1, r.arg + words, PLAIN, Plain, 0, -1);
      } else {
        AdvanceReads(e, fmt, start, arg0, r);
        AdvanceDecreases(e, fmt, r);
        r := Advance(e, fmt, r);
      }
    }
    return Text(text);
  }

  /** The lexicographic measure: what remains of the format, then the state. */
  lemma AdvanceDecreases(e: Env, fmt: seq<char>, r: Regs)
    requires r.i < |fmt| && r.state != Default && r.state != InConv && r.state != Done
    ensures var q := Advance(e, fmt, r);
      && q.i <= |fmt| && q.state != Default && q.state != Done
      && (r.i < q.i || (r.i == q.i && Rank(q.state) < Rank(r.state)))
  {
  }

  lemma DirectiveStarts(e: Env, fmt: seq<char>, start: nat, arg0: nat, r: Regs)
    requires start <= |fmt| && r == Regs(InFlags, start, arg0, PLAIN, Plain, 0, -1)
    ensures ReadSoFar(e, fmt, start, arg0, r)
  {
    assert fmt[start..start] == [];
  }

  lemma LiteralStep(e: Env, fmt: seq<char>, maxlen: int, i: nat, arg: nat, text: seq<char>, all: Output)
    requires i < |fmt| && fmt[i] != '%' && |text| < maxlen && all == Then(text, Format(e, fmt, maxlen, i, arg, |text|))
    ensures all == Then(text + [fmt[i]], Format(e, fmt, maxlen, i + 1, arg, |text + [fmt[i]]|))
  {
    ThenAssociates(text, [fmt[i]], Format(e, fmt, maxlen, i + 1, arg, |text| + 1));
  }

  /** At the end of the format, or of the room, nothing more is printed. */
  lemma Ends(e: Env, fmt: seq<char>, maxlen: int, start: nat, arg0: nat, r: Regs, text: seq<char>, all: Output)
    requires r.i <= |fmt| && (r.i == |fmt| || maxlen <= |text|)
    requires r.state == Default ==> all == Then(text, Format(e, fmt, maxlen, r.i, r.arg, |text|))
    requires r.state != Default ==>
      && 0 < start <= |fmt| && ReadSoFar(e, fmt, start, arg0, r) && |text| < maxlen && fmt[start - 1] == '%'
      && all == Then(text, Format(e, fmt, maxlen, start - 1, arg0, |text|))
    ensures all == Text(text)
  {
    hide DirectiveAt, Convert;
    ThenAssociates(text, [], Text([]));
    if r.state != Default { ReadAll(e, fmt, start, arg0, r); }
  }

  lemma SkipsPastEnd(e: Env, fmt: seq<char>, maxlen: int, start: nat, arg0: nat, r: Regs, text: seq<char>, all: Output)
    requires 0 < start <= |fmt| && |text| < maxlen && fmt[start - 1] == '%' && r.i + 1 == |fmt| && fmt[r.i] == 'w'
    requires DirectiveAt(e, fmt, start, arg0) == Some(Directive(r.flags, r.min, r.max, r.size, 'w', r.i + 1, r.arg))
    requires all == Then(text, Format(e, fmt, maxlen, start - 1, arg0, |text|))
    ensures all == Overrun
  {
    hide DirectiveAt, Convert;
  }

  lemma SkipPrintsNothing(e: Env, d: Directive, maxlen: int)
    requires d.conv == 'w'
    ensures Convert(e, d, maxlen) == ([], 0)
  {
  }

  lemma DirectiveStep(e: Env, fmt: seq<char>, maxlen: int, start: nat, arg0: nat, r: Regs, text: seq<char>, all: Output)
    requires 0 < start <= |fmt| && |text| < maxlen && fmt[start - 1] == '%' && r.i < |fmt|
    requires fmt[r.i] == 'w' ==> r.i + 1 < |fmt|
    requires DirectiveAt(e, fmt, start, arg0) == Some(Directive(r.flags, r.min, r.max, r.size, fmt[r.i], r.i + 1, r.arg))
    requires all == Then(text, Format(e, fmt, maxlen, start - 1, arg0, |text|))
    ensures var (t, n) := Convert(e, Directive(r.flags, r.min, r.max, r.size, fmt[r.i], r.i + 1, r.arg), maxlen);
      all == Then(text + t, Format(e, fmt, maxlen, if fmt[r.i] == 'w' then r.i + 2 else r.i + 1, r.arg + n, |text + t|))
  {
    hide DirectiveAt, Convert;
    var d := Directive(r.flags, r.min, r.max, r.size, fmt[r.i], r.i + 1, r.arg);
    var (t, n) := Convert(e, d, maxlen);
    if fmt[r.i] == 'w' {
      SkipPrintsNothing(e, d, maxlen);
      assert text + [] == text;
    } else {
      ThenAssociates(text, t, Format(e, fmt, maxlen, r.i + 1, r.arg + n, |text| + |t|));
    }
  }

  // ----- reading past the end of the format

  /** Where a run of digits with perhaps a star ends. */
  function NumberEnd(fmt: seq<char>, i: nat): (j: nat)
    requires i <= |fmt|
    ensures i <= j <= |fmt|
  {
    var j := RunEnd(fmt, i, IsDigit);
    if CharAt(fmt, j) == Some('*') then j + 1 else j
  }

  /** The position of the conversion of the directive that follows a percent sign; the
      length of the format if there is none. */
  function ConversionAt(fmt: seq<char>, i: nat): (c: nat)
    requires i <= |fmt|
    ensures i <= c <= |fmt|
  {
    var m := NumberEnd(fmt, RunEnd(fmt, i, IsFlag));
    var p := if CharAt(fmt, m) == Some('.') then NumberEnd(fmt, m + 1) else m;
    if SizeOf(CharAt(fmt, p)).Plain? then p else p + 1
  }

  /** Scanning the format alone, the last directive is a %w that ends it. */
  predicate EndsInSkip(fmt: seq<char>, i: nat)
    requires i <= |fmt|
    decreases |fmt| - i
  {
    if i == |fmt| then false
    else if fmt[i] != '%' then EndsInSkip(fmt, i + 1)
    else
      var c := ConversionAt(fmt, i + 1);
      if c == |fmt| then false
      else if fmt[c] != 'w' then EndsInSkip(fmt, c + 1)
      else c + 1 == |fmt| || EndsInSkip(fmt, c + 2)
  }

  /** How many characters are out when the scan reaches its last directive. */
  function PrintedBefore(e: Env, fmt: seq<char>, maxlen: int, i: nat, arg: nat, len: nat): (n: nat)
    requires i <= |fmt|
    ensures len <= n
    decreases |fmt| - i
  {
    if i == |fmt| then len
    else if fmt[i] != '%' then PrintedBefore(e, fmt, maxlen, i + 1, arg, len + 1)
    else
      match DirectiveAt(e, fmt, i + 1, arg)
      case None => len
      case Some(d) =>
        if d.conv != 'w' then
          var (t, n) := Convert(e, d, maxlen);
          PrintedBefore(e, fmt, maxlen, d.end, d.arg + n, len + |t|)
        else if d.end == |fmt| then len
        else PrintedBefore(e, fmt, maxlen, d.end + 1, d.arg, len)
  }

  /** Where a directive ends does not depend on the arguments. */
  lemma DirectiveEnds(e: Env, fmt: seq<char>, i: nat, arg: nat)
    requires i <= |fmt|
    ensures var c := ConversionAt(fmt, i);
      match DirectiveAt(e, fmt, i, arg)
      case None => c == |fmt|
      case Some(d) => c < |fmt| && d.conv == fmt[c] && d.end == c + 1
  {
    hide RunEnd, FlagsIn, Decimal, Signed;
  }

  /** dopr reads past the end of its format exactly when the format, scanned by itself, ends
      in a %w, and the limit is not reached before that directive. */
  lemma {:induction false} OverrunIff(e: Env, fmt: seq<char>, maxlen: int, i: nat, arg: nat, len: nat)
    requires i <= |fmt|
    ensures Format(e, fmt, maxlen, i, arg, len).Overrun?
       <==> EndsInSkip(fmt, i) && PrintedBefore(e, fmt, maxlen, i, arg, len) < maxlen
    decreases |fmt| - i
  {
    hide Convert, DirectiveAt, ConversionAt;
    if i < |fmt| {
      if fmt[i] != '%' {
        OverrunIff(e, fmt, maxlen, i + 1, arg, len + 1);
      } else {
        DirectiveEnds(e, fmt, i + 1, arg);
        match DirectiveAt(e, fmt, i + 1, arg) {
          case None =>
          case Some(d) =>
            if d.conv != 'w' {
              var (t, n) := Convert(e, d, maxlen);
              OverrunIff(e, fmt, maxlen, d.end, d.arg + n, len + |t|);
            } else if d.end < |fmt| {
              OverrunIff(e, fmt, maxlen, d.end + 1, d.arg, len);
            }
        }
      }
    }
  }

  lemma {:induction false} SkipIsLast(fmt: seq<char>, i: nat)
    requires i <= |fmt| && EndsInSkip(fmt, i)
    ensures fmt[|fmt| - 1] == 'w'
    decreases |fmt| - i
  {
    hide ConversionAt;
    if fmt[i] != '%' {
      SkipIsLast(fmt, i + 1);
    } else {
      var c := ConversionAt(fmt, i + 1);
      if fmt[c] != 'w' {
        SkipIsLast(fmt, c + 1);
      } else if c + 1 < |fmt| {
        SkipIsLast(fmt, c + 2);
      }
    }
  }

  /** A format that does not end in the letter w is safe, whatever the arguments. */
  lemma StaysInside(e: Env, fmt: seq<char>, maxlen: int)
    requires fmt == [] || fmt[|fmt| - 1] != 'w'
    ensures Format(e, fmt, maxlen, 0, 0, 0).Text?
  {
    OverrunIff(e, fmt, maxlen, 0, 0, 0);
    if EndsInSkip(fmt, 0) { SkipIsLast(fmt, 0); }
  }

  /** The shortest format that is not. */
  lemma SkipAtTheEnd(e: Env, maxlen: int)
    requires 0 < maxlen
    ensures Format(e, "%w", maxlen, 0, 0, 0).Overrun?
  {
    var fmt := "%w";
    assert RunEnd(fmt, 1, IsFlag) == 1 && RunEnd(fmt, 1, IsDigit) == 1;
    assert ConversionAt(fmt, 1) == 1 && EndsInSkip(fmt, 0);
    DirectiveEnds(e, fmt, 1, 0);
    OverrunIff(e, fmt, maxlen, 0, 0, 0);
  }

  /** Text without percent signs is printed as it is, up to the limit. */
  lemma {:induction false} PlainText(e: Env, fmt: seq<char>, maxlen: int, i: nat, arg: nat, len: nat)
    requires i <= |fmt| && '%' !in fmt
    ensures Format(e, fmt, maxlen, i, arg, len) == Text(Take(fmt[i..], maxlen - len))
    decreases |fmt| - i
  {
    if len < maxlen && i < |fmt| {
      assert fmt[i] in fmt;
      PlainText(e, fmt, maxlen, i + 1, arg, len + 1);
      assert Take(fmt[i..], maxlen - len) == [fmt[i]] + Take(fmt[i + 1..], maxlen - len - 1);
    }
  }
}
