/** The text a format stands for in misc/vsnprintf.c, whatever room there is. */
module FormatSpec {
  import opened Wrappers
  import opened Numbers
  import opened Digits

  datatype Flags = Flags(minus: bool, plus: bool, space: bool, num: bool, zero: bool, up: bool, unsigned: bool)

  const NO_FLAGS := Flags(false, false, false, false, false, false, false)

  datatype Modifier = Plain | Short | Long | LongDouble

  /** An argument: a number, a string, which may be null, a floating point number, given
      by what fmtfp prints for it, or a place to store a number in. */
  datatype Arg = Number(n: int) | Str(s: Option<string>) | Real(shown: string) | Place

  /** A %n: how much text comes before it, and the type of number it stores. */
  datatype Mark = Mark(at: nat, modifier: Modifier)

  /** The text of a format, and the places in it that are asked for. */
  datatype Text = Text(chars: string, marks: seq<Mark>)

  function Just(s: string): Text {
    Text(s, [])
  }

  function Shift(marks: seq<Mark>, n: nat): seq<Mark> {
    seq(|marks|, i requires 0 <= i < |marks| => marks[i].(at := marks[i].at + n))
  }

  /** One text after another. */
  function Then(a: Text, b: Text): Text {
    Text(a.chars + b.chars, a.marks + Shift(b.marks, |a.chars|))
  }

  lemma ThenAssociates(a: Text, b: Text, c: Text)
    ensures Then(Then(a, b), c) == Then(a, Then(b, c))
  {
    assert a.chars + b.chars + c.chars == a.chars + (b.chars + c.chars);
    var n, k := |a.chars|, |b.chars|;
    assert Shift(Shift(c.marks, k), n) == Shift(c.marks, n + k);
    assert Shift(b.marks + Shift(c.marks, k), n) == Shift(b.marks, n) + Shift(Shift(c.marks, k), n);
  }

  lemma NothingBefore(t: Text)
    ensures Then(Just(""), t) == t && Then(t, Just("")) == t
  {
    assert "" + t.chars == t.chars && t.chars + "" == t.chars;
    assert Shift(t.marks, 0) == t.marks;
  }

  // ----- Fields

  function Repeat(c: char, n: int): (s: string)
    ensures |s| == Max(n, 0) && forall i :: 0 <= i < |s| ==> s[i] == c
    decreases Max(n, 0)
  {
    if n <= 0 then "" else [c] + Repeat(c, n - 1)
  }

  /** What fmtstr prints of a string. */
  function Shown(value: Option<string>, max: int): string {
    var v := if value.Some? then value.value else "<NULL>";
    if 0 <= max < |v| then v[..max] else v
  }

  /** fmtstr: at most `max` characters, in a field of at least `min`. */
  function StringField(value: Option<string>, flags: Flags, min: int, max: int): string {
    var shown := Shown(value, max);
    var pad := Repeat(' ', min - |shown|);
    if flags.minus then shown + pad else pad + shown
  }

  /** The sign fmtint prints. */
  function Sign(value: int, flags: Flags): string {
    if flags.unsigned then ""
    else if value < 0 then "-" else if flags.plus then "+" else if flags.space then " " else ""
  }

  function Magnitude(value: int): nat {
    if value < 0 then -value else value
  }

  /** The padding of a number: zeros before the digits, spaces around it all. */
  function ZeroPad(digits: nat, sign: nat, flags: Flags, min: int, max: int): int {
    var zeros := Max(Max(max, 0) - digits, 0);
    if flags.zero then Max(zeros, SpaceRoom(digits, sign, min, max)) else zeros
  }

  function SpaceRoom(digits: nat, sign: nat, min: int, max: int): int {
    Max(min - Max(Max(max, 0), digits) - sign, 0)
  }

  function SpacePad(digits: nat, sign: nat, flags: Flags, min: int, max: int): int {
    if flags.zero then 0 else SpaceRoom(digits, sign, min, max)
  }

  /** fmtint. */
  function NumberField(value: int, base: nat, flags: Flags, min: int, max: int): string
    requires IsBase(base)
  {
    var sign, digits := Sign(value, flags), Printed(Magnitude(value), base, flags.up);
    var body := sign + Repeat('0', ZeroPad(|digits|, |sign|, flags, min, max)) + digits;
    var pad := Repeat(' ', SpacePad(|digits|, |sign|, flags, min, max));
    if flags.minus then body + pad else pad + body
  }

  /** A string field is as wide as asked, or as its text. */
  lemma StringFieldWidth(value: Option<string>, flags: Flags, min: int, max: int)
    ensures |StringField(value, flags, min, max)| == Max(min, |Shown(value, max)|)
  {
  }

  /** A number field is as wide as asked, except with zeros for padding and a
      precision that already adds zeros but does not fill the field. */
  lemma NumberFieldWidthIff(value: int, base: nat, flags: Flags, min: int, max: int)
    requires IsBase(base)
    ensures var sign, digits := |Sign(value, flags)|, |Printed(Magnitude(value), base, flags.up)|;
            |NumberField(value, base, flags, min, max)| >= min <==> !(flags.zero && max > digits && min > max + sign)
  {
  }

  // ----- Integer widths

  function Modulus(m: Modifier): nat {
    match m
    case Short => 0x1_0000
    case Long => 0x1_0000_0000_0000_0000
    case _ => 0x1_0000_0000
  }

  /** An argument fetched as an unsigned or signed type of the modifier's width. */
  function Unsigned(n: int, m: Modifier): int {
    n % Modulus(m)
  }

  function Signed(n: int, m: Modifier): int {
    var u := n % Modulus(m);
    if u >= Modulus(m) / 2 then u - Modulus(m) else u
  }

  // ----- Directives

  predicate IsFlag(c: char) {
    c in "-+ #0"
  }

  function AddFlag(flags: Flags, c: char): Flags {
    match c
    case '-' => flags.(minus := true)
    case '+' => flags.(plus := true)
    case ' ' => flags.(space := true)
    case '#' => flags.(num := true)
    case _ => flags.(zero := true)
  }

  predicate IsDigit(c: char) {
    '0' <= c <= '9'
  }

  /** The part of a format from its first character that is not a flag. */
  function SkipFlags(f: string): (r: string)
    ensures |r| <= |f|
  {
    if f != "" && IsFlag(f[0]) then SkipFlags(f[1..]) else f
  }

  function ReadFlags(flags: Flags, f: string): Flags
    decreases |f|
  {
    if f != "" && IsFlag(f[0]) then ReadFlags(AddFlag(flags, f[0]), f[1..]) else flags
  }

  function SkipDigits(f: string): (r: string)
    ensures |r| <= |f|
  {
    if f != "" && IsDigit(f[0]) then SkipDigits(f[1..]) else f
  }

  /** A decimal number continued; a negative start means none has been read. */
  function ReadDigits(n: int, f: string): int
    decreases |f|
  {
    if f != "" && IsDigit(f[0]) then ReadDigits(10 * Max(n, 0) + (f[0] as int - '0' as int), f[1..]) else n
  }

  /** A conversion and its argument as text; %e and %g take their argument and print
      nothing, %w has no meaning of its own. */
  function Convert(c: char, flags: Flags, min: int, max: int, m: Modifier, args: seq<Arg>): Option<Text> {
    match c
    case '%' => Some(Just("%"))
    case 's' => if args != [] && args[0].Str? then Some(Just(StringField(args[0].s, flags, min, max))) else None
    case 'c' => if args != [] && args[0].Number? then Some(Just([(args[0].n % 256) as char])) else None
    case 'f' => if args != [] && args[0].Real? then Some(Just(args[0].shown)) else None
    case 'n' => if args != [] && args[0].Place? then Some(Text("", [Mark(0, m)])) else None
    case _ =>
      if c in "diouxXp" then
        if args != [] && args[0].Number? then Some(Just(Integer(c, flags, min, max, m, args[0].n))) else None
      else if c in "eEgG" then
        if args != [] && args[0].Real? then Some(Just("")) else None
      else Some(Just(""))
  }

  /** An integer conversion: base, flags and the type its argument is fetched with. */
  function BaseOf(c: char): nat {
    if c == 'o' then 8 else if c == 'x' || c == 'X' || c == 'p' then 16 else 10
  }

  predicate IsUnsigned(c: char) {
    c == 'o' || c == 'u' || c == 'x' || c == 'X'
  }

  function FlagsOf(c: char, flags: Flags): Flags {
    flags.(unsigned := flags.unsigned || IsUnsigned(c), up := flags.up || c == 'X')
  }

  function Fetched(c: char, m: Modifier, n: int): int {
    if IsUnsigned(c) then Unsigned(n, m) else Signed(n, if c == 'p' then Long else m)
  }

  function Integer(c: char, flags: Flags, min: int, max: int, m: Modifier, n: int): string {
    NumberField(Fetched(c, m, n), BaseOf(c), FlagsOf(c, flags), min, max)
  }

  /** Does a conversion take an argument? */
  predicate Takes(c: char) {
    c in "scdiouxXpfneEgG"
  }

  function Joined(t: Text, rest: Option<Text>): Option<Text> {
    if rest.None? then None else Some(Then(t, rest.value))
  }

  /** The text of a format with its arguments; None where the C code has no defined
      meaning: an argument is missing or of the wrong type, or %w ends the format. */
  function Format(f: string, args: seq<Arg>): Option<Text>
    decreases |f|, 0
  {
    if f == "" then Some(Just(""))
    else if f[0] == '%' then FromFlags(NO_FLAGS, f[1..], args)
    else Joined(Just([f[0]]), Format(f[1..], args))
  }

  function FromFlags(flags: Flags, f: string, args: seq<Arg>): Option<Text>
    decreases |f|, 6
  {
    FromMin(ReadFlags(flags, f), 0, SkipFlags(f), args)
  }

  /** A width: digits, or an argument. */
  function FromMin(flags: Flags, min: int, f: string, args: seq<Arg>): Option<Text>
    decreases |f|, 5
  {
    var f' := SkipDigits(f);
    if f' != "" && f'[0] == '*' then
      if args != [] && args[0].Number? then FromDot(flags, args[0].n, f'[1..], args[1..]) else None
    else FromDot(flags, ReadDigits(min, f), f', args)
  }

  /** A precision, after a point. */
  function FromDot(flags: Flags, min: int, f: string, args: seq<Arg>): Option<Text>
    decreases |f|, 4
  {
    if f != "" && f[0] == '.' then FromMax(flags, min, -1, f[1..], args) else FromModifier(flags, min, -1, f, args)
  }

  function FromMax(flags: Flags, min: int, max: int, f: string, args: seq<Arg>): Option<Text>
    decreases |f|, 3
  {
    var f' := SkipDigits(f);
    if f' != "" && f'[0] == '*' then
      if args != [] && args[0].Number? then FromModifier(flags, min, args[0].n, f'[1..], args[1..]) else None
    else FromModifier(flags, min, ReadDigits(max, f), f', args)
  }

  function FromModifier(flags: Flags, min: int, max: int, f: string, args: seq<Arg>): Option<Text>
    decreases |f|, 2
  {
    if f != "" && f[0] == 'h' then FromConversion(flags, min, max, Short, f[1..], args)
    else if f != "" && f[0] == 'l' then FromConversion(flags, min, max, Long, f[1..], args)
    else if f != "" && f[0] == 'L' then FromConversion(flags, min, max, LongDouble, f[1..], args)
    else FromConversion(flags, min, max, Plain, f, args)
  }

  /** The conversion, and the rest of the format; a directive cut short is nothing, and
      %w takes the next character with it. */
  function FromConversion(flags: Flags, min: int, max: int, m: Modifier, f: string, args: seq<Arg>): Option<Text>
    decreases |f|, 1
  {
    if f == "" then Some(Just(""))
    else if f[0] == 'w' then if |f| == 1 then None else Format(f[2..], args)
    else
      var text := Convert(f[0], flags, min, max, m, args);
      if text.None? then None else Joined(text.value, Format(f[1..], if Takes(f[0]) then args[1..] else args))
  }

  // ----- Instances

  /** A point without digits or '*' behind it is no precision at all. */
  lemma PointAloneIsNoPrecision(flags: Flags, min: int, f: string, args: seq<Arg>)
    requires f != "" && f[0] == '.' && (|f| > 1 ==> !IsDigit(f[1]) && f[1] != '*')
    ensures FromDot(flags, min, f, args) == FromModifier(flags, min, -1, f[1..], args)
  {
  }

  lemma NoFlagsNoWidth(f: string, args: seq<Arg>)
    requires f != "" && !IsFlag(f[0]) && !IsDigit(f[0]) && f[0] != '*'
    ensures FromFlags(NO_FLAGS, f, args) == FromDot(NO_FLAGS, 0, f, args)
  {
  }

  lemma StringFormat(f: string, v: string)
    requires |f| == 3 && f[0] == '%' && f[1] == '.' && f[2] == 's'
    ensures Format(f, [Str(Some(v))]) == Some(Just(v))
  {
    var args := [Str(Some(v))];
    NoFlagsNoWidth(f[1..], args);
    assert f[1..][0] == '.' && f[1..][1..] == f[2..] && f[2..][0] == 's' && f[2..][1..] == "";
    PointAloneIsNoPrecision(NO_FLAGS, 0, f[1..], args);
    var field := StringField(Some(v), NO_FLAGS, 0, -1);
    assert field == v;
    NothingBefore(Just(v));
    assert FromConversion(NO_FLAGS, 0, -1, Plain, f[2..], args) == Some(Just(v));
  }

  /** So %.s prints all of a string. */
  lemma PointPrintsAll(v: string)
    ensures Format("%.s", [Str(Some(v))]) == Some(Just(v))
  {
    StringFormat("%.s", v);
  }

  lemma NarrowField(flags: Flags)
    requires flags == NO_FLAGS.(zero := true)
    ensures Convert('d', flags, 8, 5, Plain, [Number(1)]).Some?
    ensures |Convert('d', flags, 8, 5, Plain, [Number(1)]).value.chars| == 5
  {
    assert Fetched('d', Plain, 1) == 1;
    assert Printed(1, 10, false) == [Digit(1, false)];
    assert |NumberField(1, 10, flags, 8, 5)| == 5;
  }

  lemma OneDigit(n: int, f: string)
    requires |f| > 1 && IsDigit(f[0]) && !IsDigit(f[1]) && n <= 0
    ensures SkipDigits(f) == f[1..] && ReadDigits(n, f) == f[0] as int - '0' as int
  {
    assert f[1..][0] == f[1];
  }

  lemma OneFlag(f: string)
    requires |f| > 1 && IsFlag(f[0]) && !IsFlag(f[1])
    ensures SkipFlags(f) == f[1..] && ReadFlags(NO_FLAGS, f) == AddFlag(NO_FLAGS, f[0])
  {
    assert f[1..][0] == f[1];
  }

  /** A format that is one conversion with a flag, a width and a precision. */
  lemma FullFormat(f: string, args: seq<Arg>, t: Text)
    requires |f| == 6 && f[0] == '%' && f[1] == '0' && f[2] == '8' && f[3] == '.' && f[4] == '5' && f[5] == 'd'
    requires args != [] && Convert('d', NO_FLAGS.(zero := true), 8, 5, Plain, args) == Some(t)
    ensures Format(f, args) == Some(t)
  {
    var flags, f1, f2, f3, f4, f5 := NO_FLAGS.(zero := true), f[1..], f[2..], f[3..], f[4..], f[5..];
    assert f1[1..] == f2 && f2[1..] == f3 && f3[1..] == f4 && f4[1..] == f5;
    Ends(f5, flags, args, t);
    PrecisionFormat(f3, f4, f5, flags, args, t);
    WidthFormat(f2, f3, flags, args, t);
    FlagFormat(f1, f2, args, t);
  }

  lemma PrecisionFormat(f: string, g: string, h: string, flags: Flags, args: seq<Arg>, t: Text)
    requires |f| == 3 && f[0] == '.' && g == f[1..] && g[0] == '5' && h == g[1..] && h[0] == 'd'
    requires FromModifier(flags, 8, 5, h, args) == Some(t)
    ensures FromDot(flags, 8, f, args) == Some(t)
  {
    OneDigit(-1, g);
    assert FromMax(flags, 8, -1, g, args) == Some(t);
  }

  lemma WidthFormat(f: string, g: string, flags: Flags, args: seq<Arg>, t: Text)
    requires |f| > 1 && f[0] == '8' && g == f[1..] && g[0] == '.' && FromDot(flags, 8, g, args) == Some(t)
    ensures FromMin(flags, 0, f, args) == Some(t)
  {
    OneDigit(0, f);
  }

  lemma FlagFormat(f: string, g: string, args: seq<Arg>, t: Text)
    requires |f| > 1 && f[0] == '0' && g == f[1..] && g[0] == '8'
    requires FromMin(NO_FLAGS.(zero := true), 0, g, args) == Some(t)
    ensures FromFlags(NO_FLAGS, f, args) == Some(t)
  {
    OneFlag(f);
  }

  lemma Ends(f: string, flags: Flags, args: seq<Arg>, t: Text)
    requires |f| == 1 && f[0] == 'd' && args != [] && Convert('d', flags, 8, 5, Plain, args) == Some(t)
    ensures FromModifier(flags, 8, 5, f, args) == Some(t)
  {
    assert f[1..] == "";
    NothingBefore(t);
    assert FromConversion(flags, 8, 5, Plain, f, args) == Some(t);
  }

  /** Five characters where eight were asked for. */
  lemma ZeroPaddingCanBeNarrow()
    ensures Format("%08.5d", [Number(1)]).Some? && |Format("%08.5d", [Number(1)]).value.chars| == 5
  {
    var flags, args := NO_FLAGS.(zero := true), [Number(1)];
    NarrowField(flags);
    FullFormat("%08.5d", args, Convert('d', flags, 8, 5, Plain, args).value);
  }

  lemma PlainField(n: nat)
    ensures NumberField(n, 10, NO_FLAGS.(unsigned := true), 0, -1) == Printed(n, 10, false)
  {
  }

  /** A format that is one conversion of a long argument. */
  lemma LongFormat(f: string, c: char, args: seq<Arg>, t: Text)
    requires |f| == 3 && f[0] == '%' && f[1] == 'l' && f[2] == c && c != 'w' && Takes(c)
    requires args != [] && Convert(c, NO_FLAGS, 0, -1, Long, args) == Some(t)
    ensures Format(f, args) == Some(t)
  {
    var g, h := f[1..], f[2..];
    assert g[0] == 'l' && g[1..] == h && h[0] == c && h[1..] == "";
    NoFlagsNoWidth(g, args);
    NothingBefore(t);
    assert FromConversion(NO_FLAGS, 0, -1, Long, h, args) == Some(t);
    assert FromModifier(NO_FLAGS, 0, -1, g, args) == Some(t);
  }

  lemma UnsignedConversion(n: nat)
    requires n < 0x1_0000_0000_0000_0000
    ensures Convert('u', NO_FLAGS, 0, -1, Long, [Number(n)]) == Some(Just(Printed(n, 10, false)))
  {
    assert Fetched('u', Long, n) == n && FlagsOf('u', NO_FLAGS) == NO_FLAGS.(unsigned := true);
    PlainField(n);
  }

  /** A 64-bit number printed by %lu reads back exactly when it is below 10^19. */
  lemma UnsignedReadsBackIff(n: nat)
    requires n < 0x1_0000_0000_0000_0000
    ensures Format("%lu", [Number(n)]).Some?
    ensures Value(Format("%lu", [Number(n)]).value.chars, 10) == n <==> n < 10000000000000000000
  {
    UnsignedConversion(n);
    LongFormat("%lu", 'u', [Number(n)], Just(Printed(n, 10, false)));
    PrintedMeansItsNumberIff(n, 10, false);
    Power19();
  }
}
