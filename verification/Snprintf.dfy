/** Formatting into a buffer of fixed size (misc/vsnprintf.c). */
module Snprintf {
  import opened Wrappers
  import opened Numbers
  import opened Digits
  import opened FormatSpec

  lemma RepeatSnoc(c: char, n: nat)
    ensures Repeat(c, n) + [c] == Repeat(c, n + 1)
  {
    assert |Repeat(c, n) + [c]| == |Repeat(c, n + 1)|;
  }

  lemma StoredNext(b: seq<char>, out: string, initial: seq<char>, n: nat, c: char)
    requires n < |initial| && n <= |out| && b == out[..n] + initial[n..]
    requires n == |out|
    ensures n < |b| && b[n := c] == (out + [c])[..n + 1] + initial[n + 1..]
  {
  }

  lemma Append3(s: string, a: string, b: string, c: string)
    ensures s + a + b + c == s + (a + b + c)
  {
  }

  lemma Append5(s: string, a: string, b: string, c: string, d: string, e: string)
    ensures s + a + b + c + d + e == s + (a + b + c + d + e)
  {
  }

  lemma NumberFieldIs(value: int, base: nat, flags: Flags, min: int, max: int,
                      before: int, sign: string, zeros: int, digits: string, after: int)
    requires IsBase(base) && sign == Sign(value, flags) && digits == Printed(Magnitude(value), base, flags.up)
    requires zeros == ZeroPad(|digits|, |sign|, flags, min, max)
    requires before == (if flags.minus then 0 else SpacePad(|digits|, |sign|, flags, min, max))
    requires after == (if flags.minus then SpacePad(|digits|, |sign|, flags, min, max) else 0)
    ensures NumberField(value, base, flags, min, max) ==
            Repeat(' ', before) + sign + Repeat('0', zeros) + digits + Repeat(' ', after)
  {
    if flags.minus {
      assert Repeat(' ', before) == "";
    } else {
      assert Repeat(' ', after) == "";
    }
  }

  lemma StringFieldIs(value: Option<string>, flags: Flags, min: int, max: int, before: int, shown: string, after: int)
    requires shown == Shown(value, max)
    requires before == (if flags.minus then 0 else Max(min - |shown|, 0))
    requires after == (if flags.minus then Max(min - |shown|, 0) else 0)
    ensures StringField(value, flags, min, max) == Repeat(' ', before) + shown + Repeat(' ', after)
  {
    assert Repeat(' ', min - |shown|) == Repeat(' ', Max(min - |shown|, 0));
  }

  lemma DividedSmall(u: nat, base: nat)
    requires IsBase(base)
    ensures u / base == 0 <==> u < base
    ensures u < base ==> u % base == u
    ensures 0 <= u / base && 0 <= u % base < 16
  {
    if base == 8 {
    } else if base == 10 {
    } else {
    }
  }

  /** The array holds `s` backwards. */
  ghost predicate Backwards(a: array<char>, s: string)
    reads a
  {
    |s| <= a.Length && forall i :: 0 <= i < |s| ==> a[i] == s[|s| - 1 - i]
  }

  /** What is left of the numeral of `value` when `low` has been split off. */
  ghost predicate SplitOff(value: nat, u: nat, low: string, base: nat, caps: bool)
    requires IsBase(base)
  {
    Numeral(value, base, caps) == (if u == 0 && low != "" then "" else Numeral(u, base, caps)) + low
  }

  lemma SplitOneMore(value: nat, u: nat, low: string, base: nat, caps: bool)
    requires IsBase(base) && SplitOff(value, u, low, base, caps) && (u != 0 || low == "") && u % base < 16
    ensures SplitOff(value, u / base, [Digit(u % base, caps)] + low, base, caps)
  {
    DividedSmall(u, base);
    if u < base {
      SplitLast(value, u, low, base, caps);
    } else {
      SplitMiddle(value, u, low, base, caps);
    }
  }

  lemma SplitLast(value: nat, u: nat, low: string, base: nat, caps: bool)
    requires IsBase(base) && SplitOff(value, u, low, base, caps) && (u != 0 || low == "") && u < base && u / base == 0
    ensures SplitOff(value, 0, [Digit(u, caps)] + low, base, caps)
  {
    var d := Digit(u, caps);
    assert Numeral(u, base, caps) == [d];
    assert [d] + low == "" + ([d] + low);
  }

  lemma SplitMiddle(value: nat, u: nat, low: string, base: nat, caps: bool)
    requires IsBase(base) && SplitOff(value, u, low, base, caps) && u >= base && 0 < u / base < u && u % base < 16
    ensures SplitOff(value, u / base, [Digit(u % base, caps)] + low, base, caps)
  {
    var t, d := Numeral(u / base, base, caps), Digit(u % base, caps);
    assert Numeral(u, base, caps) == t + [d];
    assert t + [d] + low == t + ([d] + low);
  }

  lemma PrintedIs(value: nat, u: nat, low: string, base: nat, caps: bool)
    requires IsBase(base) && SplitOff(value, u, low, base, caps) && 1 <= |low| <= 20 && (u == 0 || |low| == 20)
    ensures Printed(value, base, caps) == if |low| == 20 then low[1..] else low
  {
    var n := Numeral(value, base, caps);
    assert u == 0 ==> n == low;
    if |low| == 20 {
      assert n[|n| - 19..] == low[1..];
    }
  }

  /** The digit loop of fmtint: the printed digits, last one first. */
  method MakeDigits(convert: array<char>, value: nat, base: nat, caps: bool) returns (place: nat)
    requires convert.Length == 20 && IsBase(base)
    modifies convert
    ensures Backwards(convert, Printed(value, base, caps)) && place == |Printed(value, base, caps)|
  {
    var u: nat := value;
    ghost var low := "";
    place := 0;
    var more := true;
    assert Numeral(u, base, caps) + "" == Numeral(u, base, caps);
    while more
      invariant place == |low| <= 20 && Backwards(convert, low)
      invariant SplitOff(value, u, low, base, caps)
      invariant if more then place < 20 && (u != 0 || low == "") else place >= 1 && (u == 0 || place == 20)
      decreases more, 20 - place
    {
      DividedSmall(u, base);
      SplitOneMore(value, u, low, base, caps);
      StoreDigit(convert, place, Digit(u % base, caps), low);
      low := [Digit(u % base, caps)] + low;
      place := place + 1;
      u := u / base;
      more := u != 0 && place < 20;
    }
    PrintedIs(value, u, low, base, caps);
    if place == 20 { place := place - 1; }
    convert[place] := 0 as char;
  }

  method StoreDigit(convert: array<char>, place: nat, c: char, ghost low: string)
    requires place == |low| < convert.Length && Backwards(convert, low)
    modifies convert
    ensures Backwards(convert, [c] + low)
  {
    convert[place] := c;
  }

  method SignOf(value: int, flags: Flags) returns (sign: string)
    ensures sign == Sign(value, flags)
  {
    sign := "";
    if !flags.unsigned {
      if value < 0 {
        sign := "-";
      } else if flags.plus {
        sign := "+";
      } else if flags.space {
        sign := " ";
      }
    }
  }

  /** How much text a buffer of the given size takes: room is kept for a NUL. */
  function Room(size: nat): nat {
    if size == 0 then 0 else size - 1
  }

  /** What %n stores: the number of characters in the buffer, in the type asked for. */
  function Stores(marks: seq<Mark>, size: nat): seq<int> {
    seq(|marks|, i requires 0 <= i < |marks| => Signed(Min(marks[i].at, Room(size)), marks[i].modifier))
  }

  /** The buffer and its size, how much of it is filled, what %n has stored, and all that
      was ever printed. */
  class Sink {
    const buffer: array?<char>
    const size: nat
    var currlen: nat
    var stores: seq<int>
    ghost var out: string
    ghost var marks: seq<Mark>
    ghost const initial: seq<char>

    /** The buffer starts with as much of the output as it has room for, and is as it was
        from there on. */
    ghost predicate Valid()
      reads this, buffer
    {
      && currlen == Min(|out|, Room(size)) && stores == Stores(marks, size)
      && if buffer == null then size <= 1
         else size <= buffer.Length == |initial| && buffer[..] == out[..currlen] + initial[currlen..]
    }

    ghost function Done(): Text
      reads this
    {
      Text(out, marks)
    }

    constructor (buffer: array?<char>, size: nat)
      requires if buffer == null then size <= 1 else size <= buffer.Length
      ensures this.buffer == buffer && this.size == size && Valid() && Done() == Just("")
      ensures buffer != null ==> initial == buffer[..]
    {
      this.buffer, this.size, currlen, stores, out, marks := buffer, size, 0, [], "", [];
      initial := if buffer == null then [] else buffer[..];
    }

    /** dopr_outch. */
    method Outch(c: char) returns (n: nat)
      requires Valid()
      modifies this`currlen, this`out, buffer
      ensures Valid() && out == old(out) + [c] && n == 1
    {
      if currlen + 1 < size {
        StoredNext(buffer[..], out, initial, currlen, c);
        buffer[currlen] := c;
        currlen := currlen + 1;
      }
      out := out + [c];
      return 1;
    }

    /** %n. */
    method Note(m: Modifier)
      requires Valid()
      modifies this`stores, this`marks
      ensures Valid() && marks == old(marks) + [Mark(|out|, m)]
    {
      ghost var before := marks;
      marks := marks + [Mark(|out|, m)];
      assert Stores(marks, size) == Stores(before, size) + [Signed(currlen, m)];
      stores := stores + [Signed(currlen, m)];
    }

    method Fill(c: char, count: int) returns (total: nat)
      requires Valid()
      modifies this`currlen, this`out, buffer
      ensures Valid() && out == old(out) + Repeat(c, count) && total == |Repeat(c, count)|
    {
      total := 0;
      var i := 0;
      ghost var start := out;
      assert out == start + Repeat(c, 0);
      while i < count
        invariant 0 <= i <= Max(count, 0)
        invariant Valid() && out == start + Repeat(c, i) && total == i
      {
        RepeatSnoc(c, i);
        assert start + Repeat(c, i + 1) == start + Repeat(c, i) + [c];
        var n := Outch(c);
        total := total + n;
        i := i + 1;
      }
    }

    method Copy(s: string) returns (total: nat)
      requires Valid()
      modifies this`currlen, this`out, buffer
      ensures Valid() && out == old(out) + s && total == |s|
    {
      total := 0;
      ghost var start := out;
      assert out == start + s[..0];
      for i := 0 to |s|
        invariant Valid() && out == start + s[..i] && total == i
      {
        assert s[..i + 1] == s[..i] + [s[i]];
        assert start + s[..i + 1] == start + s[..i] + [s[i]];
        var n := Outch(s[i]);
        total := total + n;
      }
      assert s[..|s|] == s;
    }

    /** fmtstr. */
    method Fmtstr(value: Option<string>, flags: Flags, min: int, max: int) returns (total: nat)
      requires Valid()
      modifies this`currlen, this`out, buffer
      ensures Valid() && out == old(out) + StringField(value, flags, min, max)
      ensures total == |StringField(value, flags, min, max)|
    {
      var v := if value.Some? then value.value else "<NULL>";
      var strln := |v|;
      if 0 <= max < strln { strln := max; }
      var shown := v[..strln];
      var padlen := Max(min - strln, 0);
      var before, after := if flags.minus then 0 else padlen, if flags.minus then padlen else 0;
      assert shown == Shown(value, max);
      StringFieldIs(value, flags, min, max, before, shown, after);
      total := OutPadded(before, shown, after);
    }

    method OutPadded(before: int, shown: string, after: int) returns (total: nat)
      requires Valid()
      modifies this`currlen, this`out, buffer
      ensures var field := Repeat(' ', before) + shown + Repeat(' ', after);
              Valid() && out == old(out) + field && total == |field|
    {
      ghost var start := out;
      var a := Fill(' ', before);
      var b := Copy(shown);
      var c := Fill(' ', after);
      Append3(start, Repeat(' ', before), shown, Repeat(' ', after));
      return a + b + c;
    }

    method OutDigits(convert: array<char>, digits: nat, ghost s: string) returns (total: nat)
      requires Valid() && convert != buffer && Backwards(convert, s) && digits == |s|
      modifies this`currlen, this`out, buffer
      ensures Valid() && out == old(out) + s && total == |s|
    {
      ghost var start := out;
      var place := digits;
      total := 0;
      assert out == start + s[..0];
      while place > 0
        invariant Valid() && 0 <= place <= digits && Backwards(convert, s)
        invariant out == start + s[..digits - place] && total == digits - place
      {
        ghost var k := digits - place;
        assert s[..k + 1] == s[..k] + [s[k]];
        assert start + s[..k + 1] == start + s[..k] + [s[k]];
        place := place - 1;
        var n := Outch(convert[place]);
        total := total + n;
      }
      assert s[..digits] == s;
    }

    /** fmtint. */
    method Fmtint(value: int, base: nat, min: int, max: int, flags: Flags) returns (total: nat)
      requires Valid() && IsBase(base)
      modifies this`currlen, this`out, buffer
      ensures Valid() && out == old(out) + NumberField(value, base, flags, min, max)
      ensures total == |NumberField(value, base, flags, min, max)|
    {
      var convert := new char[20];
      var sign := SignOf(value, flags);
      var place := MakeDigits(convert, Magnitude(value), base, flags.up);
      ghost var digits := Printed(Magnitude(value), base, flags.up);
      var precision := Max(max, 0);
      var zpadlen := Max(precision - place, 0);
      var spadlen := Max(min - Max(precision, place) - |sign|, 0);
      if flags.zero { zpadlen, spadlen := Max(zpadlen, spadlen), 0; }
      var before, after := if flags.minus then 0 else spadlen, if flags.minus then spadlen else 0;
      NumberFieldIs(value, base, flags, min, max, before, sign, zpadlen, digits, after);
      total := OutNumber(before, sign, zpadlen, convert, place, digits, after);
    }

    /** Spaces, sign, zeros, digits, spaces. */
    method OutNumber(before: int, sign: string, zeros: int, convert: array<char>, place: nat, ghost digits: string,
                     after: int)
      returns (total: nat)
      requires Valid() && convert != buffer && Backwards(convert, digits) && place == |digits|
      modifies this`currlen, this`out, buffer
      ensures var field := Repeat(' ', before) + sign + Repeat('0', zeros) + digits + Repeat(' ', after);
              Valid() && out == old(out) + field && total == |field|
    {
      ghost var start := out;
      var a := Fill(' ', before);
      var b := Copy(sign);
      var c := Fill('0', zeros);
      var d := OutDigits(convert, place, digits);
      var e := Fill(' ', after);
      Append5(start, Repeat(' ', before), sign, Repeat('0', zeros), digits, Repeat(' ', after));
      return a + b + c + d + e;
    }
  }

  // ----- dopr

  datatype State = Default | InFlags | InMin | AtDot | InMax | AtModifier | AtConversion | Done

  /** Where the scan of a format is: its state, what is unread, the arguments left,
      and the directive read so far. */
  datatype Scan = Scan(state: State, f: string, args: seq<Arg>, flags: Flags, min: int, max: int, modifier: Modifier)

  function Rank(state: State): nat {
    match state
    case Done => 0 case Default => 1 case AtConversion => 2 case AtModifier => 3
    case InMax => 4 case AtDot => 5 case InMin => 6 case InFlags => 7
  }

  /** The text still to come. */
  function Rest(s: Scan): Option<Text> {
    match s.state
    case Default => Format(s.f, s.args)
    case InFlags => FromFlags(s.flags, s.f, s.args)
    case InMin => FromMin(s.flags, s.min, s.f, s.args)
    case AtDot => FromDot(s.flags, s.min, s.f, s.args)
    case InMax => FromMax(s.flags, s.min, s.max, s.f, s.args)
    case AtModifier => FromModifier(s.flags, s.min, s.max, s.f, s.args)
    case AtConversion => FromConversion(s.flags, s.min, s.max, s.modifier, s.f, s.args)
    case Done => Some(Just(""))
  }

  /** What has not been read yet is as it was at the start of the directive. */
  predicate Tidy(s: Scan) {
    && (s.state.Default? ==> s.flags == NO_FLAGS)
    && (s.state.Default? || s.state.InFlags? ==> s.min == 0)
    && (s.state.InMin? ==> s.min >= 0)
    && (s.state.Default? || s.state.InFlags? || s.state.InMin? || s.state.AtDot? ==> s.max == -1)
    && (s.state.AtConversion? || s.state.Done? || s.modifier.Plain?)
  }

  /** A step of the scan that prints nothing. */
  predicate Silent(s: Scan, s': Scan) {
    && Tidy(s') && Rest(s') == Rest(s)
    && (|s'.f| < |s.f| || (s'.f == s.f && Rank(s'.state) < Rank(s.state)))
  }

  lemma NothingAtEnd(s: Scan)
    requires s.f == ""
    ensures Rest(s) == Some(Just(""))
  {
  }

  method StepFlags(s: Scan) returns (s': Scan)
    requires s.state.InFlags? && Tidy(s) && s.f != ""
    ensures Silent(s, s')
  {
    var flags := s.flags;
    match s.f[0] {
      case '-' => flags := flags.(minus := true);
      case '+' => flags := flags.(plus := true);
      case ' ' => flags := flags.(space := true);
      case '#' => flags := flags.(num := true);
      case '0' => flags := flags.(zero := true);
      case _ => return s.(state := InMin);
    }
    assert IsFlag(s.f[0]) && flags == AddFlag(s.flags, s.f[0]);
    return s.(flags := flags, f := s.f[1..]);
  }

  method StepMin(s: Scan) returns (s': Scan)
    requires s.state.InMin? && Tidy(s) && s.f != "" && Rest(s).Some?
    ensures Silent(s, s')
  {
    if IsDigit(s.f[0]) {
      s' := s.(min := 10 * s.min + (s.f[0] as int - '0' as int), f := s.f[1..]);
    } else if s.f[0] == '*' {
      s' := s.(min := s.args[0].n, args := s.args[1..], f := s.f[1..], state := AtDot);
    } else {
      s' := s.(state := AtDot);
    }
  }

  method StepDot(s: Scan) returns (s': Scan)
    requires s.state.AtDot? && Tidy(s) && s.f != ""
    ensures Silent(s, s')
  {
    if s.f[0] == '.' {
      s' := s.(state := InMax, f := s.f[1..]);
    } else {
      s' := s.(state := AtModifier);
    }
  }

  method StepMax(s: Scan) returns (s': Scan)
    requires s.state.InMax? && Tidy(s) && s.f != "" && Rest(s).Some?
    ensures Silent(s, s')
  {
    if IsDigit(s.f[0]) {
      var max := s.max;
      if max < 0 { max := 0; }
      s' := s.(max := 10 * max + (s.f[0] as int - '0' as int), f := s.f[1..]);
    } else if s.f[0] == '*' {
      s' := s.(max := s.args[0].n, args := s.args[1..], f := s.f[1..], state := AtModifier);
    } else {
      s' := s.(state := AtModifier);
    }
  }

  method StepModifier(s: Scan) returns (s': Scan)
    requires s.state.AtModifier? && Tidy(s) && s.f != ""
    ensures Silent(s, s')
  {
    match s.f[0] {
      case 'h' => s' := s.(modifier := Short, f := s.f[1..]);
      case 'l' => s' := s.(modifier := Long, f := s.f[1..]);
      case 'L' => s' := s.(modifier := LongDouble, f := s.f[1..]);
      case _ => s' := s;
    }
    s' := s'.(state := AtConversion);
  }

  /** An integer conversion, its argument fetched with the type it asks for. */
  method OutInteger(sink: Sink, c: char, flags: Flags, min: int, max: int, m: Modifier, n: int) returns (total: nat)
    requires sink.Valid() && c in "diouxXp"
    modifies sink`currlen, sink`out, sink.buffer
    ensures sink.Valid() && sink.out == old(sink.out) + Integer(c, flags, min, max, m, n)
    ensures total == |Integer(c, flags, min, max, m, n)|
  {
    var value, base, f := IntegerKind(c, flags, m, n);
    total := sink.Fmtint(value, base, min, max, f);
  }

  method IntegerKind(c: char, flags: Flags, m: Modifier, n: int) returns (value: int, base: nat, f: Flags)
    requires c in "diouxXp"
    ensures value == Fetched(c, m, n) && base == BaseOf(c) && f == FlagsOf(c, flags)
  {
    var u := flags.(unsigned := true);
    value, base, f := Signed(n, m), 10, flags;
    match c {
      case 'o' => value, base, f := Unsigned(n, m), 8, u;
      case 'u' => value, f := Unsigned(n, m), u;
      case 'x' => value, base, f := Unsigned(n, m), 16, u;
      case 'X' => value, base, f := Unsigned(n, m), 16, u.(up := true);
      case 'p' => value, base := Signed(n, Long), 16;
      case _ =>
    }
  }

  /** Conversions that print text. */
  method OutText(sink: Sink, c: char, flags: Flags, min: int, max: int, m: Modifier, args: seq<Arg>)
    returns (total: nat)
    requires sink.Valid() && c != 'n' && Convert(c, flags, min, max, m, args).Some?
    modifies sink`currlen, sink`out, sink.buffer
    ensures var text := Convert(c, flags, min, max, m, args).value;
            sink.Valid() && text == Just(text.chars) && sink.out == old(sink.out) + text.chars && total == |text.chars|
  {
    match c {
      case '%' => total := sink.Outch(c);
      case 's' => total := sink.Fmtstr(args[0].s, flags, min, max);
      case 'c' => total := sink.Outch((args[0].n % 256) as char);
      case 'f' => total := sink.Copy(args[0].shown);
      case _ =>
        if c in "diouxXp" {
          total := OutInteger(sink, c, flags, min, max, m, args[0].n);
        } else {
          total := 0;
        }
    }
  }

  lemma ThenText(a: Text, s: string)
    ensures Then(a, Just(s)) == Text(a.chars + s, a.marks)
  {
    assert Shift([], |a.chars|) == [] && a.marks + [] == a.marks;
  }

  lemma ThenMark(a: Text, m: Modifier)
    ensures Then(a, Text("", [Mark(0, m)])) == Text(a.chars, a.marks + [Mark(|a.chars|, m)])
  {
    assert a.chars + "" == a.chars;
    assert Shift([Mark(0, m)], |a.chars|) == [Mark(|a.chars|, m)];
  }

  method OutConversion(sink: Sink, c: char, flags: Flags, min: int, max: int, m: Modifier, args: seq<Arg>)
    returns (total: nat)
    requires sink.Valid() && Convert(c, flags, min, max, m, args).Some?
    modifies sink, sink.buffer
    ensures var text := Convert(c, flags, min, max, m, args).value;
            sink.Valid() && sink.Done() == Then(old(sink.Done()), text) && total == |text.chars|
  {
    ghost var before := sink.Done();
    if c == 'n' {
      ThenMark(before, m);
      sink.Note(m);
      total := 0;
    } else {
      total := OutText(sink, c, flags, min, max, m, args);
      ThenText(before, Convert(c, flags, min, max, m, args).value.chars);
    }
  }

  /** What a step that prints does: what comes out and what is still to come add up. */
  ghost predicate Printing(before: Text, s: Scan, done: Text, s': Scan, total: nat) {
    && Tidy(s') && Rest(s').Some? && Rest(s).Some?
    && Then(before, Rest(s).value) == Then(done, Rest(s').value)
    && |done.chars| == |before.chars| + total
    && (|s'.f| < |s.f| || (s'.f == s.f && Rank(s'.state) < Rank(s.state)))
  }

  lemma PrintsPart(before: Text, text: Text, s: Scan, s': Scan)
    requires Tidy(s') && Rest(s').Some? && Rest(s) == Some(Then(text, Rest(s').value)) && |s'.f| < |s.f|
    ensures Printing(before, s, Then(before, text), s', |text.chars|)
  {
    ThenAssociates(before, text, Rest(s').value);
  }

  lemma SilentPrints(done: Text, s: Scan, s': Scan)
    requires Silent(s, s') && Rest(s).Some?
    ensures Printing(done, s, done, s', 0)
  {
  }

  function Fresh(f: string, args: seq<Arg>): Scan {
    Scan(Default, f, args, NO_FLAGS, 0, -1, Plain)
  }

  /** %w takes the character behind it along. */
  lemma SkippedWord(s: Scan)
    requires s.state.AtConversion? && s.f != "" && s.f[0] == 'w' && Rest(s).Some?
    ensures |s.f| > 1 && Silent(s, Fresh(s.f[2..], s.args))
  {
  }

  lemma ConversionLeaves(s: Scan, text: Text)
    requires s.state.AtConversion? && s.f != "" && s.f[0] != 'w' && Rest(s).Some?
    requires Convert(s.f[0], s.flags, s.min, s.max, s.modifier, s.args) == Some(text)
    requires Takes(s.f[0]) ==> s.args != []
    ensures var s' := Fresh(s.f[1..], if Takes(s.f[0]) then s.args[1..] else s.args);
            Rest(s').Some? && Rest(s) == Some(Then(text, Rest(s').value))
  {
    assert Rest(s) == FromConversion(s.flags, s.min, s.max, s.modifier, s.f, s.args);
  }

  lemma TakesArgument(c: char, flags: Flags, min: int, max: int, m: Modifier, args: seq<Arg>)
    requires Convert(c, flags, min, max, m, args).Some? && Takes(c)
    ensures args != []
  {
  }

  method StepConversion(sink: Sink, s: Scan) returns (s': Scan, total: nat)
    requires sink.Valid() && s.state.AtConversion? && s.f != "" && Rest(s).Some?
    modifies sink, sink.buffer
    ensures sink.Valid() && Printing(old(sink.Done()), s, sink.Done(), s', total)
  {
    ghost var before := sink.Done();
    if s.f[0] == 'w' {
      SkippedWord(s);
      s', total := Fresh(s.f[2..], s.args), 0;
      SilentPrints(before, s, s');
    } else {
      ghost var text := Convert(s.f[0], s.flags, s.min, s.max, s.modifier, s.args).value;
      if Takes(s.f[0]) { TakesArgument(s.f[0], s.flags, s.min, s.max, s.modifier, s.args); }
      ConversionLeaves(s, text);
      s' := Fresh(s.f[1..], if Takes(s.f[0]) then s.args[1..] else s.args);
      PrintsPart(before, text, s, s');
      total := OutConversion(sink, s.f[0], s.flags, s.min, s.max, s.modifier, s.args);
    }
  }

  method StepDefault(sink: Sink, s: Scan) returns (s': Scan, total: nat)
    requires sink.Valid() && s.state.Default? && Tidy(s) && s.f != "" && Rest(s).Some?
    modifies sink, sink.buffer
    ensures sink.Valid() && Printing(old(sink.Done()), s, sink.Done(), s', total)
  {
    ghost var before := sink.Done();
    if s.f[0] == '%' {
      s', total := s.(state := InFlags, f := s.f[1..]), 0;
      SilentPrints(before, s, s');
    } else {
      total := sink.Outch(s.f[0]);
      s' := s.(f := s.f[1..]);
      ThenText(before, [s.f[0]]);
      PrintsPart(before, Just([s.f[0]]), s, s');
    }
  }

  /** One turn of the loop of dopr. */
  method Step(sink: Sink, s: Scan) returns (s': Scan, total: nat)
    requires sink.Valid() && !s.state.Done? && Tidy(s) && Rest(s).Some?
    modifies sink, sink.buffer
    ensures sink.Valid() && Printing(old(sink.Done()), s, sink.Done(), s', total)
  {
    total := 0;
    if s.f == "" {
      NothingAtEnd(s);
      return s.(state := Done), 0;
    }
    match s.state {
      case Default => s', total := StepDefault(sink, s);
      case InFlags => s' := StepFlags(s);
      case InMin => s' := StepMin(s);
      case AtDot => s' := StepDot(s);
      case InMax => s' := StepMax(s);
      case AtModifier => s' := StepModifier(s);
      case AtConversion => s', total := StepConversion(sink, s);
    }
  }

  /** What formatting promises of the buffer: as much of the text as there is room for,
      a NUL behind it, and nothing else changed. */
  ghost predicate Holds(b: seq<char>, old': seq<char>, text: string, size: nat) {
    var stored := Min(|text|, Room(size));
    stored < |old'| && b == text[..stored] + [0 as char] + old'[stored + 1..]
  }

  /** With a size, nothing from there on changes; without, the first character becomes NUL. */
  lemma KeptBehind(b: seq<char>, old': seq<char>, text: string, size: nat)
    requires Holds(b, old', text, size) && size <= |old'|
    ensures |b| == |old'| && b[size..] == if size > 0 then old'[size..] else old'[0 := 0 as char]
  {
  }

  /** dopr: the full length is returned whatever the size, and the buffer, if there is
      one, holds what there is room for. What is behind `size` is kept, except that with
      size zero the NUL is stored all the same; `overrun` says that there was no place
      for it. */
  method Dopr(buffer: array?<char>, size: nat, format: string, args: seq<Arg>)
    returns (total: nat, stores: seq<int>, overrun: bool)
    requires if buffer == null then size <= 1 else size <= buffer.Length
    requires Format(format, args).Some?
    modifies buffer
    ensures var text := Format(format, args).value;
            && total == |text.chars| && stores == Stores(text.marks, size)
            && (overrun <==> buffer != null && buffer.Length == 0)
            && (buffer != null && !overrun ==> Holds(buffer[..], old(buffer[..]), text.chars, size))
    ensures buffer != null && size > 0 ==> buffer[size..] == old(buffer[size..])
    ensures buffer != null && size == 0 < buffer.Length ==> buffer[..] == old(buffer[..])[0 := 0 as char]
  {
    var sink := new Sink(buffer, size);
    total := Turns(sink, format, args);
    stores, overrun := sink.stores, false;
    if buffer != null {
      ghost var before, text := old(buffer[..]), Format(format, args).value;
      overrun := Terminate(sink);
      if !overrun {
        KeptBehind(buffer[..], before, text.chars, size);
        assert buffer[size..] == buffer[..][size..] && old(buffer[size..]) == before[size..];
        assert buffer[..] == buffer[..][0..];
      }
    }
  }

  /** The loop of dopr. */
  method Turns(sink: Sink, format: string, args: seq<Arg>) returns (total: nat)
    requires sink.Valid() && sink.Done() == Just("") && Format(format, args).Some?
    modifies sink, sink.buffer
    ensures sink.Valid() && sink.Done() == Format(format, args).value && total == |sink.out|
  {
    var s := Fresh(format, args);
    ghost var text := Format(format, args).value;
    NothingBefore(text);
    total := 0;
    while !s.state.Done?
      invariant sink.Valid() && Tidy(s) && Rest(s).Some?
      invariant Then(sink.Done(), Rest(s).value) == text && total == |sink.out|
      decreases |s.f|, Rank(s.state)
    {
      var n;
      s, n := Step(sink, s);
      total := total + n;
    }
    NothingBefore(sink.Done());
  }

  /** The end of dopr; `size - 1` is computed without sign, so a size of zero counts as
      large. */
  method Terminate(sink: Sink) returns (overrun: bool)
    requires sink.Valid() && sink.buffer != null
    modifies sink.buffer
    ensures overrun <==> sink.buffer.Length == 0
    ensures !overrun ==> Holds(sink.buffer[..], sink.initial, sink.out, sink.size)
  {
    var at := if sink.size == 0 || sink.currlen < sink.size - 1 then sink.currlen else sink.size - 1;
    if at >= sink.buffer.Length { return true; }
    ghost var b := sink.buffer[..];
    sink.buffer[at] := 0 as char;
    assert sink.buffer[..] == b[at := 0 as char];
    return false;
  }

  /** vsnprintf. */
  method Vsnprintf(str: array?<char>, size: nat, format: string, args: seq<Arg>)
    returns (total: nat, stores: seq<int>, overrun: bool)
    requires if str == null then size <= 1 else size <= str.Length
    requires Format(format, args).Some?
    modifies str
    ensures var text := Format(format, args).value;
            && total == |text.chars| && stores == Stores(text.marks, size)
            && (overrun <==> str != null && str.Length == 0)
            && (str != null && !overrun ==> Holds(str[..], old(str[..]), text.chars, size))
  {
    ghost var before := if str == null then [] else str[..];
    if str != null && str.Length > 0 { str[0] := 0 as char; }
    total, stores, overrun := Dopr(str, size, format, args);
  }
}
