/** What argument parsing (argp/argp-parse.c) should do with a command line: which
    words are options with their arguments, which are set aside, and the calls the
    user's parsers see. */
module ArgpSpec {
  import opened Wrappers

  /** An entry of an option table. */
  datatype OptionEntry = OptionEntry(name: Option<string>, key: int, takesArg: bool, argOptional: bool)

  datatype Ordering = RequireOrder | Permute | ReturnInOrder

  datatype Settings = Settings(options: seq<OptionEntry>, ordering: Ordering)

  /** A call of a user's parser: an option with its value, or ARGP_KEY_ARG. */
  datatype Call = OptionCall(key: int, value: Option<string>) | ArgCall(arg: string)

  // ----- Words

  datatype Word = Plain | Short(chars: string) | Long(text: string) | Quote

  /** classify_arg, without ARGP_LONG_ONLY. */
  function Classify(arg: string): Word {
    if |arg| < 2 || arg[0] != '-' then Plain
    else if arg[1] != '-' then Short(arg[1..])
    else if |arg| == 2 then Quote
    else Long(arg[2..])
  }

  // ----- Finding options

  /** find_short_option. */
  function FindShort(options: seq<OptionEntry>, c: char): Option<OptionEntry> {
    if options == [] then None
    else if options[0].key == c as int then Some(options[0])
    else FindShort(options[1..], c)
  }

  /** The part of a long option before its '='. */
  function Stem(text: string): string {
    if text == "" || text[0] == '=' then "" else [text[0]] + Stem(text[1..])
  }

  /** What follows the '=' of a long option, if there is one. */
  function Inline(text: string): Option<string> {
    if text == "" then None else if text[0] == '=' then Some(text[1..]) else Inline(text[1..])
  }

  predicate Exactly(text: string, o: OptionEntry) {
    o.name.Some? && Stem(text) == o.name.value
  }

  predicate Partly(text: string, o: OptionEntry) {
    o.name.Some? && Stem(text) < o.name.value
  }

  function FirstExact(options: seq<OptionEntry>, text: string): Option<OptionEntry> {
    if options == [] then None
    else if Exactly(text, options[0]) then Some(options[0])
    else FirstExact(options[1..], text)
  }

  function Abbreviated(options: seq<OptionEntry>, text: string): seq<OptionEntry> {
    if options == [] then []
    else (if Partly(text, options[0]) then [options[0]] else []) + Abbreviated(options[1..], text)
  }

  /** find_long_option: an exact match wins, else a unique abbreviation. */
  function FindLong(options: seq<OptionEntry>, text: string): Option<OptionEntry> {
    var exact := FirstExact(options, text);
    if exact.Some? then exact
    else
      var partial := Abbreviated(options, text);
      if |partial| == 1 then Some(partial[0]) else None
  }

  // ----- The plan

  /** How the scan for options ends: at the end of the options, at a word that is
      not an acceptable option, or at the assert that short options are ASCII. */
  datatype Ending = Scanned | Invalid | Crash

  /** `front` is what option processing consumes, `skipped` what it sets aside,
      `rest` what it never looks at, `calls` the calls made on the way. */
  datatype Plan = Plan(front: seq<string>, skipped: seq<string>, rest: seq<string>, calls: seq<Call>, ending: Ending)

  function Before(front: seq<string>, skipped: seq<string>, calls: seq<Call>, p: Plan): Plan {
    Plan(front + p.front, skipped + p.skipped, p.rest, calls + p.calls, p.ending)
  }

  function Stopped(front: seq<string>, rest: seq<string>, ending: Ending): Plan {
    Plan(front, [], rest, [], ending)
  }

  /** An option table entry read against the value given with the option. */
  datatype Reading = Bad | Ready(value: Option<string>) | TakesNext

  function ReadLong(option: Option<OptionEntry>, value: Option<string>): Reading {
    if option.None? || (value.Some? && !option.value.takesArg) then Bad
    else if option.value.takesArg && value.None? && !option.value.argOptional then TakesNext
    else Ready(value)
  }

  function PlanArgs(s: Settings, args: seq<string>): Plan
    decreases |args|, 0
  {
    if args == [] then Stopped([], [], Scanned)
    else
      var arg, more := args[0], args[1..];
      match Classify(arg)
      case Plain =>
        (match s.ordering
         case Permute => Before([], [arg], [], PlanArgs(s, more))
         case RequireOrder => Stopped([], args, Scanned)
         case ReturnInOrder => Before([arg], [], [ArgCall(arg)], PlanArgs(s, more)))
      case Quote => Stopped([arg], more, Scanned)
      case Short(chars) => Before([arg], [], [], PlanShort(s, chars, more))
      case Long(text) => Before([arg], [], [], PlanOption(s, FindLong(s.options, text), Inline(text), more))
  }

  /** A long option, its own word consumed, then the rest of the arguments. */
  function PlanOption(s: Settings, option: Option<OptionEntry>, value: Option<string>, args: seq<string>): Plan
    decreases |args|, 1
  {
    match ReadLong(option, value)
    case Bad => Stopped([], args, Invalid)
    case Ready(v) => Before([], [], [OptionCall(option.value.key, v)], PlanArgs(s, args))
    case TakesNext =>
      if args == [] then Stopped([], args, Invalid)
      else Before([args[0]], [], [OptionCall(option.value.key, Some(args[0]))], PlanArgs(s, args[1..]))
  }

  /** The rest of a group of short options, then the rest of the arguments. */
  function PlanShort(s: Settings, chars: string, args: seq<string>): Plan
    requires chars != ""
    decreases |args|, 1 + |chars|
  {
    if chars[0] as int >= 128 then Stopped([], args, Crash)
    else
      var option, inline := FindShort(s.options, chars[0]), chars[1..];
      if option.Some? && !option.value.takesArg && inline != "" then
        Before([], [], [OptionCall(option.value.key, None)], PlanShort(s, inline, args))
      else PlanOption(s, option, if inline == "" then None else Some(inline), args)
  }

  function ArgCalls(args: seq<string>): seq<Call> {
    if args == [] then [] else ArgCalls(args[..|args| - 1]) + [ArgCall(args[|args| - 1])]
  }
}
