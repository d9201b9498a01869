/** The scanner of argp/argp-parse.c, working in place on the argument vector. */
module ArgpParser {
  import opened Wrappers
  import opened ArgpSpec
  import opened ArgpPlan
  import opened Argp

  // ----- Looking options up

  /** find_short_option. */
  method FindShortOption(options: seq<OptionEntry>, c: char) returns (option: Option<OptionEntry>)
    ensures option == FindShort(options, c)
  {
    for i := 0 to |options|
      invariant FindShort(options, c) == FindShort(options[i..], c)
    {
      if options[i].key == c as int { return Some(options[i]); }
    }
    return None;
  }

  datatype Match = MatchExact | MatchPartial | MatchNo

  lemma {:induction false} StemStep(arg: string, i: nat)
    requires i < |arg| && arg[i] != '=' && i <= |Stem(arg)| && Stem(arg)[..i] == arg[..i]
    ensures i < |Stem(arg)| && Stem(arg)[..i + 1] == arg[..i + 1]
  {
    if i > 0 {
      assert Stem(arg) == [arg[0]] + Stem(arg[1..]);
      assert Stem(arg[1..])[..i - 1] == Stem(arg)[1..i] == arg[1..i] == arg[1..][..i - 1];
      StemStep(arg[1..], i - 1);
      assert Stem(arg)[1..i + 1] == Stem(arg[1..])[..i] == arg[1..][..i];
    } else {
      assert Stem(arg)[0] == arg[0];
    }
  }

  lemma {:induction false} StemEnds(arg: string, i: nat)
    requires i <= |arg| && (i < |arg| ==> arg[i] == '=') && i <= |Stem(arg)| && Stem(arg)[..i] == arg[..i]
    ensures Stem(arg) == arg[..i]
  {
    if i > 0 {
      assert Stem(arg) == [arg[0]] + Stem(arg[1..]);
      assert Stem(arg[1..])[..i - 1] == Stem(arg)[1..i] == arg[1..i] == arg[1..][..i - 1];
      StemEnds(arg[1..], i - 1);
    }
  }

  /** match_option. */
  method MatchOption(arg: string, name: string) returns (m: Match)
    ensures m.MatchExact? <==> Stem(arg) == name
    ensures m.MatchPartial? <==> Stem(arg) < name
  {
    var i := 0;
    while true
      invariant i <= |arg| && i <= |name| && arg[..i] == name[..i]
      invariant i <= |Stem(arg)| && Stem(arg)[..i] == arg[..i]
      decreases |arg| - i
    {
      if i == |arg| || arg[i] == '=' {
        StemEnds(arg, i);
        return if i < |name| then MatchPartial else MatchExact;
      }
      StemStep(arg, i);
      if i == |name| || arg[i] != name[i] {
        assert i < |name| ==> Stem(arg)[i] == Stem(arg)[..i + 1][i] == arg[i] != name[i];
        return MatchNo;
      }
      i := i + 1;
    }
  }

  /** find_long_option. */
  method FindLongOption(options: seq<OptionEntry>, arg: string) returns (option: Option<OptionEntry>)
    ensures option == FindLong(options, arg)
  {
    var matched: Option<OptionEntry>, numPartial := None, 0;
    ghost var partial: seq<OptionEntry> := [];
    for i := 0 to |options|
      invariant FirstExact(options, arg) == FirstExact(options[i..], arg)
      invariant Abbreviated(options, arg) == partial + Abbreviated(options[i..], arg)
      invariant numPartial == |partial|
      invariant if partial == [] then matched.None? else matched == Some(partial[|partial| - 1])
    {
      assert options[i..][1..] == options[i + 1..];
      if options[i].name.Some? {
        var m := MatchOption(arg, options[i].name.value);
        match m {
          case MatchNo =>
          case MatchPartial =>
            numPartial, matched := numPartial + 1, Some(options[i]);
            partial := partial + [options[i]];
          case MatchExact => return Some(options[i]);
        }
      }
    }
    return if numPartial == 1 then matched else None;
  }

  /** strchr for '=', and what follows. */
  method ValueOf(text: string) returns (value: Option<string>)
    ensures value == Inline(text)
  {
    for i := 0 to |text|
      invariant Inline(text) == Inline(text[i..])
    {
      if text[i] == '=' { return Some(text[i + 1..]); }
    }
    return None;
  }

  // ----- The scanner

  lemma BeforeBefore(f: seq<string>, k: seq<string>, c: seq<Call>, f': seq<string>, k': seq<string>, c': seq<Call>,
                     p: Plan)
    ensures Before(f, k, c, Before(f', k', c', p)) == Before(f + f', k + k', c + c', p)
  {
    assert f + (f' + p.front) == f + f' + p.front && k + (k' + p.skipped) == k + k' + p.skipped &&
           c + (c' + p.calls) == c + c' + p.calls;
  }

  /** The plan of a short option, case by case. */
  lemma ShortUnknown(s: Settings, chars: string, args: seq<string>)
    requires chars != "" && chars[0] as int < 128 && FindShort(s.options, chars[0]).None?
    ensures PlanShort(s, chars, args) == Stopped([], args, Invalid)
  {
  }

  lemma ShortFlag(s: Settings, chars: string, args: seq<string>, o: OptionEntry)
    requires chars != "" && chars[0] as int < 128 && FindShort(s.options, chars[0]) == Some(o) && !o.takesArg
    ensures PlanShort(s, chars, args) ==
            Before([], [], [OptionCall(o.key, None)],
                   if |chars| == 1 then PlanArgs(s, args) else PlanShort(s, chars[1..], args))
  {
  }

  lemma ShortValued(s: Settings, chars: string, args: seq<string>, o: OptionEntry)
    requires chars != "" && chars[0] as int < 128 && FindShort(s.options, chars[0]) == Some(o) && o.takesArg
    requires |chars| > 1 || o.argOptional
    ensures PlanShort(s, chars, args) ==
            Before([], [], [OptionCall(o.key, if |chars| == 1 then None else Some(chars[1..]))], PlanArgs(s, args))
  {
  }

  lemma ShortNeedsWord(s: Settings, chars: string, args: seq<string>, o: OptionEntry)
    requires |chars| == 1 && chars[0] as int < 128 && FindShort(s.options, chars[0]) == Some(o) && o.takesArg
    requires !o.argOptional
    ensures PlanShort(s, chars, args) ==
            if args == [] then Stopped([], args, Invalid)
            else Before([args[0]], [], [OptionCall(o.key, Some(args[0]))], PlanArgs(s, args[1..]))
  {
  }

  lemma OperandCalled(args: seq<string>, word: string)
    ensures ArgCalls(args + [word]) == ArgCalls(args) + [ArgCall(word)]
  {
    assert (args + [word])[..|args|] == args;
  }

  /** An array from a place on, cut at another. */
  lemma TwoParts(a: array<string>, f: nat, n: nat)
    requires f <= n <= a.Length
    ensures a[f..] == a[f..n] + a[n..]
  {
    assert a[f..] == a[..][f..] && a[f..n] == a[..][f..n] && a[n..] == a[..][n..];
  }

  lemma OneMore(a: array<string>, f: nat, n: nat)
    requires f <= n < a.Length
    ensures a[f..n + 1] == a[f..n] + [a[n]]
  {
  }

  lemma SameWords(a: seq<string>, first: nat, last: nat, next: nat)
    requires first <= last <= next <= |a|
    ensures multiset(a) == multiset(a[..first] + a[last..next] + a[first..last] + a[next..])
  {
    assert a == a[..first] + a[first..last] + a[last..next] + a[next..];
  }

  /** What a step reports: go on, all arguments parsed, an error, a failed assert. */
  datatype Status = Continue | Finished | Rejected | Crashed

  class Parser {
    const settings: Settings
    const argv: array<string>
    var next: nat
    var firstNonopt: nat
    var lastNonopt: nat
    var nextchar: Option<string>
    var argsOnly: bool
    var quoted: nat

    /** The calls of the user's parsers so far. */
    var calls: seq<Call>

    /** The plan for the whole vector, with the words before the first argument
        counted as consumed; the words consumed and set aside so far. */
    ghost const plan: Plan
    ghost var head: seq<string>
    ghost var skipped: seq<string>

    /** What is still to come. */
    ghost function Remaining(): Plan
      requires next <= argv.Length && (nextchar.Some? ==> nextchar.value != "")
      reads this, argv
    {
      if nextchar.Some? then PlanShort(settings, nextchar.value, argv[next..]) else PlanArgs(settings, argv[next..])
    }

    /** The skipped words sit in [firstNonopt, lastNonopt), the consumed ones around them. */
    ghost predicate Laid(head: seq<string>, skipped: seq<string>)
      reads this, argv
    {
      && firstNonopt <= lastNonopt <= next <= argv.Length
      && argv[..firstNonopt] + argv[lastNonopt..next] == head
      && argv[firstNonopt..lastNonopt] == skipped
    }

    ghost predicate Scanning()
      reads this, argv
    {
      && !argsOnly && quoted == 0
      && Laid(head, skipped)
      && (settings.ordering.Permute? || skipped == [])
      && (nextchar.Some? ==> nextchar.value != "")
      && plan == Before(head, skipped, calls, Remaining())
    }

    /** The options are done and the vector is rearranged; operands are handed out. */
    ghost predicate Draining()
      reads this, argv
    {
      && argsOnly && nextchar.None? && plan.ending.Scanned?
      && firstNonopt <= lastNonopt <= next && quoted <= next
      && argv[..] == plan.front + plan.skipped + plan.rest
      && |plan.front| <= next <= argv.Length
      && calls == plan.calls + ArgCalls(argv[|plan.front|..next])
    }

    /** The scan stopped at a word that has no plan. */
    ghost predicate Halted(ending: Ending)
      reads this, argv
    {
      && Laid(plan.front, plan.skipped) && argv[next..] == plan.rest
      && calls == plan.calls && plan.ending == ending
    }

    ghost function Pending(): nat
      reads this
    {
      if nextchar.Some? then |nextchar.value| else 0
    }

    /** Every word is handed out, options first. */
    ghost predicate Complete()
      reads this, argv
    {
      && plan.ending.Scanned? && next == argv.Length
      && argv[..] == plan.front + plan.skipped + plan.rest
      && calls == plan.calls + ArgCalls(plan.skipped + plan.rest)
    }

    ghost predicate Reports(status: Status)
      reads this, argv
    {
      match status
      case Continue => Scanning() || Draining()
      case Finished => Complete()
      case Rejected => Halted(Invalid)
      case Crashed => Halted(Crash)
    }

    /** parser_init: the first word is the program's name unless ARGP_PARSE_ARGV0. */
    constructor (s: Settings, args: array<string>, parseArgv0: bool)
      ensures settings == s && argv == args
      ensures Scanning() && nextchar.None?
      ensures var base := if parseArgv0 || args.Length == 0 then 0 else 1;
              plan == Before(args[..base], [], [], PlanArgs(s, args[base..]))
    {
      settings, argv := s, args;
      var base := if parseArgv0 || args.Length == 0 then 0 else 1;
      next, firstNonopt, lastNonopt, nextchar, argsOnly, quoted, calls := base, 0, 0, None, false, 0, [];
      head, skipped := args[..base], [];
      plan := Before(args[..base], [], [], PlanArgs(s, args[base..]));
      new;
      assert argv[..0] + argv[0..next] == head;
    }

    /** A call of the user's parsers, which accept it. */
    method GroupParse(call: Call)
      modifies this`calls
      ensures calls == old(calls) + [call]
    {
      calls := calls + [call];
    }

    /** Option processing consumes the next word. */
    method Consume() returns (word: string)
      requires Laid(head, skipped) && next < argv.Length
      modifies this`next, this`head
      ensures next == old(next) + 1 && word == argv[old(next)] && head == old(head) + [word]
      ensures Laid(head, skipped)
    {
      word := argv[next];
      head := head + [word];
      next := next + 1;
      assert argv[lastNonopt..next] == argv[lastNonopt..next - 1] + [word];
    }

    lemma Halts(args: seq<string>, ending: Ending)
      requires Laid(head, skipped) && argv[next..] == args
      requires plan == Before(head, skipped, calls, Stopped([], args, ending))
      ensures Halted(ending)
    {
    }

    /** One call is made and the words `consumed` are taken on the way to `after`. */
    lemma Advances(h: seq<string>, made: seq<Call>, consumed: seq<string>, call: Call, before: Plan, after: Plan)
      requires plan == Before(h, skipped, made, before) && before == Before(consumed, [], [call], after)
      requires head == h + consumed && calls == made + [call]
      ensures plan == Before(head, skipped, calls, after)
    {
      BeforeBefore(h, skipped, made, consumed, [], [call], after);
      assert skipped + [] == skipped;
    }

    /** An option complete with its value is handed to its parser. */
    method Offer(call: Call, ghost before: Plan)
      requires !argsOnly && quoted == 0 && Laid(head, skipped) && (settings.ordering.Permute? || skipped == [])
      requires nextchar.Some? ==> nextchar.value != ""
      requires plan == Before(head, skipped, calls, before) && before == Before([], [], [call], Remaining())
      modifies this`calls
      ensures Scanning()
    {
      ghost var made := calls;
      GroupParse(call);
      assert head + [] == head;
      Advances(head, made, [], call, before, Remaining());
    }

    /** An option whose mandatory value is the next word, if there is one. */
    method NextAsValue(key: int, ghost before: Plan) returns (status: Status)
      requires !argsOnly && quoted == 0 && Laid(head, skipped) && (settings.ordering.Permute? || skipped == [])
      requires nextchar.None?
      requires plan == Before(head, skipped, calls, before)
      requires var args := argv[next..];
               before == if args == [] then Stopped([], args, Invalid)
                         else Before([args[0]], [], [OptionCall(key, Some(args[0]))], PlanArgs(settings, args[1..]))
      modifies this`next, this`head, this`calls
      ensures if status.Continue? then Scanning() && next == old(next) + 1 else status.Rejected? && Halted(Invalid)
    {
      ghost var args, h, made := argv[next..], head, calls;
      if next == argv.Length {
        Halts(args, Invalid);
        return Rejected;
      }
      var word := Consume();
      assert args[0] == word && args[1..] == argv[next..];
      GroupParse(OptionCall(key, Some(word)));
      Advances(h, made, [word], OptionCall(key, Some(word)), before, Remaining());
      return Continue;
    }

    /** The branch for a group of short options. */
    method ParseShort() returns (status: Status)
      requires Scanning() && nextchar.Some?
      modifies this
      ensures Reports(status) && !status.Finished?
      ensures status.Continue? ==> !argsOnly && next >= old(next) && (next == old(next) ==> Pending() < old(Pending()))
    {
      ghost var args, chars := argv[next..], nextchar.value;
      var c := nextchar.value[0];
      if c as int >= 128 {
        Halts(args, Crash);
        return Crashed;
      }
      var option := FindShortOption(settings.options, c);
      if option.None? {
        ShortUnknown(settings, chars, args);
        Halts(args, Invalid);
        return Rejected;
      }
      var inline := nextchar.value[1..];
      nextchar := if inline == "" then None else Some(inline);
      if option.value.takesArg {
        var value := nextchar;
        nextchar := None;
        if value.None? && !option.value.argOptional {
          ShortNeedsWord(settings, chars, args, option.value);
          status := NextAsValue(option.value.key, PlanShort(settings, chars, args));
        } else {
          ShortValued(settings, chars, args, option.value);
          Offer(OptionCall(option.value.key, value), PlanShort(settings, chars, args));
          status := Continue;
        }
      } else {
        ShortFlag(settings, chars, args, option.value);
        Offer(OptionCall(option.value.key, None), PlanShort(settings, chars, args));
        status := Continue;
      }
    }

    /** parser_parse_arg, the parsers accepting ARGP_KEY_ARG. */
    method ParseArg(val: string)
      requires next < argv.Length
      modifies this`next, this`calls
      ensures next == old(next) + 1 && calls == old(calls) + [ArgCall(val)]
    {
      next := next + 1;
      GroupParse(ArgCall(val));
    }

    /** The skipped words move up behind the consumed ones. */
    method ExchangeSkipped()
      requires Laid(head, skipped)
      modifies this`firstNonopt, this`lastNonopt, argv
      ensures Laid(head, skipped) && lastNonopt == next
      ensures argv[..firstNonopt] == head && argv[next..] == old(argv[next..])
    {
      firstNonopt, lastNonopt := Exchange(argv, firstNonopt, lastNonopt, next);
    }

    lemma DrainingStarts(f: nat)
      requires argsOnly && nextchar.None? && plan.ending.Scanned? && firstNonopt <= lastNonopt <= next && quoted <= next
      requires f == next <= argv.Length && argv[..f] == plan.front && argv[f..] == plan.skipped + plan.rest
      requires calls == plan.calls
      ensures Draining()
    {
      assert argv[..] == argv[..f] + argv[f..];
      assert argv[f..f] == [];
      assert plan.front + plan.skipped + plan.rest == plan.front + (plan.skipped + plan.rest);
    }

    /** Start handing out the skipped words and what follows them. */
    method StartSkipped(isQuote: bool)
      requires Halted(Scanned) && nextchar.None? && quoted == 0 && head == plan.front && skipped == plan.skipped
      modifies this, argv
      ensures Draining()
    {
      ExchangeSkipped();
      ghost var f := firstNonopt;
      TwoParts(argv, f, next);
      next := firstNonopt;
      if isQuote { quoted := next; }
      firstNonopt, lastNonopt := 0, 0;
      argsOnly := true;
      DrainingStarts(f);
    }

    /** Nothing was skipped: the operands start here. */
    method StartHere(isQuote: bool)
      requires Halted(Scanned) && nextchar.None? && quoted == 0 && firstNonopt == lastNonopt
      modifies this`quoted, this`argsOnly
      ensures Draining()
    {
      assert argv[..next] == argv[..firstNonopt] + argv[lastNonopt..next];
      assert argv[next..] == plan.skipped + plan.rest;
      if isQuote { quoted := next; }
      argsOnly := true;
      DrainingStarts(next);
    }

    /** The end of the vector, while looking for options. */
    method EndOfArgs() returns (status: Status)
      requires Scanning() && nextchar.None? && next >= argv.Length
      modifies this, argv
      ensures Reports(status) && (status.Finished? || (status.Continue? && argsOnly))
    {
      assert argv[next..] == [];
      Halts([], Scanned);
      if firstNonopt != lastNonopt {
        assert plan.front == head && plan.skipped == skipped;
        StartSkipped(false);
        return Continue;
      }
      assert argv[..] == argv[..firstNonopt] + argv[lastNonopt..next];
      assert plan.skipped + plan.rest == [];
      return Finished;
    }

    /** The skipped words end at `next`. */
    method GatherSkipped()
      requires Laid(head, skipped)
      modifies this`firstNonopt, this`lastNonopt, argv
      ensures Laid(head, skipped) && lastNonopt == next
      ensures argv[..firstNonopt] == head && argv[next..] == old(argv[next..])
    {
      if firstNonopt == lastNonopt {
        assert argv[..next] == argv[..firstNonopt] + argv[lastNonopt..next];
        firstNonopt, lastNonopt := next, next;
      } else if lastNonopt != next {
        ExchangeSkipped();
      }
      assert argv[lastNonopt..next] == [];
    }

    lemma SkippedOne(kept: seq<string>, word: string, after: Plan)
      requires plan == Before(head, kept, calls, Before([], [word], [], after))
      ensures plan == Before(head, kept + [word], calls, after)
    {
      BeforeBefore(head, kept, calls, [], [word], [], after);
      assert head + [] == head && calls + [] == calls;
    }

    /** A plain word is set aside, behind the words set aside already. */
    method SkipArg()
      requires Scanning() && nextchar.None? && next < argv.Length && Classify(argv[next]).Plain?
      requires settings.ordering.Permute?
      modifies this, argv
      ensures Scanning() && nextchar.None? && next == old(next) + 1
    {
      ghost var args, word, kept := argv[next..], argv[next], skipped;
      GatherSkipped();
      assert argv[next] == args[0] && argv[next + 1..] == args[1..];
      next := next + 1;
      lastNonopt := next;
      skipped := skipped + [word];
      assert argv[firstNonopt..lastNonopt] == argv[firstNonopt..next - 1] + [word];
      SkippedOne(kept, word, PlanArgs(settings, args[1..]));
    }

    /** "--" ends the options. */
    method ParseQuote()
      requires Scanning() && nextchar.None? && next < argv.Length && Classify(argv[next]).Quote?
      modifies this, argv
      ensures Draining()
    {
      ghost var args, h := argv[next..], head;
      var word := Consume();
      assert lastNonopt != next;
      assert args[0] == word && args[1..] == argv[next..];
      assert plan.front == h + [word] && plan.skipped == skipped + [] == skipped && plan.calls == calls + [] == calls;
      if firstNonopt != lastNonopt {
        StartSkipped(true);
      } else {
        StartHere(true);
      }
    }

    /** The branch for a long option. */
    method ParseLong(text: string) returns (status: Status)
      requires Scanning() && nextchar.None? && next < argv.Length && Classify(argv[next]) == Long(text)
      modifies this
      ensures Reports(status) && !status.Finished? && (status.Continue? ==> !argsOnly && next > old(next))
    {
      ghost var args, h := argv[next..], head;
      var word := Consume();
      assert args[0] == word && args[1..] == argv[next..];
      var option := FindLongOption(settings.options, text);
      var value := ValueOf(text);
      ghost var before := PlanOption(settings, option, value, argv[next..]);
      BeforeBefore(h, skipped, calls, [word], [], [], before);
      assert skipped + [] == skipped && calls + [] == calls;
      if option.None? || (value.Some? && !option.value.takesArg) {
        Halts(argv[next..], Invalid);
        return Rejected;
      }
      if option.value.takesArg && value.None? && !option.value.argOptional {
        status := NextAsValue(option.value.key, before);
      } else {
        Offer(OptionCall(option.value.key, value), before);
        status := Continue;
      }
    }

    /** A group of short options is opened. */
    method OpenShort(chars: string)
      requires Scanning() && nextchar.None? && next < argv.Length && Classify(argv[next]) == Short(chars)
      modifies this
      ensures Scanning() && next == old(next) + 1
    {
      ghost var args, h := argv[next..], head;
      var word := Consume();
      assert args[0] == word && args[1..] == argv[next..];
      BeforeBefore(h, skipped, calls, [word], [], [], PlanShort(settings, chars, argv[next..]));
      assert skipped + [] == skipped && calls + [] == calls;
      nextchar := Some(chars);
    }

    /** A plain word handed out at once. */
    method ReturnArg()
      requires Scanning() && nextchar.None? && next < argv.Length && Classify(argv[next]).Plain?
      requires settings.ordering.ReturnInOrder?
      modifies this
      ensures Scanning() && next == old(next) + 1
    {
      ghost var args, h, made, word := argv[next..], head, calls, argv[next];
      assert args[0] == word && args[1..] == argv[next + 1..];
      ParseArg(argv[next]);
      head := head + [word];
      assert argv[lastNonopt..next] == argv[lastNonopt..next - 1] + [word];
      Advances(h, made, [word], ArgCall(word), PlanArgs(settings, args), PlanArgs(settings, argv[next..]));
    }

    lemma AllHandedOut()
      requires Draining() && next == argv.Length
      ensures Complete()
    {
      assert argv[|plan.front|..next] == argv[..][|plan.front|..];
      assert plan.front + plan.skipped + plan.rest == plan.front + (plan.skipped + plan.rest);
    }

    method HandOut()
      requires Draining() && next < argv.Length
      modifies this`next, this`calls
      ensures Draining() && next == old(next) + 1
    {
      ghost var f := |plan.front|;
      OperandCalled(argv[f..next], argv[next]);
      OneMore(argv, f, next);
      ParseArg(argv[next]);
    }

    /** The next operand, if there is one. */
    method NextOperand() returns (status: Status)
      requires Draining()
      modifies this`next, this`calls
      ensures if status.Finished? then Complete() else status.Continue? && Draining() && next == old(next) + 1
    {
      if next >= argv.Length {
        AllHandedOut();
        return Finished;
      }
      HandOut();
      return Continue;
    }

    /** The branch that looks at the next word. */
    method ParseWord() returns (status: Status)
      requires Scanning() && nextchar.None? && next < argv.Length
      modifies this, argv
      ensures Reports(status) && !status.Finished?
      ensures status.Continue? ==> argsOnly || next > old(next)
    {
      status := Continue;
      match Classify(argv[next]) {
        case Plain =>
          match settings.ordering {
            case Permute => SkipArg();
            case RequireOrder => Halts(argv[next..], Scanned); StartHere(false);
            case ReturnInOrder => ReturnArg();
          }
        case Quote => ParseQuote();
        case Long(text) => status := ParseLong(text);
        case Short(chars) => OpenShort(chars);
      }
    }

    /** Forget a "--" and pull back the skipped words if `next` was moved before them. */
    method Rationalize()
      modifies this`quoted, this`argsOnly, this`firstNonopt, this`lastNonopt
      ensures quoted <= next && firstNonopt <= next && lastNonopt <= next
      ensures old(quoted <= next && firstNonopt <= next && lastNonopt <= next) ==>
                && quoted == old(quoted) && argsOnly == old(argsOnly)
                && firstNonopt == old(firstNonopt) && lastNonopt == old(lastNonopt)
      ensures old(quoted > next) ==> quoted == 0 && !argsOnly
    {
      if quoted != 0 && next < quoted { quoted, argsOnly := 0, false; }
      if lastNonopt > next { lastNonopt := next; }
      if firstNonopt > next { firstNonopt := next; }
    }

    /** parser_parse_next. */
    method ParseNext() returns (status: Status)
      requires Scanning() || Draining()
      modifies this, argv
      ensures Reports(status)
      ensures status.Continue? ==>
                if argsOnly == old(argsOnly)
                then next >= old(next) && (next == old(next) ==> Pending() < old(Pending()))
                else argsOnly
    {
      Rationalize();
      if nextchar.Some? {
        assert !argsOnly;
        status := ParseShort();
      } else if argsOnly {
        status := NextOperand();
      } else if next >= argv.Length {
        status := EndOfArgs();
      } else {
        status := ParseWord();
      }
    }

    /** The loop of __argp_parse: it ends, and what it leaves is what was planned. */
    method Parse() returns (status: Status)
      requires Scanning()
      modifies this, argv
      ensures !status.Continue? && Reports(status)
    {
      status := Continue;
      while status.Continue?
        invariant Reports(status)
        decreases status.Continue?, !argsOnly, argv.Length - next, Pending()
      {
        status := ParseNext();
      }
    }
  }

  /** Where the arguments start. */
  function Base(argc: nat, parseArgv0: bool): nat {
    if parseArgv0 || argc == 0 then 0 else 1
  }

  lemma HaltedKeepsWords(parser: Parser, ending: Ending)
    requires parser.Halted(ending)
    ensures multiset(parser.argv[..]) == multiset(parser.plan.front + parser.plan.skipped + parser.plan.rest)
  {
    var argv, first, last, next := parser.argv[..], parser.firstNonopt, parser.lastNonopt, parser.next;
    SameWords(argv, first, last, next);
    assert parser.argv[..first] == argv[..first] && parser.argv[last..next] == argv[last..next];
    assert parser.argv[first..last] == argv[first..last] && parser.argv[next..] == argv[next..];
  }

  lemma BehindPrefix(prefix: seq<string>, a: seq<string>, b: seq<string>, c: seq<string>, words: seq<string>)
    requires multiset(a + b + c) == multiset(words)
    ensures multiset(prefix + a + b + c) == multiset(prefix + words)
  {
    assert prefix + a + b + c == prefix + (a + b + c);
  }

  lemma WholePlanIs(front: seq<string>, p: Plan)
    ensures Before(front, [], [], p) == Plan(front + p.front, p.skipped, p.rest, p.calls, p.ending)
  {
    assert [] + p.skipped == p.skipped && [] + p.calls == p.calls;
  }

  lemma WholePlanPermutes(s: Settings, words: seq<string>, base: nat)
    requires base <= |words|
    ensures var p := PlanArgs(s, words[base..]);
            multiset(words[..base] + p.front + p.skipped + p.rest) == multiset(words)
  {
    var args, p := words[base..], PlanArgs(s, words[base..]);
    PlanPermutes(s, args);
    BehindPrefix(words[..base], p.front, p.skipped, p.rest, args);
    assert words == words[..base] + args;
  }

  /** __argp_parse: the options and their values come first in their order, then
      the words set aside in theirs, then what followed "--"; the parsers see the
      planned calls, and an operand call for each of the rest. */
  method ArgpParse(s: Settings, argv: array<string>, parseArgv0: bool) returns (status: Status, calls: seq<Call>)
    modifies argv
    ensures var base := Base(argv.Length, parseArgv0);
            var p := PlanArgs(s, old(argv[..])[base..]);
            && status == (match p.ending case Scanned => Finished case Invalid => Rejected case Crash => Crashed)
            && (status.Finished? ==>
                  && argv[..] == old(argv[..])[..base] + p.front + p.skipped + p.rest
                  && calls == p.calls + ArgCalls(p.skipped + p.rest))
            && (!status.Finished? ==> calls == p.calls)
    ensures multiset(argv[..]) == multiset(old(argv[..]))
  {
    ghost var words, base := argv[..], Base(argv.Length, parseArgv0);
    assert argv[..base] == words[..base] && argv[base..] == words[base..];
    var parser := new Parser(s, argv, parseArgv0);
    WholePlanIs(words[..base], PlanArgs(s, words[base..]));
    WholePlanPermutes(s, words, base);
    status := parser.Parse();
    calls := parser.calls;
    if status.Rejected? {
      HaltedKeepsWords(parser, Invalid);
    } else if status.Crashed? {
      HaltedKeepsWords(parser, Crash);
    }
  }
}
