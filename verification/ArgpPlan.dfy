/** What the plan for a command line promises: it loses and reorders nothing within
    its parts, sets aside exactly plain words, and its rearranged form means the same. */
module ArgpPlan {
  import opened Wrappers
  import opened ArgpSpec

  // ----- Order

  /** `c` is `a` and `b` shuffled together, each in its own order. */
  predicate Interleaves(a: seq<string>, b: seq<string>, c: seq<string>)
    decreases |c|
  {
    if c == [] then a == [] && b == []
    else
      || (a != [] && a[0] == c[0] && Interleaves(a[1..], b, c[1..]))
      || (b != [] && b[0] == c[0] && Interleaves(a, b[1..], c[1..]))
  }

  lemma {:induction false} InterleavingKeepsWords(a: seq<string>, b: seq<string>, c: seq<string>)
    requires Interleaves(a, b, c)
    ensures multiset(c) == multiset(a) + multiset(b)
    decreases |c|
  {
    if c != [] {
      assert c == [c[0]] + c[1..];
      if a != [] && a[0] == c[0] && Interleaves(a[1..], b, c[1..]) {
        InterleavingKeepsWords(a[1..], b, c[1..]);
        assert a == [a[0]] + a[1..];
      } else {
        InterleavingKeepsWords(a, b[1..], c[1..]);
        assert b == [b[0]] + b[1..];
      }
    }
  }

  ghost predicate Splits(args: seq<string>, p: Plan) {
    exists seen :: args == seen + p.rest && Interleaves(p.front, p.skipped, seen)
  }

  lemma SplitsFront(x: string, args: seq<string>, p: Plan, calls: seq<Call>)
    requires Splits(args, p)
    ensures Splits([x] + args, Before([x], [], calls, p))
  {
    var seen :| args == seen + p.rest && Interleaves(p.front, p.skipped, seen);
    assert ([x] + seen)[1..] == seen && ([x] + p.front)[1..] == p.front && [] + p.skipped == p.skipped;
    assert Interleaves([x] + p.front, p.skipped, [x] + seen);
    assert [x] + args == ([x] + seen) + p.rest;
  }

  lemma SplitsSkipped(x: string, args: seq<string>, p: Plan)
    requires Splits(args, p)
    ensures Splits([x] + args, Before([], [x], [], p))
  {
    var seen :| args == seen + p.rest && Interleaves(p.front, p.skipped, seen);
    assert ([x] + seen)[1..] == seen && ([x] + p.skipped)[1..] == p.skipped && [] + p.front == p.front;
    assert Interleaves(p.front, [x] + p.skipped, [x] + seen);
    assert [x] + args == ([x] + seen) + p.rest;
  }

  lemma SplitsCalls(args: seq<string>, p: Plan, calls: seq<Call>)
    requires Splits(args, p)
    ensures Splits(args, Before([], [], calls, p))
  {
    assert [] + p.front == p.front && [] + p.skipped == p.skipped;
  }

  lemma SplitsStopped(args: seq<string>, ending: Ending)
    ensures Splits(args, Stopped([], args, ending))
  {
    assert args == [] + args && Interleaves([], [], []);
  }

  /** The words are the plan's parts: `front` and `skipped` shuffled, each in
      order, and then `rest`. */
  lemma {:induction false} PlanKeepsOrder(s: Settings, args: seq<string>)
    ensures Splits(args, PlanArgs(s, args))
    decreases |args|, 0
  {
    if args == [] {
      SplitsStopped(args, Scanned);
    } else {
      var arg, more := args[0], args[1..];
      assert args == [arg] + more;
      match Classify(arg) {
        case Plain =>
          match s.ordering {
            case Permute => PlanKeepsOrder(s, more); SplitsSkipped(arg, more, PlanArgs(s, more));
            case RequireOrder => SplitsStopped(args, Scanned);
            case ReturnInOrder => PlanKeepsOrder(s, more); SplitsFront(arg, more, PlanArgs(s, more), [ArgCall(arg)]);
          }
        case Quote =>
          SplitsStopped(more, Scanned);
          SplitsFront(arg, more, Stopped([], more, Scanned), []);
          assert Before([arg], [], [], Stopped([], more, Scanned)) == Stopped([arg], more, Scanned);
        case Short(chars) => ShortKeepsOrder(s, chars, more); SplitsFront(arg, more, PlanShort(s, chars, more), []);
        case Long(text) =>
          OptionKeepsOrder(s, FindLong(s.options, text), Inline(text), more);
          SplitsFront(arg, more, PlanOption(s, FindLong(s.options, text), Inline(text), more), []);
      }
    }
  }

  lemma {:induction false} OptionKeepsOrder(s: Settings, option: Option<OptionEntry>, value: Option<string>,
                                            args: seq<string>)
    ensures Splits(args, PlanOption(s, option, value, args))
    decreases |args|, 1
  {
    match ReadLong(option, value) {
      case Bad => SplitsStopped(args, Invalid);
      case Ready(v) => PlanKeepsOrder(s, args); SplitsCalls(args, PlanArgs(s, args), [OptionCall(option.value.key, v)]);
      case TakesNext =>
        if args == [] {
          SplitsStopped(args, Invalid);
        } else {
          PlanKeepsOrder(s, args[1..]);
          SplitsFront(args[0], args[1..], PlanArgs(s, args[1..]), [OptionCall(option.value.key, Some(args[0]))]);
          assert args == [args[0]] + args[1..];
        }
    }
  }

  lemma {:induction false} ShortKeepsOrder(s: Settings, chars: string, args: seq<string>)
    requires chars != ""
    ensures Splits(args, PlanShort(s, chars, args))
    decreases |args|, 1 + |chars|
  {
    if chars[0] as int >= 128 {
      SplitsStopped(args, Crash);
    } else {
      var option, inline := FindShort(s.options, chars[0]), chars[1..];
      if option.Some? && !option.value.takesArg && inline != "" {
        ShortKeepsOrder(s, inline, args);
        SplitsCalls(args, PlanShort(s, inline, args), [OptionCall(option.value.key, None)]);
      } else {
        OptionKeepsOrder(s, option, if inline == "" then None else Some(inline), args);
      }
    }
  }

  /** The rearranged words are a permutation of the given ones. */
  lemma PlanPermutes(s: Settings, args: seq<string>)
    ensures var p := PlanArgs(s, args); multiset(p.front + p.skipped + p.rest) == multiset(args)
  {
    var p := PlanArgs(s, args);
    PlanKeepsOrder(s, args);
    var seen :| args == seen + p.rest && Interleaves(p.front, p.skipped, seen);
    InterleavingKeepsWords(p.front, p.skipped, seen);
  }

  // ----- What is set aside

  predicate AllPlain(words: seq<string>) {
    forall w <- words :: Classify(w).Plain?
  }

  /** A scan that ends well stopped at the end, at "--", or, where the first plain
      word ends the options, at that word. */
  predicate EndsWell(s: Settings, p: Plan) {
    || p.rest == []
    || (p.front != [] && p.front[|p.front| - 1] == "--")
    || (s.ordering.RequireOrder? && Classify(p.rest[0]).Plain?)
  }

  predicate SetsAside(s: Settings, p: Plan) {
    && AllPlain(p.skipped)
    && (s.ordering.Permute? || p.skipped == [])
    && (p.ending.Scanned? ==> EndsWell(s, p))
  }

  lemma QuoteIsDashes(arg: string)
    requires Classify(arg).Quote?
    ensures arg == "--"
  {
  }

  lemma BeforeSetsAside(s: Settings, front: seq<string>, skipped: seq<string>, calls: seq<Call>, p: Plan)
    requires SetsAside(s, p) && AllPlain(skipped) && (s.ordering.Permute? || skipped == [])
    ensures SetsAside(s, Before(front, skipped, calls, p))
  {
    var q := Before(front, skipped, calls, p);
    if p.front != [] {
      assert q.front[|q.front| - 1] == p.front[|p.front| - 1];
    }
  }

  /** Only plain words are ever set aside, and only when permuting. */
  lemma {:induction false} PlanSetsAsidePlainWords(s: Settings, args: seq<string>)
    ensures SetsAside(s, PlanArgs(s, args))
    decreases |args|, 0
  {
    if args != [] {
      var arg, more := args[0], args[1..];
      match Classify(arg) {
        case Plain =>
          PlanSetsAsidePlainWords(s, more);
          if s.ordering.Permute? {
            BeforeSetsAside(s, [], [arg], [], PlanArgs(s, more));
          } else if s.ordering.ReturnInOrder? {
            BeforeSetsAside(s, [arg], [], [ArgCall(arg)], PlanArgs(s, more));
          }
        case Quote => QuoteIsDashes(arg);
        case Short(chars) =>
          ShortSetsAside(s, chars, more);
          BeforeSetsAside(s, [arg], [], [], PlanShort(s, chars, more));
        case Long(text) =>
          OptionSetsAside(s, FindLong(s.options, text), Inline(text), more);
          BeforeSetsAside(s, [arg], [], [], PlanOption(s, FindLong(s.options, text), Inline(text), more));
      }
    }
  }

  lemma {:induction false} OptionSetsAside(s: Settings, option: Option<OptionEntry>, value: Option<string>,
                                           args: seq<string>)
    ensures SetsAside(s, PlanOption(s, option, value, args))
    decreases |args|, 1
  {
    match ReadLong(option, value) {
      case Bad =>
      case Ready(v) =>
        PlanSetsAsidePlainWords(s, args);
        BeforeSetsAside(s, [], [], [OptionCall(option.value.key, v)], PlanArgs(s, args));
      case TakesNext =>
        if args != [] {
          PlanSetsAsidePlainWords(s, args[1..]);
          BeforeSetsAside(s, [args[0]], [], [OptionCall(option.value.key, Some(args[0]))], PlanArgs(s, args[1..]));
        }
    }
  }

  lemma {:induction false} ShortSetsAside(s: Settings, chars: string, args: seq<string>)
    requires chars != ""
    ensures SetsAside(s, PlanShort(s, chars, args))
    decreases |args|, 1 + |chars|
  {
    if chars[0] as int < 128 {
      var option, inline := FindShort(s.options, chars[0]), chars[1..];
      if option.Some? && !option.value.takesArg && inline != "" {
        ShortSetsAside(s, inline, args);
        BeforeSetsAside(s, [], [], [OptionCall(option.value.key, None)], PlanShort(s, inline, args));
      } else {
        OptionSetsAside(s, option, if inline == "" then None else Some(inline), args);
      }
    }
  }

  // ----- The rearranged words mean the same

  /** The arguments left when the options are done. */
  function Operands(p: Plan): seq<string> {
    p.skipped + p.rest
  }

  /** `q` does what `p` does: the same words consumed, the same calls, and the
      operands `t`. */
  predicate SameWith(p: Plan, q: Plan, t: seq<string>) {
    q.front == p.front && q.calls == p.calls && q.ending.Scanned? && Operands(q) == t
  }

  lemma {:induction false} PlainWordsAreOperands(s: Settings, t: seq<string>)
    requires s.ordering.Permute? && AllPlain(t)
    ensures PlanArgs(s, t) == Plan([], t, [], [], Scanned)
    decreases |t|
  {
    if t != [] {
      PlainWordsAreOperands(s, t[1..]);
      assert t == [t[0]] + t[1..];
    }
  }

  lemma SameBefore(front: seq<string>, calls: seq<Call>, p: Plan, q: Plan, t: seq<string>)
    requires SameWith(p, q, t)
    ensures SameWith(Before(front, [], calls, p), Before(front, [], calls, q), t)
  {
    assert [] + q.skipped == q.skipped;
  }

  lemma PlanOfFirst(s: Settings, arg: string, more: seq<string>)
    ensures Classify(arg).Short? ==>
              PlanArgs(s, [arg] + more) == Before([arg], [], [], PlanShort(s, Classify(arg).chars, more))
    ensures Classify(arg).Long? ==>
              var text := Classify(arg).text;
              PlanArgs(s, [arg] + more) ==
              Before([arg], [], [], PlanOption(s, FindLong(s.options, text), Inline(text), more))
    ensures Classify(arg).Quote? ==> PlanArgs(s, [arg] + more) == Stopped([arg], more, Scanned)
  {
    assert ([arg] + more)[0] == arg && ([arg] + more)[1..] == more;
  }

  /** Words put behind the options of a scanned command line are taken for its
      operands, if they are plain or if "--" stopped the scan. */
  lemma {:induction false} OptionsThenWords(s: Settings, args: seq<string>, t: seq<string>)
    requires s.ordering.Permute?
    requires var p := PlanArgs(s, args); p.ending.Scanned? && (AllPlain(t) || p.rest != [])
    ensures var p := PlanArgs(s, args); SameWith(p, PlanArgs(s, p.front + t), t)
    decreases |args|, 0
  {
    var p := PlanArgs(s, args);
    if args == [] {
      assert p.front + t == t;
      PlainWordsAreOperands(s, t);
    } else {
      var arg, more := args[0], args[1..];
      match Classify(arg) {
        case Plain =>
          OptionsThenWords(s, more, t);
          assert p.front == PlanArgs(s, more).front && p.calls == PlanArgs(s, more).calls;
        case Quote =>
          PlanOfFirst(s, arg, t);
        case Short(chars) =>
          var p' := PlanShort(s, chars, more);
          ShortThenWords(s, chars, more, t);
          assert p.front + t == [arg] + (p'.front + t);
          SameBefore([arg], [], p', PlanShort(s, chars, p'.front + t), t);
          PlanOfFirst(s, arg, p'.front + t);
        case Long(text) =>
          var option, value := FindLong(s.options, text), Inline(text);
          var p' := PlanOption(s, option, value, more);
          OptionThenWords(s, option, value, more, t);
          assert p.front + t == [arg] + (p'.front + t);
          SameBefore([arg], [], p', PlanOption(s, option, value, p'.front + t), t);
          PlanOfFirst(s, arg, p'.front + t);
      }
    }
  }

  lemma {:induction false} OptionThenWords(s: Settings, option: Option<OptionEntry>, value: Option<string>,
                                           args: seq<string>, t: seq<string>)
    requires s.ordering.Permute?
    requires var p := PlanOption(s, option, value, args); p.ending.Scanned? && (AllPlain(t) || p.rest != [])
    ensures var p := PlanOption(s, option, value, args); SameWith(p, PlanOption(s, option, value, p.front + t), t)
    decreases |args|, 1
  {
    var p := PlanOption(s, option, value, args);
    match ReadLong(option, value) {
      case Bad =>
      case Ready(v) =>
        var p' := PlanArgs(s, args);
        OptionsThenWords(s, args, t);
        assert p.front == p'.front;
        SameBefore([], [OptionCall(option.value.key, v)], p', PlanArgs(s, p'.front + t), t);
      case TakesNext =>
        var p' := PlanArgs(s, args[1..]);
        OptionsThenWords(s, args[1..], t);
        assert (p.front + t)[0] == args[0] && (p.front + t)[1..] == p'.front + t;
        SameBefore([args[0]], [OptionCall(option.value.key, Some(args[0]))], p', PlanArgs(s, p'.front + t), t);
    }
  }

  lemma {:induction false} ShortThenWords(s: Settings, chars: string, args: seq<string>, t: seq<string>)
    requires s.ordering.Permute? && chars != ""
    requires var p := PlanShort(s, chars, args); p.ending.Scanned? && (AllPlain(t) || p.rest != [])
    ensures var p := PlanShort(s, chars, args); SameWith(p, PlanShort(s, chars, p.front + t), t)
    decreases |args|, 1 + |chars|
  {
    var p := PlanShort(s, chars, args);
    var option, inline := FindShort(s.options, chars[0]), chars[1..];
    if option.Some? && !option.value.takesArg && inline != "" {
      var p' := PlanShort(s, inline, args);
      ShortThenWords(s, inline, args, t);
      assert p.front == p'.front;
      SameBefore([], [OptionCall(option.value.key, None)], p', PlanShort(s, inline, p'.front + t), t);
    } else {
      OptionThenWords(s, option, if inline == "" then None else Some(inline), args, t);
    }
  }

  /** Rearranging a command line does not change what it means: parsed again, the
      permuted words give the same options, the same calls and the same operands. */
  lemma RearrangedMeansTheSame(s: Settings, args: seq<string>)
    requires s.ordering.Permute? && PlanArgs(s, args).ending.Scanned?
    ensures var p := PlanArgs(s, args);
            SameWith(p, PlanArgs(s, p.front + p.skipped + p.rest), Operands(p))
  {
    var p := PlanArgs(s, args);
    PlanSetsAsidePlainWords(s, args);
    OptionsThenWords(s, args, Operands(p));
    assert p.front + p.skipped + p.rest == p.front + Operands(p);
  }
}
