/** Tags as S-expressions: compiling (spki/tag.c:496-669) and formatting
    (spki/tag.c:931-1012), over S-expression trees and an iterator on them. */
module TagSyntax {
  import opened Wrappers
  import opened Tags
  import opened TagIntersect

  datatype Sexp = SAtom(display: Option<string>, text: string) | SList(items: seq<Sexp>)

  /** The iterator: what is left of the current list, and of each list around it. */
  datatype Cursor = Cursor(rest: seq<Sexp>, outer: seq<seq<Sexp>>)

  datatype Compiled = Compiled(tag: Tag, at: Cursor) | Refused | Aborted

  datatype CompiledList = Listed(tags: seq<Tag>, at: Cursor) | ListRefused | ListAborted

  const STAR := SAtom(None, "*")
  const SET := SAtom(None, "set")
  const PREFIX := SAtom(None, "prefix")

  // ----- Size, for termination

  function Nodes(s: Sexp): (n: nat)
    ensures n > 0
  {
    match s
    case SAtom(_, _) => 1
    case SList(items) => 1 + AllNodes(items)
  }

  function AllNodes(ss: seq<Sexp>): nat {
    if ss == [] then 0 else Nodes(ss[0]) + AllNodes(ss[1..])
  }

  function OuterNodes(outer: seq<seq<Sexp>>): nat {
    if outer == [] then 0 else AllNodes(outer[0]) + OuterNodes(outer[1..])
  }

  function Weight(c: Cursor): nat {
    AllNodes(c.rest) + OuterNodes(c.outer)
  }

  // ----- Compiling

  /** After a list or an atom. */
  function Skip(c: Cursor): Cursor
    requires c.rest != []
  {
    c.(rest := c.rest[1..])
  }

  /** Inside the list at the cursor, before its element `k`. */
  function Enter(c: Cursor, k: nat): (e: Cursor)
    requires c.rest != [] && c.rest[0].SList? && k <= |c.rest[0].items|
    ensures Weight(e) < Weight(c) && |e.outer| == |c.outer| + 1
  {
    FewerNodes(c.rest[0].items, k);
    var e := Cursor(c.rest[0].items[k..], [c.rest[1..]] + c.outer);
    assert e.outer[0] == c.rest[1..] && e.outer[1..] == c.outer;
    assert OuterNodes(e.outer) == AllNodes(c.rest[1..]) + OuterNodes(c.outer);
    assert AllNodes(c.rest) == 1 + AllNodes(c.rest[0].items) + AllNodes(c.rest[1..]);
    e
  }

  lemma {:induction false} FewerNodes(ss: seq<Sexp>, k: nat)
    requires k <= |ss|
    ensures AllNodes(ss[k..]) <= AllNodes(ss)
  {
    if k == 0 {
      assert ss[0..] == ss;
    } else {
      FewerNodes(ss[1..], k - 1);
      assert ss[1..][k - 1..] == ss[k..];
    }
  }

  /** spki_tag_compile. An empty set is compiled without leaving its list. */
  function Compile(c: Cursor): (r: Compiled)
    ensures r.Compiled? ==> Weight(r.at) < Weight(c) && |r.at.outer| >= |c.outer|
    decreases Weight(c), 0
  {
    if c.rest == [] then Refused
    else
      match c.rest[0]
      case SAtom(d, t) => Compiled(Atom(d, t), Skip(c))
      case SList(items) =>
        if items == [] || items[0].SList? then Refused
        else if items[0] != STAR then
          match CompileList(Enter(c, 0))
          case Listed(ts, at) => if ts == [] then Refused else Compiled(List(ts), at)
          case ListRefused => Refused
          case ListAborted => Aborted
        else if |items| == 1 then Compiled(Any, Skip(c))
        else if items[1] == SET then
          if |items| == 2 then Compiled(Set([]), Enter(c, 2))
          else CompiledSet(CompileList(Enter(c, 2)))
        else if items[1] == PREFIX then
          if |items| == 2 || items[2].SList? then Aborted
          else if |items| == 3 then Compiled(Prefix(items[2].display, items[2].text), Skip(c))
          else Refused
        else Refused
  }

  function CompiledSet(l: CompiledList): Compiled {
    match l
    case Listed(ts, at) =>
      if ts == [] then Refused
      else
        (match SetAlloc(Reverse(ts))
         case Meets(t) => Compiled(t, at)
         case _ => Aborted)
    case ListRefused => Refused
    case ListAborted => Aborted
  }

  /** spki_tag_compile_list, with its result in source order. */
  function CompileList(c: Cursor): (r: CompiledList)
    ensures r.Listed? ==> Weight(r.at) <= Weight(c) && |r.at.outer| + 1 >= |c.outer|
    decreases Weight(c), 1
  {
    if c.rest == [] then
      if c.outer == [] then ListRefused else Listed([], Cursor(c.outer[0], c.outer[1..]))
    else
      match Compile(c)
      case Refused => ListRefused
      case Aborted => ListAborted
      case Compiled(t, at) =>
        match CompileList(at)
        case Listed(ts, at') => Listed([t] + ts, at')
        case other => other
  }

  // ----- Formatting

  /** spki_tag_format. */
  function Format(t: Tag): Sexp {
    match t
    case Any => SList([STAR])
    case Set(ts) => SList([STAR, SET] + Formats(ts))
    case List(ts) => SList(Formats(ts))
    case Prefix(d, p) => SList([STAR, PREFIX, SAtom(d, p)])
    case Atom(d, a) => SAtom(d, a)
  }

  function Formats(ts: seq<Tag>): (ss: seq<Sexp>)
    ensures |ss| == |ts|
  {
    if ts == [] then [] else [Format(ts[0])] + Formats(ts[1..])
  }

  // ----- What compiling consumes

  predicate HasEmptySet(s: Sexp) {
    s.SList? && (s.items == [STAR, SET] || AnyEmptySet(s.items))
  }

  predicate AnyEmptySet(ss: seq<Sexp>) {
    ss != [] && (HasEmptySet(ss[0]) || AnyEmptySet(ss[1..]))
  }

  lemma {:induction false} AnyEmptySetTail(ss: seq<Sexp>, k: nat)
    requires k <= |ss| && (forall i :: 0 <= i < k ==> ss[i].SAtom?)
    ensures AnyEmptySet(ss[k..]) <==> AnyEmptySet(ss)
  {
    if k == 0 {
      assert ss[0..] == ss;
    } else {
      AnyEmptySetTail(ss[1..], k - 1);
      assert ss[1..][k - 1..] == ss[k..];
    }
  }

  /** A tag as compiling produces it when no set is empty. */
  predicate WellFormed(t: Tag) {
    match t
    case Set(ts) => |ts| >= 2 && NoSets(ts) && AllWellFormed(ts)
    case List(ts) => ts != [] && ts[0].Atom? && ts[0] != Atom(None, "*") && AllWellFormed(ts)
    case _ => true
  }

  predicate AllWellFormed(ts: seq<Tag>) {
    ts == [] || (WellFormed(ts[0]) && AllWellFormed(ts[1..]))
  }

  lemma {:induction false} WellFormedConcat(ts: seq<Tag>, us: seq<Tag>)
    ensures AllWellFormed(ts + us) <==> AllWellFormed(ts) && AllWellFormed(us)
  {
    if ts == [] {
      assert ts + us == us;
    } else {
      assert (ts + us)[1..] == ts[1..] + us;
      WellFormedConcat(ts[1..], us);
    }
  }

  lemma {:induction false} WellFormedReverse(ts: seq<Tag>)
    ensures AllWellFormed(Reverse(ts)) <==> AllWellFormed(ts)
    ensures |Reverse(ts)| == |ts|
  {
    if ts != [] {
      WellFormedReverse(ts[1..]);
      WellFormedConcat(Reverse(ts[1..]), [ts[0]]);
    }
  }

  lemma {:induction false} WellFormedFlatten(ts: seq<Tag>)
    requires AllWellFormed(ts)
    ensures InnerSetsFlat(ts) && NoSets(Flatten(ts)) && AllWellFormed(Flatten(ts)) && |Flatten(ts)| >= |ts|
  {
    if ts != [] {
      var here := if ts[0].Set? then ts[0].items else [ts[0]];
      WellFormedFlatten(ts[1..]);
      WellFormedConcat(here, Flatten(ts[1..]));
      NormalConcat(here, Flatten(ts[1..]));
    }
  }

  lemma SetAllocIsWellFormed(ts: seq<Tag>)
    requires AllWellFormed(ts) && ts != []
    ensures SetAlloc(ts).Meets? && WellFormed(SetAlloc(ts).tag)
  {
    WellFormedFlatten(ts);
    WellFormedReverse(Flatten(ts));
    NormalReverse(Flatten(ts));
  }

  /** Without empty sets, an expression that compiles is consumed exactly and yields a
      well-formed tag. */
  lemma {:induction false} CompileConsumesOne(s: Sexp, c: Cursor)
    requires c.rest != [] && c.rest[0] == s && !HasEmptySet(s) && Compile(c).Compiled?
    ensures Compile(c).at == Skip(c)
    ensures WellFormed(Compile(c).tag)
    decreases s
  {
    if s.SList? {
      if s.items[0] != STAR {
        CompileListConsumes(s.items, Enter(c, 0));
      } else if |s.items| > 2 && s.items[1] == SET {
        AnyEmptySetTail(s.items, 2);
        CompileListConsumes(s.items[2..], Enter(c, 2));
        var ts := CompileList(Enter(c, 2)).tags;
        WellFormedReverse(ts);
        SetAllocIsWellFormed(Reverse(ts));
      }
    }
  }

  lemma {:induction false} CompileListConsumes(ss: seq<Sexp>, c: Cursor)
    requires c.rest == ss && c.outer != [] && !AnyEmptySet(ss) && CompileList(c).Listed?
    ensures CompileList(c).at == Cursor(c.outer[0], c.outer[1..])
    ensures |CompileList(c).tags| == |ss| && AllWellFormed(CompileList(c).tags)
    ensures ss != [] && ss[0].SAtom? ==> CompileList(c).tags[0] == Atom(ss[0].display, ss[0].text)
    decreases ss
  {
    if ss != [] {
      CompileConsumesOne(ss[0], c);
      CompileListConsumes(ss[1..], Skip(c));
    }
  }

  /** An empty set leaves the iterator inside a list it should have left. */
  lemma {:induction false} EmptySetStaysInside(s: Sexp, c: Cursor)
    requires c.rest != [] && c.rest[0] == s && HasEmptySet(s) && Compile(c).Compiled?
    ensures |Compile(c).at.outer| > |c.outer|
    decreases s
  {
    if s.items != [STAR, SET] {
      if s.items[0] != STAR {
        ListStaysInside(s.items, Enter(c, 0));
      } else {
        AnyEmptySetTail(s.items, if |s.items| >= 2 && s.items[1] == SET then 2 else |s.items|);
        ListStaysInside(s.items[2..], Enter(c, 2));
      }
    }
  }

  lemma {:induction false} ListStaysInside(ss: seq<Sexp>, c: Cursor)
    requires c.rest == ss && AnyEmptySet(ss) && CompileList(c).Listed?
    ensures |CompileList(c).at.outer| >= |c.outer|
    decreases ss
  {
    if HasEmptySet(ss[0]) {
      EmptySetStaysInside(ss[0], c);
    } else {
      CompileConsumesOne(ss[0], c);
      ListStaysInside(ss[1..], Skip(c));
    }
  }

  /** Compiling ends right after the expression if and only if it has no empty set. */
  lemma CompileIsBalancedIff(s: Sexp, c: Cursor)
    requires c.rest != [] && c.rest[0] == s && Compile(c).Compiled?
    ensures Compile(c).at == Skip(c) <==> !HasEmptySet(s)
  {
    if HasEmptySet(s) {
      EmptySetStaysInside(s, c);
    } else {
      CompileConsumesOne(s, c);
    }
  }

  /** Compiling puts no set directly inside a set, empty sets or not. */
  lemma {:induction false} CompileIsNormal(c: Cursor)
    requires Compile(c).Compiled?
    ensures Normal(Compile(c).tag)
    decreases Weight(c), 0
  {
    if c.rest[0].SList? {
      var items := c.rest[0].items;
      if items[0] != STAR {
        CompileListIsNormal(Enter(c, 0));
      } else if |items| > 2 && items[1] == SET {
        CompileListIsNormal(Enter(c, 2));
        var ts := CompileList(Enter(c, 2)).tags;
        NormalReverse(ts);
        SetAllocIsNormal(Reverse(ts));
      }
    }
  }

  lemma {:induction false} CompileListIsNormal(c: Cursor)
    requires CompileList(c).Listed?
    ensures AllNormal(CompileList(c).tags)
    decreases Weight(c), 1
  {
    if c.rest != [] {
      CompileIsNormal(c);
      CompileListIsNormal(Compile(c).at);
    }
  }

  // ----- What compiling accepts

  datatype Judgement = Accept | Refuse | Fail

  /** A prefix form that lacks its atom fails an assert; other malformed expressions
      are refused; the first fault in reading order decides. */
  function Judge(s: Sexp): Judgement {
    match s
    case SAtom(_, _) => Accept
    case SList(items) =>
      if items == [] || items[0].SList? then Refuse
      else if items[0] != STAR then JudgeAll(items)
      else if |items| == 1 then Accept
      else if items[1] == SET then JudgeAll(items[2..])
      else if items[1] == PREFIX then
        if |items| == 2 || items[2].SList? then Fail else if |items| == 3 then Accept else Refuse
      else Refuse
  }

  function JudgeAll(ss: seq<Sexp>): Judgement {
    if ss == [] then Accept
    else
      match Judge(ss[0])
      case Accept => JudgeAll(ss[1..])
      case other => other
  }

  function Outcome(r: Compiled): Judgement {
    match r
    case Compiled(_, _) => Accept
    case Refused => Refuse
    case Aborted => Fail
  }

  function ListOutcome(r: CompiledList): Judgement {
    match r
    case Listed(_, _) => Accept
    case ListRefused => Refuse
    case ListAborted => Fail
  }

  /** Without empty sets, an expression is compiled, refused or fails an assert as
      its form says. */
  lemma {:induction false} CompileOutcome(s: Sexp, c: Cursor)
    requires c.rest != [] && c.rest[0] == s && !HasEmptySet(s)
    ensures Outcome(Compile(c)) == Judge(s)
    decreases s
  {
    if s.SList? && s.items != [] && s.items[0].SAtom? {
      if s.items[0] != STAR {
        CompileListOutcome(s.items, Enter(c, 0));
        if CompileList(Enter(c, 0)).Listed? {
          CompileListConsumes(s.items, Enter(c, 0));
        }
      } else if |s.items| > 2 && s.items[1] == SET {
        AnyEmptySetTail(s.items, 2);
        CompileListOutcome(s.items[2..], Enter(c, 2));
        if CompileList(Enter(c, 2)).Listed? {
          CompileListConsumes(s.items[2..], Enter(c, 2));
          CompileListIsNormal(Enter(c, 2));
          var ts := CompileList(Enter(c, 2)).tags;
          NormalReverse(ts);
          SetAllocIsNormal(Reverse(ts));
        }
      }
    }
  }

  lemma {:induction false} CompileListOutcome(ss: seq<Sexp>, c: Cursor)
    requires c.rest == ss && c.outer != [] && !AnyEmptySet(ss)
    ensures ListOutcome(CompileList(c)) == JudgeAll(ss)
    decreases ss
  {
    if ss != [] {
      CompileOutcome(ss[0], c);
      if Compile(c).Compiled? {
        CompileConsumesOne(ss[0], c);
        CompileListOutcome(ss[1..], Skip(c));
      }
    }
  }

  /** The shortest expression that fails the assert. */
  lemma PrefixWithoutAtomFails()
    ensures Compile(Cursor([SList([STAR, PREFIX])], [])) == Aborted
  {
    assert STAR.text[0] != SET.text[0];
    assert |PREFIX.text| != |SET.text|;
  }

  /** No prefix form anywhere lacks its atom. */
  predicate Sound(s: Sexp) {
    s.SList? ==>
      AllSound(s.items) &&
      !(|s.items| >= 2 && s.items[..2] == [STAR, PREFIX] && (|s.items| == 2 || s.items[2].SList?))
  }

  predicate AllSound(ss: seq<Sexp>) {
    ss == [] || (Sound(ss[0]) && AllSound(ss[1..]))
  }

  predicate OuterSound(outer: seq<seq<Sexp>>) {
    outer == [] || (AllSound(outer[0]) && OuterSound(outer[1..]))
  }

  predicate CursorSound(c: Cursor) {
    AllSound(c.rest) && OuterSound(c.outer)
  }

  lemma {:induction false} AllSoundTail(ss: seq<Sexp>, k: nat)
    requires AllSound(ss) && k <= |ss|
    ensures AllSound(ss[k..])
  {
    if k == 0 {
      assert ss[0..] == ss;
    } else {
      AllSoundTail(ss[1..], k - 1);
      assert ss[1..][k - 1..] == ss[k..];
    }
  }

  lemma EnterSound(c: Cursor, k: nat)
    requires CursorSound(c) && c.rest != [] && c.rest[0].SList? && k <= |c.rest[0].items|
    ensures CursorSound(Enter(c, k))
  {
    assert Sound(c.rest[0]);
    AllSoundTail(c.rest[0].items, k);
    var outer := [c.rest[1..]] + c.outer;
    assert outer[0] == c.rest[1..] && outer[1..] == c.outer;
  }

  /** With empty sets or without, no assert fails if no prefix form lacks its atom. */
  lemma {:induction false} SoundCompileDoesNotFail(c: Cursor)
    requires CursorSound(c)
    ensures Compile(c) != Aborted
    ensures Compile(c).Compiled? ==> CursorSound(Compile(c).at)
    decreases Weight(c), 0
  {
    if c.rest != [] && c.rest[0].SList? && c.rest[0].items != [] && c.rest[0].items[0].SAtom? {
      var items := c.rest[0].items;
      if items[0] != STAR {
        EnterSound(c, 0);
        SoundListDoesNotFail(Enter(c, 0));
      } else if |items| >= 2 && items[1] == SET {
        EnterSound(c, 2);
        SoundListDoesNotFail(Enter(c, 2));
        if CompileList(Enter(c, 2)).Listed? {
          CompileListIsNormal(Enter(c, 2));
          var ts := CompileList(Enter(c, 2)).tags;
          NormalReverse(ts);
          SetAllocIsNormal(Reverse(ts));
        }
      } else if |items| >= 2 && items[1] == PREFIX {
        assert Sound(c.rest[0]) && items[..2] == [STAR, PREFIX];
      }
    }
  }

  lemma {:induction false} SoundListDoesNotFail(c: Cursor)
    requires CursorSound(c)
    ensures CompileList(c) != ListAborted
    ensures CompileList(c).Listed? ==> CursorSound(CompileList(c).at)
    decreases Weight(c), 1
  {
    if c.rest != [] {
      SoundCompileDoesNotFail(c);
      if Compile(c).Compiled? {
        var at := Compile(c).at;
        SoundListDoesNotFail(at);
        assert CompileList(c).Listed? ==> CompileList(at).Listed? && CompileList(c).at == CompileList(at).at;
      }
    } else if c.outer != [] {
      assert AllSound(c.outer[0]) && OuterSound(c.outer[1..]);
    }
  }

  // ----- Formatting and compiling are inverse

  lemma {:induction false} FlattenWithoutSets(ts: seq<Tag>)
    requires NoSets(ts)
    ensures Flatten(ts) == ts && InnerSetsFlat(ts)
  {
    if ts != [] {
      FlattenWithoutSets(ts[1..]);
    }
  }

  lemma {:induction false} CompileUndoesFormat(t: Tag, c: Cursor)
    requires WellFormed(t) && c.rest != [] && c.rest[0] == Format(t)
    ensures Compile(c) == Compiled(t, Skip(c))
    decreases t
  {
    match t
    case Set(ts) =>
      var items := [STAR, SET] + Formats(ts);
      assert items[2..] == Formats(ts);
      CompileUndoesFormats(ts, Enter(c, 2));
      NormalReverse(ts);
      WellFormedReverse(ts);
      FlattenWithoutSets(Reverse(ts));
      ReverseTwice(ts);
    case List(ts) =>
      CompileUndoesFormats(ts, Enter(c, 0));
    case _ =>
  }

  lemma {:induction false} CompileUndoesFormats(ts: seq<Tag>, c: Cursor)
    requires AllWellFormed(ts) && c.rest == Formats(ts) && c.outer != []
    ensures CompileList(c) == Listed(ts, Cursor(c.outer[0], c.outer[1..]))
    decreases ts
  {
    if ts != [] {
      CompileUndoesFormat(ts[0], c);
      CompileUndoesFormats(ts[1..], Skip(c));
    }
  }

  // ----- Compiling keeps the meaning

  /** The requests an S-expression stands for, read without normalizing sets. */
  predicate Denotes(s: Sexp, g: Tag) {
    match s
    case SAtom(d, t) => g == Atom(d, t)
    case SList(items) =>
      if items == [] then false
      else if items[0] != STAR then g.List? && DenotesAll(items, g.items)
      else if |items| == 1 then true
      else if items[1] == SET then DenotesAny(items[2..], g)
      else |items| == 3 && items[1] == PREFIX && items[2].SAtom? &&
           g.Atom? && g.display == items[2].display && items[2].text <= g.atom
  }

  predicate DenotesAny(ss: seq<Sexp>, g: Tag) {
    ss != [] && (Denotes(ss[0], g) || DenotesAny(ss[1..], g))
  }

  predicate DenotesAll(ss: seq<Sexp>, gs: seq<Tag>) {
    ss == [] || (gs != [] && Denotes(ss[0], gs[0]) && DenotesAll(ss[1..], gs[1..]))
  }

  lemma {:induction false} CompileKeepsMeaning(s: Sexp, c: Cursor, g: Tag)
    requires c.rest != [] && c.rest[0] == s && !HasEmptySet(s) && Compile(c).Compiled?
    ensures Grants(Compile(c).tag, g) <==> Denotes(s, g)
    decreases s
  {
    if s.SList? {
      if s.items[0] != STAR {
        if g.List? {
          CompileListKeepsAll(s.items, Enter(c, 0), g.items);
        }
      } else if |s.items| > 2 && s.items[1] == SET {
        AnyEmptySetTail(s.items, 2);
        CompileListKeepsAny(s.items[2..], Enter(c, 2), g);
        var ts := CompileList(Enter(c, 2)).tags;
        AnyReverse(ts, g);
        SetAllocKeepsMeaning(Reverse(ts), g);
      }
    }
  }

  lemma {:induction false} CompileListKeepsAny(ss: seq<Sexp>, c: Cursor, g: Tag)
    requires c.rest == ss && !AnyEmptySet(ss) && CompileList(c).Listed?
    ensures GrantsAny(CompileList(c).tags, g) <==> DenotesAny(ss, g)
    decreases ss
  {
    if ss != [] {
      CompileConsumesOne(ss[0], c);
      CompileKeepsMeaning(ss[0], c, g);
      CompileListKeepsAny(ss[1..], Skip(c), g);
    }
  }

  lemma {:induction false} CompileListKeepsAll(ss: seq<Sexp>, c: Cursor, gs: seq<Tag>)
    requires c.rest == ss && !AnyEmptySet(ss) && CompileList(c).Listed?
    ensures GrantsAll(CompileList(c).tags, gs) <==> DenotesAll(ss, gs)
    decreases ss
  {
    if ss != [] {
      CompileConsumesOne(ss[0], c);
      if gs != [] {
        CompileKeepsMeaning(ss[0], c, gs[0]);
        CompileListKeepsAll(ss[1..], Skip(c), gs[1..]);
      }
    }
  }

  /** Formatting a compiled tag and compiling it again gives the tag back. */
  lemma CompiledTagsRoundTrip(s: Sexp, c: Cursor)
    requires c.rest != [] && c.rest[0] == s && !HasEmptySet(s) && Compile(c).Compiled?
    ensures Compile(Cursor([Format(Compile(c).tag)], [])) == Compiled(Compile(c).tag, Cursor([], []))
  {
    CompileConsumesOne(s, c);
    CompileUndoesFormat(Compile(c).tag, Cursor([Format(Compile(c).tag)], []));
  }

  /** An empty set ends the list it stands in: (a (* set) b) compiles to a tag of
      two elements and leaves b unread. */
  lemma EmptySetEndsItsList()
    ensures var a, b := SAtom(None, "a"), SAtom(None, "b");
            Compile(Cursor([SList([a, SList([STAR, SET]), b])], [])) ==
            Compiled(List([Atom(None, "a"), Set([])]), Cursor([b], [[]]))
  {
    var a, b, e := SAtom(None, "a"), SAtom(None, "b"), SList([STAR, SET]);
    assert "a"[0] != "*"[0];
    var c0 := Cursor([SList([a, e, b])], []);
    var c1 := Cursor([a, e, b], [[]]);
    assert Enter(c0, 0) == c1;
    var c2 := Cursor([e, b], [[]]);
    assert Skip(c1) == c2;
    var c3 := Cursor([], [[b], []]);
    assert Compile(c2) == Compiled(Set([]), c3);
    assert CompileList(c3) == Listed([], Cursor([b], [[]]));
    assert CompileList(c2) == Listed([Set([])], Cursor([b], [[]]));
    assert CompileList(c1) == Listed([Atom(None, "a"), Set([])], Cursor([b], [[]]));
  }
}
