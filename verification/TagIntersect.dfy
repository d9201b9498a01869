/** Intersecting SPKI tags (spki/tag.c:451-491 and 810-926), and when the result
    means the intersection. */
module TagIntersect {
  import opened Wrappers
  import opened Tags

  /** `Disjoint` is a null result, `Crash` a failed assert. */
  datatype Meet = Meets(tag: Tag) | Disjoint | Crash

  // ----- Building lists and sets

  function Reverse(ts: seq<Tag>): seq<Tag> {
    if ts == [] then [] else Reverse(ts[1..]) + [ts[0]]
  }

  lemma {:induction false} ReverseSnoc(ts: seq<Tag>, t: Tag)
    ensures Reverse(ts + [t]) == [t] + Reverse(ts)
  {
    if ts == [] {
      assert [] + [t] == [t];
    } else {
      assert (ts + [t])[1..] == ts[1..] + [t];
      ReverseSnoc(ts[1..], t);
    }
  }

  lemma {:induction false} ReverseTwice(ts: seq<Tag>)
    ensures Reverse(Reverse(ts)) == ts
  {
    if ts != [] {
      ReverseSnoc(Reverse(ts[1..]), ts[0]);
      ReverseTwice(ts[1..]);
    }
  }

  predicate NoSets(ts: seq<Tag>) {
    ts == [] || (!ts[0].Set? && NoSets(ts[1..]))
  }

  predicate InnerSetsFlat(ts: seq<Tag>) {
    ts == [] || ((ts[0].Set? ==> NoSets(ts[0].items)) && InnerSetsFlat(ts[1..]))
  }

  function Flatten(ts: seq<Tag>): seq<Tag> {
    if ts == [] then [] else (if ts[0].Set? then ts[0].items else [ts[0]]) + Flatten(ts[1..])
  }

  /** spki_tag_set_alloc: a singleton is its element, and inner sets are merged. */
  function SetAlloc(ts: seq<Tag>): Meet {
    if |ts| == 1 then Meets(ts[0])
    else if InnerSetsFlat(ts) then Meets(Set(Reverse(Flatten(ts))))
    else Crash
  }

  // ----- spki_tag_intersect

  function Intersect(a: Tag, b: Tag): Meet
    decreases a, b, 1
  {
    if b.Any? then Meets(a)
    else
      match a
      case Any => Meets(b)
      case Set(xs) => if b.Set? then SetMeet(Cross(xs, b.items)) else Disjoint
      case List(xs) => if b.List? then ListMeet(Aligned(xs, b.items), Tail(xs, b.items)) else Disjoint
      case Prefix(d, p) =>
        if b.Prefix? then Crash
        else if b.Atom? && b.display == d && p <= b.atom then Meets(b)
        else Disjoint
      case Atom(d, s) =>
        if b == a || (b.Prefix? && b.display == d && b.atom <= s) then Meets(a) else Disjoint
  }

  /** The intersections of `x` with each of `ys`; `None` when one crashes. */
  function Row(x: Tag, ys: seq<Tag>): Option<seq<Tag>>
    decreases x, ys, 0
  {
    if ys == [] then Some([])
    else
      match (Intersect(x, ys[0]), Row(x, ys[1..]))
      case (Meets(t), Some(ts)) => Some([t] + ts)
      case (Disjoint, Some(ts)) => Some(ts)
      case _ => None
  }

  function Cross(xs: seq<Tag>, ys: seq<Tag>): Option<seq<Tag>>
    decreases xs, ys, 0
  {
    if xs == [] then Some([])
    else
      match (Row(xs[0], ys), Cross(xs[1..], ys))
      case (Some(ts), Some(us)) => Some(ts + us)
      case _ => None
  }

  function SetMeet(found: Option<seq<Tag>>): Meet {
    match found
    case None => Crash
    case Some(ts) => if ts == [] then Disjoint else SetAlloc(Reverse(ts))
  }

  /** The intersections of aligned children that are not null. */
  function Aligned(xs: seq<Tag>, ys: seq<Tag>): Option<seq<Tag>>
    decreases xs, ys, 0
  {
    if xs == [] || ys == [] then Some([])
    else
      match (Intersect(xs[0], ys[0]), Aligned(xs[1..], ys[1..]))
      case (Meets(t), Some(ts)) => Some([t] + ts)
      case (Disjoint, Some(ts)) => Some(ts)
      case _ => None
  }

  /** The children of the longer list that have no partner. */
  function Tail(xs: seq<Tag>, ys: seq<Tag>): seq<Tag> {
    if |xs| >= |ys| then xs[|ys|..] else ys[|xs|..]
  }

  function ListMeet(found: Option<seq<Tag>>, tail: seq<Tag>): Meet {
    match found
    case None => Crash
    case Some(ts) => if ts == [] then Crash else Meets(List(ts + tail))
  }

  lemma TailOfTails(xs: seq<Tag>, ys: seq<Tag>)
    requires xs != [] && ys != []
    ensures Tail(xs, ys) == Tail(xs[1..], ys[1..])
  {
    if |xs| >= |ys| {
      assert xs[|ys|..] == xs[1..][|ys| - 1..];
    } else {
      assert ys[|xs|..] == ys[1..][|xs| - 1..];
    }
  }

  lemma ConsConcat(t: Tag, ts: seq<Tag>, us: seq<Tag>)
    ensures [t] + ts + us == [t] + (ts + us)
  {
  }

  /** The children of the result of intersecting lists. */
  function Merged(xs: seq<Tag>, ys: seq<Tag>): seq<Tag>
    requires Aligned(xs, ys).Some?
  {
    Aligned(xs, ys).value + Tail(xs, ys)
  }

  lemma MergedNothing(xs: seq<Tag>, ys: seq<Tag>)
    requires xs == [] || ys == []
    ensures Merged(xs, ys) == if xs == [] then ys else xs
  {
    assert [] + Tail(xs, ys) == Tail(xs, ys);
    assert Tail(xs, ys) == if xs == [] then ys else xs;
  }

  /** They are those of the tails, after the first if there is one. */
  lemma MergedChildren(xs: seq<Tag>, ys: seq<Tag>)
    requires xs != [] && ys != [] && Aligned(xs, ys).Some?
    ensures Aligned(xs[1..], ys[1..]).Some?
    ensures var first := Intersect(xs[0], ys[0]);
            Merged(xs, ys) == (if first.Meets? then [first.tag] else []) + Merged(xs[1..], ys[1..])
  {
    TailOfTails(xs, ys);
    var ts, tail := Aligned(xs[1..], ys[1..]).value, Tail(xs, ys);
    match Intersect(xs[0], ys[0]) {
      case Meets(t) => ConsConcat(t, ts, tail);
      case Disjoint => assert [] + (ts + tail) == ts + tail;
    }
  }

  // ----- Normal form

  /** No set directly inside a set. */
  predicate Normal(t: Tag) {
    match t
    case Set(ts) => NoSets(ts) && AllNormal(ts)
    case List(ts) => AllNormal(ts)
    case _ => true
  }

  predicate AllNormal(ts: seq<Tag>) {
    ts == [] || (Normal(ts[0]) && AllNormal(ts[1..]))
  }

  lemma {:induction false} NormalConcat(ts: seq<Tag>, us: seq<Tag>)
    ensures AllNormal(ts + us) <==> AllNormal(ts) && AllNormal(us)
    ensures NoSets(ts + us) <==> NoSets(ts) && NoSets(us)
  {
    if ts == [] {
      assert ts + us == us;
    } else {
      assert (ts + us)[1..] == ts[1..] + us;
      NormalConcat(ts[1..], us);
    }
  }

  lemma {:induction false} NormalReverse(ts: seq<Tag>)
    ensures AllNormal(Reverse(ts)) <==> AllNormal(ts)
    ensures NoSets(Reverse(ts)) <==> NoSets(ts)
  {
    if ts != [] {
      NormalReverse(ts[1..]);
      NormalConcat(Reverse(ts[1..]), [ts[0]]);
    }
  }

  lemma {:induction false} NormalFlatten(ts: seq<Tag>)
    requires AllNormal(ts)
    ensures InnerSetsFlat(ts) && NoSets(Flatten(ts)) && AllNormal(Flatten(ts))
  {
    if ts != [] {
      NormalFlatten(ts[1..]);
      NormalConcat(if ts[0].Set? then ts[0].items else [ts[0]], Flatten(ts[1..]));
    }
  }

  /** The assert in spki_tag_set_alloc holds for normal children, and the result
      is normal. */
  lemma SetAllocIsNormal(ts: seq<Tag>)
    requires AllNormal(ts)
    ensures SetAlloc(ts).Meets? && Normal(SetAlloc(ts).tag)
  {
    NormalFlatten(ts);
    NormalReverse(Flatten(ts));
  }

  // ----- Normalization keeps the meaning

  lemma {:induction false} AnyConcat(ts: seq<Tag>, us: seq<Tag>, g: Tag)
    ensures GrantsAny(ts + us, g) <==> GrantsAny(ts, g) || GrantsAny(us, g)
  {
    if ts == [] {
      assert ts + us == us;
    } else {
      assert (ts + us)[1..] == ts[1..] + us;
      AnyConcat(ts[1..], us, g);
    }
  }

  lemma {:induction false} AnyReverse(ts: seq<Tag>, g: Tag)
    ensures GrantsAny(Reverse(ts), g) <==> GrantsAny(ts, g)
  {
    if ts != [] {
      AnyReverse(ts[1..], g);
      AnyConcat(Reverse(ts[1..]), [ts[0]], g);
    }
  }

  lemma {:induction false} AnyFlatten(ts: seq<Tag>, g: Tag)
    ensures GrantsAny(Flatten(ts), g) <==> GrantsAny(ts, g)
  {
    if ts != [] {
      AnyFlatten(ts[1..], g);
      AnyConcat(if ts[0].Set? then ts[0].items else [ts[0]], Flatten(ts[1..]), g);
    }
  }

  lemma SetAllocKeepsMeaning(ts: seq<Tag>, g: Tag)
    requires SetAlloc(ts).Meets?
    ensures Grants(SetAlloc(ts).tag, g) <==> GrantsAny(ts, g)
  {
    AnyFlatten(ts, g);
    AnyReverse(Flatten(ts), g);
  }

  // ----- Normal results

  /** Intersecting puts no set directly inside a set. */
  lemma {:induction false} IntersectIsNormal(a: Tag, b: Tag)
    requires Normal(a) && Normal(b) && Intersect(a, b).Meets?
    ensures Normal(Intersect(a, b).tag)
    decreases a, b, 1
  {
    match (a, b)
    case (Set(xs), Set(ys)) =>
      CrossIsNormal(xs, ys);
      var ts := Cross(xs, ys).value;
      NormalReverse(ts);
      SetAllocIsNormal(Reverse(ts));
    case (List(xs), List(ys)) =>
      AlignedIsNormal(xs, ys);
      TailIsNormal(xs, ys);
      NormalConcat(Aligned(xs, ys).value, Tail(xs, ys));
    case _ =>
  }

  lemma {:induction false} RowIsNormal(x: Tag, ys: seq<Tag>)
    requires Normal(x) && AllNormal(ys) && Row(x, ys).Some?
    ensures AllNormal(Row(x, ys).value)
    decreases x, ys, 0
  {
    if ys != [] {
      if Intersect(x, ys[0]).Meets? {
        IntersectIsNormal(x, ys[0]);
      }
      RowIsNormal(x, ys[1..]);
    }
  }

  lemma {:induction false} CrossIsNormal(xs: seq<Tag>, ys: seq<Tag>)
    requires AllNormal(xs) && AllNormal(ys) && Cross(xs, ys).Some?
    ensures AllNormal(Cross(xs, ys).value)
    decreases xs, ys, 0
  {
    if xs != [] {
      RowIsNormal(xs[0], ys);
      CrossIsNormal(xs[1..], ys);
      NormalConcat(Row(xs[0], ys).value, Cross(xs[1..], ys).value);
    }
  }

  lemma {:induction false} AlignedIsNormal(xs: seq<Tag>, ys: seq<Tag>)
    requires AllNormal(xs) && AllNormal(ys) && Aligned(xs, ys).Some?
    ensures AllNormal(Aligned(xs, ys).value)
    decreases xs, ys, 0
  {
    if xs != [] && ys != [] {
      if Intersect(xs[0], ys[0]).Meets? {
        IntersectIsNormal(xs[0], ys[0]);
      }
      AlignedIsNormal(xs[1..], ys[1..]);
    }
  }

  lemma TailIsNormal(xs: seq<Tag>, ys: seq<Tag>)
    requires AllNormal(xs) && AllNormal(ys)
    ensures AllNormal(Tail(xs, ys))
  {
    if |xs| >= |ys| {
      assert xs == xs[..|ys|] + xs[|ys|..];
      NormalConcat(xs[..|ys|], xs[|ys|..]);
    } else {
      assert ys == ys[..|xs|] + ys[|xs|..];
      NormalConcat(ys[..|xs|], ys[|xs|..]);
    }
  }

  // ----- When intersecting fails an assert, and when it gives nothing

  /** The tags have nothing that intersecting them would find. */
  predicate Away(a: Tag, b: Tag)
    decreases a, b, 1
  {
    match (a, b)
    case (Any, _) => false
    case (_, Any) => false
    case (Set(xs), Set(ys)) => AwayCross(xs, ys)
    case (List(_), List(_)) => false
    case (Prefix(d, p), Atom(e, s)) => d != e || !(p <= s)
    case (Atom(e, s), Prefix(d, p)) => d != e || !(p <= s)
    case (Atom(_, _), Atom(_, _)) => a != b
    case _ => true
  }

  predicate AwayRow(x: Tag, ys: seq<Tag>)
    decreases x, ys, 0
  {
    ys == [] || (Away(x, ys[0]) && AwayRow(x, ys[1..]))
  }

  predicate AwayCross(xs: seq<Tag>, ys: seq<Tag>)
    decreases xs, ys, 0
  {
    xs == [] || (AwayRow(xs[0], ys) && AwayCross(xs[1..], ys))
  }

  predicate AwayAligned(xs: seq<Tag>, ys: seq<Tag>)
    decreases xs, ys, 0
  {
    xs == [] || ys == [] || (Away(xs[0], ys[0]) && AwayAligned(xs[1..], ys[1..]))
  }

  /** A prefix meets a prefix, here or in a pair of elements or aligned children, or
      two lists meet that have nothing in common in any aligned pair. */
  predicate Clash(a: Tag, b: Tag)
    decreases a, b, 1
  {
    match (a, b)
    case (Set(xs), Set(ys)) => ClashCross(xs, ys)
    case (List(xs), List(ys)) => ClashAligned(xs, ys) || AwayAligned(xs, ys)
    case (Prefix(_, _), Prefix(_, _)) => true
    case _ => false
  }

  predicate ClashRow(x: Tag, ys: seq<Tag>)
    decreases x, ys, 0
  {
    ys != [] && (Clash(x, ys[0]) || ClashRow(x, ys[1..]))
  }

  predicate ClashCross(xs: seq<Tag>, ys: seq<Tag>)
    decreases xs, ys, 0
  {
    xs != [] && (ClashRow(xs[0], ys) || ClashCross(xs[1..], ys))
  }

  predicate ClashAligned(xs: seq<Tag>, ys: seq<Tag>)
    decreases xs, ys, 0
  {
    xs != [] && ys != [] && (Clash(xs[0], ys[0]) || ClashAligned(xs[1..], ys[1..]))
  }

  /** Intersecting normal tags fails an assert exactly when they clash, and gives
      nothing exactly when they are away from each other. */
  lemma {:induction false} IntersectFailsIff(a: Tag, b: Tag)
    requires Normal(a) && Normal(b)
    ensures Intersect(a, b) == Crash <==> Clash(a, b)
    ensures Intersect(a, b) == Disjoint <==> Away(a, b) && !Clash(a, b)
    decreases a, b, 1
  {
    match (a, b)
    case (Set(xs), Set(ys)) =>
      CrossFailsIff(xs, ys);
      if Cross(xs, ys).Some? {
        var ts := Cross(xs, ys).value;
        CrossIsNormal(xs, ys);
        NormalReverse(ts);
        SetAllocIsNormal(Reverse(ts));
      }
    case (List(xs), List(ys)) => AlignedFailsIff(xs, ys);
    case _ =>
  }

  lemma {:induction false} RowFailsIff(x: Tag, ys: seq<Tag>)
    requires Normal(x) && AllNormal(ys)
    ensures Row(x, ys).None? <==> ClashRow(x, ys)
    ensures Row(x, ys) == Some([]) <==> AwayRow(x, ys) && !ClashRow(x, ys)
    decreases x, ys, 0
  {
    if ys != [] {
      IntersectFailsIff(x, ys[0]);
      RowFailsIff(x, ys[1..]);
    }
  }

  lemma {:induction false} CrossFailsIff(xs: seq<Tag>, ys: seq<Tag>)
    requires AllNormal(xs) && AllNormal(ys)
    ensures Cross(xs, ys).None? <==> ClashCross(xs, ys)
    ensures Cross(xs, ys) == Some([]) <==> AwayCross(xs, ys) && !ClashCross(xs, ys)
    decreases xs, ys, 0
  {
    if xs != [] {
      RowFailsIff(xs[0], ys);
      CrossFailsIff(xs[1..], ys);
      var row, rest := Row(xs[0], ys), Cross(xs[1..], ys);
      if row.Some? && rest.Some? {
        assert |row.value + rest.value| == |row.value| + |rest.value|;
      }
    }
  }

  lemma {:induction false} AlignedFailsIff(xs: seq<Tag>, ys: seq<Tag>)
    requires AllNormal(xs) && AllNormal(ys)
    ensures Aligned(xs, ys).None? <==> ClashAligned(xs, ys)
    ensures Aligned(xs, ys) == Some([]) <==> AwayAligned(xs, ys) && !ClashAligned(xs, ys)
    decreases xs, ys, 0
  {
    if xs != [] && ys != [] {
      IntersectFailsIff(xs[0], ys[0]);
      AlignedFailsIff(xs[1..], ys[1..]);
    }
  }

  lemma OneIsNormal(t: Tag)
    requires Normal(t)
    ensures AllNormal([t]) && (NoSets([t]) <==> !t.Set?)
  {
    assert [t][1..] == [];
  }

  /** Two prefixes fail an assert even if they are the same; two lists whose first
      elements differ do, whatever follows in one of them; and a set and one of its
      elements have nothing in common, though both grant that element. */
  lemma IntersectFailures()
    ensures var ftp, http, x, p := Atom(None, "ftp"), Atom(None, "http"), Atom(None, "x"), Prefix(None, "f");
            && Intersect(p, p) == Crash
            && Intersect(List([ftp]), List([http, x])) == Crash
            && Intersect(Set([ftp, http]), ftp) == Disjoint && Grants(Set([ftp, http]), ftp) && Grants(ftp, ftp)
  {
    var ftp, http, x := Atom(None, "ftp"), Atom(None, "http"), Atom(None, "x");
    assert ftp.atom[0] != http.atom[0];
    assert Away(ftp, http) && AwayAligned([ftp], [http, x]);
    assert [ftp][1..] == [] && [http, x][1..] == [x];
    OneIsNormal(ftp);
    OneIsNormal(x);
    IntersectFailsIff(List([ftp]), List([http, x]));
  }

  // ----- When the intersection has its meaning

  /** No prefix form meets a prefix form, and where lists meet every aligned pair
      of children has something in common. */
  predicate Compatible(a: Tag, b: Tag)
    decreases a, b, 1
  {
    match (a, b)
    case (Set(xs), Set(ys)) => CompatibleCross(xs, ys)
    case (List(xs), List(ys)) => xs != [] && ys != [] && CompatibleAligned(xs, ys)
    case (Prefix(_, _), Prefix(_, _)) => false
    case _ => true
  }

  predicate CompatibleRow(x: Tag, ys: seq<Tag>)
    decreases x, ys, 0
  {
    ys == [] || (Compatible(x, ys[0]) && CompatibleRow(x, ys[1..]))
  }

  predicate CompatibleCross(xs: seq<Tag>, ys: seq<Tag>)
    decreases xs, ys, 0
  {
    xs == [] || (CompatibleRow(xs[0], ys) && CompatibleCross(xs[1..], ys))
  }

  predicate CompatibleAligned(xs: seq<Tag>, ys: seq<Tag>)
    decreases xs, ys, 0
  {
    xs == [] || ys == [] ||
    (Compatible(xs[0], ys[0]) && !Away(xs[0], ys[0]) && CompatibleAligned(xs[1..], ys[1..]))
  }

  lemma {:induction false} CompatibleTagsDoNotClash(a: Tag, b: Tag)
    requires Compatible(a, b)
    ensures !Clash(a, b)
    decreases a, b, 1
  {
    match (a, b)
    case (Set(xs), Set(ys)) => CompatibleCrossDoesNotClash(xs, ys);
    case (List(xs), List(ys)) => CompatibleAlignedDoesNotClash(xs, ys);
    case _ =>
  }

  lemma {:induction false} CompatibleRowDoesNotClash(x: Tag, ys: seq<Tag>)
    requires CompatibleRow(x, ys)
    ensures !ClashRow(x, ys)
    decreases x, ys, 0
  {
    if ys != [] {
      CompatibleTagsDoNotClash(x, ys[0]);
      CompatibleRowDoesNotClash(x, ys[1..]);
    }
  }

  lemma {:induction false} CompatibleCrossDoesNotClash(xs: seq<Tag>, ys: seq<Tag>)
    requires CompatibleCross(xs, ys)
    ensures !ClashCross(xs, ys)
    decreases xs, ys, 0
  {
    if xs != [] {
      CompatibleRowDoesNotClash(xs[0], ys);
      CompatibleCrossDoesNotClash(xs[1..], ys);
    }
  }

  lemma {:induction false} CompatibleAlignedDoesNotClash(xs: seq<Tag>, ys: seq<Tag>)
    requires CompatibleAligned(xs, ys)
    ensures !ClashAligned(xs, ys)
    decreases xs, ys, 0
  {
    if xs != [] && ys != [] {
      CompatibleTagsDoNotClash(xs[0], ys[0]);
      CompatibleAlignedDoesNotClash(xs[1..], ys[1..]);
    }
  }

  /** Compatible children of lists all intersect, so none is dropped. */
  lemma CompatibleChildrenMeet(xs: seq<Tag>, ys: seq<Tag>)
    requires AllNormal(xs) && AllNormal(ys) && CompatibleAligned(xs, ys) && xs != [] && ys != []
    ensures Intersect(xs[0], ys[0]).Meets?
  {
    CompatibleTagsDoNotClash(xs[0], ys[0]);
    IntersectFailsIff(xs[0], ys[0]);
  }

  // ----- The meaning of the result

  /** Whenever compatible tags have a result, it grants exactly what both grant. */
  lemma {:induction false} IntersectMeansIntersection(a: Tag, b: Tag, g: Tag)
    requires Normal(a) && Normal(b) && Compatible(a, b) && Intersect(a, b).Meets?
    ensures Grants(Intersect(a, b).tag, g) <==> Grants(a, g) && Grants(b, g)
    decreases a, b, 1
  {
    match (a, b)
    case (Set(xs), Set(ys)) =>
      CrossMeans(xs, ys, g);
      var ts := Cross(xs, ys).value;
      AnyReverse(ts, g);
      SetAllocKeepsMeaning(Reverse(ts), g);
    case (List(xs), List(ys)) =>
      if g.List? {
        AlignedMeans(xs, ys, g.items);
      }
    case _ =>
  }

  lemma {:induction false} RowMeans(x: Tag, ys: seq<Tag>, g: Tag)
    requires Normal(x) && !x.Set? && AllNormal(ys) && NoSets(ys) && CompatibleRow(x, ys) && Row(x, ys).Some?
    ensures GrantsAny(Row(x, ys).value, g) <==> Grants(x, g) && GrantsAny(ys, g)
    decreases x, ys, 0
  {
    if ys != [] {
      if Intersect(x, ys[0]).Meets? {
        IntersectMeansIntersection(x, ys[0], g);
      }
      RowMeans(x, ys[1..], g);
    }
  }

  lemma {:induction false} CrossMeans(xs: seq<Tag>, ys: seq<Tag>, g: Tag)
    requires AllNormal(xs) && NoSets(xs) && AllNormal(ys) && NoSets(ys) && CompatibleCross(xs, ys)
    requires Cross(xs, ys).Some?
    ensures GrantsAny(Cross(xs, ys).value, g) <==> GrantsAny(xs, g) && GrantsAny(ys, g)
    decreases xs, ys, 0
  {
    if xs != [] {
      RowMeans(xs[0], ys, g);
      CrossMeans(xs[1..], ys, g);
      AnyConcat(Row(xs[0], ys).value, Cross(xs[1..], ys).value, g);
    }
  }

  lemma {:induction false} AlignedMeans(xs: seq<Tag>, ys: seq<Tag>, gs: seq<Tag>)
    requires AllNormal(xs) && AllNormal(ys) && CompatibleAligned(xs, ys) && Aligned(xs, ys).Some?
    ensures GrantsAll(Merged(xs, ys), gs) <==> GrantsAll(xs, gs) && GrantsAll(ys, gs)
    decreases xs, ys, 0
  {
    if xs == [] || ys == [] {
      MergedNothing(xs, ys);
    } else {
      CompatibleChildrenMeet(xs, ys);
      MergedChildren(xs, ys);
      var t, rest := Intersect(xs[0], ys[0]).tag, Merged(xs[1..], ys[1..]);
      assert ([t] + rest)[0] == t && ([t] + rest)[1..] == rest;
      if gs != [] {
        IntersectMeansIntersection(xs[0], ys[0], gs[0]);
        AlignedMeans(xs[1..], ys[1..], gs[1..]);
      }
    }
  }

  /** The same, as spki_tag_includes sees it. */
  lemma IntersectedIncludes(a: Tag, b: Tag, g: Tag)
    requires Normal(a) && Normal(b) && Compatible(a, b) && Intersect(a, b).Meets? && StarFree(g)
    ensures Includes(Intersect(a, b).tag, g) == Yes <==> Includes(a, g) == Yes && Includes(b, g) == Yes
  {
    IntersectMeansIntersection(a, b, g);
    IncludesDecidesGrants(a, g);
    IncludesDecidesGrants(b, g);
    IncludesDecidesGrants(Intersect(a, b).tag, g);
  }

  // ----- When nothing is the right result

  /** Some star-free request is granted. */
  predicate Inhabited(t: Tag) {
    match t
    case Set(ts) => AnyInhabited(ts)
    case List(ts) => AllInhabited(ts)
    case _ => true
  }

  predicate AnyInhabited(ts: seq<Tag>) {
    ts != [] && (Inhabited(ts[0]) || AnyInhabited(ts[1..]))
  }

  predicate AllInhabited(ts: seq<Tag>) {
    ts == [] || (Inhabited(ts[0]) && AllInhabited(ts[1..]))
  }

  /** The tags share a request. */
  predicate Touch(a: Tag, b: Tag)
    decreases a, b
  {
    match (a, b)
    case (Any, _) => Inhabited(b)
    case (_, Any) => Inhabited(a)
    case (Set(xs), _) => AnyTouches(xs, b)
    case (_, Set(ys)) => TouchesAny(a, ys)
    case (List(xs), List(ys)) => TouchAligned(xs, ys)
    case (Prefix(d, p), Prefix(e, q)) => d == e && (p <= q || q <= p)
    case (Prefix(d, p), Atom(e, s)) => d == e && p <= s
    case (Atom(e, s), Prefix(d, p)) => d == e && p <= s
    case (Atom(_, _), Atom(_, _)) => a == b
    case _ => false
  }

  predicate AnyTouches(xs: seq<Tag>, b: Tag)
    decreases xs, b
  {
    xs != [] && (Touch(xs[0], b) || AnyTouches(xs[1..], b))
  }

  predicate TouchesAny(a: Tag, ys: seq<Tag>)
    decreases a, ys
  {
    ys != [] && (Touch(a, ys[0]) || TouchesAny(a, ys[1..]))
  }

  predicate TouchAligned(xs: seq<Tag>, ys: seq<Tag>)
    decreases xs, ys
  {
    if xs == [] then AllInhabited(ys)
    else if ys == [] then AllInhabited(xs)
    else Touch(xs[0], ys[0]) && TouchAligned(xs[1..], ys[1..])
  }

  lemma {:induction false} GrantingIsInhabited(t: Tag, g: Tag)
    requires Grants(t, g)
    ensures Inhabited(t)
  {
    match t
    case Set(ts) => GrantingAnyIsInhabited(ts, g);
    case List(ts) => GrantingAllIsInhabited(ts, g.items);
    case _ =>
  }

  lemma {:induction false} GrantingAnyIsInhabited(ts: seq<Tag>, g: Tag)
    requires GrantsAny(ts, g)
    ensures AnyInhabited(ts)
  {
    if Grants(ts[0], g) {
      GrantingIsInhabited(ts[0], g);
    } else {
      GrantingAnyIsInhabited(ts[1..], g);
    }
  }

  lemma {:induction false} GrantingAllIsInhabited(ts: seq<Tag>, gs: seq<Tag>)
    requires GrantsAll(ts, gs)
    ensures AllInhabited(ts)
  {
    if ts != [] {
      GrantingIsInhabited(ts[0], gs[0]);
      GrantingAllIsInhabited(ts[1..], gs[1..]);
    }
  }

  /** A request both tags grant is a touch. */
  lemma {:induction false} SharedMeansTouch(a: Tag, b: Tag, g: Tag)
    requires Grants(a, g) && Grants(b, g)
    ensures Touch(a, b)
    decreases a, b
  {
    if a.Any? {
      GrantingIsInhabited(b, g);
    } else if b.Any? {
      GrantingIsInhabited(a, g);
    } else if a.Set? {
      AnySharedMeansTouch(a.items, b, g);
    } else if b.Set? {
      SharedAnyMeansTouch(a, b.items, g);
    } else if a.List? {
      AlignedSharedMeansTouch(a.items, b.items, g.items);
    }
  }

  lemma {:induction false} AnySharedMeansTouch(xs: seq<Tag>, b: Tag, g: Tag)
    requires GrantsAny(xs, g) && Grants(b, g)
    ensures AnyTouches(xs, b)
    decreases xs, b
  {
    if Grants(xs[0], g) {
      SharedMeansTouch(xs[0], b, g);
    } else {
      AnySharedMeansTouch(xs[1..], b, g);
    }
  }

  lemma {:induction false} SharedAnyMeansTouch(a: Tag, ys: seq<Tag>, g: Tag)
    requires Grants(a, g) && GrantsAny(ys, g)
    ensures TouchesAny(a, ys)
    decreases a, ys
  {
    if Grants(ys[0], g) {
      SharedMeansTouch(a, ys[0], g);
    } else {
      SharedAnyMeansTouch(a, ys[1..], g);
    }
  }

  lemma {:induction false} AlignedSharedMeansTouch(xs: seq<Tag>, ys: seq<Tag>, gs: seq<Tag>)
    requires GrantsAll(xs, gs) && GrantsAll(ys, gs)
    ensures TouchAligned(xs, ys)
    decreases xs, ys
  {
    if xs == [] {
      GrantingAllIsInhabited(ys, gs);
    } else if ys == [] {
      GrantingAllIsInhabited(xs, gs);
    } else {
      SharedMeansTouch(xs[0], ys[0], gs[0]);
      AlignedSharedMeansTouch(xs[1..], ys[1..], gs[1..]);
    }
  }

  lemma {:induction false} InhabitedGrants(t: Tag) returns (g: Tag)
    requires Inhabited(t)
    ensures StarFree(g) && Grants(t, g)
  {
    match t {
      case Any => g := Atom(None, "");
      case Set(ts) => g := AnyInhabitedGrants(ts);
      case List(ts) =>
        var gs := AllInhabitedGrant(ts);
        g := List(gs);
      case Prefix(d, p) => g := Atom(d, p);
      case Atom(_, _) => g := t;
    }
  }

  lemma {:induction false} AnyInhabitedGrants(ts: seq<Tag>) returns (g: Tag)
    requires AnyInhabited(ts)
    ensures StarFree(g) && GrantsAny(ts, g)
  {
    if Inhabited(ts[0]) {
      g := InhabitedGrants(ts[0]);
    } else {
      g := AnyInhabitedGrants(ts[1..]);
    }
  }

  lemma {:induction false} AllInhabitedGrant(ts: seq<Tag>) returns (gs: seq<Tag>)
    requires AllInhabited(ts)
    ensures AllStarFree(gs) && GrantsAll(ts, gs)
  {
    if ts == [] {
      gs := [];
    } else {
      var g := InhabitedGrants(ts[0]);
      var more := AllInhabitedGrant(ts[1..]);
      gs := [g] + more;
      ConsGranted(ts, g, more);
    }
  }

  /** A touch is a request both tags grant. */
  lemma {:induction false} TouchMeansShared(a: Tag, b: Tag) returns (g: Tag)
    requires Touch(a, b)
    ensures StarFree(g) && Grants(a, g) && Grants(b, g)
    decreases a, b
  {
    if a.Any? {
      g := InhabitedGrants(b);
    } else if b.Any? {
      g := InhabitedGrants(a);
    } else if a.Set? {
      g := AnyTouchMeansShared(a.items, b);
    } else if b.Set? {
      g := TouchAnyMeansShared(a, b.items);
    } else if a.List? {
      var gs := AlignedTouchMeansShared(a.items, b.items);
      g := List(gs);
    } else if a.Atom? {
      g := a;
    } else if b.Atom? {
      g := b;
    } else {
      g := Atom(a.display, if a.atom <= b.atom then b.atom else a.atom);
    }
  }

  lemma {:induction false} AnyTouchMeansShared(xs: seq<Tag>, b: Tag) returns (g: Tag)
    requires AnyTouches(xs, b)
    ensures StarFree(g) && GrantsAny(xs, g) && Grants(b, g)
    decreases xs, b
  {
    if Touch(xs[0], b) {
      g := TouchMeansShared(xs[0], b);
    } else {
      g := AnyTouchMeansShared(xs[1..], b);
    }
  }

  lemma {:induction false} TouchAnyMeansShared(a: Tag, ys: seq<Tag>) returns (g: Tag)
    requires TouchesAny(a, ys)
    ensures StarFree(g) && Grants(a, g) && GrantsAny(ys, g)
    decreases a, ys
  {
    if Touch(a, ys[0]) {
      g := TouchMeansShared(a, ys[0]);
    } else {
      g := TouchAnyMeansShared(a, ys[1..]);
    }
  }

  lemma {:induction false} AlignedTouchMeansShared(xs: seq<Tag>, ys: seq<Tag>) returns (gs: seq<Tag>)
    requires TouchAligned(xs, ys)
    ensures AllStarFree(gs) && GrantsAll(xs, gs) && GrantsAll(ys, gs)
    decreases xs, ys
  {
    if xs == [] {
      gs := AllInhabitedGrant(ys);
    } else if ys == [] {
      gs := AllInhabitedGrant(xs);
    } else {
      var g := TouchMeansShared(xs[0], ys[0]);
      var more := AlignedTouchMeansShared(xs[1..], ys[1..]);
      gs := [g] + more;
      ConsGranted(xs, g, more);
      ConsGranted(ys, g, more);
    }
  }

  predicate Shared(a: Tag, b: Tag, g: Tag) {
    StarFree(g) && Grants(a, g) && Grants(b, g)
  }

  /** Some star-free request is granted by both tags exactly when they touch. */
  lemma SharedIff(a: Tag, b: Tag)
    ensures (exists g :: Shared(a, b, g)) <==> Touch(a, b)
  {
    if Touch(a, b) {
      var g := TouchMeansShared(a, b);
      assert Shared(a, b, g);
    } else if g :| Shared(a, b, g) {
      SharedMeansTouch(a, b, g);
    }
  }

  /** When the result is null although both tags grant some request. */
  lemma NothingIsWrongIff(a: Tag, b: Tag)
    requires Normal(a) && Normal(b)
    ensures (Intersect(a, b) == Disjoint && exists g :: Shared(a, b, g)) <==> Away(a, b) && !Clash(a, b) && Touch(a, b)
  {
    SharedIff(a, b);
    IntersectFailsIff(a, b);
  }

  lemma ConsGranted(ts: seq<Tag>, g: Tag, gs: seq<Tag>)
    requires ts != []
    ensures GrantsAll(ts, [g] + gs) <==> Grants(ts[0], g) && GrantsAll(ts[1..], gs)
    ensures AllStarFree([g] + gs) <==> StarFree(g) && AllStarFree(gs)
  {
    assert ([g] + gs)[1..] == gs;
  }

  // ----- Without sets, that condition is exact

  lemma {:induction false} SetFreeConcat(ts: seq<Tag>, us: seq<Tag>)
    ensures AllSetFree(ts + us) <==> AllSetFree(ts) && AllSetFree(us)
  {
    if ts == [] {
      assert ts + us == us;
    } else {
      assert (ts + us)[1..] == ts[1..] + us;
      SetFreeConcat(ts[1..], us);
    }
  }

  lemma {:induction false} SetFreeIsNormal(t: Tag)
    requires SetFree(t)
    ensures Normal(t)
  {
    if t.List? {
      AllSetFreeIsNormal(t.items);
    }
  }

  lemma {:induction false} AllSetFreeIsNormal(ts: seq<Tag>)
    requires AllSetFree(ts)
    ensures AllNormal(ts)
  {
    if ts != [] {
      SetFreeIsNormal(ts[0]);
      AllSetFreeIsNormal(ts[1..]);
    }
  }

  lemma {:induction false} IntersectIsSetFree(a: Tag, b: Tag)
    requires SetFree(a) && SetFree(b) && Intersect(a, b).Meets?
    ensures SetFree(Intersect(a, b).tag)
    decreases a, b, 1
  {
    if a.List? && b.List? {
      AlignedIsSetFree(a.items, b.items);
    }
  }

  lemma {:induction false} AlignedIsSetFree(xs: seq<Tag>, ys: seq<Tag>)
    requires AllSetFree(xs) && AllSetFree(ys) && Aligned(xs, ys).Some?
    ensures AllSetFree(Merged(xs, ys))
    ensures |Merged(xs, ys)| <= if |xs| >= |ys| then |xs| else |ys|
    decreases xs, ys, 0
  {
    if xs == [] || ys == [] {
      MergedNothing(xs, ys);
    } else {
      MergedChildren(xs, ys);
      AlignedIsSetFree(xs[1..], ys[1..]);
      var first := Intersect(xs[0], ys[0]);
      if first.Meets? {
        IntersectIsSetFree(xs[0], ys[0]);
        assert [first.tag][1..] == [];
      }
      SetFreeConcat(if first.Meets? then [first.tag] else [], Merged(xs[1..], ys[1..]));
    }
  }

  /** A request that a set-free tag grants. */
  function Sample(t: Tag): (g: Tag)
    requires SetFree(t)
  {
    match t
    case Any => Atom(None, "")
    case List(ts) => List(Samples(ts))
    case Prefix(d, p) => Atom(d, p)
    case Atom(_, _) => t
  }

  function Samples(ts: seq<Tag>): (gs: seq<Tag>)
    requires AllSetFree(ts)
    ensures |gs| == |ts|
  {
    if ts == [] then [] else [Sample(ts[0])] + Samples(ts[1..])
  }

  lemma {:induction false} SampleIsGranted(t: Tag)
    requires SetFree(t)
    ensures StarFree(Sample(t)) && Grants(t, Sample(t))
  {
    if t.List? {
      SamplesAreGranted(t.items);
    }
  }

  lemma {:induction false} SamplesAreGranted(ts: seq<Tag>)
    requires AllSetFree(ts)
    ensures AllStarFree(Samples(ts)) && GrantsAll(ts, Samples(ts))
  {
    if ts != [] {
      SampleIsGranted(ts[0]);
      SamplesAreGranted(ts[1..]);
    }
  }

  lemma {:induction false} GrantedIsLonger(ts: seq<Tag>, gs: seq<Tag>)
    requires GrantsAll(ts, gs)
    ensures |ts| <= |gs|
  {
    if ts != [] {
      GrantedIsLonger(ts[1..], gs[1..]);
    }
  }

  /** Where the condition fails, the result grants a request that one of the two
      tags does not: a dropped child leaves a shorter, wider list. */
  lemma {:induction false} IncompatibleBroadens(a: Tag, b: Tag) returns (g: Tag)
    requires SetFree(a) && SetFree(b) && Intersect(a, b).Meets? && !Compatible(a, b)
    ensures StarFree(g) && Grants(Intersect(a, b).tag, g) && !(Grants(a, g) && Grants(b, g))
    decreases a, b, 1
  {
    var gs := AlignedBroadens(a.items, b.items);
    g := List(gs);
  }

  /** The merged children when the first pair is dropped. */
  lemma DroppedBroadens(xs: seq<Tag>, ys: seq<Tag>, rest: seq<Tag>)
    requires AllSetFree(rest) && (|rest| < |xs| || |rest| < |ys|)
    ensures AllStarFree(Samples(rest)) && GrantsAll(rest, Samples(rest))
    ensures !(GrantsAll(xs, Samples(rest)) && GrantsAll(ys, Samples(rest)))
  {
    SamplesAreGranted(rest);
    if GrantsAll(xs, Samples(rest)) && GrantsAll(ys, Samples(rest)) {
      GrantedIsLonger(xs, Samples(rest));
      GrantedIsLonger(ys, Samples(rest));
    }
  }

  lemma {:induction false} AlignedBroadens(xs: seq<Tag>, ys: seq<Tag>) returns (gs: seq<Tag>)
    requires AllSetFree(xs) && AllSetFree(ys) && Aligned(xs, ys).Some? && !CompatibleAligned(xs, ys)
    ensures AllStarFree(gs) && GrantsAll(Merged(xs, ys), gs)
    ensures !(GrantsAll(xs, gs) && GrantsAll(ys, gs))
    decreases xs, ys, 1
  {
    MergedChildren(xs, ys);
    AlignedIsSetFree(xs[1..], ys[1..]);
    var rest := Merged(xs[1..], ys[1..]);
    if Intersect(xs[0], ys[0]).Meets? {
      MeetingIsNotAway(xs[0], ys[0]);
      gs := HeadBroadens(xs, ys, Intersect(xs[0], ys[0]).tag, rest);
    } else {
      assert [] + rest == rest;
      DroppedBroadens(xs, ys, rest);
      gs := Samples(rest);
    }
  }

  lemma MeetingIsNotAway(a: Tag, b: Tag)
    requires SetFree(a) && SetFree(b) && Intersect(a, b).Meets?
    ensures !Away(a, b)
  {
    SetFreeIsNormal(a);
    SetFreeIsNormal(b);
    IntersectFailsIff(a, b);
  }

  /** When the first pair is kept: the fault is in it, or further on. */
  lemma {:induction false} HeadBroadens(xs: seq<Tag>, ys: seq<Tag>, t: Tag, rest: seq<Tag>) returns (gs: seq<Tag>)
    requires xs != [] && ys != [] && AllSetFree(xs) && AllSetFree(ys) && AllSetFree(rest)
    requires Intersect(xs[0], ys[0]) == Meets(t)
    requires Aligned(xs[1..], ys[1..]).Some? && rest == Merged(xs[1..], ys[1..])
    requires !Compatible(xs[0], ys[0]) || !CompatibleAligned(xs[1..], ys[1..])
    ensures AllStarFree(gs) && GrantsAll([t] + rest, gs) && !(GrantsAll(xs, gs) && GrantsAll(ys, gs))
    decreases xs, ys, 0
  {
    var g, more;
    if Compatible(xs[0], ys[0]) {
      IntersectIsSetFree(xs[0], ys[0]);
      SampleIsGranted(t);
      g := Sample(t);
      more := AlignedBroadens(xs[1..], ys[1..]);
    } else {
      g := IncompatibleBroadens(xs[0], ys[0]);
      SamplesAreGranted(rest);
      more := Samples(rest);
    }
    gs := [g] + more;
    ConsGranted([t] + rest, g, more);
    ConsGranted(xs, g, more);
    ConsGranted(ys, g, more);
  }

  /** Tags without sets that share a request are compatible, unless an assert fails:
      no pair of children is dropped. */
  lemma {:induction false} SharingIsCompatible(a: Tag, b: Tag, g: Tag)
    requires SetFree(a) && SetFree(b) && Intersect(a, b) != Crash && Grants(a, g) && Grants(b, g)
    ensures Compatible(a, b) && !Away(a, b)
    decreases a, b, 1
  {
    if a.List? && b.List? {
      AlignedSharingIsCompatible(a.items, b.items, g.items);
    }
  }

  lemma {:induction false} AlignedSharingIsCompatible(xs: seq<Tag>, ys: seq<Tag>, gs: seq<Tag>)
    requires AllSetFree(xs) && AllSetFree(ys) && Aligned(xs, ys).Some? && GrantsAll(xs, gs) && GrantsAll(ys, gs)
    ensures CompatibleAligned(xs, ys)
    decreases xs, ys, 0
  {
    if xs != [] && ys != [] {
      SharingIsCompatible(xs[0], ys[0], gs[0]);
      AlignedSharingIsCompatible(xs[1..], ys[1..], gs[1..]);
    }
  }

  /** So between tags without sets no shared request is lost. */
  lemma IntersectKeepsShared(a: Tag, b: Tag, g: Tag)
    requires SetFree(a) && SetFree(b) && Intersect(a, b) != Crash && Grants(a, g) && Grants(b, g)
    ensures Intersect(a, b).Meets? && Grants(Intersect(a, b).tag, g)
  {
    SharingIsCompatible(a, b, g);
    SetFreeIsNormal(a);
    SetFreeIsNormal(b);
    IntersectFailsIff(a, b);
    IntersectMeansIntersection(a, b, g);
  }

  /** For tags without sets, the result has exactly the meaning of the
      intersection if and only if no aligned pair of children is disjoint. */
  lemma IntersectIsExactIff(a: Tag, b: Tag)
    requires SetFree(a) && SetFree(b) && Intersect(a, b).Meets?
    ensures (forall g | StarFree(g) :: Grants(Intersect(a, b).tag, g) <==> Grants(a, g) && Grants(b, g))
            <==> Compatible(a, b)
  {
    SetFreeIsNormal(a);
    SetFreeIsNormal(b);
    if Compatible(a, b) {
      forall g | StarFree(g)
        ensures Grants(Intersect(a, b).tag, g) <==> Grants(a, g) && Grants(b, g)
      {
        IntersectMeansIntersection(a, b, g);
      }
    } else {
      var g := IncompatibleBroadens(a, b);
    }
  }

  lemma {:induction false} AnyRow(ys: seq<Tag>)
    ensures Row(Any, ys) == Some(ys)
  {
    if ys != [] {
      AnyRow(ys[1..]);
      assert Intersect(Any, ys[0]) == Meets(ys[0]);
      assert ys == [ys[0]] + ys[1..];
    }
  }

  /** A set that holds (*) loses nothing to another. */
  lemma {:induction false} CrossKeepsAny(s: Tag, ys: seq<Tag>, g: Tag)
    requires Row(s, ys).Some? && GrantsAny(ys, g)
    ensures Cross([s, Any], ys).Some? && GrantsAny(Cross([s, Any], ys).value, g)
  {
    var front, rest := Row(s, ys).value, Cross([Any], ys);
    assert [s, Any][1..] == [Any] && [Any][1..] == [];
    AnyRow(ys);
    assert Cross([], ys) == Some([]);
    assert rest == Some(ys + []);
    AnyConcat(ys, [], g);
    AnyConcat(front, ys + [], g);
  }

  lemma {:induction false} RowWithAny(s: Tag, t: Tag)
    requires Intersect(s, t) != Crash
    ensures Row(s, [t, Any]).Some?
  {
    assert [t, Any][1..] == [Any] && [Any][1..] == [] && Row(s, []) == Some([]);
    assert Row(s, [Any]).Some?;
  }

  lemma {:induction false} HoldsAny(s: Tag, g: Tag)
    ensures GrantsAny([s, Any], g)
  {
    assert [s, Any][1..] == [Any];
    assert GrantsAny([Any], g);
  }

  lemma {:induction false} NormalWithAny(s: Tag)
    requires Normal(s) && !s.Set?
    ensures Normal(Set([s, Any]))
  {
    assert [s, Any][1..] == [Any];
    OneIsNormal(Any);
  }

  lemma {:induction false} IntersectIsDefined(a: Tag, b: Tag, s: Tag, t: Tag)
    requires a == Set([s, Any]) && b == Set([t, Any]) && Normal(a) && Normal(b) && Row(s, [t, Any]).Some?
    ensures Intersect(a, b).Meets? && Intersect(a, b) == SetMeet(Cross(a.items, b.items))
  {
    HoldsAny(t, Any);
    CrossKeepsAny(s, [t, Any], Any);
    var ts := Cross(a.items, b.items).value;
    CrossIsNormal(a.items, b.items);
    NormalReverse(ts);
    SetAllocIsNormal(Reverse(ts));
  }

  lemma {:induction false} SecondsDiffer(f: Tag, x: Tag, y: Tag)
    requires f.Atom? && x.Atom? && y.Atom? && x != y
    ensures var a, b := List([f, x]), List([f, y]);
            Normal(a) && Normal(b) && !Compatible(a, b) && Intersect(a, b) != Crash
  {
    assert [f, x][1..] == [x] && [f, y][1..] == [y] && [x][1..] == [] && [y][1..] == [];
    OneIsNormal(x);
    OneIsNormal(y);
    assert !CompatibleAligned([x], [y]) && !ClashAligned([x], [y]);
    assert !ClashAligned([f, x], [f, y]) && !AwayAligned([f, x], [f, y]);
    IntersectFailsIff(List([f, x]), List([f, y]));
  }

  /** With sets it is not: beside (*) on both sides, (f x) and (f y) do no harm. */
  lemma {:induction false} IncompatibleCanBeExact()
    ensures var f, x, y := Atom(None, "f"), Atom(None, "x"), Atom(None, "y");
            var a, b := Set([List([f, x]), Any]), Set([List([f, y]), Any]);
            && Normal(a) && Normal(b) && !Compatible(a, b) && Intersect(a, b).Meets?
            && forall g :: Grants(a, g) && Grants(b, g) && Grants(Intersect(a, b).tag, g)
  {
    var f, x, y := Atom(None, "f"), Atom(None, "x"), Atom(None, "y");
    var fx, fy := List([f, x]), List([f, y]);
    assert x.atom[0] != y.atom[0];
    SecondsDiffer(f, x, y);
    assert !CompatibleRow(fx, [fy, Any]);
    NormalWithAny(fx);
    NormalWithAny(fy);
    RowWithAny(fx, fy);
    var a, b := Set([fx, Any]), Set([fy, Any]);
    IntersectIsDefined(a, b, fx, fy);
    forall g
      ensures Grants(a, g) && Grants(b, g) && Grants(Intersect(a, b).tag, g)
    {
      HoldsAny(fx, g);
      HoldsAny(fy, g);
      CrossKeepsAny(fx, [fy, Any], g);
      var ts := Cross([fx, Any], [fy, Any]).value;
      AnyReverse(ts, g);
      SetAllocKeepsMeaning(Reverse(ts), g);
    }
  }

  /** The smallest instance: (ftp a) and (ftp b) intersect to (ftp), which grants (ftp c). */
  lemma IntersectCanBroaden()
    ensures var ftp, a, b, c := Atom(None, "ftp"), Atom(None, "a"), Atom(None, "b"), Atom(None, "c");
            && Intersect(List([ftp, a]), List([ftp, b])) == Meets(List([ftp]))
            && Grants(List([ftp]), List([ftp, c]))
            && !Grants(List([ftp, a]), List([ftp, c])) && !Grants(List([ftp, b]), List([ftp, c]))
  {
    var ftp, a, b, c := Atom(None, "ftp"), Atom(None, "a"), Atom(None, "b"), Atom(None, "c");
    assert a.atom[0] != b.atom[0] && a.atom[0] != c.atom[0] && b.atom[0] != c.atom[0];
    assert [ftp, a][1..] == [a] && [ftp, b][1..] == [b] && [ftp, c][1..] == [c];
    assert Aligned([a], [b]) == Some([]);
    assert Intersect(ftp, ftp) == Meets(ftp) && [ftp] + [] == [ftp];
    assert Aligned([ftp, a], [ftp, b]) == Some([ftp]);
    assert Tail([ftp, a], [ftp, b]) == [] && [ftp] + [] == [ftp];
    assert GrantsAll([a], [c]) == false && GrantsAll([b], [c]) == false;
  }
}
