/** The loops of spki/tag.c over the children of lists and sets. A cons list is
    a sequence; a variable that walks down the list is the rest of it. */
module TagWalks {
  import opened Wrappers
  import opened Tags
  import opened TagIntersect

  // ----- Inclusion

  method TagIncludes(delegated: Tag, request: Tag) returns (answer: Answer)
    ensures answer == Includes(delegated, request)
    decreases delegated, request, 2
  {
    match delegated
    case Any => answer := Yes;
    case Set(ds) => answer := WalkSet(ds, request);
    case List(ds) => answer := WalkList(ds, request);
    case Prefix(display, p) =>
      if request.Prefix? {
        answer := Abort;
      } else {
        answer := IfYes(request.Atom? && request.display == display && p <= request.atom);
      }
    case Atom(_, _) => answer := IfYes(request == delegated);
  }

  /** set_includes. */
  method WalkSet(ds: seq<Tag>, request: Tag) returns (answer: Answer)
    ensures answer == SetIncludes(ds, request)
    decreases ds, request, 1
  {
    if request.Set? {
      var c := request.items;
      while c != []
        invariant forall t :: t in c ==> t in request.items
        invariant SetIncludesEach(ds, c) == SetIncludesEach(ds, request.items)
      {
        answer := WalkSet(ds, c[0]);
        if answer != Yes {
          return;
        }
        c := c[1..];
      }
      return Yes;
    }
    var walk := ds;
    while walk != []
      invariant forall t :: t in walk ==> t in ds
      invariant SomeIncludes(walk, request) == SomeIncludes(ds, request)
    {
      answer := TagIncludes(walk[0], request);
      if answer != No {
        return;
      }
      walk := walk[1..];
    }
    return No;
  }

  /** list_includes. */
  method WalkList(ds: seq<Tag>, request: Tag) returns (answer: Answer)
    ensures answer == if request.List? then ListIncludes(ds, request.items) else No
    decreases ds, request, 1
  {
    if !request.List? {
      return No;
    }
    var list, c := ds, request.items;
    ghost var i := 0;
    while c != [] && list != []
      invariant i <= |ds| && i <= |request.items| && list == ds[i..] && c == request.items[i..]
      invariant ListIncludes(list, c) == ListIncludes(ds, request.items)
    {
      answer := TagIncludes(list[0], c[0]);
      if answer != Yes {
        return;
      }
      list, c, i := list[1..], c[1..], i + 1;
    }
    return IfYes(list == []);
  }

  // ----- Building sets and lists

  /** spki_cons_nreverse. */
  method NReverse(ts: seq<Tag>) returns (head: seq<Tag>)
    ensures head == Reverse(ts)
  {
    head := [];
    var c := ts;
    while c != []
      invariant Reverse(c) + head == Reverse(ts)
    {
      head, c := [c[0]] + head, c[1..];
    }
  }

  /** The inner loop of spki_tag_set_alloc; false when its assert fails. */
  method PushAll(items: seq<Tag>, subsets0: seq<Tag>, ghost done0: seq<Tag>) returns (ok: bool, subsets: seq<Tag>)
    requires subsets0 == Reverse(done0)
    ensures ok == NoSets(items)
    ensures ok ==> subsets == Reverse(done0 + items)
  {
    subsets := subsets0;
    var p := items;
    ghost var done := done0;
    while p != []
      invariant subsets == Reverse(done)
      invariant done + p == done0 + items
      invariant NoSets(p) <==> NoSets(items)
    {
      if p[0].Set? {
        return false, subsets;
      }
      ReverseSnoc(done, p[0]);
      subsets, done, p := [p[0]] + subsets, done + [p[0]], p[1..];
    }
    assert done == done0 + items;
    return true, subsets;
  }

  lemma {:induction false} FlattenOne(done: seq<Tag>, c: seq<Tag>)
    requires c != []
    ensures var here := if c[0].Set? then c[0].items else [c[0]];
            done + here + Flatten(c[1..]) == done + Flatten(c)
  {
    var here, rest := if c[0].Set? then c[0].items else [c[0]], Flatten(c[1..]);
    assert Flatten(c) == here + rest;
    assert done + (here + rest) == done + here + rest;
  }

  /** spki_tag_set_alloc. */
  method TagSetAlloc(ts: seq<Tag>) returns (m: Meet)
    ensures m == SetAlloc(ts)
  {
    if |ts| == 1 {
      return Meets(ts[0]);
    }
    var subsets := [];
    var c := ts;
    ghost var done := [];
    while c != []
      invariant subsets == Reverse(done)
      invariant done + Flatten(c) == Flatten(ts)
      invariant InnerSetsFlat(c) <==> InnerSetsFlat(ts)
    {
      ghost var here := if c[0].Set? then c[0].items else [c[0]];
      FlattenOne(done, c);
      if !c[0].Set? {
        ReverseSnoc(done, c[0]);
        subsets := [c[0]] + subsets;
      } else {
        var ok;
        ok, subsets := PushAll(c[0].items, subsets, done);
        if !ok {
          return Crash;
        }
      }
      done := done + here;
      c := c[1..];
    }
    assert done + [] == done;
    return Meets(Set(subsets));
  }

  // ----- Intersection

  function Rank(t: Tag): nat {
    match t
    case Any => 1
    case Set(_) => 2
    case List(_) => 3
    case Prefix(_, _) => 4
    case Atom(_, _) => 6
  }

  function Size(t: Tag): nat {
    match t
    case Set(ts) => 1 + Sizes(ts)
    case List(ts) => 1 + Sizes(ts)
    case _ => 1
  }

  function Sizes(ts: seq<Tag>): nat {
    if ts == [] then 0 else Size(ts[0]) + Sizes(ts[1..])
  }

  lemma {:induction false} SizeOfItem(ts: seq<Tag>, t: Tag)
    requires t in ts
    ensures Size(t) <= Sizes(ts)
  {
    if t != ts[0] {
      SizeOfItem(ts[1..], t);
    }
  }

  /** What a walk has found, followed by what the rest will add. */
  function After(found: seq<Tag>, rest: Option<seq<Tag>>): Option<seq<Tag>> {
    if rest.None? then None else Some(found + rest.value)
  }

  lemma AfterNothing(rest: Option<seq<Tag>>)
    ensures After([], rest) == rest
  {
    if rest.Some? {
      assert [] + rest.value == rest.value;
    }
  }

  lemma AfterMore(found: seq<Tag>, more: seq<Tag>, rest: Option<seq<Tag>>)
    ensures After(found, After(more, rest)) == After(found + more, rest)
  {
    if rest.Some? {
      assert found + (more + rest.value) == found + more + rest.value;
    }
  }

  /** spki_tag_intersect: the tag of the widest type goes first. */
  method IntersectTags(a0: Tag, b0: Tag) returns (m: Meet)
    ensures m == Intersect(a0, b0)
    decreases Size(a0) + Size(b0), 2
  {
    var a, b := a0, b0;
    if Rank(a) > Rank(b) {
      a, b := b, a;
    }
    match a
    case Any => m := Meets(b);
    case Set(xs) => m := IntersectSets(xs, b);
    case List(xs) =>
      if b.List? {
        m := IntersectLists(xs, b.items);
      } else {
        m := Disjoint;
      }
    case Prefix(d, p) =>
      if b.Prefix? {
        m := Crash;
      } else if b.Atom? && b.display == d && p <= b.atom {
        m := Meets(b);
      } else {
        m := Disjoint;
      }
    case Atom(_, _) =>
      if a == b {
        m := Meets(b);
      } else {
        m := Disjoint;
      }
  }

  /** One row of set_intersect's loops: `x` against each of `ys`. */
  method IntersectRow(x: Tag, ys: seq<Tag>, head0: seq<Tag>, ghost found: seq<Tag>) returns (ok: bool, head: seq<Tag>)
    requires head0 == Reverse(found)
    ensures ok == Row(x, ys).Some?
    ensures ok ==> head == Reverse(found + Row(x, ys).value)
    decreases Size(x) + Sizes(ys) + 1, 1
  {
    head := head0;
    var p := ys;
    ghost var row := [];
    AfterNothing(Row(x, ys));
    assert found + [] == found;
    while p != []
      invariant forall t :: t in p ==> t in ys
      invariant head == Reverse(found + row)
      invariant Row(x, ys) == After(row, Row(x, p))
    {
      SizeOfItem(ys, p[0]);
      var i := IntersectTags(x, p[0]);
      if i == Crash {
        return false, head;
      }
      if i.Meets? {
        FoundOneMore(found, row, i.tag);
        RowGoesOn(x, p, row, i.tag);
        head, row := [i.tag] + head, row + [i.tag];
      }
      p := p[1..];
    }
    assert row + [] == row;
    return true, head;
  }

  lemma FoundOneMore(found: seq<Tag>, row: seq<Tag>, t: Tag)
    ensures Reverse(found + (row + [t])) == [t] + Reverse(found + row)
  {
    ReverseSnoc(found + row, t);
    assert found + (row + [t]) == found + row + [t];
  }

  lemma RowGoesOn(x: Tag, p: seq<Tag>, row: seq<Tag>, t: Tag)
    requires p != [] && Intersect(x, p[0]) == Meets(t)
    ensures After(row, Row(x, p)) == After(row + [t], Row(x, p[1..]))
  {
    AfterMore(row, [t], Row(x, p[1..]));
  }

  /** set_intersect. */
  method IntersectSets(xs: seq<Tag>, b: Tag) returns (m: Meet)
    ensures m == if b.Set? then SetMeet(Cross(xs, b.items)) else Disjoint
    decreases Sizes(xs) + Size(b) + 1, 1
  {
    if !b.Set? {
      return Disjoint;
    }
    var head := [];
    var walk := xs;
    ghost var found := [];
    AfterNothing(Cross(xs, b.items));
    while walk != []
      invariant forall t :: t in walk ==> t in xs
      invariant head == Reverse(found)
      invariant Cross(xs, b.items) == After(found, Cross(walk, b.items))
    {
      SizeOfItem(xs, walk[0]);
      var ok;
      ok, head := IntersectRow(walk[0], b.items, head, found);
      if !ok {
        return Crash;
      }
      ghost var row := Row(walk[0], b.items).value;
      AfterMore(found, row, Cross(walk[1..], b.items));
      found := found + row;
      walk := walk[1..];
    }
    assert found + [] == found;
    if head == [] {
      return Disjoint;
    }
    m := TagSetAlloc(head);
  }

  /** The first loop of list_intersect. */
  method IntersectAligned(xs: seq<Tag>, ys: seq<Tag>) returns (ok: bool, head: seq<Tag>)
    ensures ok == Aligned(xs, ys).Some?
    ensures ok ==> head == Reverse(Aligned(xs, ys).value)
    decreases Sizes(xs) + Sizes(ys) + 1, 0
  {
    head := [];
    var a, b := xs, ys;
    ghost var found := [];
    AfterNothing(Aligned(xs, ys));
    while a != [] && b != []
      invariant forall t :: t in a ==> t in xs
      invariant forall t :: t in b ==> t in ys
      invariant head == Reverse(found)
      invariant Aligned(xs, ys) == After(found, Aligned(a, b))
    {
      SizeOfItem(xs, a[0]);
      SizeOfItem(ys, b[0]);
      var i := IntersectTags(a[0], b[0]);
      if i == Crash {
        return false, head;
      }
      if i.Meets? {
        ReverseSnoc(found, i.tag);
        AfterMore(found, [i.tag], Aligned(a[1..], b[1..]));
        head, found := [i.tag] + head, found + [i.tag];
      }
      a, b := a[1..], b[1..];
    }
    assert found + [] == found;
    return true, head;
  }

  /** list_intersect. */
  method IntersectLists(xs: seq<Tag>, ys: seq<Tag>) returns (m: Meet)
    ensures m == ListMeet(Aligned(xs, ys), Tail(xs, ys))
    decreases Sizes(xs) + Sizes(ys) + 1, 1
  {
    var ok, head := IntersectAligned(xs, ys);
    if !ok {
      return Crash;
    }
    ghost var found := Aligned(xs, ys).value;
    ReverseTwice(found);
    if head == [] {
      return Crash;
    }
    var a := if |xs| >= |ys| then xs[|ys|..] else ys[|xs|..];
    while a != []
      invariant head == Reverse(found)
      invariant found + a == Aligned(xs, ys).value + Tail(xs, ys)
    {
      ReverseSnoc(found, a[0]);
      head, found, a := [a[0]] + head, found + [a[0]], a[1..];
    }
    assert found == Aligned(xs, ys).value + Tail(xs, ys);
    ReverseTwice(found);
    head := NReverse(head);
    return Meets(List(head));
  }
}
