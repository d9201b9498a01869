/** SPKI authorization tags (spki/tag.c): their meaning as sets of requests, and
    the inclusion test. */
module Tags {
  import opened Wrappers

  /** A tag in internal form. A null display type is `None`. */
  datatype Tag =
    | Any
    | Set(items: seq<Tag>)
    | List(items: seq<Tag>)
    | Prefix(display: Option<string>, atom: string)
    | Atom(display: Option<string>, atom: string)

  // ----- Meaning

  /** A request without star forms. */
  predicate StarFree(g: Tag) {
    match g
    case Atom(_, _) => true
    case List(gs) => AllStarFree(gs)
    case _ => false
  }

  predicate AllStarFree(gs: seq<Tag>) {
    gs == [] || (StarFree(gs[0]) && AllStarFree(gs[1..]))
  }

  /** The star-free requests that a tag stands for (RFC 2693 section 6.3.1). A
      list also grants every longer request that starts the same way. */
  predicate Grants(t: Tag, g: Tag) {
    match t
    case Any => true
    case Set(ts) => GrantsAny(ts, g)
    case List(ts) => g.List? && GrantsAll(ts, g.items)
    case Prefix(d, p) => g.Atom? && g.display == d && p <= g.atom
    case Atom(_, _) => g == t
  }

  predicate GrantsAny(ts: seq<Tag>, g: Tag) {
    ts != [] && (Grants(ts[0], g) || GrantsAny(ts[1..], g))
  }

  predicate GrantsAll(ts: seq<Tag>, gs: seq<Tag>) {
    ts == [] || (gs != [] && Grants(ts[0], gs[0]) && GrantsAll(ts[1..], gs[1..]))
  }

  // ----- Inclusion

  /** What a walk over tags answers; `Abort` is a failed assert. */
  datatype Answer = Yes | No | Abort

  function IfYes(b: bool): Answer {
    if b then Yes else No
  }

  /** spki_tag_includes. */
  function Includes(d: Tag, r: Tag): Answer
    decreases d, r, 2
  {
    match d
    case Any => Yes
    case Set(ds) => SetIncludes(ds, r)
    case List(ds) => if r.List? then ListIncludes(ds, r.items) else No
    case Prefix(display, p) =>
      if r.Prefix? then Abort
      else IfYes(r.Atom? && r.display == display && p <= r.atom)
    case Atom(_, _) => IfYes(r == d)
  }

  function SetIncludes(ds: seq<Tag>, r: Tag): Answer
    decreases ds, r, 1
  {
    if r.Set? then SetIncludesEach(ds, r.items) else SomeIncludes(ds, r)
  }

  function SetIncludesEach(ds: seq<Tag>, rs: seq<Tag>): Answer
    decreases ds, rs, 0
  {
    if rs == [] then Yes
    else
      match SetIncludes(ds, rs[0])
      case Yes => SetIncludesEach(ds, rs[1..])
      case other => other
  }

  function SomeIncludes(ds: seq<Tag>, r: Tag): Answer
    decreases ds, r, 0
  {
    if ds == [] then No
    else
      match Includes(ds[0], r)
      case No => SomeIncludes(ds[1..], r)
      case other => other
  }

  function ListIncludes(ds: seq<Tag>, rs: seq<Tag>): Answer
    decreases ds, rs, 0
  {
    if ds == [] then Yes
    else if rs == [] then No
    else
      match Includes(ds[0], rs[0])
      case Yes => ListIncludes(ds[1..], rs[1..])
      case other => other
  }

  // ----- On star-free requests inclusion is the meaning

  lemma {:induction false} IncludesDecidesGrants(d: Tag, g: Tag)
    requires StarFree(g)
    ensures Includes(d, g) == IfYes(Grants(d, g))
    decreases d, g
  {
    match d
    case Set(ds) => SomeDecides(ds, g);
    case List(ds) =>
      if g.List? {
        ListDecides(ds, g.items);
      }
    case _ =>
  }

  lemma {:induction false} SomeDecides(ds: seq<Tag>, g: Tag)
    requires StarFree(g)
    ensures SomeIncludes(ds, g) == IfYes(GrantsAny(ds, g))
    decreases ds, g
  {
    if ds != [] {
      IncludesDecidesGrants(ds[0], g);
      SomeDecides(ds[1..], g);
    }
  }

  lemma {:induction false} ListDecides(ds: seq<Tag>, gs: seq<Tag>)
    requires AllStarFree(gs)
    ensures ListIncludes(ds, gs) == IfYes(GrantsAll(ds, gs))
    decreases ds, gs
  {
    if ds != [] && gs != [] {
      IncludesDecidesGrants(ds[0], gs[0]);
      ListDecides(ds[1..], gs[1..]);
    }
  }

  // ----- Inclusion never widens the meaning

  /** What an included tag grants, the including tag grants: for every pair of tags. */
  lemma {:induction false} IncludesIsSound(d: Tag, r: Tag, g: Tag)
    requires Includes(d, r) == Yes && Grants(r, g)
    ensures Grants(d, g)
    decreases d, r, 2
  {
    match d
    case Set(ds) => SetIncludesIsSound(ds, r, g);
    case List(ds) => ListIncludesIsSound(ds, r.items, g.items);
    case _ =>
  }

  lemma {:induction false} SetIncludesIsSound(ds: seq<Tag>, r: Tag, g: Tag)
    requires SetIncludes(ds, r) == Yes && Grants(r, g)
    ensures GrantsAny(ds, g)
    decreases ds, r, 1
  {
    if r.Set? {
      EachIsSound(ds, r.items, g);
    } else {
      SomeIsSound(ds, r, g);
    }
  }

  lemma {:induction false} EachIsSound(ds: seq<Tag>, rs: seq<Tag>, g: Tag)
    requires SetIncludesEach(ds, rs) == Yes && GrantsAny(rs, g)
    ensures GrantsAny(ds, g)
    decreases ds, rs, 0
  {
    if Grants(rs[0], g) {
      SetIncludesIsSound(ds, rs[0], g);
    } else {
      EachIsSound(ds, rs[1..], g);
    }
  }

  lemma {:induction false} SomeIsSound(ds: seq<Tag>, r: Tag, g: Tag)
    requires SomeIncludes(ds, r) == Yes && Grants(r, g)
    ensures GrantsAny(ds, g)
    decreases ds, r, 0
  {
    if Includes(ds[0], r) == Yes {
      IncludesIsSound(ds[0], r, g);
    } else {
      SomeIsSound(ds[1..], r, g);
    }
  }

  lemma {:induction false} ListIncludesIsSound(ds: seq<Tag>, rs: seq<Tag>, gs: seq<Tag>)
    requires ListIncludes(ds, rs) == Yes && GrantsAll(rs, gs)
    ensures GrantsAll(ds, gs)
    decreases ds, rs, 0
  {
    if ds != [] {
      IncludesIsSound(ds[0], rs[0], gs[0]);
      ListIncludesIsSound(ds[1..], rs[1..], gs[1..]);
    }
  }

  // ----- Inclusion is a preorder on prefix-free tags

  predicate PrefixFree(t: Tag) {
    match t
    case Set(ts) => AllPrefixFree(ts)
    case List(ts) => AllPrefixFree(ts)
    case Prefix(_, _) => false
    case _ => true
  }

  predicate AllPrefixFree(ts: seq<Tag>) {
    ts == [] || (PrefixFree(ts[0]) && AllPrefixFree(ts[1..]))
  }

  /** The assert in atom_prefix needs a prefix form in the request. */
  lemma {:induction false} NoAbort(d: Tag, r: Tag)
    requires PrefixFree(r)
    ensures Includes(d, r) != Abort
    decreases d, r, 2
  {
    match d
    case Set(ds) => SetNoAbort(ds, r);
    case List(ds) =>
      if r.List? {
        ListNoAbort(ds, r.items);
      }
    case _ =>
  }

  lemma {:induction false} SetNoAbort(ds: seq<Tag>, r: Tag)
    requires PrefixFree(r)
    ensures SetIncludes(ds, r) != Abort
    decreases ds, r, 1
  {
    if r.Set? {
      EachNoAbort(ds, r.items);
    } else {
      SomeNoAbort(ds, r);
    }
  }

  lemma {:induction false} EachNoAbort(ds: seq<Tag>, rs: seq<Tag>)
    requires AllPrefixFree(rs)
    ensures SetIncludesEach(ds, rs) != Abort
    decreases ds, rs, 0
  {
    if rs != [] {
      SetNoAbort(ds, rs[0]);
      EachNoAbort(ds, rs[1..]);
    }
  }

  lemma {:induction false} SomeNoAbort(ds: seq<Tag>, r: Tag)
    requires PrefixFree(r)
    ensures SomeIncludes(ds, r) != Abort
    decreases ds, r, 0
  {
    if ds != [] {
      NoAbort(ds[0], r);
      SomeNoAbort(ds[1..], r);
    }
  }

  lemma {:induction false} ListNoAbort(ds: seq<Tag>, rs: seq<Tag>)
    requires AllPrefixFree(rs)
    ensures ListIncludes(ds, rs) != Abort
    decreases ds, rs, 0
  {
    if ds != [] && rs != [] {
      NoAbort(ds[0], rs[0]);
      ListNoAbort(ds[1..], rs[1..]);
    }
  }

  lemma {:induction false} SomeFrom(ds: seq<Tag>, k: nat, r: Tag)
    requires k < |ds| && Includes(ds[k], r) == Yes && PrefixFree(r)
    ensures SomeIncludes(ds, r) == Yes
    decreases k
  {
    NoAbort(ds[0], r);
    if Includes(ds[0], r) == No {
      SomeFrom(ds[1..], k - 1, r);
    }
  }

  /** A set includes what one of its elements includes. */
  lemma {:induction false} SetFrom(ds: seq<Tag>, k: nat, r: Tag)
    requires k < |ds| && Includes(ds[k], r) == Yes && PrefixFree(r)
    ensures SetIncludes(ds, r) == Yes
    decreases r, 1
  {
    if r.Set? {
      EachFrom(ds, k, r.items);
    } else {
      SomeFrom(ds, k, r);
    }
  }

  lemma {:induction false} EachFrom(ds: seq<Tag>, k: nat, rs: seq<Tag>)
    requires k < |ds| && Includes(ds[k], Set(rs)) == Yes && AllPrefixFree(rs)
    ensures SetIncludesEach(ds, rs) == Yes
    decreases rs, 0
  {
    if rs != [] {
      if ds[k].Set? {
        assert SetIncludesEach(ds[k].items, rs) == Yes;
        assert SetIncludes(ds[k].items, Set(rs[1..])) == SetIncludesEach(ds[k].items, rs[1..]);
      }
      SetFrom(ds, k, rs[0]);
      EachFrom(ds, k, rs[1..]);
    }
  }

  /** A prefix form may occur in the two outer tags, not in the innermost. */
  lemma {:induction false} IncludesIsTransitive(d: Tag, r: Tag, q: Tag)
    requires Includes(d, r) == Yes && Includes(r, q) == Yes && PrefixFree(q)
    ensures Includes(d, q) == Yes
    decreases d, r, q, 2
  {
    match d
    case Set(ds) => SetIsTransitive(ds, r, q);
    case List(ds) => ListIsTransitive(ds, r.items, q.items);
    case _ =>
  }

  lemma {:induction false} SetIsTransitive(ds: seq<Tag>, r: Tag, q: Tag)
    requires SetIncludes(ds, r) == Yes && Includes(r, q) == Yes && PrefixFree(q)
    ensures SetIncludes(ds, q) == Yes
    decreases ds, r, q, 1
  {
    if !r.Set? {
      SomeIsTransitive(ds, 0, r, q);
    } else if q.Set? {
      EachIsTransitive(ds, r.items, q.items);
    } else {
      MiddleIsTransitive(ds, r.items, q);
    }
  }

  lemma {:induction false} SomeIsTransitive(ds: seq<Tag>, k: nat, r: Tag, q: Tag)
    requires k <= |ds| && SomeIncludes(ds[k..], r) == Yes && Includes(r, q) == Yes && PrefixFree(q)
    ensures SetIncludes(ds, q) == Yes
    decreases ds, r, q, 0, |ds| - k
  {
    if Includes(ds[k], r) == Yes {
      IncludesIsTransitive(ds[k], r, q);
      SetFrom(ds, k, q);
    } else {
      assert ds[k..][1..] == ds[k + 1..];
      SomeIsTransitive(ds, k + 1, r, q);
    }
  }

  lemma {:induction false} EachIsTransitive(ds: seq<Tag>, rs: seq<Tag>, qs: seq<Tag>)
    requires SetIncludesEach(ds, rs) == Yes && SetIncludesEach(rs, qs) == Yes && AllPrefixFree(qs)
    ensures SetIncludesEach(ds, qs) == Yes
    decreases ds, Set(rs), qs, 0
  {
    if qs != [] {
      SetIsTransitive(ds, Set(rs), qs[0]);
      EachIsTransitive(ds, rs, qs[1..]);
    }
  }

  lemma {:induction false} MiddleIsTransitive(ds: seq<Tag>, rs: seq<Tag>, q: Tag)
    requires SetIncludesEach(ds, rs) == Yes && SomeIncludes(rs, q) == Yes && PrefixFree(q)
    ensures SetIncludes(ds, q) == Yes
    decreases ds, rs, q, 0
  {
    if Includes(rs[0], q) == Yes {
      SetIsTransitive(ds, rs[0], q);
    } else {
      MiddleIsTransitive(ds, rs[1..], q);
    }
  }

  lemma {:induction false} ListIsTransitive(ds: seq<Tag>, rs: seq<Tag>, qs: seq<Tag>)
    requires ListIncludes(ds, rs) == Yes && ListIncludes(rs, qs) == Yes && AllPrefixFree(qs)
    ensures ListIncludes(ds, qs) == Yes
    decreases ds, rs, qs, 0
  {
    if ds != [] {
      IncludesIsTransitive(ds[0], rs[0], qs[0]);
      ListIsTransitive(ds[1..], rs[1..], qs[1..]);
    }
  }

  lemma {:induction false} IncludesIsReflexive(t: Tag)
    requires PrefixFree(t)
    ensures Includes(t, t) == Yes
  {
    match t
    case Set(ts) => SetIsReflexive(ts, 0);
    case List(ts) => ListIsReflexive(ts);
    case _ =>
  }

  lemma {:induction false} SetIsReflexive(ts: seq<Tag>, k: nat)
    requires k <= |ts| && AllPrefixFree(ts[k..])
    ensures SetIncludesEach(ts, ts[k..]) == Yes
    decreases ts, |ts| - k
  {
    if k < |ts| {
      assert ts[k..][1..] == ts[k + 1..];
      IncludesIsReflexive(ts[k]);
      SetFrom(ts, k, ts[k]);
      SetIsReflexive(ts, k + 1);
    }
  }

  lemma {:induction false} ListIsReflexive(ts: seq<Tag>)
    requires AllPrefixFree(ts)
    ensures ListIncludes(ts, ts) == Yes
  {
    if ts != [] {
      IncludesIsReflexive(ts[0]);
      ListIsReflexive(ts[1..]);
    }
  }

  // ----- Where inclusion misses nothing

  predicate SetFree(t: Tag) {
    match t
    case Set(_) => false
    case List(ts) => AllSetFree(ts)
    case _ => true
  }

  predicate AllSetFree(ts: seq<Tag>) {
    ts == [] || (SetFree(ts[0]) && AllSetFree(ts[1..]))
  }

  /** How long the display types in a tag are together. */
  function DisplaySize(t: Tag): nat {
    match t
    case Any => 0
    case Set(ts) => DisplaySizes(ts)
    case List(ts) => DisplaySizes(ts)
    case Prefix(d, _) => if d.Some? then |d.value| else 0
    case Atom(d, _) => if d.Some? then |d.value| else 0
  }

  function DisplaySizes(ts: seq<Tag>): nat {
    if ts == [] then 0 else DisplaySize(ts[0]) + DisplaySizes(ts[1..])
  }

  /** A request the tag grants: (*) becomes an atom of display type `z`. */
  function Filled(t: Tag, z: string): Tag
    requires SetFree(t) && PrefixFree(t)
  {
    match t
    case Any => Atom(Some(z), "")
    case List(ts) => List(AllFilled(ts, z))
    case Atom(_, _) => t
  }

  function AllFilled(ts: seq<Tag>, z: string): seq<Tag>
    requires AllSetFree(ts) && AllPrefixFree(ts)
  {
    if ts == [] then [] else [Filled(ts[0], z)] + AllFilled(ts[1..], z)
  }

  lemma {:induction false} FilledIsGranted(t: Tag, z: string)
    requires SetFree(t) && PrefixFree(t)
    ensures StarFree(Filled(t, z)) && Grants(t, Filled(t, z))
  {
    if t.List? {
      AllFilledAreGranted(t.items, z);
    }
  }

  lemma {:induction false} AllFilledAreGranted(ts: seq<Tag>, z: string)
    requires AllSetFree(ts) && AllPrefixFree(ts)
    ensures AllStarFree(AllFilled(ts, z)) && GrantsAll(ts, AllFilled(ts, z))
  {
    if ts != [] {
      FilledIsGranted(ts[0], z);
      AllFilledAreGranted(ts[1..], z);
    }
  }

  /** A tag that knows no such display type and grants the request includes the tag. */
  lemma {:induction false} GrantingFilledIncludes(d: Tag, r: Tag, z: string)
    requires SetFree(r) && PrefixFree(r) && |z| > DisplaySize(d) && Grants(d, Filled(r, z))
    ensures Includes(d, r) == Yes
    decreases d, r
  {
    match d
    case Set(ds) => SomeGrantingFilledIncludes(ds, r, z);
    case List(ds) => AllGrantingFilledInclude(ds, r.items, z);
    case _ =>
  }

  lemma {:induction false} SomeGrantingFilledIncludes(ds: seq<Tag>, r: Tag, z: string)
    requires SetFree(r) && PrefixFree(r) && |z| > DisplaySizes(ds) && GrantsAny(ds, Filled(r, z))
    ensures SomeIncludes(ds, r) == Yes
    decreases ds, r
  {
    NoAbort(ds[0], r);
    if Grants(ds[0], Filled(r, z)) {
      GrantingFilledIncludes(ds[0], r, z);
    } else if Includes(ds[0], r) == No {
      SomeGrantingFilledIncludes(ds[1..], r, z);
    }
  }

  lemma {:induction false} AllGrantingFilledInclude(ds: seq<Tag>, rs: seq<Tag>, z: string)
    requires AllSetFree(rs) && AllPrefixFree(rs) && |z| > DisplaySizes(ds) && GrantsAll(ds, AllFilled(rs, z))
    ensures ListIncludes(ds, rs) == Yes
    decreases ds, rs
  {
    if ds != [] {
      GrantingFilledIncludes(ds[0], rs[0], z);
      AllGrantingFilledInclude(ds[1..], rs[1..], z);
    }
  }

  /** Every star-free request that `r` grants is granted by `d`. */
  ghost predicate Covers(d: Tag, r: Tag) {
    forall g | StarFree(g) && Grants(r, g) :: Grants(d, g)
  }

  lemma CoveredIsIncluded(d: Tag, r: Tag)
    requires SetFree(r) && PrefixFree(r) && Covers(d, r)
    ensures Includes(d, r) == Yes
  {
    var z := seq(DisplaySize(d) + 1, i => 'z');
    FilledIsGranted(r, z);
    GrantingFilledIncludes(d, r, z);
  }

  /** Sets occur at the top only, or in such sets. */
  predicate SetsOnTop(r: Tag) {
    if r.Set? then AllSetsOnTop(r.items) else SetFree(r)
  }

  predicate AllSetsOnTop(rs: seq<Tag>) {
    rs == [] || (SetsOnTop(rs[0]) && AllSetsOnTop(rs[1..]))
  }

  lemma {:induction false} CoveredSetIsIncluded(ds: seq<Tag>, r: Tag)
    requires SetsOnTop(r) && PrefixFree(r) && Covers(Set(ds), r)
    ensures SetIncludes(ds, r) == Yes
    decreases r, 1
  {
    if r.Set? {
      EachCoveredIsIncluded(ds, r.items);
    } else {
      CoveredIsIncluded(Set(ds), r);
    }
  }

  lemma {:induction false} EachCoveredIsIncluded(ds: seq<Tag>, rs: seq<Tag>)
    requires AllSetsOnTop(rs) && AllPrefixFree(rs) && Covers(Set(ds), Set(rs))
    ensures SetIncludesEach(ds, rs) == Yes
    decreases rs, 0
  {
    if rs != [] {
      assert Covers(Set(ds), rs[0]) && Covers(Set(ds), Set(rs[1..])) by {
        assert forall g :: Grants(Set(rs), g) <==> Grants(rs[0], g) || Grants(Set(rs[1..]), g);
      }
      CoveredSetIsIncluded(ds, rs[0]);
      EachCoveredIsIncluded(ds, rs[1..]);
    }
  }

  /** The test is exact for requests without prefix forms whose sets are on top, unless
      a set meets a tag that is neither a set nor (*). */
  lemma IncludesIffCovers(d: Tag, r: Tag)
    requires SetsOnTop(r) && PrefixFree(r) && (r.Set? ==> d.Set? || d.Any?)
    ensures Includes(d, r) == Yes <==> Covers(d, r)
  {
    if Covers(d, r) {
      if d.Set? {
        CoveredSetIsIncluded(d.items, r);
      } else if !r.Set? {
        CoveredIsIncluded(d, r);
      }
    }
    if Includes(d, r) == Yes {
      forall g | StarFree(g) && Grants(r, g)
        ensures Grants(d, g)
      {
        IncludesIsSound(d, r, g);
      }
    }
  }

  lemma OneOf(a: Tag, b: Tag, g: Tag)
    ensures GrantsAny([a, b], g) <==> Grants(a, g) || Grants(b, g)
  {
    assert [a, b][1..] == [b] && [b][1..] == [];
    assert GrantsAny([b], g) <==> Grants(b, g);
  }

  lemma OneThenOne(a: Tag, b: Tag, gs: seq<Tag>)
    ensures GrantsAll([a, b], gs) <==> |gs| >= 2 && Grants(a, gs[0]) && Grants(b, gs[1])
  {
    assert [a, b][1..] == [b] && [b][1..] == [];
    if gs != [] {
      var rest := gs[1..];
      assert GrantsAll([b], rest) <==> rest != [] && Grants(b, rest[0]);
    }
  }

  /** A set below is missed: (x (* set a b)) is covered by (x a) and (x b) together, and
      included in neither. */
  lemma CoveredCanBeMissed()
    ensures var x, a, b := Atom(None, "x"), Atom(None, "a"), Atom(None, "b");
            var d, r := Set([List([x, a]), List([x, b])]), List([x, Set([a, b])]);
            Covers(d, r) && Includes(d, r) == No
  {
    var x, a, b := Atom(None, "x"), Atom(None, "a"), Atom(None, "b");
    var xa, xb, ab := List([x, a]), List([x, b]), Set([a, b]);
    forall g | StarFree(g) && Grants(List([x, ab]), g)
      ensures Grants(Set([xa, xb]), g)
    {
      OneThenOne(x, ab, g.items);
      OneOf(a, b, g.items[1]);
      OneThenOne(x, a, g.items);
      OneThenOne(x, b, g.items);
      OneOf(xa, xb, g);
    }
    NotIncluded(x, a, ab);
    NotIncluded(x, b, ab);
    var r := List([x, ab]);
    assert [xa, xb][1..] == [xb] && [xb][1..] == [];
    assert SomeIncludes([xb], r) == No;
    assert SomeIncludes([xa, xb], r) == No;
  }

  lemma NotIncluded(x: Tag, a: Tag, s: Tag)
    requires x.Atom? && a.Atom? && s.Set?
    ensures Includes(List([x, a]), List([x, s])) == No
  {
    assert [x, a][1..] == [a] && [x, s][1..] == [s];
    assert ListIncludes([a], [s]) == No && Includes(x, x) == Yes;
    assert ListIncludes([x, a], [x, s]) == No;
  }
}
