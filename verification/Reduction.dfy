/** 5-tuple reduction (spki/reduce.c, RFC 2693 section 6.3): which tuples the
    ACL yields under a sequence of certificates. Tags and principals are
    parameters here: `meet` intersects two tags, `norm` resolves aliases. */
module Reduction {
  import opened Wrappers

  // ----- Validity

  /** A date is its 19 bytes read as one big-endian number, which orders dates as
      memcmp does. */
  const FOR_EVER: nat := 0xff_ffff_ffff_ffff_ffff_ffff_ffff_ffff_ffff_ffff

  datatype Validity = Validity(notBefore: nat, notAfter: nat, hasBefore: bool, hasAfter: bool)

  /** validity_sanity_check. */
  predicate Sane(v: Validity) {
    (!v.hasBefore ==> v.notBefore == 0) && (!v.hasAfter ==> v.notAfter == FOR_EVER)
  }

  predicate ValidAt(v: Validity, date: nat) {
    v.notBefore <= date <= v.notAfter
  }

  /** validity_intersect. */
  function Overlap(a: Validity, b: Validity): Option<Validity> {
    if a.notBefore > b.notAfter || b.notBefore > a.notAfter then None
    else
      Some(Validity(
             if a.notBefore > b.notBefore then a.notBefore else b.notBefore,
             if a.notAfter < b.notAfter then a.notAfter else b.notAfter,
             a.hasBefore || b.hasBefore, a.hasAfter || b.hasAfter))
  }

  /** The overlap holds the dates valid in both, and is absent only when there are
      none; its flags stay redundant, so the check on the result never fails. */
  lemma OverlapMeansBoth(a: Validity, b: Validity, date: nat)
    requires Sane(a) && Sane(b)
    ensures ValidAt(a, date) && ValidAt(b, date) <==> Overlap(a, b).Some? && ValidAt(Overlap(a, b).value, date)
    ensures Overlap(a, b).Some? ==> Sane(Overlap(a, b).value)
  {
  }

  // ----- Tuples and chains

  /** An ACL entry has no issuer. */
  datatype Tuple<T> = Tuple(issuer: Option<nat>, subject: nat, propagate: bool, valid: Validity, tag: T)

  /** Intersecting two tags succeeds, gives nothing, or fails an assert. */
  datatype Joined<T> = Joined(value: T) | Apart | Broken

  datatype Rules<!T> = Rules(norm: nat -> nat, meet: (T, T) -> Joined<T>)

  /** What `known` yields under `cert`; validities whose flags are not redundant fail an
      assert. */
  function Link<T>(r: Rules<T>, known: Tuple<T>, cert: Tuple<T>): Joined<Tuple<T>>
    requires cert.issuer.Some?
  {
    if r.norm(known.subject) != r.norm(cert.issuer.value) || !known.propagate then Apart
    else if !Sane(known.valid) || !Sane(cert.valid) then Broken
    else
      match Overlap(known.valid, cert.valid)
      case None => Apart
      case Some(v) =>
        match r.meet(known.tag, cert.tag)
        case Joined(t) => Joined(Tuple(known.issuer, cert.subject, cert.propagate, v, t))
        case Apart => Apart
        case Broken => Broken
  }

  /** An ACL entry followed by certificates, in the order of the sequence. */
  datatype Chain = Chain(acl: nat, links: seq<nat>)

  predicate AreCerts<T>(certs: seq<Tuple<T>>) {
    forall i :: 0 <= i < |certs| ==> certs[i].issuer.Some?
  }

  /** A chain that uses only the first `n` certificates. */
  predicate IsChain(acls: nat, n: nat, c: Chain) {
    && c.acl < acls
    && (forall i :: 0 <= i < |c.links| ==> c.links[i] < n)
    && (forall i, j :: 0 <= i < j < |c.links| ==> c.links[i] < c.links[j])
  }

  function Init(c: Chain): Chain
    requires c.links != []
  {
    c.(links := c.links[..|c.links| - 1])
  }

  function Last(c: Chain): nat
    requires c.links != []
  {
    c.links[|c.links| - 1]
  }

  function Extend(c: Chain, j: nat): Chain {
    c.(links := c.links + [j])
  }

  /** The tuple a chain proves: every link must join on. */
  function Eval<T>(r: Rules<T>, acls: seq<Tuple<T>>, certs: seq<Tuple<T>>, c: Chain): Joined<Tuple<T>>
    requires AreCerts(certs) && IsChain(|acls|, |certs|, c)
    decreases |c.links|
  {
    if c.links == [] then Joined(acls[c.acl])
    else
      match Eval(r, acls, certs, Init(c))
      case Joined(known) => Link(r, known, certs[Last(c)])
      case other => other
  }

  // ----- The reduced list

  predicate Distinct(chains: seq<Chain>) {
    forall i, j :: 0 <= i < j < |chains| ==> chains[i] != chains[j]
  }

  /** Each of `chains` proves the tuple of `out` beside it. */
  ghost predicate Proved<T>(r: Rules<T>, acls: seq<Tuple<T>>, certs: seq<Tuple<T>>, n: nat,
                            chains: seq<Chain>, out: seq<Tuple<T>>)
    requires AreCerts(certs) && n <= |certs|
  {
    && |chains| == |out|
    && (forall k :: 0 <= k < |out| ==>
          IsChain(|acls|, n, chains[k]) && Eval(r, acls, certs, chains[k]) == Joined(out[k]))
  }

  ghost predicate Complete<T>(r: Rules<T>, acls: seq<Tuple<T>>, certs: seq<Tuple<T>>, n: nat, chains: seq<Chain>)
    requires AreCerts(certs) && n <= |certs|
  {
    forall c :: IsChain(|acls|, n, c) && Eval(r, acls, certs, c).Joined? ==> c in chains
  }

  /** `out` holds one tuple for each chain over the first `n` certificates that
      proves one, and nothing else; `chains` says which is which. */
  ghost predicate Exact<T>(r: Rules<T>, acls: seq<Tuple<T>>, certs: seq<Tuple<T>>, n: nat,
                           chains: seq<Chain>, out: seq<Tuple<T>>)
    requires AreCerts(certs) && n <= |certs|
  {
    Proved(r, acls, certs, n, chains, out) && Distinct(chains) && Complete(r, acls, certs, n, chains)
  }

  ghost predicate Unbroken<T>(r: Rules<T>, acls: seq<Tuple<T>>, certs: seq<Tuple<T>>, n: nat)
    requires AreCerts(certs) && n <= |certs|
  {
    forall c :: IsChain(|acls|, n, c) ==> Eval(r, acls, certs, c) != Broken
  }

  lemma EvalExtend<T>(r: Rules<T>, acls: seq<Tuple<T>>, certs: seq<Tuple<T>>, c: Chain, j: nat)
    requires AreCerts(certs) && j < |certs| && IsChain(|acls|, j, c)
    ensures IsChain(|acls|, j + 1, Extend(c, j))
    ensures Eval(r, acls, certs, c).Joined? ==>
              Eval(r, acls, certs, Extend(c, j)) == Link(r, Eval(r, acls, certs, c).value, certs[j])
  {
    assert Init(Extend(c, j)) == c;
  }

  /** A chain over one more certificate is an old one, or an old one extended. */
  lemma ChainSplit(acls: nat, j: nat, c: Chain)
    requires IsChain(acls, j + 1, c)
    ensures IsChain(acls, j, c) ||
            (c.links != [] && Last(c) == j && IsChain(acls, j, Init(c)) && c == Extend(Init(c), j))
  {
    if c.links != [] {
      assert c.links == c.links[..|c.links| - 1] + [Last(c)];
    }
  }

  /** Each of `more` extends one of `chains` by certificate `j`. */
  predicate Extends(chains: seq<Chain>, j: nat, more: seq<Chain>) {
    forall x :: 0 <= x < |more| ==> more[x].links != [] && Last(more[x]) == j && Init(more[x]) in chains
  }

  /** Every extension of `chains` by certificate `j` that proves a tuple is among
      `more`, and none fails an assert. */
  ghost predicate Covers<T>(r: Rules<T>, acls: seq<Tuple<T>>, certs: seq<Tuple<T>>, chains: seq<Chain>, j: nat,
                            more: seq<Chain>)
    requires AreCerts(certs) && j < |certs|
  {
    forall c :: c in chains && IsChain(|acls|, j, c) && IsChain(|acls|, j + 1, Extend(c, j)) ==>
      && Eval(r, acls, certs, Extend(c, j)) != Broken
      && (Eval(r, acls, certs, Extend(c, j)).Joined? ==> Extend(c, j) in more)
  }

  /** Part of a pass with certificate `j`: the tuples that `chains` proves have
      been tried, giving `added`, which `more` proves. */
  ghost predicate Tried<T>(r: Rules<T>, acls: seq<Tuple<T>>, certs: seq<Tuple<T>>, j: nat, chains: seq<Chain>,
                           more: seq<Chain>, added: seq<Tuple<T>>)
    requires AreCerts(certs) && j < |certs|
  {
    && Proved(r, acls, certs, j + 1, more, added)
    && Distinct(more)
    && Extends(chains, j, more)
    && Covers(r, acls, certs, chains, j, more)
  }

  lemma ProvedConcat<T>(r: Rules<T>, acls: seq<Tuple<T>>, certs: seq<Tuple<T>>, n: nat, chains: seq<Chain>,
                        out: seq<Tuple<T>>, m: nat, chains': seq<Chain>, out': seq<Tuple<T>>)
    requires AreCerts(certs) && m <= n <= |certs|
    requires Proved(r, acls, certs, n, chains, out) && Proved(r, acls, certs, m, chains', out')
    ensures Proved(r, acls, certs, n, chains + chains', out + out')
  {
    forall k | 0 <= k < |out + out'|
      ensures IsChain(|acls|, n, (chains + chains')[k])
      ensures Eval(r, acls, certs, (chains + chains')[k]) == Joined((out + out')[k])
    {
      if k < |out| {
        assert (chains + chains')[k] == chains[k];
      } else {
        assert (chains + chains')[k] == chains'[k - |out|];
      }
    }
  }

  lemma TriedApart<T>(r: Rules<T>, acls: seq<Tuple<T>>, certs: seq<Tuple<T>>, j: nat, chains: seq<Chain>,
                      more: seq<Chain>, added: seq<Tuple<T>>, c: Chain, known: Tuple<T>)
    requires AreCerts(certs) && j < |certs| && Tried(r, acls, certs, j, chains, more, added)
    requires IsChain(|acls|, j, c) && Eval(r, acls, certs, c) == Joined(known)
    requires Link(r, known, certs[j]) == Apart
    ensures Tried(r, acls, certs, j, chains + [c], more, added)
  {
    EvalExtend(r, acls, certs, c, j);
    assert forall d :: d in chains + [c] <==> d in chains || d == c;
    assert Covers(r, acls, certs, chains + [c], j, more);
    assert Extends(chains + [c], j, more);
  }

  lemma TriedJoined<T>(r: Rules<T>, acls: seq<Tuple<T>>, certs: seq<Tuple<T>>, j: nat, chains: seq<Chain>,
                       more: seq<Chain>, added: seq<Tuple<T>>, c: Chain, known: Tuple<T>, t: Tuple<T>)
    requires AreCerts(certs) && j < |certs| && Tried(r, acls, certs, j, chains, more, added)
    requires IsChain(|acls|, j, c) && Eval(r, acls, certs, c) == Joined(known) && c !in chains
    requires Link(r, known, certs[j]) == Joined(t)
    ensures Tried(r, acls, certs, j, chains + [c], [Extend(c, j)] + more, [t] + added)
  {
    EvalExtend(r, acls, certs, c, j);
    assert Init(Extend(c, j)) == c;
    ProvedConcat(r, acls, certs, j + 1, [Extend(c, j)], [t], j + 1, more, added);
    ExtendsCons(chains, j, more, c);
    CoversCons(r, acls, certs, j, chains, more, c);
  }

  lemma ExtendsCons(chains: seq<Chain>, j: nat, more: seq<Chain>, c: Chain)
    requires Extends(chains, j, more) && Distinct(more) && c !in chains
    ensures Extends(chains + [c], j, [Extend(c, j)] + more) && Distinct([Extend(c, j)] + more)
  {
    assert Init(Extend(c, j)) == c;
  }

  lemma CoversCons<T>(r: Rules<T>, acls: seq<Tuple<T>>, certs: seq<Tuple<T>>, j: nat, chains: seq<Chain>,
                      more: seq<Chain>, c: Chain)
    requires AreCerts(certs) && j < |certs| && Covers(r, acls, certs, chains, j, more)
    requires IsChain(|acls|, j + 1, Extend(c, j)) && Eval(r, acls, certs, Extend(c, j)).Joined?
    ensures Covers(r, acls, certs, chains + [c], j, [Extend(c, j)] + more)
  {
    var more' := [Extend(c, j)] + more;
    assert Extend(c, j) == more'[0];
    assert forall m :: m in more ==> m in more';
  }

  lemma AssembleComplete<T>(r: Rules<T>, acls: seq<Tuple<T>>, certs: seq<Tuple<T>>, j: nat, chains: seq<Chain>,
                            more: seq<Chain>, c: Chain)
    requires AreCerts(certs) && j < |certs| && Unbroken(r, acls, certs, j)
    requires Complete(r, acls, certs, j, chains) && Covers(r, acls, certs, chains, j, more)
    requires IsChain(|acls|, j + 1, c)
    ensures Eval(r, acls, certs, c) != Broken
    ensures Eval(r, acls, certs, c).Joined? ==> c in more + chains
  {
    ChainSplit(|acls|, j, c);
    if !IsChain(|acls|, j, c) && Eval(r, acls, certs, Init(c)).Joined? {
      assert Init(c) in chains;
      assert c == Extend(Init(c), j);
    }
  }

  lemma Assemble<T>(r: Rules<T>, acls: seq<Tuple<T>>, certs: seq<Tuple<T>>, j: nat, chains: seq<Chain>,
                    list: seq<Tuple<T>>, more: seq<Chain>, added: seq<Tuple<T>>)
    requires AreCerts(certs) && j < |certs| && Unbroken(r, acls, certs, j)
    requires Exact(r, acls, certs, j, chains, list) && Tried(r, acls, certs, j, chains, more, added)
    ensures Exact(r, acls, certs, j + 1, more + chains, added + list)
    ensures Unbroken(r, acls, certs, j + 1)
  {
    forall c | IsChain(|acls|, j + 1, c)
      ensures Eval(r, acls, certs, c) != Broken
      ensures Eval(r, acls, certs, c).Joined? ==> c in more + chains
    {
      AssembleComplete(r, acls, certs, j, chains, more, c);
    }
    AssembleDistinct(|acls|, j, chains, more);
    ProvedConcat(r, acls, certs, j + 1, more, added, j, chains, list);
  }

  lemma AssembleDistinct(acls: nat, j: nat, chains: seq<Chain>, more: seq<Chain>)
    requires forall k :: 0 <= k < |chains| ==> IsChain(acls, j, chains[k])
    requires Distinct(chains) && Distinct(more) && Extends(chains, j, more)
    ensures Distinct(more + chains)
  {
  }

  // ----- The loops

  /** spki_5_tuple_by_subject_next: the next tuple from `i` on with this subject. */
  method BySubjectNext<T>(r: Rules<T>, list: seq<Tuple<T>>, i: nat, subject: nat) returns (k: nat)
    requires i <= |list|
    ensures i <= k <= |list|
    ensures forall m :: i <= m < k ==> r.norm(list[m].subject) != r.norm(subject)
    ensures k < |list| ==> r.norm(list[k].subject) == r.norm(subject)
  {
    k := i;
    while k < |list| && r.norm(list[k].subject) != r.norm(subject)
      invariant i <= k <= |list|
      invariant forall m :: i <= m < k ==> r.norm(list[m].subject) != r.norm(subject)
    {
      k := k + 1;
    }
  }

  lemma TriedSkipped<T>(r: Rules<T>, acls: seq<Tuple<T>>, certs: seq<Tuple<T>>, j: nat, chains: seq<Chain>,
                        list: seq<Tuple<T>>, i: nat, k: nat, more: seq<Chain>, added: seq<Tuple<T>>)
    requires AreCerts(certs) && j < |certs| && Exact(r, acls, certs, j, chains, list)
    requires i <= k <= |list| && Tried(r, acls, certs, j, chains[..i], more, added)
    requires forall m :: i <= m < k ==> Link(r, list[m], certs[j]) == Apart
    ensures Tried(r, acls, certs, j, chains[..k], more, added)
    decreases k - i
  {
    if i < k {
      assert chains[..i] + [chains[i]] == chains[..i + 1];
      TriedApart(r, acls, certs, j, chains[..i], more, added, chains[i], list[i]);
      TriedSkipped(r, acls, certs, j, chains, list, i + 1, k, more, added);
    }
  }

  /** The body of reduce_with_list's loop, for a tuple whose subject issued `tuple`. */
  method JoinTuples<T>(r: Rules<T>, known: Tuple<T>, tuple: Tuple<T>) returns (joined: Joined<Tuple<T>>)
    requires tuple.issuer.Some? && r.norm(known.subject) == r.norm(tuple.issuer.value)
    ensures joined == Link(r, known, tuple)
  {
    if !known.propagate {
      return Apart;
    }
    if !Sane(known.valid) || !Sane(tuple.valid) {
      return Broken;
    }
    var valid := Overlap(known.valid, tuple.valid);
    if valid.None? {
      return Apart;
    }
    var tag := r.meet(known.tag, tuple.tag);
    match tag
    case Joined(t) => return Joined(Tuple(known.issuer, tuple.subject, tuple.propagate, valid.value, t));
    case Apart => return Apart;
    case Broken => return Broken;
  }

  /** What has been tried and found after the tuple at `k` as well. */
  ghost function NextMore<T>(chains: seq<Chain>, k: nat, j: nat, joined: Joined<Tuple<T>>, more: seq<Chain>): seq<Chain>
    requires k < |chains|
  {
    if joined.Joined? then [Extend(chains[k], j)] + more else more
  }

  function Cons<T>(joined: Joined<Tuple<T>>, list: seq<Tuple<T>>): seq<Tuple<T>> {
    if joined.Joined? then [joined.value] + list else list
  }

  lemma ConsConcat<T>(joined: Joined<Tuple<T>>, added: seq<Tuple<T>>, list: seq<Tuple<T>>)
    ensures Cons(joined, added + list) == Cons(joined, added) + list
  {
  }

  lemma TriedNext<T>(r: Rules<T>, acls: seq<Tuple<T>>, certs: seq<Tuple<T>>, j: nat, chains: seq<Chain>,
                     list: seq<Tuple<T>>, i: nat, k: nat, more: seq<Chain>, added: seq<Tuple<T>>)
    requires AreCerts(certs) && j < |certs| && Exact(r, acls, certs, j, chains, list)
    requires i <= k < |list| && Tried(r, acls, certs, j, chains[..i], more, added)
    requires forall m :: i <= m < k ==> Link(r, list[m], certs[j]) == Apart
    ensures var joined := Link(r, list[k], certs[j]);
            if joined == Broken then exists c :: IsChain(|acls|, j + 1, c) && Eval(r, acls, certs, c) == Broken
            else Tried(r, acls, certs, j, chains[..k + 1], NextMore(chains, k, j, joined, more), Cons(joined, added))
  {
    TriedSkipped(r, acls, certs, j, chains, list, i, k, more, added);
    assert chains[..k] + [chains[k]] == chains[..k + 1];
    match Link(r, list[k], certs[j])
    case Broken => EvalExtend(r, acls, certs, chains[k], j);
    case Joined(t) => TriedJoined(r, acls, certs, j, chains[..k], more, added, chains[k], list[k], t);
    case Apart => TriedApart(r, acls, certs, j, chains[..k], more, added, chains[k], list[k]);
  }

  lemma TriedAll<T>(r: Rules<T>, acls: seq<Tuple<T>>, certs: seq<Tuple<T>>, j: nat, chains: seq<Chain>,
                    list: seq<Tuple<T>>, i: nat, more: seq<Chain>, added: seq<Tuple<T>>)
    requires AreCerts(certs) && j < |certs| && Exact(r, acls, certs, j, chains, list) && Unbroken(r, acls, certs, j)
    requires i <= |list| && Tried(r, acls, certs, j, chains[..i], more, added)
    requires forall m :: i <= m < |list| ==> Link(r, list[m], certs[j]) == Apart
    ensures Exact(r, acls, certs, j + 1, more + chains, added + list) && Unbroken(r, acls, certs, j + 1)
  {
    TriedSkipped(r, acls, certs, j, chains, list, i, |list|, more, added);
    assert chains[..|list|] == chains;
    Assemble(r, acls, certs, j, chains, list, more, added);
  }

  /** reduce_with_list: reduces certificate `j` with every tuple of the list, and
      conses the results onto it. A false `ok` is a failed assert. */
  method ReduceWithList<T>(r: Rules<T>, ghost acls: seq<Tuple<T>>, certs: seq<Tuple<T>>, j: nat,
                           list: seq<Tuple<T>>, ghost chains: seq<Chain>)
    returns (ok: bool, result: seq<Tuple<T>>, ghost chains': seq<Chain>)
    requires AreCerts(certs) && j < |certs|
    requires Exact(r, acls, certs, j, chains, list) && Unbroken(r, acls, certs, j)
    ensures ok ==> Exact(r, acls, certs, j + 1, chains', result) && Unbroken(r, acls, certs, j + 1)
    ensures !ok ==> exists c :: IsChain(|acls|, j + 1, c) && Eval(r, acls, certs, c) == Broken
  {
    result := list;
    ghost var more, added: seq<Tuple<T>> := [], [];
    var i := 0;
    var k := BySubjectNext(r, list, i, certs[j].issuer.value);
    while k < |list|
      invariant i <= k <= |list|
      invariant forall m :: i <= m < k ==> Link(r, list[m], certs[j]) == Apart
      invariant k < |list| ==> r.norm(list[k].subject) == r.norm(certs[j].issuer.value)
      invariant result == added + list
      invariant Tried(r, acls, certs, j, chains[..i], more, added)
    {
      var joined := JoinTuples(r, list[k], certs[j]);
      TriedNext(r, acls, certs, j, chains, list, i, k, more, added);
      if joined == Broken {
        return false, result, chains;
      }
      ConsConcat(joined, added, list);
      more, added, result := NextMore(chains, k, j, joined, more), Cons(joined, added), Cons(joined, result);
      i := k + 1;
      k := BySubjectNext(r, list, i, certs[j].issuer.value);
    }
    TriedAll(r, acls, certs, j, chains, list, i, more, added);
    return true, result, more + chains;
  }

  lemma {:induction false} LinkIsAtLeast(acls: nat, n: nat, c: Chain, i: nat)
    requires IsChain(acls, n, c) && i < |c.links|
    ensures c.links[i] >= i
  {
    if i > 0 {
      LinkIsAtLeast(acls, n, c, i - 1);
    }
  }

  /** A certificate occurs at most once in a chain. */
  lemma ChainIsShort(acls: nat, n: nat, c: Chain)
    requires IsChain(acls, n, c)
    ensures |c.links| <= n
  {
    if c.links != [] {
      LinkIsAtLeast(acls, n, c, |c.links| - 1);
    }
  }

  lemma Direct<T>(r: Rules<T>, acls: seq<Tuple<T>>, certs: seq<Tuple<T>>, chains: seq<Chain>)
    requires AreCerts(certs) && |chains| == |acls| && (forall i :: 0 <= i < |acls| ==> chains[i] == Chain(i, []))
    ensures Exact(r, acls, certs, 0, chains, acls) && Unbroken(r, acls, certs, 0)
  {
    forall c | IsChain(|acls|, 0, c)
      ensures c in chains && Eval(r, acls, certs, c) != Broken
    {
      ChainIsShort(|acls|, 0, c);
      assert chains[c.acl] == c;
    }
  }

  /** spki_5_tuple_reduce: absent a failed assert, the result holds exactly one
      tuple for each chain that proves one, and it fails an assert exactly when
      joining the tuples along some chain does. */
  method Reduce<T>(r: Rules<T>, acls: seq<Tuple<T>>, certs: seq<Tuple<T>>)
    returns (ok: bool, result: seq<Tuple<T>>, ghost chains: seq<Chain>)
    requires AreCerts(certs)
    ensures ok <==> Unbroken(r, acls, certs, |certs|)
    ensures ok ==> Exact(r, acls, certs, |certs|, chains, result)
  {
    result := acls;
    chains := seq(|acls|, (i: nat) => Chain(i, []));
    Direct(r, acls, certs, chains);
    var j := 0;
    while j < |certs|
      invariant j <= |certs|
      invariant Exact(r, acls, certs, j, chains, result) && Unbroken(r, acls, certs, j)
    {
      ok, result, chains := ReduceWithList(r, acls, certs, j, result, chains);
      if !ok {
        return;
      }
      j := j + 1;
    }
    ok := true;
  }
}
