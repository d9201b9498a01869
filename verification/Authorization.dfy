/** What a reduced 5-tuple proves, with real tags: reduction (spki/reduce.c) over
    tag intersection (spki/tag.c). */
module Authorization {
  import opened Wrappers
  import opened Tags
  import opened TagIntersect
  import opened Reduction

  function JoinTags(a: Tag, b: Tag): Joined<Tag> {
    match Intersect(a, b)
    case Meets(t) => Joined(t)
    case Disjoint => Apart
    case Crash => Broken
  }

  function TagRules(norm: nat -> nat): Rules<Tag> {
    Rules(norm, JoinTags)
  }

  /** The ACL entry and every certificate of the chain grant the request. */
  predicate ChainGrants(acls: seq<Tuple<Tag>>, certs: seq<Tuple<Tag>>, c: Chain, g: Tag)
    requires IsChain(|acls|, |certs|, c)
  {
    Grants(acls[c.acl].tag, g) && forall i :: 0 <= i < |c.links| ==> Grants(certs[c.links[i]].tag, g)
  }

  predicate ChainValidAt(acls: seq<Tuple<Tag>>, certs: seq<Tuple<Tag>>, c: Chain, date: nat)
    requires IsChain(|acls|, |certs|, c)
  {
    ValidAt(acls[c.acl].valid, date) && forall i :: 0 <= i < |c.links| ==> ValidAt(certs[c.links[i]].valid, date)
  }

  /** The tuple before link `i` of the chain. */
  function Giver(acls: seq<Tuple<Tag>>, certs: seq<Tuple<Tag>>, c: Chain, i: nat): Tuple<Tag>
    requires IsChain(|acls|, |certs|, c) && i <= |c.links|
  {
    if i == 0 then acls[c.acl] else certs[c.links[i - 1]]
  }

  predicate DelegatesTo(norm: nat -> nat, giver: Tuple<Tag>, cert: Tuple<Tag>)
    requires cert.issuer.Some?
  {
    norm(giver.subject) == norm(cert.issuer.value) && giver.propagate
  }

  /** Each link was issued by the subject of the one before, which may propagate. */
  predicate ChainDelegates(norm: nat -> nat, acls: seq<Tuple<Tag>>, certs: seq<Tuple<Tag>>, c: Chain)
    requires AreCerts(certs) && IsChain(|acls|, |certs|, c)
    decreases |c.links|
  {
    c.links == [] ||
    (&& ChainDelegates(norm, acls, certs, Init(c))
     && DelegatesTo(norm, Giver(acls, certs, Init(c), |c.links| - 1), certs[Last(c)]))
  }

  predicate LinkDelegates(norm: nat -> nat, acls: seq<Tuple<Tag>>, certs: seq<Tuple<Tag>>, c: Chain, i: nat)
    requires AreCerts(certs) && IsChain(|acls|, |certs|, c) && i < |c.links|
  {
    DelegatesTo(norm, Giver(acls, certs, c, i), certs[c.links[i]])
  }

  lemma SameLink(norm: nat -> nat, acls: seq<Tuple<Tag>>, certs: seq<Tuple<Tag>>, c: Chain, i: nat)
    requires AreCerts(certs) && IsChain(|acls|, |certs|, c) && i < |c.links|
    ensures i < |Init(c).links| ==>
              (LinkDelegates(norm, acls, certs, Init(c), i) <==> LinkDelegates(norm, acls, certs, c, i))
    ensures i == |Init(c).links| ==>
              (DelegatesTo(norm, Giver(acls, certs, Init(c), i), certs[Last(c)]) <==>
               LinkDelegates(norm, acls, certs, c, i))
  {
  }

  /** That is so exactly when it is at every link. */
  lemma {:induction false} ChainDelegatesByLinks(norm: nat -> nat, acls: seq<Tuple<Tag>>, certs: seq<Tuple<Tag>>,
                                                 c: Chain)
    requires AreCerts(certs) && IsChain(|acls|, |certs|, c)
    ensures ChainDelegates(norm, acls, certs, c) <==>
            (forall i :: 0 <= i < |c.links| ==> LinkDelegates(norm, acls, certs, c, i))
    decreases |c.links|
  {
    if c.links != [] {
      var p := Init(c);
      ChainDelegatesByLinks(norm, acls, certs, p);
      forall i | 0 <= i < |p.links|
        ensures LinkDelegates(norm, acls, certs, p, i) <==> LinkDelegates(norm, acls, certs, c, i)
      {
        SameLink(norm, acls, certs, c, i);
      }
      SameLink(norm, acls, certs, c, |p.links|);
    }
  }

  /** Wherever two tags meet along the chain, they are normal and compatible. */
  predicate ChainFits(norm: nat -> nat, acls: seq<Tuple<Tag>>, certs: seq<Tuple<Tag>>, c: Chain)
    requires AreCerts(certs) && IsChain(|acls|, |certs|, c)
    decreases |c.links|
  {
    if c.links == [] then Normal(acls[c.acl].tag)
    else
      && ChainFits(norm, acls, certs, Init(c))
      && match Eval(TagRules(norm), acls, certs, Init(c))
         case Joined(known) => Normal(certs[Last(c)].tag) && Compatible(known.tag, certs[Last(c)].tag)
         case _ => true
  }

  /** Wherever two tags meet along the chain, they have something in common. */
  predicate ChainMeets(norm: nat -> nat, acls: seq<Tuple<Tag>>, certs: seq<Tuple<Tag>>, c: Chain)
    requires AreCerts(certs) && IsChain(|acls|, |certs|, c)
    decreases |c.links|
  {
    c.links == [] ||
    (&& ChainMeets(norm, acls, certs, Init(c))
     && match Eval(TagRules(norm), acls, certs, Init(c))
        case Joined(known) => !Away(known.tag, certs[Last(c)].tag)
        case _ => true)
  }

  lemma MembersOfInit(acls: seq<Tuple<Tag>>, certs: seq<Tuple<Tag>>, c: Chain, g: Tag, date: nat)
    requires IsChain(|acls|, |certs|, c) && c.links != []
    ensures IsChain(|acls|, |certs|, Init(c))
    ensures ChainGrants(acls, certs, c, g) <==> ChainGrants(acls, certs, Init(c), g) && Grants(certs[Last(c)].tag, g)
    ensures ChainValidAt(acls, certs, c, date) <==>
            ChainValidAt(acls, certs, Init(c), date) && ValidAt(certs[Last(c)].valid, date)
  {
    assert c.links == Init(c).links + [Last(c)];
  }

  lemma JoinedFacts(r: Rules<Tag>, known: Tuple<Tag>, cert: Tuple<Tag>, date: nat)
    requires cert.issuer.Some? && Link(r, known, cert).Joined?
    ensures var t := Link(r, known, cert).value;
            && t.issuer == known.issuer && t.subject == cert.subject && t.propagate == cert.propagate
            && (ValidAt(t.valid, date) <==> ValidAt(known.valid, date) && ValidAt(cert.valid, date))
    ensures r.norm(known.subject) == r.norm(cert.issuer.value) && known.propagate
  {
  }

  /** What a chain proves is valid on exactly the dates all its members are, goes
      from the ACL to the last subject, and was delegated link by link. */
  lemma {:induction false} ProvedTupleDelegates(norm: nat -> nat, acls: seq<Tuple<Tag>>, certs: seq<Tuple<Tag>>,
                                                c: Chain, date: nat)
    requires AreCerts(certs) && IsChain(|acls|, |certs|, c)
    requires Eval(TagRules(norm), acls, certs, c).Joined?
    ensures var t := Eval(TagRules(norm), acls, certs, c).value;
            && t.issuer == acls[c.acl].issuer
            && t.subject == Giver(acls, certs, c, |c.links|).subject
            && t.propagate == Giver(acls, certs, c, |c.links|).propagate
            && (ValidAt(t.valid, date) <==> ChainValidAt(acls, certs, c, date))
    ensures ChainDelegates(norm, acls, certs, c)
    decreases |c.links|
  {
    if c.links != [] {
      MembersOfInit(acls, certs, c, Any, date);
      ProvedTupleDelegates(norm, acls, certs, Init(c), date);
      JoinedFacts(TagRules(norm), Eval(TagRules(norm), acls, certs, Init(c)).value, certs[Last(c)], date);
    }
  }

  /** What a chain proves grants exactly what every member grants. */
  lemma {:induction false} ProvedTupleAttenuates(norm: nat -> nat, acls: seq<Tuple<Tag>>, certs: seq<Tuple<Tag>>,
                                                 c: Chain, g: Tag)
    requires AreCerts(certs) && IsChain(|acls|, |certs|, c)
    requires ChainFits(norm, acls, certs, c) && Eval(TagRules(norm), acls, certs, c).Joined?
    ensures var t := Eval(TagRules(norm), acls, certs, c).value;
            && Normal(t.tag)
            && (Grants(t.tag, g) <==> ChainGrants(acls, certs, c, g))
    decreases |c.links|
  {
    if c.links != [] {
      MembersOfInit(acls, certs, c, g, 0);
      ProvedTupleAttenuates(norm, acls, certs, Init(c), g);
      var known := Eval(TagRules(norm), acls, certs, Init(c)).value;
      IntersectIsNormal(known.tag, certs[Last(c)].tag);
      IntersectMeansIntersection(known.tag, certs[Last(c)].tag, g);
    }
  }

  // ----- Without sets, that condition is exact

  predicate TagsSetFree(ts: seq<Tuple<Tag>>) {
    forall i :: 0 <= i < |ts| ==> SetFree(ts[i].tag)
  }

  lemma {:induction false} ProvedTagIsSetFree(norm: nat -> nat, acls: seq<Tuple<Tag>>, certs: seq<Tuple<Tag>>, c: Chain)
    requires AreCerts(certs) && IsChain(|acls|, |certs|, c) && TagsSetFree(acls) && TagsSetFree(certs)
    requires Eval(TagRules(norm), acls, certs, c).Joined?
    ensures SetFree(Eval(TagRules(norm), acls, certs, c).value.tag)
    decreases |c.links|
  {
    if c.links != [] {
      ProvedTagIsSetFree(norm, acls, certs, Init(c));
      IntersectIsSetFree(Eval(TagRules(norm), acls, certs, Init(c)).value.tag, certs[Last(c)].tag);
    }
  }

  /** A proved chain whose members have a request in common fits. */
  lemma {:induction false} SharingChainFits(norm: nat -> nat, acls: seq<Tuple<Tag>>, certs: seq<Tuple<Tag>>,
                                                   c: Chain, g: Tag)
    requires AreCerts(certs) && IsChain(|acls|, |certs|, c) && TagsSetFree(acls) && TagsSetFree(certs)
    requires Eval(TagRules(norm), acls, certs, c).Joined? && ChainGrants(acls, certs, c, g)
    ensures ChainFits(norm, acls, certs, c)
    decreases |c.links|
  {
    SetFreeIsNormal(acls[c.acl].tag);
    if c.links != [] {
      MembersOfInit(acls, certs, c, g, 0);
      SharingChainFits(norm, acls, certs, Init(c), g);
      ProvedTupleAttenuates(norm, acls, certs, Init(c), g);
      ProvedTagIsSetFree(norm, acls, certs, Init(c));
      var known, cert := Eval(TagRules(norm), acls, certs, Init(c)).value, certs[Last(c)];
      SetFreeIsNormal(cert.tag);
      SharingIsCompatible(known.tag, cert.tag, g);
    }
  }

  /** The tuple grants, of star-free requests, exactly what every member of the chain grants. */
  ghost predicate Attenuates(t: Tuple<Tag>, acls: seq<Tuple<Tag>>, certs: seq<Tuple<Tag>>, c: Chain)
    requires IsChain(|acls|, |certs|, c)
  {
    forall g | StarFree(g) :: Grants(t.tag, g) <==> ChainGrants(acls, certs, c, g)
  }

  /** For tags without sets, what a chain proves is what its members grant if and only
      if the tags fit wherever they meet. */
  lemma ProvedTupleAttenuatesIff(norm: nat -> nat, acls: seq<Tuple<Tag>>, certs: seq<Tuple<Tag>>, c: Chain)
    requires AreCerts(certs) && IsChain(|acls|, |certs|, c) && TagsSetFree(acls) && TagsSetFree(certs)
    requires Eval(TagRules(norm), acls, certs, c).Joined?
    ensures Attenuates(Eval(TagRules(norm), acls, certs, c).value, acls, certs, c) <==> ChainFits(norm, acls, certs, c)
  {
    var t := Eval(TagRules(norm), acls, certs, c).value;
    if ChainFits(norm, acls, certs, c) {
      forall g | StarFree(g)
        ensures Grants(t.tag, g) <==> ChainGrants(acls, certs, c, g)
      {
        ProvedTupleAttenuates(norm, acls, certs, c, g);
      }
    } else {
      ProvedTagIsSetFree(norm, acls, certs, c);
      SampleIsGranted(t.tag);
      if ChainGrants(acls, certs, c, Sample(t.tag)) {
        SharingChainFits(norm, acls, certs, c, Sample(t.tag));
      }
    }
  }

  /** The smallest chain that does not fit: the entry grants (ftp a), the certificate
      (ftp b), and the chain proves (ftp), which grants (ftp c). */
  lemma ProvedTupleCanBroaden(norm: nat -> nat)
    ensures var ftp, a, b, c := Atom(None, "ftp"), Atom(None, "a"), Atom(None, "b"), Atom(None, "c");
            var always := Validity(0, FOR_EVER, false, false);
            var acls := [Tuple(None, 1, true, always, List([ftp, a]))];
            var certs := [Tuple(Some(1), 2, false, always, List([ftp, b]))];
            && AreCerts(certs) && IsChain(1, 1, Chain(0, [0]))
            && Eval(TagRules(norm), acls, certs, Chain(0, [0])) == Joined(Tuple(None, 2, false, always, List([ftp])))
            && Grants(List([ftp]), List([ftp, c]))
            && !Grants(acls[0].tag, List([ftp, c])) && !Grants(certs[0].tag, List([ftp, c]))
  {
    IntersectCanBroaden();
    var ftp, a, b := Atom(None, "ftp"), Atom(None, "a"), Atom(None, "b");
    var always := Validity(0, FOR_EVER, false, false);
    var acls := [Tuple(None, 1, true, always, List([ftp, a]))];
    var certs := [Tuple(Some(1), 2, false, always, List([ftp, b]))];
    assert Init(Chain(0, [0])) == Chain(0, []);
    assert Eval(TagRules(norm), acls, certs, Chain(0, [])) == Joined(acls[0]);
  }

  /** Without sets, the reduced list is an attenuation of its chains if and only if
      each of them fits. */
  lemma ReductionAttenuatesIff(norm: nat -> nat, acls: seq<Tuple<Tag>>, certs: seq<Tuple<Tag>>, chains: seq<Chain>,
                               result: seq<Tuple<Tag>>)
    requires AreCerts(certs) && TagsSetFree(acls) && TagsSetFree(certs)
    requires Exact(TagRules(norm), acls, certs, |certs|, chains, result)
    ensures (forall k :: 0 <= k < |result| ==> Attenuates(result[k], acls, certs, chains[k])) <==>
            (forall k :: 0 <= k < |result| ==> ChainFits(norm, acls, certs, chains[k]))
  {
    forall k | 0 <= k < |result|
      ensures Attenuates(result[k], acls, certs, chains[k]) <==> ChainFits(norm, acls, certs, chains[k])
    {
      ProvedTupleAttenuatesIff(norm, acls, certs, chains[k]);
    }
  }

  // ----- Reduction finds what is authorized

  predicate AllSane(ts: seq<Tuple<Tag>>) {
    forall i :: 0 <= i < |ts| ==> Sane(ts[i].valid)
  }

  lemma {:induction false} ProvedTupleIsSane(norm: nat -> nat, acls: seq<Tuple<Tag>>, certs: seq<Tuple<Tag>>, c: Chain)
    requires AreCerts(certs) && IsChain(|acls|, |certs|, c) && AllSane(acls) && AllSane(certs)
    requires Eval(TagRules(norm), acls, certs, c).Joined?
    ensures Sane(Eval(TagRules(norm), acls, certs, c).value.valid)
    decreases |c.links|
  {
    if c.links != [] {
      ProvedTupleIsSane(norm, acls, certs, Init(c));
    }
  }

  /** The chain delegates the request to `subject` at the date. */
  predicate Delegated(norm: nat -> nat, acls: seq<Tuple<Tag>>, certs: seq<Tuple<Tag>>, c: Chain,
                      subject: nat, g: Tag, date: nat)
    requires AreCerts(certs) && IsChain(|acls|, |certs|, c)
  {
    && Giver(acls, certs, c, |c.links|).subject == subject
    && ChainDelegates(norm, acls, certs, c)
    && ChainGrants(acls, certs, c, g) && ChainValidAt(acls, certs, c, date)
  }

  /** And no two tags along it look unrelated. */
  predicate Authorizes(norm: nat -> nat, acls: seq<Tuple<Tag>>, certs: seq<Tuple<Tag>>, c: Chain,
                       subject: nat, g: Tag, date: nat)
    requires AreCerts(certs) && IsChain(|acls|, |certs|, c)
  {
    Delegated(norm, acls, certs, c, subject, g, date) && ChainMeets(norm, acls, certs, c)
  }

  /** A link to a certificate that is valid, delegated to and compatible joins on. */
  lemma LinkJoins(norm: nat -> nat, known: Tuple<Tag>, cert: Tuple<Tag>, date: nat)
    requires cert.issuer.Some? && DelegatesTo(norm, known, cert) && Sane(known.valid) && Sane(cert.valid)
    requires ValidAt(known.valid, date) && ValidAt(cert.valid, date)
    requires Normal(known.tag) && Normal(cert.tag) && Compatible(known.tag, cert.tag) && !Away(known.tag, cert.tag)
    ensures Link(TagRules(norm), known, cert).Joined?
  {
    CompatibleTagsDoNotClash(known.tag, cert.tag);
    IntersectFailsIff(known.tag, cert.tag);
  }

  lemma {:induction false} AuthorizingChainProves(norm: nat -> nat, acls: seq<Tuple<Tag>>, certs: seq<Tuple<Tag>>,
                                                  c: Chain, g: Tag, date: nat)
    requires AreCerts(certs) && IsChain(|acls|, |certs|, c) && AllSane(acls) && AllSane(certs)
    requires ChainFits(norm, acls, certs, c)
    requires Authorizes(norm, acls, certs, c, Giver(acls, certs, c, |c.links|).subject, g, date)
    ensures Eval(TagRules(norm), acls, certs, c).Joined?
    decreases |c.links|
  {
    if c.links != [] {
      var p := Init(c);
      MembersOfInit(acls, certs, c, g, date);
      AuthorizingChainProves(norm, acls, certs, p, g, date);
      ProvedTupleDelegates(norm, acls, certs, p, date);
      ProvedTupleAttenuates(norm, acls, certs, p, g);
      ProvedTupleIsSane(norm, acls, certs, p);
      LinkJoins(norm, Eval(TagRules(norm), acls, certs, p).value, certs[Last(c)], date);
    }
  }

  lemma {:induction false} ProvedChainMeets(norm: nat -> nat, acls: seq<Tuple<Tag>>, certs: seq<Tuple<Tag>>, c: Chain)
    requires AreCerts(certs) && IsChain(|acls|, |certs|, c) && ChainFits(norm, acls, certs, c)
    requires Eval(TagRules(norm), acls, certs, c).Joined?
    ensures ChainMeets(norm, acls, certs, c)
    decreases |c.links|
  {
    if c.links != [] {
      ProvedChainMeets(norm, acls, certs, Init(c));
      ProvedTupleAttenuates(norm, acls, certs, Init(c), Any);
      IntersectFailsIff(Eval(TagRules(norm), acls, certs, Init(c)).value.tag, certs[Last(c)].tag);
    }
  }

  /** The tuple is for `subject`, includes the request and is valid at the date. */
  predicate Grant(t: Tuple<Tag>, subject: nat, g: Tag, date: nat) {
    t.subject == subject && Includes(t.tag, g) == Yes && ValidAt(t.valid, date)
  }

  /** What a chain proves includes a star-free request, for a subject and at a date,
      exactly when the chain authorizes it. */
  lemma ProvedTupleAuthorizesIff(norm: nat -> nat, acls: seq<Tuple<Tag>>, certs: seq<Tuple<Tag>>, c: Chain,
                                 subject: nat, g: Tag, date: nat)
    requires AreCerts(certs) && IsChain(|acls|, |certs|, c) && AllSane(acls) && AllSane(certs)
    requires ChainFits(norm, acls, certs, c) && StarFree(g)
    ensures var r := Eval(TagRules(norm), acls, certs, c);
            r.Joined? && Grant(r.value, subject, g, date) <==> Authorizes(norm, acls, certs, c, subject, g, date)
  {
    if Eval(TagRules(norm), acls, certs, c).Joined? {
      IncludesDecidesGrants(Eval(TagRules(norm), acls, certs, c).value.tag, g);
      ProvedTupleDelegates(norm, acls, certs, c, date);
      ProvedTupleAttenuates(norm, acls, certs, c, g);
      ProvedChainMeets(norm, acls, certs, c);
    } else if Authorizes(norm, acls, certs, c, subject, g, date) {
      AuthorizingChainProves(norm, acls, certs, c, g, date);
    }
  }

  ghost predicate AllFit(norm: nat -> nat, acls: seq<Tuple<Tag>>, certs: seq<Tuple<Tag>>)
    requires AreCerts(certs)
  {
    forall c :: IsChain(|acls|, |certs|, c) ==> ChainFits(norm, acls, certs, c)
  }

  /** The reduced list answers authorization: of its tuples that stem from fitting
      chains, one includes a star-free request for a subject at a date exactly when
      some fitting chain authorizes that. */
  lemma ReductionAuthorizesIff(norm: nat -> nat, acls: seq<Tuple<Tag>>, certs: seq<Tuple<Tag>>, chains: seq<Chain>,
                               result: seq<Tuple<Tag>>, subject: nat, g: Tag, date: nat)
    requires AreCerts(certs) && AllSane(acls) && AllSane(certs) && StarFree(g)
    requires Exact(TagRules(norm), acls, certs, |certs|, chains, result)
    ensures (exists k :: && 0 <= k < |result| && ChainFits(norm, acls, certs, chains[k])
                         && Grant(result[k], subject, g, date)) <==>
            (exists c :: && IsChain(|acls|, |certs|, c) && ChainFits(norm, acls, certs, c)
                         && Authorizes(norm, acls, certs, c, subject, g, date))
  {
    if k :| 0 <= k < |result| && ChainFits(norm, acls, certs, chains[k]) && Grant(result[k], subject, g, date) {
      ProvedTupleAuthorizesIff(norm, acls, certs, chains[k], subject, g, date);
    }
    if c :| && IsChain(|acls|, |certs|, c) && ChainFits(norm, acls, certs, c)
            && Authorizes(norm, acls, certs, c, subject, g, date) {
      ProvedTupleAuthorizesIff(norm, acls, certs, c, subject, g, date);
      var k := FoundAt(norm, acls, certs, chains, result, c);
    }
  }

  /** So where all chains fit, the reduced list is the answer. */
  lemma FittingReductionAuthorizesIff(norm: nat -> nat, acls: seq<Tuple<Tag>>, certs: seq<Tuple<Tag>>,
                                      chains: seq<Chain>, result: seq<Tuple<Tag>>, subject: nat, g: Tag, date: nat)
    requires AreCerts(certs) && AllSane(acls) && AllSane(certs) && AllFit(norm, acls, certs) && StarFree(g)
    requires Exact(TagRules(norm), acls, certs, |certs|, chains, result)
    ensures (exists k :: 0 <= k < |result| && Grant(result[k], subject, g, date)) <==>
            (exists c :: IsChain(|acls|, |certs|, c) && Authorizes(norm, acls, certs, c, subject, g, date))
  {
    ReductionAuthorizesIff(norm, acls, certs, chains, result, subject, g, date);
    assert forall k :: 0 <= k < |result| ==> ChainFits(norm, acls, certs, chains[k]);
  }

  lemma FoundAt(norm: nat -> nat, acls: seq<Tuple<Tag>>, certs: seq<Tuple<Tag>>, chains: seq<Chain>,
                result: seq<Tuple<Tag>>, c: Chain) returns (k: nat)
    requires AreCerts(certs) && Exact(TagRules(norm), acls, certs, |certs|, chains, result)
    requires IsChain(|acls|, |certs|, c) && Eval(TagRules(norm), acls, certs, c).Joined?
    ensures k < |result| && chains[k] == c && Eval(TagRules(norm), acls, certs, c) == Joined(result[k])
  {
    assert c in chains;
    k :| 0 <= k < |chains| && chains[k] == c;
  }

  // ----- Without sets, nothing that is delegated is lost

  lemma {:induction false} DelegatedChainProves(norm: nat -> nat, acls: seq<Tuple<Tag>>, certs: seq<Tuple<Tag>>,
                                                c: Chain, g: Tag, date: nat)
    requires AreCerts(certs) && IsChain(|acls|, |certs|, c) && AllSane(acls) && AllSane(certs)
    requires TagsSetFree(acls) && TagsSetFree(certs) && Eval(TagRules(norm), acls, certs, c) != Broken
    requires ChainDelegates(norm, acls, certs, c) && ChainGrants(acls, certs, c, g)
    requires ChainValidAt(acls, certs, c, date)
    ensures Eval(TagRules(norm), acls, certs, c).Joined?
    ensures Grants(Eval(TagRules(norm), acls, certs, c).value.tag, g)
    decreases |c.links|
  {
    if c.links != [] {
      var p := Init(c);
      MembersOfInit(acls, certs, c, g, date);
      DelegatedChainProves(norm, acls, certs, p, g, date);
      ProvedTupleDelegates(norm, acls, certs, p, date);
      ProvedTupleIsSane(norm, acls, certs, p);
      ProvedTagIsSetFree(norm, acls, certs, p);
      LinkKeepsShared(norm, Eval(TagRules(norm), acls, certs, p).value, certs[Last(c)], g, date);
    }
  }

  lemma LinkKeepsShared(norm: nat -> nat, known: Tuple<Tag>, cert: Tuple<Tag>, g: Tag, date: nat)
    requires cert.issuer.Some? && DelegatesTo(norm, known, cert) && Sane(known.valid) && Sane(cert.valid)
    requires ValidAt(known.valid, date) && ValidAt(cert.valid, date)
    requires SetFree(known.tag) && SetFree(cert.tag) && Grants(known.tag, g) && Grants(cert.tag, g)
    requires Link(TagRules(norm), known, cert) != Broken
    ensures Link(TagRules(norm), known, cert).Joined? && Grants(Link(TagRules(norm), known, cert).value.tag, g)
  {
    IntersectKeepsShared(known.tag, cert.tag, g);
  }

  /** For tags without sets, unless an assert fails: a chain delegates a request exactly
      when it fits and its tuple includes the request. */
  lemma DelegatedIff(norm: nat -> nat, acls: seq<Tuple<Tag>>, certs: seq<Tuple<Tag>>, c: Chain,
                     subject: nat, g: Tag, date: nat)
    requires AreCerts(certs) && IsChain(|acls|, |certs|, c) && AllSane(acls) && AllSane(certs)
    requires TagsSetFree(acls) && TagsSetFree(certs) && StarFree(g) && Eval(TagRules(norm), acls, certs, c) != Broken
    ensures var r := Eval(TagRules(norm), acls, certs, c);
            Delegated(norm, acls, certs, c, subject, g, date) <==>
            r.Joined? && ChainFits(norm, acls, certs, c) && Grant(r.value, subject, g, date)
  {
    var r := Eval(TagRules(norm), acls, certs, c);
    if Delegated(norm, acls, certs, c, subject, g, date) {
      DelegatedChainProves(norm, acls, certs, c, g, date);
      SharingChainFits(norm, acls, certs, c, g);
    }
    if r.Joined? && ChainFits(norm, acls, certs, c) {
      IncludesDecidesGrants(r.value.tag, g);
      ProvedTupleDelegates(norm, acls, certs, c, date);
      ProvedTupleAttenuates(norm, acls, certs, c, g);
    }
  }

  /** So every delegated request is found in the reduced list, and what else is found
      there stems from chains that do not fit. */
  lemma ReductionFindsDelegatedIff(norm: nat -> nat, acls: seq<Tuple<Tag>>, certs: seq<Tuple<Tag>>, chains: seq<Chain>,
                                   result: seq<Tuple<Tag>>, subject: nat, g: Tag, date: nat)
    requires AreCerts(certs) && AllSane(acls) && AllSane(certs) && TagsSetFree(acls) && TagsSetFree(certs)
    requires StarFree(g)
    requires Unbroken(TagRules(norm), acls, certs, |certs|)
    requires Exact(TagRules(norm), acls, certs, |certs|, chains, result)
    ensures (exists c :: IsChain(|acls|, |certs|, c) && Delegated(norm, acls, certs, c, subject, g, date)) <==>
            (exists k :: && 0 <= k < |result| && ChainFits(norm, acls, certs, chains[k])
                         && Grant(result[k], subject, g, date))
  {
    if k :| 0 <= k < |result| && ChainFits(norm, acls, certs, chains[k]) && Grant(result[k], subject, g, date) {
      DelegatedIff(norm, acls, certs, chains[k], subject, g, date);
    }
    if c :| IsChain(|acls|, |certs|, c) && Delegated(norm, acls, certs, c, subject, g, date) {
      DelegatedIff(norm, acls, certs, c, subject, g, date);
      var k := FoundAt(norm, acls, certs, chains, result, c);
    }
  }

  /** A set and one of its elements look unrelated, and what both grant is missed: here
      the entry grants a or b, the certificate a, and the chain proves nothing. */
  lemma SetAgainstElementIsMissed(norm: nat -> nat)
    ensures var a, b := Atom(None, "a"), Atom(None, "b");
            var always := Validity(0, FOR_EVER, false, false);
            var acls := [Tuple(None, 1, true, always, Set([a, b]))];
            var certs := [Tuple(Some(1), 2, false, always, a)];
            var c := Chain(0, [0]);
            && AreCerts(certs) && IsChain(1, 1, c) && ChainFits(norm, acls, certs, c)
            && ChainDelegates(norm, acls, certs, c) && ChainGrants(acls, certs, c, a) && ChainValidAt(acls, certs, c, 0)
            && Eval(TagRules(norm), acls, certs, c) == Apart
  {
    var a, b := Atom(None, "a"), Atom(None, "b");
    var always := Validity(0, FOR_EVER, false, false);
    var acls := [Tuple(None, 1, true, always, Set([a, b]))];
    var certs := [Tuple(Some(1), 2, false, always, a)];
    var c := Chain(0, [0]);
    assert Init(c) == Chain(0, []);
    assert Eval(TagRules(norm), acls, certs, Init(c)) == Joined(acls[0]);
    assert NoSets([a, b]) && AllNormal([a, b]) by {
      assert [a, b][1..] == [b];
      OneIsNormal(b);
    }
    assert Normal(Set([a, b])) && GrantsAny([a, b], a);
    assert ChainFits(norm, acls, certs, Init(c));
    assert Intersect(Set([a, b]), a) == Disjoint && Compatible(Set([a, b]), a);
  }

  // ----- When reduction fails an assert

  predicate TagsNormal(ts: seq<Tuple<Tag>>) {
    forall i :: 0 <= i < |ts| ==> Normal(ts[i].tag)
  }

  /** The last link of the chain fails an assert: it follows on from what the rest
      proves, and a validity is not sane, or the validities overlap and the tags clash. */
  predicate LinkBreaks(norm: nat -> nat, known: Tuple<Tag>, cert: Tuple<Tag>)
    requires cert.issuer.Some?
  {
    && DelegatesTo(norm, known, cert)
    && (!Sane(known.valid) || !Sane(cert.valid) ||
        (Overlap(known.valid, cert.valid).Some? && Clash(known.tag, cert.tag)))
  }

  predicate Breaks(norm: nat -> nat, acls: seq<Tuple<Tag>>, certs: seq<Tuple<Tag>>, c: Chain)
    requires AreCerts(certs) && IsChain(|acls|, |certs|, c)
    decreases |c.links|
  {
    && c.links != []
    && (|| Breaks(norm, acls, certs, Init(c))
        || match Eval(TagRules(norm), acls, certs, Init(c))
           case Joined(known) => LinkBreaks(norm, known, certs[Last(c)])
           case _ => false)
  }

  lemma {:induction false} ProvedTagIsNormal(norm: nat -> nat, acls: seq<Tuple<Tag>>, certs: seq<Tuple<Tag>>, c: Chain)
    requires AreCerts(certs) && IsChain(|acls|, |certs|, c) && TagsNormal(acls) && TagsNormal(certs)
    requires Eval(TagRules(norm), acls, certs, c).Joined?
    ensures Normal(Eval(TagRules(norm), acls, certs, c).value.tag)
    decreases |c.links|
  {
    if c.links != [] {
      ProvedTagIsNormal(norm, acls, certs, Init(c));
      IntersectIsNormal(Eval(TagRules(norm), acls, certs, Init(c)).value.tag, certs[Last(c)].tag);
    }
  }

  lemma {:induction false} ChainBreaksIff(norm: nat -> nat, acls: seq<Tuple<Tag>>, certs: seq<Tuple<Tag>>, c: Chain)
    requires AreCerts(certs) && IsChain(|acls|, |certs|, c) && TagsNormal(acls) && TagsNormal(certs)
    ensures Eval(TagRules(norm), acls, certs, c) == Broken <==> Breaks(norm, acls, certs, c)
    decreases |c.links|
  {
    if c.links != [] {
      ChainBreaksIff(norm, acls, certs, Init(c));
      var r := Eval(TagRules(norm), acls, certs, Init(c));
      if r.Joined? {
        ProvedTagIsNormal(norm, acls, certs, Init(c));
        IntersectFailsIff(r.value.tag, certs[Last(c)].tag);
      }
    }
  }

  /** Reduction of normal tags ends well exactly when no chain has a link that follows
      on and is insane or clashes. */
  lemma ReductionEndsWellIff(norm: nat -> nat, acls: seq<Tuple<Tag>>, certs: seq<Tuple<Tag>>)
    requires AreCerts(certs) && TagsNormal(acls) && TagsNormal(certs)
    ensures Unbroken(TagRules(norm), acls, certs, |certs|) <==>
            (forall c :: IsChain(|acls|, |certs|, c) ==> !Breaks(norm, acls, certs, c))
  {
    forall c | IsChain(|acls|, |certs|, c)
      ensures Eval(TagRules(norm), acls, certs, c) == Broken <==> Breaks(norm, acls, certs, c)
    {
      ChainBreaksIff(norm, acls, certs, c);
    }
  }

  /** Fitting chains of sane certificates do not break. */
  lemma {:induction false} FittingChainsDoNotBreak(norm: nat -> nat, acls: seq<Tuple<Tag>>, certs: seq<Tuple<Tag>>,
                                                   c: Chain)
    requires AreCerts(certs) && IsChain(|acls|, |certs|, c) && AllSane(acls) && AllSane(certs)
    requires ChainFits(norm, acls, certs, c)
    ensures !Breaks(norm, acls, certs, c)
    decreases |c.links|
  {
    if c.links != [] {
      FittingChainsDoNotBreak(norm, acls, certs, Init(c));
      var r := Eval(TagRules(norm), acls, certs, Init(c));
      if r.Joined? {
        ProvedTupleIsSane(norm, acls, certs, Init(c));
        CompatibleTagsDoNotClash(r.value.tag, certs[Last(c)].tag);
      }
    }
  }
}
