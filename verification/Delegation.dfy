/** Who delegates to whom: reduction (spki/reduce.c) over the table of principals
    (spki/certificate.c), both normalizing principals before they are compared. */
module Delegation {
  import opened Tags
  import opened Reduction
  import opened Authorization
  import Principals

  /** spki_principal_normalize on a table. */
  function Normalizer(t: seq<Principals.Record>): nat -> nat {
    (p: nat) => if p < |t| then Principals.Normalize(t, p) else p
  }

  /** The lookups, by their place in a sequence of lookups, that gave a tuple its
      subject and its issuer. */
  datatype Asked = Asked(subject: nat, issuer: nat)

  predicate LookedUp(t: Tuple<Tag>, a: Asked, ps: seq<nat>) {
    && a.subject < |ps| && t.subject == ps[a.subject]
    && (t.issuer.Some? ==> a.issuer < |ps| && t.issuer.value == ps[a.issuer])
  }

  predicate AllLookedUp(ts: seq<Tuple<Tag>>, asked: seq<Asked>, ps: seq<nat>) {
    |asked| == |ts| && forall i :: 0 <= i < |ts| ==> LookedUp(ts[i], asked[i], ps)
  }

  /** A link matches exactly when subject and issuer were looked up as the same principal. */
  lemma LinkMatchesIff(hash: Principals.Hash, ls: seq<Principals.Lookup>, giver: Tuple<Tag>, a: Asked,
                       cert: Tuple<Tag>, b: Asked)
    requires Principals.CollisionFree(hash) && cert.issuer.Some?
    requires LookedUp(giver, a, Principals.LookUpAll(hash, ls).1) && LookedUp(cert, b, Principals.LookUpAll(hash, ls).1)
    ensures DelegatesTo(Normalizer(Principals.LookUpAll(hash, ls).0), giver, cert) <==>
            Principals.Same(hash, ls, ls[a.subject], ls[b.issuer]) && giver.propagate
  {
    Principals.NormalizedPrincipalsAreCanonical(hash, ls, a.subject, b.issuer);
  }

  /** The lookups behind the tuple before link `i` of a chain. */
  function GiverAsked(aclsAsked: seq<Asked>, certsAsked: seq<Asked>, c: Chain, i: nat): Asked
    requires IsChain(|aclsAsked|, |certsAsked|, c) && i <= |c.links|
  {
    if i == 0 then aclsAsked[c.acl] else certsAsked[c.links[i - 1]]
  }

  /** The subject before link `i` may propagate, and is the principal that issued the link. */
  ghost predicate HandsOn(hash: Principals.Hash, ls: seq<Principals.Lookup>, acls: seq<Tuple<Tag>>,
                          certs: seq<Tuple<Tag>>, aclsAsked: seq<Asked>, certsAsked: seq<Asked>, c: Chain, i: nat)
    requires IsChain(|acls|, |certs|, c) && |aclsAsked| == |acls| && |certsAsked| == |certs| && i < |c.links|
  {
    var subject, issuer := GiverAsked(aclsAsked, certsAsked, c, i).subject, certsAsked[c.links[i]].issuer;
    && Giver(acls, certs, c, i).propagate
    && subject < |ls| && issuer < |ls| && Principals.Same(hash, ls, ls[subject], ls[issuer])
  }

  lemma LinkHandsOnIff(hash: Principals.Hash, ls: seq<Principals.Lookup>, acls: seq<Tuple<Tag>>,
                       certs: seq<Tuple<Tag>>, aclsAsked: seq<Asked>, certsAsked: seq<Asked>, c: Chain, i: nat)
    requires Principals.CollisionFree(hash) && AreCerts(certs) && IsChain(|acls|, |certs|, c) && i < |c.links|
    requires AllLookedUp(acls, aclsAsked, Principals.LookUpAll(hash, ls).1)
    requires AllLookedUp(certs, certsAsked, Principals.LookUpAll(hash, ls).1)
    ensures LinkDelegates(Normalizer(Principals.LookUpAll(hash, ls).0), acls, certs, c, i) <==>
            HandsOn(hash, ls, acls, certs, aclsAsked, certsAsked, c, i)
  {
    LinkMatchesIff(hash, ls, Giver(acls, certs, c, i), GiverAsked(aclsAsked, certsAsked, c, i),
                   certs[c.links[i]], certsAsked[c.links[i]]);
  }

  /** In any table that lookups can build, a chain delegates exactly when each of its
      certificates was issued by the principal, under whatever name, that the one
      before may propagate to. */
  lemma ChainDelegatesIff(hash: Principals.Hash, ls: seq<Principals.Lookup>, acls: seq<Tuple<Tag>>,
                          certs: seq<Tuple<Tag>>, aclsAsked: seq<Asked>, certsAsked: seq<Asked>, c: Chain)
    requires Principals.CollisionFree(hash) && AreCerts(certs) && IsChain(|acls|, |certs|, c)
    requires AllLookedUp(acls, aclsAsked, Principals.LookUpAll(hash, ls).1)
    requires AllLookedUp(certs, certsAsked, Principals.LookUpAll(hash, ls).1)
    ensures ChainDelegates(Normalizer(Principals.LookUpAll(hash, ls).0), acls, certs, c) <==>
            (forall i :: 0 <= i < |c.links| ==> HandsOn(hash, ls, acls, certs, aclsAsked, certsAsked, c, i))
  {
    var norm := Normalizer(Principals.LookUpAll(hash, ls).0);
    forall i | 0 <= i < |c.links|
      ensures LinkDelegates(norm, acls, certs, c, i) <==>
              HandsOn(hash, ls, acls, certs, aclsAsked, certsAsked, c, i)
    {
      LinkHandsOnIff(hash, ls, acls, certs, aclsAsked, certsAsked, c, i);
    }
    ChainDelegatesByLinks(norm, acls, certs, c);
  }
}
