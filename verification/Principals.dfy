/** The table of principals (spki/certificate.c:88-305). A principal is its place
    in the order of creation, so `next` in the C list is one place down and the
    lists are walked from the highest place. */
module Principals {
  import opened Wrappers

  datatype Algorithm = Md5 | Sha1 | Sha256

  /** `hashes` holds the digests that are known. */
  datatype Record = Record(key: Option<string>, hashes: map<Algorithm, string>, alias: Option<nat>)

  type Hash = (Algorithm, string) -> string

  ghost predicate CollisionFree(hash: Hash) {
    forall a, k, k' :: hash(a, k) == hash(a, k') ==> k == k'
  }

  /** hash_data. */
  function HashData(hash: Hash, key: string): map<Algorithm, string> {
    map[Md5 := hash(Md5, key), Sha1 := hash(Sha1, key), Sha256 := hash(Sha256, key)]
  }

  /** HASH_MATCH: `h` holds exactly one digest, and it is the key's. */
  predicate HashMatch(hash: Hash, h: map<Algorithm, string>, key: string) {
    || (h.Keys == {Md5} && h[Md5] == hash(Md5, key))
    || (h.Keys == {Sha1} && h[Sha1] == hash(Sha1, key))
    || (h.Keys == {Sha256} && h[Sha256] == hash(Sha256, key))
  }

  // ----- Lookups

  predicate FitsKey(hash: Hash, r: Record, key: string) {
    if r.key.Some? then r.key.value == key else HashMatch(hash, r.hashes, key)
  }

  predicate FitsDigest(r: Record, a: Algorithm, digest: string) {
    a in r.hashes && r.hashes[a] == digest
  }

  /** The first record below place `n`, walking down, that fits the key. */
  function FindKey(hash: Hash, t: seq<Record>, n: nat, key: string): (p: Option<nat>)
    requires n <= |t|
    ensures p.Some? ==> p.value < n && FitsKey(hash, t[p.value], key)
    ensures forall i :: (if p.Some? then p.value < i < n else 0 <= i < n) ==> !FitsKey(hash, t[i], key)
  {
    if n == 0 then None
    else if FitsKey(hash, t[n - 1], key) then Some(n - 1)
    else FindKey(hash, t, n - 1, key)
  }

  function FindDigest(t: seq<Record>, n: nat, a: Algorithm, digest: string): (p: Option<nat>)
    requires n <= |t|
    ensures p.Some? ==> p.value < n && FitsDigest(t[p.value], a, digest)
    ensures forall i :: (if p.Some? then p.value < i < n else 0 <= i < n) ==> !FitsDigest(t[i], a, digest)
  {
    if n == 0 then None
    else if FitsDigest(t[n - 1], a, digest) then Some(n - 1)
    else FindDigest(t, n - 1, a, digest)
  }

  predicate NeedsAlias(hash: Hash, r: Record, key: string) {
    r.key.None? && r.alias.None? && HashMatch(hash, r.hashes, key)
  }

  /** spki_principal_fix_aliases for the record at `p` with this key. */
  function FixAliases(hash: Hash, t: seq<Record>, p: nat, key: string): (t': seq<Record>)
    ensures |t'| == |t|
    ensures forall i :: 0 <= i < |t| ==>
              t'[i] == if i < p && NeedsAlias(hash, t[i], key) then t[i].(alias := Some(p)) else t[i]
  {
    seq(|t|, i requires 0 <= i < |t| => if i < p && NeedsAlias(hash, t[i], key) then t[i].(alias := Some(p)) else t[i])
  }

  /** spki_principal_by_key: the new table and the principal. */
  function ByKey(hash: Hash, t: seq<Record>, key: string): (seq<Record>, nat) {
    match FindKey(hash, t, |t|, key)
    case None => (t + [Record(Some(key), HashData(hash, key), None)], |t|)
    case Some(p) =>
      if t[p].key.Some? then (t, p)
      else (FixAliases(hash, t[p := t[p].(key := Some(key), hashes := HashData(hash, key))], p, key), p)
  }

  /** spki_principal_by_md5, by_sha1 and by_sha256. */
  function ByDigest(t: seq<Record>, a: Algorithm, digest: string): (seq<Record>, nat) {
    match FindDigest(t, |t|, a, digest)
    case None => (t + [Record(None, map[a := digest], None)], |t|)
    case Some(p) => (t, p)
  }

  /** spki_principal_normalize, where an alias leads at once to its end. */
  function Normalize(t: seq<Record>, p: nat): nat
    requires p < |t|
  {
    if t[p].alias.Some? then t[p].alias.value else p
  }

  // ----- The table invariant

  predicate Single(h: map<Algorithm, string>) {
    h.Keys == {Md5} || h.Keys == {Sha1} || h.Keys == {Sha256}
  }

  predicate RecordOk(hash: Hash, r: Record) {
    if r.key.Some? then r.hashes == HashData(hash, r.key.value) && r.alias.None? else Single(r.hashes)
  }

  /** An alias leads to a later record that holds the key. */
  predicate AliasOk(hash: Hash, t: seq<Record>, i: nat)
    requires i < |t|
  {
    t[i].alias.Some? ==>
      var p := t[i].alias.value;
      i < p < |t| && t[p].key.Some? && t[i].key.None? && HashMatch(hash, t[i].hashes, t[p].key.value)
  }

  /** Two records `i < j`: they differ, and if one has only a digest of the
      other's key it is the older one and aliased. */
  predicate PairOk(hash: Hash, t: seq<Record>, i: nat, j: nat)
    requires i < j < |t|
  {
    && (t[i].key.Some? && t[j].key.Some? ==> t[i].key != t[j].key)
    && (t[i].key.None? && t[j].key.None? ==> t[i].hashes != t[j].hashes)
    && (t[i].key.None? && t[j].key.Some? && HashMatch(hash, t[i].hashes, t[j].key.value) ==> t[i].alias == Some(j))
    && (t[i].key.Some? && t[j].key.None? ==> !HashMatch(hash, t[j].hashes, t[i].key.value))
  }

  predicate Canonical(hash: Hash, t: seq<Record>) {
    && (forall i :: 0 <= i < |t| ==> RecordOk(hash, t[i]))
    && (forall i :: 0 <= i < |t| ==> AliasOk(hash, t, i))
    && (forall i, j :: 0 <= i < j < |t| ==> PairOk(hash, t, i, j))
  }

  lemma ByDigestKeeps(hash: Hash, t: seq<Record>, a: Algorithm, digest: string)
    requires CollisionFree(hash) && Canonical(hash, t)
    ensures var (t', p) := ByDigest(t, a, digest);
            Canonical(hash, t') && p < |t'| && t'[p].alias.None? && FitsDigest(t'[p], a, digest)
  {
    var (t', p) := ByDigest(t, a, digest);
    if FindDigest(t, |t|, a, digest).None? {
      forall i, j | 0 <= i < j < |t'|
        ensures PairOk(hash, t', i, j)
      {
        if j < |t| {
          assert PairOk(hash, t, i, j);
        } else {
          assert !FitsDigest(t[i], a, digest);
        }
      }
      forall i | 0 <= i < |t'|
        ensures AliasOk(hash, t', i)
      {
        if i < |t| {
          assert AliasOk(hash, t, i);
        }
      }
    } else {
      assert AliasOk(hash, t, p);
    }
  }

  lemma MatchOnce(hash: Hash, h: map<Algorithm, string>, k: string, k': string)
    requires CollisionFree(hash) && HashMatch(hash, h, k) && HashMatch(hash, h, k')
    ensures k == k'
  {
  }

  /** The record that by_key upgrades has no alias, and no record holds the key. */
  lemma UpgradeIsNew(hash: Hash, t: seq<Record>, key: string, p: nat)
    requires CollisionFree(hash) && Canonical(hash, t)
    requires FindKey(hash, t, |t|, key) == Some(p) && t[p].key.None?
    ensures t[p].alias.None?
    ensures forall i :: 0 <= i < |t| ==> t[i].key != Some(key)
    ensures forall i :: 0 <= i < |t| && t[i].key.None? && HashMatch(hash, t[i].hashes, key) ==>
              i <= p && t[i].alias.None?
  {
    forall i | 0 <= i < |t|
      ensures t[i].key != Some(key)
    {
      if i < p {
        assert PairOk(hash, t, i, p);
      }
    }
    forall i | 0 <= i < |t| && t[i].key.None? && HashMatch(hash, t[i].hashes, key)
      ensures i <= p && t[i].alias.None?
    {
      assert AliasOk(hash, t, i);
      if t[i].alias.Some? {
        MatchOnce(hash, t[i].hashes, key, t[t[i].alias.value].key.value);
      }
    }
  }

  lemma UpgradeKeeps(hash: Hash, t: seq<Record>, key: string, p: nat)
    requires CollisionFree(hash) && Canonical(hash, t)
    requires FindKey(hash, t, |t|, key) == Some(p) && t[p].key.None?
    ensures Canonical(hash, ByKey(hash, t, key).0)
  {
    var t' := ByKey(hash, t, key).0;
    UpgradeIsNew(hash, t, key, p);
    forall i | 0 <= i < |t'|
      ensures RecordOk(hash, t'[i]) && AliasOk(hash, t', i)
    {
      assert RecordOk(hash, t[i]) && AliasOk(hash, t, i);
    }
    forall i, j | 0 <= i < j < |t'|
      ensures PairOk(hash, t', i, j)
    {
      assert PairOk(hash, t, i, j);
      assert RecordOk(hash, t[i]) && RecordOk(hash, t[j]);
    }
  }

  lemma ByKeyKeeps(hash: Hash, t: seq<Record>, key: string)
    requires CollisionFree(hash) && Canonical(hash, t)
    ensures var (t', p) := ByKey(hash, t, key);
            Canonical(hash, t') && p < |t'| && t'[p].alias.None? && t'[p].key == Some(key)
  {
    var (t', p) := ByKey(hash, t, key);
    var found := FindKey(hash, t, |t|, key);
    if found.None? {
      forall i, j | 0 <= i < j < |t'|
        ensures PairOk(hash, t', i, j)
      {
        if j < |t| {
          assert PairOk(hash, t, i, j);
        } else {
          assert !FitsKey(hash, t[i], key);
        }
      }
      forall i | 0 <= i < |t'|
        ensures AliasOk(hash, t', i)
      {
        if i < |t| {
          assert AliasOk(hash, t, i);
        }
      }
    } else if t[p].key.Some? {
      assert RecordOk(hash, t[p]);
    } else {
      UpgradeKeeps(hash, t, key, p);
      UpgradeIsNew(hash, t, key, p);
    }
  }

  // ----- Sequences of lookups

  datatype Lookup = Key(key: string) | Digest(a: Algorithm, digest: string)

  function LookUp(hash: Hash, t: seq<Record>, l: Lookup): (seq<Record>, nat) {
    match l
    case Key(k) => ByKey(hash, t, k)
    case Digest(a, d) => ByDigest(t, a, d)
  }

  /** The table after a sequence of lookups, and the principals they returned. */
  function LookUpAll(hash: Hash, ls: seq<Lookup>): (r: (seq<Record>, seq<nat>))
    ensures |r.1| == |ls|
  {
    if ls == [] then ([], [])
    else
      var (t, ps) := LookUpAll(hash, ls[..|ls| - 1]);
      var (t', p) := LookUp(hash, t, ls[|ls| - 1]);
      (t', ps + [p])
  }

  predicate Answers(r: Record, l: Lookup) {
    match l
    case Key(k) => r.key == Some(k)
    case Digest(a, d) => FitsDigest(r, a, d)
  }

  /** What a later lookup keeps of a record. */
  lemma AnswersStay(hash: Hash, t: seq<Record>, l: Lookup, i: nat, was: Lookup)
    requires Canonical(hash, t) && i < |t| && Answers(t[i], was)
    ensures var t' := LookUp(hash, t, l).0;
            |t| <= |t'| && Answers(t'[i], was)
  {
    assert RecordOk(hash, t[i]);
  }

  /** A key is known when some record holds it. */
  predicate Known(t: seq<Record>, key: string) {
    exists i :: 0 <= i < |t| && t[i].key == Some(key)
  }

  lemma KnownStays(hash: Hash, t: seq<Record>, l: Lookup, key: string)
    requires Canonical(hash, t)
    ensures Known(LookUp(hash, t, l).0, key) <==> Known(t, key) || l == Key(key)
  {
    var (t', p) := LookUp(hash, t, l);
    if Known(t, key) {
      var i :| 0 <= i < |t| && t[i].key == Some(key);
      AnswersStay(hash, t, l, i, Key(key));
    }
    if l == Key(key) {
      assert t'[p].key == Some(key);
    }
  }

  /** The table is canonical, each principal that was returned still answers its
      lookup, and the known keys are those asked for. */
  ghost predicate Faithful(hash: Hash, ls: seq<Lookup>, t: seq<Record>, ps: seq<nat>) {
    && Canonical(hash, t)
    && |ps| == |ls|
    && (forall i :: 0 <= i < |ls| ==> ps[i] < |t| && Answers(t[ps[i]], ls[i]))
    && (forall k :: Known(t, k) <==> Key(k) in ls)
  }

  lemma LookUpKeeps(hash: Hash, t: seq<Record>, l: Lookup)
    requires CollisionFree(hash) && Canonical(hash, t)
    ensures var (t', p) := LookUp(hash, t, l);
            Canonical(hash, t') && p < |t'| && t'[p].alias.None? && Answers(t'[p], l)
  {
    match l
    case Key(k) => ByKeyKeeps(hash, t, k);
    case Digest(a, d) => ByDigestKeeps(hash, t, a, d);
  }

  lemma LookUpStaysFaithful(hash: Hash, ls: seq<Lookup>, t: seq<Record>, ps: seq<nat>, l: Lookup)
    requires CollisionFree(hash) && Faithful(hash, ls, t, ps)
    ensures var (t', p) := LookUp(hash, t, l);
            Faithful(hash, ls + [l], t', ps + [p])
  {
    var (t', p) := LookUp(hash, t, l);
    LookUpKeeps(hash, t, l);
    forall i | 0 <= i < |ls + [l]|
      ensures (ps + [p])[i] < |t'| && Answers(t'[(ps + [p])[i]], (ls + [l])[i])
    {
      if i < |ls| {
        AnswersStay(hash, t, l, ps[i], ls[i]);
      }
    }
    forall k
      ensures Known(t', k) <==> Key(k) in ls + [l]
    {
      KnownStays(hash, t, l, k);
    }
  }

  lemma NothingIsFaithful(hash: Hash)
    ensures Faithful(hash, [], [], [])
  {
  }

  lemma {:induction false} LookUpAllIsFaithful(hash: Hash, ls: seq<Lookup>)
    requires CollisionFree(hash)
    ensures Faithful(hash, ls, LookUpAll(hash, ls).0, LookUpAll(hash, ls).1)
  {
    if ls == [] {
      NothingIsFaithful(hash);
    } else {
      var front, l := ls[..|ls| - 1], ls[|ls| - 1];
      LookUpAllIsFaithful(hash, front);
      var (t, ps) := LookUpAll(hash, front);
      LookUpStaysFaithful(hash, front, t, ps, l);
      assert ls == front + [l];
    }
  }

  // ----- Lookups of the same principal

  predicate Names(hash: Hash, l: Lookup, key: string) {
    match l
    case Key(k) => k == key
    case Digest(a, d) => hash(a, key) == d
  }

  /** Two lookups ask for the same principal: they are the same lookup, or name a
      key that has been looked up. */
  ghost predicate Same(hash: Hash, ls: seq<Lookup>, l: Lookup, l': Lookup) {
    l == l' || exists k :: Key(k) in ls && Names(hash, l, k) && Names(hash, l', k)
  }

  /** A record that answers a lookup of a known key normalizes to its holder. */
  lemma NormalizesToHolder(hash: Hash, t: seq<Record>, p: nat, l: Lookup, h: nat)
    requires CollisionFree(hash) && Canonical(hash, t) && p < |t| && h < |t|
    requires Answers(t[p], l) && t[h].key.Some? && Names(hash, l, t[h].key.value)
    ensures Normalize(t, p) == h
  {
    assert RecordOk(hash, t[p]) && RecordOk(hash, t[h]);
    assert p < h ==> PairOk(hash, t, p, h);
    assert h < p ==> PairOk(hash, t, h, p);
  }

  /** A record that normalizes to a key's holder answers only lookups of that key. */
  lemma HolderIsNamed(hash: Hash, t: seq<Record>, p: nat, l: Lookup)
    requires Canonical(hash, t) && p < |t| && Answers(t[p], l)
    ensures Normalize(t, p) < |t|
    ensures t[Normalize(t, p)].key.Some? ==> Names(hash, l, t[Normalize(t, p)].key.value)
    ensures t[Normalize(t, p)].key.None? ==> Normalize(t, p) == p && l.Digest? && t[p].hashes == map[l.a := l.digest]
  {
    assert RecordOk(hash, t[p]) && AliasOk(hash, t, p);
    if t[Normalize(t, p)].key.None? {
      assert t[p].hashes.Keys == {l.a};
    }
  }

  lemma EqualLookupsMeet(hash: Hash, t: seq<Record>, p: nat, q: nat, l: Lookup)
    requires CollisionFree(hash) && Canonical(hash, t) && p < |t| && q < |t|
    requires Answers(t[p], l) && Answers(t[q], l)
    ensures Normalize(t, p) == Normalize(t, q)
  {
    assert p < q ==> PairOk(hash, t, p, q);
    assert q < p ==> PairOk(hash, t, q, p);
    HolderIsNamed(hash, t, p, l);
    HolderIsNamed(hash, t, q, l);
    if t[Normalize(t, p)].key.Some? {
      NormalizesToHolder(hash, t, q, l, Normalize(t, p));
    } else if t[Normalize(t, q)].key.Some? {
      NormalizesToHolder(hash, t, p, l, Normalize(t, q));
    }
  }

  /** Comparing normalized principals decides whether two lookups, in any sequence
      of lookups, asked for the same principal. */
  lemma NormalizedPrincipalsAreCanonical(hash: Hash, ls: seq<Lookup>, i: nat, j: nat)
    requires CollisionFree(hash) && i < |ls| && j < |ls|
    ensures var (t, ps) := LookUpAll(hash, ls);
            && ps[i] < |t| && ps[j] < |t|
            && (Normalize(t, ps[i]) == Normalize(t, ps[j]) <==> Same(hash, ls, ls[i], ls[j]))
  {
    LookUpAllIsFaithful(hash, ls);
    var (t, ps) := LookUpAll(hash, ls);
    HolderIsNamed(hash, t, ps[i], ls[i]);
    HolderIsNamed(hash, t, ps[j], ls[j]);
    if Normalize(t, ps[i]) == Normalize(t, ps[j]) {
      var r := t[Normalize(t, ps[i])];
      if r.key.Some? {
        assert Known(t, r.key.value);
      } else {
        assert map[ls[i].a := ls[i].digest].Keys == {ls[i].a} && map[ls[j].a := ls[j].digest].Keys == {ls[j].a};
        assert ls[i].a in {ls[j].a};
      }
    }
    if ls[i] == ls[j] {
      EqualLookupsMeet(hash, t, ps[i], ps[j], ls[i]);
    } else if k :| Key(k) in ls && Names(hash, ls[i], k) && Names(hash, ls[j], k) {
      assert Known(t, k);
      var h :| 0 <= h < |t| && t[h].key == Some(k);
      NormalizesToHolder(hash, t, ps[i], ls[i], h);
      NormalizesToHolder(hash, t, ps[j], ls[j], h);
    }
  }

  // ----- The table, updated in place

  class Database {
    const hash: Hash
    var principals: seq<Record>

    constructor (hash: Hash)
      ensures this.hash == hash && principals == [] && Canonical(hash, principals)
    {
      this.hash := hash;
      principals := [];
    }

    method FixPrincipalAliases(p: nat, key: string)
      requires p < |principals|
      modifies this
      ensures principals == FixAliases(hash, old(principals), p, key)
    {
      ghost var before := principals;
      var s: nat := p;
      while s > 0
        invariant s <= p < |principals| == |before|
        invariant forall i :: 0 <= i < |before| && (i < s || p <= i) ==> principals[i] == before[i]
        invariant forall i :: s <= i < p ==> principals[i] == FixAliases(hash, before, p, key)[i]
      {
        s := s - 1;
        var r := principals[s];
        if r.key.None? && r.alias.None? && HashMatch(hash, r.hashes, key) {
          principals := principals[s := r.(alias := Some(p))];
        }
      }
    }

    method PrincipalByKey(key: string) returns (p: nat)
      modifies this
      ensures (principals, p) == ByKey(hash, old(principals), key)
    {
      var s: nat := |principals|;
      while s > 0
        invariant s <= |principals| && principals == old(principals)
        invariant FindKey(hash, principals, |principals|, key) == FindKey(hash, principals, s, key)
      {
        s := s - 1;
        var r := principals[s];
        if r.key.Some? {
          if r.key.value == key {
            return s;
          }
        } else if HashMatch(hash, r.hashes, key) {
          principals := principals[s := r.(key := Some(key), hashes := HashData(hash, key))];
          FixPrincipalAliases(s, key);
          return s;
        }
      }
      p := |principals|;
      principals := principals + [Record(Some(key), HashData(hash, key), None)];
    }

    method PrincipalByDigest(a: Algorithm, digest: string) returns (p: nat)
      modifies this
      ensures (principals, p) == ByDigest(old(principals), a, digest)
    {
      var s: nat := |principals|;
      while s > 0
        invariant s <= |principals| && principals == old(principals)
        invariant FindDigest(principals, |principals|, a, digest) == FindDigest(principals, s, a, digest)
      {
        s := s - 1;
        if a in principals[s].hashes && principals[s].hashes[a] == digest {
          return s;
        }
      }
      p := |principals|;
      principals := principals + [Record(None, map[a := digest], None)];
    }

    /** Follows alias pointers to the end; in a canonical table the walk ends, and
        takes at most one step. */
    method NormalizePrincipal(principal: nat) returns (p: nat)
      requires Canonical(hash, principals) && principal < |principals|
      ensures p == Normalize(principals, principal) && p < |principals| && principals[p].alias.None?
    {
      p := principal;
      assert AliasOk(hash, principals, principal);
      while principals[p].alias.Some?
        invariant p < |principals|
        invariant p == principal || (p == Normalize(principals, principal) && principals[p].key.Some?)
        decreases |principals| - p
      {
        assert RecordOk(hash, principals[p]);
        p := principals[p].alias.value;
      }
    }
  }
}
