/**
 The append-only hash chains shared in form by the approval journal (approval/service.py) and
 the audit journal (observability/audit.py). The digest is any injective function of what is hashed.
 */
module HashChain {
  import opened Common

  type Hash = string

  const ZERO: Hash := "0000000000000000000000000000000000000000000000000000000000000000"

  /** One chain event around the record a caller appended. */
  datatype Link<R> = Link(record: R, sequence: nat, previous: Hash, hash: Hash)

  /** The hash of a record with its place in the chain. */
  type Digest<!R> = (R, nat, Hash) -> Hash

  ghost predicate Injective<R(!new)>(digest: Digest<R>) {
    forall r, n, p, r', n', p' :: digest(r, n, p) == digest(r', n', p') ==> r == r' && n == n' && p == p'
  }

  function Last<R>(chain: seq<Link<R>>): Hash {
    if chain == [] then ZERO else chain[|chain| - 1].hash
  }

  function NextLink<R>(digest: Digest<R>, chain: seq<Link<R>>, record: R): Link<R> {
    Link(record, |chain| + 1, Last(chain), digest(record, |chain| + 1, Last(chain)))
  }

  /** Each event has the next number, continues the hash before it and hashes its own body;
      `intact` is the record's own integrity check. */
  ghost predicate Verifies<R>(digest: Digest<R>, intact: R -> bool, chain: seq<Link<R>>) {
    forall i :: 0 <= i < |chain| ==>
      && chain[i].sequence == i + 1 && chain[i].previous == Last(chain[..i]) && intact(chain[i].record)
      && chain[i].hash == digest(chain[i].record, chain[i].sequence, chain[i].previous)
  }

  /** The verification loop, carrying the previous hash. */
  method Verify<R>(digest: Digest<R>, intact: R -> bool, chain: seq<Link<R>>) returns (ok: bool)
    ensures ok <==> Verifies(digest, intact, chain)
  {
    var previous := ZERO;
    var i := 0;
    while i < |chain|
      invariant 0 <= i <= |chain| && previous == Last(chain[..i])
      invariant forall j :: 0 <= j < i ==>
        && chain[j].sequence == j + 1 && chain[j].previous == Last(chain[..j]) && intact(chain[j].record)
        && chain[j].hash == digest(chain[j].record, chain[j].sequence, chain[j].previous)
    {
      var link := chain[i];
      if link.sequence != i + 1 || link.previous != previous || !intact(link.record)
         || link.hash != digest(link.record, link.sequence, link.previous)
      {
        return false;
      }
      previous := link.hash;
      i := i + 1;
    }
    ok := true;
  }

  /** Appending keeps a chain verified. */
  lemma AppendVerifies<R>(digest: Digest<R>, intact: R -> bool, chain: seq<Link<R>>, record: R)
    requires Verifies(digest, intact, chain) && intact(record)
    ensures Verifies(digest, intact, chain + [NextLink(digest, chain, record)])
  {
    var extended := chain + [NextLink(digest, chain, record)];
    forall i | 0 <= i < |extended|
      ensures extended[i].sequence == i + 1 && extended[i].previous == Last(extended[..i]) && intact(extended[i].record)
      ensures extended[i].hash == digest(extended[i].record, extended[i].sequence, extended[i].previous)
    {
      if i < |chain| {
        assert extended[i] == chain[i];
        assert extended[..i] == chain[..i];
      } else {
        assert extended[..i] == chain;
      }
    }
  }

  lemma PrefixVerifies<R>(digest: Digest<R>, intact: R -> bool, chain: seq<Link<R>>, n: nat)
    requires Verifies(digest, intact, chain) && n <= |chain|
    ensures Verifies(digest, intact, chain[..n])
  {
    var prefix := chain[..n];
    forall i | 0 <= i < n
      ensures prefix[i].sequence == i + 1 && prefix[i].previous == Last(prefix[..i]) && intact(prefix[i].record)
      ensures prefix[i].hash == digest(prefix[i].record, prefix[i].sequence, prefix[i].previous)
    {
      assert prefix[..i] == chain[..i];
    }
  }

  /** The last hash identifies the whole history: two verified non-empty chains that end in the
      same hash are equal event for event. */
  lemma {:induction false} LastHashIdentifies<R(!new)>(
    digest: Digest<R>, intact: R -> bool, a: seq<Link<R>>, b: seq<Link<R>>)
    requires Injective(digest) && Verifies(digest, intact, a) && Verifies(digest, intact, b)
    requires a != [] && b != [] && Last(a) == Last(b)
    ensures a == b
    decreases |a|
  {
    var m, n := |a| - 1, |b| - 1;
    assert a[m].hash == digest(a[m].record, a[m].sequence, a[m].previous);
    assert b[n].hash == digest(b[n].record, b[n].sequence, b[n].previous);
    assert m == n && a[m] == b[n];
    PrefixVerifies(digest, intact, a, m);
    PrefixVerifies(digest, intact, b, n);
    if m > 0 {
      LastHashIdentifies(digest, intact, a[..m], b[..n]);
    }
    assert a == a[..m] + [a[m]] && b == b[..n] + [b[n]];
  }

  // ---------------------------------------------------------------------
  // Journals: many chains and one register of event identifiers
  // ---------------------------------------------------------------------

  datatype Journal<K, R> = Journal(chains: map<K, seq<Link<R>>>, byId: map<Uuid, Link<R>>)

  function ChainAt<K, R>(j: Journal<K, R>, key: K): seq<Link<R>> {
    if key in j.chains then j.chains[key] else []
  }

  /** Appends a record under a new identifier. */
  function Append<K, R>(j: Journal<K, R>, digest: Digest<R>, key: K, id: Uuid, record: R): Journal<K, R> {
    var link := NextLink(digest, ChainAt(j, key), record);
    Journal(j.chains[key := ChainAt(j, key) + [link]], j.byId[id := link])
  }

  ghost predicate ChainsVerify<K(!new), R>(j: Journal<K, R>, digest: Digest<R>, intact: R -> bool) {
    forall key :: key in j.chains ==> Verifies(digest, intact, j.chains[key])
  }

  /** Every event lies in the chain it belongs to and is registered under its identifier. */
  ghost predicate Registered<K(!new), R>(j: Journal<K, R>, place: R -> K, idOf: R -> Uuid) {
    forall key, link :: key in j.chains && link in j.chains[key] ==>
      place(link.record) == key && idOf(link.record) in j.byId && j.byId[idOf(link.record)] == link
  }

  /** The register names nothing but events of the chains. */
  ghost predicate Stored<K, R>(j: Journal<K, R>, place: R -> K, idOf: R -> Uuid) {
    forall id :: id in j.byId ==>
      idOf(j.byId[id].record) == id && j.byId[id] in ChainAt(j, place(j.byId[id].record))
  }

  ghost predicate JournalOk<K(!new), R>(
    j: Journal<K, R>, digest: Digest<R>, intact: R -> bool, place: R -> K, idOf: R -> Uuid)
  {
    ChainsVerify(j, digest, intact) && Registered(j, place, idOf) && Stored(j, place, idOf)
  }

  lemma AppendKeepsChains<K(!new), R>(j: Journal<K, R>, digest: Digest<R>, intact: R -> bool, key: K, id: Uuid,
        record: R)
    requires ChainsVerify(j, digest, intact) && intact(record)
    ensures ChainsVerify(Append(j, digest, key, id, record), digest, intact)
  {
    hide Verifies; hide NextLink;
    EmptyVerifies(digest, intact);
    AppendVerifies(digest, intact, ChainAt(j, key), record);
  }

  lemma AppendRegisters<K(!new), R>(j: Journal<K, R>, digest: Digest<R>, place: R -> K, idOf: R -> Uuid, record: R)
    requires Registered(j, place, idOf) && idOf(record) !in j.byId
    ensures Registered(Append(j, digest, place(record), idOf(record), record), place, idOf)
  {
    hide NextLink;
    LinkRecord(digest, ChainAt(j, place(record)), record);
  }

  lemma AppendStores<K(!new), R>(j: Journal<K, R>, digest: Digest<R>, place: R -> K, idOf: R -> Uuid, record: R)
    requires Stored(j, place, idOf)
    ensures Stored(Append(j, digest, place(record), idOf(record), record), place, idOf)
  {
    hide NextLink;
    LinkRecord(digest, ChainAt(j, place(record)), record);
  }

  /** Appending under a new identifier keeps the whole journal in order. */
  lemma AppendKeepsJournal<K(!new), R>(
    j: Journal<K, R>, digest: Digest<R>, intact: R -> bool, place: R -> K, idOf: R -> Uuid, record: R)
    requires JournalOk(j, digest, intact, place, idOf) && intact(record) && idOf(record) !in j.byId
    ensures JournalOk(Append(j, digest, place(record), idOf(record), record), digest, intact, place, idOf)
  {
    hide Append;
    AppendKeepsChains(j, digest, intact, place(record), idOf(record), record);
    AppendRegisters(j, digest, place, idOf, record);
    AppendStores(j, digest, place, idOf, record);
  }

  lemma LinkRecord<R>(digest: Digest<R>, chain: seq<Link<R>>, record: R)
    ensures NextLink(digest, chain, record).record == record
  {
  }

  lemma EmptyVerifies<R>(digest: Digest<R>, intact: R -> bool)
    ensures Verifies(digest, intact, [])
  {
  }
}
