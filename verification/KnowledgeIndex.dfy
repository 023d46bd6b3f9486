/**
 The in-memory knowledge index of knowledge/retrieval.py, as far as releases use it: a map
 from document keys to snapshots, replaced a whole batch at a time.
 */
module KnowledgeIndex {
  import opened Common

  datatype IndexStatus = Draft | Published | Superseded | Withdrawn

  /** An index snapshot of one document; records and metadata are one opaque text. */
  datatype Snapshot = Snapshot(
    snapshotId: string, scope: Scope, corpusId: string, corpusVersion: string, indexVersion: string,
    embeddingVersion: string, documentId: string, content: string, status: IndexStatus)

  datatype Key = Key(scope: Scope, corpusId: string, corpusVersion: string, indexVersion: string, documentId: string)

  type Index = map<Key, Snapshot>

  function KeyOf(s: Snapshot): Key {
    Key(s.scope, s.corpusId, s.corpusVersion, s.indexVersion, s.documentId)
  }

  /** The flat tuple the source uses as dictionary key. */
  function FlatKey(k: Key): seq<KeyPart> {
    ScopeKey(k.scope) + [KeyText(k.corpusId), KeyText(k.corpusVersion), KeyText(k.indexVersion), KeyText(k.documentId)]
  }

  /** Although the number of role codes varies, the flat tuple determines scope and document. */
  lemma FlatKeyInjective(a: Key, b: Key)
    requires FlatKey(a) == FlatKey(b)
    ensures a == b
  {
    var f, g, n := FlatKey(a), FlatKey(b), |a.scope.roles|;
    assert |f| == 8 + n && |g| == 8 + |b.scope.roles|;
    assert f[0] == g[0] && f[1] == g[1] && f[2] == g[2] && f[3] == g[3];
    forall i | 0 <= i < n ensures a.scope.roles[i] == b.scope.roles[i] {
      assert f[4 + i] == KeyText(a.scope.roles[i]) && g[4 + i] == KeyText(b.scope.roles[i]);
    }
    assert a.scope.roles == b.scope.roles;
    assert f[n + 4] == g[n + 4] && f[n + 5] == g[n + 5] && f[n + 6] == g[n + 6] && f[n + 7] == g[n + 7];
  }

  function Keys(batch: seq<Snapshot>): set<Key> {
    set i | 0 <= i < |batch| :: KeyOf(batch[i])
  }

  predicate DistinctKeys(batch: seq<Snapshot>) {
    forall i, j :: 0 <= i < j < |batch| ==> KeyOf(batch[i]) != KeyOf(batch[j])
  }

  function PutAll(index: Index, batch: seq<Snapshot>): Index {
    if batch == [] then index
    else PutAll(index, batch[..|batch| - 1])[KeyOf(batch[|batch| - 1]) := batch[|batch| - 1]]
  }

  /** The last entry of a batch for a key wins, and other keys keep what they had. */
  ghost predicate Overwritten(index: Index, batch: seq<Snapshot>, index': Index) {
    && index'.Keys == index.Keys + Keys(batch)
    && (forall i :: 0 <= i < |batch| ==> KeyOf(batch[i]) in index' && index'[KeyOf(batch[i])] == batch[i])
    && (forall k :: k in index && k !in Keys(batch) ==> k in index' && index'[k] == index[k])
  }

  /** A batch with distinct keys overwrites exactly its own keys. */
  lemma {:induction false} PutAllLookup(index: Index, batch: seq<Snapshot>)
    requires DistinctKeys(batch)
    ensures Overwritten(index, batch, PutAll(index, batch))
  {
    if batch == [] {
      assert Keys(batch) == {};
    } else {
      var init, last := batch[..|batch| - 1], batch[|batch| - 1];
      PutAllLookup(index, init);
      OverwriteOne(index, init, last, PutAll(index, init));
      assert batch == init + [last];
    }
  }

  lemma OverwriteOne(index: Index, init: seq<Snapshot>, last: Snapshot, index': Index)
    requires DistinctKeys(init + [last]) && Overwritten(index, init, index')
    ensures Overwritten(index, init + [last], index'[KeyOf(last) := last])
  {
    hide Keys; hide KeyOf;
    KeysAppend(init, last);
    var batch := init + [last];
    assert batch[|init|] == last;
    forall i | 0 <= i < |init| ensures batch[i] == init[i] && KeyOf(init[i]) != KeyOf(last) {
      assert KeyOf(batch[i]) != KeyOf(batch[|init|]);
    }
  }

  lemma KeysAppend(init: seq<Snapshot>, last: Snapshot)
    ensures Keys(init + [last]) == Keys(init) + {KeyOf(last)}
  {
    var batch := init + [last];
    forall k ensures k in Keys(batch) <==> k in Keys(init) + {KeyOf(last)} {
      if k in Keys(init) {
        var i :| 0 <= i < |init| && KeyOf(init[i]) == k;
        assert batch[i] == init[i];
      }
      if k == KeyOf(last) {
        assert batch[|init|] == last;
      }
      if k in Keys(batch) {
        var i :| 0 <= i < |batch| && KeyOf(batch[i]) == k;
        assert i < |init| ==> batch[i] == init[i];
      }
    }
  }

  /** The size comparison of `replace_many`: as many keys as entries means no key twice. */
  method CheckDistinct(batch: seq<Snapshot>) returns (ok: bool)
    ensures ok <==> DistinctKeys(batch)
  {
    var seen: set<Key> := {};
    var i := 0;
    while i < |batch|
      invariant 0 <= i <= |batch|
      invariant forall k :: k in seen <==> exists j :: 0 <= j < i && KeyOf(batch[j]) == k
      invariant forall j, k :: 0 <= j < k < i ==> KeyOf(batch[j]) != KeyOf(batch[k])
    {
      if KeyOf(batch[i]) in seen {
        return false;
      }
      seen := seen + {KeyOf(batch[i])};
      i := i + 1;
    }
    ok := true;
  }

  class InMemoryKnowledgeIndex {
    var snapshots: Index

    constructor ()
      ensures snapshots == map[]
    {
      snapshots := map[];
    }

    /** Refuses a batch that names a key twice and leaves the index as it was; otherwise
        swaps in the index with every batch entry at its key. */
    method ReplaceMany(batch: seq<Snapshot>) returns (ok: bool)
      modifies this
      ensures ok <==> DistinctKeys(batch)
      ensures snapshots == if ok then PutAll(old(snapshots), batch) else old(snapshots)
    {
      ok := CheckDistinct(batch);
      if !ok {
        return;
      }
      var updated := snapshots;
      var i := 0;
      while i < |batch|
        invariant 0 <= i <= |batch| && snapshots == old(snapshots)
        invariant updated == PutAll(snapshots, batch[..i])
      {
        assert batch[..i + 1][..i] == batch[..i];
        updated := updated[KeyOf(batch[i]) := batch[i]];
        i := i + 1;
      }
      assert batch[..i] == batch;
      snapshots := updated;
    }
  }
}
