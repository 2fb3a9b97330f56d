/** Incremental backups: change tracking, backup chains, and restoring from a chain. */
module Backup {
  import opened Prelude

  type KeyId = string

  datatype KeyEntry = KeyEntry(id: KeyId, data: Bytes, modifiedAt: int)

  datatype BackupType = Full | Incremental

  datatype Metadata = Metadata(
    backupType: BackupType, id: string, parentId: Option<string>, timestamp: int, keyIds: seq<KeyId>, keyCount: nat)

  datatype IncrementalBackup = IncrementalBackup(metadata: Metadata, keys: seq<KeyEntry>)

  datatype BackupError = EmptyData | NoFullBackup | NonIncrementalInChain | BrokenChain

  type Store = map<KeyId, KeyEntry>

  function IdsOf(keys: seq<KeyEntry>): (ids: seq<KeyId>)
    ensures |ids| == |keys| && forall i :: 0 <= i < |ids| ==> ids[i] == keys[i].id
  {
    seq(|keys|, i requires 0 <= i < |keys| => keys[i].id)
  }

  /** A backup made by adding `keys` one by one. */
  function MakeBackup(kind: BackupType, id: string, parent: Option<string>, timestamp: int, keys: seq<KeyEntry>)
    : (b: IncrementalBackup)
  {
    IncrementalBackup(Metadata(kind, id, parent, timestamp, IdsOf(keys), |keys|), keys)
  }

  /** Entries inserted in order, later ones replacing earlier ones. */
  function Overlay(store: Store, keys: seq<KeyEntry>): (r: Store) {
    if keys == [] then store
    else
      var n := |keys| - 1;
      Overlay(store, keys[..n])[keys[n].id := keys[n]]
  }

  function RestoreAll(backups: seq<IncrementalBackup>): (r: Store) {
    if backups == [] then map[]
    else Overlay(RestoreAll(backups[..|backups| - 1]), backups[|backups| - 1].keys)
  }

  /** A full backup followed by incrementals, each naming the one before it as parent. */
  predicate ProperLink(backups: seq<IncrementalBackup>, i: nat)
    requires 0 < i < |backups|
  {
    backups[i].metadata.backupType == Incremental && backups[i].metadata.parentId == Some(backups[i - 1].metadata.id)
  }

  ghost predicate ProperChain(backups: seq<IncrementalBackup>) {
    && backups != [] && backups[0].metadata.backupType == Full
    && forall i :: 0 < i < |backups| ==> ProperLink(backups, i)
  }

  class IncrementalBackupManager {
    var lastBackupTimestamp: Option<int>
    var changedKeys: set<KeyId>

    constructor ()
      ensures lastBackupTimestamp == None && changedKeys == {}
    {
      lastBackupTimestamp, changedKeys := None, {};
    }

    method MarkChanged(id: KeyId)
      modifies this`changedKeys
      ensures changedKeys == old(changedKeys) + {id}
    {
      changedKeys := changedKeys + {id};
    }

    /** `create_full_backup` and `create_incremental_backup`; a parent makes it incremental. */
    method CreateBackup(id: string, parent: Option<string>, now: int, keys: seq<KeyEntry>) returns (b: IncrementalBackup)
      modifies this
      ensures b == MakeBackup(if parent.Some? then Incremental else Full, id, parent, now, keys)
      ensures changedKeys == {} && lastBackupTimestamp == Some(now)
    {
      b := IncrementalBackup(Metadata(if parent.Some? then Incremental else Full, id, parent, now, [], 0), []);
      for i := 0 to |keys|
        invariant b == MakeBackup(if parent.Some? then Incremental else Full, id, parent, now, keys[..i])
      {
        var m := b.metadata.(keyIds := b.metadata.keyIds + [keys[i].id]);
        var added := b.keys + [keys[i]];
        assert added == keys[..i + 1] && m.keyIds == IdsOf(keys[..i + 1]);
        b := IncrementalBackup(m.(keyCount := |added|), added);
      }
      assert keys[..|keys|] == keys;
      lastBackupTimestamp := Some(now);
      changedKeys := {};
    }

    method RestoreFromChain(backups: seq<IncrementalBackup>) returns (r: Result<Store, BackupError>)
      ensures backups == [] ==> r == Err(EmptyData)
      ensures backups != [] && backups[0].metadata.backupType != Full ==> r == Err(NoFullBackup)
      ensures backups != [] && backups[0].metadata.backupType == Full ==> r == Ok(RestoreAll(backups))
    {
      if backups == [] {
        return Err(EmptyData);
      }
      if backups[0].metadata.backupType != Full {
        return Err(NoFullBackup);
      }
      var restored: Store := map[];
      for i := 0 to |backups|
        invariant restored == RestoreAll(backups[..i])
      {
        assert backups[..i + 1][..i] == backups[..i];
        restored := InsertKeys(restored, backups[i].keys);
      }
      assert backups[..|backups|] == backups;
      return Ok(restored);
    }

    method InsertKeys(store: Store, keys: seq<KeyEntry>) returns (r: Store)
      ensures r == Overlay(store, keys)
    {
      r := store;
      for i := 0 to |keys|
        invariant r == Overlay(store, keys[..i])
      {
        assert keys[..i + 1][..i] == keys[..i];
        r := r[keys[i].id := keys[i]];
      }
      assert keys[..|keys|] == keys;
    }

    method ValidateChain(backups: seq<IncrementalBackup>) returns (r: Result<(), BackupError>)
      ensures r.Ok? <==> ProperChain(backups)
      ensures backups == [] ==> r == Err(EmptyData)
      ensures backups != [] && backups[0].metadata.backupType != Full ==> r == Err(NoFullBackup)
      ensures backups != [] && backups[0].metadata.backupType == Full && r.Err? ==>
        exists i :: 0 < i < |backups| && !ProperLink(backups, i) && (forall j :: 0 < j < i ==> ProperLink(backups, j))
                    && r.error == if backups[i].metadata.backupType != Incremental then NonIncrementalInChain else BrokenChain
    {
      if backups == [] {
        return Err(EmptyData);
      }
      if backups[0].metadata.backupType != Full {
        return Err(NoFullBackup);
      }
      for i := 1 to |backups|
        invariant forall j :: 0 < j < i ==> ProperLink(backups, j)
      {
        if backups[i].metadata.backupType != Incremental {
          assert !ProperLink(backups, i);
          return Err(NonIncrementalInChain);
        }
        if backups[i].metadata.parentId != Some(backups[i - 1].metadata.id) {
          assert !ProperLink(backups, i);
          return Err(BrokenChain);
        }
      }
      return Ok(());
    }
  }

  // ---------- histories ----------

  /** `keys` lists exactly the entries of `store`, in any order, repeats allowed. */
  ghost predicate Lists(keys: seq<KeyEntry>, store: Store) {
    && (forall i :: 0 <= i < |keys| ==> keys[i].id in store && store[keys[i].id] == keys[i])
    && (forall k :: k in store ==> store[k] in keys)
  }

  ghost predicate Keyed(store: Store) {
    forall k :: k in store ==> store[k].id == k
  }

  function Restrict(store: Store, ids: set<KeyId>): (r: Store) {
    map k | k in store && k in ids :: store[k]
  }

  /** The live store, the tracked changes, the backups since the last full one, and the store as it
      was at the last backup. */
  datatype World = World(live: Store, changed: set<KeyId>, chain: seq<IncrementalBackup>, saved: Store)

  datatype Op =
    | Upsert(entry: KeyEntry)
    | Delete(id: KeyId)
    | FullBackup(backupId: string, now: int, keys: seq<KeyEntry>)
    | NextBackup(backupId: string, now: int, keys: seq<KeyEntry>)

  /** A backup is handed all entries, or all current entries of the changed keys. */
  ghost predicate Proper(w: World, op: Op) {
    match op
    case Upsert(e) => true
    case Delete(_) => true
    case FullBackup(_, _, keys) => Lists(keys, w.live)
    case NextBackup(_, _, keys) => w.chain != [] && Lists(keys, Restrict(w.live, w.changed))
  }

  function Step(w: World, op: Op): (w': World) {
    match op
    case Upsert(e) => w.(live := w.live[e.id := e], changed := w.changed + {e.id})
    case Delete(id) => w.(live := w.live - {id}, changed := w.changed + {id})
    case FullBackup(id, now, keys) => World(w.live, {}, [MakeBackup(Full, id, None, now, keys)], w.live)
    case NextBackup(id, now, keys) =>
      if w.chain == [] then w
      else
        var parent := w.chain[|w.chain| - 1].metadata.id;
        World(w.live, {}, w.chain + [MakeBackup(Incremental, id, Some(parent), now, keys)], w.live)
  }

  const START := World(map[], {}, [], map[])

  /** The world after the first `n` operations. */
  function After(ops: seq<Op>, n: nat): (w: World)
    requires n <= |ops|
  {
    if n == 0 then START else Step(After(ops, n - 1), ops[n - 1])
  }

  ghost predicate ProperAt(ops: seq<Op>, i: nat)
    requires i < |ops|
  {
    Proper(After(ops, i), ops[i])
  }

  ghost predicate ProperRun(ops: seq<Op>) {
    forall i :: 0 <= i < |ops| ==> ProperAt(ops, i)
  }

  ghost predicate AgreeOn(a: Store, b: Store, k: KeyId) {
    (k in a <==> k in b) && (k in a ==> a[k] == b[k])
  }

  /** The metadata of every backup lists the ids of its entries. */
  ghost predicate WellRecorded(chain: seq<IncrementalBackup>) {
    forall i :: 0 <= i < |chain| ==> chain[i].metadata.keyIds == IdsOf(chain[i].keys)
  }

  /** Some backup of the chain lists `k` in its metadata. */
  ghost predicate Recorded(chain: seq<IncrementalBackup>, k: KeyId) {
    exists i :: 0 <= i < |chain| && k in chain[i].metadata.keyIds
  }

  /** The chain is proper and restores every saved key; keys not marked have not changed. */
  ghost predicate Inv(w: World) {
    && Keyed(w.live)
    && WellRecorded(w.chain)
    && (w.chain != [] ==> ProperChain(w.chain))
    && (forall k :: k in w.saved ==> AgreeOn(RestoreAll(w.chain), w.saved, k))
    && (forall k :: k !in w.changed ==> AgreeOn(w.live, w.saved, k))
  }

  lemma {:induction false} OverlayOfList(base: Store, keys: seq<KeyEntry>, store: Store, n: nat, k: KeyId)
    requires n <= |keys| && forall i :: 0 <= i < |keys| ==> keys[i].id in store && store[keys[i].id] == keys[i]
    ensures var r := Overlay(base, keys[..n]);
            if exists i :: 0 <= i < n && keys[i].id == k then k in store && k in r && r[k] == store[k] else AgreeOn(r, base, k)
  {
    if n > 0 {
      OverlayOfList(base, keys, store, n - 1, k);
      assert keys[..n][..n - 1] == keys[..n - 1];
      if keys[n - 1].id != k && exists i :: 0 <= i < n && keys[i].id == k {
        var i :| 0 <= i < n && keys[i].id == k;
        assert 0 <= i < n - 1;
      }
    }
  }

  /** Restoring a listed store over a base gives the listed entries and keeps the rest. */
  lemma OverlayLists(base: Store, keys: seq<KeyEntry>, store: Store, k: KeyId)
    requires Lists(keys, store) && Keyed(store)
    ensures AgreeOn(Overlay(base, keys), if k in store then store else base, k)
  {
    OverlayOfList(base, keys, store, |keys|, k);
    assert keys[..|keys|] == keys;
    if k in store {
      var i :| 0 <= i < |keys| && keys[i] == store[k];
      assert store[keys[i].id] == keys[i];
    }
  }

  lemma RestoreExtended(chain: seq<IncrementalBackup>, b: IncrementalBackup)
    ensures RestoreAll(chain + [b]) == Overlay(RestoreAll(chain), b.keys)
  {
    assert (chain + [b])[..|chain|] == chain;
  }

  lemma ProperExtended(chain: seq<IncrementalBackup>, b: IncrementalBackup)
    requires chain != [] && ProperChain(chain)
    requires b.metadata.backupType == Incremental && b.metadata.parentId == Some(chain[|chain| - 1].metadata.id)
    ensures ProperChain(chain + [b])
  {
    forall i | 0 < i < |chain| + 1
      ensures ProperLink(chain + [b], i)
    {
      assert i < |chain| ==> ProperLink(chain, i);
    }
  }

  lemma FullBackupKeepsInv(w: World, id: string, now: int, keys: seq<KeyEntry>)
    requires Inv(w) && Lists(keys, w.live)
    ensures Inv(Step(w, FullBackup(id, now, keys)))
  {
    var b := MakeBackup(Full, id, None, now, keys);
    RestoreExtended([], b);
    assert [] + [b] == [b];
    forall k | k in w.live
      ensures AgreeOn(RestoreAll([b]), w.live, k)
    {
      OverlayLists(map[], keys, w.live, k);
    }
  }

  lemma NextBackupKeepsInv(w: World, id: string, now: int, keys: seq<KeyEntry>)
    requires Inv(w) && w.chain != [] && Lists(keys, Restrict(w.live, w.changed))
    ensures Inv(Step(w, NextBackup(id, now, keys)))
  {
    var b := MakeBackup(Incremental, id, Some(w.chain[|w.chain| - 1].metadata.id), now, keys);
    RestoreExtended(w.chain, b);
    ProperExtended(w.chain, b);
    forall k | k in w.live
      ensures AgreeOn(RestoreAll(w.chain + [b]), w.live, k)
    {
      OverlayLists(RestoreAll(w.chain), keys, Restrict(w.live, w.changed), k);
      assert k !in w.changed ==> AgreeOn(w.live, w.saved, k);
      assert k !in w.changed ==> AgreeOn(RestoreAll(w.chain), w.saved, k);
    }
  }

  lemma StepKeepsInv(w: World, op: Op)
    requires Inv(w) && Proper(w, op)
    ensures Inv(Step(w, op))
  {
    match op
    case Upsert(_) =>
    case Delete(_) =>
    case FullBackup(id, now, keys) => FullBackupKeepsInv(w, id, now, keys);
    case NextBackup(id, now, keys) => NextBackupKeepsInv(w, id, now, keys);
  }

  lemma {:induction false} RunKeepsInv(ops: seq<Op>, n: nat)
    requires ProperRun(ops) && n <= |ops|
    ensures Inv(After(ops, n))
  {
    if n > 0 {
      RunKeepsInv(ops, n - 1);
      assert ProperAt(ops, n - 1);
      StepKeepsInv(After(ops, n - 1), ops[n - 1]);
    }
  }

  lemma {:induction false} OverlayKeys(store: Store, keys: seq<KeyEntry>, k: KeyId)
    ensures k in Overlay(store, keys) <==> k in store || k in IdsOf(keys)
  {
    if keys != [] {
      var n := |keys| - 1;
      OverlayKeys(store, keys[..n], k);
      assert IdsOf(keys) == IdsOf(keys[..n]) + [keys[n].id];
    }
  }

  lemma RecordedExtended(chain: seq<IncrementalBackup>, b: IncrementalBackup, k: KeyId)
    ensures Recorded(chain + [b], k) <==> Recorded(chain, k) || k in b.metadata.keyIds
  {
    var longer := chain + [b];
    if Recorded(chain, k) {
      var i :| 0 <= i < |chain| && k in chain[i].metadata.keyIds;
      assert k in longer[i].metadata.keyIds;
    }
    assert longer[|chain|] == b;
  }

  /** The keys a chain restores are those its metadata lists. */
  lemma {:induction false} RestoredIffRecorded(chain: seq<IncrementalBackup>, k: KeyId)
    requires WellRecorded(chain)
    ensures k in RestoreAll(chain) <==> Recorded(chain, k)
  {
    if chain != [] {
      var n := |chain| - 1;
      RestoredIffRecorded(chain[..n], k);
      RecordedExtended(chain[..n], chain[n], k);
      assert chain == chain[..n] + [chain[n]];
      OverlayKeys(RestoreAll(chain[..n]), chain[n].keys, k);
    }
  }

  // ---------- restoring, read from the history ----------

  predicate IsBackup(op: Op) {
    op.FullBackup? || op.NextBackup?
  }

  /** The last backup among the first `n` operations. */
  function LastBackup(ops: seq<Op>, n: nat): (b: Option<nat>)
    requires n <= |ops|
    ensures b.Some? ==> b.value < n
  {
    if n == 0 then None else if IsBackup(ops[n - 1]) then Some(n - 1) else LastBackup(ops, n - 1)
  }

  /** Operation `i` is a backup that lists `k`, and no full backup follows it among the first `n`. */
  ghost predicate ListsKey(ops: seq<Op>, n: nat, i: nat, k: KeyId)
    requires n <= |ops|
  {
    && i < n && IsBackup(ops[i]) && k in IdsOf(ops[i].keys)
    && forall j :: i < j < n ==> !ops[j].FullBackup?
  }

  /** Key `k`, listed by backup `i` of the current chain, is deleted at `d` and not written again
      before the last backup at `b`. */
  ghost predicate LostDeletion(ops: seq<Op>, b: nat, i: nat, d: nat, k: KeyId) {
    && i < d < b < |ops| && ListsKey(ops, |ops|, i, k) && ops[d] == Delete(k)
    && forall u :: d < u < b && ops[u].Upsert? ==> ops[u].entry.id != k
  }

  ghost predicate NoLostDeletion(ops: seq<Op>, b: nat) {
    forall i: nat, d: nat, k :: !LostDeletion(ops, b, i, d, k)
  }

  lemma NextHasChain(ops: seq<Op>, m: nat)
    requires ProperRun(ops) && m < |ops| && ops[m].NextBackup?
    ensures After(ops, m).chain != []
  {
    assert ProperAt(ops, m);
  }

  lemma SavedStep(w: World, op: Op)
    requires op.NextBackup? ==> w.chain != []
    ensures var w' := Step(w, op);
            if IsBackup(op) then w'.chain != [] && w'.saved == w.live else w'.chain == w.chain && w'.saved == w.saved
  {
  }

  /** The saved store is the live store at the last backup. */
  lemma {:induction false} SavedAtLastBackup(ops: seq<Op>, n: nat)
    requires ProperRun(ops) && n <= |ops|
    ensures match LastBackup(ops, n)
            case None => After(ops, n).chain == []
            case Some(b) => After(ops, n).chain != [] && After(ops, n).saved == After(ops, b).live
  {
    if n > 0 {
      SavedAtLastBackup(ops, n - 1);
      if ops[n - 1].NextBackup? {
        NextHasChain(ops, n - 1);
      }
      SavedStep(After(ops, n - 1), ops[n - 1]);
    }
  }

  ghost predicate Listed(ops: seq<Op>, n: nat, k: KeyId)
    requires n <= |ops|
  {
    exists i: nat :: ListsKey(ops, n, i, k)
  }

  /** What the metadata of the chain lists, read from the history. */
  lemma {:induction false} RecordedInHistory(ops: seq<Op>, n: nat, k: KeyId)
    requires ProperRun(ops) && n <= |ops|
    ensures Recorded(After(ops, n).chain, k) <==> Listed(ops, n, k)
  {
    if n > 0 {
      RecordedInHistory(ops, n - 1, k);
      if ops[n - 1].NextBackup? {
        NextHasChain(ops, n - 1);
      }
      RecordedStep(After(ops, n - 1), ops[n - 1], k);
      ListedStep(ops, n - 1, k);
    }
  }

  lemma RecordedStep(w: World, op: Op, k: KeyId)
    requires op.NextBackup? ==> w.chain != []
    ensures Recorded(Step(w, op).chain, k) <==>
      (IsBackup(op) && k in IdsOf(op.keys)) || (!op.FullBackup? && Recorded(w.chain, k))
  {
    var w' := Step(w, op);
    match op
    case Upsert(_) =>
    case Delete(_) =>
    case FullBackup(id, now, keys) =>
      assert w'.chain == [] + [w'.chain[0]];
      RecordedExtended([], w'.chain[0], k);
    case NextBackup(id, now, keys) =>
      RecordedExtended(w.chain, w'.chain[|w.chain|], k);
  }

  lemma ListedStep(ops: seq<Op>, m: nat, k: KeyId)
    requires m < |ops|
    ensures Listed(ops, m + 1, k) <==>
      (IsBackup(ops[m]) && k in IdsOf(ops[m].keys)) || (!ops[m].FullBackup? && Listed(ops, m, k))
  {
    var n := m + 1;
    if IsBackup(ops[m]) && k in IdsOf(ops[m].keys) {
      assert ListsKey(ops, n, m, k);
    } else if !ops[m].FullBackup? && Listed(ops, m, k) {
      var i: nat :| ListsKey(ops, m, i, k);
      assert ListsKey(ops, n, i, k);
    }
    if Listed(ops, n, k) {
      var i: nat :| ListsKey(ops, n, i, k);
      assert i < m ==> ListsKey(ops, m, i, k);
    }
  }

  /** A listed key is live when it is listed. */
  lemma ListedIsLive(ops: seq<Op>, n: nat, i: nat, k: KeyId)
    requires ProperRun(ops) && n <= |ops| && ListsKey(ops, n, i, k)
    ensures k in After(ops, i).live
  {
    assert ProperAt(ops, i);
    var j :| 0 <= j < |ops[i].keys| && ops[i].keys[j].id == k;
  }

  /** `k` is deleted at `d` and not written again before `j`. */
  ghost predicate GoneSince(ops: seq<Op>, d: nat, j: nat, k: KeyId)
    requires j <= |ops|
  {
    d < j && ops[d] == Delete(k) && forall u :: d < u < j && ops[u].Upsert? ==> ops[u].entry.id != k
  }

  ghost predicate Gone(ops: seq<Op>, i: nat, j: nat, k: KeyId)
    requires j <= |ops|
  {
    exists d :: i <= d < j && GoneSince(ops, d, j, k)
  }

  lemma {:induction false} LiveUntilDeleted(ops: seq<Op>, i: nat, j: nat, k: KeyId)
    requires i <= j <= |ops| && k in After(ops, i).live
    ensures k in After(ops, j).live <==> !Gone(ops, i, j, k)
  {
    if i < j {
      LiveUntilDeleted(ops, i, j - 1, k);
      GoneStep(ops, i, j - 1, k);
    }
  }

  lemma GoneStep(ops: seq<Op>, i: nat, m: nat, k: KeyId)
    requires i <= m < |ops|
    ensures Gone(ops, i, m + 1, k) <==>
      ops[m] == Delete(k) || (!(ops[m].Upsert? && ops[m].entry.id == k) && Gone(ops, i, m, k))
  {
    var n := m + 1;
    if ops[m] == Delete(k) {
      assert GoneSince(ops, m, n, k);
    } else if Gone(ops, i, m, k) {
      var d :| i <= d < m && GoneSince(ops, d, m, k);
      assert !(ops[m].Upsert? && ops[m].entry.id == k) ==> GoneSince(ops, d, n, k);
    }
    if Gone(ops, i, n, k) {
      var d :| i <= d < n && GoneSince(ops, d, n, k);
      assert d < m ==> GoneSince(ops, d, m, k);
    }
  }

  lemma LostIffGone(ops: seq<Op>, b: nat, i: nat, k: KeyId)
    requires b < |ops| && ListsKey(ops, |ops|, i, k)
    ensures Gone(ops, i, b, k) <==> exists d: nat :: LostDeletion(ops, b, i, d, k)
  {
    if Gone(ops, i, b, k) {
      var d :| i <= d < b && GoneSince(ops, d, b, k);
      assert LostDeletion(ops, b, i, d, k);
    }
    if d: nat :| LostDeletion(ops, b, i, d, k) {
      assert GoneSince(ops, d, b, k);
    }
  }

  /** A key listed by the chain was live at the last backup exactly if no deletion of it is lost. */
  lemma ListedStillLive(ops: seq<Op>, b: nat, i: nat, k: KeyId)
    requires ProperRun(ops) && LastBackup(ops, |ops|) == Some(b) && ListsKey(ops, |ops|, i, k)
    ensures k in After(ops, b).live <==> !exists d: nat :: LostDeletion(ops, b, i, d, k)
  {
    NoBackupAfter(ops, |ops|, i);
    ListedIsLive(ops, |ops|, i, k);
    LiveUntilDeleted(ops, i, b, k);
    LostIffGone(ops, b, i, k);
  }

  lemma AllStillLive(ops: seq<Op>, b: nat)
    requires ProperRun(ops) && LastBackup(ops, |ops|) == Some(b)
    ensures (forall k :: Listed(ops, |ops|, k) ==> k in After(ops, b).live) <==> NoLostDeletion(ops, b)
  {
    if NoLostDeletion(ops, b) {
      forall k | Listed(ops, |ops|, k)
        ensures k in After(ops, b).live
      {
        var i: nat :| ListsKey(ops, |ops|, i, k);
        ListedStillLive(ops, b, i, k);
      }
    } else {
      var i: nat, d: nat, k :| LostDeletion(ops, b, i, d, k);
      ListedStillLive(ops, b, i, k);
      assert Listed(ops, |ops|, k);
    }
  }

  lemma {:induction false} NoBackupAfter(ops: seq<Op>, n: nat, i: nat)
    requires i < n <= |ops| && IsBackup(ops[i])
    ensures LastBackup(ops, n).Some? && i <= LastBackup(ops, n).value
  {
    if i < n - 1 {
      NoBackupAfter(ops, n - 1, i);
    }
  }

  /** For every history of upserts, deletions and backups that has made a backup: the chain since
      the last full backup is valid and restores every key that was live at the last backup with its
      value then. It restores exactly that store if and only if no key listed by a backup of the chain
      was deleted afterwards without being written again before the last backup. */
  lemma RestoreFaithful(ops: seq<Op>, b: nat)
    requires ProperRun(ops) && LastBackup(ops, |ops|) == Some(b)
    ensures var chain, saved := After(ops, |ops|).chain, After(ops, b).live;
            var restored := RestoreAll(chain);
            && ProperChain(chain)
            && (forall k :: k in saved ==> k in restored && restored[k] == saved[k])
            && (restored == saved <==> NoLostDeletion(ops, b))
  {
    var n := |ops|;
    var chain, saved := After(ops, n).chain, After(ops, b).live;
    var restored := RestoreAll(chain);
    RunKeepsInv(ops, n);
    SavedAtLastBackup(ops, n);
    assert forall k :: k in saved ==> AgreeOn(restored, saved, k);
    forall k
      ensures k in restored <==> Listed(ops, n, k)
    {
      RestoredIffRecorded(chain, k);
      RecordedInHistory(ops, n, k);
    }
    AllStillLive(ops, b);
    if forall k :: k in restored ==> k in saved {
      assert restored.Keys == saved.Keys;
    }
  }

  /** Without deletions the condition holds, so the restored store is the store at the last backup. */
  lemma RestoreExactWithoutDeletions(ops: seq<Op>, b: nat)
    requires ProperRun(ops) && LastBackup(ops, |ops|) == Some(b)
    requires forall i :: 0 <= i < |ops| ==> !ops[i].Delete?
    ensures RestoreAll(After(ops, |ops|).chain) == After(ops, b).live
  {
    RestoreFaithful(ops, b);
  }

  /** A deletion that is lost: the deleted key comes back. */
  lemma DeletedKeyRestored(e: KeyEntry, now: int)
    ensures var ops := [Upsert(e), FullBackup("full", now, [e]), Delete(e.id), NextBackup("next", now, [])];
            ProperRun(ops) && e.id in RestoreAll(After(ops, 4).chain) && e.id !in After(ops, 3).live
  {
    var full, next := MakeBackup(Full, "full", None, now, [e]), MakeBackup(Incremental, "next", Some("full"), now, []);
    var ops := [Upsert(e), FullBackup("full", now, [e]), Delete(e.id), NextBackup("next", now, [])];
    var live: Store := map[e.id := e];
    assert After(ops, 1) == World(live, {e.id}, [], map[]);
    assert After(ops, 2) == World(live, {}, [full], live);
    assert After(ops, 3) == World(live - {e.id}, {e.id}, [full], live);
    assert After(ops, 4).chain == [full] + [next];
    assert ProperAt(ops, 0) && ProperAt(ops, 1) && ProperAt(ops, 2);
    RestoreExtended([full], next);
    RestoreExtended([], full);
    assert [] + [full] == [full];
    OverlayLists(map[], [e], live, e.id);
    assert Lists([], Restrict(live - {e.id}, {e.id}));
  }
}
