/**
 * The automatic backup store (a browser object store keyed by the instant a
 * snapshot was taken), its two-day retention sweep, the snapshot and restore of
 * the nine persistent collections, the import screen's staging, and the
 * header's stale-backup reminder.
 */
module Backups {
  import opened Wrappers
  import opened Domain

  /** Two days in milliseconds: older automatic backups are swept. */
  const RetentionMs := 2 * 24 * 60 * 60 * 1000

  /** Six hours in milliseconds: an older manual backup triggers the reminder. */
  const ReminderMs := 6 * 60 * 60 * 1000

  function Threshold(now: int): int
  {
    now - RetentionMs
  }

  /** `store.put({id, data})`: the key is the id, so a put on an existing id replaces it. */
  function Put(m: map<int, BackupData>, id: int, data: BackupData): (r: map<int, BackupData>)
    ensures r.Keys == m.Keys + {id} && r[id] == data
    ensures forall k :: k in m && k != id ==> k in r && r[k] == m[k]
  {
    m[id := data]
  }

  /** Two backups in the same millisecond leave one entry: the second. */
  lemma SameInstantReplaces(m: map<int, BackupData>, now: int, a: BackupData, b: BackupData)
    ensures Put(Put(m, now, a), now, b) == Put(m, now, b)
    ensures |Put(Put(m, now, a), now, b).Keys| <= |m.Keys| + 1
  {
    var r := Put(m, now, b);
    assert r.Keys == m.Keys + {now};
    if now in m {
      assert r.Keys == m.Keys;
    } else {
      assert |r.Keys| == |m.Keys| + |{now}|;
    }
  }

  /** What a sweep at `now` keeps: the entries whose id is not below the threshold. */
  function Retained(m: map<int, BackupData>, now: int): (r: map<int, BackupData>)
    ensures forall k :: k in r <==> k in m && k >= Threshold(now)
    ensures forall k :: k in r ==> r[k] == m[k]
  {
    map k | k in m && k >= Threshold(now) :: m[k]
  }

  /** The ids a sweep at `now` deletes. */
  function Expired(m: map<int, BackupData>, now: int): (s: set<int>)
    ensures forall k :: k in s <==> k in m && k < Threshold(now)
  {
    set k | k in m && k < Threshold(now)
  }

  /** A sweep splits the store: every entry is either kept or deleted, never both. */
  lemma SweepPartitions(m: map<int, BackupData>, now: int)
    ensures Retained(m, now).Keys + Expired(m, now) == m.Keys
    ensures Retained(m, now).Keys * Expired(m, now) == {}
    ensures |Expired(m, now)| + |Retained(m, now).Keys| == |m.Keys|
  {
    var kept, gone := Retained(m, now).Keys, Expired(m, now);
    assert kept + gone == m.Keys;
    assert kept * gone == {};
    assert |kept + gone| == |kept| + |gone| - |kept * gone|;
  }

  /** Sweeping again at the same or a later instant is the same as sweeping once at the later one. */
  lemma LaterSweepSubsumes(m: map<int, BackupData>, t1: int, t2: int)
    requires t1 <= t2
    ensures Retained(Retained(m, t1), t2) == Retained(m, t2)
  {
  }

  /** The store lists newest first: ids strictly decreasing, each entry once, nothing else. */
  predicate NewestFirst(r: seq<StoredBackup>, m: map<int, BackupData>)
  {
    (forall i :: 0 <= i < |r| ==> r[i].id in m && r[i].data == m[r[i].id]) &&
    (forall k :: k in m ==> exists i :: 0 <= i < |r| && r[i].id == k) &&
    (forall i, j :: 0 <= i < j < |r| ==> r[i].id > r[j].id)
  }

  /** Every finite non-empty set of ids has a largest one. */
  lemma {:induction false} LargestExists(s: set<int>)
    requires s != {}
    ensures exists k :: k in s && IsLargest(k, s)
    decreases |s|
  {
    assert (forall j :: j !in s) ==> s == {};
    var x :| x in s;
    var rest := s - {x};
    if rest == {} {
      assert s == {x};
      assert IsLargest(x, s);
    } else {
      LargestExists(rest);
      var k :| k in rest && IsLargest(k, rest);
      var m := if x > k then x else k;
      forall j | j in s ensures j <= m {
        if j != x {
          assert j in rest;
        }
      }
      assert IsLargest(m, s);
    }
  }

  predicate IsLargest(k: int, s: set<int>)
  {
    forall j :: j in s ==> j <= k
  }

  /** The ids in a listing that lie below a threshold. */
  function IdsBelow(bs: seq<StoredBackup>, t: int): (s: set<int>)
    ensures forall k :: k in s <==> exists i :: 0 <= i < |bs| && bs[i].id == k && k < t
  {
    if bs == [] then {}
    else
      var last := bs[|bs| - 1];
      var prev := IdsBelow(bs[..|bs| - 1], t);
      assert forall i :: 0 <= i < |bs| - 1 ==> bs[..|bs| - 1][i] == bs[i];
      if last.id < t then prev + {last.id} else prev
  }

  /** Every entry listed so far holds its id's snapshot and is no longer to list. */
  predicate ListedFromStore(r: seq<StoredBackup>, rest: set<int>, m: map<int, BackupData>)
  {
    forall i :: 0 <= i < |r| ==> r[i].id in m && r[i].id !in rest && r[i].data == m[r[i].id]
  }

  /** Every id no longer to list has been listed. */
  predicate ListedAllTaken(r: seq<StoredBackup>, rest: set<int>, m: map<int, BackupData>)
  {
    forall k :: k in m && k !in rest ==> exists i :: 0 <= i < |r| && r[i].id == k
  }

  predicate IdsDescending(r: seq<StoredBackup>)
  {
    forall i, j :: 0 <= i < j < |r| ==> r[i].id > r[j].id
  }

  predicate ListedAboveRest(r: seq<StoredBackup>, rest: set<int>)
  {
    forall i, k :: 0 <= i < |r| && k in rest ==> r[i].id > k
  }

  /**
   * Midway through listing: the entries listed so far, newest first, are all newer
   * than the ones still to list.
   */
  predicate ListedSoFar(r: seq<StoredBackup>, rest: set<int>, m: map<int, BackupData>)
  {
    rest <= m.Keys && ListedFromStore(r, rest, m) && ListedAllTaken(r, rest, m) &&
    IdsDescending(r) && ListedAboveRest(r, rest)
  }

  lemma ListStep(r: seq<StoredBackup>, rest: set<int>, m: map<int, BackupData>, k: int)
    requires ListedSoFar(r, rest, m) && k in rest && IsLargest(k, rest)
    ensures ListedSoFar(r + [StoredBackup(k, m[k])], rest - {k}, m)
  {
    var r', rest' := r + [StoredBackup(k, m[k])], rest - {k};
    assert forall i :: 0 <= i < |r| ==> r'[i] == r[i];
    assert r'[|r|] == StoredBackup(k, m[k]);
    StepFromStore(r, r', rest, m, k);
    StepAllTaken(r, r', rest, m, k);
    StepDescending(r, r', rest, k);
    StepAboveRest(r, r', rest, k);
  }

  lemma StepFromStore(r: seq<StoredBackup>, r': seq<StoredBackup>, rest: set<int>, m: map<int, BackupData>, k: int)
    requires ListedFromStore(r, rest, m) && k in rest && rest <= m.Keys
    requires r' == r + [StoredBackup(k, m[k])]
    ensures ListedFromStore(r', rest - {k}, m)
  {
    forall i | 0 <= i < |r'| ensures r'[i].id in m && r'[i].id !in rest - {k} && r'[i].data == m[r'[i].id] {
      if i < |r| {
        assert r'[i] == r[i];
      }
    }
  }

  lemma StepAllTaken(r: seq<StoredBackup>, r': seq<StoredBackup>, rest: set<int>, m: map<int, BackupData>, k: int)
    requires ListedAllTaken(r, rest, m) && k in rest && rest <= m.Keys
    requires r' == r + [StoredBackup(k, m[k])]
    ensures ListedAllTaken(r', rest - {k}, m)
  {
    forall k' | k' in m && k' !in rest - {k} ensures exists i :: 0 <= i < |r'| && r'[i].id == k' {
      if k' == k {
        assert r'[|r|].id == k;
      } else {
        var i :| 0 <= i < |r| && r[i].id == k';
        assert r'[i].id == k';
      }
    }
  }

  lemma StepDescending(r: seq<StoredBackup>, r': seq<StoredBackup>, rest: set<int>, k: int)
    requires IdsDescending(r) && ListedAboveRest(r, rest) && k in rest
    requires |r'| == |r| + 1 && r'[..|r|] == r && r'[|r|].id == k
    ensures IdsDescending(r')
  {
    forall i, j | 0 <= i < j < |r'| ensures r'[i].id > r'[j].id {
      assert r'[i] == r[i];
      if j < |r| {
        assert r'[j] == r[j];
      }
    }
  }

  lemma StepAboveRest(r: seq<StoredBackup>, r': seq<StoredBackup>, rest: set<int>, k: int)
    requires ListedAboveRest(r, rest) && k in rest && IsLargest(k, rest)
    requires |r'| == |r| + 1 && r'[..|r|] == r && r'[|r|].id == k
    ensures ListedAboveRest(r', rest - {k})
  {
    forall i, k' | 0 <= i < |r'| && k' in rest - {k} ensures r'[i].id > k' {
      if i < |r| {
        assert r'[i] == r[i];
      }
    }
  }

  /** Once nothing is left to list, the listing is complete. */
  lemma ListingDone(r: seq<StoredBackup>, m: map<int, BackupData>)
    requires ListedSoFar(r, {}, m)
    ensures NewestFirst(r, m)
  {
  }

  lemma BelowStep(bs: seq<StoredBackup>, i: nat, t: int)
    requires i < |bs|
    ensures IdsBelow(bs[..i + 1], t) == if bs[i].id < t then IdsBelow(bs[..i], t) + {bs[i].id} else IdsBelow(bs[..i], t)
  {
    assert bs[..i + 1][..i] == bs[..i];
  }

  /** A listing holds each id once, so the sweep meets each id once. */
  lemma NotYetDeleted(bs: seq<StoredBackup>, m: map<int, BackupData>, i: nat, t: int)
    requires NewestFirst(bs, m) && i < |bs|
    ensures bs[i].id !in IdsBelow(bs[..i], t)
  {
    forall j | 0 <= j < i ensures bs[..i][j].id != bs[i].id {
      assert bs[..i][j] == bs[j];
    }
  }

  /** One entry of the sweep: an expired id is new to the deleted set and leaves the store. */
  lemma SweepStep(bs: seq<StoredBackup>, m: map<int, BackupData>, i: nat, t: int)
    requires NewestFirst(bs, m) && i < |bs|
    ensures bs[i].id >= t ==> IdsBelow(bs[..i + 1], t) == IdsBelow(bs[..i], t)
    ensures bs[i].id < t ==>
      |IdsBelow(bs[..i + 1], t)| == |IdsBelow(bs[..i], t)| + 1 &&
      m - IdsBelow(bs[..i + 1], t) == (m - IdsBelow(bs[..i], t)) - {bs[i].id}
  {
    BelowStep(bs, i, t);
    if bs[i].id < t {
      NotYetDeleted(bs, m, i, t);
      RemoveOneMore(m, IdsBelow(bs[..i], t), bs[i].id);
    }
  }

  lemma RemoveOneMore(m: map<int, BackupData>, gone: set<int>, id: int)
    ensures (m - gone) - {id} == m - (gone + {id})
  {
  }

  /** Over a complete listing, the ids below the threshold are exactly the expired ones. */
  lemma SweepDeletesExpired(bs: seq<StoredBackup>, m: map<int, BackupData>, now: int)
    requires NewestFirst(bs, m)
    ensures IdsBelow(bs, Threshold(now)) == Expired(m, now)
    ensures m - IdsBelow(bs, Threshold(now)) == Retained(m, now)
  {
    forall k | k in Expired(m, now) ensures k in IdsBelow(bs, Threshold(now)) {
      var i :| 0 <= i < |bs| && bs[i].id == k;
    }
  }

  /** The store: one snapshot per millisecond id. */
  class BackupDb {
    var entries: map<int, BackupData>

    constructor()
      ensures entries == map[]
    {
      entries := map[];
    }

    /** Stores the snapshot under the current instant. */
    method AddBackup(data: BackupData, now: int)
      modifies this
      ensures entries == Put(old(entries), now, data)
    {
      entries := entries[now := data];
    }

    /** Removes the key; every other entry stays. */
    method DeleteBackup(id: int)
      modifies this
      ensures entries == old(entries) - {id}
    {
      entries := entries - {id};
    }

    /** Every stored backup, newest first. */
    method GetAllBackups() returns (r: seq<StoredBackup>)
      ensures NewestFirst(r, entries)
    {
      var rest := entries.Keys;
      r := [];
      while rest != {}
        invariant ListedSoFar(r, rest, entries)
        decreases rest
      {
        LargestExists(rest);
        var k :| k in rest && IsLargest(k, rest);
        ListStep(r, rest, entries, k);
        r := r + [StoredBackup(k, entries[k])];
        rest := rest - {k};
      }
    }

    /**
     * The retention sweep. With the store reachable it lists the backups, deletes
     * each one older than two days and logs the count when it is positive; a store
     * that cannot be opened or read is reported and nothing is deleted.
     */
    method ClearOldBackups(now: int, reachable: bool) returns (deleted: nat, log: SweepLog)
      modifies this
      ensures reachable ==> entries == Retained(old(entries), now) && deleted == |Expired(old(entries), now)|
      ensures !reachable ==> entries == old(entries) && deleted == 0 && log == Failed
      ensures reachable ==> (log == Cleared(deleted) <==> deleted > 0) && (log == Quiet <==> deleted == 0)
    {
      if !reachable {
        return 0, Failed;
      }
      var backups := GetAllBackups();
      var threshold := now - 2 * 24 * 60 * 60 * 1000;
      deleted := DeleteBelow(backups, threshold);
      SweepDeletesExpired(backups, old(entries), now);
      log := if deleted > 0 then Cleared(deleted) else Quiet;
    }

    /** The sweep's loop over the listing: delete and count each backup below the threshold. */
    method DeleteBelow(backups: seq<StoredBackup>, threshold: int) returns (deleted: nat)
      requires NewestFirst(backups, entries)
      modifies this
      ensures entries == old(entries) - IdsBelow(backups, threshold)
      ensures deleted == |IdsBelow(backups, threshold)|
    {
      ghost var before := entries;
      deleted := 0;
      var i := 0;
      while i < |backups|
        invariant 0 <= i <= |backups|
        invariant entries == before - IdsBelow(backups[..i], threshold)
        invariant deleted == |IdsBelow(backups[..i], threshold)|
      {
        var b := backups[i];
        SweepStep(backups, before, i, threshold);
        if b.id < threshold {
          DeleteBackup(b.id);
          deleted := deleted + 1;
        }
        i := i + 1;
      }
      assert backups[..i] == backups;
    }
  }

  /** What the sweep writes to the console. */
  datatype SweepLog = Cleared(count: nat) | Quiet | Failed

  // Restore and snapshots

  /** The nine persistent collections of the application. */
  datatype Collections = Collections(
    restaurants: seq<Restaurant>,
    users: seq<User>,
    menuItems: seq<MenuItem>,
    orders: seq<Order>,
    customers: seq<Customer>,
    inventoryItems: seq<InventoryItem>,
    suppliers: seq<Supplier>,
    purchases: seq<Purchase>,
    systemSettings: SystemSettings)

  /** A manual or automatic snapshot: all nine keys present. */
  function Snapshot(c: Collections): (d: BackupData)
    ensures d.restaurants.Some? && d.users.Some? && d.menuItems.Some? && d.orders.Some? &&
            d.customers.Some? && d.inventoryItems.Some? && d.suppliers.Some? &&
            d.purchases.Some? && d.systemSettings.Some?
  {
    BackupData(Some(c.restaurants), Some(c.users), Some(c.menuItems), Some(c.orders), Some(c.customers),
               Some(c.inventoryItems), Some(c.suppliers), Some(c.purchases), Some(c.systemSettings))
  }

  /** Restoring: each collection whose key is present (an empty list included) is replaced; the rest stay. */
  function Restored(c: Collections, d: BackupData): (r: Collections)
  {
    Collections(
      d.restaurants.GetOr(c.restaurants),
      d.users.GetOr(c.users),
      d.menuItems.GetOr(c.menuItems),
      d.orders.GetOr(c.orders),
      d.customers.GetOr(c.customers),
      d.inventoryItems.GetOr(c.inventoryItems),
      d.suppliers.GetOr(c.suppliers),
      d.purchases.GetOr(c.purchases),
      d.systemSettings.GetOr(c.systemSettings))
  }

  /** Restoring a snapshot reproduces every collection it was taken from, whatever the current state. */
  lemma RestoreSnapshotRoundTrip(current: Collections, saved: Collections)
    ensures Restored(current, Snapshot(saved)) == saved
  {
  }

  /** A file holding only some keys replaces exactly those collections. */
  lemma PartialRestore(current: Collections, d: BackupData)
    requires d.users.Some? && d.restaurants.None? && d.systemSettings.None?
    ensures Restored(current, d).users == d.users.value
    ensures Restored(current, d).restaurants == current.restaurants
    ensures Restored(current, d).systemSettings == current.systemSettings
  {
  }

  /** Restoring the same data twice is restoring it once. */
  lemma RestoreIdempotent(c: Collections, d: BackupData)
    ensures Restored(Restored(c, d), d) == Restored(c, d)
  {
  }

  // The import screen

  /** An imported file is accepted when it has users, menu items and orders (empty lists count). */
  predicate IsValidImport(d: BackupData)
  {
    d.users.Some? && d.menuItems.Some? && d.orders.Some?
  }

  datatype ImportState = ImportState(confirmOpen: bool, staged: Option<BackupData>, fileInput: string)

  const InitialImport := ImportState(false, None, "")

  /** What reading the chosen file gave: text that is not JSON, or the parsed data. */
  datatype FileRead = Unparseable | Parsed(data: BackupData)

  datatype Alert = InvalidBackup | UnreadableFile

  /**
   * A file was chosen (or the dialog was cancelled with `None`). A valid file is
   * staged and the confirmation opened; otherwise an alert and nothing staged.
   * The file input is cleared in every case.
   */
  function FileChosen(st: ImportState, file: Option<FileRead>): (r: (ImportState, Option<Alert>))
    ensures r.0.fileInput == ""
    ensures r.1.Some? <==> file.Some? && !(file.value.Parsed? && IsValidImport(file.value.data))
    ensures r.1 == Some(UnreadableFile) <==> file == Some(Unparseable)
    ensures r.1.Some? || file.None? ==> r.0 == st.(fileInput := "")
    ensures r.1.None? && file.Some? ==> r.0.staged == Some(file.value.data) && r.0.confirmOpen
  {
    match file
    case None => (st.(fileInput := ""), None)
    case Some(Unparseable) => (st.(fileInput := ""), Some(UnreadableFile))
    case Some(Parsed(d)) =>
      if IsValidImport(d) then (ImportState(true, Some(d), ""), None)
      else (st.(fileInput := ""), Some(InvalidBackup))
  }

  /** Choosing one of the automatic backups stages exactly its data. */
  function AutoRestoreRequest(st: ImportState, b: StoredBackup): (r: ImportState)
    ensures r.staged == Some(b.data) && r.confirmOpen && r.fileInput == st.fileInput
  {
    st.(staged := Some(b.data), confirmOpen := true)
  }

  /** Confirming hands the staged data on, once, then clears the staging and closes. */
  function ConfirmRestore(st: ImportState): (r: (ImportState, Option<BackupData>))
    ensures r.1 == st.staged
    ensures !r.0.confirmOpen && r.0.staged.None? && r.0.fileInput == st.fileInput
  {
    (st.(confirmOpen := false, staged := None), st.staged)
  }

  /** After a confirmation nothing is staged, so confirming again restores nothing. */
  lemma ConfirmForwardsOnce(st: ImportState)
    ensures ConfirmRestore(ConfirmRestore(st).0).1 == None
  {
  }

  /** An automatic backup taken by the application always passes the import check. */
  lemma SnapshotsAreValidImports(c: Collections)
    ensures IsValidImport(Snapshot(c))
  {
  }

  // The header's reminder

  /**
   * The manual-backup reminder: shown when no manual backup is recorded (a missing
   * or zero timestamp), otherwise exactly when the last one is more than six hours old.
   */
  function ShowBackupReminder(last: Option<int>, now: int): (show: bool)
    ensures last.None? || last == Some(0) ==> show
    ensures last.Some? && last.value != 0 ==> (show <==> now - last.value > 6 * 60 * 60 * 1000)
  {
    match last
    case None => true
    case Some(t) => if t == 0 then true else now - t > ReminderMs
  }

  /** Exactly six hours is not yet stale; one millisecond more is. */
  lemma ReminderBoundary(t: int)
    requires t != 0
    ensures !ShowBackupReminder(Some(t), t + 21600000)
    ensures ShowBackupReminder(Some(t), t + 21600001)
  {
  }
}
