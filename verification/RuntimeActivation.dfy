// python/rill_xray_agent/rillml_artifact.py: activation and rollback of the
// prebuilt runtime, a transaction over three files with a journalled snapshot.
// A crash stops a method after any durable write, also inside a directory removal.

module RuntimeActivation {
  import opened Collections

  type Bytes = string

  // Digests are free constructors over the digested value, hence injective.
  datatype Sha = OfBytes(content: Bytes)

  datatype Record = Record(sha: Sha, version: string, artifactId: string, probe: string)

  // The state document; a missing key is None, a missing file is BLANK.
  datatype Doc = Doc(version: Option<string>, artifactId: Option<string>, probe: Option<string>,
                     currentRecord: Option<Record>, rollbackVersion: Option<string>,
                     rollbackArtifactId: Option<string>, rollbackRecord: Option<Record>)

  const BLANK := Doc(None, None, None, None, None, None, None)

  datatype Triple = Triple(current: Option<Bytes>, rollback: Option<Bytes>, state: Option<Doc>)

  datatype Journal = Journal(committed: bool, current: bool, rollback: bool, state: bool)

  // A .txn- directory: the snapshots taken so far, and the journal.
  datatype Txn = Txn(current: Option<Bytes>, rollback: Option<Bytes>, state: Option<Doc>, journal: Option<Journal>)

  function Read(state: Option<Doc>): Doc {
    if state.Some? then state.value else BLANK
  }

  // _verified_file
  predicate Verified(file: Option<Bytes>, record: Option<Record>) {
    file.Some? && record.Some? && record.value.sha == OfBytes(file.value)
  }

  // ---- what the two operations mean ---------------------------------------------

  function Activated(t: Triple, staged: Bytes, record: Record): Triple {
    var prior := Read(t.state);
    var good := Verified(t.current, prior.currentRecord);
    Triple(Some(staged), if good then t.current else t.rollback,
           Some(Doc(Some(record.version), Some(record.artifactId), Some(record.probe), Some(record),
                    if good then prior.version else prior.rollbackVersion,
                    if good then prior.artifactId else prior.rollbackArtifactId,
                    if good then prior.currentRecord else prior.rollbackRecord)))
  }

  predicate CanRollBack(t: Triple) {
    Verified(t.rollback, Read(t.state).rollbackRecord)
  }

  function RolledBack(t: Triple): Triple {
    var s := Read(t.state);
    Triple(t.rollback, None,
           Some(s.(version := s.rollbackVersion, artifactId := s.rollbackArtifactId, currentRecord := s.rollbackRecord,
                   rollbackVersion := s.version, rollbackArtifactId := s.artifactId, rollbackRecord := s.currentRecord)))
  }

  predicate Running(t: Triple) {
    Verified(t.current, Read(t.state).currentRecord)
  }

  // Activating over a verified runtime and rolling back brings back its bytes, its
  // record and its name, verified again.
  lemma RollbackUndoesActivation(t: Triple, staged: Bytes, record: Record)
    requires Running(t)
    ensures CanRollBack(Activated(t, staged, record))
    ensures var back := RolledBack(Activated(t, staged, record));
      && back.current == t.current && Running(back)
      && Read(back.state).currentRecord == Read(t.state).currentRecord
      && Read(back.state).version == Read(t.state).version && Read(back.state).artifactId == Read(t.state).artifactId
  {
  }

  // Over a current binary that does not verify, the earlier rollback target stays.
  lemma ActivationKeepsAWayBackIff(t: Triple, staged: Bytes, record: Record)
    ensures CanRollBack(Activated(t, staged, record)) <==> Running(t) || CanRollBack(t)
  {
  }

  // A second rollback is impossible until something is activated over the result.
  lemma RollbackIsOneWay(t: Triple)
    requires CanRollBack(t)
    ensures Running(RolledBack(t)) && !CanRollBack(RolledBack(t))
  {
  }

  // ---- the snapshot ----------------------------------------------------------------

  function Present<T>(wanted: bool, snapshot: Option<T>): bool {
    wanted ==> snapshot.Some?
  }

  // Every snapshot that the journal lists is there.
  predicate Intact(d: Txn)
    requires d.journal.Some?
  {
    var j := d.journal.value;
    Present(j.current, d.current) && Present(j.rollback, d.rollback) && Present(j.state, d.state)
  }

  predicate Copies<T(==)>(snapshot: Option<T>, before: Option<T>) {
    snapshot.Some? ==> snapshot == before
  }

  // The snapshots and the journal are of `before`.
  predicate SnapshotOf(d: Txn, before: Triple) {
    && Copies(d.current, before.current) && Copies(d.rollback, before.rollback) && Copies(d.state, before.state)
    && (d.journal.Some? ==>
          && d.journal.value.current == before.current.Some?
          && d.journal.value.rollback == before.rollback.Some?
          && d.journal.value.state == before.state.Some?)
  }

  // While a transaction from `before` to `after` is open or being cleaned up. Only
  // under an intact, uncommitted journal may the files be anything at all.
  predicate Open(t: Triple, d: Txn, before: Triple, after: Triple) {
    && SnapshotOf(d, before)
    && match d.journal
       case None => t == before || t == after
       case Some(j) => if j.committed then t == after else Intact(d) || t == before
  }

  predicate Consistent(t: Triple, d: Option<Txn>, before: Triple, after: Triple) {
    match d
    case None => t == before || t == after
    case Some(txn) => Open(t, txn, before, after)
  }

  datatype Part = CurrentPart | RollbackPart | StatePart | JournalPart

  function Without(d: Txn, part: Part): Txn {
    match part
    case CurrentPart => d.(current := None)
    case RollbackPart => d.(rollback := None)
    case StatePart => d.(state := None)
    case JournalPart => d.(journal := None)
  }

  // A directory may be taken apart in any order once the files are settled.
  predicate Settled(t: Triple, d: Txn, before: Triple, after: Triple) {
    && SnapshotOf(d, before)
    && match d.journal
       case None => t == before || t == after
       case Some(j) => if j.committed then t == after else t == before
  }

  // A directory from which these entries are gone.
  function Removed(d: Txn, parts: seq<Part>): Txn {
    if parts == [] then d else Without(Removed(d, parts[..|parts| - 1]), parts[|parts| - 1])
  }

  lemma {:induction false} RemovedIs(d: Txn, parts: seq<Part>)
    ensures Removed(d, parts) == Txn(if CurrentPart in parts then None else d.current, if RollbackPart in parts then None else d.rollback,
                                     if StatePart in parts then None else d.state, if JournalPart in parts then None else d.journal)
    decreases |parts|
  {
    if parts != [] {
      RemovedIs(d, parts[..|parts| - 1]);
      assert parts == parts[..|parts| - 1] + [parts[|parts| - 1]];
    }
  }

  lemma RemovedOneMore(d: Txn, order: seq<Part>, k: nat)
    requires k < |order|
    ensures Removed(d, order[..k + 1]) == Without(Removed(d, order[..k]), order[k])
  {
    assert order[..k + 1][..k] == order[..k];
  }

  lemma RemovalStaysSettled(t: Triple, d: Txn, parts: seq<Part>, before: Triple, after: Triple)
    requires Settled(t, d, before, after)
    ensures Settled(t, Removed(d, parts), before, after) && Open(t, Removed(d, parts), before, after)
  {
    RemovedIs(d, parts);
  }

  // ---- what can block a recovery ------------------------------------------------------

  // Recovery can put every file back that it has to.
  predicate Whole(d: Option<Txn>) {
    d.Some? && d.value.journal.Some? && !d.value.journal.value.committed ==> Intact(d.value)
  }

  predicate Listed(j: Journal, part: Part) {
    match part
    case CurrentPart => j.current
    case RollbackPart => j.rollback
    case StatePart => j.state
    case JournalPart => false
  }

  // No snapshot that recovery may need goes before the journal does. Removing the
  // directory in one step is the empty order.
  predicate JournalFirst(order: seq<Part>, d: Option<Txn>) {
    d.Some? && d.value.journal.Some? && !d.value.journal.value.committed ==>
      forall i :: 0 <= i < |order| && Listed(d.value.journal.value, order[i]) ==> JournalPart in order[..i]
  }

  // The journal before anything else, which does for every directory.
  predicate JournalAhead(order: seq<Part>) {
    forall i :: 0 <= i < |order| && order[i] != JournalPart ==> JournalPart in order[..i]
  }

  lemma JournalFirstStaysWhole(d: Txn, order: seq<Part>, k: nat)
    requires k <= |order| && Whole(Some(d)) && JournalFirst(order, Some(d))
    ensures Whole(Some(Removed(d, order[..k]))) && JournalFirst(order, Some(Removed(d, order[..k])))
  {
    var e := Removed(d, order[..k]);
    RemovedIs(d, order[..k]);
    if e.journal.Some? && !e.journal.value.committed {
      forall i | 0 <= i < k ensures !Listed(e.journal.value, order[i]) {
        assert forall p :: p in order[..i] ==> p in order[..k];
      }
    }
  }

  ghost predicate PartlyRemoved(d: Txn, e: Txn, order: seq<Part>) {
    exists k: nat :: k <= |order| && e == Removed(d, order[..k])
  }

  lemma PartIsSafe(t: Triple, d: Txn, order: seq<Part>, k: nat, before: Triple, after: Triple)
    requires Settled(t, d, before, after) && k <= |order|
    ensures var e := Removed(d, order[..k]);
      Settled(t, e, before, after) && Open(t, e, before, after) && PartlyRemoved(d, e, order)
    ensures Whole(Some(d)) && JournalFirst(order, Some(d)) ==> Whole(Some(Removed(d, order[..k])))
  {
    RemovalStaysSettled(t, d, order[..k], before, after);
    if Whole(Some(d)) && JournalFirst(order, Some(d)) { JournalFirstStaysWhole(d, order, k); }
  }

  // Removals one after another, each interrupted at one of the stops.
  function Interrupted(d: Txn, order: seq<Part>, stops: seq<nat>): Txn {
    if stops == [] then d
    else
      var e := Interrupted(d, order, stops[..|stops| - 1]);
      var k := stops[|stops| - 1];
      Removed(e, if k <= |order| then order[..k] else order)
  }

  lemma {:induction false} InterruptedStaysWhole(d: Txn, order: seq<Part>, stops: seq<nat>)
    requires Whole(Some(d)) && JournalFirst(order, Some(d))
    ensures Whole(Some(Interrupted(d, order, stops))) && JournalFirst(order, Some(Interrupted(d, order, stops)))
    decreases |stops|
  {
    if stops != [] {
      InterruptedStaysWhole(d, order, stops[..|stops| - 1]);
      var k := stops[|stops| - 1];
      assert order[..|order|] == order;
      JournalFirstStaysWhole(Interrupted(d, order, stops[..|stops| - 1]), order, if k <= |order| then k else |order|);
    }
  }

  // Over any number of interrupted removals, recovery can go on exactly when the
  // journal is removed before every snapshot that it lists.
  lemma RemovalOrderDecides(d: Txn, order: seq<Part>)
    requires Whole(Some(d))
    ensures (forall stops: seq<nat> :: Whole(Some(Interrupted(d, order, stops)))) <==> JournalFirst(order, Some(d))
  {
    if JournalFirst(order, Some(d)) {
      forall stops: seq<nat> ensures Whole(Some(Interrupted(d, order, stops))) {
        InterruptedStaysWhole(d, order, stops);
      }
    } else {
      var i: nat :| i < |order| && Listed(d.journal.value, order[i]) && JournalPart !in order[..i];
      var stops: seq<nat> := [i + 1];
      assert stops[..0] == [];
      assert Interrupted(d, order, stops) == Removed(d, order[..i + 1]);
      RemovedIs(d, order[..i + 1]);
      assert order[..i + 1] == order[..i] + [order[i]];
      assert !Whole(Some(Interrupted(d, order, stops)));
    }
  }

  // A run that gets there: the files are back, the snapshot of the current binary is
  // gone, the journal still asks for it, and so every later recovery stops.
  lemma RecoveryCanBeBlocked(before: Triple, after: Triple, d: Txn)
    requires before.current.Some? && SnapshotOf(d, before) && d.journal.Some? && !d.journal.value.committed && Intact(d)
    ensures var e := Removed(d, [CurrentPart]);
      Settled(before, d, before, after) && Open(before, e, before, after) && !Whole(Some(e))
  {
    RemovedIs(d, [CurrentPart]);
  }

  datatype Outcome = Done | Stuck | Refused | Crashed

  class Manager {
    var files: Triple
    var txn: Option<Txn>
    ghost var before: Triple
    ghost var after: Triple

    constructor (files: Triple)
      ensures Valid() && this.files == files && txn == None
    {
      this.files, txn, before, after := files, None, files, files;
    }

    ghost predicate Valid()
      reads this
    {
      Consistent(files, txn, before, after)
    }

    // rmtree: the entries go one by one, in whatever order the directory lists them.
    method RemoveTree(order: seq<Part>) returns (ok: bool)
      requires txn.Some? && Settled(files, txn.value, before, after)
      modifies this`txn
      ensures Valid() && (ok ==> txn == None)
      ensures !ok ==> txn.Some? && Settled(files, txn.value, before, after)
      ensures !ok ==> PartlyRemoved(old(txn.value), txn.value, order)
      ensures old(Whole(txn) && JournalFirst(order, txn)) ==> Whole(txn)
    {
      ghost var start := txn.value;
      for i := 0 to |order|
        invariant txn == Some(Removed(start, order[..i]))
      {
        PartIsSafe(files, start, order, i, before, after);
        if * { return false; }
        RemovedOneMore(start, order, i);
        txn := Some(Without(txn.value, order[i]));
      }
      PartIsSafe(files, start, order, |order|, before, after);
      if * { return false; }
      txn := None;
      return true;
    }

    // _restore_transaction: a committed journal is only removed; otherwise each file
    // is put back from its snapshot, and a missing snapshot stops the recovery.
    method RestoreTransaction(order: seq<Part>) returns (r: Outcome)
      requires Valid() && txn.Some? && txn.value.journal.Some?
      modifies this`files, this`txn
      ensures Valid() && !r.Refused?
      ensures old(txn.value.journal.value.committed) ==> files == after == old(files) && !r.Stuck?
      ensures r.Done? ==> txn == None
      ensures r.Done? && !old(txn.value.journal.value.committed) ==> files == before
      ensures r.Stuck? ==> files == before == old(files) && txn == old(txn) && !Whole(txn)
      ensures !old(Whole(txn)) ==> (r.Stuck? || r.Crashed?) && !Whole(txn)
      ensures old(Whole(txn) && JournalFirst(order, txn)) ==> Whole(txn)
    {
      var d := txn.value;
      var j := d.journal.value;
      if j.committed {
        var ok := RemoveTree(order);
        return if ok then Done else Crashed;
      }
      if j.current {
        if d.current.None? { return Stuck; }
        files := files.(current := d.current);
      } else {
        files := files.(current := None);
      }
      if * { return Crashed; }
      if j.rollback {
        if d.rollback.None? { return Stuck; }
        files := files.(rollback := d.rollback);
      } else {
        files := files.(rollback := None);
      }
      if * { return Crashed; }
      if j.state {
        if d.state.None? { return Stuck; }
        files := files.(state := d.state);
      } else {
        files := files.(state := None);
      }
      if * { return Crashed; }
      var ok := RemoveTree(order);
      return if ok then Done else Crashed;
    }

    // _recover_transactions: run before every operation. Completed, the files are the
    // old triple or the new one; it stops exactly on a directory that is not whole,
    // and an order with the journal first never leaves one.
    method Recover(order: seq<Part>) returns (r: Outcome)
      requires Valid()
      modifies this`files, this`txn
      ensures Valid() && !r.Refused?
      ensures r.Done? ==> txn == None && (files == before || files == after)
      ensures r.Stuck? ==> files == before && txn == old(txn) && !Whole(txn)
      ensures !old(Whole(txn)) ==> (r.Stuck? || r.Crashed?) && !Whole(txn)
      ensures old(Whole(txn) && JournalFirst(order, txn)) ==> Whole(txn)
      ensures old(txn.None?) ==> r.Done? && files == old(files)
    {
      if txn.None? { return Done; }
      if txn.value.journal.None? {
        var ok := RemoveTree(order);
        return if ok then Done else Crashed;
      }
      r := RestoreTransaction(order);
    }

    // Recovery after recovery, each of which may crash, until one comes to an end:
    // with the journal first in every removal, the end is the old or the new triple.
    method RecoverThroughCrashes(orders: seq<seq<Part>>) returns (r: Outcome)
      requires Valid() && Whole(txn)
      requires forall order :: order in orders ==> JournalAhead(order)
      modifies this`files, this`txn
      ensures Valid() && Whole(txn) && (r.Done? || r.Crashed?)
      ensures r.Done? ==> txn == None && (files == before || files == after)
    {
      r := Crashed;
      for i := 0 to |orders|
        invariant Valid() && Whole(txn) && r.Crashed?
      {
        assert JournalAhead(orders[i]);
        r := Recover(orders[i]);
        if !r.Crashed? { return; }
      }
    }

    // The first half of _state_transaction: snapshots, then the prepared journal.
    method Begin(goal: Triple) returns (ok: bool)
      requires Valid() && txn == None
      modifies this`txn, this`before, this`after
      ensures Valid() && before == files && after == goal
      ensures ok ==> txn.Some? && txn.value.journal == Some(Journal(false, files.current.Some?, files.rollback.Some?, files.state.Some?))
      ensures Whole(txn) && (ok ==> Intact(txn.value))
    {
      before, after := files, goal;
      txn := Some(Txn(None, None, None, None));
      if * { return false; }
      txn := Some(txn.value.(current := files.current));
      if * { return false; }
      txn := Some(txn.value.(rollback := files.rollback));
      if * { return false; }
      txn := Some(txn.value.(state := files.state));
      if * { return false; }
      txn := Some(txn.value.(journal := Some(Journal(false, files.current.Some?, files.rollback.Some?, files.state.Some?))));
      return true;
    }

    // The second half: commit the journal, then remove the directory.
    method Commit(order: seq<Part>) returns (r: Outcome)
      requires Valid() && files == after && txn.Some? && txn.value.journal.Some? && !txn.value.journal.value.committed
      modifies this`txn
      ensures Valid() && (r.Done? || r.Crashed?) && (old(Whole(txn)) ==> Whole(txn))
      ensures r.Done? ==> txn == None && files == after
    {
      if * { return Crashed; }
      txn := Some(txn.value.(journal := Some(txn.value.journal.value.(committed := true))));
      var ok := RemoveTree(order);
      return if ok then Done else Crashed;
    }

    // _activate, with the binary that was staged and verified for `record`.
    method Activate(staged: Bytes, record: Record, order: seq<Part>) returns (r: Outcome)
      requires Valid() && txn == None
      modifies this
      ensures Valid() && before == old(files) && after == Activated(old(files), staged, record)
      ensures (r.Done? || r.Crashed?) && Whole(txn)
      ensures r.Done? ==> txn == None && files == after
      ensures after.current == Some(staged) && (Running(after) <==> record.sha == OfBytes(staged))
      ensures var s := Read(after.state);
        && s.currentRecord == Some(record) && s.version == Some(record.version)
        && s.artifactId == Some(record.artifactId) && s.probe == Some(record.probe)
      ensures var s, was := Read(after.state), Read(old(files).state);
        if Running(old(files)) then
          && after.rollback == old(files).current && s.rollbackRecord == was.currentRecord
          && s.rollbackVersion == was.version && s.rollbackArtifactId == was.artifactId
        else
          && after.rollback == old(files).rollback && s.rollbackRecord == was.rollbackRecord
          && s.rollbackVersion == was.rollbackVersion && s.rollbackArtifactId == was.rollbackArtifactId
    {
      var prior := Read(files.state);
      var begun := Begin(Activated(files, staged, record));
      if !begun { return Crashed; }
      var good := Verified(files.current, prior.currentRecord);
      if good {
        files := files.(rollback := None);
        if * { return Crashed; }
        files := files.(rollback := files.current, current := None);
      }
      if * { return Crashed; }
      files := files.(current := Some(staged));
      if * { return Crashed; }
      files := files.(state := Some(Doc(
        Some(record.version), Some(record.artifactId), Some(record.probe), Some(record),
        if good then prior.version else prior.rollbackVersion,
        if good then prior.artifactId else prior.rollbackArtifactId,
        if good then prior.currentRecord else prior.rollbackRecord)));
      r := Commit(order);
    }

    // _rollback_locked
    method Rollback(order: seq<Part>) returns (r: Outcome)
      requires Valid() && txn == None
      modifies this
      ensures Valid() && !r.Stuck? && Whole(txn)
      ensures r.Refused? <==> !CanRollBack(old(files))
      ensures !r.Refused? <==>
        var record := Read(old(files).state).rollbackRecord;
        old(files).rollback.Some? && record.Some? && record.value.sha == OfBytes(old(files).rollback.value)
      ensures r.Refused? ==> files == old(files) && txn == None
      ensures !r.Refused? ==> before == old(files) && after == RolledBack(old(files))
      ensures r.Done? ==> txn == None && files == after
      ensures !r.Refused? ==> Running(after) && after.current == old(files).rollback && after.rollback == None
      ensures !r.Refused? ==>
        var s, was := Read(after.state), Read(old(files).state);
        && s.currentRecord == was.rollbackRecord && s.version == was.rollbackVersion && s.artifactId == was.rollbackArtifactId
        && s.rollbackRecord == was.currentRecord && s.rollbackVersion == was.version && s.rollbackArtifactId == was.artifactId
        && s.probe == was.probe
    {
      var s := Read(files.state);
      if !Verified(files.rollback, s.rollbackRecord) { return Refused; }
      var begun := Begin(RolledBack(files));
      if !begun { return Crashed; }
      files := files.(current := None);
      if * { return Crashed; }
      files := files.(current := files.rollback, rollback := None);
      if * { return Crashed; }
      files := files.(state := Some(s.(
        version := s.rollbackVersion, artifactId := s.rollbackArtifactId, currentRecord := s.rollbackRecord,
        rollbackVersion := s.version, rollbackArtifactId := s.artifactId, rollbackRecord := s.currentRecord)));
      r := Commit(order);
    }
  }
}
