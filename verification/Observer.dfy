// python/rill_xray_agent/observer_transition.py and the observer's main loop:
// every change between two consecutive observation anchors reaches the journal
// exactly once, although the process may stop after any durable write.

module Observer {
  import opened Collections
  import opened Events
  import opened JournalFormat
  import opened JournalHistory
  import opened EventJournal

  datatype Checkpoint = Checkpoint(previous: StateDigest, current: StateDigest,
                                   ids: seq<TransitionId>, observation: Observation)

  // Untrusted stands for a symlink, a non-regular file, malformed JSON or a wrong schema.
  datatype CheckpointFile = Absent | Untrusted | Saved(checkpoint: Checkpoint)

  datatype Problem =
    | UntrustedCheckpoint
    | InconsistentProjection
    | PlannedEventMissing
    | AnchorMismatch
    | IdsMismatch
    | RecoveryRequired
    | JournalRefused(fault: Fault)

  datatype Reply<+T> = Completed(value: T) | Rejected(problem: Problem) | Stopped

  function LoadCheckpoint(file: CheckpointFile): Result<Option<Checkpoint>, Problem> {
    match file
    case Absent => Ok(None)
    case Untrusted => Err(UntrustedCheckpoint)
    case Saved(c) =>
      if c.current == NoState || c.ids == [] || exists i, j :: 0 <= i < j < |c.ids| && c.ids[i] == c.ids[j]
      then Err(UntrustedCheckpoint) else Ok(Some(c))
  }

  // Exactly which files are trusted, and that no file means no transition.
  lemma CheckpointIsTrustedIff(file: CheckpointFile)
    ensures LoadCheckpoint(file).Ok? <==>
      file == Absent
      || (file.Saved? && file.checkpoint.current != NoState && file.checkpoint.ids != [] && Distinct(file.checkpoint.ids))
    ensures LoadCheckpoint(file) == Ok(None) <==> file == Absent
    ensures LoadCheckpoint(file).Ok? && file.Saved? ==> LoadCheckpoint(file).value == Some(file.checkpoint)
  {
  }

  // The checkpoint a transition is started with.
  function Planned(previous: Option<Observation>, current: Observation): Checkpoint {
    Checkpoint(Fingerprint(previous), Fingerprint(Some(current)), TransitionIds(previous, current), current)
  }

  // Every checkpoint that is written is accepted when it is read, and the ids
  // are derived again from the anchor and the saved projection.
  lemma PlannedCheckpointIsAccepted(previous: Option<Observation>, current: Observation)
    requires Derive(previous, current) != []
    ensures LoadCheckpoint(Saved(Planned(previous, current))) == Ok(Some(Planned(previous, current)))
    ensures Planned(previous, current).ids
         == Ids(Fingerprint(previous), Fingerprint(Some(current)), Derive(previous, current))
  {
    TransitionIdsDistinct(previous, current);
  }

  // ---- what the journal should hold -----------------------------------------

  function IdsOf(records: seq<Record>): (ids: seq<TransitionId>)
    ensures |ids| == |records|
    ensures forall i :: 0 <= i < |records| ==> ids[i] == records[i].transitionId
  {
    seq(|records|, i requires 0 <= i < |records| => records[i].transitionId)
  }

  // The ids of all transitions between consecutive anchors, oldest first.
  function Timeline(anchors: seq<Observation>): seq<TransitionId> {
    if anchors == [] then []
    else
      var n := |anchors| - 1;
      Timeline(anchors[..n]) + TransitionIds(Last(anchors[..n]), anchors[n])
  }

  function Last(anchors: seq<Observation>): Option<Observation> {
    if anchors == [] then None else Some(anchors[|anchors| - 1])
  }

  // What a reader of the journal makes of one id after another: the first observation
  // tells the state itself, every other event what became of it.
  function Follow(s: StateDigest, id: TransitionId): StateDigest {
    if id.event.kind == BaselineObserved then id.current else if s.StateOf? then Replay(s, id.event) else s
  }

  function FollowAll(ids: seq<TransitionId>): StateDigest {
    if ids == [] then NoState else Follow(FollowAll(ids[..|ids| - 1]), ids[|ids| - 1])
  }

  lemma {:induction false} FollowReplays(told: seq<TransitionId>, previous: StateDigest, current: StateDigest, events: seq<Event>)
    requires FollowAll(told).StateOf? && forall e :: e in events ==> e.kind != BaselineObserved
    ensures FollowAll(told + Ids(previous, current, events)) == ReplayAll(FollowAll(told), events)
    decreases |events|
  {
    var ids := Ids(previous, current, events);
    if events == [] {
      assert told + ids == told;
    } else {
      var n := |events| - 1;
      assert (told + ids)[..|told| + n] == told + Ids(previous, current, events[..n]);
      FollowReplays(told, previous, current, events[..n]);
      assert (told + ids)[|told| + n].event == events[n];
    }
  }

  // Whoever follows the ids between consecutive documents ends with the state of the last.
  lemma {:induction false} TimelineTells(anchors: seq<Observation>)
    requires forall a :: a in anchors ==> WellFormed(a)
    ensures FollowAll(Timeline(anchors)) == Fingerprint(Last(anchors))
    decreases |anchors|
  {
    if anchors != [] {
      var n := |anchors| - 1;
      var init, q := anchors[..n], anchors[n];
      TimelineTells(init);
      var ids := TransitionIds(Last(init), q);
      if init == [] {
        assert Timeline(anchors) == ids && ids[..0] == [];
      } else {
        var p := Last(init).value;
        assert p == anchors[n - 1] && WellFormed(p) && WellFormed(q);
        AllTell(p, q);
        ReplayReaches(p, q);
        FollowReplays(Timeline(init), Fingerprint(Some(p)), Fingerprint(Some(q)), Derive(Some(p), q));
      }
    }
  }

  // ---- when a transition can be resumed ---------------------------------------

  // None of the ids is still in the journal from an earlier occurrence.
  ghost predicate Unseen(h: History, ids: seq<TransitionId>, start: nat)
    requires start <= |h.committed|
  {
    forall k :: h.evicted <= k < start ==> h.committed[k].transitionId !in ids
  }

  function Stamped(start: nat, times: seq<Epoch>, ids: seq<TransitionId>): (rs: seq<Record>)
    requires |times| == |ids|
    ensures |rs| == |ids|
    ensures forall i :: 0 <= i < |ids| ==> rs[i] == Record(start + i + 1, times[i], ids[i].event, ids[i])
  {
    seq(|ids|, i requires 0 <= i < |ids| => Record(start + i + 1, times[i], ids[i].event, ids[i]))
  }

  // Whatever the clock reads, the lines of the transition fit into a segment
  // one by one, and together into what rotation never touches.
  ghost predicate Fits(codec: Codec, config: Config, start: nat, ids: seq<TransitionId>) {
    && (forall times: seq<Epoch> | |times| == |ids| ::
          SizeOf(codec, Stamped(start, times, ids)) <= config.totalBytes - config.segmentBytes)
    && (forall i: nat, t: Epoch | i < |ids| :: LineFits(codec, config, start, ids, i, t))
  }

  predicate LineFits(codec: Codec, config: Config, start: nat, ids: seq<TransitionId>, i: nat, t: Epoch)
    requires i < |ids|
  {
    |Line(codec, Record(start + i + 1, t, ids[i].event, ids[i]))| <= config.segmentBytes
  }

  // `count` of the planned ids have been committed from index `start` on.
  ghost predicate Underway(committed: seq<Record>, ids: seq<TransitionId>, start: nat, count: nat) {
    && count <= |ids| && |committed| == start + count
    && forall k :: start <= k < start + count ==> Carries(committed[k], ids[k - start])
  }

  predicate Carries(r: Record, id: TransitionId) {
    r.transitionId == id && r.event == id.event
  }

  ghost predicate Numbered(committed: seq<Record>) {
    forall i :: 0 <= i < |committed| ==> committed[i].sequence == i + 1
  }

  // Any clock readings of the right length, starting with those of the records.
  function Times(rs: seq<Record>, n: nat): (times: seq<Epoch>)
    requires |rs| <= n
    ensures |times| == n && forall i :: 0 <= i < |rs| ==> times[i] == rs[i].capturedAt
  {
    seq(n, i => if 0 <= i < |rs| then rs[i].capturedAt else 0)
  }

  lemma StampedPrefix(committed: seq<Record>, ids: seq<TransitionId>, start: nat, count: nat)
    requires Numbered(committed) && Underway(committed, ids, start, count)
    ensures Stamped(start, Times(committed[start..], |ids|), ids)[..count] == committed[start..]
  {
    var rs := committed[start..];
    var all := Stamped(start, Times(rs, |ids|), ids);
    forall i | 0 <= i < count ensures all[i] == rs[i] {
      assert rs[i] == committed[start + i] && rs[i].sequence == start + i + 1 && Carries(rs[i], ids[i]);
    }
  }

  // The records a transition has appended so far fit into what rotation never touches.
  lemma UnderwayIsSmall(codec: Codec, config: Config, committed: seq<Record>, ids: seq<TransitionId>, start: nat, count: nat)
    requires Fits(codec, config, start, ids) && Numbered(committed) && Underway(committed, ids, start, count)
    ensures SizeOf(codec, committed[start..]) <= config.totalBytes - config.segmentBytes
  {
    var times := Times(committed[start..], |ids|);
    var all := Stamped(start, times, ids);
    StampedPrefix(committed, ids, start, count);
    assert all == all[..count] + all[count..];
    EncodeAllConcat(codec, all[..count], all[count..]);
  }

  // A transition in flight: `done` is what the journal held before it.
  ghost predicate InFlight(codec: Codec, config: Config, h: History, done: seq<TransitionId>, ids: seq<TransitionId>) {
    && Distinct(ids)
    && |done| <= |h.committed| && IdsOf(h.committed[..|done|]) == done
    && Underway(h.committed, ids, |done|, |h.committed| - |done|) && h.evicted <= |done|
    && Unseen(h, ids, |done|)
    && Fits(codec, config, |done|, ids)
  }

  // In flight, the journal already shows exactly the ids committed so far.
  lemma SeenIffCommitted(codec: Codec, config: Config, h: History, done: seq<TransitionId>, ids: seq<TransitionId>, i: nat)
    requires InFlight(codec, config, h, done, ids) && i < |ids|
    ensures ids[i] in Shown(h) <==> i < |h.committed| - |done|
  {
    SeenIffUnderway(h, ids, |done|, i);
  }

  lemma SeenIffUnderway(h: History, ids: seq<TransitionId>, start: nat, i: nat)
    requires h.evicted <= start <= |h.committed| && i < |ids| && Distinct(ids) && Unseen(h, ids, start)
    requires Underway(h.committed, ids, start, |h.committed| - start)
    ensures ids[i] in Shown(h) <==> i < |h.committed| - start
  {
    ShownIffRecorded(h, ids[i]);
    if i < |h.committed| - start {
      assert Carries(h.committed[start + i], ids[i]);
      assert h.committed[start + i] == Surviving(h)[start + i - h.evicted];
    }
    if r :| r in Surviving(h) && r.transitionId == ids[i] {
      var k :| 0 <= k < |Surviving(h)| && Surviving(h)[k] == r;
      var at := h.evicted + k;
      assert h.committed[at].transitionId == ids[i];
      assert at >= start ==> Carries(h.committed[at], ids[at - start]);
    }
  }

  lemma UnderwayGrows(before: seq<Record>, r: Record, ids: seq<TransitionId>, start: nat, count: nat)
    requires Underway(before, ids, start, count) && count < |ids| && Carries(r, ids[count])
    ensures Underway(before + [r], ids, start, count + 1)
  {
  }

  // Rotation stops before the first record of a transition that fits.
  lemma RetainedWhileUnderway(codec: Codec, config: Config, before: History, after: History, r: Record,
                              ids: seq<TransitionId>, start: nat)
    requires Appended(codec, config, before, after, r) && before.evicted <= start <= |before.committed|
    requires Fits(codec, config, start, ids) && Numbered(after.committed)
    requires Underway(after.committed, ids, start, |after.committed| - start)
    ensures after.evicted <= start
  {
    if after.evicted > start {
      UnderwayIsSmall(codec, config, after.committed, ids, start, |after.committed| - start);
      assert FarBehind(codec, config, after.committed, start);
      SizeOfSuffix(codec, after.committed, start, start + 1);
    }
  }

  lemma InFlightAppend(codec: Codec, config: Config, before: History, after: History,
                       r: Record, done: seq<TransitionId>, ids: seq<TransitionId>)
    requires InFlight(codec, config, before, done, ids) && |before.committed| - |done| < |ids|
    requires Untouched(before, after) || Appended(codec, config, before, after, r)
    requires Carries(r, ids[|before.committed| - |done|]) && Numbered(after.committed)
    ensures InFlight(codec, config, after, done, ids)
  {
    if !Untouched(before, after) {
      UnderwayGrows(before.committed, r, ids, |done|, |before.committed| - |done|);
      RetainedWhileUnderway(codec, config, before, after, r, ids, |done|);
      assert after.committed[..|done|] == before.committed[..|done|];
    }
  }

  lemma IdsOfAppended(before: seq<Record>, r: Record)
    ensures IdsOf(before + [r]) == IdsOf(before) + [r.transitionId]
  {
  }

  lemma InFlightFits(codec: Codec, config: Config, h: History, r: Record, done: seq<TransitionId>, ids: seq<TransitionId>)
    requires InFlight(codec, config, h, done, ids) && |h.committed| - |done| < |ids|
    requires Carries(r, ids[|h.committed| - |done|]) && r.sequence == |h.committed| + 1
    ensures |Line(codec, r)| <= config.segmentBytes
  {
    assert LineFits(codec, config, |done|, ids, |h.committed| - |done|, r.capturedAt);
  }

  lemma InFlightComplete(codec: Codec, config: Config, h: History, done: seq<TransitionId>, ids: seq<TransitionId>)
    requires InFlight(codec, config, h, done, ids) && |h.committed| == |done| + |ids|
    ensures IdsOf(h.committed) == done + ids
  {
    var all := IdsOf(h.committed);
    forall k | 0 <= k < |all| ensures all[k] == (done + ids)[k] {
      if k < |done| {
        assert IdsOf(h.committed[..|done|])[k] == done[k];
      } else {
        assert Carries(h.committed[k], ids[k - |done|]);
      }
    }
  }

  // What resuming appends: the planned ids that the journal does not show.
  function Resume(shown: seq<TransitionId>, ids: seq<TransitionId>): seq<TransitionId>
    decreases |ids|
  {
    if ids == [] then []
    else if ids[0] in shown then Resume(shown, ids[1..])
    else [ids[0]] + Resume(shown + [ids[0]], ids[1..])
  }

  lemma {:induction false} ResumeNothingNew(shown: seq<TransitionId>, ids: seq<TransitionId>)
    requires forall id :: id in ids ==> id in shown
    ensures Resume(shown, ids) == []
  {
    if ids != [] {
      ResumeNothingNew(shown, ids[1..]);
    }
  }

  lemma {:induction false} ResumeAllNew(shown: seq<TransitionId>, ids: seq<TransitionId>)
    requires Distinct(ids) && forall id :: id in ids ==> id !in shown
    ensures Resume(shown, ids) == ids
    decreases |ids|
  {
    if ids != [] {
      forall id | id in ids[1..] ensures id !in shown + [ids[0]] {
        var m :| 0 < m < |ids| && ids[m] == id;
        assert ids[0] != ids[m];
      }
      ResumeAllNew(shown + [ids[0]], ids[1..]);
      assert ids == [ids[0]] + ids[1..];
    }
  }

  lemma {:induction false} ResumeSkipsPrefix(shown: seq<TransitionId>, ids: seq<TransitionId>, j: nat)
    requires j <= |ids| && Distinct(ids) && forall i :: 0 <= i < j ==> ids[i] in shown
    ensures Resume(shown, ids) == Resume(shown, ids[j..])
    decreases j
  {
    if j > 0 {
      ResumeSkipsPrefix(shown, ids[1..], j - 1);
      assert ids[1..][j - 1..] == ids[j..];
    } else {
      assert ids[0..] == ids;
    }
  }

  // A crash may leave any prefix of a new transition in the journal. Resuming
  // completes it to exactly the planned ids at every crash point if and only if
  // none of the ids was in the surviving journal when it was started.
  lemma ExactlyOnceIffUnseen(shown: seq<TransitionId>, ids: seq<TransitionId>)
    requires Distinct(ids)
    ensures (forall j: nat :: j <= |ids| ==> ids[..j] + Resume(shown + ids[..j], ids) == ids)
       <==> (forall id :: id in ids ==> id !in shown)
  {
    if forall id :: id in ids ==> id !in shown {
      forall j: nat | j <= |ids| ensures ids[..j] + Resume(shown + ids[..j], ids) == ids {
        ResumeCompletes(shown, ids, j);
      }
    } else {
      assert ids[..0] == [] && shown + [] == shown && [] + Resume(shown, ids) == Resume(shown, ids);
      ResumeOmitsShown(shown, ids);
      assert Resume(shown, ids) != ids;
      assert ids[..0] + Resume(shown + ids[..0], ids) != ids;
    }
  }

  lemma NewBehindPrefix(shown: seq<TransitionId>, ids: seq<TransitionId>, j: nat)
    requires Distinct(ids) && j <= |ids|
    requires forall id :: id in ids ==> id !in shown
    ensures forall id :: id in ids[j..] ==> id !in shown + ids[..j]
  {
    forall id | id in ids[j..] ensures id !in shown + ids[..j] {
      var m :| j <= m < |ids| && ids[m] == id;
      assert forall i :: 0 <= i < j ==> ids[..j][i] == ids[i] != ids[m];
    }
  }

  lemma ResumeCompletes(shown: seq<TransitionId>, ids: seq<TransitionId>, j: nat)
    requires Distinct(ids) && j <= |ids|
    requires forall id :: id in ids ==> id !in shown
    ensures ids[..j] + Resume(shown + ids[..j], ids) == ids
  {
    var seen := shown + ids[..j];
    forall i | 0 <= i < j ensures ids[i] in seen {
      assert seen[|shown| + i] == ids[i];
    }
    ResumeSkipsPrefix(seen, ids, j);
    NewBehindPrefix(shown, ids, j);
    ResumeAllNew(seen, ids[j..]);
  }

  lemma {:induction false} ResumeOmitsShown(shown: seq<TransitionId>, ids: seq<TransitionId>)
    ensures forall id :: id in Resume(shown, ids) ==> id !in shown
    decreases |ids|
  {
    if ids != [] {
      ResumeOmitsShown(shown, ids[1..]);
      ResumeOmitsShown(shown + [ids[0]], ids[1..]);
    }
  }

  // ---- the whole story ------------------------------------------------------

  // The anchor is still the previous observation.
  ghost predicate Pending(codec: Codec, config: Config, h: History, anchors: seq<Observation>, c: Checkpoint) {
    && c == Planned(Last(anchors), c.observation) && c.ids != []
    && InFlight(codec, config, h, Timeline(anchors), c.ids)
  }

  // The anchor has been replaced; only the checkpoint is left over.
  ghost predicate Converged(codec: Codec, config: Config, h: History, anchors: seq<Observation>,
                            c: Checkpoint, done: seq<TransitionId>) {
    && c.ids != [] && c.previous != c.current == Fingerprint(Last(anchors)) == Fingerprint(Some(c.observation))
    && InFlight(codec, config, h, done, c.ids)
    && done + c.ids == IdsOf(h.committed) == Timeline(anchors)
  }

  // The journal tells the story of the anchors: completely when there is no
  // checkpoint, and up to the transition in flight otherwise.
  ghost predicate Exact(codec: Codec, config: Config, h: History, anchors: seq<Observation>, file: CheckpointFile) {
    match file
    case Absent => IdsOf(h.committed) == Timeline(anchors)
    case Untrusted => false
    case Saved(c) => Pending(codec, config, h, anchors, c) || exists done :: Converged(codec, config, h, anchors, c, done)
  }

  lemma ExactIgnoresTail(codec: Codec, config: Config, before: History, after: History,
                         anchors: seq<Observation>, file: CheckpointFile)
    requires Exact(codec, config, before, anchors, file) && Untouched(before, after)
    ensures Exact(codec, config, after, anchors, file)
  {
    if file.Saved? && !Pending(codec, config, before, anchors, file.checkpoint) {
      var done :| Converged(codec, config, before, anchors, file.checkpoint, done);
      assert Converged(codec, config, after, anchors, file.checkpoint, done);
    }
  }

  lemma InFlightAtStart(codec: Codec, config: Config, h: History, ids: seq<TransitionId>)
    requires Distinct(ids) && h.evicted <= |h.committed|
    requires Unseen(h, ids, |h.committed|) && Fits(codec, config, |h.committed|, ids)
    ensures InFlight(codec, config, h, IdsOf(h.committed), ids)
  {
    assert h.committed[..|h.committed|] == h.committed;
  }

  lemma StartIsExact(codec: Codec, config: Config, h: History, anchors: seq<Observation>, current: Observation)
    requires Exact(codec, config, h, anchors, Absent) && h.evicted <= |h.committed|
    requires var ids := TransitionIds(Last(anchors), current);
      ids != [] && Unseen(h, ids, |h.committed|) && Fits(codec, config, |h.committed|, ids)
    ensures Exact(codec, config, h, anchors, Saved(Planned(Last(anchors), current)))
  {
    TransitionIdsDistinct(Last(anchors), current);
    InFlightAtStart(codec, config, h, TransitionIds(Last(anchors), current));
    assert Pending(codec, config, h, anchors, Planned(Last(anchors), current));
  }

  lemma TimelineGrows(anchors: seq<Observation>, current: Observation)
    ensures Timeline(anchors + [current]) == Timeline(anchors) + TransitionIds(Last(anchors), current)
    ensures Last(anchors + [current]) == Some(current)
  {
    assert (anchors + [current])[..|anchors|] == anchors;
  }

  // Replacing the anchor once every planned record is committed.
  lemma ReplaceIsExact(codec: Codec, config: Config, h: History, anchors: seq<Observation>, c: Checkpoint, current: Observation)
    requires Pending(codec, config, h, anchors, c) && |h.committed| == |Timeline(anchors)| + |c.ids|
    requires TransitionIds(Last(anchors), current) == c.ids && Fingerprint(Some(current)) == c.current
    requires WellFormed(current) && (anchors != [] ==> WellFormed(Last(anchors).value))
    ensures Exact(codec, config, h, anchors + [current], Saved(c))
    ensures Exact(codec, config, h, anchors + [current], Absent)
  {
    TimelineGrows(anchors, current);
    InFlightComplete(codec, config, h, Timeline(anchors), c.ids);
    SilentIffSameFingerprint(Last(anchors), current);
    assert Converged(codec, config, h, anchors + [current], c, Timeline(anchors));
  }

  // Replacing the anchor by an observation that changes nothing.
  lemma SilentReplaceIsExact(codec: Codec, config: Config, h: History, anchors: seq<Observation>, file: CheckpointFile, current: Observation)
    requires Exact(codec, config, h, anchors, file) && Derive(Last(anchors), current) == []
    requires file.Saved? ==> !Pending(codec, config, h, anchors, file.checkpoint)
    requires WellFormed(current) && (anchors != [] ==> WellFormed(Last(anchors).value))
    ensures Exact(codec, config, h, anchors + [current], file)
    ensures Exact(codec, config, h, anchors + [current], Absent)
  {
    TimelineGrows(anchors, current);
    SilentIffSameFingerprint(Last(anchors), current);
    assert Timeline(anchors) + [] == Timeline(anchors);
    if file.Saved? {
      var done :| Converged(codec, config, h, anchors, file.checkpoint, done);
      assert Converged(codec, config, h, anchors + [current], file.checkpoint, done);
    }
  }

  lemma PlannedShape(previous: Option<Observation>, c: Checkpoint)
    requires c == Planned(previous, c.observation) && c.ids != []
    requires WellFormed(c.observation) && (previous.Some? ==> WellFormed(previous.value))
    ensures c.current == Fingerprint(Some(c.observation)) && c.previous == Fingerprint(previous) != c.current
    ensures LoadCheckpoint(Saved(c)) == Ok(Some(c))
  {
    assert |c.ids| == |Derive(previous, c.observation)|;
    SilentIffSameFingerprint(previous, c.observation);
    PlannedCheckpointIsAccepted(previous, c.observation);
  }

  lemma ConvergedShape(codec: Codec, config: Config, h: History, anchors: seq<Observation>, c: Checkpoint, done: seq<TransitionId>)
    requires Converged(codec, config, h, anchors, c, done)
    ensures c.current == Fingerprint(Some(c.observation)) == Fingerprint(Last(anchors))
    ensures LoadCheckpoint(Saved(c)) == Ok(Some(c))
  {
  }

  // Which of the two cases a saved checkpoint is in shows in its digests.
  lemma PendingIffPrevious(codec: Codec, config: Config, h: History, anchors: seq<Observation>, c: Checkpoint)
    requires Exact(codec, config, h, anchors, Saved(c))
    requires WellFormed(c.observation) && (anchors != [] ==> WellFormed(Last(anchors).value))
    ensures Pending(codec, config, h, anchors, c) <==> Fingerprint(Last(anchors)) != c.current
    ensures Pending(codec, config, h, anchors, c) ==> Fingerprint(Last(anchors)) == c.previous
    ensures c.current == Fingerprint(Some(c.observation))
    ensures LoadCheckpoint(Saved(c)) == Ok(Some(c))
  {
    if Pending(codec, config, h, anchors, c) {
      PlannedShape(Last(anchors), c);
    } else {
      var done :| Converged(codec, config, h, anchors, c, done);
      ConvergedShape(codec, config, h, anchors, c, done);
    }
  }

  // The ids a reader of the journal can still see.
  function Shown(h: History): seq<TransitionId> {
    if h.evicted <= |h.committed| then IdsOf(Surviving(h)) else []
  }

  lemma ShownIffRecorded(h: History, id: TransitionId)
    requires h.evicted <= |h.committed|
    ensures id in Shown(h) <==> exists r :: r in Surviving(h) && r.transitionId == id
  {
    if id in Shown(h) {
      var k :| 0 <= k < |Shown(h)| && Shown(h)[k] == id;
      assert Surviving(h)[k] in Surviving(h);
    }
  }

  lemma ShownAfterAppend(codec: Codec, config: Config, before: History, after: History, r: Record)
    requires Appended(codec, config, before, after, r) && before.evicted == after.evicted <= |before.committed|
    ensures Shown(after) == Shown(before) + [r.transitionId]
  {
    assert Surviving(after) == Surviving(before) + [r];
  }

  // What a reader sees after one more id was offered to the journal.
  function Tell(shown: seq<TransitionId>, id: TransitionId): seq<TransitionId> {
    if id in shown then shown else shown + [id]
  }

  function TellAll(shown: seq<TransitionId>, ids: seq<TransitionId>): seq<TransitionId> {
    if ids == [] then shown else Tell(TellAll(shown, ids[..|ids| - 1]), ids[|ids| - 1])
  }

  lemma {:induction false} TellAllFirst(shown: seq<TransitionId>, ids: seq<TransitionId>)
    requires ids != []
    ensures TellAll(shown, ids) == TellAll(Tell(shown, ids[0]), ids[1..])
    decreases |ids|
  {
    var n := |ids| - 1;
    if n > 0 {
      TellAllFirst(shown, ids[..n]);
      assert ids[1..][..n - 1] == ids[..n][1..];
    } else {
      assert ids[..0] == [];
    }
  }

  lemma {:induction false} TellAllResumes(shown: seq<TransitionId>, ids: seq<TransitionId>)
    ensures TellAll(shown, ids) == shown + Resume(shown, ids)
    decreases |ids|
  {
    if ids != [] {
      TellAllFirst(shown, ids);
      TellAllResumes(Tell(shown, ids[0]), ids[1..]);
    }
  }

  // The events of a transition, of which no more is needed here than which they are.
  method EventsBetween(previous: Option<Observation>, current: Observation) returns (events: seq<Event>)
    ensures events == Derive(previous, current)
  {
    events := DeriveEvents(previous, current);
  }

  // ---- journal access of the observer ---------------------------------------

  // Nothing committed is taken back, and nothing that was rotated away returns.
  ghost predicate Grown(before: History, after: History) {
    before.committed <= after.committed && before.evicted <= after.evicted
  }

  // One planned record, at whatever time the clock shows.
  method AppendNext(journal: Journal, id: TransitionId) returns (r: Reply<()>, ghost record: Record)
    requires journal.Valid() && !journal.readOnly
    modifies journal
    ensures journal.Valid() && Numbered(journal.history.committed)
    ensures Carries(record, id) && record.sequence == |old(journal.history).committed| + 1
    ensures Grown(old(journal.history), journal.history)
    ensures Untouched(old(journal.history), journal.history)
      || Appended(journal.codec, journal.config, old(journal.history), journal.history, record)
    ensures r.Completed? ==> !Untouched(old(journal.history), journal.history)
    ensures r.Rejected? ==> r.problem.JournalRefused? && Untouched(old(journal.history), journal.history)
    ensures r.Rejected? ==> |Line(journal.codec, record)| > journal.config.segmentBytes
  {
    var now: Epoch := *;
    record := Record(|journal.history.committed| + 1, now, id.event, id);
    var appended := journal.AppendEvent(id.event, id, now);
    match appended {
      case Crashed => r := Stopped;
      case Refused(fault) => r := Rejected(JournalRefused(fault));
      case Done(_) => r := Completed(());
    }
  }

  // has_transition as the ids a reader can see.
  method IsShown(journal: Journal, id: TransitionId) returns (r: Outcome<bool>)
    requires journal.Valid()
    modifies journal`segments, journal`meta
    ensures journal.Valid() && !r.Refused? && journal.history.evicted <= |journal.history.committed|
    ensures r.Done? ==> (r.value <==> id in Shown(journal.history))
  {
    r := journal.HasTransition(id);
    ShownIffRecorded(journal.history, id);
  }

  // In flight with at least the ids before `i` in the journal.
  ghost predicate FlownTo(codec: Codec, config: Config, h: History, done: seq<TransitionId>, ids: seq<TransitionId>, i: nat) {
    InFlight(codec, config, h, done, ids) && |h.committed| >= |done| + i
  }

  // What offering ids to the journal keeps, completed or not.
  ghost predicate Kept(codec: Codec, config: Config, before: History, now: History, done: seq<TransitionId>,
                       ids: seq<TransitionId>, from: nat) {
    && Grown(before, now)
    && (FlownTo(codec, config, before, done, ids, from) ==> FlownTo(codec, config, now, done, ids, from))
  }

  // The ids from `from` up to `i` were offered.
  ghost predicate Told(codec: Codec, config: Config, before: History, now: History, done: seq<TransitionId>,
                       ids: seq<TransitionId>, from: nat, i: nat)
    requires from <= i <= |ids|
  {
    && Grown(before, now)
    && (now.evicted == before.evicted ==> Shown(now) == TellAll(Shown(before), ids[from..i]))
    && (FlownTo(codec, config, before, done, ids, from) ==> FlownTo(codec, config, now, done, ids, i))
  }

  lemma TellAllExtends(shown: seq<TransitionId>, ids: seq<TransitionId>, i: nat)
    requires i < |ids|
    ensures TellAll(TellAll(shown, ids[0..i]), ids[i..i + 1]) == TellAll(shown, ids[0..i + 1])
  {
    assert ids[0..i + 1][..i] == ids[0..i];
    assert ids[i..i + 1][..0] == [];
  }

  lemma ToldExtends(codec: Codec, config: Config, before: History, mid: History, now: History, done: seq<TransitionId>,
                    ids: seq<TransitionId>, i: nat)
    requires i < |ids| && Told(codec, config, before, mid, done, ids, 0, i) && Told(codec, config, mid, now, done, ids, i, i + 1)
    ensures Told(codec, config, before, now, done, ids, 0, i + 1)
  {
    TellAllExtends(Shown(before), ids, i);
  }

  lemma SeenIsTold(codec: Codec, config: Config, h: History, done: seq<TransitionId>, ids: seq<TransitionId>, i: nat)
    requires i < |ids| && ids[i] in Shown(h)
    ensures Told(codec, config, h, h, done, ids, i, i + 1)
  {
    TellAllOne(Shown(h), ids, i);
    if FlownTo(codec, config, h, done, ids, i) {
      SeenIffCommitted(codec, config, h, done, ids, i);
    }
  }

  lemma NewIsNext(codec: Codec, config: Config, h: History, done: seq<TransitionId>, ids: seq<TransitionId>, i: nat)
    requires i < |ids| && ids[i] !in Shown(h) && FlownTo(codec, config, h, done, ids, i)
    ensures |h.committed| == |done| + i
  {
    SeenIffCommitted(codec, config, h, done, ids, i);
  }

  lemma AppendIsTold(codec: Codec, config: Config, before: History, now: History, r: Record, done: seq<TransitionId>,
                     ids: seq<TransitionId>, i: nat)
    requires i < |ids| && ids[i] !in Shown(before) && Carries(r, ids[i]) && before.evicted <= |before.committed|
    requires Appended(codec, config, before, now, r)
    requires FlownTo(codec, config, before, done, ids, i) ==> InFlight(codec, config, now, done, ids)
    ensures Told(codec, config, before, now, done, ids, i, i + 1)
  {
    TellAllOne(Shown(before), ids, i);
    if now.evicted == before.evicted {
      ShownAfterAppend(codec, config, before, now, r);
    }
  }

  method ResumeOne(journal: Journal, ids: seq<TransitionId>, i: nat, ghost done: seq<TransitionId>) returns (r: Reply<()>)
    requires journal.Valid() && !journal.readOnly && i < |ids|
    modifies journal
    ensures journal.Valid()
    ensures Kept(journal.codec, journal.config, old(journal.history), journal.history, done, ids, i)
    ensures r.Completed? ==> Told(journal.codec, journal.config, old(journal.history), journal.history, done, ids, i, i + 1)
    ensures old(FlownTo(journal.codec, journal.config, journal.history, done, ids, i)) ==> !r.Rejected?
    ensures r.Rejected? ==> r.problem.JournalRefused?
  {
    ghost var before := journal.history;
    ghost var flown := FlownTo(journal.codec, journal.config, before, done, ids, i);
    var seen := IsShown(journal, ids[i]);
    if !seen.Done? { return Stopped; }
    if seen.value {
      SeenIsTold(journal.codec, journal.config, before, done, ids, i);
      return Completed(());
    }
    ghost var record;
    r, record := AppendNext(journal, ids[i]);
    if flown {
      NewIsNext(journal.codec, journal.config, before, done, ids, i);
      InFlightFits(journal.codec, journal.config, before, record, done, ids);
      InFlightAppend(journal.codec, journal.config, before, journal.history, record, done, ids);
    }
    if r.Completed? {
      AppendIsTold(journal.codec, journal.config, before, journal.history, record, done, ids, i);
    }
  }

  lemma TellAllOne(shown: seq<TransitionId>, ids: seq<TransitionId>, i: nat)
    requires i < |ids|
    ensures TellAll(shown, ids[i..i + 1]) == Tell(shown, ids[i])
  {
    assert ids[i..i + 1][..0] == [];
  }

  // Append the planned ids that the journal does not show yet.
  method ResumeAppends(journal: Journal, ids: seq<TransitionId>, ghost done: seq<TransitionId>) returns (r: Reply<()>)
    requires journal.Valid() && !journal.readOnly
    modifies journal
    ensures journal.Valid() && Grown(old(journal.history), journal.history)
    ensures r.Completed? && journal.history.evicted == old(journal.history).evicted ==>
      Shown(journal.history) == Shown(old(journal.history)) + Resume(Shown(old(journal.history)), ids)
    ensures old(InFlight(journal.codec, journal.config, journal.history, done, ids)) ==>
      && InFlight(journal.codec, journal.config, journal.history, done, ids)
      && !r.Rejected?
      && (r.Completed? ==> |journal.history.committed| == |done| + |ids|)
    ensures r.Rejected? ==> r.problem.JournalRefused?
  {
    ghost var before := journal.history;
    assert ids[0..0] == [];
    for i := 0 to |ids|
      invariant journal.Valid()
      invariant Told(journal.codec, journal.config, before, journal.history, done, ids, 0, i)
    {
      ghost var mid := journal.history;
      r := ResumeOne(journal, ids, i, done);
      if !r.Completed? { return; }
      ToldExtends(journal.codec, journal.config, before, mid, journal.history, done, ids, i);
    }
    assert ids[0..|ids|] == ids;
    TellAllResumes(Shown(before), ids);
    return Completed(());
  }

  // Every planned id is looked up; the first one missing is reported.
  method AllShown(journal: Journal, ids: seq<TransitionId>) returns (r: Reply<()>)
    requires journal.Valid()
    modifies journal`segments, journal`meta
    ensures journal.Valid()
    ensures r.Completed? ==> forall id :: id in ids ==> id in Shown(journal.history)
    ensures r.Rejected? ==> exists id :: id in ids && id !in Shown(journal.history)
  {
    ghost var shown := Shown(journal.history);
    for i := 0 to |ids|
      invariant journal.Valid() && Shown(journal.history) == shown
      invariant forall k :: 0 <= k < i ==> ids[k] in shown
    {
      var seen := IsShown(journal, ids[i]);
      if !seen.Done? { return Stopped; }
      if !seen.value { return Rejected(PlannedEventMissing); }
    }
    return Completed(());
  }

  lemma ConvergedShowsAll(codec: Codec, config: Config, h: History, anchors: seq<Observation>, c: Checkpoint)
    requires Exact(codec, config, h, anchors, Saved(c)) && !Pending(codec, config, h, anchors, c)
    ensures forall id :: id in c.ids ==> id in Shown(h)
  {
    var done :| Converged(codec, config, h, anchors, c, done);
    forall i | 0 <= i < |c.ids| ensures c.ids[i] in Shown(h) {
      SeenIffCommitted(codec, config, h, done, c.ids, i);
      ShownIffRecorded(h, c.ids[i]);
    }
  }

  // The first `i` events of a new transition are in the journal.
  ghost predicate AppendedTo(codec: Codec, config: Config, before: History, now: History, done: seq<TransitionId>,
                             ids: seq<TransitionId>, resumable: bool, i: nat)
    requires i <= |ids|
  {
    && Grown(before, now) && IdsOf(now.committed) == IdsOf(before.committed) + ids[..i]
    && (resumable ==> InFlight(codec, config, now, done, ids) && |now.committed| == |done| + i)
  }

  lemma AppendedOneMore(codec: Codec, config: Config, before: History, mid: History, now: History, done: seq<TransitionId>,
                        ids: seq<TransitionId>, resumable: bool, i: nat, r: Record)
    requires i < |ids| && AppendedTo(codec, config, before, mid, done, ids, resumable, i)
    requires now.committed == mid.committed + [r] && mid.evicted <= now.evicted && Carries(r, ids[i])
    requires resumable ==> InFlight(codec, config, now, done, ids)
    ensures AppendedTo(codec, config, before, now, done, ids, resumable, i + 1)
  {
    IdsOfAppended(mid.committed, r);
    assert ids[..i + 1] == ids[..i] + [ids[i]];
  }

  method AppendStep(journal: Journal, ids: seq<TransitionId>, i: nat, ghost before: History, ghost done: seq<TransitionId>,
                    ghost resumable: bool) returns (r: Reply<()>)
    requires journal.Valid() && !journal.readOnly && i < |ids|
    requires AppendedTo(journal.codec, journal.config, before, journal.history, done, ids, resumable, i)
    modifies journal
    ensures journal.Valid() && Grown(before, journal.history)
    ensures resumable ==> InFlight(journal.codec, journal.config, journal.history, done, ids) && !r.Rejected?
    ensures r.Completed? ==> AppendedTo(journal.codec, journal.config, before, journal.history, done, ids, resumable, i + 1)
  {
    ghost var mid := journal.history;
    ghost var record;
    r, record := AppendNext(journal, ids[i]);
    if resumable {
      InFlightFits(journal.codec, journal.config, mid, record, done, ids);
      InFlightAppend(journal.codec, journal.config, mid, journal.history, record, done, ids);
    }
    if r.Completed? {
      AppendedOneMore(journal.codec, journal.config, before, mid, journal.history, done, ids, resumable, i, record);
    }
  }

  // The events of a new transition, behind its checkpoint.
  method AppendPlanned(journal: Journal, ids: seq<TransitionId>, ghost done: seq<TransitionId>, ghost resumable: bool)
    returns (r: Reply<()>)
    requires journal.Valid() && !journal.readOnly
    requires resumable ==> InFlight(journal.codec, journal.config, journal.history, done, ids)
    requires resumable ==> |journal.history.committed| == |done|
    modifies journal
    ensures journal.Valid() && Grown(old(journal.history), journal.history)
    ensures resumable ==> InFlight(journal.codec, journal.config, journal.history, done, ids) && !r.Rejected?
    ensures r.Completed? ==> IdsOf(journal.history.committed) == IdsOf(old(journal.history).committed) + ids
  {
    ghost var before := journal.history;
    assert IdsOf(before.committed) + ids[..0] == IdsOf(before.committed);
    for i := 0 to |ids|
      invariant journal.Valid()
      invariant AppendedTo(journal.codec, journal.config, before, journal.history, done, ids, resumable, i)
    {
      r := AppendStep(journal, ids, i, before, done, resumable);
      if !r.Completed? { return; }
    }
    assert ids[..|ids|] == ids;
    return Completed(());
  }

  // ---- the observer ---------------------------------------------------------

  // A transition that can be resumed from any crash point, when its checkpoint is
  // written over the history `h`.
  ghost predicate ResumableAt(codec: Codec, config: Config, h: History, ids: seq<TransitionId>) {
    Unseen(h, ids, |h.committed|) && Fits(codec, config, |h.committed|, ids)
  }

  // The document behind the checkpoint is the one that is committed again, from the
  // same anchor, or the anchor already shows it.
  predicate Continues(c: Checkpoint, anchor: Option<Observation>, current: Observation) {
    if Derive(anchor, current) == [] then Fingerprint(anchor) == c.current
    else c == Planned(anchor, current).(observation := c.observation) && Fingerprint(Some(c.observation)) == c.current
  }

  // The history and the anchors when a run came to write a new checkpoint.
  datatype Start = Start(history: History, anchors: seq<Observation>)

  ghost predicate Started(start: Start, before: History, after: History, anchors: seq<Observation>, file: CheckpointFile) {
    && Grown(before, start.history) && Grown(start.history, after)
    && (file == Absent ==> Untouched(before, start.history))
    && (start.anchors == anchors || Rejoined(anchors, file, start.anchors))
  }

  // The transition of this run could not have been resumed from every crash point.
  ghost predicate Hazardous(codec: Codec, config: Config, start: Option<Start>, live: Observation) {
    start.Some? && var ids := TransitionIds(Last(start.value.anchors), live);
    ids != [] && !ResumableAt(codec, config, start.value.history, ids)
  }

  // How many of these transitions could not.
  ghost function Risks(codec: Codec, config: Config, starts: seq<Option<Start>>, lives: seq<Observation>): nat
    requires |starts| == |lives|
  {
    if starts == [] then 0
    else
      var n := |starts| - 1;
      Risks(codec, config, starts[..n], lives[..n]) + if Hazardous(codec, config, starts[n], lives[n]) then 1 else 0
  }

  lemma {:induction false} OneMoreRisk(codec: Codec, config: Config, starts: seq<Option<Start>>, lives: seq<Observation>,
                                       start: Option<Start>, live: Observation)
    requires |starts| == |lives|
    ensures Risks(codec, config, starts + [start], lives + [live]) ==
      Risks(codec, config, starts, lives) + if Hazardous(codec, config, start, live) then 1 else 0
  {
    assert (starts + [start])[..|starts|] == starts && (lives + [live])[..|lives|] == lives;
  }

  lemma {:induction false} NoRisks(codec: Codec, config: Config, starts: seq<Option<Start>>, lives: seq<Observation>)
    requires |starts| == |lives| && forall i :: 0 <= i < |lives| ==> !Hazardous(codec, config, starts[i], lives[i])
    ensures Risks(codec, config, starts, lives) == 0
    decreases |starts|
  {
    if starts != [] { NoRisks(codec, config, starts[..|starts| - 1], lives[..|starts| - 1]); }
  }

  ghost predicate Precedes(a: Start, b: Start) {
    Grown(a.history, b.history) && a.anchors <= b.anchors
  }

  // The starts of consecutive runs, which began at `before` and ended at `after`.
  ghost predicate InOrder(starts: seq<Option<Start>>, before: Start, after: Start) {
    && Precedes(before, after)
    && (forall i :: 0 <= i < |starts| && starts[i].Some? ==> Precedes(before, starts[i].value) && Precedes(starts[i].value, after))
    && forall i, j :: 0 <= i < j < |starts| && starts[i].Some? && starts[j].Some? ==> Precedes(starts[i].value, starts[j].value)
  }

  lemma OneMoreStart(starts: seq<Option<Start>>, before: Start, mid: Start, start: Option<Start>, after: Start)
    requires InOrder(starts, before, mid) && Precedes(mid, after)
    requires start.Some? ==> Precedes(mid, start.value) && Precedes(start.value, after)
    ensures InOrder(starts + [start], before, after)
  {
  }

  // The transition of a checkpoint was added to the anchors: only one that is
  // consistent, and that the anchor did not show yet.
  ghost predicate Rejoined(before: seq<Observation>, file: CheckpointFile, after: seq<Observation>) {
    && file.Saved? && after == before + [file.checkpoint.observation]
    && Fingerprint(Some(file.checkpoint.observation)) == file.checkpoint.current != Fingerprint(Last(before))
  }

  // The condition is not always met: after A -> B -> A, in any run that has lost
  // nothing yet, the second A -> B cannot be resumed. A crash behind its checkpoint
  // and a recovery add B to the anchors but none of the events to the journal.
  lemma RepeatedTransitionIsLost(codec: Codec, config: Config, h: History, a: Observation, b: Observation)
    requires Exact(codec, config, h, [a, b, a], Absent) && h.evicted == 0
    requires Derive(Some(a), b) != []
    ensures var ids := Planned(Some(a), b).ids;
      && !ResumableAt(codec, config, h, ids) && Resume(Shown(h), ids) == []
      && !Exact(codec, config, h, [a, b, a, b], Absent)
  {
    var ids := Planned(Some(a), b).ids;
    RepeatedTimeline(a, b);
    assert Surviving(h) == h.committed;
    var once := Timeline([a, b, a]);
    assert Shown(h) == once;
    forall id | id in ids ensures id in Shown(h) {}
    ResumeNothingNew(Shown(h), ids);
    assert ids[0] in once;
    var k :| 0 <= k < |once| && once[k] == ids[0];
    assert h.committed[k].transitionId in ids;
  }

  lemma RepeatedTimeline(a: Observation, b: Observation)
    ensures var ids := TransitionIds(Some(a), b);
      && Timeline([a, b, a, b]) == Timeline([a, b, a]) + ids
      && forall id :: id in ids ==> id in Timeline([a, b, a])
  {
    assert [a, b, a, b][..3] == [a, b, a] && [a, b, a][..2] == [a, b] && [a, b][..1] == [a];
    assert Timeline([a, b]) == Timeline([a]) + TransitionIds(Some(a), b);
  }

  // Every list of anchors has such a history: its ids committed one after another.
  lemma StoryExists(codec: Codec, config: Config, anchors: seq<Observation>) returns (h: History)
    ensures LegalHistory(h) && h.evicted == 0 && Exact(codec, config, h, anchors, Absent)
  {
    var ids := Timeline(anchors);
    var times := seq(|ids|, (_: nat) => 0 as Epoch);
    var records := Stamped(0, times, ids);
    h := History(records, 0, if records == [] then [] else [records], []);
    assert records[0..] == records;
    assert Flatten([records]) == records by { FlattenFirst([records]); }
    assert IdsOf(records) == ids;
  }

  // What one run makes of the anchors: the checkpoint's transition if it was still
  // pending, then the live document.
  ghost predicate Advanced(before: seq<Observation>, file: CheckpointFile, live: Observation,
                           after: seq<Observation>, left: CheckpointFile) {
    || (left == file && (after == before || Rejoined(before, file, after)))
    || ((left == Absent || (left.Saved? && left.checkpoint.observation == live)) && Extends(before, file, live, after))
  }

  ghost predicate Extends(before: seq<Observation>, file: CheckpointFile, live: Observation, after: seq<Observation>) {
    || after == before || after == before + [live] || Rejoined(before, file, after)
    || (after != [] && after[|after| - 1] == live && Rejoined(before, file, after[..|after| - 1]))
  }

  // The documents that can become anchors: the one in the checkpoint, then the live ones.
  function Documents(file: CheckpointFile, lives: seq<Observation>): seq<Observation> {
    (if file.Saved? then [file.checkpoint.observation] else []) + lives
  }

  predicate Subsequence(a: seq<Observation>, s: seq<Observation>) {
    || a == []
    || (s != [] && ((a[|a| - 1] == s[|s| - 1] && Subsequence(a[..|a| - 1], s[..|s| - 1])) || Subsequence(a, s[..|s| - 1])))
  }

  lemma SubsequenceGrows(a: seq<Observation>, s: seq<Observation>, x: Observation)
    requires Subsequence(a, s)
    ensures Subsequence(a, s + [x]) && Subsequence(a + [x], s + [x])
  {
    assert (s + [x])[..|s|] == s && (a + [x])[..|a|] == a;
  }

  // Between runs: what was added to the anchors are documents in order, and so they
  // stay with the checkpoint's document if that is still to come.
  ghost predicate Traced(added: seq<Observation>, last: Option<Observation>, file: CheckpointFile, documents: seq<Observation>) {
    && Subsequence(added, documents)
    && (file.Saved? && last != Some(file.checkpoint.observation) ==>
          Subsequence(added + [file.checkpoint.observation], documents))
  }

  lemma TraceStarts(last: Option<Observation>, file: CheckpointFile)
    ensures Traced([], last, file, Documents(file, []))
  {
    if file.Saved? {
      var d := file.checkpoint.observation;
      SubsequenceGrows([], [], d);
      assert [] + [d] == [d] == Documents(file, []);
    }
  }

  // A run that reached neither its live document nor the end of the recovery.
  lemma TraceStays(added: seq<Observation>, last: Option<Observation>, file: CheckpointFile, live: Observation,
                   documents: seq<Observation>)
    requires Traced(added, last, file, documents)
    ensures Traced(added, last, file, documents + [live])
  {
    SubsequenceGrows(added, documents, live);
    if file.Saved? && last != Some(file.checkpoint.observation) {
      SubsequenceGrows(added + [file.checkpoint.observation], documents, live);
    }
  }

  // A run that came to its live document, with `added` before it.
  lemma TraceReaches(added: seq<Observation>, last: Option<Observation>, live: Observation, left: CheckpointFile,
                     documents: seq<Observation>)
    requires Subsequence(added, documents)
    requires left == Absent || (left.Saved? && left.checkpoint.observation == live)
    ensures Traced(added, last, left, documents + [live])
    ensures Traced(added + [live], Some(live), left, documents + [live])
  {
    SubsequenceGrows(added, documents, live);
  }

  lemma RejoinedIsNew(before: seq<Observation>, file: CheckpointFile, after: seq<Observation>)
    requires Rejoined(before, file, after)
    ensures file.Saved? && Last(before) != Some(file.checkpoint.observation)
    ensures after == before + [file.checkpoint.observation] && Last(after) == Some(file.checkpoint.observation)
  {
  }

  lemma AddedExtends(start: seq<Observation>, before: seq<Observation>, d: Observation)
    requires start <= before
    ensures start <= before + [d] && (before + [d])[|start|..] == before[|start|..] + [d]
    ensures Last(before + [d]) == Some(d)
  {
  }

  lemma TraceAdvances(start: seq<Observation>, before: seq<Observation>, file: CheckpointFile, live: Observation,
                      after: seq<Observation>, left: CheckpointFile, documents: seq<Observation>)
    requires start <= before && Traced(before[|start|..], Last(before), file, documents)
    requires Advanced(before, file, live, after, left)
    ensures start <= after && Traced(after[|start|..], Last(after), left, documents + [live])
  {
    var base := Base(before, file, after, live, left);
    if base != before {
      AddedExtends(start, before, file.checkpoint.observation);
    }
    assert start <= base && Subsequence(base[|start|..], documents);
    if left == file && after == base {
      TraceStays(base[|start|..], Last(base), file, live, documents);
    } else {
      AddedExtends(start, base, live);
      TraceReaches(base[|start|..], Last(base), live, left, documents);
    }
  }

  // The anchors once the recovery of a run was done.
  lemma Base(before: seq<Observation>, file: CheckpointFile, after: seq<Observation>, live: Observation, left: CheckpointFile)
    returns (base: seq<Observation>)
    requires Advanced(before, file, live, after, left)
    ensures base == before || (file.Saved? && base == before + [file.checkpoint.observation]
                               && Last(before) != Some(file.checkpoint.observation)
                               && Last(base) == Some(file.checkpoint.observation))
    ensures || (left == file && after == base)
            || ((left == Absent || (left.Saved? && left.checkpoint.observation == live)) && (after == base || after == base + [live]))
  {
    if after == before {
      base := before;
    } else if Rejoined(before, file, after) {
      base := after;
      RejoinedIsNew(before, file, after);
    } else if after == before + [live] {
      base := before;
    } else {
      base := after[..|after| - 1];
      RejoinedIsNew(before, file, base);
    }
  }

  // What any number of runs keep: `lives` are the documents they were given.
  ghost predicate Recounted(before: Start, file: CheckpointFile, lives: seq<Observation>, starts: seq<Option<Start>>,
                       now: Start, left: CheckpointFile) {
    && InOrder(starts, before, now)
    && Traced(now.anchors[|before.anchors|..], Last(now.anchors), left, Documents(file, lives))
  }

  lemma RunsBegin(before: Start, file: CheckpointFile)
    ensures Recounted(before, file, [], [], before, file)
  {
    TraceStarts(Last(before.anchors), file);
    assert before.anchors[|before.anchors|..] == [];
  }

  lemma OneMoreRun(before: Start, file: CheckpointFile, lives: seq<Observation>, starts: seq<Option<Start>>, mid: Start,
                   midway: CheckpointFile, live: Observation, start: Option<Start>, now: Start, left: CheckpointFile)
    requires Recounted(before, file, lives, starts, mid, midway) && Precedes(mid, now)
    requires start.Some? ==> Precedes(mid, start.value) && Precedes(start.value, now)
    requires Advanced(mid.anchors, midway, live, now.anchors, left)
    ensures Recounted(before, file, lives + [live], starts + [start], now, left)
  {
    OneMoreStart(starts, before, mid, start, now);
    TraceAdvances(before.anchors, mid.anchors, midway, live, now.anchors, left, Documents(file, lives));
    assert Documents(file, lives + [live]) == Documents(file, lives) + [live];
  }

  class ObserverState {
    const journal: Journal
    var anchor: Option<Observation>      // the observation document
    var checkpoint: CheckpointFile
    ghost var anchors: seq<Observation>  // every document the anchor has held
    // How often a transition that cannot be resumed safely was interrupted.
    ghost var hazards: nat

    constructor (journal: Journal)
      requires journal.Valid() && !journal.readOnly && journal.history == EMPTY
      ensures this.journal == journal && anchor == None && checkpoint == Absent && anchors == [] && hazards == 0 && Valid()
    {
      this.journal, anchor, checkpoint, anchors, hazards := journal, None, Absent, [], 0;
    }

    ghost predicate Valid()
      reads this, journal
    {
      && journal.Valid() && !journal.readOnly
      && WellPlaced()
      && (hazards == 0 ==> Exact(journal.codec, journal.config, journal.history, anchors, checkpoint))
    }

    // Every document is shaped as the observer writes it.
    ghost predicate WellPlaced()
      reads this
    {
      && anchor == Last(anchors)
      && (forall a :: a in anchors ==> WellFormed(a))
      && (checkpoint.Saved? ==> WellFormed(checkpoint.checkpoint.observation))
    }

    // The last two writes of every transition: the anchor, then the checkpoint.
    method Finish(current: Observation) returns (finished: bool)
      requires WellPlaced() && WellFormed(current) && journal.Valid() && !journal.readOnly
      requires hazards == 0 ==> Exact(journal.codec, journal.config, journal.history, anchors, checkpoint)
      requires hazards == 0 ==> Exact(journal.codec, journal.config, journal.history, anchors + [current], checkpoint)
      requires hazards == 0 ==> Exact(journal.codec, journal.config, journal.history, anchors + [current], Absent)
      modifies this`anchor, this`anchors, this`checkpoint
      ensures Valid()
      ensures anchors == old(anchors) || anchors == old(anchors) + [current]
      ensures finished ==> checkpoint == Absent && anchors == old(anchors) + [current]
      ensures checkpoint == old(checkpoint) || (checkpoint == Absent && anchors == old(anchors) + [current])
    {
      if * { return false; }
      anchor, anchors := Some(current), anchors + [current];
      if * { return false; }
      checkpoint := Absent;
      finished := *;
    }

    // The anchor is already in place: check that every planned event is there.
    method FinishConverged(c: Checkpoint) returns (r: Reply<Option<Observation>>)
      requires Valid() && checkpoint == Saved(c)
      requires hazards == 0 ==> !Pending(journal.codec, journal.config, journal.history, anchors, c)
      modifies this`checkpoint, journal`segments, journal`meta
      ensures Valid() && (checkpoint == old(checkpoint) || checkpoint == Absent)
      ensures hazards == 0 ==> !r.Rejected?
      ensures r.Completed? ==> checkpoint == Absent && r.value == anchor
      ensures r.Completed? ==> forall id :: id in c.ids ==> id in Shown(journal.history)
    {
      if hazards == 0 {
        ConvergedShowsAll(journal.codec, journal.config, journal.history, anchors, c);
      }
      var shown := AllShown(journal, c.ids);
      match shown {
        case Stopped => return Stopped;
        case Rejected(problem) => return Rejected(problem);
        case Completed(_) =>
      }
      if * { return Stopped; }
      checkpoint := Absent;
      return Completed(anchor);
    }

    // The missing events of the checkpoint. With all of them in, the anchor may follow.
    method AppendMissing(c: Checkpoint, current: Observation) returns (r: Reply<()>)
      requires Valid() && checkpoint == Saved(c) && WellFormed(current)
      requires c.ids == TransitionIds(anchor, current) && c.current == Fingerprint(Some(current))
      requires hazards == 0 ==> Pending(journal.codec, journal.config, journal.history, anchors, c)
      modifies journal
      ensures Valid() && Grown(old(journal.history), journal.history)
      ensures hazards == 0 ==> !r.Rejected?
      ensures r.Rejected? ==> r.problem.JournalRefused?
      ensures r.Completed? && journal.history.evicted == old(journal.history).evicted ==>
        Shown(journal.history) == Shown(old(journal.history)) + Resume(Shown(old(journal.history)), c.ids)
      ensures r.Completed? && hazards == 0 ==>
        && Exact(journal.codec, journal.config, journal.history, anchors + [current], Saved(c))
        && Exact(journal.codec, journal.config, journal.history, anchors + [current], Absent)
    {
      r := ResumeAppends(journal, c.ids, Timeline(anchors));
      if hazards == 0 && r.Completed? {
        ReplaceIsExact(journal.codec, journal.config, journal.history, anchors, c, current);
      }
    }

    // Complete the transition of the checkpoint: missing events, anchor, clear.
    method ResumeTransition(c: Checkpoint, current: Observation) returns (r: Reply<()>)
      requires Valid() && checkpoint == Saved(c) && WellFormed(current)
      requires c.ids == TransitionIds(anchor, current) && c.current == Fingerprint(Some(current))
      requires hazards == 0 ==> Pending(journal.codec, journal.config, journal.history, anchors, c)
      modifies this`anchor, this`checkpoint, this`anchors, journal
      ensures Valid() && Grown(old(journal.history), journal.history)
      ensures hazards == 0 ==> !r.Rejected?
      ensures r.Rejected? ==> r.problem.JournalRefused?
      ensures r.Completed? ==> checkpoint == Absent && anchor == Some(current)
      ensures r.Completed? && journal.history.evicted == old(journal.history).evicted ==>
        Shown(journal.history) == Shown(old(journal.history)) + Resume(Shown(old(journal.history)), c.ids)
      ensures anchors == old(anchors) || anchors == old(anchors) + [current]
      ensures checkpoint == old(checkpoint) || checkpoint == Absent
    {
      r := AppendMissing(c, current);
      if !r.Completed? { return; }
      var finished := Finish(current);
      r := if finished then Completed(()) else Stopped;
    }

    // recover_pending_transition
    method RecoverPending() returns (r: Reply<Option<Observation>>)
      requires Valid()
      modifies this`anchor, this`checkpoint, this`anchors, journal
      ensures Valid() && Grown(old(journal.history), journal.history)
      ensures hazards == 0 ==> !r.Rejected?
      ensures r.Completed? ==> checkpoint == Absent && (r.value.Some? ==> r.value == anchor)
      ensures checkpoint == old(checkpoint) || checkpoint == Absent
      ensures old(checkpoint) == Absent ==> Untouched(old(journal.history), journal.history)
      ensures anchors == old(anchors) || Rejoined(old(anchors), old(checkpoint), anchors)
    {
      var loaded := LoadCheckpoint(checkpoint);
      if loaded.Err? { return Rejected(loaded.error); }
      if loaded.value == None { return Completed(None); }
      var c := loaded.value.value;
      var current := c.observation;
      if hazards == 0 {
        PendingIffPrevious(journal.codec, journal.config, journal.history, anchors, c);
      }
      if Fingerprint(Some(current)) != c.current { return Rejected(InconsistentProjection); }
      var disk := Fingerprint(anchor);
      if disk == c.current {
        r := FinishConverged(c);
        return;
      }
      if disk != c.previous { return Rejected(AnchorMismatch); }
      var events := EventsBetween(anchor, current);
      var ids := Ids(disk, c.current, events);
      if ids != c.ids { return Rejected(IdsMismatch); }
      var resumed := ResumeTransition(c, current);
      match resumed {
        case Rejected(problem) => return Rejected(problem);
        case Stopped => return Stopped;
        case Completed(_) => return Completed(Some(current));
      }
    }

    ghost predicate Resumable(ids: seq<TransitionId>)
      reads this, journal
    {
      ResumableAt(journal.codec, journal.config, journal.history, ids)
    }

    // The checkpoint of a new transition becomes durable.
    method BeginTransition(current: Observation, ghost ids: seq<TransitionId>) returns (ghost resumable: bool)
      requires Valid() && checkpoint == Absent && WellFormed(current)
      requires ids == TransitionIds(anchor, current) && ids != []
      modifies this`checkpoint, this`hazards
      ensures Valid() && checkpoint == Saved(Planned(anchor, current))
      ensures hazards == if old(Resumable(ids)) then old(hazards) else old(hazards) + 1
      ensures resumable == (hazards == 0)
      ensures resumable ==> Pending(journal.codec, journal.config, journal.history, anchors, Planned(anchor, current))
      ensures resumable ==> |journal.history.committed| == |Timeline(anchors)|
    {
      if !Resumable(ids) {
        hazards := hazards + 1;
      }
      resumable := hazards == 0;
      if resumable {
        StartIsExact(journal.codec, journal.config, journal.history, anchors, current);
      }
      checkpoint := Saved(Planned(anchor, current));
    }

    // A new transition: checkpoint, every event, anchor, checkpoint cleared.
    method StartTransition(current: Observation, ids: seq<TransitionId>) returns (r: Reply<()>)
      requires Valid() && checkpoint == Absent && WellFormed(current)
      requires ids == TransitionIds(anchor, current) && ids != []
      modifies this, journal
      ensures Valid() && Grown(old(journal.history), journal.history)
      ensures checkpoint == Absent || (checkpoint.Saved? && checkpoint.checkpoint.observation == current)
      ensures hazards == old(hazards) || (hazards == old(hazards) + 1 && !r.Completed? && !old(Resumable(ids))
                                          && checkpoint == Saved(Planned(old(anchor), current)))
      ensures hazards == 0 ==> !r.Rejected?
      ensures r.Completed? ==> checkpoint == Absent && anchor == Some(current)
      ensures anchors == old(anchors) || anchors == old(anchors) + [current]
    {
      if * { return Stopped; }
      ghost var resumable := BeginTransition(current, ids);
      r := AppendPlanned(journal, ids, Timeline(anchors), resumable);
      if !r.Completed? { return; }
      r := ConcludeTransition(current, ids, old(hazards));
    }

    // Every event is in: the anchor, then the checkpoint. A transition whose checkpoint
    // is cleared was no hazard.
    method ConcludeTransition(current: Observation, ghost ids: seq<TransitionId>, ghost safe: nat) returns (r: Reply<()>)
      requires Valid() && checkpoint == Saved(Planned(anchor, current)) && WellFormed(current)
      requires ids == TransitionIds(anchor, current) && safe <= hazards
      requires safe == 0 ==> IdsOf(journal.history.committed) == Timeline(anchors) + ids
      requires hazards == 0 ==> Pending(journal.codec, journal.config, journal.history, anchors, Planned(anchor, current))
      modifies this`anchor, this`anchors, this`checkpoint, this`hazards
      ensures Valid() && !r.Rejected?
      ensures checkpoint == old(checkpoint) || checkpoint == Absent
      ensures hazards == if checkpoint == Absent then safe else old(hazards)
      ensures r.Completed? ==> checkpoint == Absent && anchor == Some(current)
      ensures anchors == old(anchors) || anchors == old(anchors) + [current]
    {
      TimelineGrows(anchors, current);
      if hazards == 0 {
        ReplaceIsExact(journal.codec, journal.config, journal.history, anchors, Planned(anchor, current), current);
      }
      var finished := Finish(current);
      if checkpoint == Absent { hazards := safe; }
      r := if finished then Completed(()) else Stopped;
    }

    // commit_transition. The observer passes the document it has just read.
    method CommitTransition(previous: Option<Observation>, current: Observation) returns (r: Reply<()>)
      requires Valid() && previous == anchor && WellFormed(current)
      modifies this, journal
      ensures Valid() && Grown(old(journal.history), journal.history)
      ensures old(checkpoint) == Absent ==>
        checkpoint == Absent || (checkpoint.Saved? && checkpoint.checkpoint.observation == current)
      ensures hazards == old(hazards)
        || (hazards == old(hazards) + 1 && !r.Completed? && TransitionIds(previous, current) != []
            && !old(Resumable(TransitionIds(previous, current))) && checkpoint == Saved(Planned(previous, current)))
      ensures hazards == 0 && old(checkpoint) == Absent ==> !r.Rejected?
      ensures r.Completed? ==> checkpoint == Absent && anchor == Some(current)
      ensures anchors == old(anchors) || anchors == old(anchors) + [current]
      ensures old(checkpoint).Saved? && !Continues(old(checkpoint).checkpoint, previous, current) ==>
        r.Rejected? && anchors == old(anchors) && checkpoint == old(checkpoint) && journal.history == old(journal.history)
    {
      var events := EventsBetween(previous, current);
      var loaded := LoadCheckpoint(checkpoint);
      if loaded.Err? { return Rejected(loaded.error); }
      if loaded.value.Some? {
        r := CommitBehindCheckpoint(loaded.value.value, current, events);
      } else if events == [] {
        r := ReplaceSilently(current);
      } else {
        r := StartTransition(current, Ids(Fingerprint(previous), Fingerprint(Some(current)), events));
      }
    }

    // commit_transition when a checkpoint is present: resume the very same
    // transition, and refuse any other.
    method CommitBehindCheckpoint(c: Checkpoint, current: Observation, events: seq<Event>) returns (r: Reply<()>)
      requires Valid() && checkpoint == Saved(c) && WellFormed(current) && events == Derive(anchor, current)
      modifies this`anchor, this`checkpoint, this`anchors, journal
      ensures Valid() && Grown(old(journal.history), journal.history)
      ensures r.Completed? ==> checkpoint == Absent && anchor == Some(current)
      ensures anchors == old(anchors) || anchors == old(anchors) + [current]
      ensures r == Rejected(RecoveryRequired) <==> !Continues(c, old(anchor), current)
      ensures !Continues(c, old(anchor), current) ==>
        anchors == old(anchors) && checkpoint == old(checkpoint) && journal.history == old(journal.history)
    {
      var was, now := Fingerprint(anchor), Fingerprint(Some(current));
      if hazards == 0 {
        PendingIffPrevious(journal.codec, journal.config, journal.history, anchors, c);
        SilentIffSameFingerprint(anchor, current);
      }
      if events == [] {
        if was != c.current { return Rejected(RecoveryRequired); }
        r := ReplaceSilently(current);
      } else {
        var ids := Ids(was, now, events);
        if !(c.previous == was && c.current == now && Fingerprint(Some(c.observation)) == now && c.ids == ids) {
          return Rejected(RecoveryRequired);
        }
        r := ResumeTransition(c, current);
      }
    }

    // Nothing meaningful changed: the anchor is refreshed without an event.
    method ReplaceSilently(current: Observation) returns (r: Reply<()>)
      requires Valid() && WellFormed(current) && Derive(anchor, current) == []
      requires hazards == 0 && checkpoint.Saved? ==>
        !Pending(journal.codec, journal.config, journal.history, anchors, checkpoint.checkpoint)
      modifies this`anchor, this`anchors, this`checkpoint
      ensures Valid() && !r.Rejected?
      ensures r.Completed? ==> checkpoint == Absent && anchors == old(anchors) + [current]
      ensures anchors == old(anchors) || anchors == old(anchors) + [current]
      ensures checkpoint == old(checkpoint) || checkpoint == Absent
    {
      if hazards == 0 {
        SilentReplaceIsExact(journal.codec, journal.config, journal.history, anchors, checkpoint, current);
      }
      var finished := Finish(current);
      r := if finished then Completed(()) else Stopped;
    }

    // One run of the observer: repair the journal, finish what was left in
    // flight, then record the live observation. `start` tells of the transition
    // whose checkpoint this run came to write.
    method Observe(live: Observation) returns (r: Reply<()>, ghost start: Option<Start>)
      requires Valid() && WellFormed(live)
      modifies this, journal
      ensures Valid() && Grown(old(journal.history), journal.history)
      ensures old(anchors) <= anchors && Advanced(old(anchors), old(checkpoint), live, anchors, checkpoint)
      ensures start.Some? ==>
        && Started(start.value, old(journal.history), journal.history, old(anchors), old(checkpoint))
        && start.value.anchors <= anchors
      ensures hazards == old(hazards)
        || (hazards == old(hazards) + 1 && !r.Completed? && Hazardous(journal.codec, journal.config, start, live)
            && checkpoint == Saved(Planned(Last(start.value.anchors), live)))
      ensures hazards == 0 ==> !r.Rejected?
      ensures r.Completed? ==> hazards == old(hazards) && checkpoint == Absent && anchor == Some(live)
      ensures r.Completed? && hazards == 0 ==> IdsOf(journal.history.committed) == Timeline(anchors)
    {
      start := None;
      var settled := Settle();
      if settled.Rejected? { return Rejected(settled.problem), start; }
      if settled.Stopped? { return Stopped, start; }
      start := Some(Start(journal.history, anchors));
      r := CommitTransition(settled.value, live);
    }

    // The first half of a run: the journal, then the pending transition. Returns the
    // document that the live one is compared with.
    method Settle() returns (r: Reply<Option<Observation>>)
      requires Valid()
      modifies this`anchor, this`checkpoint, this`anchors, journal
      ensures Valid() && Grown(old(journal.history), journal.history)
      ensures hazards == 0 ==> !r.Rejected?
      ensures r.Completed? ==> checkpoint == Absent && r.value == anchor
      ensures checkpoint == old(checkpoint) || checkpoint == Absent
      ensures old(checkpoint) == Absent ==> Untouched(old(journal.history), journal.history)
      ensures anchors == old(anchors) || Rejoined(old(anchors), old(checkpoint), anchors)
    {
      ghost var before := journal.history;
      var repaired := journal.RecoverJournal();
      if hazards == 0 {
        ExactIgnoresTail(journal.codec, journal.config, before, journal.history, anchors, checkpoint);
      }
      if !repaired.Done? { return Stopped; }
      r := RecoverPending();
      if r == Completed(None) { r := Completed(anchor); }
    }

    // Any number of runs, each of which may stop anywhere. Nothing committed or
    // anchored is ever taken back, and the new anchors are observed documents, each
    // at most once and in order. When every transition could be resumed, no run fails
    // closed, and whenever no checkpoint is left the ids ever committed are those
    // between consecutive anchors: following them leads to the state of the last one.
    method ObserveAll(lives: seq<Observation>) returns (failed: bool, ghost starts: seq<Option<Start>>)
      requires Valid() && forall live :: live in lives ==> WellFormed(live)
      modifies this, journal
      ensures Valid() && |starts| == |lives|
      ensures Grown(old(journal.history), journal.history) && old(anchors) <= anchors
      ensures Subsequence(anchors[|old(anchors)|..], Documents(old(checkpoint), lives))
      ensures InOrder(starts, Start(old(journal.history), old(anchors)), Start(journal.history, anchors))
      ensures old(hazards) <= hazards <= old(hazards) + Risks(journal.codec, journal.config, starts, lives)
      ensures (forall i :: 0 <= i < |lives| ==> !Hazardous(journal.codec, journal.config, starts[i], lives[i])) ==> hazards == old(hazards)
      ensures hazards == 0 ==> !failed
      ensures hazards == 0 && checkpoint == Absent ==> IdsOf(journal.history.committed) == Timeline(anchors)
      ensures hazards == 0 && checkpoint == Absent ==> FollowAll(IdsOf(journal.history.committed)) == Fingerprint(anchor)
    {
      failed, starts := Repeat(lives);
      if forall i :: 0 <= i < |lives| ==> !Hazardous(journal.codec, journal.config, starts[i], lives[i]) {
        NoRisks(journal.codec, journal.config, starts, lives);
      }
      if hazards == 0 && checkpoint == Absent { TimelineTells(anchors); }
    }

    method Repeat(lives: seq<Observation>) returns (failed: bool, ghost starts: seq<Option<Start>>)
      requires Valid() && forall live :: live in lives ==> WellFormed(live)
      modifies this, journal
      ensures Valid() && |starts| == |lives| && (hazards == 0 ==> !failed)
      ensures Recounted(Start(old(journal.history), old(anchors)), old(checkpoint), lives, starts,
                        Start(journal.history, anchors), checkpoint)
      ensures old(hazards) <= hazards <= old(hazards) + Risks(journal.codec, journal.config, starts, lives)
    {
      failed, starts := false, [];
      ghost var before, file := Start(journal.history, anchors), checkpoint;
      RunsBegin(before, file);
      for i := 0 to |lives|
        invariant Valid() && |starts| == i
        invariant Recounted(before, file, lives[..i], starts, Start(journal.history, anchors), checkpoint)
        invariant old(hazards) <= hazards <= old(hazards) + Risks(journal.codec, journal.config, starts, lives[..i])
        invariant hazards == 0 ==> !failed
      {
        var r;
        ghost var start;
        r, start := ObserveNext(lives, i, before, file, starts);
        failed, starts := failed || r.Rejected?, starts + [start];
      }
      assert lives[..|lives|] == lives;
    }

    // One more run, after those on the documents before `i`.
    method ObserveNext(lives: seq<Observation>, i: nat, ghost before: Start, ghost file: CheckpointFile,
                       ghost starts: seq<Option<Start>>) returns (r: Reply<()>, ghost start: Option<Start>)
      requires Valid() && i < |lives| && WellFormed(lives[i]) && |starts| == i
      requires Recounted(before, file, lives[..i], starts, Start(journal.history, anchors), checkpoint)
      modifies this, journal
      ensures Valid() && (hazards == 0 ==> !r.Rejected?)
      ensures Recounted(before, file, lives[..i + 1], starts + [start], Start(journal.history, anchors), checkpoint)
      ensures old(hazards) <= hazards
      ensures hazards + Risks(journal.codec, journal.config, starts, lives[..i]) <=
              old(hazards) + Risks(journal.codec, journal.config, starts + [start], lives[..i + 1])
    {
      ghost var mid, midway := Start(journal.history, anchors), checkpoint;
      r, start := Observe(lives[i]);
      assert lives[..i + 1] == lives[..i] + [lives[i]];
      OneMoreRisk(journal.codec, journal.config, starts, lives[..i], start, lives[i]);
      OneMoreRun(before, file, lives[..i], starts, mid, midway, lives[i], start, Start(journal.history, anchors), checkpoint);
    }
  }
}
