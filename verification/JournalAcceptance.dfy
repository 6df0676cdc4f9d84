// python/rill_xray_agent/event_journal.py, _recover, from the other side: which
// directories are accepted at all. A gap between sequence numbers, a missing segment,
// a torn line in a closed segment, a repeated number or a meta file ahead of the
// segments is refused; everything else is accepted.

module JournalAcceptance {
  import opened Collections
  import opened Events
  import opened JournalFormat
  import opened JournalHistory

  // ---- what the files hold ----------------------------------------------------

  predicate Torn(bytes: Bytes) {
    bytes != [] && bytes[|bytes| - 1] != NEWLINE
  }

  ghost predicate Decodes(codec: Codec, lines: seq<Bytes>, rs: seq<Record>) {
    |rs| == |lines| && forall k :: 0 <= k < |rs| ==> codec.decode(lines[k]) == Some(rs[k])
  }

  // Every complete line is a record, and only the newest segment may end in a torn one.
  ghost predicate Holds(codec: Codec, segments: seq<Segment>, groups: seq<seq<Record>>) {
    && |groups| == |segments|
    && (forall i :: 0 <= i < |groups| ==> Decodes(codec, Lines(SplitTail(segments[i].bytes).0), groups[i]))
    && (forall i :: 0 <= i < |segments| - 1 ==> !Torn(segments[i].bytes))
  }

  function Top(run: seq<Record>): int {
    if run == [] || run[|run| - 1].sequence < 0 then 0 else run[|run| - 1].sequence
  }

  // The records of the files are an unbroken run, in whatever order, over unbroken
  // segments, and meta claims no more than that.
  ghost predicate Accounts(codec: Codec, d: Disk, groups: seq<seq<Record>>, run: seq<Record>) {
    && Holds(codec, d.segments, groups) && multiset(run) == multiset(Flatten(groups)) && Run(run)
    && Adjacent(d.segments) && (d.meta.Some? ==> d.meta.value.nextSequence - 1 <= Top(run))
  }

  // ---- lines -------------------------------------------------------------------

  ghost predicate Unrepeated(events: seq<Record>) {
    forall i, j :: 0 <= i < j < |events| ==> events[i].sequence != events[j].sequence
  }

  lemma TailIffTorn(bytes: Bytes)
    requires bytes != []
    ensures SplitTail(bytes).1.Some? <==> Torn(bytes)
  {
  }

  lemma {:induction false} AbsorbSound(codec: Codec, segment: nat, lines: seq<Bytes>, before: seq<Record>) returns (rs: seq<Record>)
    requires AbsorbLines(codec, segment, lines, before).Ok? && Unrepeated(before)
    ensures AbsorbLines(codec, segment, lines, before) == Ok(before + rs)
    ensures Decodes(codec, lines, rs) && Unrepeated(before + rs)
    decreases |lines|
  {
    if lines == [] {
      rs := [];
      assert before + rs == before;
    } else {
      var n := |lines| - 1;
      var front := AbsorbSound(codec, segment, lines[..n], before);
      var r := codec.decode(lines[n]).value;
      rs := front + [r];
      assert before + rs == before + front + [r];
      forall k | 0 <= k < |rs| ensures codec.decode(lines[k]) == Some(rs[k]) {
        if k < n { assert lines[..n][k] == lines[k] && front[k] == rs[k]; }
      }
    }
  }

  lemma {:induction false} AbsorbComplete(codec: Codec, segment: nat, lines: seq<Bytes>, before: seq<Record>, rs: seq<Record>)
    requires Decodes(codec, lines, rs) && Unrepeated(before + rs)
    ensures AbsorbLines(codec, segment, lines, before) == Ok(before + rs)
    decreases |lines|
  {
    if lines == [] {
      assert before + rs == before;
    } else {
      var n := |lines| - 1;
      var all := before + rs;
      assert before + rs[..n] == all[..|all| - 1] && all == before + rs[..n] + [rs[n]];
      forall k | 0 <= k < n ensures codec.decode(lines[..n][k]) == Some(rs[..n][k]) { assert lines[..n][k] == lines[k]; }
      AbsorbComplete(codec, segment, lines[..n], before, rs[..n]);
      assert forall i :: 0 <= i < |all| - 1 ==> (before + rs[..n])[i] == all[i] && all[i].sequence != all[|all| - 1].sequence;
    }
  }

  // ---- segments ------------------------------------------------------------------

  lemma {:induction false} SegmentSound(codec: Codec, seg: Segment, newest: nat, before: seq<Record>) returns (rs: seq<Record>)
    requires ScanSegment(codec, seg, newest, before).Ok? && Unrepeated(before)
    ensures ScanSegment(codec, seg, newest, before) == Ok(before + rs) && Unrepeated(before + rs)
    ensures Decodes(codec, Lines(SplitTail(seg.bytes).0), rs) && (Torn(seg.bytes) ==> seg.number == newest)
  {
    if seg.bytes == [] {
      rs := [];
      assert before + rs == before && SplitTail(seg.bytes).0 == [];
    } else {
      TailIffTorn(seg.bytes);
      rs := AbsorbSound(codec, seg.number, Lines(SplitTail(seg.bytes).0), before);
    }
  }

  lemma {:induction false} SegmentComplete(codec: Codec, seg: Segment, newest: nat, before: seq<Record>, rs: seq<Record>)
    requires Decodes(codec, Lines(SplitTail(seg.bytes).0), rs) && Unrepeated(before + rs) && (Torn(seg.bytes) ==> seg.number == newest)
    ensures ScanSegment(codec, seg, newest, before) == Ok(before + rs)
  {
    if seg.bytes == [] {
      assert SplitTail(seg.bytes).0 == [] && before + rs == before;
    } else {
      TailIffTorn(seg.bytes);
      AbsorbComplete(codec, seg.number, Lines(SplitTail(seg.bytes).0), before, rs);
    }
  }

  // The first `k` segments of a listing whose newest is `newest`.
  ghost predicate HoldsUpTo(codec: Codec, segments: seq<Segment>, newest: nat, groups: seq<seq<Record>>, k: nat)
    requires k <= |segments|
  {
    && |groups| == k
    && (forall i :: 0 <= i < k ==> Decodes(codec, Lines(SplitTail(segments[i].bytes).0), groups[i]))
    && (forall i :: 0 <= i < k && Torn(segments[i].bytes) ==> segments[i].number == newest)
  }

  lemma {:induction false} OneMoreHeld(codec: Codec, segments: seq<Segment>, newest: nat, front: seq<seq<Record>>, rs: seq<Record>)
    requires |front| < |segments| && HoldsUpTo(codec, segments, newest, front, |front|)
    requires Decodes(codec, Lines(SplitTail(segments[|front|].bytes).0), rs)
    requires Torn(segments[|front|].bytes) ==> segments[|front|].number == newest
    ensures HoldsUpTo(codec, segments, newest, front + [rs], |front| + 1)
    ensures Flatten(front + [rs]) == Flatten(front) + rs
  {
    assert (front + [rs])[..|front|] == front;
    forall i | 0 <= i <= |front| ensures Decodes(codec, Lines(SplitTail(segments[i].bytes).0), (front + [rs])[i]) {}
  }

  lemma {:induction false} ScanSound(codec: Codec, segments: seq<Segment>, newest: nat, k: nat) returns (groups: seq<seq<Record>>)
    requires k <= |segments| && ScanSegments(codec, segments[..k], newest).Ok?
    ensures HoldsUpTo(codec, segments, newest, groups, k)
    ensures ScanSegments(codec, segments[..k], newest) == Ok(Flatten(groups)) && Unrepeated(Flatten(groups))
    decreases k
  {
    groups := [];
    if k > 0 {
      assert segments[..k][..k - 1] == segments[..k - 1] && segments[..k][k - 1] == segments[k - 1];
      var front := ScanSound(codec, segments, newest, k - 1);
      var rs := SegmentSound(codec, segments[k - 1], newest, Flatten(front));
      groups := front + [rs];
      OneMoreHeld(codec, segments, newest, front, rs);
    }
  }

  lemma UnrepeatedPrefix(groups: seq<seq<Record>>)
    requires groups != [] && Unrepeated(Flatten(groups))
    ensures Unrepeated(Flatten(groups[..|groups| - 1]))
  {
    var n := |groups| - 1;
    var all, front := Flatten(groups), Flatten(groups[..n]);
    assert all == front + groups[n];
    assert forall i :: 0 <= i < |front| ==> front[i] == all[i];
  }

  lemma {:induction false} ScanComplete(codec: Codec, segments: seq<Segment>, newest: nat, groups: seq<seq<Record>>, k: nat)
    requires k <= |segments| && HoldsUpTo(codec, segments, newest, groups, k) && Unrepeated(Flatten(groups))
    ensures ScanSegments(codec, segments[..k], newest) == Ok(Flatten(groups))
    decreases k
  {
    if k > 0 {
      assert segments[..k][..k - 1] == segments[..k - 1] && segments[..k][k - 1] == segments[k - 1];
      UnrepeatedPrefix(groups);
      ScanComplete(codec, segments, newest, groups[..k - 1], k - 1);
      SegmentComplete(codec, segments[k - 1], newest, Flatten(groups[..k - 1]), groups[k - 1]);
    }
  }

  // ---- the order of the records ---------------------------------------------------

  predicate Ordered(events: seq<Record>) {
    forall i, j :: 0 <= i < j < |events| ==> events[i].sequence <= events[j].sequence
  }

  lemma {:induction false} InsertPermutes(sorted: seq<Record>, r: Record)
    ensures multiset(Insert(sorted, r)) == multiset(sorted) + multiset{r}
    decreases |sorted|
  {
    if sorted != [] && sorted[|sorted| - 1].sequence > r.sequence {
      InsertPermutes(sorted[..|sorted| - 1], r);
      assert sorted == sorted[..|sorted| - 1] + [sorted[|sorted| - 1]];
    }
  }

  lemma {:induction false} InsertStaysBelow(sorted: seq<Record>, r: Record, bound: int)
    requires r.sequence <= bound && forall i :: 0 <= i < |sorted| ==> sorted[i].sequence <= bound
    ensures forall i :: 0 <= i < |Insert(sorted, r)| ==> Insert(sorted, r)[i].sequence <= bound
    decreases |sorted|
  {
    if sorted != [] && sorted[|sorted| - 1].sequence > r.sequence {
      InsertStaysBelow(sorted[..|sorted| - 1], r, bound);
    }
  }

  lemma {:induction false} InsertIsOrdered(sorted: seq<Record>, r: Record)
    requires Ordered(sorted)
    ensures Ordered(Insert(sorted, r))
    decreases |sorted|
  {
    if sorted != [] && sorted[|sorted| - 1].sequence > r.sequence {
      var n := |sorted| - 1;
      InsertIsOrdered(sorted[..n], r);
      InsertStaysBelow(sorted[..n], r, sorted[n].sequence);
    }
  }

  lemma {:induction false} SortedIs(events: seq<Record>)
    ensures multiset(Sorted(events)) == multiset(events) && Ordered(Sorted(events))
    decreases |events|
  {
    if events != [] {
      var n := |events| - 1;
      SortedIs(events[..n]);
      InsertPermutes(Sorted(events[..n]), events[n]);
      InsertIsOrdered(Sorted(events[..n]), events[n]);
      assert events == events[..n] + [events[n]];
    }
  }

  lemma LastIsTheSame(a: seq<Record>, b: seq<Record>)
    requires a != [] && b != [] && Ordered(a) && Run(b) && multiset(a) == multiset(b)
    ensures a[|a| - 1] == b[|b| - 1]
  {
    var x, y := a[|a| - 1], b[|b| - 1];
    assert x in multiset(a) && y in multiset(b);
    var i :| 0 <= i < |b| && b[i] == x;
    var j :| 0 <= j < |a| && a[j] == y;
  }

  // Put in order, a run is what sorting gives.
  lemma {:induction false} OrderIsUnique(a: seq<Record>, b: seq<Record>)
    requires Ordered(a) && Run(b) && multiset(a) == multiset(b)
    ensures a == b
    decreases |b|
  {
    SameLength(a, b);
    if b != [] {
      var n := |b| - 1;
      LastIsTheSame(a, b);
      SameWithoutLast(a, b);
      OrderIsUnique(a[..n], b[..n]);
      assert a == a[..n] + [a[n]];
      assert b == b[..n] + [b[n]];
    }
  }

  lemma SameLength(a: seq<Record>, b: seq<Record>)
    requires multiset(a) == multiset(b)
    ensures |a| == |b|
  {
    assert |multiset(a)| == |a| && |multiset(b)| == |b|;
  }

  lemma SameWithoutLast(a: seq<Record>, b: seq<Record>)
    requires a != [] && |a| == |b| && multiset(a) == multiset(b) && a[|a| - 1] == b[|a| - 1]
    ensures multiset(a[..|a| - 1]) == multiset(b[..|a| - 1])
  {
    WithoutLast(a);
    WithoutLast(b);
  }

  lemma WithoutLast(s: seq<Record>)
    requires s != []
    ensures multiset(s[..|s| - 1]) == multiset(s) - multiset{s[|s| - 1]}
  {
    assert s == s[..|s| - 1] + [s[|s| - 1]];
  }

  lemma {:induction false} ContinuousIsRun(events: seq<Record>)
    requires Continuous(events)
    ensures Run(events)
    decreases |events|
  {
    if events != [] {
      var n := |events| - 1;
      ContinuousIsRun(events[..n]);
      forall i | 0 <= i < n ensures events[n].sequence == events[i].sequence + (n - i) {
        assert events[n].sequence == events[n - 1].sequence + 1;
        assert i < n - 1 ==> events[..n][n - 1].sequence == events[..n][i].sequence + (n - 1 - i);
      }
      assert forall i, j :: 0 <= i < j < n ==> events[j] == events[..n][j] && events[i] == events[..n][i];
    }
  }

  // ---- the highest number -----------------------------------------------------------

  lemma {:induction false} MaxIs(events: seq<Record>)
    ensures 0 <= MaxSequence(events)
    ensures forall e :: e in events ==> e.sequence <= MaxSequence(events)
    ensures MaxSequence(events) == 0 || exists e :: e in events && e.sequence == MaxSequence(events)
    decreases |events|
  {
    if events != [] {
      var n := |events| - 1;
      MaxIs(events[..n]);
      assert events == events[..n] + [events[n]] && events[n] in events;
    }
  }

  lemma MaxOfAnyOrder(events: seq<Record>, run: seq<Record>)
    requires multiset(run) == multiset(events) && Run(run)
    ensures MaxSequence(events) == Top(run)
  {
    MaxIs(events);
    assert forall e :: e in events <==> e in multiset(events);
    assert forall e :: e in run <==> e in multiset(run);
    if run != [] { assert run[|run| - 1] in events; }
  }

  lemma RunIsUnrepeated(events: seq<Record>, run: seq<Record>)
    requires multiset(run) == multiset(events) && Run(run)
    ensures Unrepeated(events)
  {
    forall i, j | 0 <= i < j < |events| ensures events[i].sequence != events[j].sequence {
      if events[i].sequence == events[j].sequence {
        assert events[i] in multiset(events) && events[j] in multiset(events);
        var k :| 0 <= k < |run| && run[k] == events[i];
        var m :| 0 <= m < |run| && run[m] == events[j];
        assert k == m;
        TwiceIn(events, i, j);
        OnceIn(run, k);
        assert false;
      }
    }
  }

  lemma TwiceIn(events: seq<Record>, i: nat, j: nat)
    requires i < j < |events| && events[i] == events[j]
    ensures multiset(events)[events[i]] >= 2
  {
    assert events == events[..j] + events[j..];
    assert events[..j][i] == events[i] && events[j..][0] == events[j];
    assert events[i] in multiset(events[..j]) && events[j] in multiset(events[j..]);
  }

  lemma OnceIn(run: seq<Record>, k: nat)
    requires k < |run| && Run(run)
    ensures multiset(run)[run[k]] == 1
  {
    assert run == run[..k] + [run[k]] + run[k + 1..];
    assert run[k] !in run[..k] && run[k] !in run[k + 1..];
  }

  // ---- exactly which directories are accepted ------------------------------------------

  lemma NewestNumber(segments: seq<Segment>, groups: seq<seq<Record>>, codec: Codec)
    requires Listing(segments)
    ensures HoldsUpTo(codec, segments, Newest(segments), groups, |segments|) <==> Holds(codec, segments, groups)
  {
    OnlyTheLastIsNewest(segments);
    if HoldsUpTo(codec, segments, Newest(segments), groups, |segments|) {
      forall i | 0 <= i < |segments| - 1 ensures !Torn(segments[i].bytes) {
        assert segments[i].number != Newest(segments);
      }
    }
  }

  lemma OnlyTheLastIsNewest(segments: seq<Segment>)
    requires Listing(segments)
    ensures forall i :: 0 <= i < |segments| ==> (segments[i].number == Newest(segments) <==> i == |segments| - 1)
  {
    NewestIsLast(segments);
  }

  lemma {:induction false} AcceptedIsSound(codec: Codec, d: Disk) returns (groups: seq<seq<Record>>)
    requires Listing(d.segments) && Recover(codec, d).Ok?
    ensures var r := Recover(codec, d).value;
      && Accounts(codec, d, groups, r.events) && r.nextSequence == Top(r.events) + 1
      && r.nextSegment == if d.segments == [] then 1 else d.segments[|d.segments| - 1].number + 1
  {
    var s := d.segments;
    assert s[..|s|] == s;
    groups := ScanSound(codec, s, Newest(s), |s|);
    NewestNumber(s, groups, codec);
    NewestIsLast(s);
    SortedIs(Flatten(groups));
    ContinuousIsRun(Sorted(Flatten(groups)));
    MaxOfAnyOrder(Flatten(groups), Sorted(Flatten(groups)));
  }

  lemma {:induction false} SoundIsAccepted(codec: Codec, d: Disk, groups: seq<seq<Record>>, run: seq<Record>)
    requires Listing(d.segments) && Accounts(codec, d, groups, run)
    ensures Recover(codec, d).Ok? && Recover(codec, d).value.events == run
  {
    var s := d.segments;
    assert s[..|s|] == s;
    RunIsUnrepeated(Flatten(groups), run);
    NewestNumber(s, groups, codec);
    ScanComplete(codec, s, Newest(s), groups, |s|);
    SortedIs(Flatten(groups));
    OrderIsUnique(Sorted(Flatten(groups)), run);
    RunIsContinuous(run);
    MaxOfAnyOrder(Flatten(groups), run);
  }

  // Any directory, whatever it holds: accepted if and only if it accounts for an
  // unbroken run of records, which are then what recovery returns.
  lemma {:induction false} AcceptedIff(codec: Codec, d: Disk)
    requires Listing(d.segments)
    ensures Recover(codec, d).Ok? <==> exists groups, run :: Accounts(codec, d, groups, run)
    ensures forall groups, run :: Accounts(codec, d, groups, run) ==> Recover(codec, d).Ok? && Recover(codec, d).value.events == run
  {
    if Recover(codec, d).Ok? {
      var groups := AcceptedIsSound(codec, d);
      assert Accounts(codec, d, groups, Recover(codec, d).value.events);
    }
    forall groups, run | Accounts(codec, d, groups, run) ensures Recover(codec, d).Ok? && Recover(codec, d).value.events == run {
      SoundIsAccepted(codec, d, groups, run);
    }
  }
}
