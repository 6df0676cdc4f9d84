// What the journal files mean: every record that was ever committed, which
// prefix of them has been rotated away, and how the surviving suffix is laid
// out. Each durable write of the journal keeps the files legal.

module JournalHistory {
  import opened Collections
  import opened Events
  import opened JournalFormat

  // committed: every record whose line and newline became durable, in order.
  // evicted:   how many of the oldest ones were rotated away.
  // groups:    the surviving records, one group for each segment.
  // tail:      torn bytes behind the last newline of the newest segment.
  datatype History = History(committed: seq<Record>, evicted: nat, groups: seq<seq<Record>>, tail: Bytes)

  const EMPTY: History := History([], 0, [], [])

  function Flatten(groups: seq<seq<Record>>): seq<Record> {
    if groups == [] then [] else Flatten(groups[..|groups| - 1]) + groups[|groups| - 1]
  }

  function Surviving(h: History): seq<Record>
    requires h.evicted <= |h.committed|
  {
    h.committed[h.evicted..]
  }

  ghost predicate Legal(codec: Codec, config: Config, d: Disk, h: History) {
    && LegalHistory(h)
    && LegalSegments(codec, config, d.segments, h)
    && (d.meta.Some? ==> d.meta.value.nextSequence <= |h.committed| + 1)
  }

  ghost predicate LegalHistory(h: History) {
    && (h.evicted < |h.committed| || h.evicted == |h.committed| == 0)
    && Surviving(h) == Flatten(h.groups)
    && NEWLINE !in h.tail
    && (h.groups == [] ==> h.tail == [])
    && (forall i :: 0 <= i < |h.committed| ==> h.committed[i].sequence == i + 1)
  }

  // The bytes of the segment that holds group i.
  function Content(codec: Codec, h: History, i: nat): Bytes
    requires i < |h.groups|
  {
    EncodeAll(codec, h.groups[i]) + (if i == |h.groups| - 1 then h.tail else [])
  }

  ghost predicate LegalSegments(codec: Codec, config: Config, segments: seq<Segment>, h: History) {
    && |segments| == |h.groups|
    && (segments != [] ==> segments[0].number >= 1)
    && (forall i :: 0 <= i < |segments| ==> segments[i].number == segments[0].number + i)
    && (forall i :: 0 <= i < |segments| ==> segments[i].bytes == Content(codec, h, i))
    && (forall i :: 0 <= i < |segments| ==> |segments[i].bytes| <= config.segmentBytes)
  }

  // ---- recovery accepts every legal disk --------------------------------------

  lemma {:induction false} FlattenPrefix(groups: seq<seq<Record>>, k: nat)
    requires k <= |groups|
    ensures Flatten(groups[..k]) <= Flatten(groups)
    decreases |groups| - k
  {
    if k == |groups| {
      assert groups[..k] == groups;
    } else {
      assert groups[..k + 1][..k] == groups[..k];
      FlattenPrefix(groups, k + 1);
    }
  }

  lemma SurvivingRun(h: History)
    requires LegalHistory(h)
    ensures Run(Surviving(h))
  {
  }

  lemma PrefixRun(h: History, k: nat)
    requires LegalHistory(h) && k <= |h.groups|
    ensures Run(Flatten(h.groups[..k]))
  {
    SurvivingRun(h);
    FlattenPrefix(h.groups, k);
    var all, some := Flatten(h.groups), Flatten(h.groups[..k]);
    assert some == all[..|some|];
  }

  lemma ScanLegalSegment(codec: Codec, seg: Segment, g: seq<Record>, tail: Bytes, newest: nat, before: seq<Record>)
    requires Lawful(codec) && Run(before + g) && NEWLINE !in tail
    requires seg.bytes == EncodeAll(codec, g) + tail
    requires tail != [] ==> seg.number == newest
    ensures ScanSegment(codec, seg, newest, before) == Ok(before + g)
  {
    EncodeAllEndsInNewline(codec, g);
    if seg.bytes == [] {
      assert before + g == before;
    } else {
      SplitTailOf(EncodeAll(codec, g), tail);
      LinesOfEncodings(codec, g);
      AbsorbEncodings(codec, seg.number, before, g);
    }
  }

  lemma {:induction false} ScanLegal(codec: Codec, config: Config, segments: seq<Segment>, h: History, k: nat)
    requires Lawful(codec) && LegalHistory(h) && LegalSegments(codec, config, segments, h) && k <= |segments|
    requires segments != [] ==> Newest(segments) == segments[|segments| - 1].number
    ensures ScanSegments(codec, segments[..k], Newest(segments)) == Ok(Flatten(h.groups[..k]))
    decreases k
  {
    if k > 0 {
      var i := k - 1;
      ScanLegal(codec, config, segments, h, i);
      assert segments[..k][..i] == segments[..i] && h.groups[..k][..i] == h.groups[..i];
      var before, g := Flatten(h.groups[..i]), h.groups[i];
      assert before + g == Flatten(h.groups[..k]);
      PrefixRun(h, k);
      var tail := if i == |h.groups| - 1 then h.tail else [];
      ScanLegalSegment(codec, segments[i], g, tail, Newest(segments), before);
    }
  }

  lemma LegalListing(codec: Codec, config: Config, segments: seq<Segment>, h: History)
    requires LegalSegments(codec, config, segments, h)
    ensures Listing(segments)
    ensures Adjacent(segments)
    ensures segments != [] ==> Newest(segments) == segments[|segments| - 1].number
  {
    NewestIsLast(segments);
  }

  lemma ScanLegalAll(codec: Codec, config: Config, segments: seq<Segment>, h: History)
    requires Lawful(codec) && LegalHistory(h) && LegalSegments(codec, config, segments, h)
    requires segments != [] ==> Newest(segments) == segments[|segments| - 1].number
    ensures ScanSegments(codec, segments, Newest(segments)) == Ok(Surviving(h))
  {
    ScanLegal(codec, config, segments, h, |segments|);
    assert segments[..|segments|] == segments && h.groups[..|h.groups|] == h.groups;
  }

  // What recovery makes of a scan that found one unbroken run.
  lemma RecoverOfRun(codec: Codec, d: Disk, events: seq<Record>)
    requires ScanSegments(codec, d.segments, Newest(d.segments)) == Ok(events)
    requires Run(events) && (events != [] ==> events[0].sequence >= 1) && Adjacent(d.segments)
    requires var top := if events == [] then 0 else events[|events| - 1].sequence;
      d.meta.Some? ==> d.meta.value.nextSequence <= top + 1
    ensures Recover(codec, d).Ok?
    ensures var r := Recover(codec, d).value;
      && r.events == events
      && r.nextSequence == (if events == [] then 0 else events[|events| - 1].sequence) + 1
      && r.nextSegment == Newest(d.segments) + 1
  {
    SortedRun(events);
    RunIsContinuous(events);
    if events != [] {
      MaxOfRun(events);
    }
  }

  // Every legal disk is accepted: the events are exactly the committed records
  // that were not rotated away, without a gap, and numbering resumes after the
  // last committed record.
  lemma LegalDiskIsAccepted(codec: Codec, config: Config, d: Disk, h: History)
    requires Lawful(codec) && Legal(codec, config, d, h)
    ensures Listing(d.segments)
    ensures Recover(codec, d).Ok?
    ensures var r := Recover(codec, d).value;
      && r.events == Surviving(h)
      && r.nextSequence == |h.committed| + 1
      && r.nextSegment == Newest(d.segments) + 1
  {
    LegalListing(codec, config, d.segments, h);
    ScanLegalAll(codec, config, d.segments, h);
    SurvivingRun(h);
    RecoverOfRun(codec, d, Surviving(h));
  }

  // ---- each durable write keeps the disk legal --------------------------------

  lemma RepairKeepsLegal(codec: Codec, config: Config, d: Disk, h: History)
    requires Lawful(codec) && Legal(codec, config, d, h)
    ensures Legal(codec, config, d.(segments := Repaired(d.segments)), h.(tail := []))
  {
    if d.segments != [] && d.segments[|d.segments| - 1].bytes != [] {
      var n := |d.segments| - 1;
      EncodeAllEndsInNewline(codec, h.groups[n]);
      SplitTailOf(EncodeAll(codec, h.groups[n]), h.tail);
      var fixed := h.(tail := []);
      forall i | 0 <= i <= n ensures Repaired(d.segments)[i].bytes == Content(codec, fixed, i) {
        assert EncodeAll(codec, h.groups[i]) + [] == EncodeAll(codec, h.groups[i]);
      }
    }
  }

  // Files and history after the active segment was created.
  function Opened(h: History): History {
    h.(groups := h.groups + [[]])
  }

  lemma OpenedHistory(h: History)
    requires LegalHistory(h) && h.tail == []
    ensures LegalHistory(Opened(h))
  {
    var o := Opened(h);
    assert o.groups[..|h.groups|] == h.groups;
    assert Flatten(o.groups) == Flatten(h.groups) + [];
  }

  lemma OpenKeepsLegal(codec: Codec, config: Config, segments: seq<Segment>, h: History)
    requires LegalHistory(h) && LegalSegments(codec, config, segments, h) && h.tail == []
    ensures var created := Segment(Newest(segments) + 1, []);
      LegalHistory(Opened(h)) && LegalSegments(codec, config, segments + [created], Opened(h))
  {
    OpenedHistory(h);
    NewestIsLast(segments);
    var t, o := segments + [Segment(Newest(segments) + 1, [])], Opened(h);
    assert segments == [] ==> Newest(segments) == 0;
    forall i | 0 <= i < |t| ensures t[i].bytes == Content(codec, o, i) && t[i].number == t[0].number + i {
      if i < |segments| {
        assert t[i] == segments[i] && o.groups[i] == h.groups[i];
        assert EncodeAll(codec, h.groups[i]) + [] == EncodeAll(codec, h.groups[i]);
      }
    }
  }

  predicate NeedsSegment(config: Config, segments: seq<Segment>, length: nat) {
    segments == [] || |segments[|segments| - 1].bytes| + length > config.segmentBytes
  }

  // The segments once the newest has room for a line.
  function Active(config: Config, segments: seq<Segment>, length: nat): seq<Segment> {
    if NeedsSegment(config, segments, length) then segments + [Segment(Newest(segments) + 1, [])] else segments
  }

  function ActiveHistory(config: Config, segments: seq<Segment>, h: History, length: nat): History {
    if NeedsSegment(config, segments, length) then Opened(h) else h
  }

  lemma ActiveKeepsLegal(codec: Codec, config: Config, segments: seq<Segment>, h: History, length: nat)
    requires LegalHistory(h) && LegalSegments(codec, config, segments, h) && h.tail == [] && length <= config.segmentBytes
    ensures var t, o := Active(config, segments, length), ActiveHistory(config, segments, h, length);
      && LegalHistory(o) && LegalSegments(codec, config, t, o)
      && t != [] && |t[|t| - 1].bytes| + length <= config.segmentBytes
  {
    if NeedsSegment(config, segments, length) {
      OpenKeepsLegal(codec, config, segments, h);
    }
  }

  // The newest segment with more bytes behind it.
  function Extended(segments: seq<Segment>, bytes: Bytes): seq<Segment>
    requires segments != []
  {
    var last := segments[|segments| - 1];
    segments[|segments| - 1 := last.(bytes := last.bytes + bytes)]
  }

  // A crash in the middle of a line leaves a strict prefix of it.
  lemma TornWriteKeepsLegal(codec: Codec, config: Config, segments: seq<Segment>, h: History, r: Record, k: nat)
    requires Lawful(codec) && LegalHistory(h) && LegalSegments(codec, config, segments, h)
    requires segments != [] && h.tail == []
    requires k < |Line(codec, r)| && |segments[|segments| - 1].bytes| + |Line(codec, r)| <= config.segmentBytes
    ensures var torn := Line(codec, r)[..k];
      LegalHistory(h.(tail := torn)) && LegalSegments(codec, config, Extended(segments, torn), h.(tail := torn))
  {
    var torn := Line(codec, r)[..k];
    var t, u := Extended(segments, torn), h.(tail := torn);
    assert torn == codec.encode(r)[..k];
    forall i | 0 <= i < |t| ensures t[i].bytes == Content(codec, u, i) {
      assert EncodeAll(codec, h.groups[i]) + [] == EncodeAll(codec, h.groups[i]);
    }
  }

  function Committed(h: History, r: Record): History
    requires h.groups != []
  {
    var n := |h.groups| - 1;
    h.(committed := h.committed + [r], groups := h.groups[..n] + [h.groups[n] + [r]])
  }

  lemma CommitKeepsLegal(codec: Codec, config: Config, segments: seq<Segment>, h: History, r: Record)
    requires LegalHistory(h) && LegalSegments(codec, config, segments, h)
    requires segments != [] && h.tail == [] && r.sequence == |h.committed| + 1
    requires |segments[|segments| - 1].bytes| + |Line(codec, r)| <= config.segmentBytes
    ensures var line := Line(codec, r);
      LegalHistory(Committed(h, r)) && LegalSegments(codec, config, Extended(segments, line), Committed(h, r))
  {
    var n, t, u := |h.groups| - 1, Extended(segments, Line(codec, r)), Committed(h, r);
    assert u.groups[..n] == h.groups[..n];
    assert Flatten(u.groups) == Flatten(h.groups) + [r];
    assert (h.groups[n] + [r])[..|h.groups[n]|] == h.groups[n];
    forall i | 0 <= i < |t| ensures t[i].bytes == Content(codec, u, i) {
      assert EncodeAll(codec, u.groups[i]) + [] == EncodeAll(codec, u.groups[i]);
    }
  }

  // ---- rotation -------------------------------------------------------------

  function TotalSize(segments: seq<Segment>): nat {
    if segments == [] then 0 else TotalSize(segments[..|segments| - 1]) + |segments[|segments| - 1].bytes|
  }

  function SizeOf(codec: Codec, rs: seq<Record>): nat {
    |EncodeAll(codec, rs)|
  }

  lemma {:induction false} FlattenFirst(groups: seq<seq<Record>>)
    requires groups != []
    ensures Flatten(groups) == groups[0] + Flatten(groups[1..])
    decreases |groups|
  {
    if |groups| > 1 {
      var n := |groups| - 1;
      FlattenFirst(groups[..n]);
      assert groups[..n][1..] == groups[1..][..n - 1];
    } else {
      assert groups[..0] == [] && groups[1..] == [];
      assert Flatten(groups) == [] + groups[0];
    }
  }

  lemma {:induction false} TotalSizeFirst(segments: seq<Segment>)
    requires segments != []
    ensures TotalSize(segments) == |segments[0].bytes| + TotalSize(segments[1..])
    decreases |segments|
  {
    if |segments| > 1 {
      var n := |segments| - 1;
      TotalSizeFirst(segments[..n]);
      assert segments[..n][1..] == segments[1..][..n - 1];
    } else {
      assert segments[..0] == [] && segments[1..] == [];
    }
  }

  // Without a torn tail the files hold exactly the surviving records.
  lemma {:induction false} TotalSizeIsSurvivingSize(codec: Codec, segments: seq<Segment>, groups: seq<seq<Record>>)
    requires |segments| == |groups|
    requires forall i :: 0 <= i < |groups| ==> segments[i].bytes == EncodeAll(codec, groups[i])
    ensures TotalSize(segments) == SizeOf(codec, Flatten(groups))
    decreases |groups|
  {
    if groups != [] {
      var n := |groups| - 1;
      TotalSizeIsSurvivingSize(codec, segments[..n], groups[..n]);
      EncodeAllConcat(codec, Flatten(groups[..n]), groups[n]);
    }
  }

  function Rotated(h: History): History
    requires h.groups != []
  {
    h.(evicted := h.evicted + |h.groups[0]|, groups := h.groups[1..])
  }

  // More than total - segment bytes of newer records lie behind record k.
  ghost predicate FarBehind(codec: Codec, config: Config, committed: seq<Record>, k: nat)
    requires k < |committed|
  {
    SizeOf(codec, committed[k + 1..]) > config.totalBytes - config.segmentBytes
  }

  lemma RotatedHistory(h: History)
    requires LegalHistory(h) && |h.groups| > 1 && h.groups[|h.groups| - 1] != []
    ensures LegalHistory(Rotated(h)) && Rotated(h).evicted < |h.committed|
    ensures Flatten(Rotated(h).groups) == h.committed[Rotated(h).evicted..]
  {
    var u := Rotated(h);
    FlattenFirst(h.groups);
    assert Flatten(u.groups) == h.committed[h.evicted..][|h.groups[0]|..];
    var n := |u.groups| - 1;
    assert u.groups[n] == h.groups[n + 1];
    assert Flatten(u.groups) == Flatten(u.groups[..n]) + u.groups[n];
  }

  lemma SizeOfSuffix(codec: Codec, rs: seq<Record>, i: nat, j: nat)
    requires i <= j <= |rs|
    ensures SizeOf(codec, rs[i..]) >= SizeOf(codec, rs[j..])
  {
    assert rs[i..] == rs[i..j] + rs[j..];
    EncodeAllConcat(codec, rs[i..j], rs[j..]);
  }

  lemma RotatedSegments(codec: Codec, config: Config, segments: seq<Segment>, h: History)
    requires LegalSegments(codec, config, segments, h) && |segments| > 1 && h.tail == []
    ensures LegalSegments(codec, config, segments[1..], Rotated(h))
    ensures forall i :: 0 <= i < |segments| - 1 ==> segments[1..][i].bytes == EncodeAll(codec, Rotated(h).groups[i])
  {
    forall i | 0 <= i < |segments| - 1
      ensures segments[1..][i].bytes == Content(codec, Rotated(h), i) == EncodeAll(codec, Rotated(h).groups[i])
    {
      assert segments[1..][i].bytes == segments[i + 1].bytes == Content(codec, h, i + 1);
      assert EncodeAll(codec, h.groups[i + 1]) + [] == EncodeAll(codec, h.groups[i + 1]);
    }
  }

  lemma RotationIsFarBehind(codec: Codec, config: Config, committed: seq<Record>, e: nat, k: nat,
                            segments: seq<Segment>, groups: seq<seq<Record>>)
    requires segments != [] && |segments[0].bytes| <= config.segmentBytes && TotalSize(segments) > config.totalBytes
    requires |groups| == |segments| - 1
    requires forall i :: 0 <= i < |groups| ==> segments[1..][i].bytes == EncodeAll(codec, groups[i])
    requires k < e <= |committed| && committed[e..] == Flatten(groups)
    ensures FarBehind(codec, config, committed, k)
  {
    TotalSizeFirst(segments);
    TotalSizeIsSurvivingSize(codec, segments[1..], groups);
    SizeOfSuffix(codec, committed, k + 1, e);
  }

  // Deleting the oldest segment while the total is over the bound keeps the
  // disk legal, and deletes only records that are far behind.
  lemma RotateKeepsLegal(codec: Codec, config: Config, segments: seq<Segment>, h: History)
    requires LegalHistory(h) && LegalSegments(codec, config, segments, h)
    requires |segments| > 1 && h.tail == [] && h.groups[|h.groups| - 1] != []
    requires TotalSize(segments) > config.totalBytes
    ensures LegalHistory(Rotated(h)) && LegalSegments(codec, config, segments[1..], Rotated(h))
    ensures forall k :: h.evicted <= k < Rotated(h).evicted ==> k < |h.committed| && FarBehind(codec, config, h.committed, k)
  {
    RotatedHistory(h);
    RotatedSegments(codec, config, segments, h);
    assert |segments[0].bytes| <= config.segmentBytes;
    forall k: nat | h.evicted <= k < Rotated(h).evicted ensures FarBehind(codec, config, h.committed, k) {
      RotationIsFarBehind(codec, config, h.committed, Rotated(h).evicted, k, segments, Rotated(h).groups);
    }
  }

  // One record was committed, with whatever rotation that caused.
  ghost predicate Appended(codec: Codec, config: Config, before: History, after: History, r: Record) {
    && after.committed == before.committed + [r]
    && before.evicted <= after.evicted <= |after.committed|
    && forall k :: before.evicted <= k < after.evicted ==> FarBehind(codec, config, after.committed, k)
  }

  // Nothing was committed and nothing was rotated away.
  predicate Untouched(before: History, after: History) {
    after.committed == before.committed && after.evicted == before.evicted
  }
}
