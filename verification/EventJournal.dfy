// python/rill_xray_agent/event_journal.py, the write side. A call may stop
// after any durable write (`Crashed`); inside a line write any strict prefix of
// the line may be left behind.

module EventJournal {
  import opened Collections
  import opened Events
  import opened JournalFormat
  import opened JournalHistory

  datatype Outcome<+T> = Done(value: T) | Refused(fault: Fault) | Crashed

  class Journal {
    const codec: Codec
    const config: Config
    const readOnly: bool
    var segments: seq<Segment>
    var meta: Option<Meta>
    ghost var history: History

    constructor (codec: Codec, config: Config, readOnly: bool)
      requires Lawful(codec)
      ensures this.codec == codec && this.config == config && this.readOnly == readOnly
      ensures segments == [] && meta == None && history == EMPTY && Valid()
    {
      this.codec, this.config, this.readOnly := codec, config, readOnly;
      segments, meta, history := [], None, EMPTY;
    }

    function Files(): Disk
      reads this
    {
      Disk(segments, meta)
    }

    ghost predicate Valid()
      reads this
    {
      Lawful(codec) && Legal(codec, config, Files(), history)
    }

    // The scan of _recover: every segment in order, cutting the torn tail of
    // the newest one when asked to. Specified for any directory contents.
    method ScanFiles(newest: nat, repair: bool) returns (r: Outcome<seq<Record>>, top: int)
      requires Listing(segments) && newest == Newest(segments)
      modifies this`segments
      ensures segments == old(segments) || (repair && !readOnly && segments == Repaired(old(segments)))
      ensures r.Refused? ==> ScanSegments(codec, old(segments), newest) == Err(r.fault)
      ensures r.Done? ==> ScanSegments(codec, old(segments), newest) == Ok(r.value) && top == MaxSequence(r.value)
      ensures r.Done? && repair && !readOnly ==> segments == Repaired(old(segments))
    {
      var listing := segments;
      NewestIsLast(listing);
      var events: seq<Record> := [];
      top := 0;
      for i := 0 to |listing|
        invariant ScanSegments(codec, listing[..i], newest) == Ok(events)
        invariant top == MaxSequence(events)
        invariant segments == if i == |listing| && repair && !readOnly then Repaired(listing) else listing
      {
        var cut := CutTail(i, newest, repair);
        if !cut { return Crashed, top; }
        var parsed;
        parsed, top := ParseNext(codec, listing, i, newest, events, top);
        if parsed.Err? { return Refused(parsed.error), top; }
        events := parsed.value;
      }
      assert listing[..|listing|] == listing;
      return Done(events), top;
    }

    // A writer cuts the torn tail of the newest segment before it parses it.
    method CutTail(i: nat, newest: nat, repair: bool) returns (ok: bool)
      requires Listing(segments) && newest == Newest(segments) && i < |segments|
      modifies this`segments
      ensures segments == old(segments) || (repair && !readOnly && segments == Repaired(old(segments)))
      ensures ok ==> segments == if i == |old(segments)| - 1 && repair && !readOnly then Repaired(old(segments)) else old(segments)
    {
      NewestIsLast(segments);
      var seg := segments[i];
      var (complete, tail) := SplitTail(seg.bytes);
      if seg.bytes != [] && tail.Some? && seg.number == newest && repair && !readOnly {
        assert i == |segments| - 1;
        if * { return false; }
        segments := segments[i := seg.(bytes := complete)];
        if * { return false; }
      }
      return true;
    }

    // _recover: scan, check continuity, and reconcile meta.
    method RecoverFiles(repair: bool) returns (r: Outcome<Recovered>)
      requires Listing(segments)
      modifies this`segments, this`meta
      ensures segments == old(segments) || (repair && !readOnly && segments == Repaired(old(segments)))
      ensures r.Refused? ==> Recover(codec, old(Files())) == Err(r.fault)
      ensures r.Done? ==> Recover(codec, old(Files())) == Ok(r.value)
      ensures r.Done? && repair && !readOnly ==> segments == Repaired(old(segments))
      ensures meta == if r.Done? && r.value.metaReconciled && !readOnly
                      then Some(Meta(r.value.nextSequence, r.value.nextSegment)) else old(meta)
    {
      var rawMeta := meta;
      var listing := segments;
      var newest := NewestOf(listing);
      var scanned, top := ScanFiles(newest, repair);
      match scanned {
        case Crashed => return Crashed;
        case Refused(fault) => return Refused(fault);
        case Done(events) =>
          var ordered := Sorted(events);
          if !Continuous(ordered) { return Refused(SequenceGap); }
          if !Adjacent(listing) { return Refused(SegmentGap); }
          var nextSequence, nextSegment := top + 1, newest + 1;
          var reconciled;
          if rawMeta.Some? {
            if rawMeta.value.nextSequence - 1 > top { return Refused(MetaAhead); }
            reconciled := rawMeta.value != Meta(nextSequence, nextSegment);
          } else {
            reconciled := events != [];
          }
          if reconciled && !readOnly {
            if * { return Crashed; }
            meta := Some(Meta(nextSequence, nextSegment));
          }
          return Done(Recovered(nextSequence, nextSegment, ordered, reconciled));
      }
    }

    // recover: what the observer runs once at start-up.
    method RecoverJournal() returns (r: Outcome<Recovered>)
      requires Valid() && !readOnly
      modifies this`segments, this`meta, this`history
      ensures Valid() && history == old(history).(tail := history.tail)
      ensures !r.Refused?
      ensures r.Done? ==> r.value.events == Surviving(history) && history.tail == []
      ensures r.Done? ==> r.value.nextSequence == |history.committed| + 1
      ensures r.Done? ==> r.value.nextSegment == if segments == [] then 1 else segments[|segments| - 1].number + 1
      ensures r.Done? ==> meta == if old(meta).None? && Surviving(history) == [] then None else Some(Meta(r.value.nextSequence, r.value.nextSegment))
    {
      StartsUp(codec, config, Files(), history);
      RepairKeepsLegal(codec, config, Files(), history);
      r := RecoverFiles(true);
      if segments != old(segments) || r.Done? {
        history := history.(tail := []);
      }
    }

    // has_transition: a reading scan, which may still reconcile meta.
    method HasTransition(id: TransitionId) returns (r: Outcome<bool>)
      requires Valid()
      modifies this`segments, this`meta
      ensures Valid() && !r.Refused? && segments == old(segments)
      ensures r.Done? ==> (r.value <==> exists e :: e in Surviving(history) && e.transitionId == id)
    {
      LegalDiskIsAccepted(codec, config, Files(), history);
      var scanned := RecoverFiles(false);
      match scanned {
        case Crashed => return Crashed;
        case Refused(fault) => return Refused(fault);
        case Done(state) => return Done(exists e :: e in state.events && e.transitionId == id);
      }
    }

    // The newest segment while it has room, otherwise the next one.
    method ChooseSegment(length: nat)
      requires Valid() && history.tail == [] && length <= config.segmentBytes
      modifies this`segments, this`history
      ensures Valid() && segments != [] && history.tail == []
      ensures history.committed == old(history).committed && history.evicted == old(history).evicted
      ensures |segments[|segments| - 1].bytes| + length <= config.segmentBytes
      ensures segments == Active(config, old(segments), length)
      ensures if old(segments) != [] && |old(segments)[|old(segments)| - 1].bytes| + length <= config.segmentBytes then segments == old(segments)
              else |segments| == |old(segments)| + 1 && old(segments) <= segments && segments[|old(segments)|].bytes == []
      ensures forall i :: 0 < i < |segments| ==> segments[i].number == segments[i - 1].number + 1
    {
      ActiveKeepsLegal(codec, config, segments, history, length);
      history := ActiveHistory(config, segments, history, length);
      segments := NextSegments(config, segments, length);
    }

    // The line write of append_event.
    method WriteLine(record: Record) returns (durable: bool)
      requires Valid() && !readOnly && history.tail == [] && record.sequence == |history.committed| + 1
      requires |Line(codec, record)| <= config.segmentBytes
      modifies this`segments, this`history
      ensures Valid() && history.evicted == old(history).evicted
      ensures durable ==> segments != [] && history.tail == [] && history.groups[|history.groups| - 1] != []
      ensures durable ==> history.committed == old(history).committed + [record]
      ensures !durable ==> history.committed == old(history).committed
    {
      if * { return false; }
      var line := Line(codec, record);
      ChooseSegment(|line|);
      durable := Extend(record, line);
    }

    // All of the line behind the newest segment, or any strict prefix of it.
    method Extend(record: Record, line: Bytes) returns (durable: bool)
      requires Valid() && segments != [] && history.tail == [] && record.sequence == |history.committed| + 1
      requires line == Line(codec, record) && |segments[|segments| - 1].bytes| + |line| <= config.segmentBytes
      modifies this`segments, this`history
      ensures Valid() && segments != []
      ensures history == if durable then Committed(old(history), record) else old(history).(tail := history.tail)
    {
      if * {
        var k: nat :| k < |line|;
        TornWriteKeepsLegal(codec, config, segments, history, record, k);
        segments := Extended(segments, line[..k]);
        history := history.(tail := line[..k]);
        return false;
      }
      CommitKeepsLegal(codec, config, segments, history, record);
      segments := Extended(segments, line);
      history := Committed(history, record);
      return true;
    }

    // The eviction loop of append_event: oldest first, never the last segment.
    method Rotate() returns (completed: bool)
      requires Valid() && !readOnly && segments != [] && history.tail == [] && history.groups[|history.groups| - 1] != []
      modifies this`segments, this`history
      ensures Valid() && segments != [] && history.committed == old(history).committed
      ensures old(history).evicted <= history.evicted <= |history.committed|
      ensures forall k :: old(history).evicted <= k < history.evicted ==> FarBehind(codec, config, history.committed, k)
      ensures completed ==> TotalSize(segments) <= config.totalBytes || TotalSize(segments) <= config.segmentBytes
    {
      while TotalSize(segments) > config.totalBytes
        invariant Valid() && segments != [] && history.tail == [] && history.groups[|history.groups| - 1] != []
        invariant history.committed == old(history).committed
        invariant old(history).evicted <= history.evicted <= |history.committed|
        invariant forall k :: old(history).evicted <= k < history.evicted ==> FarBehind(codec, config, history.committed, k)
        decreases |segments|
      {
        if |segments| <= 1 {
          assert segments[..0] == [];
          break;
        }
        if * { return false; }
        RotateKeepsLegal(codec, config, segments, history);
        segments := segments[1..];
        history := Rotated(history);
      }
      completed := *;
    }

    // append_event. A crash leaves the record out, possibly torn, or committed.
    method AppendEvent(event: Event, id: TransitionId, now: Epoch) returns (r: Outcome<Record>)
      requires Valid() && !readOnly
      modifies this`segments, this`meta, this`history
      ensures Valid()
      ensures var record := Record(|old(history).committed| + 1, now, event, id);
        && (Untouched(old(history), history) || Appended(codec, config, old(history), history, record))
        && (r.Done? ==> r.value == record && !Untouched(old(history), history))
        && (r.Refused? ==> r.fault == EventTooLarge && Untouched(old(history), history))
        && (r.Refused? ==> |Line(codec, record)| > config.segmentBytes)
      ensures r.Done? ==> TotalSize(segments) <= config.totalBytes || TotalSize(segments) <= config.segmentBytes
      ensures r.Done? ==> segments != [] && meta == Some(Meta(|history.committed| + 1, segments[|segments| - 1].number + 1))
    {
      var recovered := RecoverJournal();
      if !recovered.Done? { return Crashed; }
      var record := Record(recovered.value.nextSequence, now, event, id);
      if |Line(codec, record)| > config.segmentBytes { return Refused(EventTooLarge); }
      var done := CommitRecord(record);
      return if done then Done(record) else Crashed;
    }

    // The three durable parts of append_event: the line, the evictions, meta.
    method CommitRecord(record: Record) returns (done: bool)
      requires Valid() && !readOnly && history.tail == [] && record.sequence == |history.committed| + 1
      requires |Line(codec, record)| <= config.segmentBytes
      modifies this`segments, this`meta, this`history
      ensures Valid()
      ensures Untouched(old(history), history) || Appended(codec, config, old(history), history, record)
      ensures done ==> !Untouched(old(history), history)
      ensures done ==> TotalSize(segments) <= config.totalBytes || TotalSize(segments) <= config.segmentBytes
      ensures done ==> segments != [] && meta == Some(Meta(|history.committed| + 1, segments[|segments| - 1].number + 1))
    {
      var committed := WriteLine(record);
      if !committed { return false; }
      var rotated := Rotate();
      if !rotated { return false; }
      meta := Some(Meta(record.sequence + 1, segments[|segments| - 1].number + 1));
      return true;
    }
  }

  method NextSegments(config: Config, segments: seq<Segment>, length: nat) returns (next: seq<Segment>)
    ensures next == Active(config, segments, length)
  {
    next := segments;
    if segments == [] || |segments[|segments| - 1].bytes| + length > config.segmentBytes {
      var newest := NewestOf(segments);
      next := next + [Segment(newest + 1, [])];
    }
  }

  method NewestOf(segments: seq<Segment>) returns (newest: nat)
    ensures newest == Newest(segments)
  {
    newest := 0;
    for i := 0 to |segments|
      invariant newest == Newest(segments[..i])
    {
      assert segments[..i + 1][..i] == segments[..i];
      if segments[i].number > newest { newest := segments[i].number; }
    }
    assert segments[..|segments|] == segments;
  }

  // The next segment of a scan: its first fault is the fault of the whole scan.
  method ParseNext(codec: Codec, listing: seq<Segment>, i: nat, newest: nat, before: seq<Record>, topBefore: int)
    returns (r: Result<seq<Record>, Fault>, top: int)
    requires i < |listing| && ScanSegments(codec, listing[..i], newest) == Ok(before) && topBefore == MaxSequence(before)
    ensures r.Ok? ==> ScanSegments(codec, listing[..i + 1], newest) == r && top == MaxSequence(r.value)
    ensures r.Err? ==> ScanSegments(codec, listing, newest) == r
  {
    assert listing[..i + 1][..i] == listing[..i];
    r, top := ParseSegment(codec, listing[i], newest, before, topBefore);
    if r.Err? { ScanStops(codec, listing, newest, i + 1); }
  }

  // One segment: a torn tail is only legal in the newest.
  method ParseSegment(codec: Codec, seg: Segment, newest: nat, before: seq<Record>, topBefore: int)
    returns (r: Result<seq<Record>, Fault>, top: int)
    requires topBefore == MaxSequence(before)
    ensures r == ScanSegment(codec, seg, newest, before)
    ensures r.Ok? ==> top == MaxSequence(r.value)
  {
    top := topBefore;
    if seg.bytes == [] { return Ok(before), top; }
    var (complete, tail) := SplitTail(seg.bytes);
    if tail.Some? && seg.number != newest { return Err(TornHistory(seg.number)), top; }
    r, top := ParseLines(codec, seg.number, Lines(complete), before, top);
  }

  // The line loop of _recover over one segment.
  method ParseLines(codec: Codec, segment: nat, lines: seq<Bytes>, before: seq<Record>, topBefore: int)
    returns (r: Result<seq<Record>, Fault>, top: int)
    requires topBefore == MaxSequence(before)
    ensures r == AbsorbLines(codec, segment, lines, before)
    ensures r.Ok? ==> top == MaxSequence(r.value)
  {
    var events := before;
    top := topBefore;
    for j := 0 to |lines|
      invariant AbsorbLines(codec, segment, lines[..j], before) == Ok(events)
      invariant top == MaxSequence(events)
    {
      assert lines[..j + 1][..j] == lines[..j];
      var parsed := codec.decode(lines[j]);
      if parsed == None {
        AbsorbStops(codec, segment, lines, before, j + 1);
        return Err(CorruptLine(segment)), top;
      }
      var record := parsed.value;
      if Seen(events, record.sequence) {
        AbsorbStops(codec, segment, lines, before, j + 1);
        return Err(DuplicateSequence(record.sequence)), top;
      }
      assert (events + [record])[..|events|] == events;
      events := events + [record];
      if record.sequence > top { top := record.sequence; }
    }
    assert lines[..|lines|] == lines;
    return Ok(events), top;
  }

  // What recovery answers on a legal disk, and when it writes meta.
  lemma StartsUp(codec: Codec, config: Config, d: Disk, h: History)
    requires Lawful(codec) && Legal(codec, config, d, h)
    ensures Listing(d.segments) && Recover(codec, d).Ok?
    ensures var r := Recover(codec, d).value;
      && r.events == Surviving(h) && r.nextSequence == |h.committed| + 1
      && r.nextSegment == (if d.segments == [] then 1 else d.segments[|d.segments| - 1].number + 1)
      && (r.metaReconciled <==>
          if d.meta.Some? then d.meta.value != Meta(r.nextSequence, r.nextSegment) else Surviving(h) != [])
    ensures |Repaired(d.segments)| == |d.segments|
    ensures d.segments != [] ==> Repaired(d.segments)[|d.segments| - 1].number == d.segments[|d.segments| - 1].number
  {
    LegalListing(codec, config, d.segments, h);
    LegalDiskIsAccepted(codec, config, d, h);
    ScanLegalAll(codec, config, d.segments, h);
  }

  // A scan that fails on a prefix fails in the same way on the whole.
  lemma {:induction false} ScanStops(codec: Codec, segments: seq<Segment>, newest: nat, k: nat)
    requires k <= |segments| && ScanSegments(codec, segments[..k], newest).Err?
    ensures ScanSegments(codec, segments, newest) == ScanSegments(codec, segments[..k], newest)
    decreases |segments| - k
  {
    if k == |segments| {
      assert segments[..k] == segments;
    } else {
      assert segments[..k + 1][..k] == segments[..k];
      ScanStops(codec, segments, newest, k + 1);
    }
  }

  lemma {:induction false} AbsorbStops(codec: Codec, segment: nat, lines: seq<Bytes>, before: seq<Record>, k: nat)
    requires k <= |lines| && AbsorbLines(codec, segment, lines[..k], before).Err?
    ensures AbsorbLines(codec, segment, lines, before) == AbsorbLines(codec, segment, lines[..k], before)
    decreases |lines| - k
  {
    if k == |lines| {
      assert lines[..k] == lines;
    } else {
      assert lines[..k + 1][..k] == lines[..k];
      AbsorbStops(codec, segment, lines, before, k + 1);
    }
  }
}
