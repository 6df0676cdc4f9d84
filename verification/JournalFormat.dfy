// python/rill_xray_agent/event_journal.py, the read side: the byte format of
// the journal and what a scan of the segment files accepts.

module JournalFormat {
  import opened Collections
  import opened Events

  newtype byte = x: int | 0 <= x < 256
  type Bytes = seq<byte>
  const NEWLINE: byte := 10

  // A clock reading in seconds.
  type Epoch = t: int | 0 <= t < 0x1_0000_0000_0000

  datatype Record = Record(sequence: int, capturedAt: Epoch, event: Event, transitionId: TransitionId)

  // canonical_bytes and its reader. `decode` answers None for a line that is
  // not JSON, whose eventId is not the digest of the rest, or whose sequence
  // is not a number.
  datatype Codec = Codec(encode: Record -> Bytes, decode: Bytes -> Option<Record>)

  // Canonical JSON is never empty, holds no raw newline, and reads back.
  ghost predicate Lawful(codec: Codec) {
    forall r :: codec.encode(r) != [] && NEWLINE !in codec.encode(r) && codec.decode(codec.encode(r)) == Some(r)
  }

  datatype Segment = Segment(number: nat, bytes: Bytes)
  datatype Meta = Meta(nextSequence: int, nextSegment: int)
  datatype Config = Config(segmentBytes: nat, totalBytes: nat)

  // `segments` is the directory listing in name order; `meta` is None when the
  // file is missing or malformed.
  datatype Disk = Disk(segments: seq<Segment>, meta: Option<Meta>)

  // Distinct file names in name order.
  predicate Listing(segments: seq<Segment>) {
    forall i, j :: 0 <= i < j < |segments| ==> segments[i].number < segments[j].number
  }

  datatype Fault =
    | TornHistory(segment: nat)
    | CorruptLine(segment: nat)
    | DuplicateSequence(sequence: int)
    | SequenceGap
    | SegmentGap
    | MetaAhead
    | EventTooLarge

  datatype Recovered = Recovered(nextSequence: int, nextSegment: int, events: seq<Record>, metaReconciled: bool)

  // ---- lines --------------------------------------------------------------

  function AfterLastNewline(raw: Bytes): (cut: nat)
    ensures cut <= |raw|
  {
    if raw == [] then 0
    else if raw[|raw| - 1] == NEWLINE then |raw|
    else AfterLastNewline(raw[..|raw| - 1])
  }

  // Complete lines, and the torn tail behind the last newline if there is one.
  function SplitTail(raw: Bytes): (Bytes, Option<Bytes>) {
    var cut := AfterLastNewline(raw);
    if raw != [] && cut == |raw| then (raw, None) else (raw[..cut], Some(raw[cut..]))
  }

  function FindNewline(raw: Bytes): (k: nat)
    ensures k <= |raw|
    ensures k < |raw| ==> raw[k] == NEWLINE
    ensures forall i :: 0 <= i < k ==> raw[i] != NEWLINE
  {
    if raw == [] || raw[0] == NEWLINE then 0 else 1 + FindNewline(raw[1..])
  }

  // The non-empty pieces between newlines.
  function Lines(raw: Bytes): seq<Bytes> {
    var k := FindNewline(raw);
    var first := if k == 0 then [] else [raw[..k]];
    if k == |raw| then first else first + Lines(raw[k + 1..])
  }

  // ---- scan ---------------------------------------------------------------

  predicate Seen(events: seq<Record>, sequence: int) {
    exists i :: 0 <= i < |events| && events[i].sequence == sequence
  }

  function AbsorbLines(codec: Codec, segment: nat, lines: seq<Bytes>, before: seq<Record>): Result<seq<Record>, Fault> {
    if lines == [] then Ok(before)
    else
      match AbsorbLines(codec, segment, lines[..|lines| - 1], before)
      case Err(f) => Err(f)
      case Ok(events) =>
        match codec.decode(lines[|lines| - 1])
        case None => Err(CorruptLine(segment))
        case Some(r) => if Seen(events, r.sequence) then Err(DuplicateSequence(r.sequence)) else Ok(events + [r])
  }

  function ScanSegment(codec: Codec, seg: Segment, newest: nat, before: seq<Record>): Result<seq<Record>, Fault> {
    if seg.bytes == [] then Ok(before)
    else
      var (complete, tail) := SplitTail(seg.bytes);
      if tail.Some? && seg.number != newest then Err(TornHistory(seg.number))
      else AbsorbLines(codec, seg.number, Lines(complete), before)
  }

  function ScanSegments(codec: Codec, segments: seq<Segment>, newest: nat): Result<seq<Record>, Fault> {
    if segments == [] then Ok([])
    else
      match ScanSegments(codec, segments[..|segments| - 1], newest)
      case Err(f) => Err(f)
      case Ok(events) => ScanSegment(codec, segments[|segments| - 1], newest, events)
  }

  function Newest(segments: seq<Segment>): nat {
    if segments == [] then 0
    else
      var rest := Newest(segments[..|segments| - 1]);
      var last := segments[|segments| - 1].number;
      if last > rest then last else rest
  }

  function MaxSequence(events: seq<Record>): int {
    if events == [] then 0
    else
      var rest := MaxSequence(events[..|events| - 1]);
      var last := events[|events| - 1].sequence;
      if last > rest then last else rest
  }

  function Insert(sorted: seq<Record>, r: Record): seq<Record> {
    if sorted == [] || sorted[|sorted| - 1].sequence <= r.sequence then sorted + [r]
    else Insert(sorted[..|sorted| - 1], r) + [sorted[|sorted| - 1]]
  }

  // Stable sort by sequence number.
  function Sorted(events: seq<Record>): seq<Record> {
    if events == [] then [] else Insert(Sorted(events[..|events| - 1]), events[|events| - 1])
  }

  predicate Continuous(events: seq<Record>) {
    forall i :: 0 <= i < |events| - 1 ==> events[i + 1].sequence == events[i].sequence + 1
  }

  predicate Adjacent(segments: seq<Segment>) {
    forall i :: 0 <= i < |segments| - 1 ==> segments[i + 1].number == segments[i].number + 1
  }

  // What recovery concludes from the files, and every reason it fails closed.
  function Recover(codec: Codec, d: Disk): Result<Recovered, Fault> {
    match ScanSegments(codec, d.segments, Newest(d.segments))
    case Err(f) => Err(f)
    case Ok(events) =>
      var top := MaxSequence(events);
      var nextSegment := Newest(d.segments) + 1;
      if !Continuous(Sorted(events)) then Err(SequenceGap)
      else if !Adjacent(d.segments) then Err(SegmentGap)
      else if d.meta.Some? && d.meta.value.nextSequence - 1 > top then Err(MetaAhead)
      else
        var stale := if d.meta.Some? then d.meta.value != Meta(top + 1, nextSegment) else events != [];
        Ok(Recovered(top + 1, nextSegment, Sorted(events), stale))
  }

  // The listing after the writer has cut a torn tail off the newest segment.
  function Repaired(segments: seq<Segment>): seq<Segment> {
    if segments == [] || segments[|segments| - 1].bytes == [] then segments
    else
      var last := segments[|segments| - 1];
      segments[|segments| - 1 := last.(bytes := SplitTail(last.bytes).0)]
  }

  // ---- facts about the format -----------------------------------------------

  lemma {:induction false} NewestIsLast(segments: seq<Segment>)
    requires Listing(segments)
    ensures segments != [] ==> Newest(segments) == segments[|segments| - 1].number
  {
    if |segments| > 1 {
      NewestIsLast(segments[..|segments| - 1]);
    }
  }

  lemma {:induction false} AfterLastNewlineOf(complete: Bytes, tail: Bytes)
    requires NEWLINE !in tail
    requires complete == [] || complete[|complete| - 1] == NEWLINE
    ensures AfterLastNewline(complete + tail) == |complete|
    decreases |tail|
  {
    if tail == [] {
      assert complete + tail == complete;
    } else {
      var raw := complete + tail;
      assert raw[|raw| - 1] == tail[|tail| - 1];
      assert raw[..|raw| - 1] == complete + tail[..|tail| - 1];
      AfterLastNewlineOf(complete, tail[..|tail| - 1]);
    }
  }

  // Splitting gives back the complete lines and the tail that were joined.
  lemma SplitTailOf(complete: Bytes, tail: Bytes)
    requires NEWLINE !in tail
    requires complete == [] || complete[|complete| - 1] == NEWLINE
    ensures complete + tail != [] ==>
      SplitTail(complete + tail) == (complete, if tail == [] then None else Some(tail))
  {
    AfterLastNewlineOf(complete, tail);
    assert tail == [] ==> complete + tail == complete;
    assert (complete + tail)[..|complete|] == complete && (complete + tail)[|complete|..] == tail;
  }

  // Whatever the bytes, the first part ends at a newline and the tail holds none.
  lemma {:induction false} SplitTailShape(raw: Bytes)
    ensures var (complete, tail) := SplitTail(raw);
      && (complete == [] || complete[|complete| - 1] == NEWLINE)
      && (tail.Some? ==> NEWLINE !in tail.value && complete + tail.value == raw)
      && (tail.None? ==> complete == raw)
  {
    CutShape(raw);
  }

  lemma {:induction false} CutShape(raw: Bytes)
    ensures var cut := AfterLastNewline(raw);
      && (cut == 0 || raw[cut - 1] == NEWLINE)
      && NEWLINE !in raw[cut..]
  {
    if raw != [] && raw[|raw| - 1] != NEWLINE {
      CutShape(raw[..|raw| - 1]);
      var cut := AfterLastNewline(raw);
      assert raw[cut..] == raw[..|raw| - 1][cut..] + [raw[|raw| - 1]];
    }
  }

  lemma ScanOfRepaired(codec: Codec, seg: Segment, before: seq<Record>)
    requires seg.bytes != []
    ensures ScanSegment(codec, seg.(bytes := SplitTail(seg.bytes).0), seg.number, before)
         == ScanSegment(codec, seg, seg.number, before)
  {
    var complete := SplitTail(seg.bytes).0;
    SplitTailShape(seg.bytes);
    SplitTailOf(complete, []);
    assert complete + [] == complete;
  }

  // For any files at all, repairing the torn tail does not change the outcome.
  lemma RepairIsInvisible(codec: Codec, d: Disk)
    requires Listing(d.segments)
    ensures Recover(codec, d.(segments := Repaired(d.segments))) == Recover(codec, d)
  {
    if d.segments != [] && d.segments[|d.segments| - 1].bytes != [] {
      var s, t := d.segments, Repaired(d.segments);
      var n := |s| - 1;
      assert t[..n] == s[..n] && t[n].number == s[n].number && |t| == |s|;
      NewestIsLast(s);
      match ScanSegments(codec, s[..n], Newest(s)) {
        case Err(_) =>
        case Ok(before) => ScanOfRepaired(codec, s[n], before);
      }
      assert ScanSegments(codec, t, Newest(s)) == ScanSegments(codec, s, Newest(s));
      assert forall i :: 0 <= i < |s| ==> s[i].number == t[i].number;
      assert Adjacent(s) == Adjacent(t);
    }
  }

  // ---- encoded records ------------------------------------------------------

  function Line(codec: Codec, r: Record): Bytes {
    codec.encode(r) + [NEWLINE]
  }

  function EncodeAll(codec: Codec, rs: seq<Record>): Bytes {
    if rs == [] then [] else EncodeAll(codec, rs[..|rs| - 1]) + Line(codec, rs[|rs| - 1])
  }

  lemma {:induction false} EncodeAllConcat(codec: Codec, a: seq<Record>, b: seq<Record>)
    ensures EncodeAll(codec, a + b) == EncodeAll(codec, a) + EncodeAll(codec, b)
  {
    if b == [] {
      assert a + b == a;
    } else {
      var c := a + b;
      assert c[..|c| - 1] == a + b[..|b| - 1];
      EncodeAllConcat(codec, a, b[..|b| - 1]);
    }
  }

  lemma EncodeAllEndsInNewline(codec: Codec, rs: seq<Record>)
    ensures rs == [] ==> EncodeAll(codec, rs) == []
    ensures rs != [] ==> EncodeAll(codec, rs) != [] && EncodeAll(codec, rs)[|EncodeAll(codec, rs)| - 1] == NEWLINE
  {
  }

  lemma {:induction false} FindNewlineIn(head: Bytes, rest: Bytes)
    requires NEWLINE !in head
    ensures FindNewline(head + [NEWLINE] + rest) == |head|
  {
    var raw := head + [NEWLINE] + rest;
    assert raw[|head|] == NEWLINE;
    assert forall i :: 0 <= i < |head| ==> raw[i] == head[i];
  }

  function Encodings(codec: Codec, rs: seq<Record>): (lines: seq<Bytes>)
    ensures |lines| == |rs|
  {
    seq(|rs|, i requires 0 <= i < |rs| => codec.encode(rs[i]))
  }

  lemma EncodeFirst(codec: Codec, rs: seq<Record>)
    requires rs != []
    ensures EncodeAll(codec, rs) == codec.encode(rs[0]) + [NEWLINE] + EncodeAll(codec, rs[1..])
  {
    assert rs == [rs[0]] + rs[1..];
    EncodeAllConcat(codec, [rs[0]], rs[1..]);
    assert [rs[0]][..0] == [];
    assert EncodeAll(codec, [rs[0]]) == Line(codec, rs[0]);
  }

  lemma FirstLine(head: Bytes, rest: Bytes)
    requires head != [] && NEWLINE !in head
    ensures Lines(head + [NEWLINE] + rest) == [head] + Lines(rest)
  {
    var raw := head + [NEWLINE] + rest;
    FindNewlineIn(head, rest);
    assert raw[..|head|] == head && raw[|head| + 1..] == rest;
  }

  lemma EncodingsFirst(codec: Codec, rs: seq<Record>)
    requires rs != []
    ensures Encodings(codec, rs) == [codec.encode(rs[0])] + Encodings(codec, rs[1..])
  {
  }

  // Cutting encoded records at newlines gives back their encodings.
  lemma {:induction false} LinesOfEncodings(codec: Codec, rs: seq<Record>)
    requires Lawful(codec)
    ensures Lines(EncodeAll(codec, rs)) == Encodings(codec, rs)
    decreases |rs|
  {
    if rs != [] {
      LinesOfEncodings(codec, rs[1..]);
      EncodingsFirst(codec, rs);
      EncodeFirst(codec, rs);
      var head := codec.encode(rs[0]);
      assert head != [] && NEWLINE !in head;
      FirstLine(head, EncodeAll(codec, rs[1..]));
    }
  }

  // Consecutive sequence numbers starting anywhere.
  predicate Run(events: seq<Record>) {
    forall i, j :: 0 <= i < j < |events| ==> events[j].sequence == events[i].sequence + (j - i)
  }

  lemma {:induction false} AbsorbEncodings(codec: Codec, segment: nat, before: seq<Record>, rs: seq<Record>)
    requires Lawful(codec) && Run(before + rs)
    ensures AbsorbLines(codec, segment, Encodings(codec, rs), before) == Ok(before + rs)
    decreases |rs|
  {
    if rs == [] {
      assert before + rs == before;
    } else {
      var front, last := rs[..|rs| - 1], rs[|rs| - 1];
      assert before + rs == before + front + [last];
      assert forall i, j :: 0 <= i < j < |before + front| ==> (before + front)[j] == (before + rs)[j] && (before + front)[i] == (before + rs)[i];
      AbsorbEncodings(codec, segment, before, front);
      assert Encodings(codec, rs)[..|rs| - 1] == Encodings(codec, front);
      forall i | 0 <= i < |before + front| ensures (before + front)[i].sequence != last.sequence {
        assert (before + rs)[i] == (before + front)[i] && (before + rs)[|before + front|] == last;
      }
    }
  }

  lemma RunIsContinuous(events: seq<Record>)
    requires Run(events)
    ensures Continuous(events)
  {
  }

  lemma {:induction false} SortedRun(events: seq<Record>)
    requires Run(events)
    ensures Sorted(events) == events
    decreases |events|
  {
    if events != [] {
      var n := |events| - 1;
      SortedRun(events[..n]);
      assert n > 0 ==> events[n].sequence == events[n - 1].sequence + 1;
      assert events == events[..n] + [events[n]];
    }
  }

  lemma {:induction false} MaxOfRun(events: seq<Record>)
    requires Run(events) && events != [] && events[0].sequence >= 1
    ensures MaxSequence(events) == events[|events| - 1].sequence
    decreases |events|
  {
    if |events| > 1 {
      MaxOfRun(events[..|events| - 1]);
    }
  }
}
