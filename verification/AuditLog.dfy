// python/rill_xray_agent/audit.py: the hash-chained audit log with its append
// reservation. Segment files are one list of lines; a line append is atomic.

module AuditLog {
  import opened Collections

  // Digests are free constructors over the digested value, hence injective.
  datatype Digest = Genesis | DigestOf(sequence: int, payload: Payload, previous: Digest)

  // Everything an event says besides its place in the chain.
  datatype Payload = Payload(eventType: string, actor: string, details: string, time: int)

  datatype Event = Event(sequence: int, payload: Payload, previous: Digest, hash: Digest)

  datatype Head = Head(sequence: int, hash: Digest)

  datatype Files = Files(lines: seq<Event>, head: Option<Head>, reservation: Option<Event>)

  datatype Fault = ChainInvalid(at: int) | HeadMismatch | HeadMissing | CapacityExhausted

  // An event as it extends a chain that ends in `h`.
  function Built(h: Head, payload: Payload): Event {
    Event(h.sequence + 1, payload, h.hash, DigestOf(h.sequence + 1, payload, h.hash))
  }

  predicate Links(h: Head, e: Event) {
    e == Built(h, e.payload)
  }

  // The end of a valid chain.
  function ChainEnd(lines: seq<Event>): Option<Head> {
    if lines == [] then Some(Head(0, Genesis))
    else
      match ChainEnd(lines[..|lines| - 1])
      case None => None
      case Some(h) =>
        var e := lines[|lines| - 1];
        if Links(h, e) then Some(Head(e.sequence, e.hash)) else None
  }

  predicate Contains(lines: seq<Event>, hash: Digest) {
    exists e :: e in lines && e.hash == hash
  }

  // The head file belongs to a chain that ends in `h`.
  predicate HeadAgrees(lines: seq<Event>, head: Option<Head>) {
    var end := ChainEnd(lines);
    end.Some? && (head == end || (head == None && lines == []))
  }

  function Size(lines: seq<Event>, length: Event -> nat): nat {
    if lines == [] then 0 else Size(lines[..|lines| - 1], length) + length(lines[|lines| - 1])
  }

  // What every interruption leaves behind: the chain is intact, and a
  // reservation is either still to be appended (and there is room for it) or
  // already the last line.
  ghost predicate Sound(f: Files, length: Event -> nat, capacity: nat) {
    match f.reservation
    case None => HeadAgrees(f.lines, f.head)
    case Some(e) => Reserved(f, e, length, capacity) || AlreadyAppended(f, e)
  }

  ghost predicate Reserved(f: Files, e: Event, length: Event -> nat, capacity: nat) {
    && f.reservation == Some(e)
    && HeadAgrees(f.lines, f.head) && Links(ChainEnd(f.lines).value, e)
    && Size(f.lines, length) + length(e) <= capacity
  }

  ghost predicate AlreadyAppended(f: Files, e: Event) {
    && f.reservation == Some(e)
    && f.lines != [] && f.lines[|f.lines| - 1] == e && ChainEnd(f.lines).Some?
    && (f.head == ChainEnd(f.lines) || HeadAgrees(f.lines[..|f.lines| - 1], f.head))
  }

  lemma {:induction false} ChainSequences(lines: seq<Event>, i: nat)
    requires ChainEnd(lines).Some? && i < |lines|
    ensures lines[i].sequence == i + 1
    ensures lines[i].hash == DigestOf(i + 1, lines[i].payload, lines[i].previous)
    ensures ChainEnd(lines).value.sequence == |lines|
    decreases |lines|
  {
    var n := |lines| - 1;
    if n > 0 {
      ChainSequences(lines[..n], if i < n then i else 0);
    }
  }

  // An intact chain, line by line: numbered from one, each line holding the hash of the
  // one before it and the digest of all that it says itself.
  predicate Intact(lines: seq<Event>) {
    forall i :: 0 <= i < |lines| ==> IntactLine(lines, i)
  }

  predicate IntactLine(lines: seq<Event>, i: nat)
    requires i < |lines|
  {
    && lines[i].sequence == i + 1
    && lines[i].previous == (if i == 0 then Genesis else lines[i - 1].hash)
    && lines[i].hash == DigestOf(lines[i].sequence, lines[i].payload, lines[i].previous)
  }

  lemma {:induction false} ChainIff(lines: seq<Event>)
    ensures ChainEnd(lines).Some? <==> Intact(lines)
    ensures Intact(lines) ==>
      ChainEnd(lines).value == if lines == [] then Head(0, Genesis) else Head(|lines|, lines[|lines| - 1].hash)
    decreases |lines|
  {
    if lines != [] {
      var n := |lines| - 1;
      ChainIff(lines[..n]);
      forall i | 0 <= i < n ensures IntactLine(lines[..n], i) <==> IntactLine(lines, i) {}
      assert Intact(lines) <==> Intact(lines[..n]) && IntactLine(lines, n);
    }
  }

  // The next event of a chain cannot be in the chain already.
  lemma NextIsNew(lines: seq<Event>, e: Event)
    requires ChainEnd(lines).Some? && Links(ChainEnd(lines).value, e)
    ensures !Contains(lines, e.hash)
    ensures e.sequence == |lines| + 1
  {
    if lines != [] {
      ChainSequences(lines, 0);
    }
    forall i | 0 <= i < |lines| ensures lines[i].hash != e.hash {
      ChainSequences(lines, i);
    }
  }

  lemma ChainExtends(lines: seq<Event>, e: Event)
    requires ChainEnd(lines).Some? && Links(ChainEnd(lines).value, e)
    ensures ChainEnd(lines + [e]) == Some(Head(e.sequence, e.hash))
    ensures Contains(lines + [e], e.hash)
  {
    assert (lines + [e])[..|lines|] == lines;
    assert e in lines + [e];
  }

  // ---- the files as a commit or a reconciliation goes through them -------------

  function WithLine(f: Files, e: Event): Files {
    if Contains(f.lines, e.hash) then f else f.(lines := f.lines + [e])
  }

  function WithHead(f: Files, e: Event): Files {
    f.(head := Some(Head(e.sequence, e.hash)))
  }

  // Appended, then the head, then the reservation dropped.
  function CommitImages(f: Files, e: Event): seq<Files> {
    var appended := WithLine(f, e);
    var headed := WithHead(appended, e);
    [f, appended, headed, headed.(reservation := None)]
  }

  // The lines once the append that is reserved has been finished.
  function Settled(f: Files): seq<Event> {
    if f.reservation.Some? then WithLine(f, f.reservation.value).lines else f.lines
  }

  // There is no room for the line of the next event.
  predicate Full(f: Files, payload: Payload, length: Event -> nat, capacity: nat) {
    ChainEnd(Settled(f)).Some? && Size(Settled(f), length) + length(Built(ChainEnd(Settled(f)).value, payload)) > capacity
  }

  // Every image of committing the reserved event is sound, and so is the result:
  // the chain verifies and extends the one before.
  lemma CommitStaysSound(f: Files, e: Event, length: Event -> nat, capacity: nat)
    requires Sound(f, length, capacity) && f.reservation == Some(e)
    ensures forall g :: g in CommitImages(f, e) ==> Sound(g, length, capacity) && f.lines <= g.lines
    ensures var g := CommitImages(f, e)[3];
      && Contains(g.lines, e.hash) && g.reservation == None && HeadAgrees(g.lines, g.head)
      && (g.lines == f.lines || g.lines == f.lines + [e])
  {
    if Reserved(f, e, length, capacity) {
      NextIsNew(f.lines, e);
      ChainExtends(f.lines, e);
      var appended := f.(lines := f.lines + [e]);
      assert appended.lines[..|f.lines|] == f.lines;
      assert AlreadyAppended(appended, e);
      assert AlreadyAppended(WithHead(appended, e), e);
    } else {
      assert f.lines[|f.lines| - 1] in f.lines;
      assert ChainEnd(f.lines) == Some(Head(e.sequence, e.hash));
      assert AlreadyAppended(WithHead(f, e), e);
    }
  }

  datatype Outcome<+T> = Done(value: T) | Refused(fault: Fault) | Crashed

  lemma {:induction false} BrokenChainStaysBroken(lines: seq<Event>, k: nat)
    requires k <= |lines| && ChainEnd(lines[..k]).None?
    ensures ChainEnd(lines).None?
    decreases |lines| - k
  {
    if k == |lines| {
      assert lines[..k] == lines;
    } else {
      assert lines[..k + 1][..k] == lines[..k];
      BrokenChainStaysBroken(lines, k + 1);
    }
  }

  class Log {
    const capacity: nat
    const length: Event -> nat   // bytes of the line of an event
    var lines: seq<Event>
    var head: Option<Head>
    var reservation: Option<Event>

    constructor (capacity: nat, length: Event -> nat)
      ensures this.capacity == capacity && this.length == length && State() == Files([], None, None) && Valid()
    {
      this.capacity, this.length, lines, head, reservation := capacity, length, [], None, None;
    }

    function State(): Files
      reads this
    {
      Files(lines, head, reservation)
    }

    ghost predicate Valid()
      reads this
    {
      Sound(State(), length, capacity)
    }

    // verify: walk the chain, then compare with the head file.
    method Verify() returns (r: Result<Head, Fault>)
      ensures r.Ok? <==> HeadAgrees(lines, head)
      ensures r.Ok? <==>
        && Intact(lines) && (head.None? ==> lines == [])
        && (head.Some? ==> head.value == if lines == [] then Head(0, Genesis) else Head(|lines|, lines[|lines| - 1].hash))
      ensures r.Ok? ==> Some(r.value) == ChainEnd(lines)
      ensures r.Err? && r.error.ChainInvalid? ==>
        1 <= r.error.at <= |lines| && ChainEnd(lines[..r.error.at - 1]).Some? && ChainEnd(lines[..r.error.at]).None?
    {
      ChainIff(lines);
      var sequence, previous := 0, Genesis;
      for i := 0 to |lines|
        invariant ChainEnd(lines[..i]) == Some(Head(sequence, previous))
        invariant sequence == i
      {
        assert lines[..i + 1][..i] == lines[..i];
        var e := lines[i];
        if e.sequence != sequence + 1 || e.previous != previous || DigestOf(e.sequence, e.payload, e.previous) != e.hash {
          BrokenChainStaysBroken(lines, i + 1);
          return Err(ChainInvalid(sequence + 1));
        }
        sequence, previous := sequence + 1, e.hash;
      }
      assert lines[..|lines|] == lines;
      if head.Some? && head.value != Head(sequence, previous) { return Err(HeadMismatch); }
      if sequence > 0 && head.None? { return Err(HeadMissing); }
      return Ok(Head(sequence, previous));
    }

    // The write sequence that commit_event and reconcile share.
    method AppendAndSeal(e: Event) returns (r: Outcome<()>)
      modifies this
      ensures State() in CommitImages(old(State()), e)
      ensures r.Done? ==> State() == CommitImages(old(State()), e)[3]
      ensures r.Refused? ==> State() == old(State()) && Size(lines, length) + length(e) > capacity
      ensures r.Refused? ==> !Contains(lines, e.hash)
    {
      if !Contains(lines, e.hash) {
        if Size(lines, length) + length(e) > capacity { return Refused(CapacityExhausted); }
        if * { return Crashed; }
        lines := lines + [e];
      }
      if * { return Crashed; }
      head := Some(Head(e.sequence, e.hash));
      if * { return Crashed; }
      reservation := None;
      return Done(());
    }

    // reconcile: finish an interrupted append.
    method Reconcile() returns (r: Outcome<Head>)
      requires Valid()
      modifies this
      ensures Valid() && old(lines) <= lines && |lines| <= |old(lines)| + 1
      ensures !r.Refused?
      ensures r.Done? ==> reservation == None && HeadAgrees(lines, head) && Some(r.value) == ChainEnd(lines)
      ensures r.Done? && old(reservation).Some? ==> Contains(lines, old(reservation).value.hash)
      ensures r.Done? ==> lines == Settled(old(State()))
    {
      if reservation.Some? {
        CommitStaysSound(State(), reservation.value, length, capacity);
        ReservedHasRoom(State(), reservation.value, length, capacity);
        var sealed := AppendAndSeal(reservation.value);
        if !sealed.Done? { return Crashed; }
      }
      var verified := Verify();
      match verified {
        case Ok(h) => return Done(h);
        case Err(fault) => return Refused(fault);
      }
    }

    // build_event: an interrupted append is finished first.
    method BuildEvent(payload: Payload) returns (r: Outcome<Event>)
      requires Valid()
      modifies this
      ensures Valid() && old(lines) <= lines && |lines| <= |old(lines)| + 1
      ensures !r.Refused?
      ensures r.Done? ==> reservation == None && HeadAgrees(lines, head)
      ensures r.Done? ==> lines == Settled(old(State())) && r.value == Built(ChainEnd(lines).value, payload)
    {
      var h := Head(0, Genesis);
      if reservation.Some? {
        var reconciled := Reconcile();
        if !reconciled.Done? { return Crashed; }
        h := reconciled.value;
      } else if head.Some? {
        var verified := Verify();
        match verified {
          case Err(fault) => return Refused(fault);
          case Ok(end) => h := end;
        }
      }
      return Done(Built(h, payload));
    }

    // reserve: the event becomes durable before the operation does.
    method Reserve(e: Event) returns (r: Outcome<()>)
      requires reservation == None && HeadAgrees(lines, head) && Links(ChainEnd(lines).value, e)
      modifies this`reservation
      ensures Valid()
      ensures r.Done? ==> reservation == Some(e) && Reserved(State(), e, length, capacity)
      ensures !r.Done? ==> reservation == None
      ensures r.Refused? <==> Size(lines, length) + length(e) > capacity
    {
      if Size(lines, length) + length(e) > capacity { return Refused(CapacityExhausted); }
      if * { return Crashed; }
      reservation := Some(e);
      return Done(());
    }

    // dismiss_pending
    method DismissPending(hash: Digest) returns (dismissed: bool)
      modifies this`reservation
      ensures reservation == if old(reservation).Some? && old(reservation).value.hash == hash then None else old(reservation)
      ensures dismissed <==> reservation != old(reservation)
    {
      dismissed := reservation.Some? && reservation.value.hash == hash;
      if dismissed { reservation := None; }
    }

    // commit_event: a reservation for another event is dropped first.
    method CommitEvent(e: Event) returns (r: Outcome<()>)
      modifies this
      ensures State() == old(State()) || State() in CommitImages(WithoutForeign(old(State()), e), e)
      ensures r.Done? ==> State() == CommitImages(WithoutForeign(old(State()), e), e)[3]
      ensures r.Refused? ==> !Contains(lines, e.hash) && Size(lines, length) + length(e) > capacity
    {
      if reservation.Some? && reservation.value.hash != e.hash {
        if * { return Crashed; }
        reservation := None;
      }
      if * { return Crashed; }
      r := AppendAndSeal(e);
    }
  }

  function WithoutForeign(f: Files, e: Event): Files {
    if f.reservation.Some? && f.reservation.value.hash != e.hash then f.(reservation := None) else f
  }

  lemma ReservedHasRoom(f: Files, e: Event, length: Event -> nat, capacity: nat)
    requires Sound(f, length, capacity) && f.reservation == Some(e)
    ensures Contains(f.lines, e.hash) || Size(f.lines, length) + length(e) <= capacity
  {
    if AlreadyAppended(f, e) {
      assert f.lines[|f.lines| - 1] in f.lines;
    }
  }
}
