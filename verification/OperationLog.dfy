// python/rill_xray_agent/operation.py: the write-ahead log that commits a state
// file, closed-ledger tombstones and an audit event as one operation. A crash
// stops a method after any durable write.

module OperationLog {
  import opened Collections
  import opened ClosedLedger
  import A = AuditLog

  datatype Intent<S> = Intent(opId: string, pre: Option<S>, post: S, mutations: seq<Mutation>, event: A.Event)

  // Everything durable. File hashes are compared as the contents they stand for.
  datatype Disk<S> = Disk(state: Option<S>, intents: seq<Intent<S>>, terminals: set<string>,
                          ledger: Entries, audit: A.Files)

  datatype Limits = Limits(length: A.Event -> nat, capacity: nat, maxEntries: nat)

  predicate Written<S>(d: Disk<S>, it: Intent<S>) {
    A.Contains(d.audit.lines, it.event.hash)
  }

  // ---- recovery's choice ---------------------------------------------------------

  datatype Decision = HealTerminal | KeepLedger | HealLedger | SealAudit | RestoreState | Cancel | Undeterminable

  // The branches of _recover_one.
  function Decide<S(==)>(d: Disk<S>, it: Intent<S>): Decision {
    if it.opId in d.terminals then HealTerminal
    else if it.mutations != [] && AllApplied(d.ledger, it.mutations) then KeepLedger
    else if it.mutations != [] && d.state == Some(it.post) then HealLedger
    else if d.state == Some(it.post) then SealAudit
    else if d.state == it.pre then
      if it.mutations != [] || !Written(d, it) then Cancel else RestoreState
    else Undeterminable
  }

  // ---- what an unfinished operation can look like ----------------------------------

  ghost predicate WellStarted<S>(chain: seq<A.Event>, it: Intent<S>) {
    && A.ChainEnd(chain).Some? && A.Links(A.ChainEnd(chain).value, it.event)
    && forall m :: m in it.mutations ==> m.PutClosedDecision?
  }

  // `base` and `chain` are the ledger and the audit lines at the time of the intent.
  ghost predicate InFlight<S>(d: Disk<S>, base: Entries, chain: seq<A.Event>, it: Intent<S>, limits: Limits) {
    && d.intents == [it] && WellStarted(chain, it)
    && A.Sound(d.audit, limits.length, limits.capacity)
    && (d.audit.reservation == None || d.audit.reservation == Some(it.event))
    && GrowsBy(base, d.ledger, it.mutations) && PutPrefix(base, d.ledger, it.mutations, limits.maxEntries)
    && (d.state == it.pre || d.state == Some(it.post))
    && (d.ledger != base ==> d.state == Some(it.post))
    && (it.opId in d.terminals ==> Written(d, it))
    && if Written(d, it) then Sealed(d, chain, it) else Unsealed(d, chain, it)
  }

  ghost predicate Sealed<S>(d: Disk<S>, chain: seq<A.Event>, it: Intent<S>) {
    d.audit.lines == chain + [it.event] && d.state == Some(it.post) && AllApplied(d.ledger, it.mutations)
  }

  // The reservation is only ever dropped unsealed when nothing has happened yet.
  ghost predicate Unsealed<S>(d: Disk<S>, chain: seq<A.Event>, it: Intent<S>) {
    d.audit.lines == chain && (d.audit.reservation == None ==> Decide(d, it) == Cancel)
  }

  ghost predicate Happened<S>(d: Disk<S>, base: Entries, chain: seq<A.Event>, it: Intent<S>) {
    && d.intents == [] && d.state == Some(it.post) && AllApplied(d.ledger, it.mutations)
    && GrowsBy(base, d.ledger, it.mutations) && d.audit.lines == chain + [it.event]
  }

  // The post-state, every tombstone and the audit event, last in the log.
  ghost predicate AllThere<S>(d: Disk<S>, base: Entries, it: Intent<S>) {
    && d.intents == [] && d.state == Some(it.post) && AllApplied(d.ledger, it.mutations) && GrowsBy(base, d.ledger, it.mutations)
    && d.audit.lines != [] && d.audit.lines[|d.audit.lines| - 1] == it.event
  }

  ghost predicate NeverHappened<S>(d: Disk<S>, base: Entries, chain: seq<A.Event>, it: Intent<S>) {
    d.intents == [] && d.state == it.pre && d.ledger == base && d.audit.lines == chain
  }

  // The two branches that would give up or guess are unreachable, and an
  // operation is cancelled only when nothing of it has happened.
  lemma DecisionIsSafe<S>(d: Disk<S>, base: Entries, chain: seq<A.Event>, it: Intent<S>, limits: Limits)
    requires InFlight(d, base, chain, it, limits)
    ensures Decide(d, it) !in {Undeterminable, RestoreState}
    ensures Decide(d, it) == Cancel ==> d.state == it.pre && d.ledger == base && d.audit.lines == chain
    ensures !Written(d, it) && Decide(d, it) != Cancel ==> d.audit.reservation == Some(it.event)
  {
  }

  // ---- each durable write keeps the operation in flight ------------------------------

  lemma IntentStarts<S>(d: Disk<S>, chain: seq<A.Event>, it: Intent<S>, limits: Limits)
    requires d.intents == [] && d.state == it.pre && it.opId !in d.terminals
    requires d.audit.lines == chain && A.Reserved(d.audit, it.event, limits.length, limits.capacity)
    requires forall m :: m in it.mutations ==> m.PutClosedDecision?
    ensures InFlight(d.(intents := [it]), d.ledger, chain, it, limits)
    ensures !Written(d, it)
  {
    A.NextIsNew(chain, it.event);
    NothingPutYet(d.ledger, it.mutations, limits.maxEntries);
  }

  lemma StateAdvances<S>(d: Disk<S>, base: Entries, chain: seq<A.Event>, it: Intent<S>, limits: Limits)
    requires InFlight(d, base, chain, it, limits)
    requires Written(d, it) || d.audit.reservation == Some(it.event)
    ensures InFlight(d.(state := Some(it.post)), base, chain, it, limits)
    ensures Written(d.(state := Some(it.post)), it) == Written(d, it)
  {
  }

  lemma LedgerAdvances<S>(d: Disk<S>, after: Entries, base: Entries, chain: seq<A.Event>, it: Intent<S>, limits: Limits)
    requires InFlight(d, base, chain, it, limits) && d.state == Some(it.post)
    requires PutPrefix(d.ledger, after, it.mutations, limits.maxEntries)
    requires Written(d, it) || d.audit.reservation == Some(it.event)
    ensures InFlight(d.(ledger := after), base, chain, it, limits)
    ensures Written(d.(ledger := after), it) == Written(d, it)
  {
    PrefixGrows(d.ledger, after, it.mutations, limits.maxEntries);
    GrowthIsTransitive(base, d.ledger, after, it.mutations, it.mutations, it.mutations);
    PrefixesCompose(base, d.ledger, after, it.mutations, limits.maxEntries);
    if Written(d, it) {
      GrowthKeepsApplied(d.ledger, after, it.mutations, it.mutations);
    }
  }

  lemma AuditAdvances<S>(d: Disk<S>, audit: A.Files, base: Entries, chain: seq<A.Event>, it: Intent<S>, limits: Limits)
    requires InFlight(d, base, chain, it, limits) && d.state == Some(it.post) && AllApplied(d.ledger, it.mutations)
    requires !Written(d, it) && d.audit.reservation == Some(it.event)
    requires audit in A.CommitImages(d.audit, it.event)
    ensures InFlight(d.(audit := audit), base, chain, it, limits)
    ensures audit == A.CommitImages(d.audit, it.event)[3] ==> Written(d.(audit := audit), it)
  {
    A.CommitStaysSound(d.audit, it.event, limits.length, limits.capacity);
    A.ChainExtends(chain, it.event);
  }

  lemma CommitHasRoom<S>(d: Disk<S>, base: Entries, chain: seq<A.Event>, it: Intent<S>, limits: Limits)
    requires InFlight(d, base, chain, it, limits) && !Written(d, it) && d.audit.reservation == Some(it.event)
    ensures A.WithoutForeign(d.audit, it.event) == d.audit
    ensures A.Size(d.audit.lines, limits.length) + limits.length(it.event) <= limits.capacity
  {
    A.ReservedHasRoom(d.audit, it.event, limits.length, limits.capacity);
  }

  // dismiss_pending of the operation's own event, when it is cancelled.
  lemma DismissalKeepsCancelling<S>(d: Disk<S>, base: Entries, chain: seq<A.Event>, it: Intent<S>, limits: Limits)
    requires InFlight(d, base, chain, it, limits) && Decide(d, it) == Cancel
    ensures var e := d.(audit := d.audit.(reservation := None));
      InFlight(e, base, chain, it, limits) && Decide(e, it) == Cancel
  {
    assert A.AlreadyAppended(d.audit, it.event) ==> it.event in d.audit.lines;
  }

  // ---- the whole run -----------------------------------------------------------------

  // `places[i]` is the audit line of the i-th completed operation.
  ghost predicate Recorded<S>(op: Intent<S>, place: nat, ledger: Entries, lines: seq<A.Event>, terminals: set<string>) {
    place < |lines| && lines[place] == op.event && AllApplied(ledger, op.mutations) && op.opId in terminals
  }

  function Final<S>(start: Option<S>, done: seq<Intent<S>>): Option<S> {
    if done == [] then start else Some(done[|done| - 1].post)
  }

  // Completed operations form one serial history: each started from the state the
  // one before left, has all its tombstones and its own audit line, in order.
  ghost predicate Serial<S>(start: Option<S>, done: seq<Intent<S>>, places: seq<nat>,
                            ledger: Entries, lines: seq<A.Event>, terminals: set<string>) {
    && |places| == |done|
    && (forall i :: 0 <= i < |done| ==> Recorded(done[i], places[i], ledger, lines, terminals))
    && (forall i :: 0 <= i < |done| ==> done[i].pre == Final(start, done[..i]))
    && (forall i, j :: 0 <= i < j < |done| ==> places[i] < places[j])
  }

  lemma SerialGrows<S>(start: Option<S>, done: seq<Intent<S>>, places: seq<nat>, added: seq<Mutation>,
                       ledger: Entries, lines: seq<A.Event>, terminals: set<string>,
                       ledger': Entries, lines': seq<A.Event>, terminals': set<string>)
    requires Serial(start, done, places, ledger, lines, terminals)
    requires GrowsBy(ledger, ledger', added) && lines <= lines' && terminals <= terminals'
    ensures Serial(start, done, places, ledger', lines', terminals')
  {
    forall i | 0 <= i < |done| ensures Recorded(done[i], places[i], ledger', lines', terminals') {
      assert Recorded(done[i], places[i], ledger, lines, terminals);
      GrowthKeepsApplied(ledger, ledger', added, done[i].mutations);
    }
  }

  lemma SerialAppends<S>(start: Option<S>, done: seq<Intent<S>>, places: seq<nat>, it: Intent<S>,
                         ledger: Entries, chain: seq<A.Event>, terminals: set<string>)
    requires Serial(start, done, places, ledger, chain, terminals)
    requires it.pre == Final(start, done) && AllApplied(ledger, it.mutations)
    ensures Serial(start, done + [it], places + [|chain|], ledger, chain + [it.event], terminals + {it.opId})
    ensures Final(start, done + [it]) == Some(it.post)
  {
    SerialGrows(start, done, places, [], ledger, chain, terminals, ledger, chain + [it.event], terminals + {it.opId});
    var after := done + [it];
    forall i | 0 <= i < |after| ensures after[i].pre == Final(start, after[..i]) {
      assert after[..i] == done[..i];
      assert done[..|done|] == done;
    }
    forall i | 0 <= i < |after|
      ensures Recorded(after[i], (places + [|chain|])[i], ledger, chain + [it.event], terminals + {it.opId})
    {
      if i < |done| {
        assert Recorded(done[i], places[i], ledger, chain + [it.event], terminals + {it.opId});
      }
    }
    forall i, j | 0 <= i < j < |after| ensures (places + [|chain|])[i] < (places + [|chain|])[j] {
      assert Recorded(done[i], places[i], ledger, chain, terminals);
    }
  }

  // What holds between any two durable writes of a run.
  ghost predicate Consistent<S>(d: Disk<S>, limits: Limits, start: Option<S>, done: seq<Intent<S>>, places: seq<nat>,
                                base: Entries, chain: seq<A.Event>) {
    if d.intents == [] then
      && A.Sound(d.audit, limits.length, limits.capacity)
      && d.state == Final(start, done)
      && Serial(start, done, places, d.ledger, d.audit.lines, d.terminals)
    else
      && InFlight(d, base, chain, d.intents[0], limits)
      && d.intents[0].pre == Final(start, done)
      && Serial(start, done, places, base, chain, d.terminals)
  }

  lemma TerminalKeepsPending<S>(d: Disk<S>, limits: Limits, start: Option<S>, done: seq<Intent<S>>, places: seq<nat>,
                                base: Entries, chain: seq<A.Event>, it: Intent<S>)
    requires InFlight(d, base, chain, it, limits) && Written(d, it)
    requires Serial(start, done, places, base, chain, d.terminals)
    ensures var e := d.(terminals := d.terminals + {it.opId});
      InFlight(e, base, chain, it, limits) && Serial(start, done, places, base, chain, e.terminals)
  {
    SerialGrows(start, done, places, [], base, chain, d.terminals, base, chain, d.terminals + {it.opId});
  }

  lemma HistoryAppends<S>(d: Disk<S>, start: Option<S>, done: seq<Intent<S>>, places: seq<nat>,
                          base: Entries, chain: seq<A.Event>, it: Intent<S>)
    requires Sealed(d, chain, it) && GrowsBy(base, d.ledger, it.mutations) && it.opId in d.terminals
    requires Serial(start, done, places, base, chain, d.terminals) && it.pre == Final(start, done)
    ensures Serial(start, done + [it], places + [|chain|], d.ledger, d.audit.lines, d.terminals)
    ensures d.state == Final(start, done + [it])
  {
    SerialGrows(start, done, places, it.mutations, base, chain, d.terminals, d.ledger, chain, d.terminals);
    SerialAppends(start, done, places, it, d.ledger, chain, d.terminals);
    assert d.terminals + {it.opId} == d.terminals;
  }

  lemma Concludes<S>(d: Disk<S>, limits: Limits, start: Option<S>, done: seq<Intent<S>>, places: seq<nat>,
                     base: Entries, chain: seq<A.Event>, it: Intent<S>)
    requires InFlight(d, base, chain, it, limits) && Written(d, it) && it.opId in d.terminals
    requires Serial(start, done, places, base, chain, d.terminals) && it.pre == Final(start, done)
    ensures Happened(d.(intents := []), base, chain, it)
    ensures Consistent(d.(intents := []), limits, start, done + [it], places + [|chain|], base, chain)
  {
    HistoryAppends(d, start, done, places, base, chain, it);
  }

  lemma CancelConcludes<S>(d: Disk<S>, limits: Limits, start: Option<S>, done: seq<Intent<S>>, places: seq<nat>,
                           base: Entries, chain: seq<A.Event>, it: Intent<S>)
    requires InFlight(d, base, chain, it, limits) && Decide(d, it) == Cancel
    requires Serial(start, done, places, base, chain, d.terminals) && it.pre == Final(start, done)
    ensures NeverHappened(d.(intents := []), base, chain, it)
    ensures Consistent(d.(intents := []), limits, start, done, places, base, chain)
  {
    DecisionIsSafe(d, base, chain, it, limits);
  }

  // Exactly when: the operation is stuck iff some stored tombstone contradicts it.
  lemma TerminalHealsIffMetadataAgree<S>(d: Disk<S>, base: Entries, chain: seq<A.Event>, it: Intent<S>, limits: Limits, maxEntries: nat)
    requires InFlight(d, base, chain, it, limits) && it.opId in d.terminals
    ensures AllApplied(d.ledger, it.mutations)
    ensures PutAll(d.ledger, maxEntries, it.mutations) == (d.ledger, None) <==>
            forall i :: 0 <= i < |it.mutations| ==>
              MetadataAgrees(d.ledger[it.mutations[i].decision].tombstone, it.mutations[i].tombstone)
  {
    PutAllAgain(d.ledger, maxEntries, it.mutations);
  }

  // ---- when the ledger refuses ---------------------------------------------------------

  // Recovery will neither complete nor cancel: the state is written, and the ledger
  // refuses what it still has to be healed with.
  ghost predicate Stranded<S>(d: Disk<S>, base: Entries, it: Intent<S>, maxEntries: nat) {
    && PutAll(base, maxEntries, it.mutations).1.Some? && d.state == Some(it.post)
    && (it.opId in d.terminals || !AllApplied(d.ledger, it.mutations))
  }

  // The verdict of the ledger is the one it had before the first put.
  lemma HealVerdict<S>(d: Disk<S>, base: Entries, chain: seq<A.Event>, it: Intent<S>, limits: Limits)
    requires InFlight(d, base, chain, it, limits)
    ensures PutAll(d.ledger, limits.maxEntries, it.mutations).1 == PutAll(base, limits.maxEntries, it.mutations).1
    ensures it.mutations == [] ==> PutAll(base, limits.maxEntries, it.mutations).1 == None
    ensures Stranded(d, base, it, limits.maxEntries) <==>
            Decide(d, it) in {HealTerminal, HealLedger} && PutAll(base, limits.maxEntries, it.mutations).1.Some?
  {
    PrefixKeepsVerdict(base, d.ledger, it.mutations, limits.maxEntries);
  }

  // Behind its reservation, an operation can come to the state write, ...
  lemma StateCanBeWritten<S>(d: Disk<S>, chain: seq<A.Event>, it: Intent<S>, limits: Limits)
    requires d.intents == [] && d.state == it.pre && it.opId !in d.terminals
    requires d.audit.lines == chain && A.Reserved(d.audit, it.event, limits.length, limits.capacity)
    requires forall m :: m in it.mutations ==> m.PutClosedDecision?
    ensures var e := d.(intents := [it], state := Some(it.post));
      InFlight(e, d.ledger, chain, it, limits) && !Written(e, it)
  {
    IntentStarts(d, chain, it, limits);
    StateAdvances(d.(intents := [it]), d.ledger, chain, it, limits);
  }

  // ... and, if its tombstones are stored already, to the terminal marker.
  lemma TerminalCanBeWritten<S>(d: Disk<S>, chain: seq<A.Event>, it: Intent<S>, limits: Limits) returns (e: Disk<S>)
    requires d.intents == [] && d.state == it.pre && it.opId !in d.terminals
    requires d.audit.lines == chain && A.Reserved(d.audit, it.event, limits.length, limits.capacity)
    requires (forall m :: m in it.mutations ==> m.PutClosedDecision?) && AllApplied(d.ledger, it.mutations)
    ensures InFlight(e, d.ledger, chain, it, limits) && it.opId in e.terminals && e.state == Some(it.post)
  {
    StateCanBeWritten(d, chain, it, limits);
    var moved := d.(intents := [it], state := Some(it.post));
    var sealed := A.CommitImages(d.audit, it.event)[3];
    AuditAdvances(moved, sealed, d.ledger, chain, it, limits);
    e := moved.(audit := sealed).(terminals := d.terminals + {it.opId});
  }

  // _ledger_applied compares less than put_hashed does, so recovery may complete an
  // operation next to a tombstone with other metadata; if it stops after the
  // terminal marker, the next recovery is refused by the ledger although the
  // operation has happened in full.
  lemma TerminalHealCanBeRefused(identity: Identity, feedback: Feedback)
    ensures exists d: Disk<string>, base, chain, it, limits ::
      InFlight(d, base, chain, it, limits) && Decide(d, it) == HealTerminal && Sealed(d, chain, it)
      && PutAll(d.ledger, 0, it.mutations).1 == Some(TombstoneConflict)
  {
    var stored := Tombstone(OfIdentity(identity), OfFeedback(feedback), 0, Some("doctor"), None);
    var m := PutClosedDecision(OfDecision(identity.decisionId), stored.(capability := Some("resource")));
    var event := A.Built(A.Head(0, A.Genesis), A.Payload("feedback", "runtime", "", 0));
    var it := Intent("op", Some("pre"), "post", [m], event);
    var base: Entries := map[m.decision := Stored(stored)];
    var limits := Limits((_: A.Event) => 1, 10, 0);
    assert A.Size([], limits.length) == 0;
    assert Applied(base, m);
    var d := TerminalCanBeWritten(Disk(Some("pre"), [], {}, base, A.Files([], None, Some(event))), [], it, limits);
    HealVerdict(d, base, [], it, limits);
    assert PutAll(base, 0, [m][..0]) == (base, None);
  }

  // All or nothing, over every state that crashes can leave: exactly when the ledger
  // accepts the operation's mutations at the time of its intent.
  lemma AllOrNothingIffAccepted<S(!new)>(d: Disk<S>, chain: seq<A.Event>, it: Intent<S>, limits: Limits)
    requires d.intents == [] && d.state == it.pre && it.opId !in d.terminals
    requires d.audit.lines == chain && A.Reserved(d.audit, it.event, limits.length, limits.capacity)
    requires forall m :: m in it.mutations ==> m.PutClosedDecision?
    ensures (forall e: Disk<S> :: InFlight(e, d.ledger, chain, it, limits) ==> !Stranded(e, d.ledger, it, limits.maxEntries))
            <==> PutAll(d.ledger, limits.maxEntries, it.mutations).1 == None
  {
    if PutAll(d.ledger, limits.maxEntries, it.mutations).1.Some? {
      if AllApplied(d.ledger, it.mutations) {
        var e := TerminalCanBeWritten(d, chain, it, limits);
        assert Stranded(e, d.ledger, it, limits.maxEntries);
      } else {
        StateCanBeWritten(d, chain, it, limits);
        assert Stranded(d.(intents := [it], state := Some(it.post)), d.ledger, it, limits.maxEntries);
      }
    }
  }

  // The plainest such input: a full ledger. A crash right after the state write, or
  // the refused put itself, leaves the state without its tombstone for good.
  lemma FullLedgerStrandsOperation<S>(d: Disk<S>, chain: seq<A.Event>, it: Intent<S>, limits: Limits)
    requires d.intents == [] && d.state == it.pre && it.opId !in d.terminals
    requires d.audit.lines == chain && A.Reserved(d.audit, it.event, limits.length, limits.capacity)
    requires |it.mutations| == 1 && it.mutations[0].PutClosedDecision? && it.mutations[0].decision !in d.ledger
    requires 0 < limits.maxEntries <= |d.ledger|
    ensures PutAll(d.ledger, limits.maxEntries, it.mutations) == (d.ledger, Some(LedgerFull))
    ensures forall e: Disk<S> :: InFlight(e, d.ledger, chain, it, limits) ==>
              e.ledger == d.ledger && (Stranded(e, d.ledger, it, limits.maxEntries) <==> e.state == Some(it.post))
    ensures InFlight(d.(intents := [it], state := Some(it.post)), d.ledger, chain, it, limits)
  {
    var ms := it.mutations;
    assert ms[..0] == [] && ms[..1] == ms;
    assert PutAll(d.ledger, limits.maxEntries, ms[..0]) == (d.ledger, None);
    StateCanBeWritten(d, chain, it, limits);
    forall e: Disk<S> | InFlight(e, d.ledger, chain, it, limits)
      ensures e.ledger == d.ledger && (Stranded(e, d.ledger, it, limits.maxEntries) <==> e.state == Some(it.post))
    {
      var k: nat :| k <= |ms| && PrefixIs(d.ledger, e.ledger, ms, limits.maxEntries, k);
      assert k == 0;
      assert !Applied(e.ledger, ms[0]);
    }
  }

  // ---- the log itself ----------------------------------------------------------------

  // The state callback: it computes, and only declares its ledger mutations.
  datatype Change<S> = Rejected | Idempotent | Post(state: S, mutations: seq<Mutation>)

  // What the ledger will say to a change.
  function Verdict<S>(change: Change<S>, entries: Entries, maxEntries: nat): Option<Fault> {
    if change.Post? then PutAll(entries, maxEntries, change.mutations).1 else None
  }

  // A mutation of it is not one that the ledger knows.
  predicate HasMalformed<S>(change: Change<S>) {
    change.Post? && exists m :: m in change.mutations && !m.PutClosedDecision?
  }

  datatype Executed = Fenced | NothingToDo | InvalidMutation | AuditRefused | LedgerRefused(fault: Fault) | Completed | Crashed

  datatype Recovery = NothingPending | Recovered | Cancelled | Unresolved(fault: Fault) | Unknowable | Interrupted

  datatype Healed = Healed | Refused(fault: Fault) | HealCrashed

  method PutEach(ledger: Ledger, ms: seq<Mutation>) returns (r: Healed)
    requires forall m :: m in ms ==> m.PutClosedDecision?
    modifies ledger
    ensures PutPrefix(old(ledger.entries), ledger.entries, ms, ledger.maxEntries)
    ensures r.Healed? ==> AllApplied(ledger.entries, ms) && PutAll(old(ledger.entries), ledger.maxEntries, ms).1 == None
    ensures r.Refused? ==> PutAll(old(ledger.entries), ledger.maxEntries, ms).1 == Some(r.fault)
  {
    ghost var before := ledger.entries;
    for i := 0 to |ms|
      invariant PrefixIs(before, ledger.entries, ms, ledger.maxEntries, i)
    {
      assert ms[..i + 1][..i] == ms[..i];
      if * { return HealCrashed; }
      var m := ms[i];
      assert m in ms;
      var put := ledger.PutHashed(m.decision, m.tombstone);
      if put.Err? {
        FirstFaultIsReported(before, ledger.maxEntries, ms, i + 1);
        return Refused(put.error);
      }
    }
    assert ms[..|ms|] == ms;
    PutAllGrows(before, ledger.maxEntries, ms);
    return Healed;
  }

  class OperationLog<S(==)> {
    const audit: A.Log
    const ledger: Ledger
    var state: Option<S>
    var intents: seq<Intent<S>>
    var terminals: set<string>
    ghost const start: Option<S>
    ghost var base: Entries
    ghost var chain: seq<A.Event>
    ghost var done: seq<Intent<S>>
    ghost var places: seq<nat>

    constructor (audit: A.Log, ledger: Ledger, state: Option<S>)
      requires audit.Valid()
      ensures this.audit == audit && this.ledger == ledger && this.state == state && intents == [] && Valid()
    {
      this.audit, this.ledger, this.state, intents, terminals := audit, ledger, state, [], {};
      start, base, chain, done, places := state, map[], [], [], [];
    }

    function Snapshot(): Disk<S>
      reads this, audit, ledger
    {
      Disk(state, intents, terminals, ledger.entries, audit.State())
    }

    function Limit(): Limits {
      Limits(audit.length, audit.capacity, ledger.maxEntries)
    }

    ghost predicate Valid()
      reads this, audit, ledger
    {
      |intents| <= 1 && Consistent(Snapshot(), Limit(), start, done, places, base, chain)
    }

    ghost predicate Pending(it: Intent<S>)
      reads this, audit, ledger
    {
      && InFlight(Snapshot(), base, chain, it, Limit()) && it.pre == Final(start, done)
      && Serial(start, done, places, base, chain, terminals)
    }

    // An unsealed operation that is under way still has its reservation.
    ghost predicate Moving(it: Intent<S>)
      reads this, audit, ledger
    {
      Pending(it) && (Written(Snapshot(), it) || audit.reservation == Some(it.event))
    }

    method WriteState(it: Intent<S>)
      requires Moving(it)
      modifies this`state
      ensures Moving(it) && state == Some(it.post) && Written(Snapshot(), it) == old(Written(Snapshot(), it))
    {
      StateAdvances(Snapshot(), base, chain, it, Limit());
      state := Some(it.post);
    }

    // _heal_ledger: the mutations in order; each put is durable on its own.
    method HealLedger(it: Intent<S>) returns (r: Healed)
      requires Moving(it) && state == Some(it.post)
      modifies ledger
      ensures Moving(it) && Written(Snapshot(), it) == old(Written(Snapshot(), it))
      ensures r.Healed? ==> AllApplied(ledger.entries, it.mutations) && PutAll(base, ledger.maxEntries, it.mutations).1 == None
      ensures r.Refused? ==> PutAll(base, ledger.maxEntries, it.mutations).1 == Some(r.fault)
    {
      ghost var snapshot := Snapshot();
      HealVerdict(snapshot, base, chain, it, Limit());
      r := PutEach(ledger, it.mutations);
      LedgerAdvances(snapshot, ledger.entries, base, chain, it, Limit());
      assert Snapshot() == snapshot.(ledger := ledger.entries);
    }

    // commit_event, unless the event is in the log already.
    method CommitAudit(it: Intent<S>) returns (ok: bool)
      requires Moving(it) && state == Some(it.post) && AllApplied(ledger.entries, it.mutations)
      modifies audit
      ensures Pending(it) && (ok ==> Written(Snapshot(), it))
    {
      var written := A.Contains(audit.lines, it.event.hash);
      if written { return true; }
      ghost var before := Snapshot();
      CommitHasRoom(before, base, chain, it, Limit());
      var r := audit.CommitEvent(it.event);
      ghost var after := audit.State();
      if after != before.audit {
        AuditAdvances(before, after, base, chain, it, Limit());
        assert Snapshot() == before.(audit := after);
      }
      return r.Done?;
    }

    // Terminal marker, then the intent is dropped.
    method Finish(it: Intent<S>) returns (ok: bool)
      requires Pending(it) && Written(Snapshot(), it)
      modifies this
      ensures Valid()
      ensures base == old(base) && chain == old(chain)
      ensures ok ==> Happened(Snapshot(), base, chain, it) && done == old(done) + [it]
      ensures !ok ==> Pending(it) && done == old(done)
    {
      if * { return false; }
      MarkTerminal(it);
      if * { return false; }
      Cleanup(it);
      return true;
    }

    method MarkTerminal(it: Intent<S>)
      requires Pending(it) && Written(Snapshot(), it)
      modifies this`terminals
      ensures Pending(it) && Written(Snapshot(), it) && terminals == old(terminals) + {it.opId}
    {
      ghost var before := Snapshot();
      TerminalKeepsPending(before, Limit(), start, done, places, base, chain, it);
      terminals := terminals + {it.opId};
      assert Snapshot() == before.(terminals := terminals);
    }

    method Cleanup(it: Intent<S>)
      requires Pending(it) && Written(Snapshot(), it) && it.opId in terminals
      modifies this
      ensures Valid()
      ensures Happened(Snapshot(), base, chain, it) && done == old(done) + [it]
      ensures base == old(base) && chain == old(chain)
    {
      Concludes(Snapshot(), Limit(), start, done, places, base, chain, it);
      intents := [];
      done, places := done + [it], places + [|chain|];
    }

    // Nothing of the operation has happened: drop its reservation and its intent.
    method CancelOne(it: Intent<S>) returns (ok: bool)
      requires Pending(it) && Decide(Snapshot(), it) == Cancel
      modifies this, audit`reservation
      ensures Valid() && base == old(base) && chain == old(chain) && done == old(done)
      ensures ok ==> NeverHappened(Snapshot(), base, chain, it)
      ensures !ok ==> Pending(it)
    {
      if * { return false; }
      DismissalKeepsCancelling(Snapshot(), base, chain, it, Limit());
      var _ := audit.DismissPending(it.event.hash);
      if * { return false; }
      CancelConcludes(Snapshot(), Limit(), start, done, places, base, chain, it);
      intents := [];
      return true;
    }

    method CommitAndFinish(it: Intent<S>) returns (ok: bool)
      requires Moving(it) && state == Some(it.post) && AllApplied(ledger.entries, it.mutations)
      modifies this, audit
      ensures Valid()
      ensures base == old(base) && chain == old(chain)
      ensures ok ==> Happened(Snapshot(), base, chain, it) && done == old(done) + [it]
      ensures !ok ==> Pending(it) && done == old(done)
    {
      ok := CommitAudit(it);
      if !ok { return; }
      ok := Finish(it);
    }

    // The branch for an operation whose terminal marker is already there.
    method RecoverTerminal(it: Intent<S>) returns (r: Recovery)
      requires Moving(it) && it.opId in terminals
      modifies this, audit, ledger
      ensures Outcome(r, it, old(base), old(chain), old(done), old(Stranded(Snapshot(), base, it, ledger.maxEntries)))
    {
      HealVerdict(Snapshot(), base, chain, it, Limit());
      if state != Some(it.post) {
        // A terminal operation never lacks its state.
        assert false;
      }
      var healed := HealLedger(it);
      match healed {
        case HealCrashed => return Interrupted;
        case Refused(fault) => return Unresolved(fault);
        case Healed =>
          var committed := CommitAudit(it);
          if !committed { return Interrupted; }
          if * { return Interrupted; }
          Cleanup(it);
          return Recovered;
      }
    }

    // What a recovery of `it` may end in; it is unresolved exactly when it was stranded.
    ghost predicate Outcome(r: Recovery, it: Intent<S>, base0: Entries, chain0: seq<A.Event>, done0: seq<Intent<S>>, stranded: bool)
      reads this, audit, ledger
    {
      && Valid()
      && (r.Recovered? ==> Happened(Snapshot(), base0, chain0, it) && done == done0 + [it])
      && (r.Cancelled? ==> NeverHappened(Snapshot(), base0, chain0, it) && done == done0)
      && (r.Unresolved? ==> state == Some(it.post) && PutAll(base0, ledger.maxEntries, it.mutations).1 == Some(r.fault))
      && (!r.Interrupted? ==> (r.Unresolved? <==> stranded))
      && (r.Unresolved? || r.Interrupted? ==> Pending(it) && base == base0 && chain == chain0 && done == done0)
      && !r.Unknowable? && !r.NothingPending?
    }

    // The branches for a written state without all of its tombstones.
    method RecoverWritten(it: Intent<S>) returns (r: Recovery)
      requires Moving(it) && state == Some(it.post) && it.opId !in terminals
      requires it.mutations == [] || !AllApplied(ledger.entries, it.mutations)
      modifies this, audit, ledger
      ensures Outcome(r, it, old(base), old(chain), old(done), old(Stranded(Snapshot(), base, it, ledger.maxEntries)))
    {
      HealVerdict(Snapshot(), base, chain, it, Limit());
      if it.mutations != [] {
        var healed := HealLedger(it);
        match healed {
          case HealCrashed => return Interrupted;
          case Refused(fault) => return Unresolved(fault);
          case Healed =>
        }
      }
      var ok := CommitAndFinish(it);
      return if ok then Recovered else Interrupted;
    }

    // The branch for tombstones that are all stored: complete, never cancel.
    method RecoverApplied(it: Intent<S>) returns (r: Recovery)
      requires Pending(it) && it.opId !in terminals && it.mutations != [] && AllApplied(ledger.entries, it.mutations)
      modifies this, audit
      ensures Outcome(r, it, old(base), old(chain), old(done), false)
    {
      DecisionIsSafe(Snapshot(), base, chain, it, Limit());
      if state != Some(it.post) {
        if * { return Interrupted; }
        WriteState(it);
      }
      var ok := CommitAndFinish(it);
      return if ok then Recovered else Interrupted;
    }

    // The branch for a state that was not written, and nothing else either.
    method RecoverUntouched(it: Intent<S>) returns (r: Recovery)
      requires Pending(it) && Decide(Snapshot(), it) == Cancel
      modifies this, audit`reservation
      ensures Outcome(r, it, old(base), old(chain), old(done), false)
    {
      var ok := CancelOne(it);
      return if ok then Cancelled else Interrupted;
    }

    // _recover_one
    method RecoverOne(it: Intent<S>) returns (r: Recovery)
      requires Pending(it)
      modifies this, audit, ledger
      ensures Outcome(r, it, old(base), old(chain), old(done), old(Stranded(Snapshot(), base, it, ledger.maxEntries)))
    {
      DecisionIsSafe(Snapshot(), base, chain, it, Limit());
      var hasLedger := it.mutations != [];
      var applied := AllApplied(ledger.entries, it.mutations);
      var written := A.Contains(audit.lines, it.event.hash);
      if it.opId in terminals {
        r := RecoverTerminal(it);
      } else if hasLedger && applied {
        r := RecoverApplied(it);
      } else if state == Some(it.post) {
        r := RecoverWritten(it);
      } else if state == it.pre {
        if hasLedger || !written {
          r := RecoverUntouched(it);
        } else {
          // Restoring a state behind its audit event is never needed.
          assert false;
        }
      } else {
        assert false;
      }
    }

    // recover: every pending intent in turn.
    method Recover() returns (r: Recovery)
      requires Valid()
      modifies this, audit, ledger
      ensures Valid()
      ensures old(intents) == [] ==> r.NothingPending? && Snapshot() == old(Snapshot()) && done == old(done)
      ensures old(intents) != [] ==> Outcome(r, old(intents)[0], old(base), old(chain), old(done),
                                             old(Stranded(Snapshot(), base, intents[0], ledger.maxEntries)))
      ensures old(intents) != [] && old(PutAll(base, ledger.maxEntries, intents[0].mutations)).1 == None ==> !r.Unresolved?
    {
      var pending := intents;
      ghost var stranded := pending != [] && Stranded(Snapshot(), base, pending[0], ledger.maxEntries);
      r := NothingPending;
      for i := 0 to |pending|
        invariant i == 0 ==> Snapshot() == old(Snapshot()) && Valid() && r.NothingPending?
        invariant i == 0 ==> base == old(base) && chain == old(chain) && done == old(done)
        invariant i > 0 ==> Outcome(r, pending[0], old(base), old(chain), old(done), stranded)
      {
        r := RecoverOne(pending[i]);
        if r.Interrupted? { return; }
      }
    }

    ghost predicate Intended(it: Intent<S>, opId: string, payload: A.Payload, pre: Option<S>, change: Change<S>) {
      it.opId == opId && it.pre == pre && change == Post(it.post, it.mutations) && it.event.payload == payload
    }

    // After the intent is durable: state, ledger, audit, terminal, in that order.
    method CarryOut(it: Intent<S>) returns (r: Executed)
      requires Moving(it) && ledger.entries == base
      modifies this, audit, ledger
      ensures Valid() && (r.Completed? || r.Crashed? || r.LedgerRefused?)
      ensures base == old(base) && chain == old(chain)
      ensures r.Completed? ==> Happened(Snapshot(), base, chain, it) && done == old(done) + [it]
      ensures !r.Completed? ==> Pending(it) && done == old(done)
      ensures r.Completed? ==> PutAll(base, ledger.maxEntries, it.mutations).1 == None
      ensures r.LedgerRefused? ==> PutAll(base, ledger.maxEntries, it.mutations).1 == Some(r.fault)
    {
      if * { return Crashed; }
      WriteState(it);
      var healed := HealLedger(it);
      match healed {
        case HealCrashed => return Crashed;
        case Refused(fault) => return LedgerRefused(fault);
        case Healed =>
          var ok := CommitAndFinish(it);
          return if ok then Completed else Crashed;
      }
    }

    // The audit trail has no room for what is to be said.
    predicate NoRoom(payload: A.Payload)
      reads audit
    {
      A.Full(audit.State(), payload, audit.length, audit.capacity)
    }

    // Nothing but the audit trail may have moved.
    twostate predicate Untouched()
      reads this, ledger
    {
      && intents == old(intents) && state == old(state) && ledger.entries == old(ledger.entries)
      && terminals == old(terminals) && done == old(done)
    }

    method Execute(opId: string, payload: A.Payload, change: Option<S> -> Change<S>) returns (r: Executed)
      requires Valid() && opId !in terminals
      modifies this, audit, ledger
      ensures Valid()
      ensures r.Fenced? <==> old(intents) != []
      ensures r.NothingToDo? <==> old(intents) == [] && !change(old(state)).Post?
      ensures r.InvalidMutation? <==> old(intents) == [] && HasMalformed(change(old(state)))
      ensures r.AuditRefused? ==> old(NoRoom(payload))
      ensures old(NoRoom(payload)) ==> !r.Completed? && !r.LedgerRefused? && Untouched()
      ensures r in {Fenced, NothingToDo, InvalidMutation, AuditRefused} ==> Untouched()
      ensures r.Completed? ==> Committed(opId, payload, old(state), change(old(state)), old(ledger.entries), old(done))
      ensures r.Completed? ==> Verdict(change(old(state)), old(ledger.entries), ledger.maxEntries) == None
      ensures r.LedgerRefused? ==> Verdict(change(old(state)), old(ledger.entries), ledger.maxEntries) == Some(r.fault)
      ensures r.Crashed? || r.LedgerRefused? ==>
        Untouched() || Underway(opId, payload, old(state), change(old(state)), old(ledger.entries), old(done))
    {
      if intents != [] { return Fenced; }
      var after := change(state);
      if !after.Post? { return NothingToDo; }
      for i := 0 to |after.mutations|
        invariant forall k :: 0 <= k < i ==> after.mutations[k].PutClosedDecision?
      {
        if !after.mutations[i].PutClosedDecision? { return InvalidMutation; }
      }
      r := Launch(opId, payload, after.state, after.mutations);
    }

    // A new operation is in the history, with everything it asked for.
    ghost predicate Committed(opId: string, payload: A.Payload, pre: Option<S>, change: Change<S>, base0: Entries, done0: seq<Intent<S>>)
      reads this, audit, ledger
    {
      && |done| == |done0| + 1 && done[..|done0|] == done0
      && Intended(done[|done0|], opId, payload, pre, change)
      && Happened(Snapshot(), base0, chain, done[|done0|])
    }

    // It is not, but its intent is durable: recovery will decide.
    ghost predicate Underway(opId: string, payload: A.Payload, pre: Option<S>, change: Change<S>, base0: Entries, done0: seq<Intent<S>>)
      reads this, audit, ledger
    {
      && |intents| == 1 && Pending(intents[0]) && Intended(intents[0], opId, payload, pre, change)
      && base == base0 && done == done0
    }

    method Launch(opId: string, payload: A.Payload, post: S, mutations: seq<Mutation>) returns (r: Executed)
      requires Valid() && intents == [] && opId !in terminals
      requires forall m :: m in mutations ==> m.PutClosedDecision?
      modifies this, audit, ledger
      ensures Valid() && (r.Completed? || r.Crashed? || r.LedgerRefused? || r.AuditRefused?)
      ensures r.AuditRefused? ==> old(NoRoom(payload))
      ensures r.AuditRefused? || old(NoRoom(payload)) ==> !r.Completed? && !r.LedgerRefused? && Untouched()
      ensures r.Completed? ==> Committed(opId, payload, old(state), Post(post, mutations), old(ledger.entries), old(done))
      ensures r.Completed? ==> PutAll(old(ledger.entries), ledger.maxEntries, mutations).1 == None
      ensures r.LedgerRefused? ==> PutAll(old(ledger.entries), ledger.maxEntries, mutations).1 == Some(r.fault)
      ensures r.Crashed? || r.LedgerRefused? ==>
        Untouched() || Underway(opId, payload, old(state), Post(post, mutations), old(ledger.entries), old(done))
    {
      var event, reserved := Prepare(payload);
      match reserved {
        case Refused(_) => return AuditRefused;
        case Crashed => return Crashed;
        case Done(_) =>
      }
      if * { return Crashed; }
      var it := Intent(opId, state, post, mutations, event);
      Begin(it);
      r := CarryOut(it);
    }

    // Recovery after recovery, each of which may crash, until one comes to an end.
    method RecoverThroughCrashes(attempts: nat) returns (q: Recovery)
      requires Valid() && intents != []
      modifies this, audit, ledger
      ensures Valid() && !q.NothingPending? && !q.Unknowable?
      ensures q.Recovered? ==> Happened(Snapshot(), old(base), old(chain), old(intents)[0]) && done == old(done) + old(intents)
      ensures q.Cancelled? ==> NeverHappened(Snapshot(), old(base), old(chain), old(intents)[0]) && done == old(done)
      ensures q.Unresolved? ==> PutAll(old(base), ledger.maxEntries, old(intents)[0].mutations).1 == Some(q.fault)
    {
      ghost var it := intents[0];
      q := Interrupted;
      for i := 0 to attempts
        invariant q.Interrupted? && Valid()
        invariant intents == old(intents) && base == old(base) && chain == old(chain) && done == old(done)
      {
        q := Recover();
        if !q.Interrupted? { return; }
      }
    }

    // One operation through any number of crashes: of execute, and of each recovery
    // that follows. Once a recovery ends, all of it has happened or none; that the
    // ledger accepts the mutations beforehand is all it takes.
    method ExecuteThroughCrashes(opId: string, payload: A.Payload, change: Option<S> -> Change<S>, attempts: nat)
      returns (r: Executed, q: Recovery)
      requires Valid() && intents == [] && opId !in terminals
      modifies this, audit, ledger
      ensures Valid()
      ensures Verdict(change(old(state)), old(ledger.entries), ledger.maxEntries) == None ==> !r.LedgerRefused? && !q.Unresolved?
      ensures r.Completed? || q.Recovered? ==>
        |done| == |old(done)| + 1 && Intended(done[|old(done)|], opId, payload, old(state), change(old(state)))
        && AllThere(Snapshot(), old(ledger.entries), done[|old(done)|])
      ensures q.Cancelled? ==> state == old(state) && ledger.entries == old(ledger.entries) && done == old(done)
      ensures q.NothingPending? && !r.Completed? ==> Untouched()
    {
      r := Execute(opId, payload, change);
      q := NothingPending;
      if intents != [] {
        q := RecoverThroughCrashes(attempts);
      }
    }

    // build_event and reserve: done before the intent is durable, so a crash here
    // leaves a reservation that a later operation will append.
    method Prepare(payload: A.Payload) returns (event: A.Event, r: A.Outcome<()>)
      requires Valid() && intents == []
      modifies audit
      ensures Valid() && old(audit.lines) <= audit.lines
      ensures r.Refused? ==> old(NoRoom(payload))
      ensures r.Done? ==> !old(NoRoom(payload))
      ensures r.Done? ==> event.payload == payload && A.Reserved(audit.State(), event, audit.length, audit.capacity)
    {
      event := A.Built(A.Head(0, A.Genesis), payload);
      var before := audit.lines;
      var built := audit.BuildEvent(payload);
      SerialGrows(start, done, places, [], ledger.entries, before, terminals, ledger.entries, audit.lines, terminals);
      match built {
        case Crashed => return event, A.Crashed;
        case Refused(fault) => return event, A.Refused(fault);
        case Done(e) =>
          event := e;
          r := audit.Reserve(event);
      }
    }

    // The intent becomes durable.
    method Begin(it: Intent<S>)
      requires Valid() && intents == [] && state == it.pre && it.opId !in terminals
      requires A.Reserved(audit.State(), it.event, audit.length, audit.capacity)
      requires forall m :: m in it.mutations ==> m.PutClosedDecision?
      modifies this
      ensures Moving(it) && intents == [it] && base == ledger.entries && chain == audit.lines
      ensures state == old(state) && terminals == old(terminals) && done == old(done)
    {
      IntentStarts(Snapshot(), audit.lines, it, Limit());
      base, chain := ledger.entries, audit.lines;
      intents := [it];
    }
  }
}
