// python/rill_xray_agent/root_txn.py: the transaction that replaces the managed
// configuration, with the automatic-apply ledger hooks and the reconciliation of
// route_executor.py. A crash stops a method after any durable write.

module RootTransaction {
  import opened Collections
  import P = RootPolicy
  import L = AutoPolicy

  type Bytes = string

  datatype Request = Request(recommendationId: string, auto: bool, generation: nat, body: string)

  datatype Phase = Prepared | Applying | Applied | Verified | CommitIntent | RollbackIntent
                 | Committed | RolledBack | RollbackUnverified

  datatype Terminal = Success | Undone

  // Result, receipt and delivery are all determined by the bundle's body.
  datatype Body = Body(terminal: Terminal, request: Request, base: nat, next: nat, outcome: Option<string>, observedAt: int)
  datatype Seal = SealOf(body: Body)
  datatype Bundle = Bundle(body: Body, commit: Seal)

  datatype Meta = Meta(existed: bool, base: nat, next: nat)

  // `made`: the directory is there, though it may hold nothing yet.
  datatype Work = Work(made: bool, backup: Option<Bytes>, meta: Option<Meta>, request: Option<Request>, candidate: Option<Bytes>,
                       phase: Option<Phase>, bundle: Option<Bundle>, result: Option<Body>, receipt: Option<Body>)

  const EMPTY := Work(false, None, None, None, None, None, None, None, None)

  datatype Host = Host(managed: Option<Bytes>, generation: nat, delivery: Option<Body>)

  // auto_outcome_id_for: a digest of the request, and only for automatic ones.
  function OutcomeId(q: Request, digest: Request -> string): Option<string> {
    if q.auto then Some(digest(q)) else None
  }

  function BuildBundle(q: Request, base: nat, terminal: Terminal, digest: Request -> string, now: int): Bundle {
    var body := Body(terminal, q, base, if terminal == Success then base + 1 else base, OutcomeId(q, digest), now);
    Bundle(body, SealOf(body))
  }

  function PhaseOf(terminal: Terminal): Phase {
    if terminal == Success then Committed else RolledBack
  }

  // ---- what a work directory can look like ---------------------------------------

  // The transaction that the directory is for: the generation it started from, what a
  // rollback restores, what a commit puts in place, and the file that it found.
  datatype Txn = Txn(request: Request, base: nat, original: Option<Bytes>, candidate: Bytes, found: Option<Bytes>)

  // Undecided: everything needed to go back is durable, and the file is one of those.
  ghost predicate InFlight(h: Host, w: Work, t: Txn) {
    && w.bundle == None && w.phase.Some? && w.phase.value != Committed && w.phase.value != RolledBack
    && w.request == Some(t.request)
    && w.meta == Some(Meta(t.original.Some?, t.base, t.base + 1))
    && (t.original.Some? ==> w.backup == t.original)
    && h.generation == t.base
    && (h.managed == t.original || h.managed == Some(t.candidate) || h.managed == t.found)
  }

  // A durable bundle always agrees with the managed file.
  ghost predicate Decided(h: Host, w: Work, t: Txn) {
    && w.bundle.Some? && w.bundle.value.commit == SealOf(w.bundle.value.body) && w.request == Some(t.request)
    && (w.phase == Some(Committed) ==> w.bundle.value.body.terminal == Success)
    && (w.phase == Some(RolledBack) ==> w.bundle.value.body.terminal == Undone)
    && (w.phase == Some(Committed) ==> h.generation == w.bundle.value.body.next)
    && var body := w.bundle.value.body;
    && body.request == t.request && body.base == t.base
    && match body.terminal
       case Success => h.managed == Some(t.candidate) && body.next == body.base + 1 && (h.generation == body.base || h.generation == body.next)
       case Undone => h.managed == t.original && body.next == body.base == h.generation
  }

  ghost predicate Consistent(h: Host, w: Work, t: Txn) {
    if w.bundle.Some? then Decided(h, w, t)
    else if w.phase.Some? then InFlight(h, w, t)
    else h.managed == t.found
  }

  // scan_recovery_state calls the directory safe.
  predicate Safe(w: Work) {
    w.phase in {Some(Committed), Some(RolledBack)} && w.bundle.Some? && w.result.Some? && w.receipt.Some?
  }

  // The two ways a transaction can end.
  ghost predicate EndedCommitted(h: Host, w: Work, t: Txn) {
    && Safe(w) && w.phase == Some(Committed) && w.bundle.value.body.terminal == Success
    && h.managed == Some(t.candidate) && h.generation == t.base + 1
    && w.result == w.receipt == h.delivery == Some(w.bundle.value.body)
  }

  ghost predicate EndedRolledBack(h: Host, w: Work, t: Txn) {
    && Safe(w) && w.phase == Some(RolledBack) && w.bundle.value.body.terminal == Undone
    && h.managed == t.original && h.generation == t.base
    && w.result == w.receipt == h.delivery == Some(w.bundle.value.body)
  }

  ghost predicate Ended(h: Host, w: Work, t: Txn) {
    EndedCommitted(h, w, t) || EndedRolledBack(h, w, t)
  }

  // What a finished directory says of the host.
  ghost predicate SettledAs(h: Host, w: Work, t: Txn) {
    && Safe(w) && w.result.Some? && w.receipt.Some?
    && w.request == Some(t.request) && h.generation == w.bundle.value.body.next
    && if w.bundle.value.body.terminal == Success then
         w.phase == Some(Committed) && h.managed == Some(t.candidate) && h.generation == t.base + 1
       else
         w.phase == Some(RolledBack) && h.managed == t.original && h.generation == t.base
  }

  lemma FinishedIsSettled(h: Host, w: Work, t: Txn)
    requires Consistent(h, w, t) && Safe(w)
    ensures SettledAs(h, w, t)
  {
  }

  // What apply takes for the original: an earlier backup is kept, unless there is no
  // managed file any more.
  function OriginalOf(managed: Option<Bytes>, backup: Option<Bytes>): Option<Bytes> {
    if managed.Some? && backup.Some? then backup else managed
  }

  // ---- the automatic ledger ---------------------------------------------------------

  // An automatic commit is in the ledger before its bundle is durable.
  ghost predicate Booked(w: Work, ledger: L.State, digest: Request -> string) {
    w.bundle.Some? && w.bundle.value.body.terminal == Success && w.bundle.value.body.request.auto ==>
      L.Seen(ledger.applied, OutcomeId(w.bundle.value.body.request, digest))
  }

  // The ledger knows the outcome that the directory's state tells of.
  ghost predicate Reconciled(w: Work, ledger: L.State, digest: Request -> string) {
    w.request.Some? && w.request.value.auto && w.phase.Some? ==>
      && (w.phase == Some(Committed) ==> L.Seen(ledger.applied, OutcomeId(w.request.value, digest)))
      && (w.phase in {Some(RolledBack), Some(RollbackUnverified)} ==> L.Seen(ledger.rolledBack, OutcomeId(w.request.value, digest)))
  }

  // What the ledger hook for a rollback does to the policy.
  function BookedRollback(r: P.Root, c: L.Config, q: Request, digest: Request -> string, now: int): P.Root {
    if q.auto then P.Step(r, c, P.Timed(P.RecordRollback(OutcomeId(q, digest)), now)) else r
  }

  function BookedApply(r: P.Root, c: L.Config, q: Request, digest: Request -> string, now: int): P.Root {
    if q.auto then P.Step(r, c, P.Timed(P.RecordApply(q.recommendationId, OutcomeId(q, digest)), now)) else r
  }

  // What reconciling one directory, and all of them in order, does to the policy.
  function ReconciledOne(r: P.Root, c: L.Config, w: Work, digest: Request -> string, now: int): P.Root {
    if w.request.None? || w.phase.None? then r
    else if w.phase.value == Committed then BookedApply(r, c, w.request.value, digest, now)
    else if w.phase.value in {RolledBack, RollbackUnverified} then BookedRollback(r, c, w.request.value, digest, now)
    else r
  }

  function ReconciledAll(r: P.Root, c: L.Config, works: seq<Work>, digest: Request -> string, now: int): P.Root {
    if works == [] then r
    else ReconciledOne(ReconciledAll(r, c, works[..|works| - 1], digest, now), c, works[|works| - 1], digest, now)
  }

  lemma OneIsReconciled(r: P.Root, c: L.Config, w: Work, digest: Request -> string, now: int)
    ensures var r' := ReconciledOne(r, c, w, digest, now);
      Reconciled(w, r'.ledger, digest) && OnlyAdds(r.ledger.applied, r'.ledger.applied) && OnlyAdds(r.ledger.rolledBack, r'.ledger.rolledBack)
  {
  }

  lemma {:induction false} AllAreReconciled(r: P.Root, c: L.Config, works: seq<Work>, digest: Request -> string, now: int)
    ensures var r' := ReconciledAll(r, c, works, digest, now);
      && (forall w :: w in works ==> Reconciled(w, r'.ledger, digest))
      && OnlyAdds(r.ledger.applied, r'.ledger.applied) && OnlyAdds(r.ledger.rolledBack, r'.ledger.rolledBack)
    decreases |works|
  {
    if works != [] {
      var n := |works| - 1;
      AllAreReconciled(r, c, works[..n], digest, now);
      OneIsReconciled(ReconciledAll(r, c, works[..n], digest, now), c, works[n], digest, now);
      assert forall w :: w in works ==> w in works[..n] || w == works[n];
    }
  }

  // Replaying what the ledger knows already changes nothing, so each outcome counts once.
  lemma {:induction false} ReplayChangesNothing(r: P.Root, c: L.Config, works: seq<Work>, digest: Request -> string, now: int)
    requires forall w :: w in works ==> Reconciled(w, r.ledger, digest)
    ensures ReconciledAll(r, c, works, digest, now) == r
    decreases |works|
  {
    if works != [] {
      var n := |works| - 1;
      ReplayChangesNothing(r, c, works[..n], digest, now);
      assert works[n] in works;
    }
  }

  datatype Outcome = Completed(terminal: Terminal) | Mismatch | PreValidationFailed | Unverified | NothingToDo | CorruptBundle | Crashed

  datatype Attempt = Ready | Failed | Stopped

  class RootTransaction {
    const policy: P.Policy
    const digest: Request -> string
    var managed: Option<Bytes>
    var generation: nat
    var delivery: Option<Body>
    var work: Work
    ghost var txn: Txn
    ghost var believed: nat    // the generation that this transaction last read or wrote

    constructor (policy: P.Policy, digest: Request -> string, managed: Option<Bytes>, generation: nat)
      requires policy.Valid()
      ensures this.policy == policy && this.digest == digest && Valid() && work == EMPTY
    {
      this.policy, this.digest, this.managed, this.generation := policy, digest, managed, generation;
      delivery, work, believed := None, EMPTY, generation;
      txn := Txn(Request("", false, generation, ""), generation, managed, "", managed);
    }

    function HostNow(): Host
      reads this
    {
      Host(managed, generation, delivery)
    }

    // The host as this transaction left it; recovering other directories may have
    // rewritten the generation since.
    ghost function Believed(): Host
      reads this
    {
      Host(managed, believed, delivery)
    }

    ghost predicate Valid()
      reads this, policy, policy.auto
    {
      policy.Valid() && Consistent(Believed(), work, txn) && Booked(work, policy.auto.state, digest)
    }

    // The next request has a directory of its own.
    method Renew()
      requires Valid() && Safe(work)
      modifies this`work, this`txn
      ensures Valid() && work == EMPTY
    {
      work := EMPTY;
      txn := Txn(Request("", false, generation, ""), generation, managed, "", managed);
    }

    // generation, result, receipt, delivery: each a durable write.
    method MaterializeArtifacts(body: Body) returns (ok: bool)
      requires Valid() && work.bundle.Some? && work.bundle.value.body == body
      modifies this`generation, this`believed, this`delivery, this`work
      ensures Valid() && work == old(work).(result := work.result, receipt := work.receipt)
      ensures ok ==> generation == believed == body.next && work.result == work.receipt == delivery == Some(body)
    {
      if * { return false; }
      generation, believed := body.next, body.next;
      if * { return false; }
      work := work.(result := Some(body));
      if * { return false; }
      work := work.(receipt := Some(body));
      if * { return false; }
      delivery := Some(body);
      return true;
    }

    // materialize: idempotent, from the bundle alone.
    method Materialize() returns (r: Outcome)
      requires Valid() && work.bundle.Some?
      modifies this`generation, this`believed, this`delivery, this`work
      ensures Valid() && work.bundle == old(work.bundle) && work.request == old(work.request)
      ensures r.Completed? || r.Crashed?
      ensures r.Completed? ==> generation == believed
      ensures r.Completed? ==> r.terminal == work.bundle.value.body.terminal && Ended(HostNow(), work, txn)
    {
      var b := work.bundle.value;
      if b.commit != SealOf(b.body) { return CorruptBundle; }
      var ok := MaterializeArtifacts(b.body);
      if !ok { return Crashed; }
      work := work.(phase := Some(PhaseOf(b.body.terminal)));
      return Completed(b.body.terminal);
    }

    // What both rollback paths share: restore, restart, generation, check.
    method Restore(restarts: bool) returns (r: Attempt)
      requires Valid() && work.bundle == None && work.phase.Some?
      modifies this`managed, this`generation, this`believed
      ensures Valid()
      ensures r.Ready? ==> managed == txn.original && restarts
      ensures r.Failed? ==> !restarts && generation == old(generation) && believed == old(believed)
    {
      if * { return Stopped; }
      if work.meta.value.existed {
        if work.backup.Some? { managed := work.backup; }
      } else {
        managed := None;
      }
      if * { return Stopped; }
      if !restarts { return Failed; }
      generation, believed := work.meta.value.base, work.meta.value.base;
      if * { return Stopped; }
      if work.meta.value.existed && (work.backup.None? || managed != work.backup) { return Failed; }
      return Ready;
    }

    // The state that tells the operator; recovery will try again.
    method GiveUp() returns (r: Outcome)
      requires Valid() && work.bundle == None && work.phase.Some?
      modifies this`work
      ensures Valid()
      ensures (r.Crashed? && work == old(work)) || (r.Unverified? && work == old(work).(phase := Some(RollbackUnverified)))
    {
      if * { return Crashed; }
      work := work.(phase := Some(RollbackUnverified));
      return Unverified;
    }

    // The rollback bundle, once the original is back.
    method SealRollback(now: int) returns (r: Outcome)
      requires Valid() && work.bundle == None && work.phase.Some? && managed == txn.original
      modifies this`generation, this`believed, this`delivery, this`work
      ensures Valid() && (r == Completed(Undone) || r.Crashed?)
      ensures r.Completed? ==> EndedRolledBack(HostNow(), work, txn) && generation == believed
      ensures r.Completed? ==>
        work.bundle.value.body == Body(Undone, txn.request, txn.base, txn.base, if txn.request.auto then Some(digest(txn.request)) else None, now)
    {
      if * { return Crashed; }
      work := work.(bundle := Some(BuildBundle(work.request.value, work.meta.value.base, Undone, digest, now)));
      r := Materialize();
    }

    // A ledger hook for a rollback: only automatic requests have one.
    method BookRollback(q: Request, now: int)
      requires Valid() && policy.auto.clock <= now
      modifies policy, policy.auto
      ensures Valid() && policy.auto.clock <= now
      ensures q.auto ==> L.Seen(policy.auto.state.rolledBack, OutcomeId(q, digest))
      ensures policy.auto.state.applied == old(policy.auto.state.applied) && policy.auto.history == old(policy.auto.history)
      ensures policy.auto.cleared == old(policy.auto.cleared) && policy.auto.unpaced == old(policy.auto.unpaced)
      ensures policy.Current() == BookedRollback(old(policy.Current()), policy.auto.config, q, digest, now)
      ensures OnlyAdds(old(policy.auto.state.rolledBack), policy.auto.state.rolledBack)
      ensures old(policy.auto.rollbacks) <= policy.auto.rollbacks <= old(policy.auto.rollbacks) + [OutcomeId(q, digest)]
      ensures !q.auto || old(L.Seen(policy.auto.state.rolledBack, OutcomeId(q, digest))) ==> policy.Current() == old(policy.Current())
    {
      if q.auto {
        policy.RecordRollbackOf(OutcomeId(q, digest), now);
      }
    }

    // _rollback: what apply does when anything after "applying" fails. Only an
    // automatic request has a ledger hook, and that may fail as well.
    method Rollback(restarts: bool, unbooks: bool, now: int) returns (r: Outcome)
      requires Valid() && work.bundle == None && work.phase.Some? && policy.auto.clock <= now
      modifies this, policy, policy.auto
      ensures Valid() && txn == old(txn) && policy.auto.clock <= now
      ensures r == Completed(Undone) || r.Unverified? || r.Crashed?
      ensures OnlyAddsBoth(old(policy.auto.state), policy.auto.state)
      ensures r.Completed? ==> EndedRolledBack(HostNow(), work, txn)
      ensures r.Completed? && txn.request.auto ==> L.Seen(policy.auto.state.rolledBack, OutcomeId(txn.request, digest))
      ensures policy.auto.unpaced == old(policy.auto.unpaced)
      ensures r.Unverified? ==> work.phase == Some(RollbackUnverified) && work.bundle == None
      ensures r.Unverified? ==> !restarts || (txn.request.auto && !unbooks)
    {
      work := work.(phase := Some(RollbackIntent));
      if * { return Crashed; }
      var restored := Restore(restarts);
      if restored.Stopped? { return Crashed; }
      if restored.Failed? {
        r := GiveUp();
        return;
      }
      if * { return Crashed; }
      if work.request.value.auto && !unbooks {
        r := GiveUp();
        return;
      }
      BookRollback(work.request.value, now);
      r := SealRollback(now);
    }

    // _recover_one: a durable bundle is materialized, anything else is rolled back.
    method Recover(restarts: bool, now: int) returns (r: Outcome)
      requires Valid()
      modifies this
      ensures Valid() && txn == old(txn)
      ensures r == Completed(Success) || r == Completed(Undone) || r.Unverified? || r.NothingToDo? || r.Crashed?
      ensures old(work.bundle.Some?) ==> work.bundle == old(work.bundle) && (r.Completed? || r.Crashed?)
      ensures r.Completed? ==> Ended(HostNow(), work, txn) && generation == believed && (old(work.bundle.Some?) || restarts)
      ensures r.Completed? && old(work.bundle.None?) ==> r.terminal == Undone && EndedRolledBack(HostNow(), work, txn)
      ensures r.NothingToDo? <==> old(work.bundle.None? && work.phase.None?)
      ensures r.NothingToDo? ==> HostNow() == old(HostNow()) && work == old(work)
      ensures r.Unverified? ==> work.phase == Some(RollbackUnverified) && !restarts && old(work.bundle.None?) && work.bundle == None
      ensures r.Unverified? ==> generation == old(generation)
    {
      if work.bundle.Some? {
        r := Materialize();
        return;
      }
      if work.phase.None? { return NothingToDo; }
      var restored := Restore(restarts);
      if restored.Stopped? { return Crashed; }
      if restored.Failed? {
        r := GiveUp();
        return;
      }
      r := SealRollback(now);
    }

    // backup, metadata and request; what the directory still holds from an earlier
    // attempt of the same request stays in force until it is overwritten.
    method Describe(q: Request, ghost goal: Txn) returns (ok: bool)
      requires Valid() && work.bundle == None && q.generation == generation
      requires goal.request == q && goal.base == generation && goal.original == OriginalOf(managed, work.backup) && goal.found == managed
      modifies this`work, this`txn, this`believed
      ensures Valid() && work.bundle == None && work.phase == old(work.phase) && (work.phase.None? ==> txn == goal)
      ensures ok ==> work.meta == Some(Meta(managed.Some?, generation, generation + 1)) && work.request == Some(q)
      ensures ok ==> (managed.Some? ==> work.backup == goal.original) && believed == generation
    {
      if work.phase.None? { txn := goal; }
      work := work.(made := true);
      if * { return false; }
      if managed.Some? && work.backup.None? { work := work.(backup := managed); }
      if * { return false; }
      work := work.(meta := Some(Meta(managed.Some?, generation, generation + 1)));
      txn, believed := txn.(original := goal.original, base := generation), generation;
      if * { return false; }
      work := work.(request := Some(q));
      txn := txn.(request := q);
      return true;
    }

    // apply, up to the durable "prepared" state and the candidate's own check.
    method Prepare(q: Request, candidate: Bytes, valid: bool) returns (r: Outcome)
      requires Valid() && work.bundle == None && q.generation == generation
      modifies this`work, this`txn, this`believed
      ensures Valid()
      ensures r.NothingToDo? || r.PreValidationFailed? || r.Crashed?
      ensures r.PreValidationFailed? ==> work == EMPTY && !valid
      ensures r.NothingToDo? || (r.Crashed? && old(work.phase.None?)) ==>
        txn == Txn(q, generation, OriginalOf(managed, old(work.backup)), candidate, managed)
      ensures r.NothingToDo? ==> work.bundle == None && work.phase == Some(Prepared) && valid && believed == generation
      ensures r.NothingToDo? ==> work.candidate == Some(candidate)
    {
      ghost var goal := Txn(q, generation, OriginalOf(managed, work.backup), candidate, managed);
      var ok := Describe(q, goal);
      if !ok { return Crashed; }
      if * { return Crashed; }
      work := work.(phase := Some(Prepared));
      txn := goal;
      if * { return Crashed; }
      work := work.(candidate := Some(candidate));
      if !valid {
        work := EMPTY;
        return PreValidationFailed;
      }
      if * { return Crashed; }
      return NothingToDo;
    }

    // The gate's evaluation for this request was the last one, and it allowed.
    ghost predicate MayBook(q: Request)
      reads this, policy, policy.auto
    {
      q.auto && !L.Seen(policy.auto.state.applied, OutcomeId(q, digest)) ==> L.Allowed(policy.auto.cleared, q.recommendationId)
    }

    // A ledger hook for an apply.
    method BookApply(q: Request, now: int)
      requires Valid() && policy.auto.clock <= now && 0 < now
      modifies policy, policy.auto
      ensures Valid() && policy.auto.clock <= now
      ensures q.auto ==> L.Seen(policy.auto.state.applied, OutcomeId(q, digest))
      ensures !q.auto || old(L.Seen(policy.auto.state.applied, OutcomeId(q, digest))) ==>
        policy.Current() == old(policy.Current()) && policy.auto.history == old(policy.auto.history)
        && policy.auto.cleared == old(policy.auto.cleared)
      ensures policy.Current() == BookedApply(old(policy.Current()), policy.auto.config, q, digest, now)
      ensures policy.auto.rollbacks == old(policy.auto.rollbacks)
      ensures OnlyAddsBoth(old(policy.auto.state), policy.auto.state)
      ensures policy.auto.unpaced == old(policy.auto.unpaced) + if old(MayBook(q)) then 0 else 1
    {
      if q.auto {
        policy.RecordApplyOf(q.recommendationId, OutcomeId(q, digest), now);
      }
    }

    // apply, from "applying" to the ledger hook; a failure is to be rolled back.
    method Mutate(q: Request, candidate: Bytes, verify: Option<Bytes> -> bool, restarts: bool, books: bool, now: int) returns (r: Attempt)
      requires Valid() && work.bundle == None && work.phase == Some(Prepared)
      requires txn.request == q && txn.candidate == candidate && generation == believed
      requires policy.auto.clock <= now && 0 < now
      modifies this, policy, policy.auto
      ensures Valid() && txn == old(txn) && policy.auto.clock <= now && work.bundle == None && work.phase.Some?
      ensures OnlyAddsBoth(old(policy.auto.state), policy.auto.state)
      ensures r.Ready? ==> work == old(work).(phase := Some(CommitIntent))
      ensures r.Ready? ==> managed == Some(candidate)
      ensures generation == believed == old(generation)
      ensures !r.Stopped? ==> (r.Ready? <==> restarts && verify(Some(candidate)) && (q.auto ==> books))
      ensures r.Ready? && q.auto ==> L.Seen(policy.auto.state.applied, OutcomeId(q, digest))
      ensures policy.auto.unpaced == old(policy.auto.unpaced) + if r.Ready? && !old(MayBook(q)) then 1 else 0
    {
      work := work.(phase := Some(Applying));
      if * { return Stopped; }
      managed := Some(candidate);
      if * { return Stopped; }
      if !restarts { return Failed; }
      work := work.(phase := Some(Applied));
      if * { return Stopped; }
      if !verify(managed) { return Failed; }
      work := work.(phase := Some(Verified));
      if * { return Stopped; }
      work := work.(phase := Some(CommitIntent));
      if * { return Stopped; }
      if q.auto && !books { return Failed; }
      BookApply(q, now);
      return Ready;
    }

    // The commit bundle: the point of no return.
    method SealCommit(q: Request, now: int) returns (r: Outcome)
      requires Valid() && work.bundle == None && work.phase.Some? && txn.request == q && managed == Some(txn.candidate)
      requires generation == believed
      requires q.auto ==> L.Seen(policy.auto.state.applied, OutcomeId(q, digest))
      modifies this`generation, this`believed, this`delivery, this`work
      ensures Valid() && (r == Completed(Success) || r.Crashed?)
      ensures r.Completed? ==> EndedCommitted(HostNow(), work, txn)
      ensures r.Completed? ==>
        work.bundle.value.body == Body(Success, q, txn.base, txn.base + 1, if q.auto then Some(digest(q)) else None, now)
    {
      if * { return Crashed; }
      work := work.(bundle := Some(BuildBundle(q, generation, Success, digest, now)));
      r := Materialize();
    }

    // How a call that got past the check of its candidate may end.
    ghost predicate EndsWell(r: Outcome, q: Request, succeeds: bool, comesBack: bool)
      reads this, policy, policy.auto
    {
      && (r.Completed? ==> Ended(HostNow(), work, txn) && r.terminal == work.bundle.value.body.terminal)
      && (r.Completed? ==> Reconciled(work, policy.auto.state, digest))
      && (r.Completed? || r.Unverified? ==> (r == Completed(Success) <==> succeeds))
      && (r.Unverified? ==> !comesBack && work.phase == Some(RollbackUnverified) && work.bundle == None)
    }

    // apply. The candidate's own test, the restart of the new configuration, both
    // ledger hooks and the restart of the restored one may each fail.
    method Apply(q: Request, candidate: Bytes, valid: bool, verify: Option<Bytes> -> bool, restarts: bool, books: bool,
                 restores: bool, unbooks: bool, now: int) returns (r: Outcome)
      requires Valid() && policy.auto.clock <= now && 0 < now
      modifies this, policy, policy.auto
      ensures Valid() && OnlyAddsBoth(old(policy.auto.state), policy.auto.state)
      ensures r.Mismatch? <==> old(work.bundle.None?) && q.generation != old(generation)
      ensures r.Mismatch? ==> work == old(work).(made := true) && txn == old(txn)
      ensures r.PreValidationFailed? ==> work == EMPTY && !valid
      ensures r.Mismatch? || r.PreValidationFailed? ==> HostNow() == old(HostNow()) && policy.Current() == old(policy.Current())
      ensures old(work.bundle.Some?) ==> txn == old(txn) && work.bundle == old(work.bundle) && (r.Completed? || r.Crashed?)
      ensures old(work.bundle.Some?) && r.Completed? ==> Ended(HostNow(), work, txn) && r.terminal == work.bundle.value.body.terminal
      ensures old(work.bundle.None?) && (r.Completed? || r.Unverified? || (r.Crashed? && old(work.phase.None?))) ==>
        txn == Txn(q, q.generation, OriginalOf(old(managed), old(work.backup)), candidate, old(managed))
      ensures old(work.bundle.None?) && (r.Completed? || r.Unverified?) ==>
        valid && EndsWell(r, q, restarts && verify(Some(candidate)) && (q.auto ==> books), restores && (q.auto ==> unbooks))
      ensures !r.NothingToDo? && !r.CorruptBundle?
      ensures policy.auto.clock <= now && old(policy.auto.unpaced) <= policy.auto.unpaced <= old(policy.auto.unpaced) + if old(MayBook(q)) then 0 else 1
    {
      if work.bundle.Some? {
        r := Materialize();
        return;
      }
      if generation != q.generation {
        work := work.(made := true);
        return Mismatch;
      }
      var prepared := Prepare(q, candidate, valid);
      if !prepared.NothingToDo? { return prepared; }
      r := CarryOut(q, candidate, verify, restarts, books, restores, unbooks, now);
    }

    // materialize, for another directory than the one at hand, as recover_all and a
    // repeated request do: its artifacts are written again, and the generation with them.
    method Rewrite(w: Work) returns (r: Outcome)
      requires Valid() && w.bundle.Some?
      modifies this`generation, this`delivery
      ensures Valid()
      ensures r == Completed(w.bundle.value.body.terminal) || r.CorruptBundle? || r.Crashed?
      ensures r.CorruptBundle? <==> w.bundle.value.commit != SealOf(w.bundle.value.body)
      ensures r.Completed? ==> generation == w.bundle.value.body.next && delivery == Some(w.bundle.value.body)
      ensures r.CorruptBundle? ==> HostNow() == old(HostNow())
      ensures generation == old(generation) || generation == w.bundle.value.body.next
    {
      var b := w.bundle.value;
      if b.commit != SealOf(b.body) { return CorruptBundle; }
      if * { return Crashed; }
      generation := b.body.next;
      if * { return Crashed; }
      delivery := Some(b.body);
      return Completed(b.body.terminal);
    }

    // apply, once prepared: commit, or roll back.
    method CarryOut(q: Request, candidate: Bytes, verify: Option<Bytes> -> bool, restarts: bool, books: bool,
                    restores: bool, unbooks: bool, now: int) returns (r: Outcome)
      requires Valid() && work.bundle == None && work.phase == Some(Prepared)
      requires txn.request == q && txn.candidate == candidate && generation == believed
      requires policy.auto.clock <= now && 0 < now
      modifies this, policy, policy.auto
      ensures Valid() && txn == old(txn) && OnlyAddsBoth(old(policy.auto.state), policy.auto.state)
      ensures r.Completed? || r.Unverified? || r.Crashed?
      ensures EndsWell(r, q, restarts && verify(Some(candidate)) && (q.auto ==> books), restores && (q.auto ==> unbooks))
      ensures policy.auto.clock <= now && old(policy.auto.unpaced) <= policy.auto.unpaced <= old(policy.auto.unpaced) + if old(MayBook(q)) then 0 else 1
    {
      var attempt := Mutate(q, candidate, verify, restarts, books, now);
      match attempt {
        case Stopped => return Crashed;
        case Failed => r := Rollback(restores, unbooks, now);
        case Ready => r := SealCommit(q, now);
      }
    }

    // _reconcile_ledger: replays every automatic outcome into the ledger.
    method ReconcileLedger(works: seq<Work>, now: int)
      requires Valid() && policy.auto.clock <= now && 0 < now
      modifies policy, policy.auto
      ensures Valid() && policy.auto.clock <= now
      ensures policy.Current() == ReconciledAll(old(policy.Current()), policy.auto.config, works, digest, now)
      ensures forall w :: w in works ==> Reconciled(w, policy.auto.state, digest)
      ensures OnlyAddsBoth(old(policy.auto.state), policy.auto.state)
      ensures old(AllCommitsBooked(works, policy.auto.state, digest)) ==> AppliesUntouched()
    {
      for i := 0 to |works|
        invariant Valid() && policy.auto.clock <= now
        invariant policy.Current() == ReconciledAll(old(policy.Current()), policy.auto.config, works[..i], digest, now)
        invariant old(AllCommitsBooked(works, policy.auto.state, digest)) ==> AppliesUntouched()
      {
        assert works[..i + 1][..i] == works[..i];
        assert works[i] in works;
        ReconcileOne(works[i], now);
      }
      assert works[..|works|] == works;
      AllAreReconciled(old(policy.Current()), policy.auto.config, works, digest, now);
    }

    twostate predicate AppliesUntouched()
      reads policy.auto
    {
      && policy.auto.state.applied == old(policy.auto.state.applied) && policy.auto.history == old(policy.auto.history)
      && policy.auto.cleared == old(policy.auto.cleared) && policy.auto.unpaced == old(policy.auto.unpaced)
    }

    method ReconcileOne(w: Work, now: int)
      requires Valid() && policy.auto.clock <= now && 0 < now
      modifies policy, policy.auto
      ensures Valid() && policy.auto.clock <= now
      ensures policy.Current() == ReconciledOne(old(policy.Current()), policy.auto.config, w, digest, now)
      ensures old(CommitIsBooked(w, policy.auto.state, digest)) ==> AppliesUntouched()
    {
      if w.request.None? || !w.request.value.auto || w.phase.None? { return; }
      if w.phase.value == Committed {
        BookApply(w.request.value, now);
      } else if w.phase.value == RolledBack || w.phase.value == RollbackUnverified {
        BookRollback(w.request.value, now);
      }
    }
  }

  ghost predicate OnlyAddsBoth(before: L.State, after: L.State) {
    OnlyAdds(before.applied, after.applied) && OnlyAdds(before.rolledBack, after.rolledBack)
  }

  ghost predicate OnlyAdds(before: map<string, int>, after: map<string, int>) {
    forall k :: k in before ==> k in after
  }

  // What Valid() gives for the directory itself: its commit is in the ledger.
  ghost predicate CommitIsBooked(w: Work, ledger: L.State, digest: Request -> string) {
    w.phase == Some(Committed) && w.request.Some? && w.request.value.auto ==>
      L.Seen(ledger.applied, OutcomeId(w.request.value, digest))
  }

  ghost predicate AllCommitsBooked(works: seq<Work>, ledger: L.State, digest: Request -> string) {
    forall w :: w in works ==> CommitIsBooked(w, ledger, digest)
  }

  lemma DirectoryIsBooked(h: Host, w: Work, t: Txn, ledger: L.State, digest: Request -> string)
    requires Consistent(h, w, t) && Booked(w, ledger, digest)
    ensures CommitIsBooked(w, ledger, digest)
  {
  }

  // ---- several directories -----------------------------------------------------------

  // A chain of finished transactions, oldest first: a commit raises the generation, a
  // rollback gives back the one it started from.
  predicate Chained(chain: seq<Body>) {
    && (forall i :: 0 <= i < |chain| ==> chain[i].next == chain[i].base + if chain[i].terminal == Success then 1 else 0)
    && (forall i :: 1 <= i < |chain| ==> chain[i].base == chain[i - 1].next)
  }

  // Every directory is visited once, in whatever order the file system lists them.
  predicate Permutation(order: seq<nat>, n: nat) {
    && |order| == n && (forall k :: 0 <= k < n ==> order[k] < n) && (forall i :: 0 <= i < n ==> i in order)
    && (forall j, k :: 0 <= j < k < n ==> order[j] != order[k])
  }

  function LastVisited(order: seq<nat>, n: nat): (last: nat)
    requires Permutation(order, n) && n > 0
    ensures last < n
  {
    order[n - 1]
  }

  predicate NoCommitAfter(chain: seq<Body>, i: nat) {
    forall k :: i < k < |chain| ==> chain[k].terminal == Undone
  }

  lemma {:induction false} GenerationsRise(chain: seq<Body>, i: nat, j: nat)
    requires Chained(chain) && i <= j < |chain|
    ensures chain[i].next <= chain[j].next
    ensures chain[i].next == chain[j].next <==> forall k :: i < k <= j ==> chain[k].terminal == Undone
    decreases j
  {
    if i < j { GenerationsRise(chain, i, j - 1); }
  }

  // recover_all over finished directories rewrites the generation from each bundle, so
  // the newest one survives exactly when no commit is later than the last one visited.
  method RematerializeAll(generation: nat, chain: seq<Body>, order: seq<nat>) returns (g: nat)
    requires Permutation(order, |chain|)
    ensures g == if chain == [] then generation else chain[LastVisited(order, |chain|)].next
    ensures Chained(chain) && chain != [] ==>
      (g == chain[|chain| - 1].next <==> NoCommitAfter(chain, LastVisited(order, |chain|)))
  {
    g := generation;
    for i := 0 to |order|
      invariant g == if i == 0 then generation else chain[order[i - 1]].next
    {
      g := chain[order[i]].next;
    }
    if Chained(chain) && chain != [] {
      GenerationsRise(chain, LastVisited(order, |chain|), |chain| - 1);
    }
  }

  lemma OldestCanBeLast(n: nat) returns (order: seq<nat>)
    requires n > 0
    ensures Permutation(order, n) && LastVisited(order, n) == 0
  {
    order := seq(n, i requires 0 <= i < n => n - 1 - i);
    forall i | 0 <= i < n ensures i in order { assert order[n - 1 - i] == i; }
  }

  // Over every order of the directories: the generation is safe exactly when only the
  // oldest transaction committed, if any did.
  lemma GenerationSurvivesIff(chain: seq<Body>)
    requires Chained(chain) && chain != []
    ensures (forall order :: Permutation(order, |chain|) ==> chain[LastVisited(order, |chain|)].next == chain[|chain| - 1].next)
            <==> NoCommitAfter(chain, 0)
  {
    var n := |chain|;
    if NoCommitAfter(chain, 0) {
      forall order | Permutation(order, n) ensures chain[LastVisited(order, n)].next == chain[n - 1].next {
        GenerationsRise(chain, LastVisited(order, n), n - 1);
      }
    } else {
      var order := OldestCanBeLast(n);
      GenerationsRise(chain, 0, n - 1);
    }
  }
}
