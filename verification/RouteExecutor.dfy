// python/rill_xray_agent/route_executor.py, RouteExecutor: the claim, the gate, the
// recovery of what an earlier run left, the reconciliation of the ledger, the intent
// proof, the compiler and the transaction, one request after another.

module RouteExecutor {
  import opened Collections
  import P = RootPolicy
  import L = AutoPolicy
  import opened RootTransaction
  import C = RouteContract
  import X = RouteCompiler
  import I = RouteIntent

  // ---- the managed file ------------------------------------------------------------------

  // Reading the rules and everything else out of the managed file, and replacing the
  // rules in it.
  datatype Format = Format(parse: Bytes -> seq<C.Rule>, rest: Bytes -> string, render: (Bytes, seq<C.Rule>) -> Bytes)

  ghost predicate Lawful(f: Format) {
    forall b, rules :: f.parse(f.render(b, rules)) == rules && f.rest(f.render(b, rules)) == f.rest(b)
  }

  function RulesOf(f: Format, managed: Option<Bytes>): seq<C.Rule> {
    if managed.Some? then f.parse(managed.value) else []
  }

  // What belongs to the user: the rules that are not managed, and the rest of the file.
  datatype Owned = Owned(rules: seq<C.Rule>, rest: string)

  function OwnedOf(f: Format, managed: Option<Bytes>): Option<Owned> {
    if managed.Some? then Some(Owned(X.Unmanaged(f.parse(managed.value)), f.rest(managed.value))) else None
  }

  lemma RenderingKeepsOwned(f: Format, b: Bytes, ops: seq<C.Op>, after: seq<C.Rule>)
    requires Lawful(f) && X.CompileAll(f.parse(b), ops) == Ok(after)
    ensures OwnedOf(f, Some(f.render(b, after))) == OwnedOf(f, Some(b))
    ensures RulesOf(f, Some(f.render(b, after))) == after
  {
    X.UserRulesArePreserved(f.parse(b), ops);
  }

  // All that a transaction can put in place.
  ghost predicate OnlyPuts(f: Format, owned: Option<Owned>, t: Txn) {
    OwnedOf(f, t.original) == owned && OwnedOf(f, Some(t.candidate)) == owned && OwnedOf(f, t.found) == owned
  }

  ghost predicate KeepsOwned(f: Format, owned: Option<Owned>, w: Work, t: Txn) {
    w.phase.Some? || w.bundle.Some? ==> OnlyPuts(f, owned, t)
  }

  lemma FileIsOwned(f: Format, owned: Option<Owned>, h: Host, w: Work, t: Txn)
    requires Consistent(h, w, t) && OnlyPuts(f, owned, t)
    ensures OwnedOf(f, h.managed) == owned && KeepsOwned(f, owned, w, t)
  {
  }

  // ---- finished directories ------------------------------------------------------------------

  // A finished directory whose automatic apply, if it committed one, is in the ledger.
  ghost predicate Archived(w: Work, ledger: L.State, digest: Request -> string) {
    Safe(w) && w.request.Some? && w.bundle.value.commit == SealOf(w.bundle.value.body) && CommitIsBooked(w, ledger, digest)
  }

  ghost predicate AllArchived(archive: seq<Work>, ledger: L.State, digest: Request -> string) {
    forall w :: w in archive ==> Archived(w, ledger, digest)
  }

  lemma ArchiveGrows(archive: seq<Work>, ledger: L.State, after: L.State, digest: Request -> string)
    requires AllArchived(archive, ledger, digest) && OnlyAddsBoth(ledger, after)
    ensures AllArchived(archive, after, digest)
  {
  }

  // Recovery keeps a decision that is durable, and without one it can only roll back.
  predicate Concluded(before: Work, after: Work) {
    if before.bundle.Some? then after.bundle == before.bundle
    else Safe(after) ==> after.phase == Some(RolledBack)
  }

  // The ledger knows every outcome that a finished directory tells of.
  ghost predicate CaughtUp(archive: seq<Work>, work: Work, ledger: L.State, digest: Request -> string) {
    (forall w :: w in archive ==> Reconciled(w, ledger, digest)) && (Safe(work) ==> Reconciled(work, ledger, digest))
  }

  lemma StaysCaughtUp(archive: seq<Work>, work: Work, before: L.State, after: L.State, digest: Request -> string)
    requires CaughtUp(archive, work, before, digest)
    requires OnlyAddsBoth(before, after)
    ensures CaughtUp(archive, work, after, digest)
  {
    forall w | w in archive ensures Reconciled(w, after, digest) { assert Reconciled(w, before, digest); }
  }

  // What reconciling does once all older directories are reconciled: it books the
  // rollback of the last one, if it ended so.
  lemma OnlyTheLastCounts(r: P.Root, c: L.Config, archive: seq<Work>, w: Work, digest: Request -> string, now: int)
    requires (forall v :: v in archive ==> Reconciled(v, r.ledger, digest)) && CommitIsBooked(w, r.ledger, digest)
    ensures ReconciledAll(r, c, archive + [w], digest, now) ==
      if w.request.Some? && w.phase in {Some(RolledBack), Some(RollbackUnverified)} then BookedRollback(r, c, w.request.value, digest, now) else r
  {
    assert (archive + [w])[..|archive|] == archive;
    ReplayChangesNothing(r, c, archive, digest, now);
  }

  // ---- requests -------------------------------------------------------------------------------

  // `source` is the managed file that the request was planned from, by its digest.
  datatype Submission = Submission(request: Request, epoch: int, ops: seq<C.Op>, source: Bytes)

  // In which order the file system lists the directories: the numbers of the finished
  // ones before the unfinished one and behind it.
  datatype Listing = Listing(before: seq<nat>, after: seq<nat>)

  // What can go wrong in one call: the restarts and the listing in recovery, the check of
  // the candidate, the restart and the ledger hook behind it, those of a rollback.
  datatype Fate = Fate(recovers: bool, listing: Listing, valid: bool, restarts: bool, books: bool, restores: bool, unbooks: bool)

  datatype Answer = Blocked(denied: seq<P.Denial>) | Stale | RecoveryRequired | IntentMismatch | Rejected(fault: X.Fault)
                  | Replayed(outcome: Outcome) | Executed(outcome: Outcome) | Interrupted

  datatype Turn = Turn(submission: Submission, intent: seq<I.Entry>, digest: I.Digests, fate: Fate, now: int)

  ghost predicate Clocked(queue: seq<Turn>, clock: int) {
    && (forall i :: 0 <= i < |queue| ==> clock <= queue[i].now && 0 < queue[i].now)
    && (forall i, j :: 0 <= i < j < |queue| ==> queue[i].now <= queue[j].now)
  }

  // What became of the transaction, in terms of what went wrong.
  predicate AsFated(r: Answer, s: Submission, fate: Fate) {
    r.Executed? ==>
      match r.outcome
      case Completed(terminal) => fate.valid && (terminal == Success <==> fate.restarts && (s.request.auto ==> fate.books))
      case Unverified =>
        fate.valid && !(fate.restarts && (s.request.auto ==> fate.books)) && !(fate.restores && (s.request.auto ==> fate.unbooks))
      case PreValidationFailed => !fate.valid
      case Mismatch => true
      case Crashed => true
      case _ => false
  }

  // All that a call can depend on, at one moment.
  datatype Scene = Scene(managed: Option<Bytes>, generation: nat, work: Work, txn: Txn, archive: seq<Work>, policy: P.Root)

  // A call left its claim behind only if it was interrupted.
  predicate CutShort(r: Answer) {
    r == Interrupted || r == Executed(Crashed) || r == Replayed(Crashed)
  }

  // What was decided on along the way: the scene when the request was claimed, the
  // policy that let it pass, and the scene behind the gates.
  datatype Trace = Trace(at: Scene, atGate: P.Root, gate: Scene)

  predicate LowRisk(ops: seq<C.Op>, rules: seq<C.Rule>) {
    C.OverallRisk(ops, C.Types(rules)) == C.Low
  }

  predicate Allowlisted(ops: seq<C.Op>) {
    ops != [] && forall op :: op in ops ==> C.IsAutoOp(op)
  }

  // What the root policy says to a request on these live rules.
  function Denials(policy: P.Root, c: L.Config, s: Submission, rules: seq<C.Rule>, now: int): seq<P.Denial> {
    P.Gate(policy, c, AsRequest(s), LowRisk(s.ops, rules), Allowlisted(s.ops), now)
  }

  predicate Permitted(policy: P.Root, c: L.Config, s: Submission, rules: seq<C.Rule>, now: int) {
    Denials(policy, c, s, rules, now) == []
  }

  function AsRequest(s: Submission): P.Request {
    P.Request(s.request.auto, s.request.recommendationId, s.epoch)
  }

  // What a committed automatic request has done to the rules `before`.
  ghost predicate Restored(before: seq<C.Rule>, after: seq<C.Rule>, ops: seq<C.Op>, intent: seq<I.Entry>, digest: I.Digests) {
    && ops == I.Operations(intent, before, digest)
    && (I.GoodIntent(intent, digest) ==> I.Operations(intent, after, digest) == [])
  }

  // The rules that may be put in place of `before`.
  ghost predicate Compiled(s: Submission, before: seq<C.Rule>, after: seq<C.Rule>, intent: seq<I.Entry>, digest: I.Digests) {
    && X.CompileAll(before, s.ops) == Ok(after) && X.Unmanaged(after) == X.Unmanaged(before)
    && (s.request.auto ==> Restored(before, after, s.ops, intent, digest))
  }

  // What the intent proof and the compiler say to valid operations.
  function Proof(s: Submission, intent: seq<I.Entry>, live: seq<C.Rule>, digest: I.Digests): Result<seq<C.Rule>, Answer> {
    if s.request.auto && s.ops != I.Operations(intent, live, digest) then Err(IntentMismatch)
    else if |live| > C.MAX_RULES then Err(Rejected(X.TooManyRules))
    else match X.CompileAll(live, s.ops)
      case Ok(after) => Ok(after)
      case Err(fault) => Err(Rejected(fault))
  }

  lemma ProofCompiles(s: Submission, intent: seq<I.Entry>, live: seq<C.Rule>, digest: I.Digests)
    requires Proof(s, intent, live, digest).Ok?
    ensures Compiled(s, live, Proof(s, intent, live, digest).value, intent, digest)
  {
    X.UserRulesArePreserved(live, s.ops);
    I.BareUndoesMarked(s.ops);
    I.AdmittedAreTheRootsOwn(I.Marked(s.ops), intent, live, digest);
    if s.request.auto && I.GoodIntent(intent, digest) {
      I.RestoreConvergesInOneStep(live, intent, I.Marked(s.ops), digest);
    }
  }

  // The root's own operations for a good intent are never turned down.
  lemma GoodRequestCompiles(s: Submission, intent: seq<I.Entry>, live: seq<C.Rule>, digest: I.Digests)
    requires s.ops == I.Operations(intent, live, digest) && I.GoodIntent(intent, digest) && |live| <= C.MAX_RULES
    ensures Proof(s, intent, live, digest).Ok?
  {
    I.BareUndoesMarked(s.ops);
    I.AdmittedAreTheRootsOwn(I.Marked(s.ops), intent, live, digest);
    I.RestoreConvergesInOneStep(live, intent, I.Marked(s.ops), digest);
  }

  // _root_intent_proof for automatic requests, and the compiler, on the live rules.
  method CompileProved(s: Submission, intent: seq<I.Entry>, live: seq<C.Rule>, digest: I.Digests) returns (r: Result<seq<C.Rule>, Answer>)
    requires X.ValidOperations(s.ops)
    ensures r == Proof(s, intent, live, digest)
    ensures r.Ok? ==> Compiled(s, live, r.value, intent, digest)
  {
    if s.request.auto {
      I.BareUndoesMarked(s.ops);
      I.AdmittedAreTheRootsOwn(I.Marked(s.ops), intent, live, digest);
      var ok := I.RootIntentProof(I.Marked(s.ops), intent, live, digest);
      if !ok { return Err(IntentMismatch); }
    }
    var compiled := X.Compile(live, s.ops);
    match compiled {
      case Err(fault) => return Err(Rejected(fault));
      case Ok(after) =>
        ProofCompiles(s, intent, live, digest);
        return Ok(after);
    }
  }

  // ---- the gates, on one scene -------------------------------------------------------------------

  // Recovery cannot finish this directory: nothing in it says what to do, or the
  // service does not restart.
  predicate Unrecoverable(w: Work, recovers: bool) {
    w != EMPTY && w.bundle.None? && (w.phase.None? || !recovers)
  }

  // What is said to the request before recovery: its operations, the policy, the file
  // and the generation that it was planned from.
  function Screening(f: Format, c: L.Config, s: Submission, at: Scene, now: int): Option<Answer> {
    if !X.ValidOperations(s.ops) then Some(Rejected(X.InvalidOperation))
    else
      var denied := Denials(at.policy, c, s, RulesOf(f, at.managed), now);
      if denied != [] then Some(Blocked(denied))
      else if at.managed != Some(s.source) || at.generation != s.request.generation then Some(Stale)
      else None
  }

  // The answer of all gates, in their order; None lets the request on.
  function Refusal(f: Format, c: L.Config, s: Submission, at: Scene, recovers: bool, now: int): Option<Answer> {
    var screened := Screening(f, c, s, at, now);
    if screened.Some? then screened
    else if Unrecoverable(at.work, recovers) then Some(RecoveryRequired)
    else None
  }

  // The generation once finished directories have been rewritten, in this order.
  function Rewritten(archive: seq<Work>, ks: seq<nat>, generation: nat): nat {
    if ks == [] then generation
    else
      var k := ks[|ks| - 1];
      if k < |archive| && archive[k].bundle.Some? then archive[k].bundle.value.body.next
      else Rewritten(archive, ks[..|ks| - 1], generation)
  }

  // How a directory and the host look once it is finished and put aside.
  ghost predicate Shelved(at: Scene, gate: Scene, w: Work, listing: Listing) {
    && Safe(w) && w.request == Some(at.txn.request) && Concluded(at.work, w)
    && gate.managed == (if w.phase == Some(Committed) then Some(at.txn.candidate) else at.txn.original)
    && w.bundle.value.body.next == (if w.phase == Some(Committed) then at.txn.base + 1 else at.txn.base)
    && gate.generation == (if Safe(at.work) then at.generation else Rewritten(at.archive, listing.after, w.bundle.value.body.next))
    && (Safe(at.work) ==> w == at.work && gate.managed == at.managed)
  }

  // The recovery gate has let the request on.
  ghost predicate LetOn(at: Scene, gate: Scene, listing: Listing) {
    && gate.work == EMPTY
    && if at.work == EMPTY then gate.managed == at.managed && gate.generation == at.generation && gate.archive == at.archive
       else |gate.archive| == |at.archive| + 1 && gate.archive[..|at.archive|] == at.archive
            && Shelved(at, gate, gate.archive[|at.archive|], listing)
  }

  lemma ShelvingLetsOn(at: Scene, gate: Scene, h: Host, w: Work, listing: Listing)
    requires at.work != EMPTY && gate.work == EMPTY && gate.archive == at.archive + [w] && gate.managed == h.managed
    requires SettledAs(h, w, at.txn) && Concluded(at.work, w)
    requires gate.generation == if Safe(at.work) then at.generation else Rewritten(at.archive, listing.after, w.bundle.value.body.next)
    requires Safe(at.work) ==> w == at.work && gate.managed == at.managed
    ensures LetOn(at, gate, listing) && gate.archive[|gate.archive| - 1] == w
  {
  }

  // It has not: the directory is as it was, or its file is back and the service is not.
  ghost predicate Held(at: Scene, now: Scene) {
    && now.archive == at.archive && now.txn == at.txn && now.work.bundle == None
    && if at.work.phase.None? then now.work == at.work && now.managed == at.managed
       else now.work.phase == Some(RollbackUnverified)
  }

  // None of this depends on the policy.
  lemma PolicyAside(at: Scene, policy: P.Root, gate: Scene, listing: Listing)
    ensures LetOn(at.(policy := policy), gate, listing) == LetOn(at, gate, listing)
    ensures Held(at.(policy := policy), gate) == Held(at, gate) && UndoneBy(at.(policy := policy), gate) == UndoneBy(at, gate)
  {
  }

  // The request whose rollback the recovery gate has booked.
  function UndoneBy(at: Scene, gate: Scene): Option<Request> {
    if at.work == EMPTY || Safe(at.work) || gate.archive == [] then None
    else if gate.archive[|gate.archive| - 1].phase == Some(RolledBack) then Some(at.txn.request)
    else None
  }

  // The policy permitted the request when it passed the gate. Behind it, the policy
  // is the same but for the rollback that recovery may have booked.
  ghost predicate Passed(f: Format, c: L.Config, digest: Request -> string, s: Submission, t: Trace, now: int) {
    && Permitted(t.atGate, c, s, RulesOf(f, t.at.managed), now)
    && t.atGate == Pruning(t.at.policy, c, t.atGate.ledger.mutationTimes, now)
    && t.gate.policy == match UndoneBy(t.at, t.gate)
         case Some(q) => BookedRollback(t.atGate, c, q, digest, now)
         case None => t.atGate
  }

  // The policy after an evaluation or a restart: the window holds other times.
  function Pruning(r: P.Root, c: L.Config, times: seq<int>, now: int): P.Root {
    P.Step(r, c, P.Timed(P.Pruned(times), now))
  }

  // The policy of the moment has let the request pass.
  predicate Authorised(f: Format, c: L.Config, s: Submission, t: Trace, now: int) {
    && t.at.policy.doc.mode == P.Normal && s.epoch == t.at.policy.doc.epoch
    && if s.request.auto then
         && t.at.policy.doc.stage == P.Auto && t.at.policy.doc.confirmed
         && LowRisk(s.ops, RulesOf(f, t.at.managed)) && Allowlisted(s.ops)
         && L.Blocks(t.atGate.ledger, c, s.request.recommendationId, now) == []
       else t.at.policy.doc.stage == P.Assist || t.at.policy.doc.stage == P.Auto
  }

  lemma PassedIsAuthorised(f: Format, c: L.Config, digest: Request -> string, s: Submission, t: Trace, now: int)
    requires Passed(f, c, digest, s, t, now)
    ensures Authorised(f, c, s, t, now)
  {
    P.GatePassesIff(t.atGate, c, AsRequest(s), LowRisk(s.ops, RulesOf(f, t.at.managed)), Allowlisted(s.ops), now);
  }

  // A finished directory carries this id.
  predicate HasFinished(archive: seq<Work>, rid: string) {
    exists w :: w in archive && w.request.Some? && w.request.value.recommendationId == rid
  }

  // One of them carries this generation.
  predicate FinishedWith(archive: seq<Work>, rid: string, generation: nat) {
    exists w :: w in archive && w.request.Some? && w.request.value.recommendationId == rid
                && w.bundle.Some? && w.bundle.value.body.next == generation
  }

  ghost predicate AllBundled(works: seq<Work>) {
    forall i :: 0 <= i < |works| ==> works[i].bundle.Some?
  }

  function Bodies(works: seq<Work>): (bodies: seq<Body>)
    requires AllBundled(works)
    ensures |bodies| == |works|
  {
    seq(|works|, i requires 0 <= i < |works| => works[i].bundle.value.body)
  }

  // The directories as they are listed, with the unfinished one last in the archive.
  function Order(listing: Listing, n: nat): seq<nat> {
    listing.before + [n] + listing.after
  }

  // What is rewritten last decides.
  lemma {:induction false} LastListedDecides(archive: seq<Work>, w: Work, listing: Listing)
    requires w.bundle.Some? && AllBundled(archive + [w]) && Permutation(Order(listing, |archive|), |archive| + 1)
    ensures Rewritten(archive, listing.after, w.bundle.value.body.next) ==
            Bodies(archive + [w])[LastVisited(Order(listing, |archive|), |archive| + 1)].next
  {
    var order, n := Order(listing, |archive|), |archive|;
    assert (archive + [w])[n] == w;
    assert order[|listing.before|] == n;
    if listing.after != [] {
      var k := order[n];
      assert k == listing.after[|listing.after| - 1] && k != n;
      assert (archive + [w])[k] == archive[k];
    }
  }

  // After recovering an unfinished directory behind finished ones that form a chain, the
  // newest generation survives exactly when no commit is later than the last one listed.
  lemma {:induction false} GenerationAfterRecovery(archive: seq<Work>, w: Work, listing: Listing)
    requires w.bundle.Some? && AllBundled(archive + [w]) && Permutation(Order(listing, |archive|), |archive| + 1) && Chained(Bodies(archive + [w]))
    ensures Rewritten(archive, listing.after, w.bundle.value.body.next) == w.bundle.value.body.next
            <==> NoCommitAfter(Bodies(archive + [w]), LastVisited(Order(listing, |archive|), |archive| + 1))
  {
    LastListedDecides(archive, w, listing);
    assert (archive + [w])[|archive|] == w;
    GenerationsRise(Bodies(archive + [w]), LastVisited(Order(listing, |archive|), |archive| + 1), |archive|);
  }

  // Without an interrupted transaction in between, the gate's verdict is about the
  // very rules that are compiled, so an automatic change has the automatic shape.
  lemma AutomaticChangeIsConfined(s: Submission, policy: P.Root, c: L.Config, rules: seq<C.Rule>, after: seq<C.Rule>,
                                  intent: seq<I.Entry>, digest: I.Digests, now: int)
    requires s.request.auto && Permitted(policy, c, s, rules, now) && Compiled(s, rules, after, intent, digest)
    ensures X.AutoShape(rules, s.ops, after)
  {
    P.GateAllows(policy, c, P.Request(true, s.request.recommendationId, s.epoch), LowRisk(s.ops, rules), Allowlisted(s.ops), now);
    X.AutoAdmittedShape(rules, s.ops);
  }

  // ---- the gate is passed before the recovery ---------------------------------------------------

  // The recovery gate may book the rollback of an interrupted transaction, and the
  // request runs on although the policy has moved. Exactly when it would still pass:
  lemma StillPermittedIff(atGate: P.Root, c: L.Config, s: Submission, rules: seq<C.Rule>, now: int,
                          undone: Request, digest: Request -> string)
    requires Permitted(atGate, c, s, rules, now)
    ensures Permitted(BookedRollback(atGate, c, undone, digest, now), c, s, rules, now) <==>
      || !undone.auto || L.Seen(atGate.ledger.rolledBack, OutcomeId(undone, digest))
      || atGate.ledger.consecutiveRollbacks + 1 < c.fuseLimit
      || (!s.request.auto && atGate.ledger.fuseOpen)
  {
    if undone.auto {
      P.GateAfterRollback(atGate, c, P.Request(s.request.auto, s.request.recommendationId, s.epoch),
                          LowRisk(s.ops, rules), Allowlisted(s.ops), now, OutcomeId(undone, digest));
    }
  }

  // ---- two interrupted scenes ---------------------------------------------------------------------

  // A policy under which every automatic request may pass.
  const TRUSTING: P.Root := P.Root(P.Document(0, true, None, P.Normal, P.Auto), L.Fresh())

  // A rollback whose restart failed: the file is back, and nothing else was done.
  function Unfinished(source: Bytes, base: nat, undone: Request, archive: seq<Work>): Scene {
    Scene(Some(source), base,
          Work(true, Some(source), Some(Meta(true, base, base + 1)), Some(undone), None, Some(RollbackUnverified), None, None, None),
          Txn(undone, base, Some(source), source, Some(source)), archive, TRUSTING)
  }

  lemma UnfinishedIsConsistent(f: Format, source: Bytes, base: nat, undone: Request, archive: seq<Work>)
    ensures var at := Unfinished(source, base, undone, archive);
      Consistent(Host(at.managed, at.generation, None), at.work, at.txn) && OnlyPuts(f, OwnedOf(f, at.managed), at.txn)
  {
  }

  // A request for the one entry of an intent, where there are no rules yet.
  predicate AsksFor(s: Submission, e: I.Entry)
    requires I.GoodEntry(e)
  {
    s.request.auto && s.epoch == 0 && s.ops == [I.Inserted(e)]
  }

  lemma PermittedAtFirst(c: L.Config, s: Submission, e: I.Entry, now: int)
    requires c.fuseLimit == 1 && c.maxPerHour > 0 && I.GoodEntry(e) && AsksFor(s, e)
    ensures Permitted(TRUSTING, c, s, [], now) && X.ValidOperations(s.ops)
  {
    C.IdIsSafe(e.id.value);
    assert C.OpRisk(s.ops[0], []) == C.Low;
    assert LowRisk(s.ops, []) && Allowlisted(s.ops);
    assert L.Blocks(L.Fresh(), c, s.request.recommendationId, now) == [];
  }

  lemma LetOnAtFirst(f: Format, c: L.Config, s: Submission, e: I.Entry, undone: Request, archive: seq<Work>, now: int)
    requires c.fuseLimit == 1 && c.maxPerHour > 0 && I.GoodEntry(e) && AsksFor(s, e) && f.parse(s.source) == []
    ensures Refusal(f, c, s, Unfinished(s.source, s.request.generation, undone, archive), true, now) == None
  {
    PermittedAtFirst(c, s, e, now);
  }

  // It happens: the rollback never came to its ledger hook. A request passes every gate
  // and the intent proof; recovery has then booked the rollback and tripped the fuse, and
  // the request runs under a policy that denies it.
  lemma ExecutedAlthoughDenied(f: Format, c: L.Config, s: Submission, e: I.Entry, undone: Request,
                               digest: Request -> string, values: I.Digests, now: int)
    requires c.fuseLimit == 1 && c.maxPerHour > 0 && I.GoodEntry(e) && AsksFor(s, e) && f.parse(s.source) == [] && undone.auto
    ensures var at := Unfinished(s.source, s.request.generation, undone, []);
      && Consistent(Host(at.managed, at.generation, None), at.work, at.txn) && OnlyPuts(f, OwnedOf(f, at.managed), at.txn)
      && Refusal(f, c, s, at, true, now) == None && Proof(s, [e], RulesOf(f, at.managed), values).Ok?
      && !Permitted(BookedRollback(at.policy, c, at.txn.request, digest, now), c, s, RulesOf(f, at.managed), now)
  {
    UnfinishedIsConsistent(f, s.source, s.request.generation, undone, []);
    LetOnAtFirst(f, c, s, e, undone, [], now);
    PermittedAtFirst(c, s, e, now);
    StillPermittedIff(TRUSTING, c, s, [], now, undone, digest);
    I.OneMoreInserted([], e, values);
    assert I.Operations([e], [], values) == s.ops;
    GoodRequestCompiles(s, [e], [], values);
  }

  // A committed transaction of its own.
  function Finished(q: Request, base: nat): Work {
    var body := Body(Success, q, base, base + 1, None, 0);
    Work(true, None, None, Some(q), None, Some(Committed), Some(Bundle(body, SealOf(body))), Some(body), Some(body))
  }

  // Two manual requests committed one after the other.
  function TwoFinished(older: Request, newer: Request): seq<Work> {
    [Finished(older, 0), Finished(newer, 1)]
  }

  lemma {:induction false} TwoAreFinished(older: Request, newer: Request, work: Work, digest: Request -> string)
    requires !older.auto && !newer.auto && !Safe(work)
    ensures var archive := TwoFinished(older, newer);
      && AllBundled(archive) && Chained(Bodies(archive))
      && AllArchived(archive, TRUSTING.ledger, digest) && CaughtUp(archive, work, TRUSTING.ledger, digest)
  {
  }

  // Recovery lists the older of two commits last: the gates let a request on, but it then
  // finds another generation than its own, and the directory that it leaves behind stops
  // every later request, whether the service restarts or not.
  lemma RecoveryCanStrandRequests(f: Format, c: L.Config, s: Submission, e: I.Entry, older: Request, newer: Request, undone: Request,
                                  digest: Request -> string, now: int)
    requires c.fuseLimit == 1 && c.maxPerHour > 0 && I.GoodEntry(e) && AsksFor(s, e) && f.parse(s.source) == []
    requires s.request.generation == 2 && !older.auto && !newer.auto
    ensures var archive, listing := TwoFinished(older, newer), Listing([1], [0]);
      var at := Unfinished(s.source, 2, undone, archive);
      && AllBundled(archive) && Chained(Bodies(archive)) && Permutation(Order(listing, 2), 3)
      && AllArchived(archive, TRUSTING.ledger, digest) && CaughtUp(archive, at.work, TRUSTING.ledger, digest)
      && Consistent(Host(at.managed, at.generation, None), at.work, at.txn) && Refusal(f, c, s, at, true, now) == None
      && (forall gate :: LetOn(at, gate, listing) ==> gate.generation == 1)
    ensures forall recovers :: Unrecoverable(EMPTY.(made := true), recovers)
  {
    var archive := TwoFinished(older, newer);
    UnfinishedIsConsistent(f, s.source, 2, undone, archive);
    LetOnAtFirst(f, c, s, e, undone, archive, now);
    TwoAreFinished(older, newer, Unfinished(s.source, 2, undone, archive).work, digest);
    assert Order(Listing([1], [0]), 2) == [1, 2, 0];
    assert [1, 2, 0][0] == 1 && [1, 2, 0][1] == 2 && [1, 2, 0][2] == 0;
  }

  // One request committed, then another, then the id of the first again: it passes every
  // gate and the intent proof, and its replay can only write the generation that the
  // first commit left, which is older than the one it was planned from.
  lemma ReplayMovesGeneration(f: Format, c: L.Config, s: Submission, e: I.Entry, first: Request, other: Request,
                              digest: Request -> string, values: I.Digests, txn: Txn, now: int)
    requires c.fuseLimit == 1 && c.maxPerHour > 0 && I.GoodEntry(e) && AsksFor(s, e) && f.parse(s.source) == []
    requires s.request.generation == 2 && !first.auto && !other.auto
    requires first.recommendationId == s.request.recommendationId != other.recommendationId
    ensures var archive := TwoFinished(first, other);
      var at := Scene(Some(s.source), 2, EMPTY, txn, archive, TRUSTING);
      && AllBundled(archive) && Chained(Bodies(archive))
      && AllArchived(archive, TRUSTING.ledger, digest) && CaughtUp(archive, at.work, TRUSTING.ledger, digest)
      && Refusal(f, c, s, at, true, now) == None && Proof(s, [e], RulesOf(f, at.managed), values).Ok?
      && HasFinished(archive, s.request.recommendationId)
      && (forall generation :: FinishedWith(archive, s.request.recommendationId, generation) <==> generation == 1)
  {
    var archive := TwoFinished(first, other);
    PermittedAtFirst(c, s, e, now);
    TwoAreFinished(first, other, EMPTY, digest);
    I.OneMoreInserted([], e, values);
    assert I.Operations([e], [], values) == s.ops;
    GoodRequestCompiles(s, [e], [], values);
    assert archive[0] in archive && archive[0].bundle.value.body.next == 1;
  }

  // ---- the executor --------------------------------------------------------------------------------

  class Executor {
    const root: RootTransaction
    const format: Format
    ghost const owned: Option<Owned>
    var archive: seq<Work>     // the directories of earlier requests
    var claimed: bool          // a claim is in the spool

    constructor (root: RootTransaction, format: Format)
      requires root.Valid() && root.work == EMPTY && Lawful(format)
      ensures this.root == root && this.format == format && archive == [] && !claimed && Valid()
      ensures owned == OwnedOf(format, root.managed)
    {
      this.root, this.format, archive, claimed := root, format, [], false;
      owned := OwnedOf(format, root.managed);
    }

    // What no step ever breaks: what the user owns is as it was at the start, and so is
    // all that a transaction may still put in place.
    ghost predicate Sound()
      reads this`archive, root, root.policy, root.policy.auto
    {
      && root.Valid() && Lawful(format) && OwnedOf(format, root.managed) == owned
      && KeepsOwned(format, owned, root.work, root.txn)
      && AllArchived(archive, root.policy.auto.state, root.digest)
    }

    ghost predicate Known()
      reads this`archive, root, root.policy, root.policy.auto
    {
      CaughtUp(archive, root.work, root.policy.auto.state, root.digest)
    }

    // Between any two durable writes of any run; only a claim can stand for outcomes
    // that the ledger does not know.
    ghost predicate Valid()
      reads this, root, root.policy, root.policy.auto
    {
      Sound() && (!claimed ==> Known())
    }

    // All that a call can depend on.
    ghost function Now(): Scene
      reads this`archive, root, root.policy, root.policy.auto
    {
      Scene(root.managed, root.generation, root.work, root.txn, archive, root.policy.Current())
    }

    // What the document says to a request, before the automatic ledger is asked.
    method CheckStanding(q: P.Request) returns (denied: seq<P.Denial>)
      ensures denied == P.Standing(root.policy.doc, q)
    {
      denied := if root.policy.doc.mode != P.Normal then [P.ModeNotNormal] else [];
      denied := denied + if q.epoch != root.policy.doc.epoch then [P.EpochMismatch] else [];
      if q.auto {
        denied := denied + if root.policy.doc.stage != P.Auto then [P.StageNotAuto] else [];
      } else {
        denied := denied + if root.policy.doc.stage != P.Assist && root.policy.doc.stage != P.Auto then [P.StageNotAssist] else [];
      }
    }

    // _root_gate: everything is read again from the root policy. What it prunes does
    // not change its answer.
    method RootGate(s: Submission, rules: seq<C.Rule>, now: int) returns (denied: seq<P.Denial>)
      requires root.Valid() && root.policy.auto.clock <= now
      modifies root.policy.auto
      ensures root.Valid() && root.policy.auto.clock <= now && root.policy.auto.unpaced == old(root.policy.auto.unpaced)
      ensures root.policy.Current() == Pruning(old(root.policy.Current()), root.policy.auto.config, root.policy.auto.state.mutationTimes, now)
      ensures denied == Denials(old(root.policy.Current()), root.policy.auto.config, s, rules, now)
      ensures denied == Denials(root.policy.Current(), root.policy.auto.config, s, rules, now)
      ensures denied == [] ==> root.MayBook(s.request)
    {
      denied := CheckStanding(AsRequest(s));
      if s.request.auto {
        var more := root.policy.Evaluate(s.request.recommendationId, s.epoch, LowRisk(s.ops, rules), Allowlisted(s.ops), now);
        denied := denied + more;
      }
    }

    // The finished directories with these numbers, as recover_all comes by them.
    method RewriteAll(ks: seq<nat>) returns (ok: bool)
      requires Sound()
      modifies root`generation, root`delivery
      ensures Sound() && (ok ==> root.generation == Rewritten(archive, ks, old(root.generation)))
    {
      for i := 0 to |ks|
        invariant Sound() && root.generation == Rewritten(archive, ks[..i], old(root.generation))
      {
        assert ks[..i + 1][..i] == ks[..i];
        if ks[i] < |archive| {
          assert Archived(archive[ks[i]], root.policy.auto.state, root.digest);
          var r := root.Rewrite(archive[ks[i]]);
          if r.Crashed? { return false; }
        }
      }
      assert ks[..|ks|] == ks;
      return true;
    }

    // recover_all: every directory in turn. A finished one only rewrites the generation;
    // the unfinished one is finished exactly if its bundle is durable, or it was prepared
    // and the service restarts.
    method RecoverAll(recovers: bool, listing: Listing, now: int) returns (ok: bool)
      requires Sound()
      modifies root
      ensures Sound() && root.txn == old(root.txn)
      ensures ok ==> Concluded(old(root.work), root.work)
      ensures ok ==> (Safe(root.work) <==> old(root.work.bundle.Some?) || (old(root.work.phase.Some?) && recovers))
      ensures ok && !Safe(root.work) ==> Held(old(Now()), Now())
      ensures ok ==> root.generation == Rewritten(archive, listing.after,
        if Safe(root.work) then root.work.bundle.value.body.next else Rewritten(archive, listing.before, old(root.generation)))
    {
      ok := RewriteAll(listing.before);
      if !ok { return; }
      ok := RecoverUnfinished(recovers, now);
      if !ok { return; }
      ok := RewriteAll(listing.after);
    }

    method RecoverUnfinished(recovers: bool, now: int) returns (ok: bool)
      requires Sound()
      modifies root
      ensures Sound() && root.txn == old(root.txn)
      ensures ok ==> Concluded(old(root.work), root.work)
      ensures ok ==> (Safe(root.work) <==> old(root.work.bundle.Some?) || (old(root.work.phase.Some?) && recovers))
      ensures ok && !Safe(root.work) ==> Held(old(Now()), Now())
      ensures ok ==> root.generation == if Safe(root.work) then root.work.bundle.value.body.next else old(root.generation)
    {
      var recovered := root.Recover(recovers, now);
      if !recovered.NothingToDo? { FileIsOwned(format, owned, root.Believed(), root.work, root.txn); }
      if recovered.Completed? { FinishedIsSettled(root.Believed(), root.work, root.txn); }
      ok := !recovered.Crashed?;
    }

    // recover_all and _reconcile_ledger; a crash in between leaves the claim, and so the
    // next call comes here again.
    method RecoverAndReconcile(recovers: bool, listing: Listing, now: int) returns (ok: bool)
      requires Sound() && root.policy.auto.clock <= now && 0 < now
      modifies root, root.policy, root.policy.auto
      ensures Sound() && root.policy.auto.clock <= now && root.AppliesUntouched() && root.txn == old(root.txn)
      ensures ok ==> Known() && Concluded(old(root.work), root.work)
      ensures ok ==> (Safe(root.work) <==> old(root.work.bundle.Some?) || (old(root.work.phase.Some?) && recovers))
      ensures ok && !Safe(root.work) ==> Held(old(Now()), Now())
      ensures ok ==> root.generation == Rewritten(archive, listing.after,
        if Safe(root.work) then root.work.bundle.value.body.next else Rewritten(archive, listing.before, old(root.generation)))
      ensures ok ==> CountsAll(old(root.policy.Current()), now)
    {
      ok := RecoverAll(recovers, listing, now);
      if !ok { return; }
      Reconcile(now);
    }

    // The policy is the earlier one with every outcome recorded, in order.
    ghost predicate CountsAll(before: P.Root, now: int)
      reads this`archive, root, root.policy, root.policy.auto
    {
      root.policy.Current() == ReconciledAll(before, root.policy.auto.config, archive + [root.work], root.digest, now)
    }

    method Reconcile(now: int)
      requires Sound() && root.policy.auto.clock <= now && 0 < now
      modifies root.policy, root.policy.auto
      ensures Sound() && root.policy.auto.clock <= now && root.AppliesUntouched() && Known()
      ensures CountsAll(old(root.policy.Current()), now)
    {
      ghost var ledger := root.policy.auto.state;
      DirectoryIsBooked(root.Believed(), root.work, root.txn, ledger, root.digest);
      var works := archive + [root.work];
      root.ReconcileLedger(works, now);
      ArchiveGrows(archive, ledger, root.policy.auto.state, root.digest);
      assert forall w :: w in archive ==> w in works;
      assert root.work in works;
    }

    // The directory of a finished transaction stays behind; the next one gets its own.
    method Shelve()
      requires Sound() && Known() && Safe(root.work)
      modifies this`archive, root`work, root`txn
      ensures Sound() && Known() && root.work == EMPTY && archive == old(archive) + [old(root.work)]
      ensures SettledAs(root.Believed(), old(root.work), old(root.txn))
    {
      FinishedIsSettled(root.Believed(), root.work, root.txn);
      DirectoryIsBooked(root.Believed(), root.work, root.txn, root.policy.auto.state, root.digest);
      archive := archive + [root.work];
      root.Renew();
    }

    // The unfinished directory is recovered and the ledger reconciled.
    method Finish(recovers: bool, listing: Listing, now: int) returns (stopped: Option<Answer>)
      requires Sound() && Known() && root.policy.auto.clock <= now && 0 < now && root.work != EMPTY && !Safe(root.work)
      modifies root, root.policy, root.policy.auto
      ensures Sound() && root.policy.auto.clock <= now && root.AppliesUntouched() && root.txn == old(root.txn)
      ensures stopped in {None, Some(RecoveryRequired), Some(Interrupted)}
      ensures stopped != Some(Interrupted) ==> Known() && (stopped == Some(RecoveryRequired) <==> old(Unrecoverable(root.work, recovers)))
      ensures stopped == Some(RecoveryRequired) ==> Held(old(Now()), Now())
      ensures stopped.None? ==> Safe(root.work) && Concluded(old(root.work), root.work)
      ensures stopped.None? ==> root.generation == Rewritten(archive, listing.after, root.work.bundle.value.body.next)
      ensures stopped.None? ==> root.policy.Current() ==
                                if root.work.phase == Some(RolledBack) then
                                  BookedRollback(old(root.policy.Current()), root.policy.auto.config, root.txn.request, root.digest, now)
                                else old(root.policy.Current())
    {
      ghost var before := root.policy.Current();
      var ok := RecoverAndReconcile(recovers, listing, now);
      if !ok { return Some(Interrupted); }
      if !Safe(root.work) { return Some(RecoveryRequired); }
      DirectoryIsBooked(root.Believed(), root.work, root.txn, before.ledger, root.digest);
      OnlyTheLastCounts(before, root.policy.auto.config, archive, root.work, root.digest, now);
      return None;
    }

    // _global_recovery_gate: only when every directory is finished may a new request
    // touch the host.
    method RecoveryGate(recovers: bool, listing: Listing, now: int) returns (stopped: Option<Answer>)
      requires Sound() && Known() && root.policy.auto.clock <= now && 0 < now
      modifies this`archive, root, root.policy, root.policy.auto
      ensures Sound() && root.policy.auto.clock <= now && root.AppliesUntouched()
      ensures stopped in {None, Some(RecoveryRequired), Some(Interrupted)}
      ensures stopped != Some(Interrupted) ==> Known() && (stopped == Some(RecoveryRequired) <==> old(Unrecoverable(root.work, recovers)))
      ensures stopped.Some? ==> archive == old(archive)
      ensures stopped == Some(RecoveryRequired) ==> Held(old(Now()), Now())
      ensures stopped.None? ==> LetOn(old(Now()), Now(), listing)
      ensures stopped.None? ==> root.policy.Current() == match UndoneBy(old(Now()), Now())
        case Some(q) => BookedRollback(old(root.policy.Current()), root.policy.auto.config, q, root.digest, now)
        case None => old(root.policy.Current())
    {
      if root.work == EMPTY { return None; }
      ghost var at := Now();
      if !Safe(root.work) {
        stopped := Finish(recovers, listing, now);
        if stopped.Some? { return; }
      }
      ghost var w := root.work;
      Shelve();
      ShelvingLetsOn(at, Now(), root.Believed(), w, listing);
      stopped := None;
    }

    method PolicyGate(s: Submission, live: seq<C.Rule>, now: int) returns (denied: seq<P.Denial>)
      requires Sound() && Known() && root.policy.auto.clock <= now
      modifies root.policy.auto
      ensures Sound() && Known() && root.policy.auto.clock <= now && root.policy.auto.unpaced == old(root.policy.auto.unpaced)
      ensures root.policy.Current() == Pruning(old(root.policy.Current()), root.policy.auto.config, root.policy.auto.state.mutationTimes, now)
      ensures denied == Denials(old(root.policy.Current()), root.policy.auto.config, s, live, now)
      ensures denied == Denials(root.policy.Current(), root.policy.auto.config, s, live, now)
      ensures denied == [] ==> root.MayBook(s.request)
    {
      ghost var ledger := root.policy.auto.state;
      denied := RootGate(s, live, now);
      ArchiveGrows(archive, ledger, root.policy.auto.state, root.digest);
      StaysCaughtUp(archive, root.work, ledger, root.policy.auto.state, root.digest);
    }

    // Everything before recovery.
    method Screen(s: Submission, now: int) returns (refused: Option<Answer>)
      requires Sound() && Known() && root.policy.auto.clock <= now && 0 < now
      modifies root.policy.auto
      ensures Sound() && Known() && root.policy.auto.clock <= now && root.policy.auto.unpaced == old(root.policy.auto.unpaced)
      ensures refused == Screening(format, root.policy.auto.config, s, old(Now()), now)
      ensures OnlyPruned(old(Now()))
      ensures refused.None? ==> Permitted(root.policy.Current(), root.policy.auto.config, s, RulesOf(format, root.managed), now)
      ensures refused.None? ==> root.MayBook(s.request) && root.managed == Some(s.source)
      ensures refused.None? ==>
        root.policy.Current() == Pruning(old(root.policy.Current()), root.policy.auto.config, root.policy.auto.state.mutationTimes, now)
    {
      if !X.ValidOperations(s.ops) { return Some(Rejected(X.InvalidOperation)); }
      var denied := PolicyGate(s, RulesOf(format, root.managed), now);
      if denied != [] { return Some(Blocked(denied)); }
      if root.managed != Some(s.source) || root.generation != s.request.generation { return Some(Stale); }
      return None;
    }

    // The gates, in order: the operations, the policy, the file and the generation that
    // the request was planned from, the directories of earlier requests.
    method Admit(s: Submission, fate: Fate, now: int) returns (stopped: Option<Answer>, ghost atGate: P.Root)
      requires Sound() && Known() && root.policy.auto.clock <= now && 0 < now
      modifies this`archive, root, root.policy, root.policy.auto
      ensures Sound() && root.policy.auto.clock <= now && root.policy.auto.unpaced == old(root.policy.auto.unpaced)
      ensures stopped != Some(Interrupted) ==>
        Known() && stopped == Refusal(format, root.policy.auto.config, s, old(Now()), fate.recovers, now)
      ensures old(archive) <= archive
      ensures stopped.Some? ==> TurnedAway(stopped.value, old(Now()))
      ensures stopped.None? ==> old(root.generation) == s.request.generation && old(root.managed) == Some(s.source)
      ensures stopped.None? && root.generation != s.request.generation ==> old(root.work) != EMPTY
      ensures stopped != Some(Interrupted) && (old(root.generation) != s.request.generation || old(root.managed) != Some(s.source)) ==>
        stopped.Some? && OnlyPruned(old(Now()))
      ensures stopped.None? ==> root.MayBook(s.request) && root.managed.Some? && LetOn(old(Now()), Now(), fate.listing)
      ensures stopped.None? ==> Passed(format, root.policy.auto.config, root.digest, s, Trace(old(Now()), atGate, Now()), now)
    {
      ghost var at := Now();
      stopped := Screen(s, now);
      atGate := root.policy.Current();
      if stopped.Some? { return; }
      stopped := RecoveryGate(fate.recovers, fate.listing, now);
      PolicyAside(at, atGate, Now(), fate.listing);
    }

    // A refused request leaves everything as it was, but for what recovery has tried.
    ghost predicate TurnedAway(r: Answer, at: Scene)
      reads this`archive, root, root.policy, root.policy.auto
    {
      match r
      case Interrupted => archive == at.archive
      case RecoveryRequired => Held(at, Now())
      case _ => OnlyPruned(at)
    }

    // Nothing has moved but the times in the window of the automatic ledger.
    ghost predicate OnlyPruned(at: Scene)
      reads this`archive, root, root.policy, root.policy.auto
    {
      Now() == at.(policy := at.policy.(ledger := at.policy.ledger.(mutationTimes := root.policy.auto.state.mutationTimes)))
    }

    // The directory that an earlier request with the same id left finished.
    method FindFinished(rid: string) returns (k: nat)
      requires Sound()
      ensures k < |archive| ==> archive[k].request.Some? && archive[k].request.value.recommendationId == rid
      ensures k < |archive| <==> HasFinished(archive, rid)
    {
      k := 0;
      while k < |archive|
        invariant k <= |archive|
        invariant forall i :: 0 <= i < k ==> archive[i].request.Some? && archive[i].request.value.recommendationId != rid
      {
        assert Archived(archive[k], root.policy.auto.state, root.digest);
        if archive[k].request.value.recommendationId == rid { return; }
        k := k + 1;
      }
    }

    // The managed file carries the new rules, and the directory says so.
    ghost predicate Committed(s: Submission, after: seq<C.Rule>)
      reads root, root.policy, root.policy.auto
    {
      && RulesOf(format, root.managed) == after && root.txn.request == s.request && root.txn.base == s.request.generation
      && EndedCommitted(root.HostNow(), root.work, root.txn) && Reconciled(root.work, root.policy.auto.state, root.digest)
    }

    ghost predicate TakenBack(s: Submission, g: Scene)
      reads root, root.policy, root.policy.auto
    {
      && root.managed == g.managed && root.txn.request == s.request && root.txn.base == s.request.generation
      && EndedRolledBack(root.HostNow(), root.work, root.txn) && Reconciled(root.work, root.policy.auto.state, root.digest)
    }

    // What an executed transaction leaves: the compiled rules, or the file as it was. It
    // stops short exactly if recovery has moved the generation away from the request's.
    ghost predicate Ran(s: Submission, g: Scene, after: seq<C.Rule>, fate: Fate, outcome: Outcome)
      reads root, root.policy, root.policy.auto
    {
      && AsFated(Executed(outcome), s, fate)
      && (outcome.Mismatch? <==> g.generation != s.request.generation)
      && (outcome.Mismatch? ==> root.work == EMPTY.(made := true))
      && (outcome.PreValidationFailed? ==> root.work == EMPTY)
      && (outcome.Mismatch? || outcome.PreValidationFailed? ==> root.managed == g.managed && root.generation == g.generation)
      && (outcome == Completed(Success) ==> Committed(s, after))
      && (outcome == Completed(Undone) ==> TakenBack(s, g))
    }

    // The transaction, on a file whose rules compiled.
    method Apply(s: Submission, after: seq<C.Rule>, fate: Fate, now: int) returns (outcome: Outcome)
      requires Sound() && Known() && root.policy.auto.clock <= now && 0 < now && root.work == EMPTY && root.MayBook(s.request)
      requires root.managed.Some? && X.CompileAll(format.parse(root.managed.value), s.ops) == Ok(after)
      modifies root, root.policy, root.policy.auto
      ensures Sound() && root.policy.auto.clock <= now && root.policy.auto.unpaced == old(root.policy.auto.unpaced)
      ensures !outcome.Crashed? ==> Known()
      ensures Ran(s, old(Now()), after, fate, outcome)
    {
      ghost var ledger := root.policy.auto.state;
      var candidate := format.render(root.managed.value, after);
      RenderingKeepsOwned(format, root.managed.value, s.ops, after);
      outcome := root.Apply(s.request, candidate, fate.valid, (m: Option<Bytes>) => m == Some(candidate), fate.restarts, fate.books,
                            fate.restores, fate.unbooks, now);
      ArchiveGrows(archive, ledger, root.policy.auto.state, root.digest);
      StaysCaughtUp(archive, EMPTY, ledger, root.policy.auto.state, root.digest);
      if !outcome.Mismatch? && !outcome.PreValidationFailed? {
        FileIsOwned(format, owned, root.Believed(), root.work, root.txn);
      }
    }

    // What comes of a request that the gates let on, from the scene `g` behind them: the
    // intent proof and the compiler decide, then whether its id was used before.
    ghost predicate Settles(s: Submission, intent: seq<I.Entry>, digest: I.Digests, g: Scene, fate: Fate, r: Answer)
      reads this`archive, root, root.policy, root.policy.auto
    {
      match Proof(s, intent, RulesOf(format, g.managed), digest)
      case Err(answer) => r == answer && Now() == g
      case Ok(after) =>
        archive == g.archive &&
        if HasFinished(g.archive, s.request.recommendationId) then
          r.Replayed? && OnlyRewrote(s, g, r.outcome)
        else
          && r.Executed? && Ran(s, g, after, fate, r.outcome)
          && (r == Executed(Completed(Success)) && s.request.auto && I.GoodIntent(intent, digest) ==>
                I.Operations(intent, RulesOf(format, root.managed), digest) == [])
    }

    // A request whose id was used before moves nothing but the generation.
    ghost predicate OnlyRewrote(s: Submission, g: Scene, outcome: Outcome)
      reads this`archive, root, root.policy, root.policy.auto
    {
      && (outcome.Completed? || outcome.Crashed?)
      && Now() == g.(generation := root.generation)
      && (root.generation == g.generation || FinishedWith(g.archive, s.request.recommendationId, root.generation))
      && (outcome.Completed? ==> FinishedWith(g.archive, s.request.recommendationId, root.generation))
    }

    // _run_transaction behind the gates, on the rules that are live now. A directory
    // that is finished already is not executed again, only replayed.
    method Transact(s: Submission, intent: seq<I.Entry>, digest: I.Digests, fate: Fate, now: int) returns (r: Answer)
      requires Sound() && Known() && root.policy.auto.clock <= now && 0 < now && root.work == EMPTY && root.MayBook(s.request)
      requires root.managed.Some? && X.ValidOperations(s.ops)
      modifies root, root.policy, root.policy.auto
      ensures Sound() && root.policy.auto.clock <= now && root.policy.auto.unpaced == old(root.policy.auto.unpaced)
      ensures !CutShort(r) ==> Known()
      ensures Settles(s, intent, digest, old(Now()), fate, r)
    {
      var live := RulesOf(format, root.managed);
      var compiled := CompileProved(s, intent, live, digest);
      if compiled.Err? { return compiled.error; }
      var k := FindFinished(s.request.recommendationId);
      if k < |archive| {
        assert Archived(archive[k], root.policy.auto.state, root.digest);
        var replayed := root.Rewrite(archive[k]);
        return Replayed(replayed);
      }
      var outcome := Apply(s, compiled.value, fate, now);
      return Executed(outcome);
    }

    // The answer of a call that was not cut off from it, exactly: refused by the gates
    // at the scene `t.at`, or let on by them and settled from the scene `t.gate`.
    ghost predicate Answers(s: Submission, intent: seq<I.Entry>, digest: I.Digests, fate: Fate, now: int, r: Answer, t: Trace)
      reads this`archive, root, root.policy, root.policy.auto
    {
      var refusal := Refusal(format, root.policy.auto.config, s, t.at, fate.recovers, now);
      if refusal.Some? then r == refusal.value && TurnedAway(r, t.at)
      else
        && LetOn(t.at, t.gate, fate.listing) && Passed(format, root.policy.auto.config, root.digest, s, t, now)
        && Settles(s, intent, digest, t.gate, fate, r)
    }

    method HandleClaimed(s: Submission, intent: seq<I.Entry>, digest: I.Digests, fate: Fate, now: int) returns (r: Answer, ghost t: Trace)
      requires Sound() && Known() && root.policy.auto.clock <= now && 0 < now
      modifies this`archive, root, root.policy, root.policy.auto
      ensures Sound() && root.policy.auto.clock <= now && root.policy.auto.unpaced == old(root.policy.auto.unpaced) && old(archive) <= archive
      ensures !CutShort(r) ==> Known()
      ensures t.at == old(Now()) && (r != Interrupted ==> Answers(s, intent, digest, fate, now, r, t))
    {
      t := Trace(Now(), root.policy.Current(), Now());
      if * { return Interrupted, t; }
      ghost var atGate;
      var stopped;
      stopped, atGate := Admit(s, fate, now);
      if stopped.Some? { return stopped.value, t; }
      t := t.(atGate := atGate, gate := Now());
      r := Transact(s, intent, digest, fate, now);
      if * { return Interrupted, t; }
    }

    // Phase 2: the pending request is claimed, handled, and its claim settled.
    method TakeNext(s: Submission, intent: seq<I.Entry>, digest: I.Digests, fate: Fate, now: int) returns (r: Answer, ghost t: Trace)
      requires Valid() && !claimed && root.policy.auto.clock <= now && 0 < now
      modifies this, root, root.policy, root.policy.auto
      ensures Valid() && root.policy.auto.clock <= now && root.policy.auto.unpaced == old(root.policy.auto.unpaced) && old(archive) <= archive
      ensures claimed <==> CutShort(r)
      ensures t.at == old(Now()) && (r != Interrupted ==> Answers(s, intent, digest, fate, now, r, t))
    {
      ghost var at := Now();
      claimed := true;
      assert Now() == at;
      r, t := HandleClaimed(s, intent, digest, fate, now);
      claimed := CutShort(r);
      assert r != Interrupted ==> Answers(s, intent, digest, fate, now, r, t);
    }

    // What recovering a claimed transaction leaves of it: finished, or held.
    ghost predicate Recovered(before: Scene, now: Scene, fate: Fate) {
      && now.txn == before.txn && now.archive == before.archive && Concluded(before.work, now.work)
      && (Safe(now.work) <==> before.work.bundle.Some? || (before.work.phase.Some? && fate.recovers))
      && (!Safe(now.work) ==> Held(before, now))
      && (Safe(now.work) ==> SettledAs(Host(now.managed, now.work.bundle.value.body.next, None), now.work, now.txn))
      && now.generation == Rewritten(before.archive, fate.listing.after,
           if Safe(now.work) then now.work.bundle.value.body.next else Rewritten(before.archive, fate.listing.before, before.generation))
    }

    // Phase 1: the transaction that an interrupted call left is recovered and reported,
    // never executed again, and its claim is settled.
    method SettleClaim(fate: Fate, now: int) returns (ok: bool)
      requires Valid() && claimed && root.policy.auto.clock <= now && 0 < now
      modifies this`claimed, root, root.policy, root.policy.auto
      ensures Valid() && root.policy.auto.clock <= now && root.AppliesUntouched() && claimed == !ok
      ensures ok ==> Recovered(old(Now()), Now(), fate)
    {
      ok := RecoverAndReconcile(fate.recovers, fate.listing, now);
      if !ok { return; }
      if Safe(root.work) { FinishedIsSettled(root.Believed(), root.work, root.txn); }
      claimed := false;
    }

    // apply: first what an interrupted call left claimed, then the new request. Every
    // call, interrupted or not, keeps what the user owns and the pace of the applies; and
    // an automatic request that passes the gates with the root's own operations for a
    // good intent is executed, or was before.
    method Handle(s: Submission, intent: seq<I.Entry>, digest: I.Digests, fate: Fate, now: int) returns (r: Answer, ghost t: Trace)
      requires Valid() && root.policy.auto.clock <= now && 0 < now
      modifies this, root, root.policy, root.policy.auto
      ensures Valid() && OwnedOf(format, root.managed) == old(OwnedOf(format, root.managed))
      ensures root.policy.auto.clock <= now && root.policy.auto.unpaced == old(root.policy.auto.unpaced) && old(archive) <= archive
      ensures claimed <==> CutShort(r)
      ensures r != Interrupted ==> Answers(s, intent, digest, fate, now, r, t)
      ensures r != Interrupted ==> if old(claimed) then Recovered(old(Now()), t.at, fate) else t.at == old(Now())
      ensures r != Interrupted && Wanted(s, intent, digest, fate, now, t) ==> r.Executed? || r.Replayed?
      ensures r.Executed? || r.Replayed? ==> t.at.generation == s.request.generation && t.at.managed == Some(s.source)
      ensures r == Executed(Mismatch) ==> t.at.work != EMPTY
      ensures r.Executed? || r.Replayed? ==> Authorised(format, root.policy.auto.config, s, t, now)
      ensures r.Executed? ==> forall w :: w in t.gate.archive && w.request.Some? ==> w.request.value.recommendationId != s.request.recommendationId
      ensures r.Replayed? ==> exists w :: w in t.gate.archive && w.request.Some? && w.request.value.recommendationId == s.request.recommendationId
      ensures r != Interrupted && !old(claimed) && (old(root.generation) != s.request.generation || old(root.managed) != Some(s.source)) ==>
        !r.Executed? && !r.Replayed? && OnlyPruned(old(Now()))
    {
      r, t := Serve(s, intent, digest, fate, now);
      if r != Interrupted {
        AnswersNeedTheirPlan(s, intent, digest, fate, now, r, t);
        if Wanted(s, intent, digest, fate, now, t) { WantedIsServed(s, intent, digest, fate, now, r, t); }
      }
    }

    lemma AnswersNeedTheirPlan(s: Submission, intent: seq<I.Entry>, digest: I.Digests, fate: Fate, now: int, r: Answer, t: Trace)
      requires r != Interrupted && Answers(s, intent, digest, fate, now, r, t)
      ensures r.Executed? || r.Replayed? ==> t.at.generation == s.request.generation && t.at.managed == Some(s.source)
      ensures r == Executed(Mismatch) ==> t.at.work != EMPTY
      ensures r.Executed? || r.Replayed? ==> Authorised(format, root.policy.auto.config, s, t, now)
      ensures r.Executed? ==> forall w :: w in t.gate.archive && w.request.Some? ==> w.request.value.recommendationId != s.request.recommendationId
      ensures r.Replayed? ==> exists w :: w in t.gate.archive && w.request.Some? && w.request.value.recommendationId == s.request.recommendationId
      ensures t.at.generation != s.request.generation || t.at.managed != Some(s.source) ==> !r.Executed? && !r.Replayed? && OnlyPruned(t.at)
    {
      if r.Executed? || r.Replayed? { PassedIsAuthorised(format, root.policy.auto.config, root.digest, s, t, now); }
    }

    lemma WantedIsServed(s: Submission, intent: seq<I.Entry>, digest: I.Digests, fate: Fate, now: int, r: Answer, t: Trace)
      requires r != Interrupted && Answers(s, intent, digest, fate, now, r, t) && Wanted(s, intent, digest, fate, now, t)
      ensures r.Executed? || r.Replayed?
    {
      GoodRequestCompiles(s, intent, RulesOf(format, t.gate.managed), digest);
    }

    method Serve(s: Submission, intent: seq<I.Entry>, digest: I.Digests, fate: Fate, now: int) returns (r: Answer, ghost t: Trace)
      requires Valid() && root.policy.auto.clock <= now && 0 < now
      modifies this, root, root.policy, root.policy.auto
      ensures Valid() && root.policy.auto.clock <= now && root.policy.auto.unpaced == old(root.policy.auto.unpaced) && old(archive) <= archive
      ensures claimed <==> CutShort(r)
      ensures r != Interrupted ==> Answers(s, intent, digest, fate, now, r, t)
      ensures r != Interrupted ==> if old(claimed) then Recovered(old(Now()), t.at, fate) else t.at == old(Now())
    {
      t := Trace(Now(), root.policy.Current(), Now());
      if claimed {
        var settled := SettleClaim(fate, now);
        if !settled { return Interrupted, t; }
      }
      r, t := TakeNext(s, intent, digest, fate, now);
    }

    // The gates let the request on, and it asks for what the root itself plans.
    ghost predicate Wanted(s: Submission, intent: seq<I.Entry>, digest: I.Digests, fate: Fate, now: int, t: Trace)
      reads root, root.policy, root.policy.auto
    {
      && Refusal(format, root.policy.auto.config, s, t.at, fate.recovers, now) == None
      && s.ops == I.Operations(intent, RulesOf(format, t.gate.managed), digest) && I.GoodIntent(intent, digest)
      && |RulesOf(format, t.gate.managed)| <= C.MAX_RULES
    }

    // Call after call, each of which may be interrupted anywhere: what the user owns
    // stays as it was at the start, and applies that kept their pace go on keeping it.
    method HandleAll(queue: seq<Turn>) returns (answers: seq<Answer>)
      requires Valid() && Clocked(queue, root.policy.auto.clock)
      modifies this, root, root.policy, root.policy.auto
      ensures Valid() && |answers| == |queue| && old(archive) <= archive
      ensures OwnedOf(format, root.managed) == old(OwnedOf(format, root.managed))
      ensures old(root.policy.auto.unpaced) == 0 ==> L.Paced(root.policy.auto.history, root.policy.auto.config)
    {
      answers := [];
      for i := 0 to |queue|
        invariant Valid() && |answers| == i && old(archive) <= archive
        invariant i < |queue| ==> root.policy.auto.clock <= queue[i].now
        invariant root.policy.auto.unpaced == old(root.policy.auto.unpaced)
      {
        var turn := queue[i];
        var r, t := Handle(turn.submission, turn.intent, turn.digest, turn.fate, turn.now);
        answers := answers + [r];
      }
    }
  }
}
