// python/rill_xray_agent/root_policy.py: the root-owned execution policy (epoch,
// mode, stage, confirmation) over the automatic-apply ledger, and the gate of
// route_executor.py that requests must pass.

module RootPolicy {
  import opened Collections
  import L = AutoPolicy

  datatype Mode = Normal | ObserveOnly | SafeDisabled
  datatype Stage = Observe | Assist | Auto | Disabled

  datatype Document = Document(epoch: nat, confirmed: bool, confirmedAt: Option<int>, mode: Mode, stage: Stage)

  datatype Root = Root(doc: Document, ledger: L.State)

  datatype Call = SetMode(mode: Mode) | SetRouteStage(stage: Stage) | SafeDisable | SetAutoConfirmed(confirmed: bool)
                | ResetPolicy | RecordApply(rid: string, id: Option<string>) | RecordRollback(id: Option<string>)
                | AcknowledgeFuse(acknowledged: bool) | BumpEpoch
                | Pruned(times: seq<int>)   // an evaluation or a restart: other window contents, same meaning

  datatype Timed = Timed(call: Call, now: int)

  function Bumped(d: Document): Document {
    d.(epoch := d.epoch + 1)
  }

  // What one completed call leaves.
  function Step(r: Root, c: L.Config, t: Timed): Root {
    match t.call
    case SetMode(mode) => if r.doc.mode == mode then r else r.(doc := Bumped(r.doc.(mode := mode)))
    case SetRouteStage(stage) => if r.doc.stage == stage then r else r.(doc := Bumped(r.doc.(stage := stage)))
    case SafeDisable => r.(doc := Bumped(r.doc.(mode := SafeDisabled, confirmed := false, confirmedAt := None)))
    case SetAutoConfirmed(confirmed) =>
      if r.doc.confirmed == confirmed then r
      else r.(doc := Bumped(r.doc.(confirmed := confirmed, confirmedAt := if confirmed then Some(t.now) else None)))
    case ResetPolicy => r.(doc := Bumped(r.doc.(confirmed := false, confirmedAt := None)))
    case RecordApply(rid, id) => r.(ledger := L.Applied(r.ledger, rid, id, t.now))
    case RecordRollback(id) =>
      var ledger := L.RolledBack(r.ledger, c, id, t.now);
      Root(if ledger.fuseOpen && !r.ledger.fuseOpen then Bumped(r.doc) else r.doc, ledger)
    case AcknowledgeFuse(acknowledged) =>
      var ledger := L.Acknowledged(r.ledger, acknowledged);
      Root(if ledger.fuseAcknowledged != r.ledger.fuseAcknowledged then Bumped(r.doc) else r.doc, ledger)
    case BumpEpoch => r.(doc := Bumped(r.doc))
    case Pruned(times) => r.(ledger := r.ledger.(mutationTimes := times))
  }

  function After(r: Root, c: L.Config, run: seq<Timed>): Root {
    if run == [] then r else Step(After(r, c, run[..|run| - 1]), c, run[|run| - 1])
  }

  // ---- the gate ---------------------------------------------------------------------

  datatype Denial = ModeSafeDisabled | EpochMismatch | RequiresConfirmation | Ledger(block: L.Block)
                  | RiskNotEligible | OpNotAllowlisted | ModeNotNormal | StageNotAssist | StageNotAuto

  function LedgerDenials(blocks: seq<L.Block>): seq<Denial> {
    seq(|blocks|, i requires 0 <= i < |blocks| => Ledger(blocks[i]))
  }

  function DocumentDenials(d: Document, epoch: int): seq<Denial> {
    (if d.mode == SafeDisabled then [ModeSafeDisabled] else [])
    + (if epoch != d.epoch then [EpochMismatch] else [])
    + (if !d.confirmed then [RequiresConfirmation] else [])
  }

  function RiskDenials(lowRisk: bool, allowlisted: bool): seq<Denial> {
    (if !lowRisk then [RiskNotEligible] else []) + (if !allowlisted then [OpNotAllowlisted] else [])
  }

  // evaluate: risk and allowlist are computed by the caller from the live rules.
  function Evaluation(r: Root, c: L.Config, rid: string, epoch: int, lowRisk: bool, allowlisted: bool, now: int): seq<Denial> {
    DocumentDenials(r.doc, epoch) + LedgerDenials(L.Blocks(r.ledger, c, rid, now)) + RiskDenials(lowRisk, allowlisted)
  }

  datatype Request = Request(auto: bool, rid: string, epoch: int)

  // What the document alone says to a request.
  function Standing(d: Document, q: Request): seq<Denial> {
    (if d.mode != Normal then [ModeNotNormal] else [])
    + (if q.epoch != d.epoch then [EpochMismatch] else [])
    + (if q.auto && d.stage != Auto then [StageNotAuto] else [])
    + (if !q.auto && d.stage != Assist && d.stage != Auto then [StageNotAssist] else [])
  }

  // _root_gate
  function Gate(r: Root, c: L.Config, q: Request, lowRisk: bool, allowlisted: bool, now: int): seq<Denial> {
    Standing(r.doc, q) + (if q.auto then Evaluation(r, c, q.rid, q.epoch, lowRisk, allowlisted, now) else [])
  }

  lemma EvaluationAllows(r: Root, c: L.Config, rid: string, epoch: int, lowRisk: bool, allowlisted: bool, now: int)
    requires Evaluation(r, c, rid, epoch, lowRisk, allowlisted, now) == []
    ensures r.doc.mode != SafeDisabled && epoch == r.doc.epoch && r.doc.confirmed && lowRisk && allowlisted
    ensures L.Blocks(r.ledger, c, rid, now) == [] && !L.Tripped(r.ledger)
  {
    assert |LedgerDenials(L.Blocks(r.ledger, c, rid, now))| == |L.Blocks(r.ledger, c, rid, now)|;
  }

  // What passing the gate says about the policy at that moment.
  lemma GateAllows(r: Root, c: L.Config, q: Request, lowRisk: bool, allowlisted: bool, now: int)
    requires Gate(r, c, q, lowRisk, allowlisted, now) == []
    ensures r.doc.mode == Normal && q.epoch == r.doc.epoch
    ensures if q.auto then r.doc.stage == Auto && r.doc.confirmed && lowRisk && allowlisted && !L.Tripped(r.ledger)
            else r.doc.stage == Assist || r.doc.stage == Auto
  {
    if q.auto {
      EvaluationAllows(r, c, q.rid, q.epoch, lowRisk, allowlisted, now);
    }
  }

  // The reason that each denial stands for.
  predicate HasReason(d: Denial, r: Root, c: L.Config, q: Request, lowRisk: bool, allowlisted: bool, now: int) {
    match d
    case ModeNotNormal => r.doc.mode != Normal
    case EpochMismatch => q.epoch != r.doc.epoch
    case StageNotAuto => q.auto && r.doc.stage != Auto
    case StageNotAssist => !q.auto && r.doc.stage != Assist && r.doc.stage != Auto
    case ModeSafeDisabled => q.auto && r.doc.mode == SafeDisabled
    case RequiresConfirmation => q.auto && !r.doc.confirmed
    case RiskNotEligible => q.auto && !lowRisk
    case OpNotAllowlisted => q.auto && !allowlisted
    case Ledger(b) => q.auto && b in L.Blocks(r.ledger, c, q.rid, now)
  }

  // Each denial is there for its own reason, and whenever there is that reason.
  lemma DenialsAre(d: Denial, r: Root, c: L.Config, q: Request, lowRisk: bool, allowlisted: bool, now: int)
    ensures d in Gate(r, c, q, lowRisk, allowlisted, now) <==> HasReason(d, r, c, q, lowRisk, allowlisted, now)
  {
    var blocks := L.Blocks(r.ledger, c, q.rid, now);
    LedgerDenialsAre(d, blocks);
    var evaluation := DocumentDenials(r.doc, q.epoch) + LedgerDenials(blocks) + RiskDenials(lowRisk, allowlisted);
    assert d in evaluation <==>
      d in DocumentDenials(r.doc, q.epoch) || d in LedgerDenials(blocks) || d in RiskDenials(lowRisk, allowlisted);
    assert d in Gate(r, c, q, lowRisk, allowlisted, now) <==> d in Standing(r.doc, q) || (q.auto && d in evaluation);
  }

  lemma LedgerDenialsAre(d: Denial, blocks: seq<L.Block>)
    ensures d in LedgerDenials(blocks) <==> d.Ledger? && d.block in blocks
  {
    var ledger := LedgerDenials(blocks);
    if d.Ledger? && d.block in blocks {
      var i :| 0 <= i < |blocks| && blocks[i] == d.block;
      assert ledger[i] == d;
    }
  }

  // Exactly what it takes to pass.
  lemma GatePassesIff(r: Root, c: L.Config, q: Request, lowRisk: bool, allowlisted: bool, now: int)
    ensures Gate(r, c, q, lowRisk, allowlisted, now) == [] <==>
      && r.doc.mode == Normal && q.epoch == r.doc.epoch
      && if q.auto then r.doc.stage == Auto && r.doc.confirmed && lowRisk && allowlisted && L.Blocks(r.ledger, c, q.rid, now) == []
         else r.doc.stage == Assist || r.doc.stage == Auto
  {
    if Gate(r, c, q, lowRisk, allowlisted, now) == [] {
      GateAllows(r, c, q, lowRisk, allowlisted, now);
      if q.auto { EvaluationAllows(r, c, q.rid, q.epoch, lowRisk, allowlisted, now); }
    }
  }

  // ---- runs -------------------------------------------------------------------------

  // The authorization that a queued request was made under.
  datatype Authority = Authority(mode: Mode, stage: Stage, confirmed: bool, fuseOpen: bool, fuseAcknowledged: bool)

  function AuthorityOf(r: Root): Authority {
    Authority(r.doc.mode, r.doc.stage, r.doc.confirmed, r.ledger.fuseOpen, r.ledger.fuseAcknowledged)
  }

  // A rollback that closes an already acknowledged fuse again: the one change of
  // authority that leaves the epoch alone, because fuseOpen is never cleared.
  predicate Reopens(r: Root, c: L.Config, t: Timed) {
    && t.call.RecordRollback? && r.ledger.fuseOpen && r.ledger.fuseAcknowledged
    && !L.Seen(r.ledger.rolledBack, t.call.id) && r.ledger.consecutiveRollbacks + 1 >= c.fuseLimit
  }

  predicate AlwaysBumps(call: Call) {
    call.SafeDisable? || call.ResetPolicy? || call.BumpEpoch?
  }

  // What each call sets, and that it leaves the rest alone.
  lemma CallsTakeEffect(r: Root, c: L.Config, t: Timed)
    ensures var r' := Step(r, c, t);
      && (t.call.RecordApply? || t.call.RecordRollback? || t.call.AcknowledgeFuse? || t.call.Pruned? || r'.ledger == r.ledger)
      && r'.doc.mode == (match t.call case SetMode(mode) => mode case SafeDisable => SafeDisabled case _ => r.doc.mode)
      && r'.doc.stage == (match t.call case SetRouteStage(stage) => stage case _ => r.doc.stage)
      && r'.doc.confirmed == (match t.call
                              case SetAutoConfirmed(confirmed) => confirmed
                              case SafeDisable => false
                              case ResetPolicy => false
                              case _ => r.doc.confirmed)
      && (r'.doc.confirmed && !r.doc.confirmed ==> r'.doc.confirmedAt == Some(t.now))
      && (r.doc.confirmed && !r'.doc.confirmed ==> r'.doc.confirmedAt == None)
      && (t.call.AcknowledgeFuse? ==> r'.ledger.fuseOpen == r.ledger.fuseOpen
                                      && (!t.call.acknowledged ==> !r'.ledger.fuseAcknowledged)
                                      && (t.call.acknowledged && r.ledger.fuseOpen ==> r'.ledger.fuseAcknowledged && r'.ledger.consecutiveRollbacks == 0))
  {
  }

  // Exactly when a call raises the epoch.
  lemma EpochRisesIff(r: Root, c: L.Config, t: Timed)
    ensures var r' := Step(r, c, t);
      r'.doc.epoch == r.doc.epoch +
        if AlwaysBumps(t.call) || (AuthorityOf(r') != AuthorityOf(r) && !Reopens(r, c, t)) then 1 else 0
  {
  }

  lemma SecondTripKeepsTheEpoch(r: Root, c: L.Config, t: Timed)
    requires Reopens(r, c, t)
    ensures AuthorityOf(Step(r, c, t)) != AuthorityOf(r) && Step(r, c, t).doc.epoch == r.doc.epoch
    ensures L.Tripped(Step(r, c, t).ledger) && !L.Tripped(r.ledger)
  {
  }

  // n rollbacks that nobody acknowledges.
  function Failures(n: nat): seq<Timed> {
    seq(n, _ => Timed(RecordRollback(None), 1))
  }

  lemma {:induction false} FailuresCount(r: Root, c: L.Config, n: nat)
    requires 0 <= r.ledger.consecutiveRollbacks < c.fuseLimit
    ensures var l := After(r, c, Failures(n)).ledger;
      && l.consecutiveRollbacks == r.ledger.consecutiveRollbacks + n
      && (l.consecutiveRollbacks < c.fuseLimit ==> l.fuseOpen == r.ledger.fuseOpen && l.fuseAcknowledged == r.ledger.fuseAcknowledged)
      && (l.consecutiveRollbacks >= c.fuseLimit ==> L.Tripped(l))
    decreases n
  {
    if n > 0 {
      assert Failures(n)[..n - 1] == Failures(n - 1);
      FailuresCount(r, c, n - 1);
    }
  }

  lemma {:induction false} AfterSplits(r: Root, c: L.Config, first: seq<Timed>, more: seq<Timed>)
    ensures After(r, c, first + more) == After(After(r, c, first), c, more)
    decreases |more|
  {
    if more == [] {
      assert first + more == first;
    } else {
      AfterSplits(r, c, first, more[..|more| - 1]);
      assert (first + more)[..|first + more| - 1] == first + more[..|more| - 1];
    }
  }

  // It happens, from a fresh install, for every limit of the fuse: rollbacks up to the
  // limit, an acknowledgment, and rollbacks up to the limit again.
  lemma SecondTripHappens(doc: Document, c: L.Config)
    requires c.fuseLimit > 0
    ensures var run := Failures(c.fuseLimit) + [Timed(AcknowledgeFuse(true), 1)] + Failures(c.fuseLimit - 1);
      Reopens(After(Root(doc, L.Fresh()), c, run), c, Timed(RecordRollback(None), 1))
  {
    var start, tripping, acknowledging := Root(doc, L.Fresh()), Failures(c.fuseLimit), [Timed(AcknowledgeFuse(true), 1)];
    FailuresCount(start, c, c.fuseLimit);
    var acknowledged := Step(After(start, c, tripping), c, acknowledging[0]);
    AfterSplits(start, c, tripping, acknowledging);
    assert acknowledging[..0] == [];
    assert After(start, c, tripping + acknowledging) == acknowledged;
    FailuresCount(acknowledged, c, c.fuseLimit - 1);
    AfterSplits(start, c, tripping + acknowledging, Failures(c.fuseLimit - 1));
  }

  lemma {:induction false} EpochNeverDecreases(r: Root, c: L.Config, run: seq<Timed>)
    ensures After(r, c, run).doc.epoch >= r.doc.epoch
    decreases |run|
  {
    if run != [] {
      EpochNeverDecreases(r, c, run[..|run| - 1]);
      EpochRisesIff(After(r, c, run[..|run| - 1]), c, run[|run| - 1]);
    }
  }

  // A request bound to an older epoch never passes the gate again.
  lemma StaleRequestNeverPasses(r: Root, c: L.Config, run: seq<Timed>, q: Request, lowRisk: bool, allowlisted: bool, now: int)
    requires q.epoch < r.doc.epoch
    ensures Gate(After(r, c, run), c, q, lowRisk, allowlisted, now) != []
  {
    EpochNeverDecreases(r, c, run);
    if Gate(After(r, c, run), c, q, lowRisk, allowlisted, now) == [] {
      GateAllows(After(r, c, run), c, q, lowRisk, allowlisted, now);
    }
  }

  // A change of authority, other than a second trip, invalidates every request made before.
  lemma ChangeInvalidatesRequests(r: Root, c: L.Config, t: Timed, run: seq<Timed>, q: Request,
                                  lowRisk: bool, allowlisted: bool, now: int)
    requires AlwaysBumps(t.call) || (AuthorityOf(Step(r, c, t)) != AuthorityOf(r) && !Reopens(r, c, t))
    requires q.epoch <= r.doc.epoch
    ensures Gate(After(Step(r, c, t), c, run), c, q, lowRisk, allowlisted, now) != []
  {
    EpochRisesIff(r, c, t);
    StaleRequestNeverPasses(Step(r, c, t), c, run, q, lowRisk, allowlisted, now);
  }

  // Safe-disabled, nothing passes until the mode is set again, whatever else is called.
  lemma {:induction false} SafeDisableHolds(r: Root, c: L.Config, at: int, run: seq<Timed>, q: Request,
                                            lowRisk: bool, allowlisted: bool, now: int)
    requires forall t :: t in run ==> !t.call.SetMode?
    ensures After(Step(r, c, Timed(SafeDisable, at)), c, run).doc.mode == SafeDisabled
    ensures Gate(After(Step(r, c, Timed(SafeDisable, at)), c, run), c, q, lowRisk, allowlisted, now) != []
    decreases |run|
  {
    var disabled := Step(r, c, Timed(SafeDisable, at));
    if run == [] {
      CallsTakeEffect(r, c, Timed(SafeDisable, at));
    } else {
      var n := |run| - 1;
      assert forall t :: t in run[..n] ==> t in run;
      SafeDisableHolds(r, c, at, run[..n], q, lowRisk, allowlisted, now);
      assert run[n] in run;
      CallsTakeEffect(After(disabled, c, run[..n]), c, run[n]);
    }
    GatePassesIff(After(disabled, c, run), c, q, lowRisk, allowlisted, now);
  }

  predicate Acknowledges(t: Timed) {
    t.call == AcknowledgeFuse(true)
  }

  // A tripped fuse denies automatic applies until it is acknowledged.
  lemma {:induction false} FuseDeniesUntilAcknowledged(r: Root, c: L.Config, run: seq<Timed>, rid: string, epoch: int,
                                                       lowRisk: bool, allowlisted: bool, now: int)
    requires L.Tripped(r.ledger) && forall t :: t in run ==> !Acknowledges(t)
    ensures L.Tripped(After(r, c, run).ledger)
    ensures Evaluation(After(r, c, run), c, rid, epoch, lowRisk, allowlisted, now) != []
    decreases |run|
  {
    if run != [] {
      var n := |run| - 1;
      assert forall t :: t in run[..n] ==> t in run;
      FuseDeniesUntilAcknowledged(r, c, run[..n], rid, epoch, lowRisk, allowlisted, now);
      assert run[n] in run;
    }
    if Evaluation(After(r, c, run), c, rid, epoch, lowRisk, allowlisted, now) == [] {
      EvaluationAllows(After(r, c, run), c, rid, epoch, lowRisk, allowlisted, now);
    }
  }

  // Whatever tripped the fuse, the first time or again: an automatic request from
  // before never passes, not even after the acknowledgment.
  lemma {:induction false} TripInvalidatesRequests(r: Root, c: L.Config, run: seq<Timed>)
    requires L.Tripped(r.ledger)
    ensures L.Tripped(After(r, c, run).ledger) || After(r, c, run).doc.epoch > r.doc.epoch
    decreases |run|
  {
    if run != [] {
      var n := |run| - 1;
      TripInvalidatesRequests(r, c, run[..n]);
      EpochNeverDecreases(r, c, run[..n]);
      var before, after := After(r, c, run[..n]), After(r, c, run);
      EpochRisesIff(before, c, run[n]);
      assert after == Step(before, c, run[n]);
      assert L.Tripped(before.ledger) && !L.Tripped(after.ledger) ==> AuthorityOf(before) != AuthorityOf(after);
    }
  }

  lemma NoAutomaticApplyAcrossATrip(r: Root, c: L.Config, run: seq<Timed>, q: Request, lowRisk: bool, allowlisted: bool, now: int)
    requires L.Tripped(r.ledger) && q.auto && q.epoch <= r.doc.epoch
    ensures Gate(After(r, c, run), c, q, lowRisk, allowlisted, now) != []
  {
    TripInvalidatesRequests(r, c, run);
    if Gate(After(r, c, run), c, q, lowRisk, allowlisted, now) == [] {
      GateAllows(After(r, c, run), c, q, lowRisk, allowlisted, now);
    }
  }

  // ---- a gate that was passed before a rollback was recorded -----------------------------

  lemma GateAfterRollback(r: Root, c: L.Config, q: Request, lowRisk: bool, allowlisted: bool, now: int, id: Option<string>)
    requires Gate(r, c, q, lowRisk, allowlisted, now) == []
    ensures var r' := Step(r, c, Timed(RecordRollback(id), now));
      Gate(r', c, q, lowRisk, allowlisted, now) == [] <==>
        || L.Seen(r.ledger.rolledBack, id) || r.ledger.consecutiveRollbacks + 1 < c.fuseLimit
        || (!q.auto && r.ledger.fuseOpen)
  {
    var r' := Step(r, c, Timed(RecordRollback(id), now));
    GateAllows(r, c, q, lowRisk, allowlisted, now);
    if q.auto {
      EvaluationAllows(r, c, q.rid, q.epoch, lowRisk, allowlisted, now);
      if L.Seen(r.ledger.rolledBack, id) || r.ledger.consecutiveRollbacks + 1 < c.fuseLimit {
        assert L.Blocks(r'.ledger, c, q.rid, now) == [];
      } else if Gate(r', c, q, lowRisk, allowlisted, now) == [] {
        EvaluationAllows(r', c, q.rid, q.epoch, lowRisk, allowlisted, now);
      }
    }
  }

  // ---- the policy object -----------------------------------------------------------

  class Policy {
    const auto: L.Policy
    var doc: Document

    constructor (auto: L.Policy)
      requires auto.Valid()
      ensures this.auto == auto && Valid() && doc == Document(0, false, None, ObserveOnly, Observe)
    {
      this.auto, doc := auto, Document(0, false, None, ObserveOnly, Observe);
    }

    ghost predicate Valid()
      reads this, auto
    {
      auto.Valid()
    }

    function Current(): Root
      reads this, auto
    {
      Root(doc, auto.state)
    }

    method BumpExecutionEpoch()
      modifies this
      ensures Current() == Step(old(Current()), auto.config, Timed(BumpEpoch, 0))
    {
      doc := doc.(epoch := doc.epoch + 1);
    }

    method SetModeTo(mode: Mode) returns (changed: bool)
      modifies this
      ensures Current() == Step(old(Current()), auto.config, Timed(SetMode(mode), 0))
      ensures changed <==> doc.mode != old(doc.mode)
    {
      if doc.mode == mode { return false; }
      doc := doc.(mode := mode);
      doc := doc.(epoch := doc.epoch + 1);
      return true;
    }

    method SetStageTo(stage: Stage) returns (changed: bool)
      modifies this
      ensures Current() == Step(old(Current()), auto.config, Timed(SetRouteStage(stage), 0))
      ensures changed <==> doc.stage != old(doc.stage)
    {
      if doc.stage == stage { return false; }
      doc := doc.(stage := stage);
      doc := doc.(epoch := doc.epoch + 1);
      return true;
    }

    method Disable() returns (changed: bool)
      modifies this
      ensures Current() == Step(old(Current()), auto.config, Timed(SafeDisable, 0))
      ensures changed <==> doc.mode != old(doc.mode)
    {
      changed := false;
      if doc.mode != SafeDisabled {
        doc := doc.(mode := SafeDisabled);
        changed := true;
      }
      doc := doc.(confirmed := false);
      doc := doc.(confirmedAt := None);
      doc := doc.(epoch := doc.epoch + 1);
    }

    method Confirm(confirmed: bool, now: int) returns (changed: bool)
      modifies this
      ensures Current() == Step(old(Current()), auto.config, Timed(SetAutoConfirmed(confirmed), now))
      ensures changed <==> doc.confirmed != old(doc.confirmed)
    {
      if doc.confirmed == confirmed { return false; }
      doc := doc.(confirmed := confirmed);
      doc := doc.(confirmedAt := if confirmed then Some(now) else None);
      doc := doc.(epoch := doc.epoch + 1);
      return true;
    }

    method Reset()
      modifies this
      ensures Current() == Step(old(Current()), auto.config, Timed(ResetPolicy, 0))
    {
      doc := doc.(epoch := doc.epoch + 1);
      doc := doc.(confirmed := false);
      doc := doc.(confirmedAt := None);
    }

    method RecordApplyOf(rid: string, id: Option<string>, now: int)
      requires Valid() && auto.clock <= now && 0 < now
      modifies auto
      ensures Valid() && Current() == Step(old(Current()), auto.config, Timed(RecordApply(rid, id), now))
      ensures auto.rollbacks == old(auto.rollbacks) && auto.clock == now
      ensures auto.unpaced == old(auto.unpaced) + if old(L.Seen(auto.state.applied, id) || L.Allowed(auto.cleared, rid)) then 0 else 1
      ensures old(L.Seen(auto.state.applied, id)) ==> auto.cleared == old(auto.cleared)
      ensures if old(L.Seen(auto.state.applied, id)) then auto.history == old(auto.history) && auto.applies == old(auto.applies)
              else auto.history == old(auto.history) + [L.Apply(rid, now)] && auto.applies == old(auto.applies) + [id]
    {
      auto.RecordApply(rid, id, now);
    }

    method RecordRollbackOf(id: Option<string>, now: int)
      requires Valid() && auto.clock <= now
      modifies this, auto
      ensures Valid() && Current() == Step(old(Current()), auto.config, Timed(RecordRollback(id), now))
      ensures auto.history == old(auto.history) && auto.applies == old(auto.applies)
      ensures auto.rollbacks == if old(L.Seen(auto.state.rolledBack, id)) then old(auto.rollbacks) else old(auto.rollbacks) + [id]
      ensures auto.clock == now && auto.cleared == old(auto.cleared) && auto.unpaced == old(auto.unpaced)
    {
      var before := auto.state.fuseOpen;
      auto.RecordRollback(id, now);
      if auto.state.fuseOpen && !before {
        BumpExecutionEpoch();
      }
    }

    method Acknowledge(acknowledged: bool)
      requires Valid()
      modifies this, auto
      ensures Valid() && Current() == Step(old(Current()), auto.config, Timed(AcknowledgeFuse(acknowledged), 0))
    {
      var before := auto.state.fuseAcknowledged;
      auto.AcknowledgeFuse(acknowledged);
      if before != auto.state.fuseAcknowledged {
        BumpExecutionEpoch();
      }
    }

    // evaluate: no reason to deny is skipped, and nothing but the in-memory window moves.
    method Evaluate(rid: string, epoch: int, lowRisk: bool, allowlisted: bool, now: int) returns (denied: seq<Denial>)
      requires Valid() && auto.clock <= now
      modifies auto
      ensures Valid() && doc == old(doc) && auto.history == old(auto.history) && auto.clock == now && auto.unpaced == old(auto.unpaced)
      ensures denied == Evaluation(old(Current()), auto.config, rid, epoch, lowRisk, allowlisted, now)
      ensures denied == Evaluation(Current(), auto.config, rid, epoch, lowRisk, allowlisted, now)
      ensures denied == [] ==> auto.cleared == Some(L.Apply(rid, now))
      ensures Current() == Step(old(Current()), auto.config, Timed(Pruned(auto.state.mutationTimes), now))
    {
      var document := CheckDocument(epoch);
      var blocks := auto.Evaluate(rid, now);
      var risks := if !lowRisk then [RiskNotEligible] else [];
      risks := risks + if !allowlisted then [OpNotAllowlisted] else [];
      denied := document + LedgerDenials(blocks) + risks;
      assert denied == [] ==> |LedgerDenials(blocks)| == 0;
    }

    method CheckDocument(epoch: int) returns (denied: seq<Denial>)
      ensures denied == DocumentDenials(doc, epoch)
    {
      denied := if doc.mode == SafeDisabled then [ModeSafeDisabled] else [];
      denied := denied + if epoch != doc.epoch then [EpochMismatch] else [];
      denied := denied + if !doc.confirmed then [RequiresConfirmation] else [];
    }
  }
}
