// python/rill_xray_agent/runtime_service.py: the life of a decision (register,
// root result, feedback) over a bounded map of completed decisions whose overflow
// is moved to the closed ledger.

module Decisions {
  import opened Collections
  import opened ClosedLedger
  import O = OperationLog
  import A = AuditLog

  // An allowlisted root result; an empty one counts as no result at all.
  type Projection = map<string, string>

  datatype Open = Open(identity: Identity, rootResult: Option<Projection>)
  datatype Answered = Answered(identity: Identity, payload: PayloadHash, acceptedAt: int)

  // The part of the runtime state that decisions live in.
  datatype State = State(pending: map<string, Open>, completed: map<string, Answered>)

  datatype Request = Request(decisionId: string, capability: Option<string>, modelGeneration: Option<int>, body: string)

  datatype Refusal = DifferentIdentity | UnknownPending | ConflictingResult | UnknownDecision
                   | ConflictingFeedback | NoRootResult | Prohibited | CorruptLedger
  datatype Reply = Registered | Committed | Accepted | Idempotent | Refused(why: Refusal)

  predicate Given(result: Option<Projection>) {
    result.Some? && result.value != map[]
  }

  // The feedback document whose digest is compared: the client's, with the
  // capability and generation that the decision was registered with.
  function Canonical(q: Request, capability: Option<string>, modelGeneration: int): Feedback {
    Feedback(q.decisionId, capability, modelGeneration, q.body)
  }

  function Payload(q: Request, identity: Identity): PayloadHash {
    OfFeedback(Canonical(q, Some(identity.capability), identity.modelGeneration))
  }

  // ---- the simple form: one unbounded map of decisions ---------------------------

  datatype Decision = Live(open: Open) | Settled(identity: Identity, payload: PayloadHash)
  type Book = map<string, Decision>

  datatype Call = Register(identity: Identity)
                | RootResult(decisionId: string, projection: Projection)
                | SubmitFeedback(request: Request)

  function IdentityOf(d: Decision): Identity {
    if d.Live? then d.open.identity else d.identity
  }

  // `allowed` is the payload policy, by capability.
  function Answer(book: Book, call: Call, allowed: Feedback -> bool): Reply {
    match call
    case Register(identity) =>
      if identity.decisionId !in book then Registered
      else if IdentityOf(book[identity.decisionId]) == identity then Idempotent
      else Refused(DifferentIdentity)
    case RootResult(id, projection) =>
      if id !in book || book[id].Settled? then Refused(UnknownPending)
      else if !Given(book[id].open.rootResult) then Committed
      else if book[id].open.rootResult == Some(projection) then Idempotent
      else Refused(ConflictingResult)
    case SubmitFeedback(q) =>
      if q.decisionId !in book then Refused(UnknownDecision)
      else match book[q.decisionId]
        case Settled(identity, payload) =>
          if payload == Payload(q, identity) then Idempotent else Refused(ConflictingFeedback)
        case Live(open) =>
          if open.identity.capability == "route" && !Given(open.rootResult) then Refused(NoRootResult)
          else if !allowed(Payload(q, open.identity).feedback) then Refused(Prohibited)
          else Accepted
  }

  function Next(book: Book, call: Call, allowed: Feedback -> bool): Book {
    match Answer(book, call, allowed)
    case Registered => if call.Register? then book[call.identity.decisionId := Live(Open(call.identity, None))] else book
    case Committed =>
      if call.RootResult? && call.decisionId in book && book[call.decisionId].Live? then
        book[call.decisionId := Live(Open(book[call.decisionId].open.identity, Some(call.projection)))]
      else book
    case Accepted =>
      if call.SubmitFeedback? && call.request.decisionId in book then
        var identity := IdentityOf(book[call.request.decisionId]);
        book[call.request.decisionId := Settled(identity, Payload(call.request, identity))]
      else book
    case _ => book
  }

  function After(book: Book, calls: seq<Call>, allowed: Feedback -> bool): Book {
    if calls == [] then book else Next(After(book, calls[..|calls| - 1], allowed), calls[|calls| - 1], allowed)
  }

  lemma AfterOneMore(calls: seq<Call>, call: Call, allowed: Feedback -> bool)
    ensures After(map[], calls + [call], allowed) == Next(After(map[], calls, allowed), call, allowed)
  {
    assert (calls + [call])[..|calls|] == calls;
  }

  lemma {:induction false} AfterSplits(book: Book, first: seq<Call>, more: seq<Call>, allowed: Feedback -> bool)
    ensures After(book, first + more, allowed) == After(After(book, first, allowed), more, allowed)
    decreases |more|
  {
    if more == [] {
      assert first + more == first;
    } else {
      AfterSplits(book, first, more[..|more| - 1], allowed);
      assert (first + more)[..|first + more| - 1] == first + more[..|more| - 1];
    }
  }

  // A settled decision never changes, and no decision is ever forgotten or renamed.
  lemma {:induction false} DecisionsPersist(book: Book, calls: seq<Call>, allowed: Feedback -> bool, id: string)
    requires id in book
    ensures id in After(book, calls, allowed)
    ensures IdentityOf(After(book, calls, allowed)[id]) == IdentityOf(book[id])
    ensures book[id].Settled? ==> After(book, calls, allowed)[id] == book[id]
    decreases |calls|
  {
    if calls != [] {
      DecisionsPersist(book, calls[..|calls| - 1], allowed, id);
    }
  }

  // Once feedback is accepted, then after any further calls the same feedback is
  // idempotent and any other feedback for the decision conflicts.
  lemma AcceptedFeedbackIsFinal(book: Book, q: Request, calls: seq<Call>, q': Request, allowed: Feedback -> bool)
    requires Answer(book, SubmitFeedback(q), allowed) == Accepted
    requires q'.decisionId == q.decisionId
    ensures var later := After(Next(book, SubmitFeedback(q), allowed), calls, allowed);
      Answer(later, SubmitFeedback(q'), allowed) == if q'.body == q.body then Idempotent else Refused(ConflictingFeedback)
  {
    DecisionsPersist(Next(book, SubmitFeedback(q), allowed), calls, allowed, q.decisionId);
  }

  // Where a decision comes from, in any run: the call that registered it, the one that
  // committed its root result, and the one whose feedback settled it. No feedback is
  // accepted against the payload policy, or for a route without a result.
  lemma {:induction false} Provenance(calls: seq<Call>, allowed: Feedback -> bool, id: string) returns (a: nat, b: nat, c: nat)
    requires id in After(map[], calls, allowed)
    ensures var d := After(map[], calls, allowed)[id];
      && a < |calls| && calls[a] == Register(IdentityOf(d)) && IdentityOf(d).decisionId == id
      && match d
         case Live(open) =>
           open.rootResult.Some? && open.rootResult.value != map[] ==>
             Between(calls, a, b, |calls|, RootResult(id, open.rootResult.value))
         case Settled(identity, payload) =>
           && a < c < |calls| && calls[c].SubmitFeedback? && calls[c].request.decisionId == id
           && payload == OfFeedback(Feedback(id, Some(identity.capability), identity.modelGeneration, calls[c].request.body))
           && allowed(payload.feedback)
           && (identity.capability == "route" ==>
                 b < c && calls[b].RootResult? && calls[b].projection != map[] && Between(calls, a, b, c, RootResult(id, calls[b].projection)))
    decreases |calls|
  {
    var n := |calls| - 1;
    var init := calls[..n];
    var before, after := After(map[], init, allowed), After(map[], calls, allowed);
    if id !in before {
      a, b, c := n, n, n;
    } else {
      a, b, c := Provenance(init, allowed, id);
      if before[id] != after[id] {
        if after[id].Live? { b := n; } else { c := n; }
      }
    }
  }

  predicate Between(calls: seq<Call>, a: nat, b: nat, c: nat, call: Call) {
    a < b < c <= |calls| && calls[b] == call
  }

  // Nobody can report on a decision that was never registered.
  lemma UnregisteredIsUnknown(calls: seq<Call>, allowed: Feedback -> bool, q: Request, projection: Projection)
    requires forall i :: 0 <= i < |calls| && calls[i].Register? ==> calls[i].identity.decisionId != q.decisionId
    ensures Answer(After(map[], calls, allowed), SubmitFeedback(q), allowed) == Refused(UnknownDecision)
    ensures Answer(After(map[], calls, allowed), RootResult(q.decisionId, projection), allowed) == Refused(UnknownPending)
  {
    if q.decisionId in After(map[], calls, allowed) {
      var a, b, c := Provenance(calls, allowed, q.decisionId);
    }
  }

  // A registration stands: the same identity is idempotent, any other is refused.
  lemma RegistrationIsFinal(book: Book, identity: Identity, calls: seq<Call>, identity': Identity, allowed: Feedback -> bool)
    requires Answer(book, Register(identity), allowed) == Registered && identity'.decisionId == identity.decisionId
    ensures var later := After(Next(book, Register(identity), allowed), calls, allowed);
      Answer(later, Register(identity'), allowed) == if identity' == identity then Idempotent else Refused(DifferentIdentity)
  {
    DecisionsPersist(Next(book, Register(identity), allowed), calls, allowed, identity.decisionId);
  }

  // So does a root result, until the decision is settled.
  lemma {:induction false} ResultIsFinal(book: Book, id: string, calls: seq<Call>, projection: Projection, allowed: Feedback -> bool)
    requires id in book && book[id].Live? && book[id].open.rootResult.Some? && book[id].open.rootResult.value != map[]
    ensures var later := After(book, calls, allowed);
      && id in later && (later[id].Live? ==> later[id] == book[id])
      && Answer(later, RootResult(id, projection), allowed) ==
         if later[id].Settled? then Refused(UnknownPending)
         else if projection == book[id].open.rootResult.value then Idempotent else Refused(ConflictingResult)
    decreases |calls|
  {
    DecisionsPersist(book, calls, allowed, id);
    if calls != [] {
      ResultIsFinal(book, id, calls[..|calls| - 1], projection, allowed);
    }
  }

  // ---- the bounded form represents it ----------------------------------------------

  function TombstoneOf(identity: Identity, payload: PayloadHash, acceptedAt: int): Tombstone {
    Tombstone(OfIdentity(identity), payload, acceptedAt, Some(identity.capability), Some(identity.modelGeneration))
  }

  ghost predicate IsClosed(entries: Entries, id: string, identity: Identity, payload: PayloadHash) {
    && OfDecision(id) in entries && entries[OfDecision(id)].Stored?
    && entries[OfDecision(id)].tombstone == TombstoneOf(identity, payload, entries[OfDecision(id)].tombstone.closedAt)
  }

  ghost predicate Known(s: State, entries: Entries, id: string) {
    id in s.pending || id in s.completed || OfDecision(id) in entries
  }

  // Accepted payloads carry the identity of their decision, not the client's.
  predicate Bound(id: string, identity: Identity, payload: PayloadHash) {
    && payload.feedback.decisionId == id
    && payload.feedback.capability == Some(identity.capability)
    && payload.feedback.modelGeneration == identity.modelGeneration
  }

  // A decision is in exactly one of the three stores, with what the book says of it.
  ghost predicate Placed(s: State, entries: Entries, id: string, d: Decision) {
    && IdentityOf(d).decisionId == id
    && match d
       case Live(open) =>
         id in s.pending && s.pending[id] == open && id !in s.completed && OfDecision(id) !in entries
       case Settled(identity, payload) =>
         id !in s.pending && Bound(id, identity, payload)
         && if id in s.completed then
              s.completed[id] == Answered(identity, payload, s.completed[id].acceptedAt) && OfDecision(id) !in entries
            else IsClosed(entries, id, identity, payload)
  }

  ghost predicate Represents(s: State, entries: Entries, book: Book) {
    && (forall id :: id in book ==> Placed(s, entries, id, book[id]))
    && (forall id :: Known(s, entries, id) ==> id in book)
  }

  lemma ExactlyOneStore(s: State, entries: Entries, book: Book, id: string)
    requires Represents(s, entries, book)
    ensures id in book <==> Known(s, entries, id)
    ensures !(id in s.pending && id in s.completed)
    ensures !(id in s.pending && OfDecision(id) in entries)
    ensures !(id in s.completed && OfDecision(id) in entries)
  {
    if Known(s, entries, id) {
      assert Placed(s, entries, id, book[id]);
    }
  }

  // ---- eviction ------------------------------------------------------------------------

  // Strings in code-point order.
  predicate LexLeq(a: string, b: string) {
    a == [] || (b != [] && (a[0] < b[0] || (a[0] == b[0] && LexLeq(a[1..], b[1..]))))
  }

  lemma {:induction false} LexLeqIff(a: string, b: string)
    ensures LexLeq(a, b) <==> a <= b || exists k :: 0 <= k < |a| && k < |b| && a[..k] == b[..k] && a[k] < b[k]
  {
    if a != [] && b != [] && a[0] == b[0] {
      LexLeqIff(a[1..], b[1..]);
      if k :| 0 <= k < |a[1..]| && k < |b[1..]| && a[1..][..k] == b[1..][..k] && a[1..][k] < b[1..][k] {
        assert a[..k + 1] == [a[0]] + a[1..][..k] && b[..k + 1] == [b[0]] + b[1..][..k];
        assert a[k + 1] < b[k + 1];
      }
      if k :| 0 <= k < |a| && k < |b| && a[..k] == b[..k] && a[k] < b[k] {
        assert k > 0 && a[1..][..k - 1] == a[..k][1..] && b[1..][..k - 1] == b[..k][1..];
        assert a[1..][k - 1] < b[1..][k - 1];
      }
      if a <= b { assert a[1..] == b[1..][..|a| - 1]; }
      if a[1..] <= b[1..] { assert a == [a[0]] + a[1..] && b == [b[0]] + b[1..]; }
    } else if a != [] && b != [] {
      assert a[..0] == b[..0];
      assert forall k :: 0 < k <= |a| && k <= |b| ==> a[..k][0] == a[0] && b[..k][0] == b[0];
    }
  }

  lemma {:induction false} LexTotal(a: string, b: string)
    ensures LexLeq(a, b) || LexLeq(b, a)
  {
    if a != [] && b != [] && a[0] == b[0] { LexTotal(a[1..], b[1..]); }
  }

  lemma {:induction false} LexTransitive(a: string, b: string, c: string)
    requires LexLeq(a, b) && LexLeq(b, c)
    ensures LexLeq(a, c)
  {
    if a != [] && a[0] == b[0] && b[0] == c[0] { LexTransitive(a[1..], b[1..], c[1..]); }
  }

  predicate Least(keys: set<string>, id: string) {
    id in keys && forall k :: k in keys ==> LexLeq(id, k)
  }

  lemma {:induction false} LeastExists(keys: set<string>) returns (id: string)
    requires keys != {}
    ensures Least(keys, id)
  {
    var k :| k in keys;
    LexTotal(k, k);
    if keys == {k} {
      id := k;
    } else {
      var rest := keys - {k};
      assert keys == rest + {k};
      var least := LeastExists(rest);
      LexTotal(k, least);
      id := if LexLeq(k, least) then k else least;
      forall j | j in keys ensures LexLeq(id, j) {
        if j != k {
          assert LexLeq(least, j);
          LexTransitive(id, least, j);
        }
      }
    }
  }

  function Eviction(id: string, e: Answered): Mutation {
    PutClosedDecision(OfDecision(id), TombstoneOf(e.identity, e.payload, e.acceptedAt))
  }

  // Moving a completed decision to the ledger keeps what is represented.
  lemma EvictionRepresents(s: State, entries: Entries, maxEntries: nat, book: Book, id: string)
    requires Represents(s, entries, book) && id in s.completed
    requires maxEntries == 0 || |entries| < maxEntries
    ensures var m := Eviction(id, s.completed[id]);
      && Put(entries, maxEntries, m.decision, m.tombstone) == Ok(entries[m.decision := Stored(m.tombstone)])
      && Represents(s.(completed := s.completed - {id}), entries[m.decision := Stored(m.tombstone)], book)
      && |entries[m.decision := Stored(m.tombstone)]| == |entries| + 1 && m.decision !in entries
  {
    assert Known(s, entries, id);
    assert Placed(s, entries, id, book[id]);
    var m := Eviction(id, s.completed[id]);
    var after := s.(completed := s.completed - {id});
    var moved := entries[m.decision := Stored(m.tombstone)];
    assert moved.Keys == entries.Keys + {m.decision};
    forall k | k in book ensures Placed(after, moved, k, book[k]) {
      assert Placed(s, entries, k, book[k]);
    }
    forall k | Known(after, moved, k) ensures k in book {
      assert Known(s, entries, k);
    }
  }

  // Tombstones for decisions that are not in the ledger yet, one for each.
  ghost predicate NewTombstones(base: Entries, ms: seq<Mutation>) {
    && (forall m :: m in ms ==> m.PutClosedDecision? && m.decision !in base)
    && (forall i, j :: 0 <= i < j < |ms| ==> ms[i].decision != ms[j].decision)
  }

  predicate Fits(base: Entries, maxEntries: nat, added: nat) {
    maxEntries == 0 || added == 0 || |base| + added <= maxEntries
  }

  lemma NotPutYet(base: Entries, maxEntries: nat, ms: seq<Mutation>)
    requires NewTombstones(base, ms) && ms != []
    ensures ms[|ms| - 1].PutClosedDecision? && ms[|ms| - 1].decision !in PutAll(base, maxEntries, ms[..|ms| - 1]).0
  {
    var n := |ms| - 1;
    PutAllGrows(base, maxEntries, ms[..n]);
    assert ms[n] in ms;
  }

  lemma PutNew(entries: Entries, maxEntries: nat, m: Mutation)
    requires m.PutClosedDecision? && m.decision !in entries
    ensures var r := Put(entries, maxEntries, m.decision, m.tombstone);
      if maxEntries == 0 || |entries| < maxEntries then r.Ok? && |r.value| == |entries| + 1 else r == Err(LedgerFull)
  {
    assert entries[m.decision := Stored(m.tombstone)].Keys == entries.Keys + {m.decision};
    assert |entries.Keys| == |entries|;
    assert |entries[m.decision := Stored(m.tombstone)].Keys| == |entries[m.decision := Stored(m.tombstone)]|;
  }

  lemma FirstOnesNew(base: Entries, ms: seq<Mutation>, n: nat)
    requires NewTombstones(base, ms) && n <= |ms|
    ensures NewTombstones(base, ms[..n])
  {
  }

  // The ledger takes new tombstones exactly as long as there is room for them.
  lemma {:induction false} NewTombstonesFit(base: Entries, maxEntries: nat, ms: seq<Mutation>)
    requires NewTombstones(base, ms)
    ensures PutAll(base, maxEntries, ms).1 == if Fits(base, maxEntries, |ms|) then None else Some(LedgerFull)
    ensures Fits(base, maxEntries, |ms|) ==> |PutAll(base, maxEntries, ms).0| == |base| + |ms|
    decreases |ms|
  {
    if ms != [] {
      var n := |ms| - 1;
      FirstOnesNew(base, ms, n);
      NewTombstonesFit(base, maxEntries, ms[..n]);
      NotPutYet(base, maxEntries, ms);
      PutNew(PutAll(base, maxEntries, ms[..n]).0, maxEntries, ms[n]);
    }
  }

  // Only the smallest ids have left `was`.
  ghost predicate Trimmed(was: map<string, Answered>, now: map<string, Answered>) {
    && (forall id :: id in now ==> id in was && now[id] == was[id])
    && (forall e, k :: e in was && e !in now && k in now ==> LexLeq(e, k))
  }

  // In the middle of the eviction loop; `virtual` is the ledger once `ms` is put.
  ghost predicate Evicting(was: State, s: State, base: Entries, virtual: Entries, ms: seq<Mutation>, book: Book) {
    && PutAll(base, 0, ms) == (virtual, None)
    && Represents(s, virtual, book)
    && |s.completed| + |ms| == |was.completed|
    && NewTombstones(base, ms) && (forall m :: m in ms ==> m.decision in virtual)
    && (forall k :: k in base ==> k in virtual)
    && s.pending == was.pending && Trimmed(was.completed, s.completed)
  }

  lemma PutOneMore(base: Entries, ms: seq<Mutation>, virtual: Entries, m: Mutation)
    requires PutAll(base, 0, ms) == (virtual, None) && m.PutClosedDecision?
    requires Put(virtual, 0, m.decision, m.tombstone).Ok?
    ensures PutAll(base, 0, ms + [m]) == (Put(virtual, 0, m.decision, m.tombstone).value, None)
  {
    assert (ms + [m])[..|ms|] == ms;
  }

  lemma TrimOneMore(was: map<string, Answered>, now: map<string, Answered>, id: string)
    requires Trimmed(was, now) && id in now && Least(now.Keys, id)
    ensures Trimmed(was, now - {id})
    ensures |now - {id}| == |now| - 1
  {
    assert (now - {id}).Keys == now.Keys - {id};
    assert |now.Keys| == |now| && |(now - {id}).Keys| == |now - {id}|;
  }

  lemma TombstonesGrow(base: Entries, virtual: Entries, ms: seq<Mutation>, m: Mutation)
    requires NewTombstones(base, ms) && (forall n :: n in ms ==> n.decision in virtual) && (forall k :: k in base ==> k in virtual)
    requires m.PutClosedDecision? && m.decision !in virtual
    ensures NewTombstones(base, ms + [m])
  {
    forall i, j | 0 <= i < j < |ms + [m]| ensures (ms + [m])[i].decision != (ms + [m])[j].decision {
      assert ms[i] in ms;
    }
  }

  lemma EvictionStep(was: State, s: State, base: Entries, virtual: Entries, ms: seq<Mutation>, book: Book, id: string)
    requires Evicting(was, s, base, virtual, ms, book)
    requires id in s.completed && Least(s.completed.Keys, id)
    ensures var m := Eviction(id, s.completed[id]);
      Evicting(was, s.(completed := s.completed - {id}), base, virtual[m.decision := Stored(m.tombstone)], ms + [m], book)
  {
    var m := Eviction(id, s.completed[id]);
    EvictionRepresents(s, virtual, 0, book, id);
    PutOneMore(base, ms, virtual, m);
    TombstonesGrow(base, virtual, ms, m);
    TrimOneMore(was.completed, s.completed, id);
  }

  // The tombstone of a completed decision, with everything that it has to keep.
  ghost predicate BuriesOneOf(completed: map<string, Answered>, m: Mutation) {
    exists id :: id in completed && m == PutClosedDecision(OfDecision(id),
      Tombstone(OfIdentity(completed[id].identity), completed[id].payload, completed[id].acceptedAt,
                Some(completed[id].identity.capability), Some(completed[id].identity.modelGeneration)))
  }

  // The eviction loop: the smallest decision id goes first. It only declares what
  // the operation log will put in the ledger.
  method Evict(s: State, maxCompleted: nat, ghost base: Entries, ghost book: Book) returns (now: State, ms: seq<Mutation>)
    requires Represents(s, base, book)
    ensures |now.completed| <= maxCompleted
    ensures |now.completed| + |ms| == |s.completed| && (ms != [] ==> |now.completed| == maxCompleted)
    ensures now.pending == s.pending && Trimmed(s.completed, now.completed)
    ensures NewTombstones(base, ms) && Represents(now, PutAll(base, 0, ms).0, book)
    ensures forall m :: m in ms ==> BuriesOneOf(s.completed, m)
  {
    now, ms := s, [];
    ghost var virtual := base;
    while |now.completed| > maxCompleted
      invariant Evicting(s, now, base, virtual, ms, book)
      invariant ms != [] ==> |now.completed| >= maxCompleted
      invariant forall m :: m in ms ==> BuriesOneOf(s.completed, m)
      decreases |now.completed|
    {
      assert now.completed.Keys != {} by { assert |now.completed.Keys| == |now.completed|; }
      ghost var least := LeastExists(now.completed.Keys);
      var evicted :| evicted in now.completed && Least(now.completed.Keys, evicted);
      var m := Eviction(evicted, now.completed[evicted]);
      EvictionStep(s, now, base, virtual, ms, book, evicted);
      assert |now.completed - {evicted}| == |now.completed| - 1;
      ms := ms + [m];
      now := now.(completed := now.completed - {evicted});
      virtual := virtual[m.decision := Stored(m.tombstone)];
    }
  }

  // Accepting feedback, before any eviction.
  function WithAccepted(s: State, q: Request, acceptedAt: int): State
    requires q.decisionId in s.pending
  {
    var identity := s.pending[q.decisionId].identity;
    State(s.pending - {q.decisionId}, s.completed[q.decisionId := Answered(identity, Payload(q, identity), acceptedAt)])
  }

  lemma AcceptanceRepresents(s: State, entries: Entries, book: Book, q: Request, acceptedAt: int, allowed: Feedback -> bool)
    requires Represents(s, entries, book) && Answer(book, SubmitFeedback(q), allowed) == Accepted
    ensures q.decisionId in s.pending
    ensures Represents(WithAccepted(s, q, acceptedAt), entries, Next(book, SubmitFeedback(q), allowed))
  {
    var id := q.decisionId;
    assert Placed(s, entries, id, book[id]);
    var after := WithAccepted(s, q, acceptedAt);
    var next := Next(book, SubmitFeedback(q), allowed);
    forall k | k in next ensures Placed(after, entries, k, next[k]) {
      assert Placed(s, entries, k, book[k]);
    }
    forall k | Known(after, entries, k) ensures k in next {
      assert Known(s, entries, k);
    }
  }

  lemma AcceptanceAddsOne(s: State, entries: Entries, book: Book, q: Request, acceptedAt: int)
    requires Represents(s, entries, book) && q.decisionId in s.pending
    ensures |WithAccepted(s, q, acceptedAt).completed| == |s.completed| + 1
  {
    ExactlyOneStore(s, entries, book, q.decisionId);
    var completed := WithAccepted(s, q, acceptedAt).completed;
    assert completed.Keys == s.completed.Keys + {q.decisionId};
    assert |completed.Keys| == |completed| && |s.completed.Keys| == |s.completed|;
  }

  lemma PendingRepresents(s: State, entries: Entries, book: Book, id: string, open: Open)
    requires Represents(s, entries, book) && open.identity.decisionId == id
    requires id !in book || book[id].Live?
    ensures Represents(s.(pending := s.pending[id := open]), entries, book[id := Live(open)])
  {
    var after := s.(pending := s.pending[id := open]);
    var next := book[id := Live(open)];
    assert Known(s, entries, id) ==> Placed(s, entries, id, book[id]);
    forall k | k in next ensures Placed(after, entries, k, next[k]) {
      if k != id { assert Placed(s, entries, k, book[k]); }
    }
    forall k | Known(after, entries, k) ensures k in next {
      if k != id { assert Known(s, entries, k); }
    }
  }

  // What feedback for an evicted decision is compared with: the tombstone's
  // capability unless it is empty, else the client's.
  function ClosedPayload(q: Request, t: Tombstone): PayloadHash {
    var capability := if t.capability.Some? && t.capability.value != "" then t.capability else q.capability;
    var generation := if t.modelGeneration.Some? then t.modelGeneration.value
                      else if q.modelGeneration.Some? then q.modelGeneration.value else 0;
    OfFeedback(Canonical(q, capability, generation))
  }

  // Eviction changes no comparison, except for a decision with an empty capability
  // when the client does not repeat it: then feedback never matches.
  lemma EvictionIsInvisibleIff(q: Request, identity: Identity, payload: PayloadHash, acceptedAt: int)
    requires Bound(q.decisionId, identity, payload)
    ensures var closed := ClosedPayload(q, TombstoneOf(identity, payload, acceptedAt));
      if identity.capability != "" || q.capability == Some("") then closed == Payload(q, identity) else closed != payload
  {
  }

  ghost predicate EvictionShows(entries: Entries, book: Book, q: Request) {
    && q.decisionId in book && OfDecision(q.decisionId) in entries
    && IdentityOf(book[q.decisionId]).capability == "" && q.capability != Some("")
  }

  // ---- on the operation log ------------------------------------------------------------

  const EMPTY: State := State(map[], map[])

  // No state file yet stands for the empty state.
  function StateOf(s: Option<State>): State {
    if s.Some? then s.value else EMPTY
  }

  // What the service replies: the unbounded map's answer, unless an eviction shows.
  ghost function Reported(book: Book, entries: Entries, call: Call, allowed: Feedback -> bool): Reply {
    if call.SubmitFeedback? && EvictionShows(entries, book, call.request) then Refused(ConflictingFeedback)
    else Answer(book, call, allowed)
  }

  // It happens in a run that starts empty: register, feedback, and, as soon as the
  // decision has been evicted, the same feedback once more.
  lemma EvictedEmptyCapabilityConflicts(identity: Identity, q: Request, more: seq<Call>, s: State, entries: Entries,
                                        allowed: Feedback -> bool)
    requires identity.capability == "" && q.capability != Some("") && identity.decisionId == q.decisionId
    requires allowed(Payload(q, identity).feedback)
    ensures var book := After(map[], [Register(identity), SubmitFeedback(q)] + more, allowed);
      && Answer(book, SubmitFeedback(q), allowed) == Idempotent
      && (Represents(s, entries, book) && q.decisionId !in s.completed ==>
            Reported(book, entries, SubmitFeedback(q), allowed) == Refused(ConflictingFeedback))
  {
    var accepted := Next(Next(map[], Register(identity), allowed), SubmitFeedback(q), allowed);
    AfterOneMore([], Register(identity), allowed);
    AfterOneMore([Register(identity)], SubmitFeedback(q), allowed);
    assert [] + [Register(identity)] == [Register(identity)];
    assert [Register(identity)] + [SubmitFeedback(q)] == [Register(identity), SubmitFeedback(q)];
    AfterSplits(map[], [Register(identity), SubmitFeedback(q)], more, allowed);
    DecisionsPersist(accepted, more, allowed, q.decisionId);
    var book := After(accepted, more, allowed);
    if Represents(s, entries, book) && q.decisionId !in s.completed {
      assert Placed(s, entries, q.decisionId, book[q.decisionId]);
    }
  }

  // How many completed decisions have to go for one more.
  function Overflow(s: State, maxCompleted: nat): nat {
    if |s.completed| < maxCompleted then 0 else |s.completed| + 1 - maxCompleted
  }

  // Whether the ledger has room for what a call evicts; this can be seen before the call.
  predicate HasRoom(s: State, entries: Entries, maxEntries: nat, maxCompleted: nat, call: Call) {
    call.SubmitFeedback? ==> Fits(entries, maxEntries, Overflow(s, maxCompleted))
  }

  // The operation takes the decisions from one book to the next.
  ghost predicate Turns(pre: State, base: Entries, ms: seq<Mutation>, post: State, before: Book, next: Book) {
    && Represents(pre, base, before) && NewTombstones(base, ms)
    && Represents(post, PutAll(base, 0, ms).0, next)
  }

  // The stores represent the book, or an operation is under way to the next one.
  ghost predicate Holds(intents: seq<O.Intent<State>>, state: Option<State>, entries: Entries, base: Entries, book: Book, next: Book) {
    if intents == [] then Represents(StateOf(state), entries, book)
    else Turns(StateOf(intents[0].pre), base, intents[0].mutations, intents[0].post, book, next)
  }

  // Such a state, where no completed decision is kept: the two operations from the
  // empty store, the second of which evicts what it completes.
  lemma {:induction false} EvictionHappens(identity: Identity, q: Request, acceptedAt: int, allowed: Feedback -> bool)
    returns (entries: Entries)
    requires identity.capability == "" && q.capability != Some("") && identity.decisionId == q.decisionId
    requires allowed(Payload(q, identity).feedback)
    ensures var registered := EMPTY.(pending := map[q.decisionId := Open(identity, None)]);
      var first := Next(map[], Register(identity), allowed);
      var second := Next(first, SubmitFeedback(q), allowed);
      var evictions := [Eviction(q.decisionId, Answered(identity, Payload(q, identity), acceptedAt))];
      && Turns(EMPTY, map[], [], registered, map[], first)
      && Turns(registered, map[], evictions, EMPTY, first, second) && |evictions| == Overflow(registered, 0)
      && PutAll(map[], 0, evictions) == (entries, None) && Represents(EMPTY, entries, second)
      && Answer(second, SubmitFeedback(q), allowed) == Idempotent
      && Reported(second, entries, SubmitFeedback(q), allowed) == Refused(ConflictingFeedback)
  {
    var id := q.decisionId;
    var registered := EMPTY.(pending := map[id := Open(identity, None)]);
    var first := Next(map[], Register(identity), allowed);
    var second := Next(first, SubmitFeedback(q), allowed);
    PendingRepresents(EMPTY, map[], map[], id, Open(identity, None));
    assert EMPTY.pending[id := Open(identity, None)] == registered.pending && map[][id := Live(Open(identity, None))] == first;
    AcceptanceRepresents(registered, map[], first, q, acceptedAt, allowed);
    var accepted := WithAccepted(registered, q, acceptedAt);
    EvictionRepresents(accepted, map[], 0, second, id);
    assert accepted.(completed := accepted.completed - {id}) == EMPTY;
    var m := Eviction(id, accepted.completed[id]);
    assert [m][..0] == [];
    entries := map[m.decision := Stored(m.tombstone)];
    assert map[][m.decision := Stored(m.tombstone)] == entries;
    assert PutAll(map[], 0, [m]) == (entries, None);
    assert second[id] == Settled(identity, Payload(q, identity));
  }

  // What an operation log leaves of an operation on the decisions: the book before
  // it or the book after it, whatever happened to state and ledger in between.
  lemma AllOrNothing(d: O.Disk<State>, base: Entries, chain: seq<A.Event>, it: O.Intent<State>, before: Book, next: Book)
    requires Turns(StateOf(it.pre), base, it.mutations, it.post, before, next)
    ensures O.Happened(d, base, chain, it) ==> Represents(StateOf(d.state), d.ledger, next)
    ensures O.NeverHappened(d, base, chain, it) ==> Represents(StateOf(d.state), d.ledger, before)
  {
    if O.Happened(d, base, chain, it) {
      NewTombstonesFit(base, 0, it.mutations);
      GrowthDeterminesLedger(base, 0, it.mutations, d.ledger);
    }
  }

  // What a transaction callback computes for a call.
  ghost predicate Computed(s: State, entries: Entries, book: Book, call: Call, allowed: Feedback -> bool, maxCompleted: nat,
                           reply: Reply, change: O.Change<State>) {
    && reply == Reported(book, entries, call, allowed)
    && (change.Post? <==> reply in {Registered, Committed, Accepted})
    && (change.Post? ==> Turns(s, entries, change.mutations, change.state, book, Next(book, call, allowed)))
    && (change.Post? ==> |change.mutations| == if call.SubmitFeedback? then Overflow(s, maxCompleted) else 0)
    && (change.Post? && call.SubmitFeedback? ==> |change.state.completed| <= maxCompleted)
  }

  // _register_decision, the callback
  method TryRegister(s: State, entries: Entries, ghost book: Book, identity: Identity,
                     ghost maxCompleted: nat, ghost allowed: Feedback -> bool)
    returns (reply: Reply, change: O.Change<State>)
    requires Represents(s, entries, book)
    ensures Computed(s, entries, book, Register(identity), allowed, maxCompleted, reply, change)
  {
    var id := identity.decisionId;
    ExactlyOneStore(s, entries, book, id);
    assert id in book ==> Placed(s, entries, id, book[id]);
    if id in s.pending {
      return if s.pending[id].identity == identity then Idempotent else Refused(DifferentIdentity), O.Idempotent;
    }
    if id in s.completed {
      return if s.completed[id].identity == identity then Idempotent else Refused(DifferentIdentity), O.Idempotent;
    }
    if OfDecision(id) in entries {
      match entries[OfDecision(id)] {
        case Stored(t) =>
          return if t.identity == OfIdentity(identity) then Idempotent else Refused(DifferentIdentity), O.Idempotent;
      }
    }
    PendingRepresents(s, entries, book, id, Open(identity, None));
    return Registered, O.Post(s.(pending := s.pending[id := Open(identity, None)]), []);
  }

  // The rootResult callback.
  method TryRootResult(s: State, ghost entries: Entries, ghost book: Book, id: string, projection: Projection,
                       ghost maxCompleted: nat, ghost allowed: Feedback -> bool) returns (reply: Reply, change: O.Change<State>)
    requires Represents(s, entries, book)
    ensures Computed(s, entries, book, RootResult(id, projection), allowed, maxCompleted, reply, change)
  {
    ExactlyOneStore(s, entries, book, id);
    assert id in book ==> Placed(s, entries, id, book[id]);
    if id !in s.pending { return Refused(UnknownPending), O.Rejected; }
    var open := s.pending[id];
    if Given(open.rootResult) {
      return if open.rootResult == Some(projection) then Idempotent else Refused(ConflictingResult), O.Idempotent;
    }
    var updated := Open(open.identity, Some(projection));
    PendingRepresents(s, entries, book, id, updated);
    return Committed, O.Post(s.(pending := s.pending[id := updated]), []);
  }

  // The feedback callback.
  method TryFeedback(s: State, entries: Entries, ghost book: Book, q: Request, acceptedAt: int,
                     maxCompleted: nat, allowed: Feedback -> bool)
    returns (reply: Reply, change: O.Change<State>)
    requires Represents(s, entries, book)
    ensures Computed(s, entries, book, SubmitFeedback(q), allowed, maxCompleted, reply, change)
    ensures reply == Accepted ==> q.decisionId in s.pending
    ensures q.decisionId in s.pending ==>
      var open := s.pending[q.decisionId];
      reply == if open.identity.capability == "route" && (open.rootResult == None || open.rootResult == Some(map[])) then Refused(NoRootResult)
               else if !allowed(Feedback(q.decisionId, Some(open.identity.capability), open.identity.modelGeneration, q.body)) then Refused(Prohibited)
               else Accepted
  {
    var id := q.decisionId;
    ExactlyOneStore(s, entries, book, id);
    assert id in book ==> Placed(s, entries, id, book[id]);
    if id in s.completed {
      reply := if s.completed[id].payload == Payload(q, s.completed[id].identity) then Idempotent else Refused(ConflictingFeedback);
      return reply, O.Idempotent;
    }
    if OfDecision(id) in entries {
      match entries[OfDecision(id)] {
        case Stored(t) =>
          EvictionIsInvisibleIff(q, book[id].identity, book[id].payload, t.closedAt);
          reply := if t.payload == ClosedPayload(q, t) then Idempotent else Refused(ConflictingFeedback);
          return reply, O.Idempotent;
      }
    }
    if id !in s.pending { return Refused(UnknownDecision), O.Rejected; }
    var open := s.pending[id];
    if open.identity.capability == "route" && !Given(open.rootResult) { return Refused(NoRootResult), O.Rejected; }
    if !allowed(Payload(q, open.identity).feedback) { return Refused(Prohibited), O.Rejected; }
    change := Accept(s, entries, book, q, acceptedAt, maxCompleted, allowed);
    return Accepted, change;
  }

  // From pending to completed, and the oldest ids out of completed.
  method Accept(s: State, ghost entries: Entries, ghost book: Book, q: Request, acceptedAt: int,
                maxCompleted: nat, ghost allowed: Feedback -> bool)
    returns (change: O.Change<State>)
    requires Represents(s, entries, book) && Answer(book, SubmitFeedback(q), allowed) == Accepted && q.decisionId in s.pending
    ensures change.Post? && Turns(s, entries, change.mutations, change.state, book, Next(book, SubmitFeedback(q), allowed))
    ensures |change.mutations| == Overflow(s, maxCompleted) && |change.state.completed| <= maxCompleted
  {
    AcceptanceRepresents(s, entries, book, q, acceptedAt, allowed);
    AcceptanceAddsOne(s, entries, book, q, acceptedAt);
    var accepted := WithAccepted(s, q, acceptedAt);
    var now, ms := Evict(accepted, maxCompleted, entries, Next(book, SubmitFeedback(q), allowed));
    change := O.Post(now, ms);
  }

  // The callback of the call.
  method Try(s: State, entries: Entries, ghost book: Book, call: Call, acceptedAt: int,
             maxCompleted: nat, allowed: Feedback -> bool)
    returns (reply: Reply, change: O.Change<State>)
    requires Represents(s, entries, book)
    ensures Computed(s, entries, book, call, allowed, maxCompleted, reply, change)
  {
    match call {
      case Register(identity) => reply, change := TryRegister(s, entries, book, identity, maxCompleted, allowed);
      case RootResult(id, projection) => reply, change := TryRootResult(s, entries, book, id, projection, maxCompleted, allowed);
      case SubmitFeedback(q) => reply, change := TryFeedback(s, entries, book, q, acceptedAt, maxCompleted, allowed);
    }
  }

  // What the stores say to a call, before and after it.
  ghost predicate Granted(s: State, entries: Entries, s': State, entries': Entries, call: Call, reply: Reply, allowed: Feedback -> bool) {
    match call
    case Register(identity) =>
      var id := identity.decisionId;
      && (reply == Registered <==> id !in s.pending && id !in s.completed && OfDecision(id) !in entries)
      && (reply == Registered ==> id in s'.pending && s'.pending[id] == Open(identity, None))
      && (id in s.pending ==> reply == if s.pending[id].identity == identity then Idempotent else Refused(DifferentIdentity))
      && (id in s.completed ==> reply == if s.completed[id].identity == identity then Idempotent else Refused(DifferentIdentity))
      && (OfDecision(id) in entries && entries[OfDecision(id)].Stored? ==>
            reply == if entries[OfDecision(id)].tombstone.identity == OfIdentity(identity) then Idempotent else Refused(DifferentIdentity))
    case RootResult(id, projection) =>
      && (id !in s.pending ==> reply == Refused(UnknownPending))
      && (id in s.pending ==>
            var result := s.pending[id].rootResult;
            && (reply == Committed <==> result == None || result == Some(map[]))
            && (reply == Committed ==> id in s'.pending && s'.pending[id] == Open(s.pending[id].identity, Some(projection)))
            && (reply != Committed ==> reply == if result == Some(projection) then Idempotent else Refused(ConflictingResult)))
    case SubmitFeedback(q) =>
      var id := q.decisionId;
      && (id !in s.pending && id !in s.completed && OfDecision(id) !in entries ==> reply == Refused(UnknownDecision))
      && (id in s.pending ==> GrantedFeedback(s.pending[id], s', entries', q, reply, allowed))
      && (id in s.completed ==>
            var payload := OfFeedback(Feedback(id, Some(s.completed[id].identity.capability), s.completed[id].identity.modelGeneration, q.body));
            reply == if s.completed[id].payload == payload then Idempotent else Refused(ConflictingFeedback))
      && (OfDecision(id) in entries && entries[OfDecision(id)].Stored? ==> reply in {Idempotent, Refused(ConflictingFeedback)})
      && (reply == Accepted ==> id in s.pending)
  }

  // Feedback for a pending decision: a route needs its result first, and the payload
  // has to be allowed. Accepted, it is completed or closed with this payload.
  ghost predicate GrantedFeedback(open: Open, s': State, entries': Entries, q: Request, reply: Reply, allowed: Feedback -> bool) {
    var id := q.decisionId;
    var feedback := Feedback(id, Some(open.identity.capability), open.identity.modelGeneration, q.body);
    if open.identity.capability == "route" && (open.rootResult == None || open.rootResult == Some(map[])) then reply == Refused(NoRootResult)
    else if !allowed(feedback) then reply == Refused(Prohibited)
    else
      && reply == Accepted && id !in s'.pending
      && if id in s'.completed then s'.completed[id].identity == open.identity && s'.completed[id].payload == OfFeedback(feedback)
         else IsClosed(entries', id, open.identity, OfFeedback(feedback))
  }

  lemma RepliesAreGranted(s: State, entries: Entries, s': State, entries': Entries, book: Book, call: Call, reply: Reply, allowed: Feedback -> bool)
    requires Represents(s, entries, book) && Represents(s', entries', Next(book, call, allowed))
    requires reply == Reported(book, entries, call, allowed)
    ensures Granted(s, entries, s', entries', call, reply, allowed)
  {
    var id := match call case Register(identity) => identity.decisionId case RootResult(k, _) => k case SubmitFeedback(q) => q.decisionId;
    ExactlyOneStore(s, entries, book, id);
    var next := Next(book, call, allowed);
    assert id in book ==> Placed(s, entries, id, book[id]);
    assert id in next ==> Placed(s', entries', id, next[id]);
  }

  datatype Handled = Replied(reply: Reply) | RecoveryRequired | LedgerRefused(fault: Fault) | AuditRefused | Crashed

  class Store {
    const maxCompleted: nat
    const allowed: Feedback -> bool
    const ops: O.OperationLog<State>
    ghost var calls: seq<Call>   // those that took effect or were answered, in order
    ghost var pending: Call      // the one that an intent is pending for, if any is

    constructor (maxCompleted: nat, allowed: Feedback -> bool, ops: O.OperationLog<State>)
      requires ops.Valid() && ops.intents == [] && ops.state == None && ops.ledger.entries == map[]
      ensures this.maxCompleted == maxCompleted && this.allowed == allowed && this.ops == ops
      ensures Valid() && calls == []
    {
      this.maxCompleted, this.allowed, this.ops := maxCompleted, allowed, ops;
      calls, pending := [], RootResult("", map[]);
    }

    ghost function Book(): Book
      reads this`calls
    {
      After(map[], calls, allowed)
    }

    ghost predicate Valid()
      reads this, ops, ops.audit, ops.ledger
    {
      && ops.Valid()
      && Holds(ops.intents, ops.state, ops.ledger.entries, ops.base, Book(), Next(Book(), pending, allowed))
    }

    // Whether the ledger will take what the pending operation has to put in it.
    ghost predicate WillFit()
      reads this, ops, ops.ledger
      requires ops.intents != []
    {
      Fits(ops.base, ops.ledger.maxEntries, |ops.intents[0].mutations|)
    }

    predicate Room(call: Call)
      reads this, ops, ops.ledger
    {
      HasRoom(StateOf(ops.state), ops.ledger.entries, ops.ledger.maxEntries, maxCompleted, call)
    }

    // How a call ends. Every reply is the unbounded map's, save where an eviction
    // shows, and the call then is the next one in the history. Without room for what
    // it evicts it is not accepted, and may get stuck; with room it never does.
    twostate predicate Ended(call: Call, r: Handled)
      reads this, ops, ops.audit, ops.ledger
    {
      && Valid()
      && (r.RecoveryRequired? <==> old(ops.intents) != [])
      && (r.Replied? ==> ops.intents == [] && calls == old(calls) + [call]
                         && r.reply == old(Reported(Book(), ops.ledger.entries, call, allowed)))
      && (!r.Replied? ==> calls == old(calls))
      && (r.RecoveryRequired? || r.AuditRefused? || (r.Replied? && r.reply !in {Registered, Committed, Accepted}) ==> ops.Untouched())
      && (r.LedgerRefused? || r.Crashed? ==> ops.Untouched() || Started(call))
      && (r.LedgerRefused? ==> !old(Room(call)))
      && (r == Replied(Accepted) ==> old(Room(call)) && |StateOf(ops.state).completed| <= maxCompleted)
    }

    // A change comes with an audit event: one that finds no room changes nothing, and
    // nothing else is refused for it.
    twostate predicate Booked(payload: A.Payload, r: Handled)
      reads this, ops, ops.audit, ops.ledger
    {
      && (r.AuditRefused? ==> old(ops.NoRoom(payload)))
      && (old(ops.NoRoom(payload)) ==> !r.LedgerRefused? && ops.Untouched()
                                       && (r.Replied? ==> r.reply !in {Registered, Committed, Accepted}))
    }

    twostate predicate Started(call: Call)
      reads this, ops, ops.ledger
    {
      ops.intents != [] && pending == call && (old(Room(call)) ==> WillFit())
    }

    // Hand a change to the operation log; `it` is the operation it makes of it.
    method Attempt(change: O.Change<State>, opId: string, payload: A.Payload) returns (r: O.Executed, ghost it: O.Intent<State>)
      requires ops.Valid() && ops.intents == [] && opId !in ops.terminals
      modifies ops, ops.audit, ops.ledger
      ensures ops.Valid() && !r.Fenced?
      ensures r.NothingToDo? <==> !change.Post?
      ensures change.Post? ==> it.pre == old(ops.state) && it.post == change.state && it.mutations == change.mutations
      ensures r.Completed? ==> O.Happened(ops.Snapshot(), old(ops.ledger.entries), ops.chain, it)
      ensures !r.Completed? ==> ops.Untouched() || (ops.intents == [it] && ops.base == old(ops.ledger.entries))
      ensures r in {O.NothingToDo, O.AuditRefused, O.InvalidMutation} ==> ops.Untouched()
      ensures r.InvalidMutation? <==> O.HasMalformed(change)
      ensures r.AuditRefused? ==> old(ops.NoRoom(payload))
      ensures old(ops.NoRoom(payload)) ==> !r.Completed? && !r.LedgerRefused? && ops.Untouched()
      ensures r.Completed? ==> O.Verdict(change, old(ops.ledger.entries), ops.ledger.maxEntries) == None
      ensures r.LedgerRefused? ==> O.Verdict(change, old(ops.ledger.entries), ops.ledger.maxEntries) == Some(r.fault)
    {
      r := ops.Execute(opId, payload, (_: Option<State>) => change);
      it := if r.Completed? then ops.done[|ops.done| - 1]
            else if ops.intents != [] then ops.intents[0]
            else O.Intent(opId, ops.state, if change.Post? then change.state else EMPTY, if change.Post? then change.mutations else [],
                          A.Built(A.Head(0, A.Genesis), payload));
    }

    method Perform(call: Call, ghost reply: Reply, change: O.Change<State>, opId: string, payload: A.Payload) returns (r: O.Executed)
      requires Valid() && ops.intents == [] && opId !in ops.terminals && change.Post?
      requires Computed(StateOf(ops.state), ops.ledger.entries, Book(), call, allowed, maxCompleted, reply, change)
      modifies this`pending, ops, ops.audit, ops.ledger
      ensures ops.Valid() && !r.Fenced? && !r.NothingToDo? && pending == call
      ensures !r.Completed? ==> Holds(ops.intents, ops.state, ops.ledger.entries, ops.base, Book(), Next(Book(), call, allowed))
      ensures r.Completed? ==> Holds(ops.intents, ops.state, ops.ledger.entries, ops.base, Next(Book(), call, allowed), map[])
      ensures r.Completed? ==> ops.intents == [] && ops.state == Some(change.state) && old(Room(call))
      ensures r.AuditRefused? ==> old(ops.NoRoom(payload))
      ensures r.AuditRefused? || old(ops.NoRoom(payload)) ==> !r.Completed? && !r.LedgerRefused? && ops.Untouched()
      ensures !r.Completed? ==> ops.Untouched() || Started(call)
      ensures r.LedgerRefused? ==> !old(Room(call))
    {
      ghost var s, entries, book, next := StateOf(ops.state), ops.ledger.entries, Book(), Next(Book(), call, allowed);
      RoomDecides(s, entries, book, call, reply, change);
      pending := call;
      ghost var it;
      r, it := Attempt(change, opId, payload);
      if r.Completed? {
        AllOrNothing(ops.Snapshot(), entries, ops.chain, it, book, next);
      } else if ops.intents == [] {
        assert Represents(s, entries, book);
      } else {
        assert Turns(s, entries, it.mutations, it.post, book, next);
      }
    }

    ghost method Record(call: Call)
      requires ops.Valid() && ops.intents == []
      requires Holds([], ops.state, ops.ledger.entries, ops.base, Next(Book(), call, allowed), map[])
      modifies this`calls
      ensures Valid() && calls == old(calls) + [call]
    {
      AfterOneMore(calls, call, allowed);
      calls := calls + [call];
    }

    method CarryOut(call: Call, reply: Reply, change: O.Change<State>, opId: string, payload: A.Payload) returns (r: Handled)
      requires Valid() && ops.intents == [] && opId !in ops.terminals && change.Post?
      requires Computed(StateOf(ops.state), ops.ledger.entries, Book(), call, allowed, maxCompleted, reply, change)
      modifies this, ops, ops.audit, ops.ledger
      ensures Ended(call, r) && Booked(payload, r)
    {
      var done := Perform(call, reply, change, opId, payload);
      match done {
        case Completed =>
          Record(call);
          return Replied(reply);
        case LedgerRefused(fault) => return LedgerRefused(fault);
        case AuditRefused => return AuditRefused;
        case _ => return Crashed;
      }
    }

    // A call without a change: the reply is all there is.
    method Decline(call: Call, reply: Reply, change: O.Change<State>, opId: string, payload: A.Payload) returns (r: Handled)
      requires Valid() && ops.intents == [] && opId !in ops.terminals && !change.Post?
      requires Computed(StateOf(ops.state), ops.ledger.entries, Book(), call, allowed, maxCompleted, reply, change)
      modifies this`calls, ops, ops.audit, ops.ledger
      ensures Ended(call, r) && Booked(payload, r)
    {
      var done, it := Attempt(change, opId, payload);
      Record(call);
      return Replied(reply);
    }

    lemma RoomDecides(s: State, entries: Entries, book: Book, call: Call, reply: Reply, change: O.Change<State>)
      requires Computed(s, entries, book, call, allowed, maxCompleted, reply, change)
      ensures O.Verdict(change, entries, ops.ledger.maxEntries) == None <==>
              change.Post? ==> HasRoom(s, entries, ops.ledger.maxEntries, maxCompleted, call)
      ensures change.Post? ==> (HasRoom(s, entries, ops.ledger.maxEntries, maxCompleted, call)
                                <==> Fits(entries, ops.ledger.maxEntries, |change.mutations|))
    {
      if change.Post? { NewTombstonesFit(entries, ops.ledger.maxEntries, change.mutations); }
    }

    // handle, for the three methods that change decisions. A pending intent fences
    // all of them off before the callback runs.
    method Handle(call: Call, opId: string, payload: A.Payload) returns (r: Handled)
      requires Valid() && opId !in ops.terminals
      modifies this, ops, ops.audit, ops.ledger
      ensures Ended(call, r) && Booked(payload, r)
      ensures r.Replied? ==>
        Granted(old(StateOf(ops.state)), old(ops.ledger.entries), StateOf(ops.state), ops.ledger.entries, call, r.reply, allowed)
    {
      ghost var s, entries, book := StateOf(ops.state), ops.ledger.entries, Book();
      r := Dispatch(call, opId, payload);
      if r.Replied? {
        AfterOneMore(old(calls), call, allowed);
        RepliesAreGranted(s, entries, StateOf(ops.state), ops.ledger.entries, book, call, r.reply, allowed);
      }
    }

    method Dispatch(call: Call, opId: string, payload: A.Payload) returns (r: Handled)
      requires Valid() && opId !in ops.terminals
      modifies this, ops, ops.audit, ops.ledger
      ensures Ended(call, r) && Booked(payload, r)
    {
      if ops.intents != [] { return RecoveryRequired; }
      var reply, change := Try(StateOf(ops.state), ops.ledger.entries, Book(), call, payload.time, maxCompleted, allowed);
      if change.Post? {
        r := CarryOut(call, reply, change, opId, payload);
      } else {
        r := Decline(call, reply, change, opId, payload);
      }
    }

    method RecoverLog() returns (r: O.Recovery)
      requires ops.Valid() && ops.intents != []
      modifies ops, ops.audit, ops.ledger
      ensures ops.Valid() && !r.Unknowable? && !r.NothingPending?
      ensures r.Recovered? ==> O.Happened(ops.Snapshot(), old(ops.base), old(ops.chain), old(ops.intents)[0])
      ensures r.Cancelled? ==> O.NeverHappened(ops.Snapshot(), old(ops.base), old(ops.chain), old(ops.intents)[0])
      ensures r.Interrupted? || r.Unresolved? ==> ops.intents == old(ops.intents) && ops.base == old(ops.base)
      ensures r.Unresolved? ==> PutAll(old(ops.base), ops.ledger.maxEntries, old(ops.intents)[0].mutations).1.Some?
    {
      r := ops.Recover();
    }

    // The recovery at the start of the service: the pending call took effect, or it
    // never happened; undecided only if the ledger had no room for it from the start.
    method Recover() returns (r: O.Recovery)
      requires Valid()
      modifies this`calls, ops, ops.audit, ops.ledger
      ensures Valid()
      ensures calls == if r.Recovered? then old(calls) + [pending] else old(calls)
      ensures r.Recovered? || r.Cancelled? ==> ops.intents == []
      ensures r.Interrupted? || r.Unresolved? ==> ops.intents == old(ops.intents) != [] && WillFit() == old(WillFit())
      ensures r.Unresolved? ==> !old(WillFit())
      ensures r.NothingPending? <==> old(ops.intents) == []
      ensures !r.Unknowable?
    {
      if ops.intents == [] { return O.NothingPending; }
      ghost var it, base, chain := ops.intents[0], ops.base, ops.chain;
      NewTombstonesFit(base, ops.ledger.maxEntries, it.mutations);
      r := RecoverLog();
      if r.Recovered? || r.Cancelled? {
        AllOrNothing(ops.Snapshot(), base, chain, it, Book(), Next(Book(), pending, allowed));
      }
      if r.Recovered? {
        AfterOneMore(calls, pending, allowed);
        calls := calls + [pending];
      }
    }

    // Recovery after recovery, each of which may crash, until one comes to an end.
    method RecoverThroughCrashes(attempts: nat) returns (q: O.Recovery)
      requires Valid() && ops.intents != []
      modifies this`calls, ops, ops.audit, ops.ledger
      ensures Valid()
      ensures calls == if q.Recovered? then old(calls) + [pending] else old(calls)
      ensures q.Recovered? || q.Cancelled? ==> ops.intents == []
      ensures q in {O.Recovered, O.Cancelled, O.Interrupted} || q.Unresolved?
      ensures q.Unresolved? ==> !old(WillFit())
    {
      q := O.Interrupted;
      for i := 0 to attempts
        invariant Valid() && q.Interrupted? && ops.intents != [] && calls == old(calls) && WillFit() == old(WillFit())
      {
        q := Recover();
        if !q.Interrupted? { return; }
      }
    }

    // One call through any number of crashes, of the call and of the recoveries that
    // follow it: once one of them ends, the call took effect or it never happened,
    // and with room in the ledger none of them gets stuck.
    method HandleThroughCrashes(call: Call, opId: string, payload: A.Payload, attempts: nat) returns (r: Handled, q: O.Recovery)
      requires Valid() && ops.intents == [] && opId !in ops.terminals
      modifies this, ops, ops.audit, ops.ledger
      ensures Valid()
      ensures old(Room(call)) ==> !r.LedgerRefused? && !q.Unresolved?
      ensures calls == if r.Replied? || q.Recovered? then old(calls) + [call] else old(calls)
      ensures ops.intents != [] ==> q.Unresolved? || q.Interrupted?
      ensures r.Replied? ==> r.reply == old(Reported(Book(), ops.ledger.entries, call, allowed))
    {
      r := Handle(call, opId, payload);
      q := O.NothingPending;
      if ops.intents != [] { q := RecoverThroughCrashes(attempts); }
    }
  }
}
