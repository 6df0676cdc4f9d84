// python/rill_xray_agent/state.py, ClosedLedger: one tombstone file for each
// closed decision, written once and never replaced.

module ClosedLedger {
  import opened Collections

  datatype Identity = Identity(capability: string, decisionId: string, modelGeneration: int, createdAt: int)

  // The canonical feedback document whose digest a tombstone keeps.
  datatype Feedback = Feedback(decisionId: string, capability: Option<string>, modelGeneration: int, body: string)

  // Digests are free constructors over the digested value, hence injective.
  datatype DecisionHash = OfDecision(decisionId: string)
  datatype IdentityHash = OfIdentity(identity: Identity)
  datatype PayloadHash = OfFeedback(feedback: Feedback)

  datatype Tombstone = Tombstone(identity: IdentityHash, payload: PayloadHash, closedAt: int,
                                 capability: Option<string>, modelGeneration: Option<int>)

  // A file that does not hold a tombstone for its own name is Corrupt.
  datatype Entry = Corrupt | Stored(tombstone: Tombstone)
  type Entries = map<DecisionHash, Entry>

  datatype Fault = LedgerFull | TombstoneConflict | CorruptEntry

  // A ledger side effect that an operation declares.
  datatype Mutation = Malformed | PutClosedDecision(decision: DecisionHash, tombstone: Tombstone)

  // put_hashed. maxEntries 0 means unbounded.
  function Put(entries: Entries, maxEntries: nat, decision: DecisionHash, t: Tombstone): Result<Entries, Fault> {
    if decision in entries then
      match entries[decision]
      case Corrupt => Err(CorruptEntry)
      case Stored(kept) =>
        if kept.identity != t.identity || kept.payload != t.payload then Err(TombstoneConflict)
        else if kept.capability.Some? && kept.capability != t.capability then Err(TombstoneConflict)
        else if kept.modelGeneration.Some? && kept.modelGeneration != t.modelGeneration then Err(TombstoneConflict)
        else Ok(entries)
    else if maxEntries != 0 && |entries| >= maxEntries then Err(LedgerFull)
    else Ok(entries[decision := Stored(t)])
  }

  // The mutation's tombstone is in the ledger.
  predicate Applied(entries: Entries, m: Mutation) {
    && m.PutClosedDecision? && m.decision in entries && entries[m.decision].Stored?
    && entries[m.decision].tombstone.identity == m.tombstone.identity
    && entries[m.decision].tombstone.payload == m.tombstone.payload
  }

  predicate AllApplied(entries: Entries, ms: seq<Mutation>) {
    forall i :: 0 <= i < |ms| ==> Applied(entries, ms[i])
  }

  ghost predicate Explained(decision: DecisionHash, entry: Entry, ms: seq<Mutation>) {
    exists m :: m in ms && m.PutClosedDecision? && m.decision == decision && entry == Stored(m.tombstone)
  }

  ghost predicate Preserves(before: Entries, after: Entries) {
    forall k :: k in before ==> k in after && after[k] == before[k]
  }

  // Nothing that was stored is changed, and everything new comes from `ms`.
  ghost predicate GrowsBy(before: Entries, after: Entries, ms: seq<Mutation>) {
    && Preserves(before, after)
    && (forall k :: k in after && k !in before ==> Explained(k, after[k], ms))
  }

  lemma GrowthIsTransitive(a: Entries, b: Entries, c: Entries, first: seq<Mutation>, second: seq<Mutation>, ms: seq<Mutation>)
    requires GrowsBy(a, b, first) && GrowsBy(b, c, second)
    requires (forall m :: m in first ==> m in ms) && (forall m :: m in second ==> m in ms)
    ensures GrowsBy(a, c, ms)
  {
    forall k | k in c && k !in a ensures Explained(k, c[k], ms) {
      if k in b {
        var m :| m in first && m.PutClosedDecision? && m.decision == k && b[k] == Stored(m.tombstone);
        assert m in ms;
      } else {
        var m :| m in second && m.PutClosedDecision? && m.decision == k && c[k] == Stored(m.tombstone);
        assert m in ms;
      }
    }
  }

  // What is applied stays applied.
  lemma GrowthKeepsApplied(before: Entries, after: Entries, added: seq<Mutation>, ms: seq<Mutation>)
    requires GrowsBy(before, after, added) && AllApplied(before, ms)
    ensures AllApplied(after, ms)
  {
    forall i | 0 <= i < |ms| ensures Applied(after, ms[i]) {
      assert Applied(before, ms[i]);
    }
  }

  // The mutations in order, up to the first one that is refused.
  function PutAll(entries: Entries, maxEntries: nat, ms: seq<Mutation>): (Entries, Option<Fault>) {
    if ms == [] then (entries, None)
    else
      var (before, fault) := PutAll(entries, maxEntries, ms[..|ms| - 1]);
      if fault.Some? then (before, fault)
      else
        match ms[|ms| - 1]
        case Malformed => (before, Some(TombstoneConflict))
        case PutClosedDecision(decision, t) =>
          match Put(before, maxEntries, decision, t)
          case Ok(after) => (after, None)
          case Err(f) => (before, Some(f))
  }

  lemma PutGrows(before: Entries, maxEntries: nat, m: Mutation)
    requires m.PutClosedDecision? && Put(before, maxEntries, m.decision, m.tombstone).Ok?
    ensures GrowsBy(before, Put(before, maxEntries, m.decision, m.tombstone).value, [m])
    ensures Applied(Put(before, maxEntries, m.decision, m.tombstone).value, m)
  {
    assert m in [m];
  }

  lemma {:induction false} PutAllGrows(entries: Entries, maxEntries: nat, ms: seq<Mutation>)
    ensures GrowsBy(entries, PutAll(entries, maxEntries, ms).0, ms)
    ensures PutAll(entries, maxEntries, ms).1 == None ==> AllApplied(PutAll(entries, maxEntries, ms).0, ms)
    decreases |ms|
  {
    if ms != [] {
      var n := |ms| - 1;
      PutAllGrows(entries, maxEntries, ms[..n]);
      var (before, fault) := PutAll(entries, maxEntries, ms[..n]);
      var (after, last) := PutAll(entries, maxEntries, ms);
      if fault == None && last == None {
        PutGrows(before, maxEntries, ms[n]);
        GrowthKeepsApplied(before, after, [ms[n]], ms[..n]);
        GrowthIsTransitive(entries, before, after, ms[..n], [ms[n]], ms);
        forall i | 0 <= i < |ms| ensures Applied(after, ms[i]) {
          assert i < n ==> Applied(after, ms[..n][i]);
        }
      } else {
        assert after == before;
        GrowthIsTransitive(entries, before, before, ms[..n], [], ms);
      }
    }
  }

  // What was accepted once is accepted again, and changes nothing any more.
  lemma PutAgain(before: Entries, maxEntries: nat, m: Mutation, after: Entries)
    requires m.PutClosedDecision? && Put(before, maxEntries, m.decision, m.tombstone).Ok?
    requires Preserves(Put(before, maxEntries, m.decision, m.tombstone).value, after)
    ensures Put(after, maxEntries, m.decision, m.tombstone) == Ok(after)
  {
    assert m.decision in after && after[m.decision] == Put(before, maxEntries, m.decision, m.tombstone).value[m.decision];
  }

  predicate PrefixIs(base: Entries, now: Entries, ms: seq<Mutation>, maxEntries: nat, k: nat)
    requires k <= |ms|
  {
    PutAll(base, maxEntries, ms[..k]) == (now, None)
  }

  // The first so many mutations have been put, all of them accepted.
  ghost predicate PutPrefix(base: Entries, now: Entries, ms: seq<Mutation>, maxEntries: nat) {
    exists k: nat :: k <= |ms| && PrefixIs(base, now, ms, maxEntries, k)
  }

  lemma NothingPutYet(base: Entries, ms: seq<Mutation>, maxEntries: nat)
    ensures PutPrefix(base, base, ms, maxEntries)
  {
    assert ms[..0] == [];
    assert PrefixIs(base, base, ms, maxEntries, 0);
  }

  lemma PrefixGrows(base: Entries, now: Entries, ms: seq<Mutation>, maxEntries: nat)
    requires PutPrefix(base, now, ms, maxEntries)
    ensures GrowsBy(base, now, ms)
  {
    var k: nat :| k <= |ms| && PrefixIs(base, now, ms, maxEntries, k);
    PutAllGrows(base, maxEntries, ms[..k]);
    GrowthIsTransitive(base, now, now, ms[..k], [], ms);
  }

  lemma PutAllExtends(base: Entries, maxEntries: nat, ms: seq<Mutation>, j: nat)
    requires j < |ms|
    ensures ms[..j + 1][..j] == ms[..j] && ms[..j + 1][j] == ms[j]
  {
  }

  // Putting from the start again over a prefix that was put: the prefix is accepted
  // without a change, and the rest is what it would have been.
  lemma {:induction false} PutAllOverPrefix(base: Entries, now: Entries, maxEntries: nat, ms: seq<Mutation>, k: nat, j: nat)
    requires k <= |ms| && j <= |ms| && PrefixIs(base, now, ms, maxEntries, k)
    ensures PutAll(now, maxEntries, ms[..j]) == if j <= k then (now, None) else PutAll(base, maxEntries, ms[..j])
    decreases j
  {
    if j > 0 {
      PutAllOverPrefix(base, now, maxEntries, ms, k, j - 1);
      PutAllExtends(base, maxEntries, ms, j - 1);
      if j <= k {
        PrefixAccepts(base, now, maxEntries, ms, k, j - 1);
      } else if j - 1 == k {
        assert PutAll(now, maxEntries, ms[..k]) == (now, None);
      }
    }
  }

  // Every mutation of an accepted prefix is accepted again behind it.
  lemma {:induction false} PrefixAccepts(base: Entries, now: Entries, maxEntries: nat, ms: seq<Mutation>, k: nat, i: nat)
    requires i < k <= |ms| && PrefixIs(base, now, ms, maxEntries, k)
    ensures ms[i].PutClosedDecision? && Put(now, maxEntries, ms[i].decision, ms[i].tombstone) == Ok(now)
    decreases k
  {
    PutAllExtends(base, maxEntries, ms, k - 1);
    var mid := PutAll(base, maxEntries, ms[..k - 1]).0;
    if i < k - 1 {
      PrefixAccepts(base, mid, maxEntries, ms, k - 1, i);
      PutGrows(mid, maxEntries, ms[k - 1]);
      PutAgain(mid, maxEntries, ms[i], now);
    } else {
      PutAgain(mid, maxEntries, ms[i], now);
    }
  }

  lemma PrefixesCompose(base: Entries, mid: Entries, now: Entries, ms: seq<Mutation>, maxEntries: nat)
    requires PutPrefix(base, mid, ms, maxEntries) && PutPrefix(mid, now, ms, maxEntries)
    ensures PutPrefix(base, now, ms, maxEntries)
  {
    var k: nat :| k <= |ms| && PrefixIs(base, mid, ms, maxEntries, k);
    var j: nat :| j <= |ms| && PrefixIs(mid, now, ms, maxEntries, j);
    PutAllOverPrefix(base, mid, maxEntries, ms, k, j);
    if j > k {
      assert PrefixIs(base, now, ms, maxEntries, j);
    }
  }

  // So whether the whole list is accepted is settled before the first put.
  lemma PrefixKeepsVerdict(base: Entries, now: Entries, ms: seq<Mutation>, maxEntries: nat)
    requires PutPrefix(base, now, ms, maxEntries)
    ensures PutAll(now, maxEntries, ms).1 == PutAll(base, maxEntries, ms).1
    ensures PutAll(base, maxEntries, ms).1 == None ==> PutAll(now, maxEntries, ms) == PutAll(base, maxEntries, ms)
  {
    var k: nat :| k <= |ms| && PrefixIs(base, now, ms, maxEntries, k);
    PutAllOverPrefix(base, now, maxEntries, ms, k, |ms|);
    assert ms[..|ms|] == ms;
  }

  // The optional metadata of a stored tombstone does not contradict a new one's.
  predicate MetadataAgrees(stored: Tombstone, t: Tombstone) {
    && (stored.capability.Some? ==> stored.capability == t.capability)
    && (stored.modelGeneration.Some? ==> stored.modelGeneration == t.modelGeneration)
  }

  // Putting what is already applied never changes the ledger, whatever its
  // capacity, and is accepted exactly when the metadata agree.
  lemma {:induction false} PutAllAgain(entries: Entries, maxEntries: nat, ms: seq<Mutation>)
    requires AllApplied(entries, ms)
    ensures PutAll(entries, maxEntries, ms).0 == entries
    ensures PutAll(entries, maxEntries, ms).1 == None <==>
            forall i :: 0 <= i < |ms| ==> MetadataAgrees(entries[ms[i].decision].tombstone, ms[i].tombstone)
    decreases |ms|
  {
    if ms != [] {
      var n := |ms| - 1;
      assert AllApplied(entries, ms[..n]) by {
        forall i | 0 <= i < n ensures Applied(entries, ms[..n][i]) { assert Applied(entries, ms[i]); }
      }
      PutAllAgain(entries, maxEntries, ms[..n]);
      assert Applied(entries, ms[n]);
      assert forall i :: 0 <= i < n ==> ms[..n][i] == ms[i];
    }
  }

  lemma {:induction false} FirstFaultIsReported(entries: Entries, maxEntries: nat, ms: seq<Mutation>, n: nat)
    requires n <= |ms| && PutAll(entries, maxEntries, ms[..n]).1.Some?
    ensures PutAll(entries, maxEntries, ms).1 == PutAll(entries, maxEntries, ms[..n]).1
    decreases |ms| - n
  {
    if n == |ms| {
      assert ms[..n] == ms;
    } else {
      assert ms[..n + 1][..n] == ms[..n];
      FirstFaultIsReported(entries, maxEntries, ms, n + 1);
    }
  }

  // An operation's tombstones and nothing else: the ledger is then exactly what
  // putting them produces.
  lemma {:induction false} GrowthDeterminesLedger(base: Entries, maxEntries: nat, ms: seq<Mutation>, after: Entries)
    requires PutAll(base, maxEntries, ms).1 == None
    requires GrowsBy(base, after, ms) && AllApplied(after, ms)
    requires forall m :: m in ms ==> m.PutClosedDecision? && m.decision !in base
    requires forall i, j :: 0 <= i < j < |ms| ==> ms[i].decision != ms[j].decision
    ensures after == PutAll(base, maxEntries, ms).0
  {
    var put := PutAll(base, maxEntries, ms).0;
    PutAllGrows(base, maxEntries, ms);
    forall k ensures k in after <==> k in put {
      if k in after && k !in base {
        var m :| m in ms && m.PutClosedDecision? && m.decision == k;
        var i :| 0 <= i < |ms| && ms[i] == m;
        assert Applied(put, ms[i]);
      }
      if k in put && k !in base {
        var m :| m in ms && m.PutClosedDecision? && m.decision == k;
        var i :| 0 <= i < |ms| && ms[i] == m;
        assert Applied(after, ms[i]);
      }
    }
    forall k | k in after ensures after[k] == put[k] {
      if k !in base {
        var m :| m in ms && m.PutClosedDecision? && m.decision == k && after[k] == Stored(m.tombstone);
        var n :| n in ms && n.PutClosedDecision? && n.decision == k && put[k] == Stored(n.tombstone);
      }
    }
  }

  class Ledger {
    const maxEntries: nat
    var entries: Entries

    constructor (maxEntries: nat)
      ensures this.maxEntries == maxEntries && entries == map[]
    {
      this.maxEntries, entries := maxEntries, map[];
    }

    method PutHashed(decision: DecisionHash, t: Tombstone) returns (r: Result<(), Fault>)
      modifies this
      ensures match Put(old(entries), maxEntries, decision, t)
        case Ok(after) => r.Ok? && entries == after
        case Err(fault) => r == Err(fault) && entries == old(entries)
      ensures r == Err(CorruptEntry) <==> decision in old(entries) && old(entries)[decision].Corrupt?
      ensures r == Err(LedgerFull) <==> decision !in old(entries) && maxEntries != 0 && |old(entries)| >= maxEntries
      ensures r == Err(TombstoneConflict) <==>
        && decision in old(entries) && old(entries)[decision].Stored?
        && !(old(entries)[decision].tombstone.identity == t.identity && old(entries)[decision].tombstone.payload == t.payload
             && MetadataAgrees(old(entries)[decision].tombstone, t))
    {
      if decision in entries {
        match entries[decision] {
          case Corrupt => return Err(CorruptEntry);
          case Stored(existing) =>
            if existing.identity == t.identity && existing.payload == t.payload {
              if existing.capability.Some? && existing.capability != t.capability { return Err(TombstoneConflict); }
              if existing.modelGeneration.Some? && existing.modelGeneration != t.modelGeneration { return Err(TombstoneConflict); }
              return Ok(());
            }
            return Err(TombstoneConflict);
        }
      }
      if maxEntries != 0 && |entries| >= maxEntries { return Err(LedgerFull); }
      entries := entries[decision := Stored(t)];
      return Ok(());
    }
  }
}
