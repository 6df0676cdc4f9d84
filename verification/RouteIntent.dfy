// python/rill_xray_agent/route_topology.py, route_analyzer.py, route_planner.py:
// the secret-free projection of the live rules, the comparison of the managed
// intent with it, and the operations planned from the differences.

module RouteIntent {
  import opened Collections
  import opened RouteContract
  import opened RouteCompiler

  // One entry of the managed-route intent; a missing key is None.
  datatype Entry = Entry(id: Option<string>, tag: Option<string>, selector: Option<Selector>,
                         value: Option<Value>, outbound: Option<string>)

  // Identity digest of a managed tag, an injective digest.
  datatype TagDigest = OfTag(tag: string)

  // Digests of selector values; nothing is assumed about them.
  type Digests = (Selector, Value) -> string

  // ---- projection ------------------------------------------------------------------

  datatype SafeRule = SafeRule(index: nat, types: seq<Selector>, digests: map<Selector, string>,
                               outbound: string, managedId: Option<TagDigest>)

  function SafeOf(index: nat, r: Rule, digest: Digests): SafeRule {
    SafeRule(index, SelectorFields(r), map f | f in r.fields && Selects(r, f) :: digest(f, r.fields[f]),
             if r.outbound.Some? then r.outbound.value else "",
             if Managed(r) then Some(OfTag(r.tag.value)) else None)
  }

  function Project(rules: seq<Rule>, digest: Digests): seq<SafeRule> {
    seq(|rules|, i requires 0 <= i < |rules| => SafeOf(i, rules[i], digest))
  }

  // rule_selector_type on a projected rule.
  function ProjectedTypes(live: seq<SafeRule>): seq<Option<Selector>> {
    seq(|live|, i requires 0 <= i < |live| => Head(live[i].types))
  }

  // The advisory risk that the Runtime computes from the projection is the risk
  // that the root executor computes from the live rules.
  lemma ProjectedRiskIsLiveRisk(rules: seq<Rule>, digest: Digests, ops: seq<Op>)
    ensures OverallRisk(ops, ProjectedTypes(Project(rules, digest))) == OverallRisk(ops, Types(rules))
  {
    forall i | 0 <= i < |rules| ensures Head(Project(rules, digest)[i].types) == SelectorType(rules[i]) {
      FirstIsHead(rules[i], SELECTOR_ORDER);
    }
    assert ProjectedTypes(Project(rules, digest)) == Types(rules);
  }

  // ---- sanitised intent ---------------------------------------------------------------

  function NonEmpty(s: Option<string>): Option<string> {
    if s.Some? && s.value != "" then s else None
  }

  function Identity(id: Option<string>): Option<string> {
    if id.Some? && ValidId(id.value) then id else None
  }

  function SafeValue(v: Option<Value>): Option<Value> {
    match v
    case Some(Text(s)) => if s != "" then Some(List([s])) else None
    case Some(List(items)) => if items != [] && "" !in items then v else None
    case _ => None
  }

  function SanitizeEntry(e: Entry): Option<Entry> {
    if Identity(e.id).None? && NonEmpty(e.tag).None? then None
    else if e.selector.None? || e.selector.value !in {Domain, Ip, Port, Network, Protocol} then None
    else if NonEmpty(e.outbound).None? || SafeValue(e.value).None? then None
    else Some(Entry(Identity(e.id), NonEmpty(e.tag), e.selector, SafeValue(e.value), e.outbound))
  }

  function Sanitize(intent: seq<Entry>): seq<Entry> {
    if intent == [] then []
    else
      var last := SanitizeEntry(intent[|intent| - 1]);
      Sanitize(intent[..|intent| - 1]) + if last.Some? then [last.value] else []
  }

  method SanitizedIntentRules(intent: seq<Entry>) returns (out: seq<Entry>)
    ensures out == Sanitize(intent)
  {
    out := [];
    for i := 0 to |intent|
      invariant out == Sanitize(intent[..i])
    {
      assert intent[..i + 1][..i] == intent[..i];
      var e := intent[i];
      if Identity(e.id).None? && NonEmpty(e.tag).None? { continue; }
      if e.selector.None? || e.selector.value !in {Domain, Ip, Port, Network, Protocol} { continue; }
      if NonEmpty(e.outbound).None? { continue; }
      var value := SafeValue(e.value);
      if value.None? { continue; }
      out := out + [Entry(Identity(e.id), NonEmpty(e.tag), e.selector, value, e.outbound)];
    }
    assert intent[..|intent|] == intent;
  }

  // Exactly which entries the Runtime is shown, and what of them.
  lemma SanitizedEntryIs(e: Entry)
    ensures SanitizeEntry(e).Some? <==>
      && ((e.id.Some? && ValidId(e.id.value)) || (e.tag.Some? && e.tag.value != ""))
      && e.selector.Some? && e.selector.value in {Domain, Ip, Port, Network, Protocol}
      && e.outbound.Some? && e.outbound.value != "" && e.value.Some?
      && ((e.value.value.Text? && e.value.value.text != "") || (e.value.value.List? && e.value.value.items != [] && "" !in e.value.value.items))
    ensures SanitizeEntry(e).Some? ==>
      var s := SanitizeEntry(e).value;
      && s.id == (if e.id.Some? && ValidId(e.id.value) then e.id else None)
      && s.tag == (if e.tag.Some? && e.tag.value != "" then e.tag else None)
      && s.selector == e.selector && s.outbound == e.outbound
      && s.value == Some(List(if e.value.value.Text? then [e.value.value.text] else e.value.value.items))
  {
  }

  lemma SanitizeEntryIsIdempotent(e: Entry)
    requires SanitizeEntry(e).Some?
    ensures SanitizeEntry(SanitizeEntry(e).value) == SanitizeEntry(e)
  {
  }

  lemma SanitizeExtends(intent: seq<Entry>, e: Entry)
    ensures Sanitize(intent + [e]) == Sanitize(intent) + if SanitizeEntry(e).Some? then [SanitizeEntry(e).value] else []
  {
    assert (intent + [e])[..|intent|] == intent;
  }

  lemma {:induction false} SanitizeIsIdempotent(intent: seq<Entry>)
    ensures Sanitize(Sanitize(intent)) == Sanitize(intent)
    decreases |intent|
  {
    if intent != [] {
      var e := intent[|intent| - 1];
      var init := Sanitize(intent[..|intent| - 1]);
      SanitizeIsIdempotent(intent[..|intent| - 1]);
      if SanitizeEntry(e).Some? {
        SanitizeEntryIsIdempotent(e);
        SanitizeExtends(init, SanitizeEntry(e).value);
      } else {
        assert Sanitize(intent) == init;
      }
    }
  }

  lemma {:induction false} SanitizeShortens(intent: seq<Entry>)
    ensures |Sanitize(intent)| <= |intent|
    decreases |intent|
  {
    if intent != [] { SanitizeShortens(intent[..|intent| - 1]); }
  }

  // An intent is in sanitised form exactly when each of its entries is.
  lemma {:induction false} SanitisedIffEveryEntryIs(intent: seq<Entry>)
    ensures Sanitize(intent) == intent <==> forall i :: 0 <= i < |intent| ==> SanitizeEntry(intent[i]) == Some(intent[i])
    decreases |intent|
  {
    if intent != [] {
      var n := |intent| - 1;
      var init, e := intent[..n], intent[n];
      SanitisedIffEveryEntryIs(init);
      SanitizeShortens(init);
      assert intent == init + [e];
      SanitizeExtends(init, e);
      if Sanitize(intent) == intent {
        assert Sanitize(intent)[..n] == init;
      }
    }
  }

  // ---- comparison with the live rules -----------------------------------------------------

  datatype Finding = Missing(entry: Entry) | Drifted(index: nat, entry: Entry)

  // What an entry is looked up by: its identity's tag, else its legacy tag.
  function LiveId(e: Entry): Option<TagDigest> {
    if Identity(e.id).Some? then Some(OfTag(ManagedTag(e.id.value)))
    else if NonEmpty(e.tag).Some? then Some(OfTag(e.tag.value))
    else None
  }

  function FirstLive(live: seq<SafeRule>, id: TagDigest): (k: nat)
    ensures k <= |live| && (k < |live| ==> live[k].managedId == Some(id))
    ensures forall i :: 0 <= i < k ==> live[i].managedId != Some(id)
  {
    if live == [] then 0 else if live[0].managedId == Some(id) then 0 else 1 + FirstLive(live[1..], id)
  }

  function Given(v: Option<Value>): Value {
    if v.Some? then v.value else Null
  }

  predicate Drifts(e: Entry, r: SafeRule, digest: Digests)
    requires e.selector.Some?
  {
    || e.selector.value !in r.digests || r.digests[e.selector.value] != digest(e.selector.value, Given(e.value))
    || (e.outbound.Some? && r.outbound != e.outbound.value)
  }

  function Compare(e: Entry, live: seq<SafeRule>, digest: Digests): Option<Finding> {
    if !Supported(e.selector) || LiveId(e).None? then None
    else
      var k := FirstLive(live, LiveId(e).value);
      var clean := Entry(Identity(e.id), NonEmpty(e.tag), e.selector, e.value, e.outbound);
      if k == |live| then Some(Missing(clean))
      else if Drifts(e, live[k], digest) then Some(Drifted(live[k].index, clean))
      else None
  }

  function Restores(intent: seq<Entry>, live: seq<SafeRule>, digest: Digests): seq<Finding> {
    if intent == [] then []
    else
      var last := Compare(intent[|intent| - 1], live, digest);
      Restores(intent[..|intent| - 1], live, digest) + if last.Some? then [last.value] else []
  }

  lemma FirstIsUnique(live: seq<SafeRule>, id: TagDigest, k: nat)
    requires k <= |live| && (k < |live| ==> live[k].managedId == Some(id))
    requires forall i :: 0 <= i < k ==> live[i].managedId != Some(id)
    ensures FirstLive(live, id) == k
  {
  }

  lemma {:induction false} FirstOfOneMore(live: seq<SafeRule>, id: TagDigest)
    requires live != []
    ensures var n := |live| - 1;
      var k := FirstLive(live[..n], id);
      FirstLive(live, id) == if k < n then k else if live[n].managedId == Some(id) then n else n + 1
  {
    var n := |live| - 1;
    var k := FirstLive(live[..n], id);
    assert forall i :: 0 <= i < n ==> live[..n][i] == live[i];
    FirstIsUnique(live, id, if k < n then k else if live[n].managedId == Some(id) then n else n + 1);
  }

  // The managed rules with one identity, in order.
  function Group(live: seq<SafeRule>, id: TagDigest): seq<SafeRule> {
    if live == [] then []
    else Group(live[..|live| - 1], id) + if live[|live| - 1].managedId == Some(id) then [live[|live| - 1]] else []
  }

  lemma {:induction false} GroupStartsAtFirst(live: seq<SafeRule>, id: TagDigest)
    ensures Group(live, id) == [] <==> FirstLive(live, id) == |live|
    ensures Group(live, id) != [] ==> Group(live, id)[0] == live[FirstLive(live, id)]
    decreases |live|
  {
    if live != [] {
      GroupStartsAtFirst(live[..|live| - 1], id);
      FirstOfOneMore(live, id);
    }
  }

  // _intent_restore_analysis: the live rules by identity, then one pass over the intent.
  method IntentRestoreAnalysis(intent: seq<Entry>, live: seq<SafeRule>, digest: Digests) returns (found: seq<Finding>)
    ensures found == Restores(intent, live, digest)
  {
    var byId: map<TagDigest, seq<SafeRule>> := map[];
    for i := 0 to |live|
      invariant forall id :: (if id in byId then byId[id] else []) == Group(live[..i], id)
    {
      assert live[..i + 1][..i] == live[..i];
      var r := live[i];
      if r.managedId.Some? {
        var id := r.managedId.value;
        byId := byId[id := (if id in byId then byId[id] else []) + [r]];
      }
    }
    assert live[..|live|] == live;
    found := [];
    for i := 0 to |intent|
      invariant found == Restores(intent[..i], live, digest)
    {
      assert intent[..i + 1][..i] == intent[..i];
      var e := intent[i];
      if !Supported(e.selector) { continue; }
      var id := LiveId(e);
      if id.None? { continue; }
      GroupStartsAtFirst(live, id.value);
      var clean := Entry(Identity(e.id), NonEmpty(e.tag), e.selector, e.value, e.outbound);
      var matches := if id.value in byId then byId[id.value] else [];
      if matches == [] {
        found := found + [Missing(clean)];
      } else if Drifts(e, matches[0], digest) {
        found := found + [Drifted(matches[0].index, clean)];
      }
    }
    assert intent[..|intent|] == intent;
  }

  // ---- planning ---------------------------------------------------------------------------

  // An operation as it is handed on; a canonical one is marked as managed.
  datatype WireOp = WireOp(op: Op, managedScope: bool)

  predicate SafeParam(v: Option<Value>) {
    match v
    case None => true
    case Some(Text(s)) => SafeString(s)
    case Some(List(items)) => forall i :: 0 <= i < |items| ==> SafeString(items[i])
    case _ => false
  }

  predicate SafeOptional(o: Option<string>) {
    o.Some? ==> SafeString(o.value)
  }

  // Every parameter that is there is safe; "" is an identity that is not.
  predicate SafeParams(op: Op) {
    match op
    case Insert(id, _, _, value, outbound) => (id == "" || SafeString(id)) && SafeParam(value) && SafeOptional(outbound)
    case Replace(id, _, _, value, outbound) => (id == "" || SafeString(id)) && SafeParam(value) && SafeOptional(outbound)
    case _ => true
  }

  // _canonical_operation: the parameters, each of them checked; anything unsafe is
  // refused. An index is never negative here.
  function CanonicalOperation(w: WireOp): Option<WireOp> {
    if SafeParams(w.op) then Some(WireOp(w.op, true)) else None
  }

  function CanonicalizeAll(ws: seq<WireOp>): Option<seq<WireOp>> {
    if ws == [] then Some([])
    else
      var init, last := CanonicalizeAll(ws[..|ws| - 1]), CanonicalOperation(ws[|ws| - 1]);
      if init.Some? && last.Some? then Some(init.value + [last.value]) else None
  }

  function Marked(ops: seq<Op>): seq<WireOp> {
    seq(|ops|, i requires 0 <= i < |ops| => WireOp(ops[i], true))
  }

  function Bare(ws: seq<WireOp>): seq<Op> {
    seq(|ws|, i requires 0 <= i < |ws| => ws[i].op)
  }

  // canonicalize_operations
  method CanonicalizeOperations(ws: seq<WireOp>) returns (r: Option<seq<WireOp>>)
    ensures r == CanonicalizeAll(ws)
  {
    var out: seq<WireOp> := [];
    for i := 0 to |ws|
      invariant CanonicalizeAll(ws[..i]) == Some(out)
    {
      assert ws[..i + 1][..i] == ws[..i];
      var op := CanonicalOperation(ws[i]);
      if op.None? {
        UnsafeStaysUnsafe(ws, i + 1);
        return None;
      }
      out := out + [op.value];
    }
    assert ws[..|ws|] == ws;
    return Some(out);
  }

  lemma {:induction false} UnsafeStaysUnsafe(ws: seq<WireOp>, n: nat)
    requires n <= |ws| && CanonicalizeAll(ws[..n]).None?
    ensures CanonicalizeAll(ws).None?
    decreases |ws| - n
  {
    if n == |ws| {
      assert ws[..n] == ws;
    } else {
      assert ws[..n + 1][..n] == ws[..n];
      UnsafeStaysUnsafe(ws, n + 1);
    }
  }

  // What canonicalisation does to a list: refuse it, or mark its operations.
  lemma {:induction false} CanonicalFormIs(ws: seq<WireOp>)
    ensures CanonicalizeAll(ws) ==
      if forall i :: 0 <= i < |ws| ==> SafeParams(ws[i].op) then Some(Marked(Bare(ws))) else None
    decreases |ws|
  {
    if ws != [] {
      var n := |ws| - 1;
      CanonicalFormIs(ws[..n]);
      assert forall i :: 0 <= i < n ==> ws[..n][i] == ws[i];
      if SafeParams(ws[n].op) {
        assert Marked(Bare(ws)) == Marked(Bare(ws[..n])) + [WireOp(ws[n].op, true)];
      }
    }
  }

  lemma CanonicalFormIsAFixpoint(ws: seq<WireOp>)
    requires CanonicalizeAll(ws).Some?
    ensures CanonicalizeAll(CanonicalizeAll(ws).value) == CanonicalizeAll(ws)
  {
    CanonicalFormIs(ws);
    CanonicalFormIs(CanonicalizeAll(ws).value);
    BareUndoesMarked(Bare(ws));
  }

  function Param(v: Option<Value>): Option<Value> {
    if v == Some(Null) then None else v
  }

  // An entry with only a legacy tag gives an operation without an identity.
  function OpOf(f: Finding, count: nat): Op {
    var id := if f.entry.id.Some? then f.entry.id.value else "";
    match f
    case Missing(e) => Insert(id, Some(count), e.selector, Param(e.value), e.outbound)
    case Drifted(index, e) => Replace(id, index, e.selector, Param(e.value), e.outbound)
  }

  function Plan(found: seq<Finding>, count: nat): seq<Op> {
    if found == [] then []
    else
      var op := OpOf(found[|found| - 1], count);
      Plan(found[..|found| - 1], count) + if SafeParams(op) then [op] else []
  }

  // _ops_from_intent: an unsafe operation is dropped, never synthesized.
  method OpsFromIntent(found: seq<Finding>, count: nat) returns (ops: seq<WireOp>)
    ensures ops == Marked(Plan(found, count))
  {
    ops := [];
    for i := 0 to |found|
      invariant ops == Marked(Plan(found[..i], count))
    {
      assert found[..i + 1][..i] == found[..i];
      var op := CanonicalOperation(WireOp(OpOf(found[i], count), false));
      if op.Some? { ops := ops + [op.value]; }
    }
    assert found[..|found|] == found;
  }

  lemma {:induction false} PlanIsSafe(found: seq<Finding>, count: nat)
    ensures |Plan(found, count)| <= |found|
    ensures forall i :: 0 <= i < |Plan(found, count)| ==> SafeParams(Plan(found, count)[i])
    decreases |found|
  {
    if found != [] { PlanIsSafe(found[..|found| - 1], count); }
  }

  // ---- the two sides of a request -----------------------------------------------------------

  // What the root observer writes for the Runtime: the rules without secrets, and the
  // sanitised intent.
  datatype Projection = Projection(rules: seq<SafeRule>, intent: seq<Entry>)

  function ProjectTopology(rules: seq<Rule>, intent: seq<Entry>, digest: Digests): Projection {
    Projection(Project(rules, digest), Sanitize(intent))
  }

  // What the Runtime makes of it. It sees no rule and no intent but the projected ones.
  function Produced(p: Projection, digest: Digests): seq<Op> {
    Plan(Restores(p.intent, p.rules, digest), |p.rules|)
  }

  // _auto_produce, up to the spool: the plan canonicalises the operations again, the
  // request carries those that the planner gave.
  method AutoProduce(p: Projection, digest: Digests) returns (spooled: seq<WireOp>, planned: Option<seq<WireOp>>)
    ensures spooled == Marked(Produced(p, digest)) && planned == Some(spooled)
  {
    var found := IntentRestoreAnalysis(p.intent, p.rules, digest);
    if found == [] { return [], Some([]); }
    var routing := p.rules;
    var ops := OpsFromIntent(found, |routing|);
    planned := CanonicalizeOperations(ops);
    spooled := ops;
    PlanIsSafe(found, |routing|);
    CanonicalFormIs(ops);
    assert Bare(ops) == Produced(p, digest);
  }

  // Analysis and planning of an intent over the live rules, as the root does them.
  function Operations(intent: seq<Entry>, rules: seq<Rule>, digest: Digests): seq<Op> {
    Plan(Restores(intent, Project(rules, digest), digest), |rules|)
  }

  // The request must carry what the root recomputes, in canonical form.
  predicate RootProofAdmits(requested: seq<WireOp>, intent: seq<Entry>, rules: seq<Rule>, digest: Digests) {
    CanonicalizeAll(requested).Some? && CanonicalizeAll(requested) == CanonicalizeAll(Marked(Operations(intent, rules, digest)))
  }

  // _root_intent_proof: from the intent and the rules themselves, by way of a
  // projection of its own; both lists are canonicalised before they are compared.
  method RootIntentProof(requested: seq<WireOp>, intent: seq<Entry>, rules: seq<Rule>, digest: Digests) returns (ok: bool)
    ensures ok <==> RootProofAdmits(requested, intent, rules, digest)
  {
    var projection := ProjectTopology(rules, intent, digest);
    var found := IntentRestoreAnalysis(intent, projection.rules, digest);
    var expected := [];
    if found != [] { expected := OpsFromIntent(found, |projection.rules|); }
    var e := CanonicalizeOperations(expected);
    var r := CanonicalizeOperations(requested);
    ok := r.Some? && e == r;
  }

  // What the root admits are exactly its own operations.
  lemma AdmittedAreTheRootsOwn(requested: seq<WireOp>, intent: seq<Entry>, rules: seq<Rule>, digest: Digests)
    ensures RootProofAdmits(requested, intent, rules, digest) <==> Bare(requested) == Operations(intent, rules, digest)
  {
    var own := Operations(intent, rules, digest);
    PlanIsSafe(Restores(intent, Project(rules, digest), digest), |rules|);
    CanonicalFormIs(requested);
    CanonicalFormIs(Marked(own));
    BareUndoesMarked(own);
    BareUndoesMarked(Bare(requested));
    assert forall i :: 0 <= i < |own| ==> SafeParams(Marked(own)[i].op);
    if Bare(requested) == own {
      assert forall i :: 0 <= i < |requested| ==> requested[i].op == own[i];
    }
  }

  lemma BareUndoesMarked(ops: seq<Op>)
    ensures Bare(Marked(ops)) == ops
  {
  }

  // The Runtime's request is admitted exactly when sanitising the intent does not
  // change what the root plans from it; for an intent in sanitised form it always is.
  lemma ProducerMeetsProof(intent: seq<Entry>, rules: seq<Rule>, digest: Digests)
    ensures var spooled := Marked(Produced(ProjectTopology(rules, intent, digest), digest));
      && (RootProofAdmits(spooled, intent, rules, digest)
          <==> Operations(Sanitize(intent), rules, digest) == Operations(intent, rules, digest))
      && RootProofAdmits(spooled, Sanitize(intent), rules, digest)
      && (Sanitize(intent) == intent ==> RootProofAdmits(spooled, intent, rules, digest))
  {
    var produced := Produced(ProjectTopology(rules, intent, digest), digest);
    assert produced == Operations(Sanitize(intent), rules, digest);
    AdmittedAreTheRootsOwn(Marked(produced), intent, rules, digest);
    AdmittedAreTheRootsOwn(Marked(produced), Sanitize(intent), rules, digest);
    assert Bare(Marked(produced)) == produced;
  }

  // ---- convergence --------------------------------------------------------------------------

  // An entry that plans to a valid operation.
  predicate GoodEntry(e: Entry) {
    && e.id.Some? && IdCharacters(e.id.value) && Supported(e.selector)
    && e.value.Some? && ValidValue(e.value.value)
    && e.outbound.Some? && ShortSafe(e.outbound.value)
  }

  // They ask for the same rule, as far as digests tell.
  predicate SameWish(a: Entry, b: Entry, digest: Digests)
    requires GoodEntry(a) && GoodEntry(b)
  {
    && a.selector == b.selector && a.outbound == b.outbound
    && digest(a.selector.value, a.value.value) == digest(b.selector.value, b.value.value)
  }

  // Entries with one identity ask for one rule.
  ghost predicate GoodIntent(intent: seq<Entry>, digest: Digests) {
    && (forall i :: 0 <= i < |intent| ==> GoodEntry(intent[i]))
    && (forall i, j :: 0 <= i < |intent| && 0 <= j < |intent| && intent[i].id == intent[j].id ==> SameWish(intent[i], intent[j], digest))
  }

  function TagOf(e: Entry): string
    requires e.id.Some?
  {
    ManagedTag(e.id.value)
  }

  // The first rule with a tag.
  function FirstIndex(rules: seq<Rule>, tag: string): (k: nat)
    ensures k <= |rules| && (k < |rules| ==> rules[k].tag == Some(tag))
    ensures forall i :: 0 <= i < k ==> rules[i].tag != Some(tag)
  {
    if rules == [] then 0 else if rules[0].tag == Some(tag) then 0 else 1 + FirstIndex(rules[1..], tag)
  }

  function FirstWith(rules: seq<Rule>, tag: string): Option<Rule> {
    var k := FirstIndex(rules, tag);
    if k < |rules| then Some(rules[k]) else None
  }

  lemma FirstIndexIsUnique(rules: seq<Rule>, tag: string, k: nat)
    requires k <= |rules| && (k < |rules| ==> rules[k].tag == Some(tag))
    requires forall i :: 0 <= i < k ==> rules[i].tag != Some(tag)
    ensures FirstIndex(rules, tag) == k
  {
  }

  lemma FirstLiveIsFirstIndex(rules: seq<Rule>, id: string, digest: Digests)
    ensures FirstLive(Project(rules, digest), OfTag(ManagedTag(id))) == FirstIndex(rules, ManagedTag(id))
  {
    FirstIsUnique(Project(rules, digest), OfTag(ManagedTag(id)), FirstIndex(rules, ManagedTag(id)));
  }

  // The rule is what the entry asks for, as far as digests tell.
  predicate Meets(e: Entry, r: Rule, digest: Digests)
    requires GoodEntry(e)
  {
    && Selects(r, e.selector.value) && digest(e.selector.value, r.fields[e.selector.value]) == digest(e.selector.value, e.value.value)
    && (if r.outbound.Some? then r.outbound.value else "") == e.outbound.value
  }

  // What the analysis says of a good entry, in terms of the rules themselves.
  lemma ComparisonOfGoodEntry(e: Entry, rules: seq<Rule>, digest: Digests)
    requires GoodEntry(e)
    ensures var k := FirstIndex(rules, TagOf(e));
      Compare(e, Project(rules, digest), digest) ==
        if k == |rules| then Some(Missing(CleanOf(e)))
        else if Meets(e, rules[k], digest) then None
        else Some(Drifted(k, CleanOf(e)))
  {
    FirstLiveIsFirstIndex(rules, e.id.value, digest);
    var k := FirstIndex(rules, TagOf(e));
    if k < |rules| {
      assert Project(rules, digest)[k] == SafeOf(k, rules[k], digest);
    }
  }

  function CleanOf(e: Entry): Entry {
    Entry(e.id, NonEmpty(e.tag), e.selector, e.value, e.outbound)
  }

  // The operation planned for a finding about a good entry.
  lemma SafeIsCanonical(e: Entry, index: nat, count: nat)
    requires GoodEntry(e)
    ensures OpOf(Missing(CleanOf(e)), count) == Insert(e.id.value, Some(count), e.selector, e.value, e.outbound)
    ensures OpOf(Drifted(index, CleanOf(e)), count) == Replace(e.id.value, index, e.selector, e.value, e.outbound)
    ensures SafeParams(OpOf(Missing(CleanOf(e)), count)) && SafeParams(OpOf(Drifted(index, CleanOf(e)), count))
    ensures ValidOp(OpOf(Missing(CleanOf(e)), count)) && ValidOp(OpOf(Drifted(index, CleanOf(e)), count))
  {
    IdIsSafe(e.id.value);
  }

  lemma {:induction false} OtherTagAfterInsert(rules: seq<Rule>, p: nat, r: Rule, tag: string)
    requires p <= |rules| && r.tag != Some(tag)
    ensures FirstWith(InsertAt(rules, p, r), tag) == FirstWith(rules, tag)
  {
    var after := InsertAt(rules, p, r);
    var k := FirstIndex(rules, tag);
    var k' := if k < p then k else k + 1;
    forall i | 0 <= i < k' ensures after[i].tag != Some(tag) {
      assert after[i] == if i < p then rules[i] else if i == p then r else rules[i - 1];
    }
    FirstIndexIsUnique(after, tag, k');
  }

  lemma {:induction false} OwnTagAfterInsert(rules: seq<Rule>, p: nat, r: Rule, tag: string)
    requires p <= |rules| && r.tag == Some(tag) && FirstIndex(rules, tag) >= p
    ensures FirstWith(InsertAt(rules, p, r), tag) == Some(r)
  {
    var after := InsertAt(rules, p, r);
    assert forall i :: 0 <= i < p ==> after[i] == rules[i];
    FirstIndexIsUnique(after, tag, p);
  }

  lemma FirstAfterReplace(rules: seq<Rule>, i: nat, r: Rule, tag: string)
    requires i < |rules| && r.tag == rules[i].tag
    ensures r.tag != Some(tag) ==> FirstWith(rules[i := r], tag) == FirstWith(rules, tag)
    ensures i == FirstIndex(rules, tag) ==> FirstWith(rules[i := r], tag) == Some(r)
  {
    FirstIndexIsUnique(rules[i := r], tag, FirstIndex(rules, tag));
  }

  // After the operations of the first `k` entries: the live positions keep their
  // tags, those entries are met, and the others are met or find what they found before.
  ghost predicate Progress(live: seq<Rule>, intent: seq<Entry>, k: nat, now: seq<Rule>, digest: Digests)
    requires k <= |intent| && GoodIntent(intent, digest)
  {
    && |live| <= |now| && (forall i :: 0 <= i < |live| ==> now[i].tag == live[i].tag)
    && (forall j :: 0 <= j < k ==> IsMet(intent[j], now, digest))
    && (forall j :: 0 <= j < |intent| ==> IsMet(intent[j], now, digest) || FindsTheSame(intent[j], live, now))
  }

  predicate FindsTheSame(e: Entry, live: seq<Rule>, now: seq<Rule>)
    requires GoodEntry(e)
  {
    FirstWith(now, TagOf(e)) == FirstWith(live, TagOf(e))
  }

  predicate IsMet(e: Entry, rules: seq<Rule>, digest: Digests)
    requires GoodEntry(e)
  {
    FirstWith(rules, TagOf(e)).Some? && Meets(e, FirstWith(rules, TagOf(e)).value, digest)
  }

  // The entry already finds what it wants.
  lemma MetEntryProgresses(live: seq<Rule>, intent: seq<Entry>, k: nat, now: seq<Rule>, digest: Digests)
    requires k < |intent| && GoodIntent(intent, digest) && Progress(live, intent, k, now, digest)
    requires IsMet(intent[k], live, digest)
    ensures Progress(live, intent, k + 1, now, digest)
  {
    assert IsMet(intent[k], now, digest) || FindsTheSame(intent[k], live, now);
  }

  // One rule is put first under the tag of an entry, and it meets that entry.
  lemma PutProgresses(live: seq<Rule>, intent: seq<Entry>, k: nat, now: seq<Rule>, after: seq<Rule>, r: Rule, digest: Digests)
    requires k < |intent| && GoodIntent(intent, digest) && Progress(live, intent, k, now, digest)
    requires |live| <= |after| && forall i :: 0 <= i < |live| ==> after[i].tag == live[i].tag
    requires FirstWith(after, TagOf(intent[k])) == Some(r) && Meets(intent[k], r, digest)
    requires forall id: string :: id != intent[k].id.value ==> FirstWith(after, ManagedTag(id)) == FirstWith(now, ManagedTag(id))
    ensures Progress(live, intent, k + 1, after, digest)
  {
    forall j | 0 <= j < |intent|
      ensures IsMet(intent[j], after, digest) || (FindsTheSame(intent[j], live, after) && j > k)
    {
      if intent[j].id == intent[k].id {
        assert SameWish(intent[k], intent[j], digest);
      } else {
        assert FirstWith(after, ManagedTag(intent[j].id.value)) == FirstWith(now, ManagedTag(intent[j].id.value));
        assert IsMet(intent[j], now, digest) || FindsTheSame(intent[j], live, now);
      }
    }
  }

  lemma InsertProgresses(live: seq<Rule>, intent: seq<Entry>, k: nat, now: seq<Rule>, op: Op, digest: Digests)
    requires k < |intent| && GoodIntent(intent, digest) && Progress(live, intent, k, now, digest)
    requires FirstWith(live, TagOf(intent[k])) == None
    requires op == Insert(intent[k].id.value, Some(|live|), intent[k].selector, intent[k].value, intent[k].outbound)
    ensures CompileOp(now, op).Ok? && Progress(live, intent, k + 1, CompileOp(now, op).value, digest)
  {
    var r := NewRule(op);
    var after := InsertAt(now, |live|, r);
    assert FirstIndex(now, TagOf(intent[k])) >= |live|;
    OwnTagAfterInsert(now, |live|, r, TagOf(intent[k]));
    forall id: string | id != intent[k].id.value ensures FirstWith(after, ManagedTag(id)) == FirstWith(now, ManagedTag(id)) {
      TagsAreDistinct(id, intent[k].id.value);
      OtherTagAfterInsert(now, |live|, r, ManagedTag(id));
    }
    forall i | 0 <= i < |live| ensures after[i].tag == live[i].tag {
      assert after[i] == now[i];
    }
    PutProgresses(live, intent, k, now, after, r, digest);
  }

  lemma RetargetedMeets(e: Entry, r: Rule, op: Op, digest: Digests)
    requires GoodEntry(e) && op.Replace? && op.selector == e.selector && op.value == e.value && op.outbound == e.outbound
    ensures Meets(e, Retargeted(r, op), digest) && Retargeted(r, op).tag == r.tag
  {
  }

  lemma {:induction false} ReplacedUnderTag(rules: seq<Rule>, id: string, i: nat, r: Rule)
    requires i < |rules| && i == FirstIndex(rules, ManagedTag(id)) && r.tag == rules[i].tag
    ensures FirstWith(rules[i := r], ManagedTag(id)) == Some(r)
    ensures forall other: string :: other != id ==> FirstWith(rules[i := r], ManagedTag(other)) == FirstWith(rules, ManagedTag(other))
  {
    FirstAfterReplace(rules, i, r, ManagedTag(id));
    forall other: string | other != id
      ensures FirstWith(rules[i := r], ManagedTag(other)) == FirstWith(rules, ManagedTag(other))
    {
      TagsAreDistinct(other, id);
      FirstAfterReplace(rules, i, r, ManagedTag(other));
    }
  }

  lemma {:induction false} ReplaceProgresses(live: seq<Rule>, intent: seq<Entry>, k: nat, now: seq<Rule>, op: Op, digest: Digests)
    requires k < |intent| && GoodIntent(intent, digest) && Progress(live, intent, k, now, digest)
    requires op.Replace? && op.index == FirstIndex(live, TagOf(intent[k])) < |live|
    requires op == Replace(intent[k].id.value, op.index, intent[k].selector, intent[k].value, intent[k].outbound)
    ensures CompileOp(now, op).Ok? && Progress(live, intent, k + 1, CompileOp(now, op).value, digest)
  {
    FirstIndexIsUnique(now, TagOf(intent[k]), op.index);
    var r := Retargeted(now[op.index], op);
    RetargetedMeets(intent[k], now[op.index], op, digest);
    ReplacedUnderTag(now, intent[k].id.value, op.index, r);
    PutProgresses(live, intent, k, now, now[op.index := r], r, digest);
  }

  lemma PlanExtends(found: seq<Finding>, f: Finding, count: nat)
    ensures Plan(found + [f], count) == Plan(found, count) + if SafeParams(OpOf(f, count)) then [OpOf(f, count)] else []
  {
    assert (found + [f])[..|found|] == found;
  }

  lemma CompileExtends(rules: seq<Rule>, ops: seq<Op>, op: Op)
    requires CompileAll(rules, ops).Ok?
    ensures CompileAll(rules, ops + [op]) == CompileOp(CompileAll(rules, ops).value, op)
  {
    assert (ops + [op])[..|ops|] == ops;
  }

  // Entry by entry, the planned operations compile and make progress.
  lemma {:induction false} PlanProgresses(live: seq<Rule>, intent: seq<Entry>, k: nat, digest: Digests)
    requires k <= |intent| && GoodIntent(intent, digest)
    ensures var ops := Operations(intent[..k], live, digest);
      && (forall op :: op in ops ==> ValidOp(op))
      && CompileAll(live, ops).Ok? && Progress(live, intent, k, CompileAll(live, ops).value, digest)
    decreases k
  {
    if k == 0 {
      assert intent[..0] == [];
    } else {
      PlanProgresses(live, intent, k - 1, digest);
      assert intent[..k][..k - 1] == intent[..k - 1];
      PlanStep(live, intent, k - 1, digest);
    }
  }

  lemma PlanStep(live: seq<Rule>, intent: seq<Entry>, k: nat, digest: Digests)
    requires k < |intent| && GoodIntent(intent, digest)
    requires var ops := Operations(intent[..k], live, digest);
      && (forall op :: op in ops ==> ValidOp(op))
      && CompileAll(live, ops).Ok? && Progress(live, intent, k, CompileAll(live, ops).value, digest)
    ensures var ops := Operations(intent[..k + 1], live, digest);
      && (forall op :: op in ops ==> ValidOp(op))
      && CompileAll(live, ops).Ok? && Progress(live, intent, k + 1, CompileAll(live, ops).value, digest)
  {
    var e := intent[k];
    var projection := Project(live, digest);
    var ops := Operations(intent[..k], live, digest);
    var now := CompileAll(live, ops).value;
    assert intent[..k + 1][..k] == intent[..k];
    var last := Compare(e, projection, digest);
    ComparisonOfGoodEntry(e, live, digest);
    if last.None? {
      assert Restores(intent[..k + 1], projection, digest) == Restores(intent[..k], projection, digest);
      MetEntryProgresses(live, intent, k, now, digest);
    } else {
      assert Restores(intent[..k + 1], projection, digest) == Restores(intent[..k], projection, digest) + [last.value];
      SafeIsCanonical(e, FirstIndex(live, TagOf(e)), |live|);
      PlanExtends(Restores(intent[..k], projection, digest), last.value, |live|);
      var op := OpOf(last.value, |live|);
      CompileExtends(live, ops, op);
      if op.Insert? {
        InsertProgresses(live, intent, k, now, op, digest);
      } else {
        ReplaceProgresses(live, intent, k, now, op, digest);
      }
    }
  }

  ghost predicate AllMet(intent: seq<Entry>, rules: seq<Rule>, digest: Digests)
    requires forall i :: 0 <= i < |intent| ==> GoodEntry(intent[i])
  {
    forall i :: 0 <= i < |intent| ==> IsMet(intent[i], rules, digest)
  }

  // There is nothing to restore exactly when every entry is met.
  lemma {:induction false} NothingToRestoreIff(rules: seq<Rule>, intent: seq<Entry>, digest: Digests)
    requires forall i :: 0 <= i < |intent| ==> GoodEntry(intent[i])
    ensures Restores(intent, Project(rules, digest), digest) == [] <==> AllMet(intent, rules, digest)
    decreases |intent|
  {
    if intent != [] {
      var n := |intent| - 1;
      var init := intent[..n];
      assert init + [intent[n]] == intent;
      NothingToRestoreIff(rules, init, digest);
      OneMoreMet(rules, init, intent[n], digest);
    }
  }

  lemma {:induction false} OneMoreMet(rules: seq<Rule>, init: seq<Entry>, e: Entry, digest: Digests)
    requires (forall i :: 0 <= i < |init| ==> GoodEntry(init[i])) && GoodEntry(e)
    requires Restores(init, Project(rules, digest), digest) == [] <==> AllMet(init, rules, digest)
    ensures Restores(init + [e], Project(rules, digest), digest) == [] <==> AllMet(init + [e], rules, digest)
  {
    MetIff(e, rules, digest);
    RestoresExtends(init, e, Project(rules, digest), digest);
    assert (init + [e])[|init|] == e;
    if AllMet(init + [e], rules, digest) {
      forall i | 0 <= i < |init| ensures IsMet(init[i], rules, digest) { assert (init + [e])[i] == init[i]; }
    }
  }

  lemma MetIff(e: Entry, rules: seq<Rule>, digest: Digests)
    requires GoodEntry(e)
    ensures Compare(e, Project(rules, digest), digest).None? <==> IsMet(e, rules, digest)
  {
    ComparisonOfGoodEntry(e, rules, digest);
  }

  // One step: the planned operations always compile, and after them the analysis
  // finds nothing to restore. So every automatic request that the root proof
  // admits leads to the fixpoint.
  lemma RestoreConvergesInOneStep(live: seq<Rule>, intent: seq<Entry>, requested: seq<WireOp>, digest: Digests)
    requires GoodIntent(intent, digest) && |live| <= MAX_RULES && RootProofAdmits(requested, intent, live, digest)
    ensures forall op :: op in Bare(requested) ==> ValidOp(op)
    ensures CompileAll(live, Bare(requested)).Ok?
    ensures Restores(intent, Project(CompileAll(live, Bare(requested)).value, digest), digest) == []
    ensures Operations(intent, CompileAll(live, Bare(requested)).value, digest) == []
  {
    assert intent[..|intent|] == intent;
    AdmittedAreTheRootsOwn(requested, intent, live, digest);
    PlanProgresses(live, intent, |intent|, digest);
    var after := CompileAll(live, Bare(requested)).value;
    forall i | 0 <= i < |intent| ensures IsMet(intent[i], after, digest) {}
    NothingToRestoreIff(after, intent, digest);
  }

  // A request carries between one and 32 operations, and the root accepts no part of
  // what it recomputes: beyond 32 differences nothing is ever restored automatically.
  lemma RestorableIff(live: seq<Rule>, intent: seq<Entry>, digest: Digests)
    requires GoodIntent(intent, digest)
    ensures (exists requested :: ValidOperations(Bare(requested)) && RootProofAdmits(requested, intent, live, digest))
            <==> 1 <= |Operations(intent, live, digest)| <= MAX_OPERATIONS
  {
    var own := Operations(intent, live, digest);
    assert intent[..|intent|] == intent;
    PlanProgresses(live, intent, |intent|, digest);
    BareUndoesMarked(own);
    AdmittedAreTheRootsOwn(Marked(own), intent, live, digest);
    forall requested | RootProofAdmits(requested, intent, live, digest) ensures Bare(requested) == own {
      AdmittedAreTheRootsOwn(requested, intent, live, digest);
    }
  }

  // ---- intents that the root never agrees with ------------------------------------------------

  function AsList(v: Value): Value {
    if v.Text? then List([v.text]) else v
  }

  // What sanitising makes of a good entry.
  lemma GoodEntrySanitized(e: Entry)
    requires GoodEntry(e)
    ensures SanitizeEntry(e) ==
      if e.selector.value == Source then None
      else Some(Entry(e.id, NonEmpty(e.tag), e.selector, Some(AsList(e.value.value)), e.outbound))
    ensures SanitizeEntry(e).Some? ==> GoodEntry(SanitizeEntry(e).value)
  {
  }

  // Not a `source`, and its value written as a list.
  predicate Plain(e: Entry)
    requires GoodEntry(e)
  {
    e.selector.value != Source && e.value.value.List?
  }

  lemma RestoresExtends(intent: seq<Entry>, e: Entry, live: seq<SafeRule>, digest: Digests)
    ensures Restores(intent + [e], live, digest) ==
      Restores(intent, live, digest) + if Compare(e, live, digest).Some? then [Compare(e, live, digest).value] else []
  {
    assert (intent + [e])[..|intent|] == intent;
  }

  // The operation planned for one entry, if any.
  function Wish(e: Entry, rules: seq<Rule>, digest: Digests): seq<Op>
    requires GoodEntry(e)
  {
    var k := FirstIndex(rules, TagOf(e));
    if k == |rules| then [Insert(e.id.value, Some(|rules|), e.selector, e.value, e.outbound)]
    else if Meets(e, rules[k], digest) then []
    else [Replace(e.id.value, k, e.selector, e.value, e.outbound)]
  }

  lemma {:induction false} PlanOfOneMore(intent: seq<Entry>, e: Entry, rules: seq<Rule>, digest: Digests)
    requires GoodEntry(e)
    ensures Operations(intent + [e], rules, digest) == Operations(intent, rules, digest) + Wish(e, rules, digest)
  {
    var live := Project(rules, digest);
    var found := Restores(intent, live, digest);
    RestoresExtends(intent, e, live, digest);
    ComparisonOfGoodEntry(e, rules, digest);
    SafeIsCanonical(e, FirstIndex(rules, TagOf(e)), |rules|);
    if Compare(e, live, digest).Some? {
      PlanExtends(found, Compare(e, live, digest).value, |rules|);
    } else {
      assert found + [] == found;
      assert Plan(found, |rules|) + [] == Plan(found, |rules|);
    }
  }

  lemma WishesUnlessMet(e: Entry, rules: seq<Rule>, digest: Digests)
    requires GoodEntry(e)
    ensures Wish(e, rules, digest) == [] <==> IsMet(e, rules, digest)
    ensures |Wish(e, rules, digest)| <= 1
  {
  }

  function WithList(e: Entry): (listed: Entry)
    requires GoodEntry(e)
    ensures GoodEntry(listed)
  {
    e.(value := Some(AsList(e.value.value)))
  }

  // What the Runtime plans for one entry, which it has sanitised.
  function SpooledFor(e: Entry, rules: seq<Rule>, digest: Digests): seq<Op>
    requires GoodEntry(e)
  {
    if e.selector.value == Source then [] else Wish(WithList(e), rules, digest)
  }

  lemma {:induction false} OneMoreSpooled(init: seq<Entry>, e: Entry, rules: seq<Rule>, digest: Digests)
    requires GoodEntry(e)
    ensures Operations(Sanitize(init + [e]), rules, digest) == Operations(Sanitize(init), rules, digest) + SpooledFor(e, rules, digest)
  {
    SanitizeExtends(init, e);
    GoodEntrySanitized(e);
    if SanitizeEntry(e).Some? {
      PlanOfOneMore(Sanitize(init), SanitizeEntry(e).value, rules, digest);
    } else {
      assert Sanitize(init) + [] == Sanitize(init);
      assert Operations(Sanitize(init), rules, digest) + [] == Operations(Sanitize(init), rules, digest);
    }
  }

  predicate PlainOp(op: Op) {
    (op.Insert? || op.Replace?) && op.selector != Some(Source) && op.value.Some? && op.value.value.List?
  }

  // Good entries only; by recursion, like what is planned for them.
  predicate AllGood(intent: seq<Entry>) {
    intent == [] || (AllGood(intent[..|intent| - 1]) && GoodEntry(intent[|intent| - 1]))
  }

  lemma {:induction false} AllGoodFrom(intent: seq<Entry>)
    requires forall i :: 0 <= i < |intent| ==> GoodEntry(intent[i])
    ensures AllGood(intent)
    decreases |intent|
  {
    if intent != [] { AllGoodFrom(intent[..|intent| - 1]); }
  }

  // What the root plans, and what the Runtime spools, entry by entry.
  function Wishes(intent: seq<Entry>, rules: seq<Rule>, digest: Digests): seq<Op>
    requires AllGood(intent)
  {
    if intent == [] then [] else Wishes(intent[..|intent| - 1], rules, digest) + Wish(intent[|intent| - 1], rules, digest)
  }

  function Spooled(intent: seq<Entry>, rules: seq<Rule>, digest: Digests): seq<Op>
    requires AllGood(intent)
  {
    if intent == [] then [] else Spooled(intent[..|intent| - 1], rules, digest) + SpooledFor(intent[|intent| - 1], rules, digest)
  }

  lemma {:induction false} PlanOfLast(intent: seq<Entry>, rules: seq<Rule>, digest: Digests)
    requires intent != [] && GoodEntry(intent[|intent| - 1])
    ensures Operations(intent, rules, digest) ==
      Operations(intent[..|intent| - 1], rules, digest) + Wish(intent[|intent| - 1], rules, digest)
  {
    var init, e := intent[..|intent| - 1], intent[|intent| - 1];
    assert intent == init + [e];
    PlanOfOneMore(init, e, rules, digest);
  }

  lemma {:induction false} SpooledOfLast(intent: seq<Entry>, rules: seq<Rule>, digest: Digests)
    requires intent != [] && GoodEntry(intent[|intent| - 1])
    ensures Operations(Sanitize(intent), rules, digest) ==
      Operations(Sanitize(intent[..|intent| - 1]), rules, digest) + SpooledFor(intent[|intent| - 1], rules, digest)
  {
    var init, e := intent[..|intent| - 1], intent[|intent| - 1];
    assert intent == init + [e];
    OneMoreSpooled(init, e, rules, digest);
  }

  lemma {:induction false} PlannedAreWishes(intent: seq<Entry>, rules: seq<Rule>, digest: Digests)
    requires AllGood(intent)
    ensures Operations(intent, rules, digest) == Wishes(intent, rules, digest)
    decreases |intent|
  {
    if intent != [] {
      PlannedAreWishes(intent[..|intent| - 1], rules, digest);
      PlanOfLast(intent, rules, digest);
    }
  }

  lemma {:induction false} SanitizedAreSpooled(intent: seq<Entry>, rules: seq<Rule>, digest: Digests)
    requires AllGood(intent)
    ensures Operations(Sanitize(intent), rules, digest) == Spooled(intent, rules, digest)
    decreases |intent|
  {
    if intent != [] {
      SanitizedAreSpooled(intent[..|intent| - 1], rules, digest);
      SpooledOfLast(intent, rules, digest);
    }
  }

  lemma {:induction false} SpooledArePlain(intent: seq<Entry>, rules: seq<Rule>, digest: Digests)
    requires AllGood(intent)
    ensures forall op :: op in Spooled(intent, rules, digest) ==> PlainOp(op)
    decreases |intent|
  {
    if intent != [] { SpooledArePlain(intent[..|intent| - 1], rules, digest); }
  }

  lemma {:induction false} WishIsPlanned(intent: seq<Entry>, i: nat, rules: seq<Rule>, digest: Digests)
    requires AllGood(intent) && i < |intent| && GoodEntry(intent[i]) && Wish(intent[i], rules, digest) != []
    ensures Wish(intent[i], rules, digest)[0] in Wishes(intent, rules, digest)
    decreases |intent|
  {
    if i < |intent| - 1 { WishIsPlanned(intent[..|intent| - 1], i, rules, digest); }
  }

  // An entry that is not plain has the request refused wherever the rules do not meet
  // it: the root plans an operation that the Runtime cannot have spooled.
  lemma {:induction false} UnplainIntentIsRefused(intent: seq<Entry>, i: nat, rules: seq<Rule>, digest: Digests)
    requires (forall j :: 0 <= j < |intent| ==> GoodEntry(intent[j])) && i < |intent|
    requires !Plain(intent[i]) && !IsMet(intent[i], rules, digest)
    ensures !RootProofAdmits(Marked(Produced(ProjectTopology(rules, intent, digest), digest)), intent, rules, digest)
  {
    AllGoodFrom(intent);
    ProducerMeetsProof(intent, rules, digest);
    PlannedAreWishes(intent, rules, digest);
    SanitizedAreSpooled(intent, rules, digest);
    WishesUnlessMet(intent[i], rules, digest);
    WishIsPlanned(intent, i, rules, digest);
    SpooledArePlain(intent, rules, digest);
    assert !PlainOp(Wish(intent[i], rules, digest)[0]);
  }

  // Neither the root nor the Runtime plans anything for the entry.
  predicate LeftAlone(e: Entry, rules: seq<Rule>, digest: Digests)
    requires GoodEntry(e)
  {
    IsMet(e, rules, digest) && (e.selector.value != Source ==> IsMet(WithList(e), rules, digest))
  }

  // The entry does not stand in the way of admission.
  predicate Untroubled(e: Entry, rules: seq<Rule>, digest: Digests)
    requires GoodEntry(e)
  {
    Plain(e) || LeftAlone(e, rules, digest)
  }

  lemma SpooledIff(e: Entry, rules: seq<Rule>, digest: Digests)
    requires GoodEntry(e) && (Plain(e) || IsMet(e, rules, digest))
    ensures |Wish(e, rules, digest)| <= |SpooledFor(e, rules, digest)|
    ensures Wish(e, rules, digest) == SpooledFor(e, rules, digest) <==> Untroubled(e, rules, digest)
  {
    WishesUnlessMet(e, rules, digest);
    WishesUnlessMet(WithList(e), rules, digest);
  }

  lemma EqualPartByPart<T>(a: seq<T>, x: seq<T>, b: seq<T>, y: seq<T>)
    requires |a| <= |b| && |x| <= |y|
    ensures a + x == b + y <==> a == b && x == y
  {
    if a + x == b + y {
      assert |a| == |b|;
      assert (a + x)[..|a|] == a && (b + y)[..|b|] == b;
      assert (a + x)[|a|..] == x && (b + y)[|b|..] == y;
    }
  }

  predicate AllUntroubled(intent: seq<Entry>, rules: seq<Rule>, digest: Digests)
    requires AllGood(intent)
  {
    intent == [] || (AllUntroubled(intent[..|intent| - 1], rules, digest) && Untroubled(intent[|intent| - 1], rules, digest))
  }

  predicate AllPlainOrMet(intent: seq<Entry>, rules: seq<Rule>, digest: Digests)
    requires AllGood(intent)
  {
    intent == [] || (AllPlainOrMet(intent[..|intent| - 1], rules, digest)
                     && (Plain(intent[|intent| - 1]) || IsMet(intent[|intent| - 1], rules, digest)))
  }

  lemma {:induction false} SameOperationsIff(intent: seq<Entry>, rules: seq<Rule>, digest: Digests)
    requires AllGood(intent) && AllPlainOrMet(intent, rules, digest)
    ensures |Wishes(intent, rules, digest)| <= |Spooled(intent, rules, digest)|
    ensures Wishes(intent, rules, digest) == Spooled(intent, rules, digest) <==> AllUntroubled(intent, rules, digest)
    decreases |intent|
  {
    if intent != [] {
      var init, e := intent[..|intent| - 1], intent[|intent| - 1];
      SameOperationsIff(init, rules, digest);
      SpooledIff(e, rules, digest);
      EqualPartByPart(Wishes(init, rules, digest), Wish(e, rules, digest), Spooled(init, rules, digest), SpooledFor(e, rules, digest));
    }
  }

  lemma {:induction false} AllUntroubledAt(intent: seq<Entry>, rules: seq<Rule>, digest: Digests, i: nat)
    requires AllGood(intent) && AllUntroubled(intent, rules, digest) && i < |intent|
    ensures GoodEntry(intent[i]) && Untroubled(intent[i], rules, digest)
    decreases |intent|
  {
    if i < |intent| - 1 { AllUntroubledAt(intent[..|intent| - 1], rules, digest, i); }
  }

  // The first entry, from behind, that stands in the way of one or the other.
  lemma {:induction false} TroubledAt(intent: seq<Entry>, rules: seq<Rule>, digest: Digests) returns (i: nat)
    requires AllGood(intent) && !(AllUntroubled(intent, rules, digest) && AllPlainOrMet(intent, rules, digest))
    ensures i < |intent| && GoodEntry(intent[i]) && !Untroubled(intent[i], rules, digest)
    ensures AllPlainOrMet(intent, rules, digest) || (!Plain(intent[i]) && !IsMet(intent[i], rules, digest))
    decreases |intent|
  {
    var n := |intent| - 1;
    var bad := if AllPlainOrMet(intent, rules, digest) then Untroubled(intent[n], rules, digest)
               else Plain(intent[n]) || IsMet(intent[n], rules, digest);
    if bad { i := TroubledAt(intent[..n], rules, digest); } else { i := n; }
  }

  // Exactly when what the Runtime produces over these rules is admitted: the rules meet
  // every entry that is not plain, as it stands and as sanitising leaves it.
  lemma {:induction false} AdmittedIff(intent: seq<Entry>, rules: seq<Rule>, digest: Digests)
    requires forall i :: 0 <= i < |intent| ==> GoodEntry(intent[i])
    ensures RootProofAdmits(Marked(Produced(ProjectTopology(rules, intent, digest), digest)), intent, rules, digest)
            <==> forall i :: 0 <= i < |intent| ==> Untroubled(intent[i], rules, digest)
  {
    AllGoodFrom(intent);
    if AllPlainOrMet(intent, rules, digest) {
      ProducerMeetsProof(intent, rules, digest);
      PlannedAreWishes(intent, rules, digest);
      SanitizedAreSpooled(intent, rules, digest);
      SameOperationsIff(intent, rules, digest);
      if AllUntroubled(intent, rules, digest) {
        forall i | 0 <= i < |intent| ensures Untroubled(intent[i], rules, digest) { AllUntroubledAt(intent, rules, digest, i); }
      } else {
        var i := TroubledAt(intent, rules, digest);
      }
    } else {
      var i := TroubledAt(intent, rules, digest);
      UnplainIntentIsRefused(intent, i, rules, digest);
    }
  }

  // And when it is admitted whatever the rules are.
  lemma {:induction false} AlwaysAdmittedIff(intent: seq<Entry>, digest: Digests)
    requires forall i :: 0 <= i < |intent| ==> GoodEntry(intent[i])
    ensures (forall rules :: RootProofAdmits(Marked(Produced(ProjectTopology(rules, intent, digest), digest)), intent, rules, digest))
            <==> forall i :: 0 <= i < |intent| ==> Plain(intent[i])
  {
    if forall i :: 0 <= i < |intent| ==> Plain(intent[i]) {
      forall rules
        ensures RootProofAdmits(Marked(Produced(ProjectTopology(rules, intent, digest), digest)), intent, rules, digest)
      {
        AdmittedIff(intent, rules, digest);
      }
    } else {
      var i :| 0 <= i < |intent| && !Plain(intent[i]);
      UnplainIntentIsRefused(intent, i, [], digest);
    }
  }

  // ---- entries without an identity ------------------------------------------------------------

  lemma {:induction false} FindingIsPlanned(found: seq<Finding>, f: Finding, count: nat)
    requires f in found && SafeParams(OpOf(f, count))
    ensures OpOf(f, count) in Plan(found, count)
    decreases |found|
  {
    var n := |found| - 1;
    assert found == found[..n] + [found[n]];
    if f != found[n] { FindingIsPlanned(found[..n], f, count); }
  }

  lemma {:induction false} DifferenceIsFound(intent: seq<Entry>, i: nat, live: seq<SafeRule>, digest: Digests)
    requires i < |intent| && Compare(intent[i], live, digest).Some?
    ensures Compare(intent[i], live, digest).value in Restores(intent, live, digest)
    decreases |intent|
  {
    if i < |intent| - 1 { DifferenceIsFound(intent[..|intent| - 1], i, live, digest); }
  }

  // An entry that is looked up by a legacy tag, because it has no valid identity.
  predicate Legacy(e: Entry) {
    && (e.id.None? || !ValidId(e.id.value)) && e.tag.Some? && e.tag.value != ""
    && e.selector.Some? && e.selector.value in SUPPORTED
    && (e.value == Some(Null) || SafeParam(e.value)) && (e.outbound.Some? ==> SafeString(e.outbound.value))
  }

  // The rule carries its tag and is what it asks for, as far as digests tell.
  predicate MeetsLegacy(e: Entry, r: Rule, digest: Digests)
    requires Legacy(e)
  {
    var f := e.selector.value;
    && Managed(r) && r.tag == e.tag
    && Selects(r, f) && digest(f, r.fields[f]) == digest(f, if e.value.Some? then e.value.value else Null)
    && (e.outbound.Some? ==> (if r.outbound.Some? then r.outbound.value else "") == e.outbound.value)
  }

  // Without a rule that meets it, an operation without an identity is planned for it.
  lemma LegacyIsPlanned(e: Entry, rules: seq<Rule>, digest: Digests)
    requires Legacy(e) && forall r :: r in rules ==> !MeetsLegacy(e, r, digest)
    ensures Compare(e, Project(rules, digest), digest).Some?
    ensures var op := OpOf(Compare(e, Project(rules, digest), digest).value, |rules|);
      SafeParams(op) && (op.Insert? || op.Replace?) && op.id == ""
  {
    var live := Project(rules, digest);
    var k := FirstLive(live, OfTag(e.tag.value));
    if k < |live| { assert !MeetsLegacy(e, rules[k], digest); }
  }

  // No request may carry such an operation: as long as no rule meets the entry, nothing
  // of the whole intent is restored automatically.
  lemma {:induction false} LegacyEntryBlocksAll(intent: seq<Entry>, i: nat, rules: seq<Rule>, requested: seq<WireOp>, digest: Digests)
    requires i < |intent| && Legacy(intent[i]) && forall r :: r in rules ==> !MeetsLegacy(intent[i], r, digest)
    requires RootProofAdmits(requested, intent, rules, digest)
    ensures !ValidOperations(Bare(requested))
  {
    LegacyIsPlanned(intent[i], rules, digest);
    var f := Compare(intent[i], Project(rules, digest), digest).value;
    DifferenceIsFound(intent, i, Project(rules, digest), digest);
    FindingIsPlanned(Restores(intent, Project(rules, digest), digest), f, |rules|);
    AdmittedAreTheRootsOwn(requested, intent, rules, digest);
    assert OpOf(f, |rules|) in Bare(requested) && !ValidOp(OpOf(f, |rules|));
  }

  // An identity that ends in a newline passes as valid, and no operation is ever
  // planned for it.
  lemma {:induction false} NewlineIdentityIsNeverPlanned(e: Entry, f: Finding, count: nat)
    requires e.id.Some? && ValidId(e.id.value) && e.id.value[|e.id.value| - 1] == '\n' && f.entry.id == e.id
    ensures !SafeParams(OpOf(f, count))
  {
    ValidIdIsSafeIff(e.id.value);
  }

  // ---- entries that share an identity -----------------------------------------------------------

  // They ask for one rule to be two things at once.
  predicate Conflict(a: Entry, b: Entry, digest: Digests)
    requires GoodEntry(a) && GoodEntry(b)
  {
    && a.id == b.id
    && (a.outbound != b.outbound
        || (a.selector == b.selector && digest(a.selector.value, a.value.value) != digest(b.selector.value, b.value.value)))
  }

  predicate Asks(e: Entry, id: Option<string>, f: Selector) {
    e.id == id && e.selector == Some(f)
  }

  // The selectors that the entries with one identity ask for.
  function Wanted(intent: seq<Entry>, id: Option<string>): map<Selector, Value> {
    if intent == [] then map[]
    else
      var e := intent[|intent| - 1];
      var others := Wanted(intent[..|intent| - 1], id);
      if e.selector.Some? && Asks(e, id, e.selector.value) then others[e.selector.value := Given(e.value)] else others
  }

  lemma {:induction false} WantedHas(intent: seq<Entry>, id: Option<string>, j: nat, f: Selector)
    requires j < |intent| && Asks(intent[j], id, f)
    ensures f in Wanted(intent, id)
    decreases |intent|
  {
    if j < |intent| - 1 { WantedHas(intent[..|intent| - 1], id, j, f); }
  }

  lemma {:induction false} WantedFrom(intent: seq<Entry>, id: Option<string>, f: Selector) returns (i: nat)
    requires f in Wanted(intent, id)
    ensures i < |intent| && Asks(intent[i], id, f) && Given(intent[i].value) == Wanted(intent, id)[f]
    decreases |intent|
  {
    i := |intent| - 1;
    if !Asks(intent[i], id, f) { i := WantedFrom(intent[..i], id, f); }
  }

  function ServingRule(intent: seq<Entry>, e: Entry): Rule {
    Rule(if e.id.Some? then Some(ManagedTag(e.id.value)) else None, Wanted(intent, e.id), e.outbound, map[])
  }

  function Serving(intent: seq<Entry>): seq<Rule> {
    seq(|intent|, i requires 0 <= i < |intent| => ServingRule(intent, intent[i]))
  }

  lemma {:induction false} ServingMeets(intent: seq<Entry>, digest: Digests, j: nat)
    requires forall i :: 0 <= i < |intent| ==> GoodEntry(intent[i])
    requires j < |intent| && forall i :: 0 <= i < |intent| ==> !Conflict(intent[i], intent[j], digest)
    ensures IsMet(intent[j], Serving(intent), digest)
  {
    var rules, e := Serving(intent), intent[j];
    assert GoodEntry(e);
    var k := FirstIndex(rules, TagOf(e));
    assert rules[j].tag == Some(TagOf(e));
    assert k <= j && GoodEntry(intent[k]) && rules[k] == ServingRule(intent, intent[k]);
    TagsAreDistinct(intent[k].id.value, e.id.value);
    WantedHas(intent, e.id, j, e.selector.value);
    var i := WantedFrom(intent, e.id, e.selector.value);
    assert GoodEntry(intent[i]) && !Conflict(intent[i], e, digest) && !Conflict(intent[k], e, digest);
  }

  // Some rules leave nothing to restore exactly when no two entries conflict.
  lemma {:induction false} SettlesIffNoConflict(intent: seq<Entry>, digest: Digests)
    requires forall i :: 0 <= i < |intent| ==> GoodEntry(intent[i])
    ensures (exists rules :: Restores(intent, Project(rules, digest), digest) == [])
            <==> forall i, j :: 0 <= i < |intent| && 0 <= j < |intent| ==> !Conflict(intent[i], intent[j], digest)
  {
    if forall i, j :: 0 <= i < |intent| && 0 <= j < |intent| ==> !Conflict(intent[i], intent[j], digest) {
      forall j | 0 <= j < |intent| ensures IsMet(intent[j], Serving(intent), digest) {
        ServingMeets(intent, digest, j);
      }
      NothingToRestoreIff(Serving(intent), intent, digest);
    } else {
      forall rules ensures Restores(intent, Project(rules, digest), digest) != [] {
        NothingToRestoreIff(rules, intent, digest);
      }
    }
  }

  lemma {:induction false} PairPlan(rules: seq<Rule>, a: Entry, b: Entry, digest: Digests)
    requires GoodEntry(a) && GoodEntry(b)
    ensures Operations([a, b], rules, digest) == Wish(a, rules, digest) + Wish(b, rules, digest)
  {
    var none := Operations([], rules, digest);
    assert none == [];
    PlanOfOneMore([], a, rules, digest);
    assert [] + [a] == [a];
    assert none + Wish(a, rules, digest) == Wish(a, rules, digest);
    PlanOfOneMore([a], b, rules, digest);
    assert [a] + [b] == [a, b];
  }

  lemma {:induction false} CompileOneOrTwo(rules: seq<Rule>, x: Op, y: Op)
    ensures CompileAll(rules, [x]) == CompileOp(rules, x)
    ensures CompileOp(rules, x).Ok? ==> CompileAll(rules, [x, y]) == CompileOp(CompileOp(rules, x).value, y)
  {
    assert [x][..0] == [] && [x, y][..1] == [x];
  }

  // The rule has lost every selector that an operation may set but `kept`.
  predicate OnlySelects(r: Rule, kept: Selector) {
    forall f :: f in SUPPORTED && f != kept ==> f !in r.fields
  }

  // Where the first rule of the pair is afterwards, and what it selects at most.
  ghost predicate LeavesOnly(rules: seq<Rule>, ops: seq<Op>, tag: string, kept: Selector) {
    && CompileAll(rules, ops).Ok?
    && FirstWith(CompileAll(rules, ops).value, tag).Some?
    && OnlySelects(FirstWith(CompileAll(rules, ops).value, tag).value, kept)
  }

  lemma {:induction false} BothInserted(rules: seq<Rule>, a: Entry, b: Entry, digest: Digests)
    requires GoodEntry(a) && GoodEntry(b) && a.id == b.id && FirstIndex(rules, TagOf(a)) == |rules|
    ensures LeavesOnly(rules, Wish(a, rules, digest) + Wish(b, rules, digest), TagOf(a), b.selector.value)
  {
    var x, y := Wish(a, rules, digest)[0], Wish(b, rules, digest)[0];
    CompileOneOrTwo(rules, x, y);
    assert Wish(a, rules, digest) + Wish(b, rules, digest) == [x, y];
    var after := CompileAll(rules, [x, y]).value;
    assert after[|rules|] == NewRule(y);
    FirstIndexIsUnique(after, TagOf(a), |rules|);
  }

  lemma {:induction false} ReplacedLast(rules: seq<Rule>, x: Op, tag: string)
    requires FirstIndex(rules, tag) < |rules|
    requires x.Replace? && x.index == FirstIndex(rules, tag) && ManagedTag(x.id) == tag && Supported(x.selector)
    ensures CompileOp(rules, x).Ok? && FirstIndex(CompileOp(rules, x).value, tag) == x.index
    ensures |CompileOp(rules, x).value| == |rules| && OnlySelects(CompileOp(rules, x).value[x.index], x.selector.value)
  {
    FirstIndexIsUnique(rules[x.index := Retargeted(rules[x.index], x)], tag, x.index);
  }

  lemma {:induction false} ReplacedOnce(rules: seq<Rule>, x: Op, tag: string)
    requires FirstIndex(rules, tag) < |rules| && x.Replace? && x.index == FirstIndex(rules, tag)
    requires ManagedTag(x.id) == tag && Supported(x.selector)
    ensures LeavesOnly(rules, [x], tag, x.selector.value)
  {
    ReplacedLast(rules, x, tag);
    CompileOneOrTwo(rules, x, x);
  }

  lemma {:induction false} ReplacedTwice(rules: seq<Rule>, x: Op, y: Op, tag: string)
    requires FirstIndex(rules, tag) < |rules| && x.Replace? && y.Replace? && x.index == y.index == FirstIndex(rules, tag)
    requires ManagedTag(x.id) == ManagedTag(y.id) == tag && Supported(x.selector) && Supported(y.selector)
    ensures LeavesOnly(rules, [x, y], tag, y.selector.value)
  {
    ReplacedLast(rules, x, tag);
    ReplacedLast(CompileOp(rules, x).value, y, tag);
    CompileOneOrTwo(rules, x, y);
  }

  lemma {:induction false} SomeReplaced(rules: seq<Rule>, a: Entry, b: Entry, digest: Digests)
    requires GoodEntry(a) && GoodEntry(b) && a.id == b.id && FirstIndex(rules, TagOf(a)) < |rules|
    ensures var ops := Wish(a, rules, digest) + Wish(b, rules, digest);
      && (Wish(b, rules, digest) != [] ==> LeavesOnly(rules, ops, TagOf(a), b.selector.value))
      && (Wish(b, rules, digest) == [] && Wish(a, rules, digest) != [] ==> LeavesOnly(rules, ops, TagOf(a), a.selector.value))
  {
    var x, y := Wish(a, rules, digest), Wish(b, rules, digest);
    if x != [] && y != [] {
      ReplacedTwice(rules, x[0], y[0], TagOf(a));
      assert x + y == [x[0], y[0]];
    } else if x != [] {
      ReplacedOnce(rules, x[0], TagOf(a));
      assert x + y == [x[0]];
    } else if y != [] {
      ReplacedOnce(rules, y[0], TagOf(a));
      assert x + y == [y[0]];
    }
  }

  // Two entries with different selectors could share a rule that has both, but the
  // pipeline never gets there: each operation drops the selector of the other one.
  lemma {:induction false} SharedIdentityNeverConverges(rules: seq<Rule>, a: Entry, b: Entry, digest: Digests)
    requires GoodEntry(a) && GoodEntry(b) && a.id == b.id && a.selector != b.selector
    requires Restores([a, b], Project(rules, digest), digest) != []
    ensures var ops := Operations([a, b], rules, digest);
      CompileAll(rules, ops).Ok? && Restores([a, b], Project(CompileAll(rules, ops).value, digest), digest) != []
  {
    PairPlan(rules, a, b, digest);
    NothingToRestoreIff(rules, [a, b], digest);
    assert [a, b][0] == a && [a, b][1] == b;
    if FirstIndex(rules, TagOf(a)) == |rules| {
      BothInserted(rules, a, b, digest);
    } else {
      SomeReplaced(rules, a, b, digest);
    }
    NothingToRestoreIff(CompileAll(rules, Operations([a, b], rules, digest)).value, [a, b], digest);
  }

  // ---- exactly when one step is enough ------------------------------------------------------------

  // After one step of the pipeline from these rules there is nothing left to restore.
  ghost predicate Converges(live: seq<Rule>, intent: seq<Entry>, digest: Digests) {
    var compiled := CompileAll(live, Operations(intent, live, digest));
    compiled.Ok? && Restores(intent, Project(compiled.value, digest), digest) == []
  }

  // With no rules at all, every entry is missing.
  function Inserted(e: Entry): Op
    requires GoodEntry(e)
  {
    Insert(e.id.value, Some(0), e.selector, e.value, e.outbound)
  }

  lemma {:induction false} OneMoreInserted(init: seq<Entry>, e: Entry, digest: Digests)
    requires GoodEntry(e)
    ensures Operations(init + [e], [], digest) == Operations(init, [], digest) + [Inserted(e)]
  {
    PlanOfOneMore(init, e, [], digest);
    assert Wish(e, [], digest) == [Inserted(e)];
  }

  // Where there are no rules, each entry is put before the earlier ones.
  function Stacked(intent: seq<Entry>): seq<Rule>
    requires AllGood(intent)
  {
    if intent == [] then [] else [NewRule(Inserted(intent[|intent| - 1]))] + Stacked(intent[..|intent| - 1])
  }

  lemma {:induction false} OneMoreStacked(init: seq<Entry>, e: Entry, stack: seq<Rule>, digest: Digests)
    requires GoodEntry(e) && CompileAll([], Operations(init, [], digest)) == Ok(stack)
    ensures CompileAll([], Operations(init + [e], [], digest)) == Ok([NewRule(Inserted(e))] + stack)
  {
    OneMoreInserted(init, e, digest);
    CompileExtends([], Operations(init, [], digest), Inserted(e));
    assert InsertAt(stack, 0, NewRule(Inserted(e))) == [NewRule(Inserted(e))] + stack;
  }

  lemma {:induction false} StackOfLast(intent: seq<Entry>, stack: seq<Rule>, digest: Digests)
    requires intent != [] && GoodEntry(intent[|intent| - 1])
    requires CompileAll([], Operations(intent[..|intent| - 1], [], digest)) == Ok(stack)
    ensures CompileAll([], Operations(intent, [], digest)) == Ok([NewRule(Inserted(intent[|intent| - 1]))] + stack)
  {
    var init, e := intent[..|intent| - 1], intent[|intent| - 1];
    assert intent == init + [e];
    OneMoreStacked(init, e, stack, digest);
  }

  lemma {:induction false} StackedIsCompiled(intent: seq<Entry>, digest: Digests)
    requires AllGood(intent)
    ensures CompileAll([], Operations(intent, [], digest)) == Ok(Stacked(intent))
    decreases |intent|
  {
    if intent != [] {
      StackedIsCompiled(intent[..|intent| - 1], digest);
      StackOfLast(intent, Stacked(intent[..|intent| - 1]), digest);
    }
  }

  lemma {:induction false} FirstOfStack(r: Rule, rest: seq<Rule>, tag: string)
    ensures FirstWith([r] + rest, tag) == if r.tag == Some(tag) then Some(r) else FirstWith(rest, tag)
  {
    assert ([r] + rest)[1..] == rest;
  }

  // So of the entries with one identity, the last one is found.
  lemma {:induction false} LastOneIsFound(intent: seq<Entry>, i: nat, id: string) returns (m: nat)
    requires AllGood(intent) && i < |intent| && intent[i].id == Some(id)
    ensures m < |intent| && intent[m].id == Some(id) && GoodEntry(intent[m])
    ensures FirstWith(Stacked(intent), ManagedTag(id)) == Some(NewRule(Inserted(intent[m])))
    decreases |intent|
  {
    var n := |intent| - 1;
    FirstOfStack(NewRule(Inserted(intent[n])), Stacked(intent[..n]), ManagedTag(id));
    if intent[n].id == Some(id) {
      m := n;
    } else {
      TagsAreDistinct(intent[n].id.value, id);
      m := LastOneIsFound(intent[..n], i, id);
    }
  }

  lemma MetBySameRule(e: Entry, last: Entry, digest: Digests)
    requires GoodEntry(e) && GoodEntry(last) && Meets(e, NewRule(Inserted(last)), digest)
    ensures SameWish(e, last, digest)
  {
  }

  lemma {:induction false} ConvergenceNeedsAgreement(intent: seq<Entry>, digest: Digests)
    requires (forall i :: 0 <= i < |intent| ==> GoodEntry(intent[i])) && Converges([], intent, digest)
    ensures GoodIntent(intent, digest)
  {
    AllGoodFrom(intent);
    StackedIsCompiled(intent, digest);
    NothingToRestoreIff(Stacked(intent), intent, digest);
    forall i, j | 0 <= i < |intent| && 0 <= j < |intent| && intent[i].id == intent[j].id
      ensures SameWish(intent[i], intent[j], digest)
    {
      var m := LastOneIsFound(intent, i, intent[i].id.value);
      assert IsMet(intent[i], Stacked(intent), digest) && IsMet(intent[j], Stacked(intent), digest);
      MetBySameRule(intent[i], intent[m], digest);
      MetBySameRule(intent[j], intent[m], digest);
    }
  }

  // One step settles the intent from every list of rules exactly when entries with one
  // identity agree on selector, outbound and value.
  lemma {:induction false} ConvergesIff(intent: seq<Entry>, digest: Digests)
    requires forall i :: 0 <= i < |intent| ==> GoodEntry(intent[i])
    ensures (forall live :: Converges(live, intent, digest)) <==> GoodIntent(intent, digest)
  {
    if GoodIntent(intent, digest) {
      forall live ensures Converges(live, intent, digest) {
        assert intent[..|intent|] == intent;
        PlanProgresses(live, intent, |intent|, digest);
        NothingToRestoreIff(CompileAll(live, Operations(intent, live, digest)).value, intent, digest);
      }
    } else if forall live :: Converges(live, intent, digest) {
      ConvergenceNeedsAgreement(intent, digest);
    }
  }
}
