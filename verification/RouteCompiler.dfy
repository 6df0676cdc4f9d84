// python/rill_xray_agent/route_executor.py, RouteMutationCompiler: typed
// operations applied to routing.rules, a list that routes on the first match.

module RouteCompiler {
  import opened Collections
  import opened RouteContract

  datatype Fault = TooManyRules | InvalidOperation | PositionOutOfRange | IndexOutOfRange | NotManaged
                 | IdentityMismatch | UnsupportedSelector | ToIndexOutOfRange

  // ---- _validate_operation ---------------------------------------------------------

  predicate ShortSafe(s: string) {
    SafeString(s) && |s| <= MAX_STRING
  }

  predicate ValidValue(v: Value) {
    match v
    case Text(s) => ShortSafe(s)
    case List(items) => 1 <= |items| <= MAX_SELECTOR_LIST && forall i :: 0 <= i < |items| ==> ShortSafe(items[i])
    case _ => false
  }

  predicate ValidOp(op: Op) {
    match op
    case Insert(id, _, _, value, outbound) =>
      ValidId(id) && ShortSafe(id) && (value.Some? ==> ValidValue(value.value)) && (outbound.Some? ==> ShortSafe(outbound.value))
    case Replace(id, _, _, value, outbound) =>
      ValidId(id) && ShortSafe(id) && (value.Some? ==> ValidValue(value.value)) && (outbound.Some? ==> ShortSafe(outbound.value))
    case _ => true
  }

  // The operations of a request, as validate_apply_request wants them.
  predicate ValidOperations(ops: seq<Op>) {
    1 <= |ops| <= MAX_OPERATIONS && forall op :: op in ops ==> ValidOp(op)
  }

  // ---- one operation -----------------------------------------------------------------

  predicate Supported(selector: Option<Selector>) {
    selector.Some? && selector.value in SUPPORTED
  }

  function Target(value: Option<Value>): Value {
    if value.Some? then value.value else Null
  }

  function NewRule(op: Op): Rule
    requires op.Insert? && Supported(op.selector)
  {
    Rule(Some(ManagedTag(op.id)), map[op.selector.value := Target(op.value)], op.outbound, map["type" := "field"])
  }

  function Retargeted(r: Rule, op: Op): Rule
    requires op.Replace? && Supported(op.selector)
  {
    r.(fields := (r.fields - SUPPORTED)[op.selector.value := Target(op.value)],
       outbound := if op.outbound.Some? then op.outbound else r.outbound)
  }

  function InsertAt(rules: seq<Rule>, position: nat, r: Rule): seq<Rule>
    requires position <= |rules|
  {
    rules[..position] + [r] + rules[position..]
  }

  function DeleteAt(rules: seq<Rule>, index: nat): seq<Rule>
    requires index < |rules|
  {
    rules[..index] + rules[index + 1..]
  }

  function CompileOp(rules: seq<Rule>, op: Op): Result<seq<Rule>, Fault> {
    match op
    case Insert(_, position, selector, _, _) =>
      var p := if position.Some? then position.value else |rules|;
      if p > |rules| then Err(PositionOutOfRange)
      else if !Supported(selector) then Err(UnsupportedSelector)
      else Ok(InsertAt(rules, p, NewRule(op)))
    case Remove(index) =>
      if index >= |rules| then Err(IndexOutOfRange)
      else if !Managed(rules[index]) then Err(NotManaged)
      else Ok(DeleteAt(rules, index))
    case Replace(id, index, selector, _, _) =>
      if index >= |rules| then Err(IndexOutOfRange)
      else if !Managed(rules[index]) then Err(NotManaged)
      else if rules[index].tag != Some(ManagedTag(id)) then Err(IdentityMismatch)
      else if !Supported(selector) then Err(UnsupportedSelector)
      else Ok(rules[index := Retargeted(rules[index], op)])
    case Move(from, to) =>
      if from >= |rules| then Err(IndexOutOfRange)
      else if !Managed(rules[from]) then Err(NotManaged)
      else if to > |rules| then Err(ToIndexOutOfRange)
      else
        var rest := DeleteAt(rules, from);
        // list.insert clamps: the end of the shortened list.
        Ok(InsertAt(rest, if to > |rest| then |rest| else to, rules[from]))
  }

  function CompileAll(rules: seq<Rule>, ops: seq<Op>): Result<seq<Rule>, Fault> {
    if ops == [] then Ok(rules)
    else match CompileAll(rules, ops[..|ops| - 1])
      case Err(fault) => Err(fault)
      case Ok(before) => CompileOp(before, ops[|ops| - 1])
  }

  lemma {:induction false} FirstFaultStands(rules: seq<Rule>, ops: seq<Op>, n: nat)
    requires n <= |ops| && CompileAll(rules, ops[..n]).Err?
    ensures CompileAll(rules, ops) == CompileAll(rules, ops[..n])
    decreases |ops| - n
  {
    if n == |ops| {
      assert ops[..n] == ops;
    } else {
      assert ops[..n + 1][..n] == ops[..n];
      FirstFaultStands(rules, ops, n + 1);
    }
  }

  // The constructor's checks, then compile: a copy of the list is changed in place,
  // operation by operation; the first fault rejects all of it.
  method Compile(live: seq<Rule>, ops: seq<Op>) returns (r: Result<seq<Rule>, Fault>)
    ensures if forall op :: op in ops ==> ValidOp(op) then
              r == if |live| > MAX_RULES then Err(TooManyRules) else CompileAll(live, ops)
            else r == Err(InvalidOperation)
  {
    for i := 0 to |ops|
      invariant forall k :: 0 <= k < i ==> ValidOp(ops[k])
    {
      if !ValidOp(ops[i]) { return Err(InvalidOperation); }
    }
    if |live| > MAX_RULES { return Err(TooManyRules); }
    var rules := live;
    for i := 0 to |ops|
      invariant CompileAll(live, ops[..i]) == Ok(rules)
    {
      assert ops[..i + 1][..i] == ops[..i];
      var step := Mutate(rules, ops[i]);
      match step {
        case Err(fault) =>
          FirstFaultStands(live, ops, i + 1);
          return Err(fault);
        case Ok(next) => rules := next;
      }
    }
    assert ops[..|ops|] == ops;
    return Ok(rules);
  }

  // The body of the loop, one operation on the list.
  method Mutate(before: seq<Rule>, op: Op) returns (r: Result<seq<Rule>, Fault>)
    ensures r == CompileOp(before, op)
  {
    var rules := before;
    match op {
      case Insert(id, position, selector, value, outbound) =>
        var p := if position.Some? then position.value else |rules|;
        if p > |rules| { return Err(PositionOutOfRange); }
        if selector.None? || selector.value !in SUPPORTED { return Err(UnsupportedSelector); }
        var rule := Rule(Some(ManagedTag(id)), map[], None, map["type" := "field"]);
        rule := rule.(fields := rule.fields[selector.value := if value.Some? then value.value else Null]);
        if outbound.Some? { rule := rule.(outbound := outbound); }
        rules := rules[..p] + [rule] + rules[p..];
      case Remove(index) =>
        if index >= |rules| { return Err(IndexOutOfRange); }
        if !Managed(rules[index]) { return Err(NotManaged); }
        rules := rules[..index] + rules[index + 1..];
      case Replace(id, index, selector, value, outbound) =>
        if index >= |rules| { return Err(IndexOutOfRange); }
        var rule := rules[index];
        if !Managed(rule) { return Err(NotManaged); }
        if rule.tag != Some(ManagedTag(id)) { return Err(IdentityMismatch); }
        if selector.None? || selector.value !in SUPPORTED { return Err(UnsupportedSelector); }
        rule := rule.(fields := rule.fields - SUPPORTED);
        rule := rule.(fields := rule.fields[selector.value := if value.Some? then value.value else Null]);
        if outbound.Some? { rule := rule.(outbound := outbound); }
        rules := rules[index := rule];
      case Move(from, to) =>
        if from >= |rules| { return Err(IndexOutOfRange); }
        var rule := rules[from];
        if !Managed(rule) { return Err(NotManaged); }
        if to > |rules| { return Err(ToIndexOutOfRange); }
        rules := rules[..from] + rules[from + 1..];
        var p := if to > |rules| then |rules| else to;
        rules := rules[..p] + [rule] + rules[p..];
    }
    return Ok(rules);
  }

  // ---- what an operation needs and does ------------------------------------------------

  // Exactly when an operation compiles; a replacement needs the rule of its own identity.
  lemma CompilesIff(rules: seq<Rule>, op: Op)
    ensures CompileOp(rules, op).Ok? <==>
      match op
      case Insert(_, position, selector, _, _) =>
        (position.Some? ==> position.value <= |rules|) && selector.Some? && selector.value in {Domain, Ip, Port, Network, Protocol, Source}
      case Remove(index) => index < |rules| && Managed(rules[index])
      case Replace(id, index, selector, _, _) =>
        && index < |rules| && rules[index].tag == Some(ManagedTag(id))
        && selector.Some? && selector.value in {Domain, Ip, Port, Network, Protocol, Source}
      case Move(from, to) => from < |rules| && Managed(rules[from]) && to <= |rules|
  {
    if op.Replace? && op.index < |rules| && rules[op.index].tag == Some(ManagedTag(op.id)) {
      assert Managed(rules[op.index]);
    }
  }

  // A replaced rule keeps its tag and what Rill never looks at; of the fields that an
  // operation may set it has the given one alone. Every other rule stays.
  lemma ReplacedRule(rules: seq<Rule>, op: Op)
    requires op.Replace? && CompileOp(rules, op).Ok?
    ensures var after := CompileOp(rules, op).value;
      && |after| == |rules| && (forall j :: 0 <= j < |rules| && j != op.index ==> after[j] == rules[j])
      && var was, now := rules[op.index], after[op.index];
      && now.tag == was.tag && now.rest == was.rest && now.outbound == (if op.outbound.Some? then op.outbound else was.outbound)
      && now.fields.Keys == was.fields.Keys - {Domain, Ip, Port, Network, Protocol, Source} + {op.selector.value}
      && now.fields[op.selector.value] == (if op.value.Some? then op.value.value else Null)
      && (forall f :: f in now.fields && f != op.selector.value ==> now.fields[f] == was.fields[f])
  {
  }

  // An inserted rule is the one between the rules before and behind its place.
  lemma InsertedRule(rules: seq<Rule>, op: Op)
    requires op.Insert? && CompileOp(rules, op).Ok?
    ensures var p := if op.position.Some? then op.position.value else |rules|;
      var after := CompileOp(rules, op).value;
      && |after| == |rules| + 1 && (forall j :: 0 <= j < |rules| ==> after[if j < p then j else j + 1] == rules[j])
      && after[p].tag == Some(ManagedTag(op.id)) && after[p].outbound == op.outbound && after[p].fields.Keys == {op.selector.value}
      && after[p].fields[op.selector.value] == (if op.value.Some? then op.value.value else Null)
  {
  }

  // In a list that compiles, every replacement finds the rule of its own identity there.
  lemma {:induction false} EveryReplacementIsOwn(rules: seq<Rule>, ops: seq<Op>, k: nat)
    requires CompileAll(rules, ops).Ok? && k < |ops| && ops[k].Replace?
    ensures CompileAll(rules, ops[..k]).Ok?
    ensures var before := CompileAll(rules, ops[..k]).value;
      ops[k].index < |before| && before[ops[k].index].tag == Some(ManagedTag(ops[k].id))
  {
    if CompileAll(rules, ops[..k]).Err? { FirstFaultStands(rules, ops, k); }
    if CompileAll(rules, ops[..k + 1]).Err? { FirstFaultStands(rules, ops, k + 1); }
    assert ops[..k + 1][..k] == ops[..k];
    CompilesIff(CompileAll(rules, ops[..k]).value, ops[k]);
  }

  // High risk is what the compiler turns down for its position, and an insertion that
  // leaves its position open.
  lemma HighRiskIff(rules: seq<Rule>, op: Op)
    ensures op.Insert? ==>
      (OpRisk(op, Types(rules)) == High <==> op.position == None || CompileOp(rules, op) == Err(PositionOutOfRange))
    ensures op.Move? && (op.from < |rules| ==> Managed(rules[op.from])) ==>
      (OpRisk(op, Types(rules)) == High <==> CompileOp(rules, op).Err?)
    ensures op.Remove? || op.Replace? ==> OpRisk(op, Types(rules)) != High
  {
  }

  // ---- operations undo each other ----------------------------------------------------

  lemma DeleteUndoesInsert(rules: seq<Rule>, p: nat, r: Rule)
    requires p <= |rules|
    ensures InsertAt(rules, p, r)[p] == r && DeleteAt(InsertAt(rules, p, r), p) == rules
  {
  }

  // Removing at the position of an insertion gives back the list.
  lemma RemoveUndoesInsert(rules: seq<Rule>, op: Op)
    requires op.Insert? && CompileOp(rules, op).Ok?
    ensures var p := if op.position.Some? then op.position.value else |rules|;
      CompileOp(CompileOp(rules, op).value, Remove(p)) == Ok(rules)
  {
    var p := if op.position.Some? then op.position.value else |rules|;
    DeleteUndoesInsert(rules, p, NewRule(op));
  }

  // Moving a rule there and back gives back the list.
  lemma MoveUndoesMove(rules: seq<Rule>, from: nat, to: nat)
    requires CompileOp(rules, Move(from, to)).Ok?
    ensures var landed := if to > |rules| - 1 then |rules| - 1 else to;
      && CompileOp(rules, Move(from, to)).value[landed] == rules[from]
      && CompileOp(CompileOp(rules, Move(from, to)).value, Move(landed, from)) == Ok(rules)
  {
    var rest := DeleteAt(rules, from);
    var landed := if to > |rest| then |rest| else to;
    DeleteUndoesInsert(rest, landed, rules[from]);
    assert InsertAt(rest, from, rules[from]) == rules;
  }

  // ---- what the user owns is preserved -------------------------------------------------

  // The rules that are not Rill's, in order.
  function Unmanaged(rules: seq<Rule>): seq<Rule> {
    if rules == [] then []
    else (if Managed(rules[0]) then [] else [rules[0]]) + Unmanaged(rules[1..])
  }

  lemma {:induction false} UnmanagedConcat(a: seq<Rule>, b: seq<Rule>)
    ensures Unmanaged(a + b) == Unmanaged(a) + Unmanaged(b)
  {
    if a == [] {
      assert a + b == b;
    } else {
      assert (a + b)[1..] == a[1..] + b;
      UnmanagedConcat(a[1..], b);
    }
  }

  lemma UnmanagedSkips(a: seq<Rule>, r: Rule, b: seq<Rule>)
    requires Managed(r)
    ensures Unmanaged(a + [r] + b) == Unmanaged(a + b)
  {
    UnmanagedConcat(a, [r]);
    UnmanagedConcat(a + [r], b);
    UnmanagedConcat(a, b);
  }

  lemma InsertKeepsUnmanaged(rules: seq<Rule>, p: nat, r: Rule)
    requires p <= |rules| && Managed(r)
    ensures Unmanaged(InsertAt(rules, p, r)) == Unmanaged(rules)
  {
    UnmanagedSkips(rules[..p], r, rules[p..]);
    assert rules == rules[..p] + rules[p..];
  }

  lemma DeleteKeepsUnmanaged(rules: seq<Rule>, i: nat)
    requires i < |rules| && Managed(rules[i])
    ensures Unmanaged(DeleteAt(rules, i)) == Unmanaged(rules)
  {
    UnmanagedSkips(rules[..i], rules[i], rules[i + 1..]);
    assert rules == rules[..i] + [rules[i]] + rules[i + 1..];
  }

  lemma OpKeepsUnmanaged(rules: seq<Rule>, op: Op)
    requires CompileOp(rules, op).Ok?
    ensures Unmanaged(CompileOp(rules, op).value) == Unmanaged(rules)
  {
    match op
    case Insert(_, position, _, _, _) =>
      InsertKeepsUnmanaged(rules, if position.Some? then position.value else |rules|, NewRule(op));
    case Remove(index) =>
      DeleteKeepsUnmanaged(rules, index);
    case Replace(_, index, _, _, _) =>
      var r := Retargeted(rules[index], op);
      DeleteKeepsUnmanaged(rules, index);
      InsertKeepsUnmanaged(DeleteAt(rules, index), index, r);
      assert rules[index := r] == InsertAt(DeleteAt(rules, index), index, r);
    case Move(from, to) =>
      var rest := DeleteAt(rules, from);
      DeleteKeepsUnmanaged(rules, from);
      InsertKeepsUnmanaged(rest, if to > |rest| then |rest| else to, rules[from]);
  }

  // For every list of operations that compiles, the user's rules keep content and order.
  lemma {:induction false} UserRulesArePreserved(rules: seq<Rule>, ops: seq<Op>)
    requires CompileAll(rules, ops).Ok?
    ensures Unmanaged(CompileAll(rules, ops).value) == Unmanaged(rules)
    decreases |ops|
  {
    if ops != [] {
      var n := |ops| - 1;
      UserRulesArePreserved(rules, ops[..n]);
      OpKeepsUnmanaged(CompileAll(rules, ops[..n]).value, ops[n]);
    }
  }

  // ---- first-match routing ----------------------------------------------------------------

  // `matches(r, p)` says whether a rule selects a packet; routing takes the first.
  function Route<P>(rules: seq<Rule>, matches: (Rule, P) -> bool, p: P): Option<Rule> {
    if rules == [] then None else if matches(rules[0], p) then Some(rules[0]) else Route(rules[1..], matches, p)
  }

  ghost predicate NoManagedMatch<P>(rules: seq<Rule>, matches: (Rule, P) -> bool, p: P) {
    forall r :: r in rules && Managed(r) ==> !matches(r, p)
  }

  lemma {:induction false} RouteSeesOnlyUserRules<P>(rules: seq<Rule>, matches: (Rule, P) -> bool, p: P)
    requires NoManagedMatch(rules, matches, p)
    ensures Route(rules, matches, p) == Route(Unmanaged(rules), matches, p)
  {
    if rules != [] {
      assert rules[0] in rules;
      RouteSeesOnlyUserRules(rules[1..], matches, p);
      if !Managed(rules[0]) {
        assert Unmanaged(rules) == [rules[0]] + Unmanaged(rules[1..]);
      } else {
        assert Unmanaged(rules) == Unmanaged(rules[1..]);
      }
    }
  }

  // Traffic that no managed rule selects, before or after, is routed as before.
  lemma UnmanagedTrafficIsUntouched<P>(rules: seq<Rule>, ops: seq<Op>, matches: (Rule, P) -> bool, p: P)
    requires CompileAll(rules, ops).Ok?
    requires NoManagedMatch(rules, matches, p) && NoManagedMatch(CompileAll(rules, ops).value, matches, p)
    ensures Route(CompileAll(rules, ops).value, matches, p) == Route(rules, matches, p)
  {
    UserRulesArePreserved(rules, ops);
    RouteSeesOnlyUserRules(rules, matches, p);
    RouteSeesOnlyUserRules(CompileAll(rules, ops).value, matches, p);
  }

  lemma {:induction false} AppendedRulesComeLast<P>(rules: seq<Rule>, more: seq<Rule>, matches: (Rule, P) -> bool, p: P)
    ensures Route(rules + more, matches, p) == if Route(rules, matches, p).Some? then Route(rules, matches, p) else Route(more, matches, p)
  {
    if rules == [] {
      assert rules + more == more;
    } else {
      assert (rules + more)[1..] == rules[1..] + more;
      AppendedRulesComeLast(rules[1..], more, matches, p);
    }
  }

  // ---- the shape of automatic changes ---------------------------------------------------

  // The inserted rules, last operation first.
  function Inserted(ops: seq<Op>): seq<Rule> {
    if ops == [] then []
    else
      var op := ops[|ops| - 1];
      (if op.Insert? && Supported(op.selector) then [NewRule(op)] else []) + Inserted(ops[..|ops| - 1])
  }

  // A rule that stays where it is: the same, or a managed one with a new target.
  predicate InPlace(before: Rule, after: Rule) {
    || after == before
    || (Managed(before) && after.tag == before.tag && after.rest == before.rest
        && after.fields - SUPPORTED == before.fields - SUPPORTED)
  }

  ghost predicate Untargeted(ops: seq<Op>, i: nat) {
    forall op :: op in ops && op.Replace? ==> op.index != i
  }

  ghost predicate AutoShape(rules: seq<Rule>, ops: seq<Op>, after: seq<Rule>) {
    && |after| == |rules| + |Inserted(ops)| && after[|rules|..] == Inserted(ops)
    && (forall i :: 0 <= i < |rules| ==> InPlace(rules[i], after[i]))
    && (forall i :: 0 <= i < |rules| && Untargeted(ops, i) ==> after[i] == rules[i])
  }

  lemma InsertKeepsShape(rules: seq<Rule>, ops: seq<Op>, before: seq<Rule>, op: Op)
    requires AutoShape(rules, ops, before) && op.Insert? && OpRisk(op, Types(rules)) == Low && CompileOp(before, op).Ok?
    ensures AutoShape(rules, ops + [op], CompileOp(before, op).value)
  {
    var after := CompileOp(before, op).value;
    assert op.position == Some(|rules|);
    assert (ops + [op])[..|ops|] == ops;
    assert Inserted(ops + [op]) == [NewRule(op)] + Inserted(ops);
    assert after[|rules|..] == [NewRule(op)] + before[|rules|..];
    forall i | 0 <= i < |rules| ensures after[i] == before[i] && (Untargeted(ops + [op], i) ==> Untargeted(ops, i)) {
      assert forall o :: o in ops ==> o in ops + [op];
    }
  }

  lemma ReplaceKeepsShape(rules: seq<Rule>, ops: seq<Op>, before: seq<Rule>, op: Op)
    requires AutoShape(rules, ops, before) && op.Replace? && OpRisk(op, Types(rules)) == Low && CompileOp(before, op).Ok?
    ensures AutoShape(rules, ops + [op], CompileOp(before, op).value)
  {
    var after := CompileOp(before, op).value;
    assert (ops + [op])[..|ops|] == ops;
    assert Inserted(ops + [op]) == [] + Inserted(ops);
    assert after[|rules|..] == before[|rules|..];
    RetargetIsInPlace(rules[op.index], before[op.index], op);
    forall i | 0 <= i < |rules| && Untargeted(ops + [op], i) ensures i != op.index && Untargeted(ops, i) {
      assert op in ops + [op];
      assert forall o :: o in ops ==> o in ops + [op];
    }
  }

  lemma RetargetIsInPlace(original: Rule, r: Rule, op: Op)
    requires InPlace(original, r) && Managed(r) && op.Replace? && Supported(op.selector)
    ensures InPlace(original, Retargeted(r, op))
  {
    assert ((r.fields - SUPPORTED)[op.selector.value := Target(op.value)]) - SUPPORTED == r.fields - SUPPORTED;
  }

  lemma {:induction false} AutoChangesAreConfined(rules: seq<Rule>, ops: seq<Op>)
    requires (forall op :: op in ops ==> IsAutoOp(op) && OpRisk(op, Types(rules)) == Low) && CompileAll(rules, ops).Ok?
    ensures AutoShape(rules, ops, CompileAll(rules, ops).value)
    decreases |ops|
  {
    if ops != [] {
      var n := |ops| - 1;
      var op := ops[n];
      assert forall o :: o in ops[..n] ==> o in ops;
      AutoChangesAreConfined(rules, ops[..n]);
      assert op in ops && ops == ops[..n] + [op];
      if op.Insert? {
        InsertKeepsShape(rules, ops[..n], CompileAll(rules, ops[..n]).value, op);
      } else {
        ReplaceKeepsShape(rules, ops[..n], CompileAll(rules, ops[..n]).value, op);
      }
    }
  }

  // Everything the automatic gate lets through.
  lemma AutoAdmittedShape(rules: seq<Rule>, ops: seq<Op>)
    requires AutoAdmits(ops, rules) && CompileAll(rules, ops).Ok?
    ensures AutoShape(rules, ops, CompileAll(rules, ops).value)
  {
    LowIffAllLow(ops, Types(rules));
    AutoChangesAreConfined(rules, ops);
  }

  // The last replacement of a position.
  function LastReplace(ops: seq<Op>, i: nat): (r: Option<Op>)
    ensures r.Some? ==> r.value in ops && r.value.Replace? && r.value.index == i
    ensures r.None? ==> forall op :: op in ops && op.Replace? ==> op.index != i
  {
    if ops == [] then None
    else if ops[|ops| - 1].Replace? && ops[|ops| - 1].index == i then Some(ops[|ops| - 1])
    else LastReplace(ops[..|ops| - 1], i)
  }

  // A retargeted rule has the operation's selector type exactly when a value was given.
  lemma RetargetedType(r: Rule, op: Op)
    requires op.Replace? && Supported(op.selector) && ValidOp(op)
    ensures SelectorType(Retargeted(r, op)) == op.selector <==> op.value.Some?
  {
    var after := Retargeted(r, op);
    OrderOfFields(op.selector.value);
    if op.value.Some? {
      FirstAmongFound(after, SELECTOR_ORDER, Position(op.selector.value));
    } else {
      FirstAmongSelects(after, SELECTOR_ORDER);
    }
  }

  lemma {:induction false} FirstAmongSelects(r: Rule, order: seq<Selector>)
    ensures FirstAmong(r, order).Some? ==> Selects(r, FirstAmong(r, order).value)
  {
    if order != [] { FirstAmongSelects(r, order[1..]); }
  }

  lemma OtherRulesStay(rules: seq<Rule>, before: seq<Rule>, op: Op, i: nat)
    requires IsAutoOp(op) && OpRisk(op, Types(rules)) == Low && CompileOp(before, op).Ok?
    requires i < |rules| <= |before| && (op.Replace? ==> op.index != i)
    ensures |before| <= |CompileOp(before, op).value| && CompileOp(before, op).value[i] == before[i]
  {
  }

  // A value is not a required parameter, so an admitted replacement can lose the
  // selector: the type survives exactly where the last replacement brought a value.
  lemma {:induction false} SelectorTypeSurvivesIff(rules: seq<Rule>, ops: seq<Op>, i: nat)
    requires (forall op :: op in ops ==> IsAutoOp(op) && OpRisk(op, Types(rules)) == Low && ValidOp(op))
    requires CompileAll(rules, ops).Ok? && i < |rules|
    ensures i < |CompileAll(rules, ops).value|
    ensures SelectorType(CompileAll(rules, ops).value[i]) == SelectorType(rules[i])
            <==> (LastReplace(ops, i).Some? ==> LastReplace(ops, i).value.value.Some?)
    decreases |ops|
  {
    AutoChangesAreConfined(rules, ops);
    if ops != [] {
      var n := |ops| - 1;
      assert forall o :: o in ops[..n] ==> o in ops;
      assert ops[n] in ops;
      AutoChangesAreConfined(rules, ops[..n]);
      SelectorTypeSurvivesIff(rules, ops[..n], i);
      var before := CompileAll(rules, ops[..n]).value;
      if ops[n].Replace? && ops[n].index == i {
        RetargetedType(before[i], ops[n]);
      } else {
        OtherRulesStay(rules, before, ops[n], i);
      }
    }
  }

  // Insertions alone never change the first match of traffic that a rule already matched.
  lemma InsertionsNeverReroute<P>(rules: seq<Rule>, ops: seq<Op>, matches: (Rule, P) -> bool, p: P)
    requires AutoAdmits(ops, rules) && (forall op :: op in ops ==> op.Insert?) && CompileAll(rules, ops).Ok?
    ensures Route(rules, matches, p).Some? ==> Route(CompileAll(rules, ops).value, matches, p) == Route(rules, matches, p)
  {
    AutoAdmittedShape(rules, ops);
    var after := CompileAll(rules, ops).value;
    forall i | 0 <= i < |rules| ensures after[i] == rules[i] {
      assert Untargeted(ops, i);
    }
    assert after == rules + after[|rules|..];
    AppendedRulesComeLast(rules, after[|rules|..], matches, p);
  }
}
