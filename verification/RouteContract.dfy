// python/rill_xray_agent/route_contract.py: routing rules, typed operations and
// their risk.

module RouteContract {
  import opened Collections

  datatype Selector = Domain | Ip | Network | Port | Protocol | Source | InboundTag | User | Email

  const SELECTOR_ORDER := [Domain, Ip, Network, Port, Protocol, Source, InboundTag, User, Email]

  // What an operation may set.
  const SUPPORTED: set<Selector> := {Domain, Ip, Port, Network, Protocol, Source}

  const MANAGED_PREFIX := "rill-managed-"
  const MAX_OPERATIONS := 32
  const MAX_RULES := 512
  const MAX_SELECTOR_LIST := 64
  const MAX_STRING := 4096

  // A JSON value of a selector field.
  datatype Value = Null | Text(text: string) | Number(number: int) | List(items: seq<string>)

  // A rule object: its selector fields and the keys that Rill never looks at.
  datatype Rule = Rule(tag: Option<string>, fields: map<Selector, Value>, outbound: Option<string>, rest: map<string, string>)

  // Typed operations; a missing parameter is None.
  datatype Op = Insert(id: string, position: Option<nat>, selector: Option<Selector>, value: Option<Value>, outbound: Option<string>)
              | Remove(index: nat)
              | Replace(id: string, index: nat, selector: Option<Selector>, value: Option<Value>, outbound: Option<string>)
              | Move(from: nat, to: nat)

  // ---- parameters --------------------------------------------------------------

  predicate Alphanumeric(c: char) {
    'a' <= c <= 'z' || 'A' <= c <= 'Z' || '0' <= c <= '9'
  }

  predicate AllIdCharacters(s: string) {
    s == "" || ((Alphanumeric(s[0]) || s[0] == '_' || s[0] == '-') && AllIdCharacters(s[1..]))
  }

  predicate IdCharacters(s: string) {
    1 <= |s| <= 128 && AllIdCharacters(s)
  }

  // The pattern's `$` also matches before one newline at the end.
  predicate ValidId(id: string) {
    IdCharacters(id) || (id != [] && id[|id| - 1] == '\n' && IdCharacters(id[..|id| - 1]))
  }

  predicate AllSafeCharacters(s: string) {
    s == "" || ((Alphanumeric(s[0]) || s[0] in ".-_:,/@+") && AllSafeCharacters(s[1..]))
  }

  predicate SafeString(s: string) {
    s != "" && s[0] != '/' && AllSafeCharacters(s)
  }

  // A valid identity is fit for an operation unless it ends in a newline.
  lemma ValidIdIsSafeIff(id: string)
    requires ValidId(id)
    ensures SafeString(id) <==> id[|id| - 1] != '\n'
    ensures SafeString(id) <==> IdCharacters(id)
  {
    if IdCharacters(id) { IdIsSafe(id); }
    if id[|id| - 1] == '\n' { NewlineIsUnsafe(id); }
  }

  lemma {:induction false} NewlineIsUnsafe(s: string)
    requires s != "" && s[|s| - 1] == '\n'
    ensures !AllSafeCharacters(s) && !AllIdCharacters(s)
  {
    if |s| > 1 { NewlineIsUnsafe(s[1..]); }
  }

  lemma {:induction false} IdIsSafe(id: string)
    requires IdCharacters(id)
    ensures ValidId(id) && SafeString(id) && id[|id| - 1] != '\n'
  {
    IdCharactersAreSafe(id);
    if id[|id| - 1] == '\n' { NewlineIsUnsafe(id); }
  }

  lemma {:induction false} IdCharactersAreSafe(s: string)
    requires AllIdCharacters(s)
    ensures AllSafeCharacters(s)
  {
    if s != "" {
      assert ".-_:,/@+"[1] == '-' && ".-_:,/@+"[2] == '_';
      IdCharactersAreSafe(s[1..]);
    }
  }

  // The managed tag of a rule identity; its digest is taken to be injective.
  function ManagedTag(id: string): string {
    MANAGED_PREFIX + id
  }

  lemma TagsAreDistinct(a: string, b: string)
    ensures ManagedTag(a) == ManagedTag(b) <==> a == b
  {
    if ManagedTag(a) == ManagedTag(b) {
      assert a == ManagedTag(a)[|MANAGED_PREFIX|..];
      assert b == ManagedTag(b)[|MANAGED_PREFIX|..];
    }
  }

  predicate Managed(r: Rule) {
    r.tag.Some? && MANAGED_PREFIX <= r.tag.value
  }

  // ---- selectors -----------------------------------------------------------------

  // A field that is absent, null or an empty list selects nothing.
  predicate Selects(r: Rule, f: Selector) {
    f in r.fields && r.fields[f] != Null && r.fields[f] != List([])
  }

  function FieldsAmong(r: Rule, order: seq<Selector>): seq<Selector> {
    if order == [] then [] else (if Selects(r, order[0]) then [order[0]] else []) + FieldsAmong(r, order[1..])
  }

  // The selector fields of a rule, in contract order.
  function SelectorFields(r: Rule): seq<Selector> {
    FieldsAmong(r, SELECTOR_ORDER)
  }

  // rule_selector_type on a live rule: the first present field.
  function FirstAmong(r: Rule, order: seq<Selector>): Option<Selector> {
    if order == [] then None else if Selects(r, order[0]) then Some(order[0]) else FirstAmong(r, order[1..])
  }

  function SelectorType(r: Rule): Option<Selector> {
    FirstAmong(r, SELECTOR_ORDER)
  }

  function Head(fields: seq<Selector>): Option<Selector> {
    if fields == [] then None else Some(fields[0])
  }

  lemma {:induction false} FirstIsHead(r: Rule, order: seq<Selector>)
    ensures FirstAmong(r, order) == Head(FieldsAmong(r, order))
  {
    if order != [] { FirstIsHead(r, order[1..]); }
  }

  lemma {:induction false} FirstAmongFound(r: Rule, order: seq<Selector>, k: nat)
    requires k < |order| && Selects(r, order[k]) && forall i :: 0 <= i < k ==> !Selects(r, order[i])
    ensures FirstAmong(r, order) == Some(order[k])
  {
    if k > 0 { FirstAmongFound(r, order[1..], k - 1); }
  }

  lemma {:induction false} FieldsAmongIff(r: Rule, order: seq<Selector>, f: Selector)
    ensures f in FieldsAmong(r, order) <==> f in order && Selects(r, f)
  {
    if order != [] {
      FieldsAmongIff(r, order[1..], f);
      assert order == [order[0]] + order[1..];
    }
  }

  function Position(f: Selector): nat {
    match f
    case Domain => 0 case Ip => 1 case Network => 2 case Port => 3 case Protocol => 4 case Source => 5
    case InboundTag => 6 case User => 7 case Email => 8
  }

  // The supported selectors come first in the order.
  lemma OrderOfFields(f: Selector)
    ensures Position(f) < |SELECTOR_ORDER| && SELECTOR_ORDER[Position(f)] == f
    ensures f in SUPPORTED ==> forall i :: 0 <= i < Position(f) ==> SELECTOR_ORDER[i] in SUPPORTED && SELECTOR_ORDER[i] != f
  {
  }

  // ---- risk ------------------------------------------------------------------------

  datatype Risk = Low | Medium | High

  function Rank(r: Risk): nat {
    match r case Low => 0 case Medium => 1 case High => 2
  }

  // op_risk over the selector types of the current rules, in order.
  function OpRisk(op: Op, types: seq<Option<Selector>>): Risk {
    match op
    case Insert(_, position, _, _, _) =>
      if position.Some? && position.value <= |types| then (if position.value == |types| then Low else Medium) else High
    case Remove(_) => Low
    case Replace(_, index, selector, _, _) =>
      if index < |types| && types[index].Some? && types[index] == selector then Low else Medium
    case Move(from, to) => if from < |types| && to <= |types| then Low else High
  }

  function OverallRisk(ops: seq<Op>, types: seq<Option<Selector>>): Risk {
    if ops == [] then Low
    else
      var first := OverallRisk(ops[..|ops| - 1], types);
      var last := OpRisk(ops[|ops| - 1], types);
      if Rank(last) > Rank(first) then last else first
  }

  lemma {:induction false} LowIffAllLow(ops: seq<Op>, types: seq<Option<Selector>>)
    ensures OverallRisk(ops, types) == Low <==> forall op :: op in ops ==> OpRisk(op, types) == Low
    decreases |ops|
  {
    if ops != [] {
      LowIffAllLow(ops[..|ops| - 1], types);
      assert ops == ops[..|ops| - 1] + [ops[|ops| - 1]];
    }
  }

  // The overall risk is the worst one of the operations.
  lemma {:induction false} OverallRiskIsTheWorst(ops: seq<Op>, types: seq<Option<Selector>>)
    ensures forall op :: op in ops ==> Rank(OpRisk(op, types)) <= Rank(OverallRisk(ops, types))
    ensures OverallRisk(ops, types) != Low ==> exists op :: op in ops && OpRisk(op, types) == OverallRisk(ops, types)
    decreases |ops|
  {
    if ops != [] {
      OverallRiskIsTheWorst(ops[..|ops| - 1], types);
      assert ops == ops[..|ops| - 1] + [ops[|ops| - 1]];
    }
  }

  function Types(rules: seq<Rule>): seq<Option<Selector>> {
    seq(|rules|, i requires 0 <= i < |rules| => SelectorType(rules[i]))
  }

  predicate IsAutoOp(op: Op) {
    op.Insert? || op.Replace?
  }

  // The gate for automatic requests: allowlisted operations of overall low risk.
  predicate AutoAdmits(ops: seq<Op>, rules: seq<Rule>) {
    ops != [] && (forall op :: op in ops ==> IsAutoOp(op)) && OverallRisk(ops, Types(rules)) == Low
  }

  // The rule has this selector and none that comes before it.
  predicate SelectsFirst(r: Rule, f: Selector) {
    Selects(r, f) && forall g :: Position(g) < Position(f) ==> !Selects(r, g)
  }

  lemma {:induction false} SelectorTypeIff(r: Rule, f: Selector)
    ensures SelectorType(r) == Some(f) <==> SelectsFirst(r, f)
  {
    PositionsAreTheOrder(f);
    if SelectsFirst(r, f) {
      forall i | 0 <= i < Position(f) ensures !Selects(r, SELECTOR_ORDER[i]) { OrderIsPosition(i); }
      FirstAmongFound(r, SELECTOR_ORDER, Position(f));
    } else if SelectorType(r) == Some(f) {
      var k := FirstAmongIs(r, SELECTOR_ORDER);
      OrderIsPosition(k);
      forall g: Selector | Position(g) < k ensures !Selects(r, g) { PositionsAreTheOrder(g); }
    }
  }

  lemma PositionsAreTheOrder(f: Selector)
    ensures Position(f) < |SELECTOR_ORDER| && SELECTOR_ORDER[Position(f)] == f
  {
    OrderOfFields(f);
  }

  lemma OrderIsPosition(i: nat)
    requires i < |SELECTOR_ORDER|
    ensures Position(SELECTOR_ORDER[i]) == i
  {
  }

  lemma {:induction false} FirstAmongIs(r: Rule, order: seq<Selector>) returns (k: nat)
    requires FirstAmong(r, order).Some?
    ensures k < |order| && order[k] == FirstAmong(r, order).value && Selects(r, order[k])
    ensures forall i :: 0 <= i < k ==> !Selects(r, order[i])
  {
    if Selects(r, order[0]) {
      k := 0;
    } else {
      var m := FirstAmongIs(r, order[1..]);
      k := m + 1;
      assert forall i :: 0 < i < k ==> order[i] == order[1..][i - 1];
    }
  }

  // Exactly what the automatic gate lets through: insertions behind all rules, and
  // replacements that keep what a rule first selects by.
  lemma AutoAdmitsIff(ops: seq<Op>, rules: seq<Rule>)
    ensures AutoAdmits(ops, rules) <==> ops != [] && forall op :: op in ops ==>
      || (op.Insert? && op.position == Some(|rules|))
      || (op.Replace? && op.index < |rules| && op.selector.Some? && SelectsFirst(rules[op.index], op.selector.value))
  {
    LowIffAllLow(ops, Types(rules));
    forall r: Rule, f: Selector ensures SelectorType(r) == Some(f) <==> SelectsFirst(r, f) { SelectorTypeIff(r, f); }
  }
}
