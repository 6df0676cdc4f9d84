// python/rill_xray_agent/events.py: the meaningful changes between two safe
// observations, their identities, and the fingerprint that drives them.

module Events {
  import opened Collections

  datatype Component = Xray | Nginx | Install | Agent

  const COMPONENTS: seq<Component> := [Xray, Nginx, Install]
  const PROBED: seq<Component> := [Xray, Nginx]

  // Summary of one configuration path. `safe` is None when the key is missing;
  // a missing hash is the empty string.
  datatype Summary = Summary(present: bool, safe: Option<bool>, sha256: string, treeSha256: string)

  // Outcome of one probe command.
  datatype Check = Check(ok: bool, returnCode: Option<int>)

  // An observation document. A probe is None when the document holds no object for it.
  datatype Observation = Observation(
    xrayConfig: Summary, nginxConfig: Summary, installConfig: Summary,
    xrayValidation: Option<Check>, nginxValidation: Option<Check>,
    xrayService: Option<Check>, nginxService: Option<Check>,
    capturedAt: int)

  function ConfigEntry(o: Observation, c: Component): Summary {
    match c
    case Xray => o.xrayConfig
    case Nginx => o.nginxConfig
    case _ => o.installConfig
  }

  predicate Yes(flag: Option<bool>) { flag.Some? && flag.value }
  predicate No(flag: Option<bool>) { flag.Some? && !flag.value }

  function SummaryDigest(entry: Summary): string {
    if !entry.present then ""
    else if !Yes(entry.safe) then "unsafe"
    else if entry.sha256 != "" then entry.sha256
    else entry.treeSha256
  }

  function ConfigDigest(o: Observation, c: Component): string {
    SummaryDigest(ConfigEntry(o, c))
  }

  function ValidationEntry(o: Observation, c: Component): Option<Check> {
    if c == Xray then o.xrayValidation else o.nginxValidation
  }

  function ServiceEntry(o: Observation, c: Component): Option<Check> {
    if c == Xray then o.xrayService else o.nginxService
  }

  function Health(check: Option<Check>): Option<bool> {
    match check
    case None => None
    case Some(k) => Some(k.ok)
  }

  predicate UnsafeEntry(entry: Summary) {
    entry.present && No(entry.safe)
  }

  predicate UnsafePath(o: Observation) {
    UnsafeEntry(o.xrayConfig) || UnsafeEntry(o.nginxConfig) || UnsafeEntry(o.installConfig)
  }

  // What the root observer writes: a summary that is present says whether it
  // is safe, a safe one carries a real hash, and every probe was run.
  predicate WellFormedSummary(entry: Summary) {
    && (entry.present ==> entry.safe.Some?)
    && (Yes(entry.safe) ==> SummaryDigest(entry) != "unsafe")
  }

  predicate WellFormed(o: Observation) {
    && WellFormedSummary(o.xrayConfig) && WellFormedSummary(o.nginxConfig) && WellFormedSummary(o.installConfig)
    && o.xrayValidation.Some? && o.nginxValidation.Some? && o.xrayService.Some? && o.nginxService.Some?
  }

  datatype Kind =
    | BaselineObserved
    | ConfigChanged(c: Component)
    | ValidationFailed(c: Component)
    | ValidationRecovered(c: Component)
    | ServiceDown(c: Component)
    | ServiceUp(c: Component)
    | UnsafePathDetected
    | UnsafePathRecovered

  datatype Facts =
    | NoFacts
    | FirstObservation
    | Digests(previous: Option<string>, current: Option<string>)
    | ReturnCode(code: Option<int>)
    | UnsafeFlag(flag: bool)

  datatype Event = Event(kind: Kind, component: Component, facts: Facts)

  // Digests are free constructors over the digested value, hence injective.
  // NoState is the empty string that stands for "no previous observation".
  datatype StateDigest =
    | NoState
    | StateOf(xray: string, nginx: string, install: string,
              xrayValidation: Option<bool>, nginxValidation: Option<bool>,
              xrayService: Option<bool>, nginxService: Option<bool>)

  function Fingerprint(o: Option<Observation>): StateDigest {
    match o
    case None => NoState
    case Some(v) =>
      StateOf(ConfigDigest(v, Xray), ConfigDigest(v, Nginx), ConfigDigest(v, Install),
              Health(v.xrayValidation), Health(v.nginxValidation),
              Health(v.xrayService), Health(v.nginxService))
  }

  datatype TransitionId = TransitionId(previous: StateDigest, current: StateDigest, event: Event)

  // ---- derivation ---------------------------------------------------------

  function NonEmpty(s: string): Option<string> {
    if s == "" then None else Some(s)
  }

  function ConfigEvents(p: Observation, q: Observation, c: Component): seq<Event> {
    var a, b := ConfigDigest(p, c), ConfigDigest(q, c);
    if a == b then [] else [Event(ConfigChanged(c), c, Digests(NonEmpty(a), NonEmpty(b)))]
  }

  function ValidationEvents(p: Observation, q: Observation, c: Component): seq<Event> {
    var a, b := Health(ValidationEntry(p, c)), Health(ValidationEntry(q, c));
    if a == None || b == None || a == b then []
    else if b == Some(true) then [Event(ValidationRecovered(c), c, NoFacts)]
    else [Event(ValidationFailed(c), c, ReturnCode(ValidationEntry(q, c).value.returnCode))]
  }

  function ServiceEvents(p: Observation, q: Observation, c: Component): seq<Event> {
    var a, b := Health(ServiceEntry(p, c)), Health(ServiceEntry(q, c));
    if a == None || b == None || a == b then []
    else [Event(if b == Some(true) then ServiceUp(c) else ServiceDown(c), c, NoFacts)]
  }

  function UnsafeEvents(p: Observation, q: Observation): seq<Event> {
    if UnsafePath(p) == UnsafePath(q) then []
    else if UnsafePath(q) then [Event(UnsafePathDetected, Agent, UnsafeFlag(true))]
    else [Event(UnsafePathRecovered, Agent, UnsafeFlag(false))]
  }

  // The events one rule derives over a list of components, in list order.
  function Gather(rule: Component -> seq<Event>, cs: seq<Component>): seq<Event> {
    if cs == [] then [] else Gather(rule, cs[..|cs| - 1]) + rule(cs[|cs| - 1])
  }

  function ConfigRule(p: Observation, q: Observation): Component -> seq<Event> { c => ConfigEvents(p, q, c) }
  function ValidationRule(p: Observation, q: Observation): Component -> seq<Event> { c => ValidationEvents(p, q, c) }
  function ServiceRule(p: Observation, q: Observation): Component -> seq<Event> { c => ServiceEvents(p, q, c) }

  function Derive(previous: Option<Observation>, current: Observation): seq<Event> {
    match previous
    case None => [Event(BaselineObserved, Agent, FirstObservation)]
    case Some(p) =>
      ConfigPart(p, current) + ValidationPart(p, current) + ServicePart(p, current) + UnsafeEvents(p, current)
  }

  function ConfigPart(p: Observation, q: Observation): seq<Event> { Gather(ConfigRule(p, q), COMPONENTS) }
  function ValidationPart(p: Observation, q: Observation): seq<Event> { Gather(ValidationRule(p, q), PROBED) }
  function ServicePart(p: Observation, q: Observation): seq<Event> { Gather(ServiceRule(p, q), PROBED) }

  // ---- what the events say ---------------------------------------------------

  // A reader of the timeline who knows the state before an event.
  function Replay(s: StateDigest, e: Event): StateDigest
    requires s.StateOf?
  {
    match e.kind
    case ConfigChanged(c) =>
      WithConfig(s, c, if e.facts.Digests? && e.facts.current.Some? then e.facts.current.value else "")
    case ValidationFailed(c) => WithValidation(s, c, false)
    case ValidationRecovered(c) => WithValidation(s, c, true)
    case ServiceDown(c) => WithService(s, c, false)
    case ServiceUp(c) => WithService(s, c, true)
    case _ => s
  }

  function WithConfig(s: StateDigest, c: Component, digest: string): StateDigest
    requires s.StateOf?
  {
    if c == Xray then s.(xray := digest) else if c == Nginx then s.(nginx := digest) else s.(install := digest)
  }

  function WithValidation(s: StateDigest, c: Component, ok: bool): StateDigest
    requires s.StateOf?
  {
    if c == Xray then s.(xrayValidation := Some(ok)) else s.(nginxValidation := Some(ok))
  }

  function WithService(s: StateDigest, c: Component, ok: bool): StateDigest
    requires s.StateOf?
  {
    if c == Xray then s.(xrayService := Some(ok)) else s.(nginxService := Some(ok))
  }

  function ReplayAll(s: StateDigest, events: seq<Event>): (r: StateDigest)
    requires s.StateOf?
    ensures r.StateOf?
  {
    if events == [] then s else Replay(ReplayAll(s, events[..|events| - 1]), events[|events| - 1])
  }

  // What a fingerprint says of a document that the observer writes.
  predicate Shows(s: StateDigest, o: Observation)
    requires WellFormed(o)
  {
    && s.StateOf? && ShowsSummary(s.xray, o.xrayConfig) && ShowsSummary(s.nginx, o.nginxConfig) && ShowsSummary(s.install, o.installConfig)
    && s.xrayValidation == Some(o.xrayValidation.value.ok) && s.nginxValidation == Some(o.nginxValidation.value.ok)
    && s.xrayService == Some(o.xrayService.value.ok) && s.nginxService == Some(o.nginxService.value.ok)
    && (UnsafePath(o) <==> s.xray == "unsafe" || s.nginx == "unsafe" || s.install == "unsafe")
  }

  predicate ShowsSummary(digest: string, entry: Summary) {
    && (!entry.present ==> digest == "")
    && (entry.present && entry.safe == Some(false) ==> digest == "unsafe")
    && (entry.present && entry.safe == Some(true) ==> digest != "unsafe" && digest == if entry.sha256 != "" then entry.sha256 else entry.treeSha256)
  }

  // Where in a transition an event stands.
  function Rank(k: Kind): nat {
    match k
    case BaselineObserved => 0
    case ConfigChanged(c) => if c == Xray then 1 else if c == Nginx then 2 else 3
    case ValidationFailed(c) => if c == Xray then 4 else 5
    case ValidationRecovered(c) => if c == Xray then 4 else 5
    case ServiceDown(c) => if c == Xray then 6 else 7
    case ServiceUp(c) => if c == Xray then 6 else 7
    case UnsafePathDetected => 8
    case UnsafePathRecovered => 8
  }

  predicate Ranked(events: seq<Event>) {
    forall i, j :: 0 <= i < j < |events| ==> Rank(events[i].kind) < Rank(events[j].kind)
  }

  predicate Within(events: seq<Event>, lo: nat, hi: nat) {
    Ranked(events) && forall e :: e in events ==> lo <= Rank(e.kind) < hi
  }

  lemma WithinConcat(a: seq<Event>, b: seq<Event>, lo: nat, mid: nat, hi: nat)
    requires Within(a, lo, mid) && Within(b, mid, hi) && lo <= mid <= hi
    ensures Within(a + b, lo, hi)
  {
    forall i, j | 0 <= i < j < |a + b| ensures Rank((a + b)[i].kind) < Rank((a + b)[j].kind) {
      if i < |a| <= j {
        assert (a + b)[i] in a && (a + b)[j] in b;
      }
    }
  }

  lemma {:induction false} RankedIsDistinct(events: seq<Event>, lo: nat, hi: nat)
    requires Within(events, lo, hi) && lo <= hi
    ensures Distinct(events) && |events| <= hi - lo
    decreases |events|
  {
    if events != [] {
      var n := |events| - 1;
      forall e | e in events[..n] ensures Rank(e.kind) < Rank(events[n].kind) {
        var i :| 0 <= i < n && events[i] == e;
      }
      RankedIsDistinct(events[..n], lo, Rank(events[n].kind));
      assert events == events[..n] + [events[n]];
    }
  }

  // The event is news after `p`, and its facts are those of the two observations.
  predicate Tells(p: Observation, q: Observation, e: Event) {
    match e.kind
    case BaselineObserved => false
    case ConfigChanged(c) =>
      && e.component == c && Replay(Fingerprint(Some(p)), e) != Fingerprint(Some(p))
      && e.facts == Digests(NonEmpty(ConfigDigest(p, c)), NonEmpty(ConfigDigest(q, c)))
    case ValidationFailed(c) =>
      && e.component == c && Replay(Fingerprint(Some(p)), e) != Fingerprint(Some(p))
      && ValidationEntry(q, c).Some? && e.facts == ReturnCode(ValidationEntry(q, c).value.returnCode)
    case UnsafePathDetected => e.component == Agent && e.facts == UnsafeFlag(true) && UnsafePath(q) && !UnsafePath(p)
    case UnsafePathRecovered => e.component == Agent && e.facts == UnsafeFlag(false) && !UnsafePath(q) && UnsafePath(p)
    case ValidationRecovered(c) =>
      e.component == c && e.facts == NoFacts && Replay(Fingerprint(Some(p)), e) != Fingerprint(Some(p))
    case ServiceDown(c) =>
      e.component == c && e.facts == NoFacts && Replay(Fingerprint(Some(p)), e) != Fingerprint(Some(p))
    case ServiceUp(c) =>
      e.component == c && e.facts == NoFacts && Replay(Fingerprint(Some(p)), e) != Fingerprint(Some(p))
  }

  predicate HasKind(events: seq<Event>, k: Kind) {
    exists e :: e in events && e.kind == k
  }

  // The events of a transition between two documents that the observer writes: replayed
  // after the first they give the second; each is news, in its place, and true.
  ghost predicate Recounts(p: Observation, q: Observation, events: seq<Event>)
    requires WellFormed(q)
  {
    && ReplayAll(Fingerprint(Some(p)), events) == Fingerprint(Some(q)) && Shows(Fingerprint(Some(q)), q)
    && (forall e :: e in events ==> Tells(p, q, e))
    && (UnsafePath(p) != UnsafePath(q) ==> HasKind(events, if UnsafePath(q) then UnsafePathDetected else UnsafePathRecovered))
  }

  lemma {:induction false} ReplaySplits(s: StateDigest, a: seq<Event>, b: seq<Event>)
    requires s.StateOf?
    ensures ReplayAll(s, a + b) == ReplayAll(ReplayAll(s, a), b)
    decreases |b|
  {
    if b == [] {
      assert a + b == a;
    } else {
      var n := |b| - 1;
      assert (a + b)[..|a| + n] == a + b[..n];
      ReplaySplits(s, a, b[..n]);
    }
  }

  lemma ReplayAtMostOne(s: StateDigest, events: seq<Event>)
    requires s.StateOf? && |events| <= 1
    ensures ReplayAll(s, events) == if events == [] then s else Replay(s, events[0])
  {
    if events != [] { assert events[..0] == []; }
  }

  lemma GatherTwo(rule: Component -> seq<Event>)
    ensures Gather(rule, PROBED) == rule(Xray) + rule(Nginx)
  {
    assert PROBED[..1] == [Xray] && PROBED[..1][..0] == [];
    assert Gather(rule, [Xray]) == rule(Xray);
  }

  lemma GatherThree(rule: Component -> seq<Event>)
    ensures Gather(rule, COMPONENTS) == rule(Xray) + rule(Nginx) + rule(Install)
  {
    assert COMPONENTS[..2] == PROBED;
    GatherTwo(rule);
  }

  lemma {:induction false} ConfigIsRanked(p: Observation, q: Observation)
    ensures Within(ConfigPart(p, q), 1, 4)
  {
    var a, b, c := ConfigEvents(p, q, Xray), ConfigEvents(p, q, Nginx), ConfigEvents(p, q, Install);
    GatherThree(ConfigRule(p, q));
    WithinConcat(a, b, 1, 2, 3);
    WithinConcat(a + b, c, 1, 3, 4);
  }

  lemma {:induction false} ValidationIsRanked(p: Observation, q: Observation)
    ensures Within(ValidationPart(p, q), 4, 6)
  {
    GatherTwo(ValidationRule(p, q));
    WithinConcat(ValidationEvents(p, q, Xray), ValidationEvents(p, q, Nginx), 4, 5, 6);
  }

  lemma {:induction false} ServiceIsRanked(p: Observation, q: Observation)
    ensures Within(ServicePart(p, q), 6, 8)
  {
    GatherTwo(ServiceRule(p, q));
    WithinConcat(ServiceEvents(p, q, Xray), ServiceEvents(p, q, Nginx), 6, 7, 8);
  }

  lemma {:induction false} DerivedAreRanked(p: Observation, q: Observation)
    ensures Within(Derive(Some(p), q), 1, 9)
  {
    ConfigIsRanked(p, q);
    ValidationIsRanked(p, q);
    ServiceIsRanked(p, q);
    WithinConcat(ConfigPart(p, q), ValidationPart(p, q), 1, 4, 6);
    WithinConcat(ConfigPart(p, q) + ValidationPart(p, q), ServicePart(p, q), 1, 6, 8);
    WithinConcat(ConfigPart(p, q) + ValidationPart(p, q) + ServicePart(p, q), UnsafeEvents(p, q), 1, 8, 9);
  }

  lemma {:induction false} ReplayTwo(s: StateDigest, a: seq<Event>, b: seq<Event>, mid: StateDigest, end: StateDigest)
    requires s.StateOf? && mid.StateOf? && ReplayAll(s, a) == mid && ReplayAll(mid, b) == end
    ensures ReplayAll(s, a + b) == end
  {
    ReplaySplits(s, a, b);
  }

  // Events of one component, after a state that is that of `p` in what they are about.
  lemma {:induction false} ConfigStep(p: Observation, q: Observation, c: Component, s: StateDigest)
    requires c in COMPONENTS && s.StateOf? && WithConfig(s, c, ConfigDigest(p, c)) == s
    ensures ReplayAll(s, ConfigEvents(p, q, c)) == WithConfig(s, c, ConfigDigest(q, c))
  {
    ReplayAtMostOne(s, ConfigEvents(p, q, c));
  }

  lemma {:induction false} ValidationStep(p: Observation, q: Observation, c: Component, s: StateDigest)
    requires c in PROBED && s.StateOf? && ValidationEntry(p, c).Some? && ValidationEntry(q, c).Some?
    requires WithValidation(s, c, ValidationEntry(p, c).value.ok) == s
    ensures ReplayAll(s, ValidationEvents(p, q, c)) == WithValidation(s, c, ValidationEntry(q, c).value.ok)
  {
    ReplayAtMostOne(s, ValidationEvents(p, q, c));
  }

  lemma {:induction false} ServiceStep(p: Observation, q: Observation, c: Component, s: StateDigest)
    requires c in PROBED && s.StateOf? && ServiceEntry(p, c).Some? && ServiceEntry(q, c).Some?
    requires WithService(s, c, ServiceEntry(p, c).value.ok) == s
    ensures ReplayAll(s, ServiceEvents(p, q, c)) == WithService(s, c, ServiceEntry(q, c).value.ok)
  {
    ReplayAtMostOne(s, ServiceEvents(p, q, c));
  }

  // The state with the configuration of `q`, then also with its validation results.
  function Configured(p: Observation, q: Observation): StateDigest {
    WithConfig(WithConfig(WithConfig(Fingerprint(Some(p)), Xray, ConfigDigest(q, Xray)), Nginx, ConfigDigest(q, Nginx)),
               Install, ConfigDigest(q, Install))
  }

  function Validated(p: Observation, q: Observation): StateDigest
    requires WellFormed(q)
  {
    WithValidation(WithValidation(Configured(p, q), Xray, q.xrayValidation.value.ok), Nginx, q.nginxValidation.value.ok)
  }

  lemma {:induction false} ConfigReplays(p: Observation, q: Observation)
    ensures ReplayAll(Fingerprint(Some(p)), ConfigPart(p, q)) == Configured(p, q)
  {
    var s := Fingerprint(Some(p));
    var t := WithConfig(s, Xray, ConfigDigest(q, Xray));
    var u := WithConfig(t, Nginx, ConfigDigest(q, Nginx));
    GatherThree(ConfigRule(p, q));
    ConfigStep(p, q, Xray, s);
    ConfigStep(p, q, Nginx, t);
    ConfigStep(p, q, Install, u);
    ReplayTwo(s, ConfigEvents(p, q, Xray), ConfigEvents(p, q, Nginx), t, u);
    ReplayTwo(s, ConfigEvents(p, q, Xray) + ConfigEvents(p, q, Nginx), ConfigEvents(p, q, Install), u, Configured(p, q));
  }

  lemma {:induction false} ValidationReplays(p: Observation, q: Observation)
    requires WellFormed(p) && WellFormed(q)
    ensures ReplayAll(Configured(p, q), ValidationPart(p, q)) == Validated(p, q)
  {
    var s := Configured(p, q);
    var t := WithValidation(s, Xray, q.xrayValidation.value.ok);
    GatherTwo(ValidationRule(p, q));
    ValidationStep(p, q, Xray, s);
    ValidationStep(p, q, Nginx, t);
    ReplayTwo(s, ValidationEvents(p, q, Xray), ValidationEvents(p, q, Nginx), t, Validated(p, q));
  }

  lemma {:induction false} ServiceReplays(p: Observation, q: Observation)
    requires WellFormed(p) && WellFormed(q)
    ensures ReplayAll(Validated(p, q), ServicePart(p, q)) == Fingerprint(Some(q))
  {
    var s := Validated(p, q);
    var t := WithService(s, Xray, q.xrayService.value.ok);
    GatherTwo(ServiceRule(p, q));
    ServiceStep(p, q, Xray, s);
    ServiceStep(p, q, Nginx, t);
    ReplayTwo(s, ServiceEvents(p, q, Xray), ServiceEvents(p, q, Nginx), t, Fingerprint(Some(q)));
  }

  lemma {:induction false} UnsafeReplays(p: Observation, q: Observation)
    ensures ReplayAll(Fingerprint(Some(q)), UnsafeEvents(p, q)) == Fingerprint(Some(q))
  {
    ReplayAtMostOne(Fingerprint(Some(q)), UnsafeEvents(p, q));
  }

  lemma {:induction false} ReplayFour(s: StateDigest, a: seq<Event>, b: seq<Event>, c: seq<Event>, d: seq<Event>,
                                      t: StateDigest, u: StateDigest, v: StateDigest, w: StateDigest)
    requires s.StateOf? && t.StateOf? && u.StateOf? && v.StateOf?
    requires ReplayAll(s, a) == t && ReplayAll(t, b) == u && ReplayAll(u, c) == v && ReplayAll(v, d) == w
    ensures ReplayAll(s, a + b + c + d) == w
  {
    ReplayTwo(s, a, b, t, u);
    ReplayTwo(s, a + b, c, u, v);
    ReplayTwo(s, a + b + c, d, v, w);
  }

  // Replaying the events of a transition takes the state before it to the one after it.
  lemma {:induction false} ReplayReaches(p: Observation, q: Observation)
    requires WellFormed(p) && WellFormed(q)
    ensures ReplayAll(Fingerprint(Some(p)), Derive(Some(p), q)) == Fingerprint(Some(q))
  {
    ConfigReplays(p, q);
    ValidationReplays(p, q);
    ServiceReplays(p, q);
    UnsafeReplays(p, q);
    ReplayFour(Fingerprint(Some(p)), ConfigPart(p, q), ValidationPart(p, q), ServicePart(p, q), UnsafeEvents(p, q),
               Configured(p, q), Validated(p, q), Fingerprint(Some(q)), Fingerprint(Some(q)));
  }

  lemma {:induction false} ConfigTells(p: Observation, q: Observation)
    ensures forall e :: e in ConfigPart(p, q) ==> Tells(p, q, e)
  {
    GatherThree(ConfigRule(p, q));
    assert forall c, e :: c in COMPONENTS && e in ConfigEvents(p, q, c) ==> Tells(p, q, e);
    assert Xray in COMPONENTS && Nginx in COMPONENTS && Install in COMPONENTS;
  }

  lemma {:induction false} ValidationTells(p: Observation, q: Observation)
    ensures forall e :: e in ValidationPart(p, q) ==> Tells(p, q, e)
  {
    GatherTwo(ValidationRule(p, q));
    assert forall c, e :: c in PROBED && e in ValidationEvents(p, q, c) ==> Tells(p, q, e);
    assert Xray in PROBED && Nginx in PROBED;
  }

  lemma {:induction false} ServiceTells(p: Observation, q: Observation)
    ensures forall e :: e in ServicePart(p, q) ==> Tells(p, q, e)
  {
    GatherTwo(ServiceRule(p, q));
    assert forall c, e :: c in PROBED && e in ServiceEvents(p, q, c) ==> Tells(p, q, e);
    assert Xray in PROBED && Nginx in PROBED;
  }

  lemma {:induction false} UnsafeTells(p: Observation, q: Observation)
    ensures forall e :: e in UnsafeEvents(p, q) ==> Tells(p, q, e)
    ensures UnsafePath(p) != UnsafePath(q) ==>
      UnsafeEvents(p, q) != [] && UnsafeEvents(p, q)[0].kind == if UnsafePath(q) then UnsafePathDetected else UnsafePathRecovered
  {
  }

  lemma {:induction false} AllTell(p: Observation, q: Observation)
    ensures forall e :: e in Derive(Some(p), q) ==> Tells(p, q, e)
    ensures UnsafePath(p) != UnsafePath(q) ==>
      HasKind(Derive(Some(p), q), if UnsafePath(q) then UnsafePathDetected else UnsafePathRecovered)
  {
    var a, b, c, d := ConfigPart(p, q), ValidationPart(p, q), ServicePart(p, q), UnsafeEvents(p, q);
    ConfigTells(p, q);
    ValidationTells(p, q);
    ServiceTells(p, q);
    UnsafeTells(p, q);
    forall e | e in a + b + c + d ensures Tells(p, q, e) {
      assert e in a || e in b || e in c || e in d;
    }
    if d != [] { assert d[0] in a + b + c + d; }
  }

  lemma {:induction false} FingerprintShows(o: Observation)
    requires WellFormed(o)
    ensures Shows(Fingerprint(Some(o)), o)
  {
    assert ShowsSummary(ConfigDigest(o, Xray), o.xrayConfig);
    assert ShowsSummary(ConfigDigest(o, Nginx), o.nginxConfig);
    assert ShowsSummary(ConfigDigest(o, Install), o.installConfig);
  }

  lemma {:induction false} DerivedRecount(p: Observation, q: Observation)
    requires WellFormed(p) && WellFormed(q)
    ensures Recounts(p, q, Derive(Some(p), q))
  {
    ReplayReaches(p, q);
    AllTell(p, q);
    FingerprintShows(q);
  }

  // The derivation as the source performs it.
  method DeriveEvents(previous: Option<Observation>, current: Observation) returns (events: seq<Event>)
    ensures events == Derive(previous, current)
    ensures previous == None ==> events == [Event(BaselineObserved, Agent, FirstObservation)]
    ensures Ranked(events)
    ensures previous.Some? ==> forall e :: e in events ==> Tells(previous.value, current, e)
    ensures previous.Some? && WellFormed(previous.value) && WellFormed(current) ==> Recounts(previous.value, current, events)
  {
    if previous == None {
      return [Event(BaselineObserved, Agent, FirstObservation)];
    }
    events := DeriveChanges(previous.value, current);
    DerivedAreRanked(previous.value, current);
    AllTell(previous.value, current);
    if WellFormed(previous.value) && WellFormed(current) { DerivedRecount(previous.value, current); }
  }

  // One loop per rule family.
  method DeriveChanges(p: Observation, current: Observation) returns (events: seq<Event>)
    ensures events == Derive(Some(p), current)
  {
    events := [];
    for i := 0 to |COMPONENTS|
      invariant events == Gather(ConfigRule(p, current), COMPONENTS[..i])
    {
      var c := COMPONENTS[i];
      assert COMPONENTS[..i + 1][..i] == COMPONENTS[..i];
      var was, now := ConfigDigest(p, c), ConfigDigest(current, c);
      if was != now {
        events := events + [Event(ConfigChanged(c), c, Digests(NonEmpty(was), NonEmpty(now)))];
      }
    }
    assert COMPONENTS[..|COMPONENTS|] == COMPONENTS;
    var configs := events;
    events := [];
    for i := 0 to |PROBED|
      invariant events == Gather(ValidationRule(p, current), PROBED[..i])
    {
      var c := PROBED[i];
      assert PROBED[..i + 1][..i] == PROBED[..i];
      var was, now := Health(ValidationEntry(p, c)), Health(ValidationEntry(current, c));
      if was.Some? && now.Some? && was != now {
        if now.value {
          events := events + [Event(ValidationRecovered(c), c, NoFacts)];
        } else {
          events := events + [Event(ValidationFailed(c), c, ReturnCode(ValidationEntry(current, c).value.returnCode))];
        }
      }
    }
    assert PROBED[..|PROBED|] == PROBED;
    var validations := events;
    events := [];
    for i := 0 to |PROBED|
      invariant events == Gather(ServiceRule(p, current), PROBED[..i])
    {
      var c := PROBED[i];
      assert PROBED[..i + 1][..i] == PROBED[..i];
      var was, now := Health(ServiceEntry(p, c)), Health(ServiceEntry(current, c));
      if was.Some? && now.Some? && was != now {
        events := events + [Event(if now.value then ServiceUp(c) else ServiceDown(c), c, NoFacts)];
      }
    }
    events := configs + validations + events + UnsafeEvents(p, current);
  }

  function Ids(previous: StateDigest, current: StateDigest, events: seq<Event>): (ids: seq<TransitionId>)
    ensures |ids| == |events|
    ensures forall i :: 0 <= i < |events| ==> ids[i] == TransitionId(previous, current, events[i])
  {
    seq(|events|, i requires 0 <= i < |events| => TransitionId(previous, current, events[i]))
  }

  function TransitionIds(previous: Option<Observation>, current: Observation): seq<TransitionId> {
    Ids(Fingerprint(previous), Fingerprint(Some(current)), Derive(previous, current))
  }

  // ---- properties ---------------------------------------------------------

  lemma {:induction false} GatherEmpty(rule: Component -> seq<Event>, cs: seq<Component>)
    ensures Gather(rule, cs) == [] <==> forall c :: c in cs ==> rule(c) == []
  {
    if cs != [] {
      var last := |cs| - 1;
      GatherEmpty(rule, cs[..last]);
      assert cs == cs[..last] + [cs[last]];
    }
  }

  lemma UnsafeIsSeen(a: Summary, b: Summary)
    requires WellFormedSummary(a) && WellFormedSummary(b) && SummaryDigest(a) == SummaryDigest(b)
    ensures UnsafeEntry(a) == UnsafeEntry(b)
  {
  }

  // An observer transition is silent exactly when the fingerprint is unchanged.
  lemma SilentIffSameFingerprint(previous: Option<Observation>, current: Observation)
    requires WellFormed(current) && (previous.Some? ==> WellFormed(previous.value))
    ensures Derive(previous, current) == [] <==> Fingerprint(previous) == Fingerprint(Some(current))
  {
    if previous.Some? {
      var p := previous.value;
      GatherEmpty(ConfigRule(p, current), COMPONENTS);
      GatherEmpty(ValidationRule(p, current), PROBED);
      GatherEmpty(ServiceRule(p, current), PROBED);
      var rest := ValidationPart(p, current) + ServicePart(p, current);
      if Derive(previous, current) == [] {
        assert ConfigPart(p, current) == [] && rest == [];
        assert ConfigRule(p, current)(Xray) == ConfigRule(p, current)(Nginx) == ConfigRule(p, current)(Install) == [];
        assert ValidationRule(p, current)(Xray) == ValidationRule(p, current)(Nginx) == [];
        assert ServiceRule(p, current)(Xray) == ServiceRule(p, current)(Nginx) == [];
      }
      if Fingerprint(previous) == Fingerprint(Some(current)) {
        assert forall c :: c in COMPONENTS ==> ConfigDigest(p, c) == ConfigDigest(current, c);
        UnsafeIsSeen(p.xrayConfig, current.xrayConfig);
        UnsafeIsSeen(p.nginxConfig, current.nginxConfig);
        UnsafeIsSeen(p.installConfig, current.installConfig);
        assert UnsafePath(p) == UnsafePath(current);
        assert forall c :: c in COMPONENTS ==> ConfigRule(p, current)(c) == [];
        assert forall c :: c in PROBED ==> ValidationRule(p, current)(c) == [] && ServiceRule(p, current)(c) == [];
      }
    }
  }

  // The observer-shape hypothesis is needed: when a present summary loses its
  // `safe` key, an event is derived although the fingerprint did not move.
  lemma MissingSafeKeySplitsFingerprintAndEvents()
    ensures exists p, q :: Fingerprint(Some(p)) == Fingerprint(Some(q)) && Derive(Some(p), q) != []
  {
    var none := Summary(false, None, "", "");
    var p := Observation(Summary(true, None, "", ""), none, none, None, None, None, None, 0);
    var q := Observation(Summary(true, Some(false), "", ""), none, none, None, None, None, None, 0);
    assert UnsafePath(q) && !UnsafePath(p);
    assert Fingerprint(Some(p)) == Fingerprint(Some(q));
    assert |UnsafeEvents(p, q)| == 1;
  }

  // One transition never carries the same identity twice, and has at most eight events.
  lemma TransitionIdsDistinct(previous: Option<Observation>, current: Observation)
    ensures Distinct(TransitionIds(previous, current))
    ensures |TransitionIds(previous, current)| <= 8
  {
    if previous.Some? {
      DerivedAreRanked(previous.value, current);
      RankedIsDistinct(Derive(previous, current), 1, 9);
    }
  }
}
