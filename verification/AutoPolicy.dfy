// python/rill_xray_agent/auto_policy.py: cooldowns, the hourly rate window and
// the rollback fuse of automatic applies.

module AutoPolicy {
  import opened Collections

  datatype Config = Config(sameCooldown: int, globalCooldown: int, maxPerHour: nat, fuseLimit: int)

  datatype State = State(lastAuto: int, lastBy: map<string, int>, mutationTimes: seq<int>, consecutiveRollbacks: int,
                         fuseOpen: bool, fuseOpenedAt: Option<int>, fuseAcknowledged: bool,
                         applied: map<string, int>, rolledBack: map<string, int>)

  datatype Block = FusibleClosed | SameRecommendationCooldown | GlobalCooldown | RateLimited

  const HOUR := 3600

  function Fresh(): State {
    State(0, map[], [], 0, false, None, false, map[], map[])
  }

  // The times less than an hour old.
  function Recent(times: seq<int>, now: int): seq<int> {
    if times == [] then []
    else
      var t := times[|times| - 1];
      Recent(times[..|times| - 1], now) + if now - t < HOUR then [t] else []
  }

  predicate Tripped(s: State) {
    s.fuseOpen && !s.fuseAcknowledged
  }

  function LastBy(s: State, rid: string): int {
    if rid in s.lastBy then s.lastBy[rid] else 0
  }

  // Zero means never; every reason is reported, in this order.
  function Blocks(s: State, c: Config, rid: string, now: int): seq<Block> {
    (if Tripped(s) then [FusibleClosed] else [])
    + (if LastBy(s, rid) != 0 && now - LastBy(s, rid) < c.sameCooldown then [SameRecommendationCooldown] else [])
    + (if s.lastAuto != 0 && now - s.lastAuto < c.globalCooldown then [GlobalCooldown] else [])
    + (if |Recent(s.mutationTimes, now)| >= c.maxPerHour then [RateLimited] else [])
    + (if s.consecutiveRollbacks >= c.fuseLimit then [FusibleClosed] else [])
  }

  function Seen(outcomes: map<string, int>, id: Option<string>): bool {
    id.Some? && id.value in outcomes
  }

  function Mark(outcomes: map<string, int>, id: Option<string>, now: int): map<string, int> {
    if id.Some? then outcomes[id.value := now] else outcomes
  }

  function Applied(s: State, rid: string, id: Option<string>, now: int): State {
    if Seen(s.applied, id) then s
    else s.(lastAuto := now, lastBy := s.lastBy[rid := now], mutationTimes := Recent(s.mutationTimes, now) + [now],
            consecutiveRollbacks := if s.fuseOpen then s.consecutiveRollbacks else 0, applied := Mark(s.applied, id, now))
  }

  function RolledBack(s: State, c: Config, id: Option<string>, now: int): State {
    if Seen(s.rolledBack, id) then s
    else
      var n := s.consecutiveRollbacks + 1;
      var counted := s.(consecutiveRollbacks := n, rolledBack := Mark(s.rolledBack, id, now));
      if n >= c.fuseLimit then counted.(fuseOpen := true, fuseOpenedAt := Some(now), fuseAcknowledged := false) else counted
  }

  function Acknowledged(s: State, acknowledged: bool): State {
    if acknowledged && s.fuseOpen then s.(fuseAcknowledged := true, consecutiveRollbacks := 0)
    else if !acknowledged then s.(fuseAcknowledged := false)
    else s
  }

  // Rollbacks of different outcomes, one after another.
  function Rollbacks(s: State, c: Config, ids: seq<string>, now: int): State {
    if ids == [] then s else RolledBack(Rollbacks(s, c, ids[..|ids| - 1], now), c, Some(ids[|ids| - 1]), now)
  }

  // An apply while the fuse is closed starts the count again: after it, the fuse opens
  // with the rollback that reaches the limit and with none before. An open fuse is
  // never closed, nor its count cleared, by an apply.
  lemma {:induction false} FuseCountsFromTheLastApply(s: State, c: Config, rid: string, id: string, ids: seq<string>, now: int)
    requires id !in s.applied && c.fuseLimit > 0
    requires Distinct(ids) && forall i :: 0 <= i < |ids| ==> ids[i] !in s.rolledBack
    ensures var after := Rollbacks(Applied(s, rid, Some(id), now), c, ids, now);
      && after.consecutiveRollbacks == (if s.fuseOpen then s.consecutiveRollbacks else 0) + |ids|
      && (after.fuseOpen <==> s.fuseOpen || |ids| >= c.fuseLimit)
      && (!s.fuseOpen ==> (Tripped(after) <==> |ids| >= c.fuseLimit))
      && (!s.fuseOpen && after.fuseOpen ==> after.fuseOpenedAt == Some(now))
      && (forall k :: k in after.rolledBack <==> k in s.rolledBack || k in ids)
    decreases |ids|
  {
    if ids != [] {
      var n := |ids| - 1;
      FuseCountsFromTheLastApply(s, c, rid, id, ids[..n], now);
      assert ids == ids[..n] + [ids[n]];
      assert ids[n] !in ids[..n];
    }
  }

  // ---- against the full, unpruned history of applies ------------------------------

  datatype Apply = Apply(rid: string, time: int)

  function Times(history: seq<Apply>): seq<int> {
    seq(|history|, i requires 0 <= i < |history| => history[i].time)
  }

  function LastApply(history: seq<Apply>, rid: string): int {
    if history == [] then 0
    else if history[|history| - 1].rid == rid then history[|history| - 1].time
    else LastApply(history[..|history| - 1], rid)
  }

  ghost predicate NonDecreasing(times: seq<int>) {
    forall i, j :: 0 <= i < j < |times| ==> times[i] <= times[j]
  }

  // `kept` is `times` without a prefix that is at least an hour old at `clock`.
  ghost predicate Pruned(kept: seq<int>, times: seq<int>, clock: int) {
    && |kept| <= |times| && kept == times[|times| - |kept|..]
    && forall i :: 0 <= i < |times| - |kept| ==> times[i] <= clock - HOUR
  }

  ghost predicate Mirrors(s: State, history: seq<Apply>, clock: int) {
    && NonDecreasing(Times(history)) && (forall i :: 0 <= i < |history| ==> 0 < history[i].time <= clock)
    && s.lastAuto == (if history == [] then 0 else history[|history| - 1].time)
    && (forall rid :: LastBy(s, rid) == LastApply(history, rid))
    && Pruned(s.mutationTimes, Times(history), clock)
  }

  lemma {:induction false} RecentConcat(a: seq<int>, b: seq<int>, now: int)
    ensures Recent(a + b, now) == Recent(a, now) + Recent(b, now)
    decreases |b|
  {
    if b == [] {
      assert a + b == a;
    } else {
      assert (a + b)[..|a + b| - 1] == a + b[..|b| - 1];
      RecentConcat(a, b[..|b| - 1], now);
    }
  }

  lemma {:induction false} RecentOfOld(times: seq<int>, now: int)
    requires forall i :: 0 <= i < |times| ==> times[i] <= now - HOUR
    ensures Recent(times, now) == []
    decreases |times|
  {
    if times != [] { RecentOfOld(times[..|times| - 1], now); }
  }

  lemma PrunedExtends(kept: seq<int>, times: seq<int>, t: int, clock: int)
    requires Pruned(kept, times, clock)
    ensures Pruned(kept + [t], times + [t], clock)
  {
    assert (times + [t])[|times| - |kept|..] == times[|times| - |kept|..] + [t];
  }

  lemma OldWhenLastIsOld(times: seq<int>, now: int)
    requires NonDecreasing(times) && times != [] && now - times[|times| - 1] >= HOUR
    ensures Pruned([], times, now) && Recent(times, now) == []
  {
    forall i | 0 <= i < |times| ensures times[i] <= now - HOUR {
      assert i == |times| - 1 || times[i] <= times[|times| - 1];
    }
    RecentOfOld(times, now);
  }

  // The recent times are a suffix, when times never decrease.
  lemma {:induction false} RecentIsSuffix(times: seq<int>, now: int)
    requires NonDecreasing(times)
    ensures Pruned(Recent(times, now), times, now)
    decreases |times|
  {
    if times == [] {
    } else if now - times[|times| - 1] >= HOUR {
      OldWhenLastIsOld(times, now);
    } else {
      var n := |times| - 1;
      RecentIsSuffix(times[..n], now);
      PrunedExtends(Recent(times[..n], now), times[..n], times[n], now);
      assert times == times[..n] + [times[n]];
    }
  }

  lemma RecentSkipsOld(times: seq<int>, k: nat, now: int)
    requires k <= |times| && forall i :: 0 <= i < k ==> times[i] <= now - HOUR
    ensures Recent(times[k..], now) == Recent(times, now)
  {
    RecentOfOld(times[..k], now);
    RecentConcat(times[..k], times[k..], now);
    assert times[..k] + times[k..] == times;
  }

  // Pruning is invisible to the rate window at any later time.
  lemma PruningIsInvisible(kept: seq<int>, times: seq<int>, clock: int, now: int)
    requires NonDecreasing(times) && Pruned(kept, times, clock) && clock <= now
    ensures Recent(kept, now) == Recent(times, now)
    ensures Pruned(Recent(kept, now), times, now)
  {
    RecentSkipsOld(times, |times| - |kept|, now);
    RecentIsSuffix(times, now);
  }

  // Every later decision is the one the full history gives.
  function FullBlocks(history: seq<Apply>, s: State, c: Config, rid: string, now: int): seq<Block> {
    (if Tripped(s) then [FusibleClosed] else [])
    + (if LastApply(history, rid) != 0 && now - LastApply(history, rid) < c.sameCooldown then [SameRecommendationCooldown] else [])
    + (if history != [] && now - history[|history| - 1].time < c.globalCooldown then [GlobalCooldown] else [])
    + (if |Recent(Times(history), now)| >= c.maxPerHour then [RateLimited] else [])
    + (if s.consecutiveRollbacks >= c.fuseLimit then [FusibleClosed] else [])
  }

  lemma DecisionsSeeTheFullHistory(s: State, history: seq<Apply>, clock: int, c: Config, rid: string, now: int)
    requires Mirrors(s, history, clock) && clock <= now
    ensures Blocks(s, c, rid, now) == FullBlocks(history, s, c, rid, now)
  {
    PruningIsInvisible(s.mutationTimes, Times(history), clock, now);
  }

  // The promise of the limits for two applies of which `b` came `gap` places later.
  predicate Spaced(a: Apply, b: Apply, gap: nat, c: Config) {
    && b.time - a.time >= c.globalCooldown
    && (a.rid == b.rid ==> b.time - a.time >= c.sameCooldown)
    && (gap >= c.maxPerHour ==> b.time - a.time >= HOUR)
  }

  ghost predicate Paced(history: seq<Apply>, c: Config) {
    forall i, j :: 0 <= i < j < |history| ==> Spaced(history[i], history[j], j - i, c)
  }

  lemma {:induction false} LastApplyIsLatest(history: seq<Apply>, rid: string, i: nat)
    requires i < |history| && history[i].rid == rid && NonDecreasing(Times(history))
    ensures history[i].time <= LastApply(history, rid)
    decreases |history|
  {
    var n := |history| - 1;
    assert Times(history)[i] <= Times(history)[n] || i == n;
    if history[n].rid != rid {
      assert Times(history)[..n] == Times(history[..n]);
      LastApplyIsLatest(history[..n], rid, i);
    }
  }

  ghost predicate Unhurried(history: seq<Apply>, c: Config, rid: string, now: int) {
    && (LastApply(history, rid) == 0 || now - LastApply(history, rid) >= c.sameCooldown)
    && (history == [] || now - history[|history| - 1].time >= c.globalCooldown)
    && |Recent(Times(history), now)| < c.maxPerHour
  }

  lemma AllowedIsUnhurried(history: seq<Apply>, s: State, c: Config, rid: string, now: int)
    requires FullBlocks(history, s, c, rid, now) == []
    ensures Unhurried(history, c, rid, now) && !Tripped(s)
  {
  }

  lemma RecentCounts(history: seq<Apply>, now: int, i: nat)
    requires NonDecreasing(Times(history)) && i < |history| && now - history[i].time < HOUR
    ensures |Recent(Times(history), now)| >= |history| - i
  {
    RecentIsSuffix(Times(history), now);
    assert Times(history)[i] == history[i].time;
  }

  lemma LastIsLatest(history: seq<Apply>, i: nat)
    requires NonDecreasing(Times(history)) && i < |history|
    ensures history[i].time <= history[|history| - 1].time
  {
    var times := Times(history);
    assert i == |history| - 1 || times[i] <= times[|history| - 1];
  }

  lemma {:induction false} RecentAreRecent(times: seq<int>, now: int)
    ensures forall t :: t in Recent(times, now) ==> now - t < HOUR
    decreases |times|
  {
    if times != [] { RecentAreRecent(times[..|times| - 1], now); }
  }

  // The window is not full exactly if the apply that far back is an hour old.
  lemma WindowHasRoomIff(history: seq<Apply>, c: Config, now: int)
    requires NonDecreasing(Times(history))
    ensures |Recent(Times(history), now)| < c.maxPerHour <==>
      c.maxPerHour > 0 && (c.maxPerHour <= |history| ==> now - history[|history| - c.maxPerHour].time >= HOUR)
  {
    var times := Times(history);
    var recent := Recent(times, now);
    RecentIsSuffix(times, now);
    RecentAreRecent(times, now);
    if 0 < c.maxPerHour <= |history| {
      var k := |history| - c.maxPerHour;
      if k >= |times| - |recent| {
        assert recent[k - (|times| - |recent|)] == times[k] == history[k].time;
        assert times[k] in recent;
      } else {
        assert times[k] == history[k].time;
      }
    }
  }

  lemma {:induction false} LastApplyIsOne(history: seq<Apply>, rid: string) returns (i: nat)
    requires LastApply(history, rid) != 0
    ensures i < |history| && history[i].rid == rid && history[i].time == LastApply(history, rid)
    decreases |history|
  {
    i := |history| - 1;
    if history[i].rid != rid { i := LastApplyIsOne(history[..i], rid); }
  }

  // Every reason is given exactly when there is one, over everything that was ever applied.
  lemma ReasonsAre(s: State, history: seq<Apply>, clock: int, c: Config, rid: string, now: int)
    requires Mirrors(s, history, clock) && clock <= now
    ensures var blocks := Blocks(s, c, rid, now);
      && (FusibleClosed in blocks <==> (s.fuseOpen && !s.fuseAcknowledged) || s.consecutiveRollbacks >= c.fuseLimit)
      && (GlobalCooldown in blocks <==> exists i :: 0 <= i < |history| && now - history[i].time < c.globalCooldown)
      && (SameRecommendationCooldown in blocks <==>
            exists i :: 0 <= i < |history| && history[i].rid == rid && now - history[i].time < c.sameCooldown)
      && (RateLimited in blocks <==>
            c.maxPerHour == 0 || (c.maxPerHour <= |history| && now - history[|history| - c.maxPerHour].time < HOUR))
  {
    DecisionsSeeTheFullHistory(s, history, clock, c, rid, now);
    WindowHasRoomIff(history, c, now);
    GlobalCooldownIff(history, c, now);
    SameCooldownIff(history, c, rid, now);
    if LastApply(history, rid) != 0 { var i := LastApplyIsOne(history, rid); }
  }

  // Exactly when an apply is allowed.
  lemma AllowedIff(s: State, history: seq<Apply>, clock: int, c: Config, rid: string, now: int)
    requires Mirrors(s, history, clock) && clock <= now
    ensures Blocks(s, c, rid, now) == [] <==>
      && !(s.fuseOpen && !s.fuseAcknowledged) && s.consecutiveRollbacks < c.fuseLimit
      && (forall i :: 0 <= i < |history| ==> now - history[i].time >= c.globalCooldown)
      && (forall i :: 0 <= i < |history| && history[i].rid == rid ==> now - history[i].time >= c.sameCooldown)
      && c.maxPerHour > 0 && (c.maxPerHour <= |history| ==> now - history[|history| - c.maxPerHour].time >= HOUR)
  {
    DecisionsSeeTheFullHistory(s, history, clock, c, rid, now);
    WindowHasRoomIff(history, c, now);
    GlobalCooldownIff(history, c, now);
    SameCooldownIff(history, c, rid, now);
  }

  lemma GlobalCooldownIff(history: seq<Apply>, c: Config, now: int)
    requires NonDecreasing(Times(history))
    ensures (history == [] || now - history[|history| - 1].time >= c.globalCooldown)
            <==> forall i :: 0 <= i < |history| ==> now - history[i].time >= c.globalCooldown
  {
    forall i | 0 <= i < |history| ensures history[i].time <= history[|history| - 1].time { LastIsLatest(history, i); }
  }

  lemma SameCooldownIff(history: seq<Apply>, c: Config, rid: string, now: int)
    requires NonDecreasing(Times(history)) && forall i :: 0 <= i < |history| ==> 0 < history[i].time
    ensures (LastApply(history, rid) == 0 || now - LastApply(history, rid) >= c.sameCooldown)
            <==> forall i :: 0 <= i < |history| && history[i].rid == rid ==> now - history[i].time >= c.sameCooldown
  {
    forall i | 0 <= i < |history| && history[i].rid == rid ensures 0 < history[i].time <= LastApply(history, rid) {
      LastApplyIsLatest(history, rid, i);
    }
    if LastApply(history, rid) != 0 {
      var i := LastApplyIsOne(history, rid);
    }
  }

  lemma NextIsSpaced(history: seq<Apply>, c: Config, rid: string, evaluatedAt: int, now: int, i: nat)
    requires NonDecreasing(Times(history)) && i < |history| && 0 < history[i].time
    requires Unhurried(history, c, rid, evaluatedAt) && evaluatedAt <= now
    ensures Spaced(history[i], Apply(rid, now), |history| - i, c)
  {
    LastIsLatest(history, i);
    if history[i].rid == rid {
      LastApplyIsLatest(history, rid, i);
    }
    if now - history[i].time < HOUR {
      RecentCounts(history, evaluatedAt, i);
    }
  }

  // An apply that an evaluation allowed keeps the pace.
  lemma AllowedApplyKeepsPace(history: seq<Apply>, c: Config, rid: string, evaluatedAt: int, now: int)
    requires Paced(history, c) && NonDecreasing(Times(history))
    requires forall i :: 0 <= i < |history| ==> 0 < history[i].time
    requires Unhurried(history, c, rid, evaluatedAt) && evaluatedAt <= now
    ensures Paced(history + [Apply(rid, now)], c)
  {
    forall i | 0 <= i < |history| ensures Spaced(history[i], Apply(rid, now), |history| - i, c) {
      NextIsSpaced(history, c, rid, evaluatedAt, now, i);
    }
  }

  lemma ApplyMirrors(s: State, history: seq<Apply>, clock: int, rid: string, id: Option<string>, now: int)
    requires Mirrors(s, history, clock) && 0 < now && clock <= now && !Seen(s.applied, id)
    ensures Mirrors(Applied(s, rid, id, now), history + [Apply(rid, now)], now)
  {
    var after := history + [Apply(rid, now)];
    TimesExtend(history, rid, now);
    HistoryExtends(history, clock, rid, now);
    ApplyExtendsWindow(s, history, clock, now);
    ApplyRemembered(s, history, rid, id, now);
    assert after[|after| - 1] == Apply(rid, now);
  }

  lemma HistoryExtends(history: seq<Apply>, clock: int, rid: string, now: int)
    requires NonDecreasing(Times(history)) && forall i :: 0 <= i < |history| ==> 0 < history[i].time <= clock
    requires 0 < now && clock <= now
    ensures var after := history + [Apply(rid, now)];
      NonDecreasing(Times(after)) && forall i :: 0 <= i < |after| ==> 0 < after[i].time <= now
  {
    TimesExtend(history, rid, now);
  }

  lemma TimesExtend(history: seq<Apply>, rid: string, now: int)
    ensures Times(history + [Apply(rid, now)]) == Times(history) + [now]
  {
  }

  lemma ApplyExtendsWindow(s: State, history: seq<Apply>, clock: int, now: int)
    requires NonDecreasing(Times(history)) && Pruned(s.mutationTimes, Times(history), clock) && clock <= now
    ensures Pruned(Recent(s.mutationTimes, now) + [now], Times(history) + [now], now)
  {
    PruningIsInvisible(s.mutationTimes, Times(history), clock, now);
    PrunedExtends(Recent(s.mutationTimes, now), Times(history), now, now);
  }

  lemma ApplyRemembered(s: State, history: seq<Apply>, rid: string, id: Option<string>, now: int)
    requires (forall r :: LastBy(s, r) == LastApply(history, r)) && !Seen(s.applied, id)
    ensures forall r :: LastBy(Applied(s, rid, id, now), r) == LastApply(history + [Apply(rid, now)], r)
  {
    var after := history + [Apply(rid, now)];
    assert after[..|history|] == history;
    forall r ensures LastBy(Applied(s, rid, id, now), r) == LastApply(after, r) {
      assert LastBy(s, r) == LastApply(history, r);
    }
  }

  lemma PruneMirrors(s: State, history: seq<Apply>, clock: int, now: int)
    requires Mirrors(s, history, clock) && clock <= now
    ensures Mirrors(s.(mutationTimes := Recent(s.mutationTimes, now)), history, now)
  {
    PruningIsInvisible(s.mutationTimes, Times(history), clock, now);
    var pruned := s.(mutationTimes := Recent(s.mutationTimes, now));
    forall r ensures LastBy(pruned, r) == LastApply(history, r) {
      assert LastBy(s, r) == LastApply(history, r);
    }
  }

  lemma OthersMirror(s: State, s': State, history: seq<Apply>, clock: int, now: int)
    requires Mirrors(s, history, clock) && clock <= now
    requires s'.lastAuto == s.lastAuto && s'.lastBy == s.lastBy && s'.mutationTimes == s.mutationTimes
    ensures Mirrors(s', history, now)
  {
    assert forall r :: LastBy(s', r) == LastBy(s, r);
  }

  // Each outcome id is recorded at most once; `ids` are those of all recordings.
  ghost predicate ExactlyOnce(ids: seq<Option<string>>, outcomes: map<string, int>) {
    && (forall k :: k in outcomes <==> Some(k) in ids)
    && (forall i, j :: 0 <= i < j < |ids| && ids[i].Some? ==> ids[i] != ids[j])
  }

  lemma MarkKeepsOnce(ids: seq<Option<string>>, outcomes: map<string, int>, id: Option<string>, now: int)
    requires ExactlyOnce(ids, outcomes) && !Seen(outcomes, id)
    ensures ExactlyOnce(ids + [id], Mark(outcomes, id, now))
  {
    var after := ids + [id];
    forall k ensures k in Mark(outcomes, id, now) <==> Some(k) in after {
      assert k in outcomes <==> Some(k) in ids;
      assert id in after;
    }
    forall i, j | 0 <= i < j < |after| && after[i].Some? ensures after[i] != after[j] {
      assert after[i] in ids;
    }
  }

  // What holds between the calls of a run.
  // `unpaced` counts the applies that no evaluation had allowed.
  ghost predicate Sound(c: Config, s: State, saved: State, history: seq<Apply>, applies: seq<Option<string>>,
                        rollbacks: seq<Option<string>>, clock: int, cleared: Option<Apply>, unpaced: nat) {
    && Mirrors(s, history, clock) && Mirrors(saved, history, clock)
    && saved == s.(mutationTimes := saved.mutationTimes)
    && (unpaced == 0 ==> Paced(history, c))
    && ExactlyOnce(applies, s.applied) && ExactlyOnce(rollbacks, s.rolledBack) && |applies| == |history|
    && (cleared.Some? ==> Unhurried(history, c, cleared.value.rid, cleared.value.time) && cleared.value.time <= clock)
  }

  lemma EvaluationKeepsSound(c: Config, s: State, saved: State, history: seq<Apply>, applies: seq<Option<string>>,
                             rollbacks: seq<Option<string>>, clock: int, cleared: Option<Apply>, unpaced: nat, rid: string, now: int)
    requires Sound(c, s, saved, history, applies, rollbacks, clock, cleared, unpaced) && clock <= now
    ensures Blocks(s, c, rid, now) == FullBlocks(history, s, c, rid, now)
    ensures Sound(c, s.(mutationTimes := Recent(s.mutationTimes, now)), saved, history, applies, rollbacks, now,
                  if Blocks(s, c, rid, now) == [] then Some(Apply(rid, now)) else None, unpaced)
  {
    DecisionsSeeTheFullHistory(s, history, clock, c, rid, now);
    PruneMirrors(s, history, clock, now);
    OthersMirror(saved, saved, history, clock, now);
    if Blocks(s, c, rid, now) == [] {
      AllowedIsUnhurried(history, s, c, rid, now);
    }
  }

  lemma TimeKeepsSound(c: Config, s: State, saved: State, history: seq<Apply>, applies: seq<Option<string>>,
                       rollbacks: seq<Option<string>>, clock: int, cleared: Option<Apply>, unpaced: nat, now: int)
    requires Sound(c, s, saved, history, applies, rollbacks, clock, cleared, unpaced) && clock <= now
    ensures Sound(c, s, saved, history, applies, rollbacks, now, cleared, unpaced)
  {
    OthersMirror(s, s, history, clock, now);
    OthersMirror(saved, saved, history, clock, now);
  }

  // An evaluation allowed exactly this apply, and no other apply came since.
  predicate Allowed(cleared: Option<Apply>, rid: string) {
    cleared.Some? && cleared.value.rid == rid
  }

  lemma ApplyKeepsSound(c: Config, s: State, saved: State, history: seq<Apply>, applies: seq<Option<string>>,
                        rollbacks: seq<Option<string>>, clock: int, cleared: Option<Apply>, unpaced: nat,
                        rid: string, id: Option<string>, now: int)
    requires Sound(c, s, saved, history, applies, rollbacks, clock, cleared, unpaced) && clock <= now && 0 < now
    requires !Seen(s.applied, id)
    ensures var s' := Applied(s, rid, id, now);
      Sound(c, s', s', history + [Apply(rid, now)], applies + [id], rollbacks, now, None,
            if Allowed(cleared, rid) then unpaced else unpaced + 1)
  {
    ApplyMirrors(s, history, clock, rid, id, now);
    MarkKeepsOnce(applies, s.applied, id, now);
    if Allowed(cleared, rid) && unpaced == 0 {
      AllowedApplyKeepsPace(history, c, rid, cleared.value.time, now);
    }
  }

  lemma RollbackKeepsSound(c: Config, s: State, saved: State, history: seq<Apply>, applies: seq<Option<string>>,
                           rollbacks: seq<Option<string>>, clock: int, cleared: Option<Apply>, unpaced: nat, id: Option<string>, now: int)
    requires Sound(c, s, saved, history, applies, rollbacks, clock, cleared, unpaced) && clock <= now && !Seen(s.rolledBack, id)
    ensures Sound(c, RolledBack(s, c, id, now), RolledBack(s, c, id, now), history, applies, rollbacks + [id], now, cleared, unpaced)
  {
    OthersMirror(s, RolledBack(s, c, id, now), history, clock, now);
    MarkKeepsOnce(rollbacks, s.rolledBack, id, now);
  }

  // A missing file is a fresh install.
  lemma FreshIsSound(c: Config)
    ensures Sound(c, Fresh(), Fresh(), [], [], [], 0, None, 0)
  {
    assert Times([]) == [];
    assert forall rid :: LastBy(Fresh(), rid) == 0 == LastApply([], rid);
  }

  class Policy {
    const config: Config
    var state: State
    var saved: State                       // the file
    ghost var history: seq<Apply>          // every apply, never pruned
    ghost var applies: seq<Option<string>> // the outcome id of each apply
    ghost var rollbacks: seq<Option<string>>
    ghost var clock: int                   // the latest time seen
    ghost var cleared: Option<Apply>       // the last evaluation, if it allowed
    ghost var unpaced: nat                 // applies recorded without one

    // Opens the file that an earlier run left, or a fresh one.
    constructor (config: Config, saved: State, ghost history: seq<Apply>, ghost applies: seq<Option<string>>,
                 ghost rollbacks: seq<Option<string>>, ghost clock: int, ghost unpaced: nat)
      requires Sound(config, saved, saved, history, applies, rollbacks, clock, None, unpaced)
      ensures Valid() && this.config == config && state == saved && this.history == history && this.clock == clock
      ensures this.unpaced == unpaced
    {
      this.config, state, this.saved := config, saved, saved;
      this.history, this.applies, this.rollbacks, this.clock, cleared, this.unpaced := history, applies, rollbacks, clock, None, unpaced;
    }

    ghost predicate Valid()
      reads this
    {
      Sound(config, state, saved, history, applies, rollbacks, clock, cleared, unpaced)
    }

    // evaluate: prunes its own copy of the window, writes nothing. Every answer is
    // the one the unpruned history gives.
    method Evaluate(rid: string, now: int) returns (blocked: seq<Block>)
      requires Valid() && clock <= now
      modifies this`state, this`clock, this`cleared
      ensures Valid() && clock == now
      ensures blocked == Blocks(old(state), config, rid, now) == FullBlocks(history, old(state), config, rid, now)
      ensures state == old(state).(mutationTimes := state.mutationTimes)
      ensures blocked == Blocks(state, config, rid, now)
      ensures cleared == if blocked == [] then Some(Apply(rid, now)) else None
    {
      EvaluationKeepsSound(config, state, saved, history, applies, rollbacks, clock, cleared, unpaced, rid, now);
      blocked := Check(rid, now);
      clock := now;
      cleared := if blocked == [] then Some(Apply(rid, now)) else None;
      DecisionsSeeTheFullHistory(state, history, clock, config, rid, now);
    }

    method Check(rid: string, now: int) returns (blocked: seq<Block>)
      modifies this`state
      ensures blocked == Blocks(old(state), config, rid, now)
      ensures state == old(state).(mutationTimes := Recent(old(state).mutationTimes, now))
    {
      blocked := if state.fuseOpen && !state.fuseAcknowledged then [FusibleClosed] else [];
      var lastRec := if rid in state.lastBy then state.lastBy[rid] else 0;
      blocked := blocked + if lastRec != 0 && now - lastRec < config.sameCooldown then [SameRecommendationCooldown] else [];
      blocked := blocked + if state.lastAuto != 0 && now - state.lastAuto < config.globalCooldown then [GlobalCooldown] else [];
      state := state.(mutationTimes := Recent(state.mutationTimes, now));
      blocked := blocked + if |state.mutationTimes| >= config.maxPerHour then [RateLimited] else [];
      blocked := blocked + if state.consecutiveRollbacks >= config.fuseLimit then [FusibleClosed] else [];
    }

    // record_apply: exactly once per outcome id. As long as each recording followed an
    // evaluation that allowed it, the whole history keeps the limits.
    method RecordApply(rid: string, id: Option<string>, now: int)
      requires Valid() && clock <= now && 0 < now
      modifies this
      ensures Valid() && rollbacks == old(rollbacks)
      ensures unpaced == old(unpaced) + if old(Seen(state.applied, id) || Allowed(cleared, rid)) then 0 else 1
      ensures state == Applied(old(state), rid, id, now) && clock == now
      ensures old(Seen(state.applied, id)) ==> cleared == old(cleared)
      ensures if old(Seen(state.applied, id)) then history == old(history) && applies == old(applies)
              else history == old(history) + [Apply(rid, now)] && applies == old(applies) + [id]
    {
      if id.Some? && id.value in state.applied {
        TimeKeepsSound(config, state, saved, history, applies, rollbacks, clock, cleared, unpaced, now);
        clock := now;
        return;
      }
      RecordNew(rid, id, now);
    }

    method RecordNew(rid: string, id: Option<string>, now: int)
      requires Valid() && clock <= now && 0 < now && !Seen(state.applied, id)
      modifies this
      ensures Valid() && rollbacks == old(rollbacks) && clock == now
      ensures unpaced == old(unpaced) + if old(Allowed(cleared, rid)) then 0 else 1
      ensures state == Applied(old(state), rid, id, now)
      ensures history == old(history) + [Apply(rid, now)] && applies == old(applies) + [id]
    {
      ghost var history' := history + [Apply(rid, now)];
      ghost var applies' := applies + [id];
      ghost var unpaced' := if Allowed(cleared, rid) then unpaced else unpaced + 1;
      ApplyKeepsSound(config, state, saved, history, applies, rollbacks, clock, cleared, unpaced, rid, id, now);
      assert Sound(config, Applied(state, rid, id, now), Applied(state, rid, id, now), history', applies', rollbacks, now, None, unpaced');
      MarkApplied(rid, id, now);
      saved, history, applies, clock, cleared, unpaced := state, history', applies', now, None, unpaced';
    }

    method MarkApplied(rid: string, id: Option<string>, now: int)
      requires !Seen(state.applied, id)
      modifies this`state
      ensures state == Applied(old(state), rid, id, now)
    {
      state := state.(lastAuto := now, lastBy := state.lastBy[rid := now]);
      state := state.(mutationTimes := Recent(state.mutationTimes, now));
      state := state.(mutationTimes := state.mutationTimes + [now]);
      if !state.fuseOpen { state := state.(consecutiveRollbacks := 0); }
      if id.Some? { state := state.(applied := state.applied[id.value := now]); }
    }

    // record_rollback: exactly once per outcome id; opens the fuse at the limit.
    method RecordRollback(id: Option<string>, now: int)
      requires Valid() && clock <= now
      modifies this
      ensures Valid() && history == old(history) && applies == old(applies)
      ensures state == RolledBack(old(state), config, id, now)
      ensures rollbacks == if old(Seen(state.rolledBack, id)) then old(rollbacks) else old(rollbacks) + [id]
      ensures clock == now && cleared == old(cleared) && unpaced == old(unpaced)
    {
      if id.Some? && id.value in state.rolledBack {
        TimeKeepsSound(config, state, saved, history, applies, rollbacks, clock, cleared, unpaced, now);
        clock := now;
        return;
      }
      RollbackKeepsSound(config, state, saved, history, applies, rollbacks, clock, cleared, unpaced, id, now);
      MarkRolledBack(id, now);
      saved := state;
      rollbacks, clock := rollbacks + [id], now;
    }

    method MarkRolledBack(id: Option<string>, now: int)
      requires !Seen(state.rolledBack, id)
      modifies this`state
      ensures state == RolledBack(old(state), config, id, now)
    {
      state := state.(consecutiveRollbacks := state.consecutiveRollbacks + 1);
      if state.consecutiveRollbacks >= config.fuseLimit {
        state := state.(fuseOpen := true, fuseOpenedAt := Some(now), fuseAcknowledged := false);
      }
      if id.Some? { state := state.(rolledBack := state.rolledBack[id.value := now]); }
    }

    method AcknowledgeFuse(acknowledged: bool)
      requires Valid()
      modifies this`state, this`saved
      ensures Valid() && state == Acknowledged(old(state), acknowledged) && saved == state
    {
      OthersMirror(state, Acknowledged(state, acknowledged), history, clock, clock);
      if acknowledged && state.fuseOpen {
        state := state.(fuseAcknowledged := true, consecutiveRollbacks := 0);
      } else if !acknowledged {
        state := state.(fuseAcknowledged := false);
      }
      saved := state;
    }

    // A restart forgets what was only pruned in memory; no decision can tell.
    method Restart()
      requires Valid()
      modifies this`state
      ensures Valid() && state == saved
      ensures forall rid, now :: clock <= now ==> Blocks(state, config, rid, now) == Blocks(old(state), config, rid, now)
    {
      forall rid, now | clock <= now ensures Blocks(saved, config, rid, now) == Blocks(state, config, rid, now) {
        DecisionsSeeTheFullHistory(state, history, clock, config, rid, now);
        DecisionsSeeTheFullHistory(saved, history, clock, config, rid, now);
      }
      state := saved;
    }
  }
}
