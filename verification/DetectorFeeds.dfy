/** What one feed raises, records, keeps and expires, in terms of the digests fed and the clock. */
module DetectorFeeds {
  import opened Outcomes
  import opened Detector
  import opened DetectorRuns

  // ---------------------------------------------------------------- counts are cardinalities

  function Where(window: seq<Digest>, holds: Digest -> bool): set<nat> {
    set i | 0 <= i < |window| && holds(window[i])
  }

  lemma WhereSnoc(window: seq<Digest>, holds: Digest -> bool)
    requires window != []
    ensures |Where(window, holds)|
         == |Where(window[..|window| - 1], holds)| + if holds(window[|window| - 1]) then 1 else 0
  {
    var n := |window| - 1;
    var front := Where(window[..n], holds);
    assert forall i :: 0 <= i < n ==> window[..n][i] == window[i];
    assert Where(window, holds) == front + if holds(window[n]) then {n} else {};
  }

  lemma {:induction false} FailuresAreCounted(window: seq<Digest>, toolName: string)
    ensures CountFailures(window, toolName)
         == |set i | 0 <= i < |window| && window[i].toolName == Some(toolName) && !window[i].toolSucceeded|
  {
    var fails := (d: Digest) => d.toolName == Some(toolName) && !d.toolSucceeded;
    assert (set i | 0 <= i < |window| && window[i].toolName == Some(toolName) && !window[i].toolSucceeded)
        == Where(window, fails);
    if window != [] {
      var front := window[..|window| - 1];
      FailuresAreCounted(front, toolName);
      assert (set i | 0 <= i < |front| && front[i].toolName == Some(toolName) && !front[i].toolSucceeded)
          == Where(front, fails);
      WhereSnoc(window, fails);
    }
  }

  lemma {:induction false} SimilarAreCounted(window: seq<Digest>, hash: int)
    ensures CountSimilar(window, hash) == |set i | 0 <= i < |window| && window[i].contentHash == hash|
  {
    var same := (d: Digest) => d.contentHash == hash;
    assert (set i | 0 <= i < |window| && window[i].contentHash == hash) == Where(window, same);
    if window != [] {
      var front := window[..|window| - 1];
      SimilarAreCounted(front, hash);
      assert (set i | 0 <= i < |front| && front[i].contentHash == hash) == Where(front, same);
      WhereSnoc(window, same);
    }
  }

  lemma {:induction false} EarliestIsLeast(window: seq<Digest>) returns (oldest: nat)
    requires window != []
    ensures oldest < |window| && window[oldest].timestamp == Earliest(window)
    ensures forall i :: 0 <= i < |window| ==> window[oldest].timestamp <= window[i].timestamp
  {
    var n := |window| - 1;
    oldest := n;
    if n > 0 {
      var earlier := EarliestIsLeast(window[..n]);
      assert forall i :: 0 <= i < n ==> window[..n][i] == window[i];
      if window[earlier].timestamp <= window[n].timestamp {
        oldest := earlier;
      }
    }
  }

  // ---------------------------------------------------------------- the three alerts

  /** A tool loop is raised exactly when the digest is a failure of a tool that has failed at least so
      often in the window, and reports how often. */
  lemma ToolAlertIsExact(window: seq<Digest>, current: Digest, threshold: nat)
    ensures var failures := set i | 0 <= i < |window| && window[i].toolName == current.toolName && !window[i].toolSucceeded;
            ToolFailureAlert(window, current, threshold)
            == if current.toolName.Some? && !current.toolSucceeded && |failures| >= threshold
               then Some(ToolLoop(current.toolName.value, |failures|)) else None
  {
    if current.toolName.Some? {
      FailuresAreCounted(window, current.toolName.value);
    }
  }

  /** A content loop is raised exactly when the digest's hash is that often in the window; it reports how
      often, and the whole seconds since the oldest digest. */
  lemma ContentAlertIsExact(window: seq<Digest>, current: Digest, threshold: nat) returns (oldest: nat, age: nat)
    requires window != []
    ensures oldest < |window| && forall i :: 0 <= i < |window| ==> window[oldest].timestamp <= window[i].timestamp
    ensures var span := current.timestamp - window[oldest].timestamp;
            if span <= 0 then age == 0 else age * NANOS <= span < (age + 1) * NANOS
    ensures var similar := set i | 0 <= i < |window| && window[i].contentHash == current.contentHash;
            ContentSimilarityAlert(window, current, threshold)
            == if |similar| >= threshold then Some(ContentLoop(|similar|, age)) else None
  {
    oldest := EarliestIsLeast(window);
    age := WholeSeconds(current.timestamp - Earliest(window));
    SimilarAreCounted(window, current.contentHash);
  }

  /** What the digests of a window cost together. */
  function CostOf(window: seq<Digest>): int {
    if window == [] then 0 else window[0].cost + CostOf(window[1..])
  }

  lemma {:induction false} CostOfSnoc(window: seq<Digest>, d: Digest)
    ensures CostOf(window + [d]) == CostOf(window) + d.cost
  {
    var all := window + [d];
    if window == [] {
      assert all[1..] == [];
    } else {
      assert all[0] == window[0] && all[1..] == window[1..] + [d];
      CostOfSnoc(window[1..], d);
    }
  }

  lemma {:induction false} CostIsSummed(window: seq<Digest>)
    ensures SumCost(window) == CostOf(window)
  {
    if window != [] {
      var n := |window| - 1;
      CostIsSummed(window[..n]);
      assert window == window[..n] + [window[n]];
      CostOfSnoc(window[..n], window[n]);
    }
  }

  lemma PerHour(micros: int, seconds: nat) returns (rate: real)
    requires seconds > 0
    ensures rate == (micros as real / 1000000.0) / (seconds as real / 3600.0)
    ensures rate * (seconds as real) * 1000000.0 == micros as real * 3600.0
  {
    var usd, hours := micros as real / 1000000.0, seconds as real / 3600.0;
    rate := usd / hours;
    assert rate * hours == usd;
    assert rate * (seconds as real) == rate * hours * 3600.0;
  }

  /** A burn-rate alert is raised exactly when a threshold is set, two digests span long enough (a span
      counts a second at least), and their cost per hour exceeds the threshold; it reports that rate. */
  lemma BurnAlertIsExact(window: seq<Digest>, threshold: real, minSeconds: nat) returns (seconds: nat, perHour: real)
    requires window != []
    ensures var span := window[|window| - 1].timestamp - window[0].timestamp;
            if span < NANOS then seconds == 1 else seconds * NANOS <= span < (seconds + 1) * NANOS
    ensures perHour * (seconds as real) * 1000000.0 == CostOf(window) as real * 3600.0
    ensures BurnRateAlert(window, threshold, minSeconds)
         == if threshold > 0.0 && |window| >= 2 && seconds >= minSeconds && perHour > threshold
            then Some(BurnRate(perHour, threshold)) else None
  {
    var span := window[|window| - 1].timestamp - window[0].timestamp;
    seconds := if span < NANOS then 1 else span / NANOS;
    CostIsSummed(window);
    perHour := PerHour(SumCost(window), seconds);
    assert WholeSeconds(span) == if span < NANOS then 0 else seconds;
  }

  // ---------------------------------------------------------------- the window a feed looks at

  /** These are the digests at or after the cutoff, in order: `at` says where each one was. */
  predicate AreRecent(digests: seq<Digest>, keepAfter: int, kept: seq<Digest>, at: seq<nat>) {
    && |at| == |kept| && (forall j, k :: 0 <= j < k < |at| ==> at[j] < at[k])
    && (forall j :: 0 <= j < |at| ==> at[j] < |digests| && kept[j] == digests[at[j]])
    && (forall i :: 0 <= i < |digests| ==> (i in at <==> digests[i].timestamp >= keepAfter))
  }

  lemma OneMoreDigest(digests: seq<Digest>, keepAfter: int, kept: seq<Digest>, at: seq<nat>, d: Digest)
    requires AreRecent(digests, keepAfter, kept, at)
    ensures if d.timestamp >= keepAfter then AreRecent(digests + [d], keepAfter, kept + [d], at + [|digests|])
            else AreRecent(digests + [d], keepAfter, kept, at)
  {
    assert forall i :: i in at ==> i < |digests|;
  }

  lemma {:induction false} RecentAreKept(digests: seq<Digest>, keepAfter: int) returns (at: seq<nat>)
    ensures AreRecent(digests, keepAfter, Recent(digests, keepAfter), at)
  {
    at := [];
    if digests != [] {
      var n := |digests| - 1;
      at := RecentAreKept(digests[..n], keepAfter);
      OneMoreDigest(digests[..n], keepAfter, Recent(digests[..n], keepAfter), at, digests[n]);
      assert digests == digests[..n] + [digests[n]];
      if digests[n].timestamp >= keepAfter {
        at := at + [n];
      }
    }
  }

  /** What a session was fed and has not expired, with the digest fed now. */
  function Seen(st: State, config: Config, s: string, d: Digest): seq<Digest> {
    var expiry := d.timestamp - (if config.retentionSeconds == 0 then 1 else config.retentionSeconds) * NANOS;
    (if s in st.windows && st.windows[s].lastSeen >= expiry then st.windows[s].digests else []) + [d]
  }

  lemma WindowIsRecent(st: State, config: Config, s: string, d: Digest)
    ensures var cutoff := d.timestamp - (if config.loopWindowSeconds == 0 then 1 else config.loopWindowSeconds) * NANOS;
            Pushed(st, config, s, d).windows[s].digests == Recent(Seen(st, config, s, d), cutoff)
  {
  }

  /** A feed looks at the digests seen within the loop window. */
  lemma FeedLooksBack(st: State, config: Config, s: string, d: Digest) returns (at: seq<nat>)
    ensures var cutoff := d.timestamp - (if config.loopWindowSeconds == 0 then 1 else config.loopWindowSeconds) * NANOS;
            AreRecent(Seen(st, config, s, d), cutoff, Pushed(st, config, s, d).windows[s].digests, at)
  {
    WindowIsRecent(st, config, s, d);
    at := RecentAreKept(Seen(st, config, s, d), KeepAfter(d.timestamp, config.loopWindowSeconds));
  }

  lemma OwnDigestIsLast(st: State, config: Config, s: string, d: Digest)
    ensures var window := Pushed(st, config, s, d).windows[s].digests;
            window != [] && window[|window| - 1] == d
  {
    var seen := Seen(st, config, s, d);
    WindowIsRecent(st, config, s, d);
    assert seen == seen[..|seen| - 1] + [d];
    RecentPush(seen[..|seen| - 1], d, KeepAfter(d.timestamp, config.loopWindowSeconds));
  }

  /** The alerts of a window, each on its own. */
  lemma AlertsOfWindow(config: Config, window: seq<Digest>, d: Digest)
    returns (tool: seq<Alert>, content: seq<Alert>, burn: seq<Alert>, oldest: nat, age: nat, seconds: nat, perHour: real)
    requires window != []
    ensures DetectAlerts(config, window, d) == tool + content + burn
    ensures var failures := set i | 0 <= i < |window| && window[i].toolName == d.toolName && !window[i].toolSucceeded;
            tool == if d.toolName.Some? && !d.toolSucceeded && |failures| >= AtLeastOne(config.loopThreshold)
                    then [ToolLoop(d.toolName.value, |failures|)] else []
    ensures oldest < |window| && forall i :: 0 <= i < |window| ==> window[oldest].timestamp <= window[i].timestamp
    ensures var span := d.timestamp - window[oldest].timestamp;
            if span <= 0 then age == 0 else age * NANOS <= span < (age + 1) * NANOS
    ensures var similar := set i | 0 <= i < |window| && window[i].contentHash == d.contentHash;
            content == if |similar| >= AtLeastOne(config.loopThreshold) then [ContentLoop(|similar|, age)] else []
    ensures var span := window[|window| - 1].timestamp - window[0].timestamp;
            if span < NANOS then seconds == 1 else seconds * NANOS <= span < (seconds + 1) * NANOS
    ensures perHour * (seconds as real) * 1000000.0 == CostOf(window) as real * 3600.0
    ensures burn == if config.burnRateThreshold > 0.0 && |window| >= 2 && seconds >= AtLeastOne(config.minBurnSeconds)
                       && perHour > config.burnRateThreshold
                    then [BurnRate(perHour, config.burnRateThreshold)] else []
  {
    ToolAlertIsExact(window, d, AtLeastOne(config.loopThreshold));
    oldest, age := ContentAlertIsExact(window, d, AtLeastOne(config.loopThreshold));
    seconds, perHour := BurnAlertIsExact(window, config.burnRateThreshold, AtLeastOne(config.minBurnSeconds));
    tool := Listed(ToolFailureAlert(window, d, AtLeastOne(config.loopThreshold)));
    content := Listed(ContentSimilarityAlert(window, d, AtLeastOne(config.loopThreshold)));
    burn := Listed(BurnRateAlert(window, config.burnRateThreshold, config.minBurnSeconds));
  }

  /** What a feed raises: the tool loop, the content loop and the burn rate of its window, in this order,
      each exactly when it is due. */
  lemma FeedRaisesExactly(st: State, config: Config, s: string, requestId: Option<string>, d: Digest,
                          victims: set<string>)
    returns (window: seq<Digest>, oldest: nat, age: nat, seconds: nat, perHour: real)
    requires config.enabled
    ensures window == Pushed(st, config, s, d).windows[s].digests && window != []
    ensures oldest < |window| && forall i :: 0 <= i < |window| ==> window[oldest].timestamp <= window[i].timestamp
    ensures var span := d.timestamp - window[oldest].timestamp;
            if span <= 0 then age == 0 else age * NANOS <= span < (age + 1) * NANOS
    ensures var span := window[|window| - 1].timestamp - window[0].timestamp;
            if span < NANOS then seconds == 1 else seconds * NANOS <= span < (seconds + 1) * NANOS
    ensures perHour * (seconds as real) * 1000000.0 == CostOf(window) as real * 3600.0
    ensures var threshold := if config.loopThreshold == 0 then 1 else config.loopThreshold;
            var minSeconds := if config.minBurnSeconds == 0 then 1 else config.minBurnSeconds;
            var failures := set i | 0 <= i < |window| && window[i].toolName == d.toolName && !window[i].toolSucceeded;
            var similar := set i | 0 <= i < |window| && window[i].contentHash == d.contentHash;
            FeedStep(st, config, s, requestId, d, victims).1.alerts
            == (if d.toolName.Some? && !d.toolSucceeded && |failures| >= threshold
                then [ToolLoop(d.toolName.value, |failures|)] else [])
               + (if |similar| >= threshold then [ContentLoop(|similar|, age)] else [])
               + (if config.burnRateThreshold > 0.0 && |window| >= 2 && seconds >= minSeconds
                     && perHour > config.burnRateThreshold
                  then [BurnRate(perHour, config.burnRateThreshold)] else [])
  {
    window := Pushed(st, config, s, d).windows[s].digests;
    OwnDigestIsLast(st, config, s, d);
    FeedRaises(st, config, FeedIn(s, requestId, d, victims));
    var tool, content, burn: seq<Alert>;
    tool, content, burn, oldest, age, seconds, perHour := AlertsOfWindow(config, window, d);
  }

  // ---------------------------------------------------------------- what a feed keeps and expires

  lemma PrunedIsFresh(st: State, now: int, retentionSeconds: nat, t: string)
    ensures var p := PruneInactive(st, now, retentionSeconds);
            var cutoff := now - (if retentionSeconds == 0 then 1 else retentionSeconds) * NANOS;
            && (t in p.windows <==> t in st.windows && st.windows[t].lastSeen >= cutoff)
            && (t in p.windows ==> p.windows[t] == st.windows[t])
            && (t in p.paused <==> t in st.paused && st.paused[t].pausedAt >= cutoff && t in p.windows)
            && (t in p.paused ==> p.paused[t] == st.paused[t])
            && (t in p.activeAlerts <==> t in st.activeAlerts && st.activeAlerts[t].triggeredAt >= cutoff && t in p.windows)
            && (t in p.activeAlerts ==> p.activeAlerts[t] == st.activeAlerts[t])
  {
  }

  lemma CappedStays(p: State, maxSessions: nat, victims: set<string>, t: string)
    requires ValidVictims(p.windows, maxSessions, victims)
    requires (t in p.paused || t in p.activeAlerts) ==> t in p.windows
    ensures var capped := CapSessions(p, maxSessions, victims);
            && (t in capped.windows <==> t in p.windows && t !in victims)
            && (t in capped.windows ==> capped.windows[t] == p.windows[t])
            && (t in capped.paused <==> t in p.paused && t !in victims)
            && (t in capped.paused ==> capped.paused[t] == p.paused[t])
            && (t in capped.activeAlerts <==> t in p.activeAlerts && t !in victims)
            && (t in capped.activeAlerts ==> capped.activeAlerts[t] == p.activeAlerts[t])
  {
    CappedHolds(p, maxSessions, victims, t);
  }

  /** Both states hold the same of a session. */
  predicate SameEntries(a: State, b: State, t: string) {
    && (t in a.windows <==> t in b.windows) && (t in a.windows ==> a.windows[t] == b.windows[t])
    && (t in a.paused <==> t in b.paused) && (t in a.paused ==> a.paused[t] == b.paused[t])
    && (t in a.activeAlerts <==> t in b.activeAlerts) && (t in a.activeAlerts ==> a.activeAlerts[t] == b.activeAlerts[t])
  }

  lemma PushKeepsOthers(st: State, config: Config, s: string, d: Digest, t: string)
    requires t != s
    ensures SameEntries(st, PushDigest(st, config, s, d), t)
  {
  }

  lemma ConcludeKeepsOthers(st: State, config: Config, s: string, requestId: Option<string>, now: int,
                            alerts: seq<Alert>, t: string)
    requires t != s
    ensures SameEntries(st, Conclude(st, config, s, requestId, now, alerts).0, t)
  {
  }

  /** A feed expires every other session's window, pause and alert that is older than the retention, and
      keeps the rest as they were, save those of the sessions it evicts. */
  lemma FeedExpiresTheOld(st: State, config: Config, s: string, requestId: Option<string>, d: Digest,
                          victims: set<string>, t: string)
    requires config.enabled && Allowed(st, config, FeedIn(s, requestId, d, victims)) && t != s
    ensures var next := FeedStep(st, config, s, requestId, d, victims).0;
            var cutoff := d.timestamp - (if config.retentionSeconds == 0 then 1 else config.retentionSeconds) * NANOS;
            var stays := t in st.windows && st.windows[t].lastSeen >= cutoff && t !in victims;
            && (t in next.windows <==> stays)
            && (stays ==> next.windows[t] == st.windows[t])
            && (t in next.paused <==> stays && t in st.paused && st.paused[t].pausedAt >= cutoff)
            && (t in next.paused ==> next.paused[t] == st.paused[t])
            && (t in next.activeAlerts <==> stays && t in st.activeAlerts && st.activeAlerts[t].triggeredAt >= cutoff)
            && (t in next.activeAlerts ==> next.activeAlerts[t] == st.activeAlerts[t])
  {
    var pruned := PruneInactive(st, d.timestamp, config.retentionSeconds);
    var pushed := PushDigest(pruned, config, s, d);
    PrunedIsFresh(st, d.timestamp, config.retentionSeconds, t);
    PushKeepsOthers(pruned, config, s, d, t);
    CappedStays(pushed, config.maxSessions, victims, t);
    ConcludeKeepsOthers(CapSessions(pushed, config.maxSessions, victims), config, s, requestId, d.timestamp,
                        FeedAlerts(st, config, s, d), t);
  }

  /** Nothing that a feed leaves behind is older than the retention. */
  lemma NothingOldIsLeft(st: State, config: Config, s: string, requestId: Option<string>, d: Digest,
                         victims: set<string>, t: string)
    requires config.enabled && Allowed(st, config, FeedIn(s, requestId, d, victims))
    ensures var next := FeedStep(st, config, s, requestId, d, victims).0;
            var cutoff := d.timestamp - (if config.retentionSeconds == 0 then 1 else config.retentionSeconds) * NANOS;
            && (t in next.windows ==> next.windows[t].lastSeen >= cutoff)
            && (t in next.paused ==> next.paused[t].pausedAt >= cutoff)
            && (t in next.activeAlerts ==> next.activeAlerts[t].triggeredAt >= cutoff)
  {
    if t == s {
      var r, trigger := FeedConcludes(st, config, s, requestId, d, victims);
    } else {
      FeedExpiresTheOld(st, config, s, requestId, d, victims, t);
    }
  }

  lemma {:induction false} FirstLoopIsFirst(alerts: seq<Alert>) returns (i: nat)
    ensures i <= |alerts| && forall j :: 0 <= j < i ==> alerts[j].BurnRate?
    ensures FirstLoop(alerts) == if i < |alerts| then Some(alerts[i]) else None
    ensures i < |alerts| ==> !alerts[i].BurnRate?
  {
    i := 0;
    if alerts != [] && alerts[0].BurnRate? {
      var rest := FirstLoopIsFirst(alerts[1..]);
      i := rest + 1;
      assert forall j :: 0 < j < |alerts| ==> alerts[j] == alerts[1..][j - 1];
    }
  }

  /** What a feed leaves of its own session, and reports: it is paused now exactly when pausing is
      configured and some alert is a loop, for the first of them (`trigger` is its place); it holds an alert
      exactly when one was raised, the first; each alert is an event, and then the pause. */
  lemma FeedConcludes(st: State, config: Config, s: string, requestId: Option<string>, d: Digest, victims: set<string>)
    returns (r: FeedResult, trigger: nat)
    requires config.enabled && Allowed(st, config, FeedIn(s, requestId, d, victims))
    ensures r == FeedStep(st, config, s, requestId, d, victims).1
    ensures trigger <= |r.alerts| && forall j :: 0 <= j < trigger ==> r.alerts[j].BurnRate?
    ensures trigger < |r.alerts| ==> !r.alerts[trigger].BurnRate?
    ensures r.paused <==> config.loopAction.Pause? && trigger < |r.alerts|
    ensures |r.events| == |r.alerts| + if r.paused then 1 else 0
    ensures forall i :: 0 <= i < |r.alerts| ==>
              r.events[i] == EventRecord(s, requestId, Raised(r.alerts[i]), d.timestamp)
    ensures r.paused ==>
              r.events[|r.alerts|] == EventRecord(s, requestId, SessionPaused(r.alerts[trigger]), d.timestamp)
    ensures var next := FeedStep(st, config, s, requestId, d, victims).0;
            && (s in next.windows <==> s !in victims)
            && (s in next.windows ==> next.windows[s].lastSeen == d.timestamp)
            && (s in next.activeAlerts <==> r.alerts != [])
            && (s in next.activeAlerts ==> next.activeAlerts[s] == SessionAlert(r.alerts[0], d.timestamp))
    ensures var next := FeedStep(st, config, s, requestId, d, victims).0;
            var cutoff := d.timestamp - (if config.retentionSeconds == 0 then 1 else config.retentionSeconds) * NANOS;
            if r.paused then s in next.paused && next.paused[s] == PausedSession(d.timestamp, r.alerts[trigger])
            else
              && (s in next.paused <==>
                    && s in st.paused && st.paused[s].pausedAt >= cutoff && s !in victims
                    && s in st.windows && st.windows[s].lastSeen >= cutoff)
              && (s in next.paused ==> next.paused[s] == st.paused[s])
  {
    var pruned := PruneInactive(st, d.timestamp, config.retentionSeconds);
    var pushed := PushDigest(pruned, config, s, d);
    PrunedIsFresh(st, d.timestamp, config.retentionSeconds, s);
    PushOwn(pruned, config, s, d);
    CappedStays(pushed, config.maxSessions, victims, s);
    r, trigger := ConcludeOwn(CapSessions(pushed, config.maxSessions, victims), config, s, requestId, d.timestamp,
                              FeedAlerts(st, config, s, d));
  }

  lemma PushOwn(st: State, config: Config, s: string, d: Digest)
    ensures var p := PushDigest(st, config, s, d);
            && s in p.windows && p.windows[s].lastSeen == d.timestamp
            && p.paused == st.paused && p.activeAlerts == st.activeAlerts
  {
  }

  lemma ConcludeOwn(st: State, config: Config, s: string, requestId: Option<string>, now: int, alerts: seq<Alert>)
    returns (r: FeedResult, trigger: nat)
    ensures r == Conclude(st, config, s, requestId, now, alerts).1 && r.alerts == alerts
    ensures trigger <= |r.alerts| && forall j :: 0 <= j < trigger ==> r.alerts[j].BurnRate?
    ensures trigger < |r.alerts| ==> !r.alerts[trigger].BurnRate?
    ensures r.paused <==> config.loopAction.Pause? && trigger < |r.alerts|
    ensures |r.events| == |r.alerts| + if r.paused then 1 else 0
    ensures forall i :: 0 <= i < |r.alerts| ==> r.events[i] == EventRecord(s, requestId, Raised(r.alerts[i]), now)
    ensures r.paused ==> r.events[|r.alerts|] == EventRecord(s, requestId, SessionPaused(r.alerts[trigger]), now)
    ensures var next := Conclude(st, config, s, requestId, now, alerts).0;
            && next.windows == st.windows
            && (s in next.activeAlerts <==> r.alerts != [])
            && (s in next.activeAlerts ==> next.activeAlerts[s] == SessionAlert(r.alerts[0], now))
            && (r.paused ==> s in next.paused && next.paused[s] == PausedSession(now, r.alerts[trigger]))
            && (!r.paused ==> next.paused == st.paused)
  {
    r := Conclude(st, config, s, requestId, now, alerts).1;
    trigger := FirstLoopIsFirst(alerts);
  }

  /** A detector that is switched off changes nothing and raises nothing. */
  lemma DisabledFeedDoesNothing(st: State, config: Config, s: string, requestId: Option<string>, d: Digest,
                                victims: set<string>)
    requires !config.enabled
    ensures FeedStep(st, config, s, requestId, d, victims) == (st, FeedResult([], false, []))
  {
  }

  /** A resume of a paused session forgets all three of its entries and no other session's, and records
      since when it was paused; any other resume does nothing. */
  lemma ResumeForgetsTheSession(st: State, config: Config, s: string, requestId: Option<string>, now: int, t: string)
    ensures var (next, event) := ResumeStep(st, config, s, requestId, now);
            if s !in st.paused then next == st && event == None
            else
              && event == Some(EventRecord(s, requestId, SessionResumed(st.paused[s].pausedAt), now))
              && (t in next.windows <==> t in st.windows && t != s)
              && (t in next.windows ==> next.windows[t] == st.windows[t])
              && (t in next.paused <==> t in st.paused && t != s)
              && (t in next.paused ==> next.paused[t] == st.paused[t])
              && (t in next.activeAlerts <==> t in st.activeAlerts && t != s)
              && (t in next.activeAlerts ==> next.activeAlerts[t] == st.activeAlerts[t])
  {
  }
}
