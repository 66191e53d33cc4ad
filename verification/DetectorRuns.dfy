/** What holds of the detector over whole runs of feeds and resumes. */
module DetectorRuns {
  import opened Outcomes
  import opened Detector

  /** A feed, with the sessions its capacity check happens to evict, or a resume. */
  datatype Input =
    | FeedIn(sessionId: string, requestId: Option<string>, digest: Digest, victims: set<string>)
    | ResumeIn(sessionId: string, requestId: Option<string>, now: int)

  const EMPTY: State := State(map[], map[], map[], [])

  function Next(st: State, config: Config, input: Input): State {
    match input
    case FeedIn(s, r, d, victims) => FeedStep(st, config, s, r, d, victims).0
    case ResumeIn(s, r, now) => ResumeStep(st, config, s, r, now).0
  }

  function After(st: State, config: Config, inputs: seq<Input>): State
    decreases |inputs|
  {
    if inputs == [] then st else After(Next(st, config, inputs[0]), config, inputs[1..])
  }

  ghost predicate Allowed(st: State, config: Config, input: Input) {
    input.FeedIn? && config.enabled ==>
      ValidVictims(Pushed(st, config, input.sessionId, input.digest).windows, config.maxSessions, input.victims)
  }

  /** Every feed evicts sessions that its capacity check may choose. */
  ghost predicate AllowedRun(st: State, config: Config, inputs: seq<Input>)
    decreases |inputs|
  {
    inputs == [] || (Allowed(st, config, inputs[0]) && AllowedRun(Next(st, config, inputs[0]), config, inputs[1..]))
  }

  // ---------------------------------------------------------------- bounded memory

  lemma RemovalSize<V>(m: map<string, V>, gone: set<string>)
    requires gone <= m.Keys
    ensures |m - gone| == |m| - |gone|
  {
    assert (m - gone).Keys == m.Keys - gone;
    assert |m.Keys - gone| == |m.Keys| - |gone|;
    assert |(m - gone).Keys| == |m - gone| && |m.Keys| == |m|;
  }

  lemma ConcludeFacts(st: State, config: Config, s: string, requestId: Option<string>, now: int, alerts: seq<Alert>)
    requires |st.events| <= config.maxRecordedEvents
    ensures var (next, r) := Conclude(st, config, s, requestId, now, alerts);
            next.events == LastN(st.events + r.events, config.maxRecordedEvents)
  {
    assert st.events + [] == st.events;
  }

  lemma ConcludeKeys(st: State, config: Config, s: string, requestId: Option<string>, now: int, alerts: seq<Alert>)
    ensures var (next, r) := Conclude(st, config, s, requestId, now, alerts);
            && next.windows == st.windows && r.alerts == alerts
            && next.activeAlerts.Keys <= st.activeAlerts.Keys + {s}
            && next.paused.Keys <= st.paused.Keys + {s}
            && (s in next.paused ==> s in st.paused || FirstLoop(alerts).Some?)
  {
  }

  function Capped(st: State, config: Config, input: Input): State
    requires input.FeedIn?
  {
    CapSessions(Pushed(st, config, input.sessionId, input.digest), config.maxSessions, input.victims)
  }

  lemma FeedKeys(st: State, config: Config, input: Input)
    requires input.FeedIn? && config.enabled
    ensures var next, capped, s := Next(st, config, input), Capped(st, config, input), input.sessionId;
            && next.windows == capped.windows
            && next.activeAlerts.Keys <= capped.activeAlerts.Keys + {s}
            && next.paused.Keys <= capped.paused.Keys + {s}
            && (s in next.paused ==> s in capped.paused || FirstLoop(FeedAlerts(st, config, s, input.digest)).Some?)
  {
    ConcludeKeys(Capped(st, config, input), config, input.sessionId, input.requestId, input.digest.timestamp,
                 FeedAlerts(st, config, input.sessionId, input.digest));
  }

  lemma CapBounds(p: State, maxSessions: nat, victims: set<string>)
    requires ValidVictims(p.windows, maxSessions, victims)
    ensures |CapSessions(p, maxSessions, victims).windows| <= maxSessions
  {
    RemovalSize(p.windows, victims);
  }

  /** After every feed the tracked windows fit the capacity. */
  lemma FeedBoundsWindows(st: State, config: Config, input: Input)
    requires input.FeedIn? && config.enabled && Allowed(st, config, input)
    ensures |Next(st, config, input).windows| <= config.maxSessions
  {
    FeedKeys(st, config, input);
    CapBounds(Pushed(st, config, input.sessionId, input.digest), config.maxSessions, input.victims);
  }

  function RecordedBy(st: State, config: Config, input: Input): seq<EventRecord> {
    match input
    case FeedIn(s, r, d, victims) => FeedStep(st, config, s, r, d, victims).1.events
    case ResumeIn(s, r, now) =>
      var event := ResumeStep(st, config, s, r, now).1;
      if event.Some? then [event.value] else []
  }

  /** Everything ever recorded over a run, oldest first. */
  function Log(st: State, config: Config, inputs: seq<Input>): seq<EventRecord>
    decreases |inputs|
  {
    if inputs == [] then []
    else RecordedBy(st, config, inputs[0]) + Log(Next(st, config, inputs[0]), config, inputs[1..])
  }

  lemma TailOfTail(log: seq<EventRecord>, more: seq<EventRecord>, n: nat)
    ensures LastN(LastN(log, n) + more, n) == LastN(log + more, n)
  {
  }

  lemma NextKeepsTail(st: State, config: Config, input: Input)
    requires |st.events| <= config.maxRecordedEvents
    ensures Next(st, config, input).events == LastN(st.events + RecordedBy(st, config, input), config.maxRecordedEvents)
  {
    assert st.events + [] == st.events;
    if input.FeedIn? && config.enabled {
      ConcludeFacts(Capped(st, config, input), config, input.sessionId, input.requestId, input.digest.timestamp,
                    FeedAlerts(st, config, input.sessionId, input.digest));
    }
  }

  lemma {:induction false} TailKept(st: State, config: Config, log: seq<EventRecord>, inputs: seq<Input>)
    requires st.events == LastN(log, config.maxRecordedEvents)
    ensures After(st, config, inputs).events == LastN(log + Log(st, config, inputs), config.maxRecordedEvents)
    decreases |inputs|
  {
    if inputs == [] {
      assert log + [] == log;
    } else {
      var recorded := RecordedBy(st, config, inputs[0]);
      var next := Next(st, config, inputs[0]);
      NextKeepsTail(st, config, inputs[0]);
      TailOfTail(log, recorded, config.maxRecordedEvents);
      TailKept(next, config, log + recorded, inputs[1..]);
      assert log + recorded + Log(next, config, inputs[1..]) == log + Log(st, config, inputs);
    }
  }

  /** The recorded events are always the newest ones of the full log, as many as the capacity allows. */
  lemma EventsAreTheTailOfTheLog(config: Config, inputs: seq<Input>)
    ensures After(EMPTY, config, inputs).events == LastN(Log(EMPTY, config, inputs), config.maxRecordedEvents)
  {
    TailKept(EMPTY, config, [], inputs);
    assert [] + Log(EMPTY, config, inputs) == Log(EMPTY, config, inputs);
  }

  // ---------------------------------------------------------------- no orphaned pause

  /** Each feed is stamped later than every one before it, and later than `last`. */
  ghost predicate Increasing(last: int, inputs: seq<Input>)
    decreases |inputs|
  {
    inputs == [] ||
    match inputs[0]
    case FeedIn(_, _, d, _) => d.timestamp > last && Increasing(d.timestamp, inputs[1..])
    case ResumeIn(_, _, _) => Increasing(last, inputs[1..])
  }

  ghost predicate Housed(st: State, last: int) {
    && st.paused.Keys <= st.windows.Keys
    && st.activeAlerts.Keys <= st.windows.Keys
    && forall s :: s in st.windows ==> st.windows[s].lastSeen <= last
  }

  /** The newest session is never the one evicted, as long as one may stay. */
  lemma NewestSurvives(windows: map<string, Window>, maxSessions: nat, victims: set<string>, s: string)
    requires ValidVictims(windows, maxSessions, victims) && maxSessions > 0 && s in windows
    requires forall k :: k in windows && k != s ==> windows[k].lastSeen < windows[s].lastSeen
    ensures s !in victims
  {
    assert |windows.Keys| == |windows|;
    assert victims + (windows.Keys - victims) == windows.Keys;
    var k :| k in windows.Keys - victims;
    assert windows[k].lastSeen <= windows[s].lastSeen;
  }

  lemma PushedIsHoused(st: State, config: Config, s: string, d: Digest, last: int)
    requires Housed(st, last) && d.timestamp > last
    ensures var p := Pushed(st, config, s, d);
            && Housed(p, d.timestamp) && s in p.windows
            && forall k :: k in p.windows && k != s ==> p.windows[k].lastSeen < p.windows[s].lastSeen
  {
  }

  lemma FeedIsHoused(st: State, config: Config, input: Input, last: int)
    requires Housed(st, last) && config.maxSessions > 0
    requires input.FeedIn? && Allowed(st, config, input) && input.digest.timestamp > last
    ensures Housed(Next(st, config, input), input.digest.timestamp)
  {
    if config.enabled {
      var p, s := Pushed(st, config, input.sessionId, input.digest), input.sessionId;
      PushedIsHoused(st, config, s, input.digest, last);
      NewestSurvives(p.windows, config.maxSessions, input.victims, s);
      FeedKeys(st, config, input);
    }
  }

  lemma {:induction false} RunIsHoused(st: State, config: Config, inputs: seq<Input>, last: int) returns (l: int)
    requires Housed(st, last) && config.maxSessions > 0
    requires AllowedRun(st, config, inputs) && Increasing(last, inputs)
    ensures Housed(After(st, config, inputs), l)
    decreases |inputs|
  {
    l := last;
    if inputs != [] {
      var input := inputs[0];
      if input.FeedIn? {
        FeedIsHoused(st, config, input, last);
        l := RunIsHoused(Next(st, config, input), config, inputs[1..], input.digest.timestamp);
      } else {
        l := RunIsHoused(Next(st, config, input), config, inputs[1..], last);
      }
    }
  }

  /** When feeds are strictly ordered in time and one session may be kept, every paused session and
      every session with an active alert still has its window, whatever was evicted. */
  lemma HeldSessionsHaveWindows(config: Config, inputs: seq<Input>, start: int, s: string)
    requires config.maxSessions > 0
    requires AllowedRun(EMPTY, config, inputs) && Increasing(start, inputs)
    ensures var st := After(EMPTY, config, inputs);
            s in st.paused || s in st.activeAlerts ==> s in st.windows
  {
    var l := RunIsHoused(EMPTY, config, inputs, start);
  }

  // ---------------------------------------------------------------- when a feed orphans a session

  /** The table is one over capacity and no other session was seen earlier than this one. */
  ghost predicate CrowdedOut(windows: map<string, Window>, maxSessions: nat, s: string) {
    && s in windows && |windows| == maxSessions + 1
    && forall k :: k in windows ==> windows[k].lastSeen >= windows[s].lastSeen
  }

  /** With at most one session too many, the capacity check may evict a session exactly when it is
      crowded out. */
  lemma EvictionTakes(windows: map<string, Window>, maxSessions: nat, victims: set<string>, s: string)
    requires ValidVictims(windows, maxSessions, victims) && |windows| <= maxSessions + 1
    requires s in victims
    ensures CrowdedOut(windows, maxSessions, s) && victims == {s}
  {
    assert {s} <= victims;
    assert |victims - {s}| == |victims| - 1;
  }

  /** The table never holds more than its capacity between feeds. */
  lemma {:induction false} RunFitsCapacity(st: State, config: Config, inputs: seq<Input>)
    requires config.enabled && AllowedRun(st, config, inputs) && |st.windows| <= config.maxSessions
    ensures |After(st, config, inputs).windows| <= config.maxSessions
    decreases |inputs|
  {
    if inputs != [] {
      var input := inputs[0];
      if input.FeedIn? {
        FeedBoundsWindows(st, config, input);
      } else {
        KeysShrink(Next(st, config, input).windows, st.windows);
      }
      RunFitsCapacity(Next(st, config, input), config, inputs[1..]);
    }
  }

  lemma KeysShrink<V>(smaller: map<string, V>, larger: map<string, V>)
    requires smaller.Keys <= larger.Keys
    ensures |smaller| <= |larger|
  {
    SubsetSize(smaller.Keys, larger.Keys);
    assert |smaller.Keys| == |smaller| && |larger.Keys| == |larger|;
  }

  lemma SubsetSize<T>(smaller: set<T>, larger: set<T>)
    requires smaller <= larger
    ensures |smaller| <= |larger|
  {
    assert larger == smaller + (larger - smaller);
  }

  lemma PushedKeys(st: State, config: Config, s: string, d: Digest)
    ensures var kept := PruneInactive(st, d.timestamp, config.retentionSeconds).windows.Keys;
            Pushed(st, config, s, d).windows.Keys == kept + {s} && kept <= st.windows.Keys
  {
  }

  lemma PushedFitsOneMore(st: State, config: Config, s: string, d: Digest)
    requires |st.windows| <= config.maxSessions
    ensures |Pushed(st, config, s, d).windows| <= config.maxSessions + 1
  {
    PushedKeys(st, config, s, d);
    OneMoreKey(st.windows, Pushed(st, config, s, d).windows, s);
  }

  lemma OneMoreKey<V>(before: map<string, V>, larger: map<string, V>, s: string)
    requires larger.Keys <= before.Keys + {s}
    ensures |larger| <= |before| + 1
  {
    SubsetSize(larger.Keys, before.Keys + {s});
    assert |larger.Keys| == |larger| && |before.Keys| == |before|;
  }

  predicate Held(st: State, s: string) {
    s in st.paused || s in st.activeAlerts
  }

  predicate Orphaned(st: State, s: string) {
    Held(st, s) && s !in st.windows
  }

  predicate Pauses(config: Config, alerts: seq<Alert>) {
    config.loopAction.Pause? && FirstLoop(alerts).Some?
  }

  predicate PauseOrphaned(st: State, s: string) {
    s in st.paused && s !in st.windows
  }

  ghost predicate OrphansOf(st: State, config: Config, input: Input, t: string)
    requires input.FeedIn?
  {
    var next, s := Next(st, config, input), input.sessionId;
    var alerts := FeedAlerts(st, config, s, input.digest);
    && (Orphaned(next, t) <==> t == s && s in input.victims && alerts != [])
    && (PauseOrphaned(next, t) <==> t == s && s in input.victims && Pauses(config, alerts))
  }

  /** Whatever the state before, a feed leaves orphaned at most the session it feeds: that one exactly
      when it is evicted while it alerts, and it is then paused exactly when the alerts pause it. */
  lemma FeedOrphans(st: State, config: Config, input: Input, t: string)
    requires config.enabled && input.FeedIn? && Allowed(st, config, input)
    ensures OrphansOf(st, config, input, t)
  {
    var s, d := input.sessionId, input.digest;
    var capped := Capped(st, config, input);
    var alerts := FeedAlerts(st, config, s, d);
    CappedHolds(Pushed(st, config, s, d), config.maxSessions, input.victims, t);
    Concluded(capped, config, s, input.requestId, d.timestamp, alerts, t);
  }

  lemma CappedHolds(p: State, maxSessions: nat, victims: set<string>, t: string)
    requires ValidVictims(p.windows, maxSessions, victims) && (Held(p, t) ==> t in p.windows)
    ensures var capped := CapSessions(p, maxSessions, victims);
            && (t in capped.windows <==> t in p.windows && t !in victims)
            && (Held(capped, t) ==> t in capped.windows)
  {
    if maxSessions == 0 {
      assert |p.windows.Keys| == |p.windows|;
      AllOfThem(victims, p.windows.Keys);
    }
  }

  lemma AllOfThem<T>(part: set<T>, whole: set<T>)
    requires part <= whole && |part| == |whole|
    ensures part == whole
  {
    assert whole == part + (whole - part);
    assert |whole - part| == 0;
  }

  lemma Concluded(st: State, config: Config, s: string, requestId: Option<string>, now: int, alerts: seq<Alert>,
                  t: string)
    ensures var next := Conclude(st, config, s, requestId, now, alerts).0;
            && next.windows == st.windows
            && (t in next.paused <==> t in st.paused || (t == s && Pauses(config, alerts)))
            && (t in next.activeAlerts <==> if t == s then alerts != [] else t in st.activeAlerts)
  {
  }

  ghost predicate OrphanedBy(st: State, config: Config, input: Input, t: string) {
    Allowed(st, config, input) && Orphaned(Next(st, config, input), t)
  }

  ghost predicate PauseOrphanedBy(st: State, config: Config, input: Input, t: string) {
    Allowed(st, config, input) && PauseOrphaned(Next(st, config, input), t)
  }

  lemma OrphansAreCrowdedOut(st: State, config: Config, input: Input, t: string)
    requires config.enabled && input.FeedIn? && Allowed(st, config, input) && |st.windows| <= config.maxSessions
    requires Orphaned(Next(st, config, input), t)
    ensures var s := input.sessionId;
            var alerts := FeedAlerts(st, config, s, input.digest);
            && CrowdedOut(Pushed(st, config, s, input.digest).windows, config.maxSessions, s) && alerts != []
            && (PauseOrphaned(Next(st, config, input), t) ==> Pauses(config, alerts))
  {
    var s := input.sessionId;
    FeedOrphans(st, config, input, t);
    PushedFitsOneMore(st, config, s, input.digest);
    EvictionTakes(Pushed(st, config, s, input.digest).windows, config.maxSessions, input.victims, s);
  }

  lemma CrowdedOutCanOrphan(st: State, config: Config, s: string, requestId: Option<string>, d: Digest)
    requires config.enabled && CrowdedOut(Pushed(st, config, s, d).windows, config.maxSessions, s)
    ensures var input := FeedIn(s, requestId, d, {s});
            var alerts := FeedAlerts(st, config, s, d);
            && (alerts != [] ==> OrphanedBy(st, config, input, s))
            && (Pauses(config, alerts) ==> PauseOrphanedBy(st, config, input, s))
  {
    FeedOrphans(st, config, FeedIn(s, requestId, d, {s}), s);
  }

  /** Over every run and for its next feed: some allowed eviction orphans a session exactly when the
      fed session alerts and is crowded out, and orphans a pause exactly when it moreover pauses. With
      strictly increasing timestamps and room for one session nobody is ever crowded out. */
  lemma OrphansExactlyWhenCrowdedOut(config: Config, inputs: seq<Input>, s: string, requestId: Option<string>,
                                     d: Digest)
    requires config.enabled && AllowedRun(EMPTY, config, inputs)
    ensures var st := After(EMPTY, config, inputs);
            var alerts := FeedAlerts(st, config, s, d);
            var crowded := CrowdedOut(Pushed(st, config, s, d).windows, config.maxSessions, s);
            && ((exists victims, t :: OrphanedBy(st, config, FeedIn(s, requestId, d, victims), t))
                <==> crowded && alerts != [])
            && ((exists victims, t :: PauseOrphanedBy(st, config, FeedIn(s, requestId, d, victims), t))
                <==> crowded && Pauses(config, alerts))
  {
    var st := After(EMPTY, config, inputs);
    RunFitsCapacity(EMPTY, config, inputs);
    OrphansInAFeed(st, config, s, requestId, d);
  }

  lemma OrphansInAFeed(st: State, config: Config, s: string, requestId: Option<string>, d: Digest)
    requires config.enabled && |st.windows| <= config.maxSessions
    ensures var alerts := FeedAlerts(st, config, s, d);
            var crowded := CrowdedOut(Pushed(st, config, s, d).windows, config.maxSessions, s);
            && ((exists victims, t :: OrphanedBy(st, config, FeedIn(s, requestId, d, victims), t))
                <==> crowded && alerts != [])
            && ((exists victims, t :: PauseOrphanedBy(st, config, FeedIn(s, requestId, d, victims), t))
                <==> crowded && Pauses(config, alerts))
  {
    var alerts := FeedAlerts(st, config, s, d);
    var crowded := CrowdedOut(Pushed(st, config, s, d).windows, config.maxSessions, s);
    forall victims, t | OrphanedBy(st, config, FeedIn(s, requestId, d, victims), t)
      ensures crowded && alerts != []
    {
      OrphansAreCrowdedOut(st, config, FeedIn(s, requestId, d, victims), t);
    }
    forall victims, t | PauseOrphanedBy(st, config, FeedIn(s, requestId, d, victims), t)
      ensures crowded && Pauses(config, alerts)
    {
      OrphansAreCrowdedOut(st, config, FeedIn(s, requestId, d, victims), t);
    }
    if crowded {
      CrowdedOutCanOrphan(st, config, s, requestId, d);
    }
  }

  /** Two sessions fed at one instant, with room for one and a threshold of one. */
  function TiedRun(d: Digest): seq<Input> {
    [FeedIn("a", None, d, {}), FeedIn("b", None, d, {"b"})]
  }

  lemma TiesCanOrphanAPause(config: Config, d: Digest)
    requires config.enabled && config.loopAction.Pause? && config.loopThreshold == 1 && config.maxSessions == 1
    ensures AllowedRun(EMPTY, config, TiedRun(d))
    ensures PauseOrphaned(After(EMPTY, config, TiedRun(d)), "b")
  {
    var first, second := FeedIn("a", None, d, {}), FeedIn("b", None, d, {"b"});
    FirstFeed(config, "a", d);
    AfterTwo(EMPTY, config, first, second);
    SecondFeed(Next(EMPTY, config, first), config, d);
    CrowdedOutCanOrphan(Next(EMPTY, config, first), config, "b", None, d);
  }

  lemma AfterTwo(st: State, config: Config, first: Input, second: Input)
    ensures After(st, config, [first, second]) == Next(Next(st, config, first), config, second)
    ensures AllowedRun(st, config, [first, second])
            <==> Allowed(st, config, first) && Allowed(Next(st, config, first), config, second)
  {
    var st1 := Next(st, config, first);
    assert [first, second][1..] == [second] && [second][1..] == [];
    assert After(st1, config, [second]) == After(Next(st1, config, second), config, []);
    assert AllowedRun(st1, config, [second]) <==> Allowed(st1, config, second);
  }

  lemma {:induction false} LoopAmong(before: seq<Alert>, loop: Alert, behind: seq<Alert>)
    requires IsLoop(loop)
    ensures FirstLoop(before + [loop] + behind).Some?
  {
    var all := before + [loop] + behind;
    if before == [] {
      assert all[0] == loop;
    } else {
      assert all[0] == before[0] && all[1..] == before[1..] + [loop] + behind;
      LoopAmong(before[1..], loop, behind);
    }
  }

  lemma PushedWindow(st: State, config: Config, s: string, d: Digest)
    ensures var p := Pushed(st, config, s, d).windows;
            && s in p && p[s].lastSeen == d.timestamp
            && p[s].digests != [] && p[s].digests[|p[s].digests| - 1] == d
  {
    var pruned := PruneInactive(st, d.timestamp, config.retentionSeconds);
    var before := if s in pruned.windows then pruned.windows[s].digests else [];
    RecentPush(before, d, KeepAfter(d.timestamp, config.loopWindowSeconds));
  }

  lemma LoneDigestAlerts(config: Config, window: seq<Digest>, d: Digest)
    requires config.loopThreshold == 1 && window != [] && window[|window| - 1] == d
    ensures FirstLoop(DetectAlerts(config, window, d)).Some?
  {
    var threshold := AtLeastOne(config.loopThreshold);
    var similar := ContentSimilarityAlert(window, d, threshold);
    assert CountSimilar(window, d.contentHash) >= 1;
    assert similar.Some? && IsLoop(similar.value);
    LoopAmong(Listed(ToolFailureAlert(window, d, threshold)), similar.value,
              Listed(BurnRateAlert(window, config.burnRateThreshold, config.minBurnSeconds)));
  }

  lemma FirstFeed(config: Config, a: string, d: Digest)
    requires config.enabled && config.maxSessions == 1
    ensures var first := FeedIn(a, None, d, {});
            var windows := Next(EMPTY, config, first).windows;
            Allowed(EMPTY, config, first) && windows.Keys == {a} && windows[a].lastSeen == d.timestamp
  {
    var first := FeedIn(a, None, d, {});
    var p := Pushed(EMPTY, config, a, d);
    PushedKeys(EMPTY, config, a, d);
    PushedWindow(EMPTY, config, a, d);
    assert EMPTY.windows.Keys == {};
    assert p.windows.Keys == {a};
    OneKey(p.windows, a);
    NothingEvicted(EMPTY, config, first);
  }

  lemma OneKey<V>(m: map<string, V>, s: string)
    requires m.Keys == {s}
    ensures |m| == 1
  {
    assert |m.Keys| == |m|;
  }

  lemma TwoKeys<V>(m: map<string, V>, s: string, t: string)
    requires m.Keys == {s, t} && s != t
    ensures |m| == 2
  {
    assert |m.Keys| == |m|;
  }

  lemma SecondFeed(st: State, config: Config, d: Digest)
    requires config.enabled && config.loopAction.Pause? && config.loopThreshold == 1 && config.maxSessions == 1
    requires st.windows.Keys == {"a"} && st.windows["a"].lastSeen == d.timestamp
    ensures CrowdedOut(Pushed(st, config, "b", d).windows, 1, "b")
    ensures Pauses(config, FeedAlerts(st, config, "b", d))
  {
    var p := Pushed(st, config, "b", d);
    KeptWindow(st, config, "b", d, "a");
    PushedKeys(st, config, "b", d);
    PushedWindow(st, config, "b", d);
    assert p.windows.Keys == {"a", "b"};
    TwoKeys(p.windows, "a", "b");
    LoneDigestAlerts(config, p.windows["b"].digests, d);
  }

  lemma KeptWindow(st: State, config: Config, s: string, d: Digest, t: string)
    requires t != s && t in st.windows && st.windows[t].lastSeen == d.timestamp
    ensures t in PruneInactive(st, d.timestamp, config.retentionSeconds).windows
    ensures t in Pushed(st, config, s, d).windows && Pushed(st, config, s, d).windows[t].lastSeen == d.timestamp
  {
  }

  // ---------------------------------------------------------------- grace after a resume

  function WindowSize(st: State, s: string): nat {
    if s in st.windows then |st.windows[s].digests| else 0
  }

  function FeedsOf(inputs: seq<Input>, s: string): nat {
    if inputs == [] then 0
    else (if inputs[0].FeedIn? && inputs[0].sessionId == s then 1 else 0) + FeedsOf(inputs[1..], s)
  }

  lemma {:induction false} CountsFitWindow(window: seq<Digest>, toolName: string, hash: int)
    ensures CountFailures(window, toolName) <= |window| && CountSimilar(window, hash) <= |window|
  {
    if window != [] {
      CountsFitWindow(window[..|window| - 1], toolName, hash);
    }
  }

  lemma {:induction false} RecentIsShorter(digests: seq<Digest>, keepAfter: int)
    ensures |Recent(digests, keepAfter)| <= |digests|
  {
    if digests != [] {
      RecentIsShorter(digests[..|digests| - 1], keepAfter);
    }
  }

  /** A window shorter than the threshold raises no loop alert. */
  lemma ShortWindowsHaveNoLoop(config: Config, window: seq<Digest>, d: Digest)
    requires |window| < AtLeastOne(config.loopThreshold)
    ensures FirstLoop(DetectAlerts(config, window, d)).None?
  {
    CountsFitWindow(window, if d.toolName.Some? then d.toolName.value else "", d.contentHash);
    var burn := BurnRateAlert(window, config.burnRateThreshold, config.minBurnSeconds);
    assert DetectAlerts(config, window, d) == Listed(burn);
  }

  lemma PushedSizes(st: State, config: Config, s: string, d: Digest, other: string)
    ensures var p := Pushed(st, config, s, d);
            && WindowSize(p, other) <= WindowSize(st, other) + (if other == s then 1 else 0)
            && p.paused.Keys <= st.paused.Keys
  {
    var pruned := PruneInactive(st, d.timestamp, config.retentionSeconds);
    var before := if s in pruned.windows then pruned.windows[s].digests else [];
    RecentIsShorter(before + [d], KeepAfter(d.timestamp, config.loopWindowSeconds));
  }

  lemma FeedEffect(st: State, config: Config, input: Input, s: string)
    requires input.FeedIn?
    ensures var next := Next(st, config, input);
            var own := if input.sessionId == s then 1 else 0;
            && WindowSize(next, s) <= WindowSize(st, s) + own
            && (s in next.paused ==>
                  s in st.paused
                  || (own == 1 && WindowSize(st, s) + 1 >= AtLeastOne(config.loopThreshold)))
  {
    if config.enabled {
      var fed, d := input.sessionId, input.digest;
      PushedSizes(st, config, fed, d, s);
      FeedKeys(st, config, input);
      var window := Pushed(st, config, fed, d).windows[fed].digests;
      if |window| < AtLeastOne(config.loopThreshold) {
        ShortWindowsHaveNoLoop(config, window, d);
      }
    }
  }

  lemma {:induction false} GraceOverRun(st: State, config: Config, s: string, inputs: seq<Input>, fed: nat)
    requires WindowSize(st, s) <= fed
    requires s in st.paused ==> fed >= AtLeastOne(config.loopThreshold)
    ensures s in After(st, config, inputs).paused ==> fed + FeedsOf(inputs, s) >= AtLeastOne(config.loopThreshold)
    decreases |inputs|
  {
    if inputs != [] {
      var input := inputs[0];
      var own := if input.FeedIn? && input.sessionId == s then 1 else 0;
      if input.FeedIn? {
        FeedEffect(st, config, input, s);
      }
      GraceOverRun(Next(st, config, input), config, s, inputs[1..], fed + own);
    }
  }

  /** After a successful resume, whatever the state, the timestamps, the evictions and the other
      sessions, the session cannot be paused again before it has been fed as often as the loop
      threshold (at least once). */
  lemma ResumeEarnsAFreshWindow(st: State, config: Config, s: string, requestId: Option<string>, now: int,
                                inputs: seq<Input>)
    requires ResumeStep(st, config, s, requestId, now).1.Some?
    ensures var resumed := ResumeStep(st, config, s, requestId, now).0;
            s !in resumed.paused
            && (s in After(resumed, config, inputs).paused ==>
                  FeedsOf(inputs, s) >= AtLeastOne(config.loopThreshold))
  {
    GraceOverRun(ResumeStep(st, config, s, requestId, now).0, config, s, inputs, 0);
  }

  // ---------------------------------------------------------------- agreement with the full history

  /** Every digest of each session since it was last resumed. */
  type History = map<string, seq<Digest>>

  function Past(history: History, s: string): seq<Digest> {
    if s in history then history[s] else []
  }

  function NextHistory(history: History, st: State, input: Input): History {
    match input
    case FeedIn(s, _, d, _) => history[s := Past(history, s) + [d]]
    case ResumeIn(s, _, _) => if s in st.paused then history - {s} else history
  }

  /** What a detector that forgets nothing raises: it filters the whole history at query time. */
  function FullHistoryAlerts(history: History, config: Config, s: string, d: Digest): seq<Alert> {
    DetectAlerts(config, Recent(Past(history, s) + [d], KeepAfter(d.timestamp, config.loopWindowSeconds)), d)
  }

  ghost predicate AgreesThroughout(st: State, history: History, config: Config, inputs: seq<Input>)
    decreases |inputs|
  {
    inputs == [] ||
    var input := inputs[0];
    && (input.FeedIn? ==>
          FeedStep(st, config, input.sessionId, input.requestId, input.digest, input.victims).1.alerts
          == FullHistoryAlerts(history, config, input.sessionId, input.digest))
    && AgreesThroughout(Next(st, config, input), NextHistory(history, st, input), config, inputs[1..])
  }

  ghost predicate NonDecreasing(last: int, inputs: seq<Input>)
    decreases |inputs|
  {
    inputs == [] ||
    match inputs[0]
    case FeedIn(_, _, d, _) => d.timestamp >= last && NonDecreasing(d.timestamp, inputs[1..])
    case ResumeIn(_, _, _) => NonDecreasing(last, inputs[1..])
  }

  /** No feed finds more sessions than the capacity. */
  ghost predicate NoEviction(st: State, config: Config, inputs: seq<Input>)
    decreases |inputs|
  {
    inputs == [] ||
    var input := inputs[0];
    && (input.FeedIn? ==> |Pushed(st, config, input.sessionId, input.digest).windows| <= config.maxSessions)
    && NoEviction(Next(st, config, inputs[0]), config, inputs[1..])
  }

  ghost predicate AllBefore(digests: seq<Digest>, t: int) {
    forall i :: 0 <= i < |digests| ==> digests[i].timestamp < t
  }

  ghost predicate InStep(st: State, history: History, config: Config, now: int, s: string) {
    var past := Past(history, s);
    if s in st.windows then
      var w := st.windows[s];
      && w.lastSeen <= now
      && w.digests == Recent(past, KeepAfter(w.lastSeen, config.loopWindowSeconds))
      && AllBefore(past, w.lastSeen + 1)
    else AllBefore(past, KeepAfter(now, config.loopWindowSeconds))
  }

  ghost predicate Synced(st: State, history: History, config: Config, now: int) {
    forall s :: InStep(st, history, config, now, s)
  }

  lemma {:induction false} RecentOfNone(digests: seq<Digest>, keepAfter: int)
    requires AllBefore(digests, keepAfter)
    ensures Recent(digests, keepAfter) == []
  {
    if digests != [] {
      RecentOfNone(digests[..|digests| - 1], keepAfter);
    }
  }

  /** Filtering early with an older cutoff does not change what a newer cutoff keeps. */
  lemma {:induction false} RecentOfRecent(digests: seq<Digest>, older: int, newer: int)
    requires older <= newer
    ensures Recent(Recent(digests, older), newer) == Recent(digests, newer)
  {
    if digests != [] {
      var front, last := digests[..|digests| - 1], digests[|digests| - 1];
      RecentOfRecent(front, older, newer);
      if last.timestamp >= older {
        var kept := Recent(digests, older);
        assert kept[..|kept| - 1] == Recent(front, older);
      }
    }
  }

  lemma RecentPush(digests: seq<Digest>, d: Digest, keepAfter: int)
    ensures Recent(digests + [d], keepAfter)
         == Recent(digests, keepAfter) + if d.timestamp >= keepAfter then [d] else []
  {
    assert (digests + [d])[..|digests|] == digests;
  }

  /** The pruned and refilled window of the fed session is its filtered full history. */
  lemma FedWindow(st: State, history: History, config: Config, now: int, s: string, d: Digest)
    requires InStep(st, history, config, now, s) && d.timestamp >= now
    requires AtLeastOne(config.retentionSeconds) >= AtLeastOne(config.loopWindowSeconds)
    ensures Pushed(st, config, s, d).windows[s].digests
         == Recent(Past(history, s) + [d], KeepAfter(d.timestamp, config.loopWindowSeconds))
  {
    var cutoff := KeepAfter(d.timestamp, config.loopWindowSeconds);
    var past := Past(history, s);
    var pruned := PruneInactive(st, d.timestamp, config.retentionSeconds);
    var before := if s in pruned.windows then pruned.windows[s].digests else [];
    RecentPush(before, d, cutoff);
    RecentPush(past, d, cutoff);
    if s in pruned.windows {
      RecentOfRecent(past, KeepAfter(st.windows[s].lastSeen, config.loopWindowSeconds), cutoff);
    } else {
      RecentOfNone(past, cutoff);
    }
  }

  lemma FedInStep(st: State, history: History, config: Config, now: int, fed: string, d: Digest)
    requires InStep(st, history, config, now, fed) && d.timestamp >= now
    requires AtLeastOne(config.retentionSeconds) >= AtLeastOne(config.loopWindowSeconds)
    ensures InStep(Pushed(st, config, fed, d), history[fed := Past(history, fed) + [d]], config, d.timestamp, fed)
  {
    FedWindow(st, history, config, now, fed, d);
    var past' := Past(history, fed) + [d];
    assert AllBefore(past', d.timestamp + 1);
    assert Past(history[fed := past'], fed) == past';
    assert Pushed(st, config, fed, d).windows[fed].lastSeen == d.timestamp;
  }

  lemma PushedInStep(st: State, history: History, config: Config, now: int, fed: string, d: Digest, s: string)
    requires InStep(st, history, config, now, s) && InStep(st, history, config, now, fed) && d.timestamp >= now
    requires AtLeastOne(config.retentionSeconds) >= AtLeastOne(config.loopWindowSeconds)
    ensures InStep(Pushed(st, config, fed, d), history[fed := Past(history, fed) + [d]], config, d.timestamp, s)
  {
    if s == fed {
      FedInStep(st, history, config, now, fed, d);
    }
  }

  lemma FeedKeepsSync(st: State, history: History, config: Config, now: int, input: Input)
    requires config.enabled && input.FeedIn? && Allowed(st, config, input)
    requires Synced(st, history, config, now) && input.digest.timestamp >= now
    requires AtLeastOne(config.retentionSeconds) >= AtLeastOne(config.loopWindowSeconds)
    requires |Pushed(st, config, input.sessionId, input.digest).windows| <= config.maxSessions
    ensures Synced(Next(st, config, input), NextHistory(history, st, input), config, input.digest.timestamp)
    ensures FeedStep(st, config, input.sessionId, input.requestId, input.digest, input.victims).1.alerts
         == FullHistoryAlerts(history, config, input.sessionId, input.digest)
  {
    var fed, d := input.sessionId, input.digest;
    var p := Pushed(st, config, fed, d);
    assert InStep(st, history, config, now, fed);
    FedWindow(st, history, config, now, fed, d);
    FeedRaises(st, config, input);
    NothingEvicted(st, config, input);
    var next, history' := Next(st, config, input), NextHistory(history, st, input);
    forall s
      ensures InStep(next, history', config, d.timestamp, s)
    {
      assert InStep(st, history, config, now, s);
      PushedInStep(st, history, config, now, fed, d, s);
    }
  }

  lemma FeedRaises(st: State, config: Config, input: Input)
    requires config.enabled && input.FeedIn?
    ensures FeedStep(st, config, input.sessionId, input.requestId, input.digest, input.victims).1.alerts
         == FeedAlerts(st, config, input.sessionId, input.digest)
  {
    ConcludeKeys(Capped(st, config, input), config, input.sessionId, input.requestId, input.digest.timestamp,
                 FeedAlerts(st, config, input.sessionId, input.digest));
  }

  lemma NothingEvicted(st: State, config: Config, input: Input)
    requires config.enabled && input.FeedIn? && Allowed(st, config, input)
    requires |Pushed(st, config, input.sessionId, input.digest).windows| <= config.maxSessions
    ensures Next(st, config, input).windows == Pushed(st, config, input.sessionId, input.digest).windows
  {
    var windows := Pushed(st, config, input.sessionId, input.digest).windows;
    FeedKeys(st, config, input);
    CapKeepsAll(Pushed(st, config, input.sessionId, input.digest), config.maxSessions, input.victims, input.sessionId);
  }

  lemma CapKeepsAll(p: State, maxSessions: nat, victims: set<string>, s: string)
    requires ValidVictims(p.windows, maxSessions, victims) && |p.windows| <= maxSessions && s in p.windows
    ensures CapSessions(p, maxSessions, victims).windows == p.windows
  {
    assert |p.windows.Keys| == |p.windows|;
    assert victims == {};
    assert p.windows - victims == p.windows;
  }

  lemma ResumeKeepsSync(st: State, history: History, config: Config, now: int, input: Input)
    requires input.ResumeIn? && Synced(st, history, config, now)
    ensures Synced(Next(st, config, input), NextHistory(history, st, input), config, now)
  {
    forall s
      ensures InStep(Next(st, config, input), NextHistory(history, st, input), config, now, s)
    {
      assert InStep(st, history, config, now, s);
    }
  }

  lemma {:induction false} SyncOverRun(st: State, history: History, config: Config, now: int, inputs: seq<Input>)
    requires config.enabled && AtLeastOne(config.retentionSeconds) >= AtLeastOne(config.loopWindowSeconds)
    requires AllowedRun(st, config, inputs) && NonDecreasing(now, inputs) && NoEviction(st, config, inputs)
    requires Synced(st, history, config, now)
    ensures AgreesThroughout(st, history, config, inputs)
    decreases |inputs|
  {
    if inputs != [] {
      var input := inputs[0];
      var next, history' := Next(st, config, input), NextHistory(history, st, input);
      if input.FeedIn? {
        FeedKeepsSync(st, history, config, now, input);
        SyncOverRun(next, history', config, input.digest.timestamp, inputs[1..]);
      } else {
        ResumeKeepsSync(st, history, config, now, input);
        SyncOverRun(next, history', config, now, inputs[1..]);
      }
    }
  }

  /** With retention at least as long as the loop window, feeds in time order, and no eviction by
      count, every feed of every run raises exactly what a detector that keeps each session's whole
      history since its last resume would raise. */
  lemma DetectorAgreesWithFullHistory(config: Config, inputs: seq<Input>, start: int)
    requires config.enabled && AtLeastOne(config.retentionSeconds) >= AtLeastOne(config.loopWindowSeconds)
    requires AllowedRun(EMPTY, config, inputs) && NonDecreasing(start, inputs) && NoEviction(EMPTY, config, inputs)
    ensures AgreesThroughout(EMPTY, map[], config, inputs)
  {
    SyncOverRun(EMPTY, map[], config, start, inputs);
  }
}
