/** The loop and burn-rate detector: sliding windows per session, pause and resume, eviction by age
    and by count, and a bounded event log (crates/penny-detect/src/lib.rs). Time is in nanoseconds. */
module Detector {
  import opened Outcomes
  import opened Amounts

  const NANOS: int := 1_000_000_000

  datatype LoopAction = AlertOnly | Pause

  datatype Config = Config(
    enabled: bool,
    burnRateThreshold: real,
    loopWindowSeconds: nat,
    loopThreshold: nat,
    loopAction: LoopAction,
    minBurnSeconds: nat,
    maxRecordedEvents: nat,
    retentionSeconds: nat,
    maxSessions: nat)

  datatype Digest = Digest(
    cost: Money,
    toolName: Option<string>,
    toolSucceeded: bool,
    contentHash: int,
    timestamp: int)

  datatype Alert =
    | ToolLoop(toolName: string, failureCount: nat)
    | ContentLoop(similarCount: nat, windowSeconds: int)
    | BurnRate(usdPerHour: real, threshold: real)

  datatype EventKind =
    | Raised(alert: Alert)
    | SessionPaused(trigger: Alert)
    | SessionResumed(pausedAt: int)

  datatype EventRecord = EventRecord(sessionId: string, requestId: Option<string>, kind: EventKind, createdAt: int)

  datatype Window = Window(digests: seq<Digest>, lastSeen: int)

  datatype PausedSession = PausedSession(pausedAt: int, trigger: Alert)

  datatype SessionAlert = SessionAlert(alert: Alert, triggeredAt: int)

  datatype FeedResult = FeedResult(alerts: seq<Alert>, paused: bool, events: seq<EventRecord>)

  datatype State = State(
    windows: map<string, Window>,
    paused: map<string, PausedSession>,
    activeAlerts: map<string, SessionAlert>,
    events: seq<EventRecord>)

  function AtLeastOne(n: nat): nat {
    if n == 0 then 1 else n
  }

  function KeepAfter(now: int, seconds: nat): int {
    now - AtLeastOne(seconds) * NANOS
  }

  /** Whole seconds of a span, zero when it is negative. */
  function WholeSeconds(span: int): int {
    if span <= 0 then 0 else span / NANOS
  }

  // ---------------------------------------------------------------- alerts

  function Recent(digests: seq<Digest>, keepAfter: int): seq<Digest> {
    if digests == [] then []
    else
      var last := digests[|digests| - 1];
      var earlier := Recent(digests[..|digests| - 1], keepAfter);
      if last.timestamp >= keepAfter then earlier + [last] else earlier
  }

  predicate FailsTool(d: Digest, toolName: string) {
    d.toolName == Some(toolName) && !d.toolSucceeded
  }

  function CountFailures(window: seq<Digest>, toolName: string): nat {
    if window == [] then 0
    else
      CountFailures(window[..|window| - 1], toolName)
      + if FailsTool(window[|window| - 1], toolName) then 1 else 0
  }

  function CountSimilar(window: seq<Digest>, hash: int): nat {
    if window == [] then 0
    else CountSimilar(window[..|window| - 1], hash) + if window[|window| - 1].contentHash == hash then 1 else 0
  }

  function Earliest(window: seq<Digest>): int
    requires window != []
  {
    var last := window[|window| - 1].timestamp;
    if |window| == 1 then last
    else
      var earlier := Earliest(window[..|window| - 1]);
      if last < earlier then last else earlier
  }

  function SumCost(window: seq<Digest>): int {
    if window == [] then 0 else SumCost(window[..|window| - 1]) + window[|window| - 1].cost
  }

  function ToolFailureAlert(window: seq<Digest>, current: Digest, threshold: nat): Option<Alert> {
    if current.toolName.None? || current.toolSucceeded then None
    else
      var count := CountFailures(window, current.toolName.value);
      if count < threshold then None else Some(ToolLoop(current.toolName.value, count))
  }

  function ContentSimilarityAlert(window: seq<Digest>, current: Digest, threshold: nat): Option<Alert> {
    var count := CountSimilar(window, current.contentHash);
    if count < threshold then None
    else
      var span := if window == [] then 0 else WholeSeconds(current.timestamp - Earliest(window));
      Some(ContentLoop(count, span))
  }

  function BurnRateAlert(window: seq<Digest>, threshold: real, minSeconds: nat): Option<Alert> {
    if threshold <= 0.0 || |window| < 2 then None
    else
      var seconds := WholeSeconds(window[|window| - 1].timestamp - window[0].timestamp);
      var elapsed := if seconds < 1 then 1 else seconds;
      if elapsed < AtLeastOne(minSeconds) then None
      else
        var usdPerHour := (SumCost(window) as real / 1000000.0) / (elapsed as real / 3600.0);
        if usdPerHour <= threshold then None else Some(BurnRate(usdPerHour, threshold))
  }

  function Listed(alert: Option<Alert>): seq<Alert> {
    match alert
    case None => []
    case Some(a) => [a]
  }

  function DetectAlerts(config: Config, window: seq<Digest>, current: Digest): seq<Alert> {
    var threshold := AtLeastOne(config.loopThreshold);
    Listed(ToolFailureAlert(window, current, threshold))
    + Listed(ContentSimilarityAlert(window, current, threshold))
    + Listed(BurnRateAlert(window, config.burnRateThreshold, config.minBurnSeconds))
  }

  predicate IsLoop(alert: Alert) {
    alert.ToolLoop? || alert.ContentLoop?
  }

  /** The first loop alert of a feed, which is what a pause records. */
  function FirstLoop(alerts: seq<Alert>): Option<Alert> {
    if alerts == [] then None else if IsLoop(alerts[0]) then Some(alerts[0]) else FirstLoop(alerts[1..])
  }

  // ---------------------------------------------------------------- the steps of a feed

  predicate StalePause(st: State, keepAfter: int, s: string)
    requires s in st.paused
  {
    st.paused[s].pausedAt < keepAfter || s !in st.windows
  }

  predicate StaleAlert(st: State, keepAfter: int, s: string)
    requires s in st.activeAlerts
  {
    st.activeAlerts[s].triggeredAt < keepAfter || s !in st.windows
  }

  function KeepWindows(st: State, keepAfter: int): State {
    st.(windows := map s | s in st.windows && st.windows[s].lastSeen >= keepAfter :: st.windows[s])
  }

  function PruneInactive(st: State, now: int, retentionSeconds: nat): State {
    var keepAfter := KeepAfter(now, retentionSeconds);
    var kept := KeepWindows(st, keepAfter);
    kept.(
      paused := map s | s in kept.paused && !StalePause(kept, keepAfter, s) :: kept.paused[s],
      activeAlerts := map s | s in kept.activeAlerts && !StaleAlert(kept, keepAfter, s) :: kept.activeAlerts[s])
  }

  function PushDigest(st: State, config: Config, sessionId: string, digest: Digest): State {
    var before := if sessionId in st.windows then st.windows[sessionId].digests else [];
    var digests := Recent(before + [digest], KeepAfter(digest.timestamp, config.loopWindowSeconds));
    st.(windows := st.windows[sessionId := Window(digests, digest.timestamp)])
  }

  function Overflow(windows: map<string, Window>, maxSessions: nat): nat {
    if |windows| <= maxSessions then 0 else |windows| - maxSessions
  }

  /** The sessions a capacity eviction may choose: as many as overflow, none seen more recently than
      one it keeps. Ties may fall either way. */
  ghost predicate ValidVictims(windows: map<string, Window>, maxSessions: nat, victims: set<string>) {
    && victims <= windows.Keys
    && |victims| == Overflow(windows, maxSessions)
    && forall v, k :: v in victims && k in windows && k !in victims ==> windows[v].lastSeen <= windows[k].lastSeen
  }

  function CapSessions(st: State, maxSessions: nat, victims: set<string>): State {
    if maxSessions == 0 then st.(windows := map[], paused := map[], activeAlerts := map[])
    else st.(windows := st.windows - victims, paused := st.paused - victims, activeAlerts := st.activeAlerts - victims)
  }

  function LastN(events: seq<EventRecord>, n: nat): seq<EventRecord> {
    if |events| <= n then events else events[|events| - n..]
  }

  function AlertEvents(alerts: seq<Alert>, sessionId: string, requestId: Option<string>, now: int): seq<EventRecord> {
    seq(|alerts|, i requires 0 <= i < |alerts| => EventRecord(sessionId, requestId, Raised(alerts[i]), now))
  }

  /** What a feed that raised alerts records and changes beyond the windows. */
  function RaiseAlerts(st: State, config: Config, sessionId: string, requestId: Option<string>, now: int,
                       alerts: seq<Alert>): (State, FeedResult)
    requires alerts != []
  {
    var raised := AlertEvents(alerts, sessionId, requestId, now);
    var active := st.activeAlerts[sessionId := SessionAlert(alerts[0], now)];
    var trigger := FirstLoop(alerts);
    if config.loopAction.Pause? && trigger.Some? then
      var events := raised + [EventRecord(sessionId, requestId, SessionPaused(trigger.value), now)];
      (st.(activeAlerts := active, paused := st.paused[sessionId := PausedSession(now, trigger.value)],
           events := LastN(st.events + events, config.maxRecordedEvents)),
       FeedResult(alerts, true, events))
    else
      (st.(activeAlerts := active, events := LastN(st.events + raised, config.maxRecordedEvents)),
       FeedResult(alerts, false, raised))
  }

  function Conclude(st: State, config: Config, sessionId: string, requestId: Option<string>, now: int,
                    alerts: seq<Alert>): (State, FeedResult)
  {
    if alerts == [] then (st.(activeAlerts := st.activeAlerts - {sessionId}), FeedResult([], false, []))
    else RaiseAlerts(st, config, sessionId, requestId, now, alerts)
  }

  /** The state just before the capacity check of a feed. */
  function Pushed(st: State, config: Config, sessionId: string, digest: Digest): State {
    PushDigest(PruneInactive(st, digest.timestamp, config.retentionSeconds), config, sessionId, digest)
  }

  function FeedAlerts(st: State, config: Config, sessionId: string, digest: Digest): seq<Alert> {
    DetectAlerts(config, Pushed(st, config, sessionId, digest).windows[sessionId].digests, digest)
  }

  function FeedStep(st: State, config: Config, sessionId: string, requestId: Option<string>, digest: Digest,
                    victims: set<string>): (State, FeedResult)
  {
    if !config.enabled then (st, FeedResult([], false, []))
    else
      var alerts := FeedAlerts(st, config, sessionId, digest);
      var capped := CapSessions(Pushed(st, config, sessionId, digest), config.maxSessions, victims);
      Conclude(capped, config, sessionId, requestId, digest.timestamp, alerts)
  }

  function ResumeStep(st: State, config: Config, sessionId: string, requestId: Option<string>, now: int)
    : (State, Option<EventRecord>)
  {
    if sessionId !in st.paused then (st, None)
    else
      var event := EventRecord(sessionId, requestId, SessionResumed(st.paused[sessionId].pausedAt), now);
      (State(st.windows - {sessionId}, st.paused - {sessionId}, st.activeAlerts - {sessionId},
             LastN(st.events + [event], config.maxRecordedEvents)),
       Some(event))
  }

  // ---------------------------------------------------------------- the engine

  class DetectEngine {
    const config: Config
    var windows: map<string, Window>
    var paused: map<string, PausedSession>
    var activeAlerts: map<string, SessionAlert>
    var events: seq<EventRecord>

    constructor (config: Config)
      ensures this.config == config && Contents() == State(map[], map[], map[], [])
    {
      this.config := config;
      windows, paused, activeAlerts, events := map[], map[], map[], [];
    }

    function Contents(): State
      reads this
    {
      State(windows, paused, activeAlerts, events)
    }

    /** `victims` are the sessions the capacity check evicted. */
    method Feed(sessionId: string, requestId: Option<string>, digest: Digest)
      returns (r: FeedResult, ghost victims: set<string>)
      modifies this
      ensures config.enabled ==>
                ValidVictims(Pushed(old(Contents()), config, sessionId, digest).windows, config.maxSessions, victims)
      ensures (Contents(), r) == FeedStep(old(Contents()), config, sessionId, requestId, digest, victims)
    {
      victims := {};
      if !config.enabled {
        return FeedResult([], false, []), victims;
      }
      PruneInactiveSessions(digest.timestamp);
      PushAndPruneWindow(sessionId, digest);
      assert Contents() == Pushed(old(Contents()), config, sessionId, digest);
      var alerts := DetectAlerts(config, windows[sessionId].digests, digest);
      victims := CapSessionCount();
      if alerts == [] {
        activeAlerts := activeAlerts - {sessionId};
        return FeedResult([], false, []), victims;
      }
      r := RecordAlerts(sessionId, requestId, digest.timestamp, alerts);
    }

    method PushAndPruneWindow(sessionId: string, digest: Digest)
      modifies this
      ensures Contents() == PushDigest(old(Contents()), config, sessionId, digest)
    {
      var before := if sessionId in windows then windows[sessionId].digests else [];
      var digests := PruneWindow(before + [digest], KeepAfter(digest.timestamp, config.loopWindowSeconds));
      windows := windows[sessionId := Window(digests, digest.timestamp)];
    }

    method PruneWindow(digests: seq<Digest>, keepAfter: int) returns (kept: seq<Digest>)
      ensures kept == Recent(digests, keepAfter)
    {
      kept := [];
      for i := 0 to |digests|
        invariant kept == Recent(digests[..i], keepAfter)
      {
        assert digests[..i + 1][..i] == digests[..i];
        if digests[i].timestamp >= keepAfter {
          kept := kept + [digests[i]];
        }
      }
      assert digests[..|digests|] == digests;
    }

    method PruneInactiveSessions(now: int)
      modifies this
      ensures Contents() == PruneInactive(old(Contents()), now, config.retentionSeconds)
    {
      var keepAfter := KeepAfter(now, config.retentionSeconds);
      windows := map s | s in windows && windows[s].lastSeen >= keepAfter :: windows[s];
      var kept := Contents();

      var todo, stale := paused.Keys, {};
      while todo != {}
        invariant todo <= paused.Keys && stale <= paused.Keys
        invariant forall s :: s in paused && s !in todo ==> (s in stale <==> StalePause(kept, keepAfter, s))
        invariant stale !! todo
        invariant Contents() == kept
      {
        var s :| s in todo;
        if paused[s].pausedAt < keepAfter || s !in windows {
          stale := stale + {s};
        }
        todo := todo - {s};
      }
      ghost var keptPaused := map s | s in kept.paused && !StalePause(kept, keepAfter, s) :: kept.paused[s];
      paused := paused - stale;
      assert paused == keptPaused;

      todo, stale := activeAlerts.Keys, {};
      while todo != {}
        invariant todo <= activeAlerts.Keys && stale <= activeAlerts.Keys
        invariant forall s :: s in activeAlerts && s !in todo ==> (s in stale <==> StaleAlert(kept, keepAfter, s))
        invariant stale !! todo
        invariant Contents() == kept.(paused := keptPaused)
      {
        var s :| s in todo;
        if activeAlerts[s].triggeredAt < keepAfter || s !in windows {
          stale := stale + {s};
        }
        todo := todo - {s};
      }
      activeAlerts := activeAlerts - stale;
      assert activeAlerts == map s | s in kept.activeAlerts && !StaleAlert(kept, keepAfter, s) :: kept.activeAlerts[s];
    }

    method CapSessionCount() returns (ghost victims: set<string>)
      modifies this
      ensures ValidVictims(old(windows), config.maxSessions, victims)
      ensures Contents() == CapSessions(old(Contents()), config.maxSessions, victims)
    {
      victims := {};
      if config.maxSessions == 0 {
        victims := windows.Keys;
        windows, paused, activeAlerts := map[], map[], map[];
        return;
      }
      if |windows| <= config.maxSessions {
        return;
      }
      var overflow := |windows| - config.maxSessions;
      var candidates := OldestFirst(windows);
      PrefixVictims(windows, candidates, overflow);
      victims := EvictFirst(candidates, overflow);
    }

    method EvictFirst(candidates: seq<string>, count: nat) returns (ghost victims: set<string>)
      requires count <= |candidates| && config.maxSessions > 0
      modifies this
      ensures victims == set j | 0 <= j < count :: candidates[j]
      ensures Contents() == CapSessions(old(Contents()), config.maxSessions, victims)
    {
      victims := {};
      ghost var was := Contents();
      for i := 0 to count
        invariant victims == set j | 0 <= j < i :: candidates[j]
        invariant Contents() == CapSessions(was, config.maxSessions, victims)
      {
        var evict := candidates[i];
        RemoveOneMore(was.windows, victims, evict);
        RemoveOneMore(was.paused, victims, evict);
        RemoveOneMore(was.activeAlerts, victims, evict);
        windows, paused, activeAlerts := windows - {evict}, paused - {evict}, activeAlerts - {evict};
        victims := victims + {evict};
      }
    }

    method OldestFirst(windows: map<string, Window>) returns (candidates: seq<string>)
      ensures SortsSessions(windows, windows.Keys, candidates)
      ensures |candidates| == |windows|
    {
      candidates := [];
      var todo := windows.Keys;
      while todo != {}
        invariant todo <= windows.Keys && SortsSessions(windows, windows.Keys - todo, candidates)
        invariant |candidates| + |todo| == |windows|
      {
        var s :| s in todo;
        InsertSessionFacts(windows, windows.Keys - todo, candidates, s);
        candidates := InsertSession(windows, candidates, s);
        assert windows.Keys - todo + {s} == windows.Keys - (todo - {s});
        todo := todo - {s};
      }
    }

    method RecordAlerts(sessionId: string, requestId: Option<string>, now: int, alerts: seq<Alert>)
      returns (r: FeedResult)
      requires alerts != []
      modifies this
      ensures (Contents(), r) == RaiseAlerts(old(Contents()), config, sessionId, requestId, now, alerts)
    {
      var recorded: seq<EventRecord> := [];
      ghost var was := Contents();
      for i := 0 to |alerts|
        invariant recorded == AlertEvents(alerts[..i], sessionId, requestId, now)
        invariant Contents() == was.(events := LastN(was.events + recorded, config.maxRecordedEvents)) || i == 0
        invariant i == 0 ==> Contents() == was
      {
        var event := EventRecord(sessionId, requestId, Raised(alerts[i]), now);
        PushRecordedEvent(event);
        PushAfter(was.events, recorded, event, config.maxRecordedEvents);
        recorded := recorded + [event];
      }
      assert alerts[..|alerts|] == alerts;
      activeAlerts := activeAlerts[sessionId := SessionAlert(alerts[0], now)];
      var trigger := FirstLoop(alerts);
      if config.loopAction.Pause? && trigger.Some? {
        paused := paused[sessionId := PausedSession(now, trigger.value)];
        var pauseEvent := EventRecord(sessionId, requestId, SessionPaused(trigger.value), now);
        PushRecordedEvent(pauseEvent);
        PushAfter(was.events, recorded, pauseEvent, config.maxRecordedEvents);
        recorded := recorded + [pauseEvent];
        return FeedResult(alerts, true, recorded);
      }
      r := FeedResult(alerts, false, recorded);
    }

    method PushRecordedEvent(event: EventRecord)
      modifies this`events
      ensures events == LastN(old(events) + [event], config.maxRecordedEvents)
    {
      if config.maxRecordedEvents == 0 {
        events := [];
        return;
      }
      events := events + [event];
      ghost var all := events;
      while |events| > config.maxRecordedEvents
        invariant |events| <= |all| && events == all[|all| - |events|..]
        invariant |all| >= config.maxRecordedEvents ==> |events| >= config.maxRecordedEvents
        invariant |all| < config.maxRecordedEvents ==> events == all
      {
        events := events[1..];
      }
    }

    method ResumeSession(sessionId: string, requestId: Option<string>, now: int) returns (r: Option<EventRecord>)
      modifies this
      ensures (Contents(), r) == ResumeStep(old(Contents()), config, sessionId, requestId, now)
    {
      if sessionId !in paused {
        return None;
      }
      var event := EventRecord(sessionId, requestId, SessionResumed(paused[sessionId].pausedAt), now);
      paused := paused - {sessionId};
      windows := windows - {sessionId};
      activeAlerts := activeAlerts - {sessionId};
      PushRecordedEvent(event);
      r := Some(event);
    }
  }

  lemma PushAfter(events: seq<EventRecord>, recorded: seq<EventRecord>, event: EventRecord, n: nat)
    ensures LastN(LastN(events + recorded, n) + [event], n) == LastN(events + (recorded + [event]), n)
    ensures recorded == [] ==> LastN(events + [event], n) == LastN(events + (recorded + [event]), n)
  {
    assert events + (recorded + [event]) == (events + recorded) + [event];
    LastNOnce(events + recorded, event, n);
    if recorded == [] {
      assert recorded + [event] == [event];
    }
  }

  lemma LastNOnce(events: seq<EventRecord>, event: EventRecord, n: nat)
    ensures LastN(LastN(events, n) + [event], n) == LastN(events + [event], n)
  {
    if |events| > n {
      assert events[|events| - n..] + [event] == (events + [event])[|events| - n..];
    }
  }

  // ---------------------------------------------------------------- ordering sessions by age

  /** The listed sessions, each once, oldest last-seen first. */
  ghost predicate SortsSessions(windows: map<string, Window>, members: set<string>, order: seq<string>) {
    && members <= windows.Keys
    && (forall s :: s in members <==> s in order)
    && (forall i, j :: 0 <= i < j < |order| ==> order[i] != order[j])
    && (forall i, j :: 0 <= i < j < |order| ==> windows[order[i]].lastSeen <= windows[order[j]].lastSeen)
  }

  function InsertSession(windows: map<string, Window>, order: seq<string>, s: string): (r: seq<string>)
    requires s in windows && forall x :: x in order ==> x in windows
    ensures |r| == |order| + 1
  {
    if order == [] || windows[s].lastSeen < windows[order[0]].lastSeen then [s] + order
    else [order[0]] + InsertSession(windows, order[1..], s)
  }

  lemma {:induction false} InsertSessionFacts(windows: map<string, Window>, members: set<string>, order: seq<string>,
                                              s: string)
    requires SortsSessions(windows, members, order) && s in windows && s !in members
    ensures SortsSessions(windows, members + {s}, InsertSession(windows, order, s))
    decreases |order|
  {
    var r := InsertSession(windows, order, s);
    if order == [] || windows[s].lastSeen < windows[order[0]].lastSeen {
      assert r == [s] + order;
    } else {
      var first, rest := order[0], order[1..];
      assert order == [first] + rest;
      RestIsSorted(windows, members, order);
      InsertSessionFacts(windows, members - {first}, rest, s);
      PrependOldest(windows, members - {first} + {s}, InsertSession(windows, rest, s), first);
      assert members + {s} == members - {first} + {s} + {first};
    }
  }

  lemma RestIsSorted(windows: map<string, Window>, members: set<string>, order: seq<string>)
    requires SortsSessions(windows, members, order) && order != []
    ensures SortsSessions(windows, members - {order[0]}, order[1..])
  {
    assert order == [order[0]] + order[1..];
  }

  lemma PrependOldest(windows: map<string, Window>, members: set<string>, order: seq<string>, first: string)
    requires SortsSessions(windows, members, order) && first in windows && first !in members
    requires forall x :: x in members ==> windows[first].lastSeen <= windows[x].lastSeen
    ensures SortsSessions(windows, members + {first}, [first] + order)
  {
  }

  lemma PrefixVictims(windows: map<string, Window>, order: seq<string>, n: nat)
    requires SortsSessions(windows, windows.Keys, order) && n <= |order| == |windows|
    ensures var victims := set j | 0 <= j < n :: order[j];
            victims <= windows.Keys && |victims| == n
            && forall v, k :: v in victims && k in windows && k !in victims ==>
                 windows[v].lastSeen <= windows[k].lastSeen
  {
    PrefixSize(order, n);
    var victims := set j | 0 <= j < n :: order[j];
    forall v, k | v in victims && k in windows && k !in victims
      ensures windows[v].lastSeen <= windows[k].lastSeen
    {
      var i :| 0 <= i < n && order[i] == v;
      var j :| 0 <= j < |order| && order[j] == k;
      assert n <= j;
    }
  }

  lemma {:induction false} PrefixSize(order: seq<string>, n: nat)
    requires n <= |order| && forall i, j :: 0 <= i < j < |order| ==> order[i] != order[j]
    ensures |set j | 0 <= j < n :: order[j]| == n
  {
    if n > 0 {
      PrefixSize(order, n - 1);
      var smaller := set j | 0 <= j < n - 1 :: order[j];
      assert (set j | 0 <= j < n :: order[j]) == smaller + {order[n - 1]};
    }
  }

  lemma RemoveOneMore<V>(m: map<string, V>, gone: set<string>, s: string)
    ensures (m - gone) - {s} == m - (gone + {s})
  {
  }
}
