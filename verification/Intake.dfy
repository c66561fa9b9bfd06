/**
 Event intake of pkg/kube/watcher.go: age filter, enrichment and counters over whole runs of informer
 notifications.
 */
module Intake {
  import opened Kube
  import opened MetadataCache

  // ---------- Durations are 64-bit ----------

  const MAX_INT64: int := 0x7FFF_FFFF_FFFF_FFFF
  const MIN_INT64: int := -0x8000_0000_0000_0000
  const NANOS: int := 1_000_000_000

  function Wrap64(x: int): int {
    var m := x % 0x1_0000_0000_0000_0000;
    if m > MAX_INT64 then m - 0x1_0000_0000_0000_0000 else m
  }

  /** time.Since saturates. */
  function Since(now: Time, t: Time): int {
    if now - t > MAX_INT64 then MAX_INT64 else if now - t < MIN_INT64 then MIN_INT64 else now - t
  }

  /** time.Second * time.Duration(seconds) */
  function MaxAge(seconds: int): int { Wrap64(seconds * NANOS) }

  lemma WrapEven(x: int)
    ensures Wrap64(2 * x) != MAX_INT64
  {
    var m := (2 * x) % 0x1_0000_0000_0000_0000;
    var q := (2 * x) / 0x1_0000_0000_0000_0000;
    assert m == 2 * (x - 0x8000_0000_0000_0000 * q);
  }

  /** Saturation never matters to the age test: no limit is the largest duration. */
  lemma SaturationHarmless(seconds: int, now: Time, t: Time)
    ensures Since(now, t) > MaxAge(seconds) <==> now - t > MaxAge(seconds)
  {
    WrapEven(seconds * 500_000_000);
    assert seconds * NANOS == 2 * (seconds * 500_000_000);
  }

  /** The limit is the configured number of seconds in nanoseconds, modulo 2 to the 64th, as a signed number. */
  lemma MaxAgeWraps(seconds: int)
    ensures -0x8000_0000_0000_0000 <= MaxAge(seconds) < 0x8000_0000_0000_0000
    ensures exists turns: int :: MaxAge(seconds) == seconds * 1_000_000_000 - Turns(turns)
  {
    var x := seconds * NANOS;
    var q := x / 0x1_0000_0000_0000_0000;
    assert MaxAge(seconds) == x - Turns(q) || MaxAge(seconds) == x - Turns(q + 1);
  }

  function Turns(n: int): int { n * 0x1_0000_0000_0000_0000 }

  /** The age test compares with the configured number of seconds, for all events, if and only if that
      number of nanoseconds fits 64 bits. */
  lemma AgeTestExactIff(seconds: int)
    ensures (forall now: Time, t: Time {:trigger Since(now, t)} ::
               Since(now, t) > MaxAge(seconds) <==> now - t > seconds * 1_000_000_000)
            <==> -0x8000_0000_0000_0000 <= seconds * 1_000_000_000 < 0x8000_0000_0000_0000
  {
    var limit := seconds * NANOS;
    if MIN_INT64 <= limit <= MAX_INT64 {
      forall now: Time, t: Time ensures Since(now, t) > MaxAge(seconds) <==> now - t > limit {
        SaturationHarmless(seconds, now, t);
      }
    } else {
      var d := if limit > MaxAge(seconds) then limit else MaxAge(seconds);
      SaturationHarmless(seconds, d, 0);
      assert !(Since(d, 0) > MaxAge(seconds) <==> d - 0 > limit);
    }
  }

  // ---------- Specification ----------

  datatype Config = Config(maxEventAgeSeconds: int, omitLookup: bool, startUpTime: Time)

  /** The first of series, last and event time that is set. */
  function Timestamp(ev: CoreEvent): Time {
    if ev.series.Some? && ev.series.value != ZERO_TIME then ev.series.value
    else if ev.lastTimestamp != ZERO_TIME then ev.lastTimestamp
    else ev.eventTime
  }

  predicate TooOld(cfg: Config, ev: CoreEvent, now: Time) {
    Since(now, Timestamp(ev)) > MaxAge(cfg.maxEventAgeSeconds)
  }

  predicate HasSeriesTime(ev: CoreEvent) { ev.series.Some? && ev.series.value != ZERO_TIME }

  /** Which field decides an event's age: the time of its series if there is one, else the last timestamp if
      it is set, else the event time. */
  lemma DecidingField(cfg: Config, ev: CoreEvent, now: Time)
    ensures HasSeriesTime(ev) ==> (TooOld(cfg, ev, now) <==> now - ev.series.value > MaxAge(cfg.maxEventAgeSeconds))
    ensures !HasSeriesTime(ev) && ev.lastTimestamp != ZERO_TIME ==>
              (TooOld(cfg, ev, now) <==> now - ev.lastTimestamp > MaxAge(cfg.maxEventAgeSeconds))
    ensures !HasSeriesTime(ev) && ev.lastTimestamp == ZERO_TIME ==>
              (TooOld(cfg, ev, now) <==> now - ev.eventTime > MaxAge(cfg.maxEventAgeSeconds))
  {
    SaturationHarmless(cfg.maxEventAgeSeconds, now, Timestamp(ev));
  }

  /** An event without any time is discarded at any moment since 1970, whatever the limit: it is older than
      the largest duration. */
  lemma TimelessIsDiscarded(cfg: Config, ev: CoreEvent, now: Time)
    requires !HasSeriesTime(ev) && ev.lastTimestamp == ev.eventTime == ZERO_TIME && now >= 0
    ensures TooOld(cfg, ev, now)
  {
    DecidingField(cfg, ev, now);
    MaxAgeWraps(cfg.maxEventAgeSeconds);
  }

  /** What the handler gets: the event without managed fields, and its object with whatever is known. */
  function Enhance(cfg: Config, ev: CoreEvent, lookup: Answer): EnhancedEvent {
    var metadata :=
      if cfg.omitLookup then NO_METADATA
      else
        match lookup
        case Success(om) => om
        case Failure(NotFound) => NO_METADATA.(deleted := true)
        case Failure(OtherError) => NO_METADATA;
    EnhancedEvent(ev.(managedFields := []), EnhancedReference(ev.involved, metadata))
  }

  /** A notification, with the clock and what the metadata cache would answer. */
  datatype Notice =
    | Added(ev: CoreEvent, now: Time, lookup: Answer)
    | Updated(ev: CoreEvent, now: Time, lookup: Answer)
    | Deleted

  datatype Tally = Tally(processed: nat, discarded: nat, silent: nat, handled: seq<EnhancedEvent>)

  function TallyNext(cfg: Config, s: Tally, n: Notice): Tally {
    if n.Deleted? then s
    else if TooOld(cfg, n.ev, n.now) then
      if Timestamp(n.ev) > cfg.startUpTime then s.(discarded := s.discarded + 1) else s.(silent := s.silent + 1)
    else s.(processed := s.processed + 1, handled := s.handled + [Enhance(cfg, n.ev, n.lookup)])
  }

  function TallyRun(cfg: Config, notices: seq<Notice>): Tally {
    if |notices| == 0 then Tally(0, 0, 0, [])
    else TallyNext(cfg, TallyRun(cfg, notices[..|notices| - 1]), notices[|notices| - 1])
  }

  function Notified(notices: seq<Notice>): nat {
    if |notices| == 0 then 0
    else Notified(notices[..|notices| - 1]) + (if notices[|notices| - 1].Deleted? then 0 else 1)
  }

  /** The handled event stems from this notice: young enough by true elapsed time, otherwise unchanged,
      and about the same object whatever the lookup said. */
  ghost predicate StemsFrom(cfg: Config, h: EnhancedEvent, n: Notice) {
    && !n.Deleted? && YoungEnough(cfg, n)
    && h.involved.reference == n.ev.involved
    && h.event.managedFields == [] && h.event.(managedFields := n.ev.managedFields) == n.ev
    && Enriched(cfg, h.involved.metadata, n.lookup)
  }

  /** Labels, annotations and owners come from a successful lookup or are absent; the object counts as
      deleted if the lookup said so or did not find it. */
  ghost predicate Enriched(cfg: Config, md: ObjectMetadata, lookup: Answer) {
    && (!cfg.omitLookup && lookup.Success? ==> md == lookup.value)
    && (cfg.omitLookup || lookup.Failure? ==> md.labels == md.annotations == map[] && md.ownerReferences == [])
    && (cfg.omitLookup ==> !md.deleted)
    && (!cfg.omitLookup && lookup.Failure? ==> (md.deleted <==> lookup.error == NotFound))
  }

  /** The deciding field is within the limit, by true elapsed time. */
  predicate YoungEnough(cfg: Config, n: Notice)
    requires !n.Deleted?
  {
    var oldest := n.now - MaxAge(cfg.maxEventAgeSeconds);
    && (HasSeriesTime(n.ev) ==> n.ev.series.value >= oldest)
    && (!HasSeriesTime(n.ev) && n.ev.lastTimestamp != ZERO_TIME ==> n.ev.lastTimestamp >= oldest)
    && (!HasSeriesTime(n.ev) && n.ev.lastTimestamp == ZERO_TIME ==> n.ev.eventTime >= oldest)
  }

  /** The deciding field is after the start of the program. */
  predicate SinceStart(cfg: Config, ev: CoreEvent) {
    && (HasSeriesTime(ev) ==> ev.series.value > cfg.startUpTime)
    && (!HasSeriesTime(ev) && ev.lastTimestamp != ZERO_TIME ==> ev.lastTimestamp > cfg.startUpTime)
    && (!HasSeriesTime(ev) && ev.lastTimestamp == ZERO_TIME ==> ev.eventTime > cfg.startUpTime)
  }

  /** How many additions and updates were too old, of those that are, or are not, since the start. */
  function TooLate(cfg: Config, notices: seq<Notice>, sinceStart: bool): nat {
    if |notices| == 0 then 0
    else
      var n := notices[|notices| - 1];
      TooLate(cfg, notices[..|notices| - 1], sinceStart)
      + (if !n.Deleted? && !YoungEnough(cfg, n) && SinceStart(cfg, n.ev) == sinceStart then 1 else 0)
  }

  /** Additions and updates whose true age is within the limit, in order. */
  function Young(cfg: Config, notices: seq<Notice>): (young: seq<Notice>)
    ensures forall i :: 0 <= i < |young| ==> !young[i].Deleted?
  {
    if |notices| == 0 then []
    else
      var n := notices[|notices| - 1];
      Young(cfg, notices[..|notices| - 1]) +
      (if !n.Deleted? && YoungEnough(cfg, n) then [n] else [])
  }

  function EnhanceAll(cfg: Config, young: seq<Notice>): seq<EnhancedEvent>
    requires forall i :: 0 <= i < |young| ==> !young[i].Deleted?
  {
    seq(|young|, i requires 0 <= i < |young| => Enhance(cfg, young[i].ev, young[i].lookup))
  }

  /** The handler gets the young events, enhanced, in order, and no others. */
  lemma {:induction false} HandledAreYoung(cfg: Config, notices: seq<Notice>)
    ensures TallyRun(cfg, notices).handled == EnhanceAll(cfg, Young(cfg, notices))
  {
    if |notices| > 0 {
      var init, n := notices[..|notices| - 1], notices[|notices| - 1];
      HandledAreYoung(cfg, init);
      if !n.Deleted? { DecidingField(cfg, n.ev, n.now); }
    }
  }

  /** The handler calls are one for each young notice, in order. */
  ghost predicate Origins(cfg: Config, handled: seq<EnhancedEvent>, young: seq<Notice>) {
    && |handled| == |young|
    && forall i :: 0 <= i < |young| ==> StemsFrom(cfg, handled[i], young[i])
  }

  /** Over every run: adds and updates are processed, discarded or silently discarded; the handler is
      called exactly once per processed event, in order, with an event that is young enough and about the
      object of its notice. Deletions change nothing. */
  lemma {:induction false} IntakeConserves(cfg: Config, notices: seq<Notice>)
    ensures var s := TallyRun(cfg, notices);
            && Notified(notices) == s.processed + s.discarded + s.silent
            && |s.handled| == s.processed
            && s.discarded == TooLate(cfg, notices, true) && s.silent == TooLate(cfg, notices, false)
            && Origins(cfg, s.handled, Young(cfg, notices))
  {
    if |notices| > 0 {
      var n := notices[|notices| - 1];
      IntakeConserves(cfg, notices[..|notices| - 1]);
      if !n.Deleted? { DecidingField(cfg, n.ev, n.now); }
    }
  }

  // ---------- Implementation ----------

  class Handler {
    var events: seq<EnhancedEvent>

    constructor ()
      ensures events == []
    {
      events := [];
    }

    method Call(ev: EnhancedEvent)
      modifies this
      ensures events == old(events) + [ev]
    {
      events := events + [ev];
    }
  }

  class EventWatcher {
    const cfg: Config
    const objectMetadataCache: ObjectMetadataCache
    const metricsStore: MetricsStore
    const fn: Handler
    ghost var silent: nat

    ghost predicate Valid() {
      objectMetadataCache.metricsStore == metricsStore
    }

    ghost function Abs(): Tally
      reads this, metricsStore, fn
    {
      Tally(metricsStore.eventsProcessed, metricsStore.eventsDiscarded, silent, fn.events)
    }

    constructor (cfg: Config, cache: ObjectMetadataCache, fn: Handler)
      requires cache.metricsStore.eventsProcessed == cache.metricsStore.eventsDiscarded == 0 && fn.events == []
      ensures Valid() && Abs() == TallyRun(cfg, [])
      ensures this.cfg == cfg && this.objectMetadataCache == cache && this.fn == fn
    {
      this.cfg, objectMetadataCache, metricsStore, this.fn := cfg, cache, cache.metricsStore, fn;
      silent := 0;
    }

    method IsEventDiscarded(event: CoreEvent, now: Time) returns (discarded: bool)
      requires Valid()
      modifies this, metricsStore`eventsDiscarded
      ensures discarded <==> TooOld(cfg, event, now)
      ensures metricsStore.eventsDiscarded
              == old(metricsStore.eventsDiscarded)
                 + (if discarded && SinceStart(cfg, event) then 1 else 0)
      ensures discarded ==> forall lookup :: Abs() == TallyNext(cfg, old(Abs()), Added(event, now, lookup))
      ensures !discarded ==> Abs() == old(Abs())
    {
      var timestamp: Time;
      if event.series.Some? && event.series.value != ZERO_TIME {
        timestamp := event.series.value;
      } else if event.lastTimestamp != ZERO_TIME {
        timestamp := event.lastTimestamp;
      } else {
        timestamp := event.eventTime;
      }
      var eventAge := Since(now, timestamp);
      discarded := eventAge > MaxAge(cfg.maxEventAgeSeconds);
      if discarded {
        if timestamp > cfg.startUpTime {
          metricsStore.eventsDiscarded := metricsStore.eventsDiscarded + 1;
        } else {
          silent := silent + 1;
        }
      }
    }

    /** The cache answers `lookup`, and the tally moves on as for an addition with that answer. */
    method OnEvent(event: CoreEvent, now: Time, api: Api)
      requires Valid()
      modifies this, metricsStore, objectMetadataCache, fn
      ensures metricsStore.eventsProcessed
              == old(metricsStore.eventsProcessed) + (if TooOld(cfg, event, now) then 0 else 1)
      ensures Abs() == TallyNext(cfg, old(Abs()), Added(event, now,
                              AnswerOf(objectMetadataCache.ttl, old(objectMetadataCache.Abs()), event.involved, api)))
      ensures objectMetadataCache.Abs() ==
              if TooOld(cfg, event, now) || cfg.omitLookup then old(objectMetadataCache.Abs())
              else MetadataCache.Next(objectMetadataCache.ttl, old(objectMetadataCache.Abs()),
                                      Call(event.involved, api))
    {
      var discarded := IsEventDiscarded(event, now);
      if discarded { return; }
      metricsStore.eventsProcessed := metricsStore.eventsProcessed + 1;
      var plain := event.(managedFields := []);
      var ev := EnhancedEvent(plain, EnhancedReference(event.involved, NO_METADATA));
      if !cfg.omitLookup {
        var om := objectMetadataCache.GetObjectMetadata(event.involved, api);
        match om {
          case Success(found) => ev := EnhancedEvent(plain, EnhancedReference(event.involved, found));
          case Failure(NotFound) =>
            ev := EnhancedEvent(plain, EnhancedReference(event.involved, NO_METADATA.(deleted := true)));
          case Failure(OtherError) =>
        }
      }
      fn.Call(ev);
    }

    method OnDelete()
      ensures Abs() == TallyNext(cfg, old(Abs()), Deleted)
    {
    }
  }
}
