/**
 The object metadata cache of pkg/kube/objects.go: a cache of metadata by UID with a time to live, in
 front of a cache of REST mappings, in front of the API server. Both caches may lose any entries at any
 time, so what is proved here holds for every eviction policy.
 */
module MetadataCache {
  import opened Wrappers
  import opened Kube

  datatype Gvr = Gvr(group: string, version: string, resource: string)

  datatype ApiError = NotFound | OtherError

  /** The cluster during one call: the clock when the age of an entry is checked, what discovery says
      about a group, version and kind, what a GET returns, and the clock when the result is stored. */
  datatype Api = Api(
    now: Time,
    discovery: (string, string, string) -> Result<Gvr, ApiError>,
    get: (Gvr, string, string) -> Result<ObjectMetadata, ApiError>,
    stamp: Time)

  datatype Cached = Cached(fetchedAt: Time, metadata: ObjectMetadata)

  // ---------- Keys ----------

  /** strings.Split with a separator of one character. */
  function Split(s: string, sep: char): (parts: seq<string>)
    ensures |parts| > 0
  {
    if s == "" then [""]
    else if s[0] == sep then [""] + Split(s[1..], sep)
    else
      var rest := Split(s[1..], sep);
      [[s[0]] + rest[0]] + rest[1..]
  }

  function GroupOf(apiVersion: string): string {
    var s := Split(apiVersion, '/');
    if |s| == 1 then "" else s[0]
  }

  function VersionOf(apiVersion: string): string {
    var s := Split(apiVersion, '/');
    if |s| == 1 then s[0] else s[1]
  }

  function MappingKey(group: string, version: string, kind: string): string {
    group + "|" + version + "|" + kind
  }

  function KeyOf(ref: ObjectReference): string {
    MappingKey(GroupOf(ref.apiVersion), VersionOf(ref.apiVersion), ref.kind)
  }

  lemma {:induction false} SplitAt(a: string, sep: char, rest: string)
    requires sep !in a
    ensures Split(a + [sep] + rest, sep) == [a] + Split(rest, sep)
  {
    var s := a + [sep] + rest;
    if a == "" {
      assert s[0] == sep && s[1..] == rest;
    } else {
      assert s[0] == a[0] && s[1..] == a[1..] + [sep] + rest;
      SplitAt(a[1..], sep, rest);
      var tail := Split(a[1..] + [sep] + rest, sep);
      assert tail[0] == a[1..] && tail[1..] == Split(rest, sep);
      assert [a[0]] + a[1..] == a;
    }
  }

  lemma {:induction false} SplitWhole(a: string, sep: char)
    requires sep !in a
    ensures Split(a, sep) == [a]
  {
    if a != "" {
      SplitWhole(a[1..], sep);
      assert [a[0]] + a[1..] == a;
    }
  }

  /** An API version is a version, or a group and a version with a slash between them; anything after a
      second slash is ignored. */
  lemma GroupAndVersion(g: string, v: string, rest: string)
    requires '/' !in g && '/' !in v
    ensures GroupOf(v) == "" && VersionOf(v) == v
    ensures GroupOf(g + "/" + v) == g && VersionOf(g + "/" + v) == v
    ensures GroupOf(g + "/" + v + "/" + rest) == g && VersionOf(g + "/" + v + "/" + rest) == v
  {
    SplitWhole(v, '/');
    SplitAt(g, '/', v);
    SplitAt(v, '/', rest);
    SplitAt(g, '/', v + "/" + rest);
    assert g + "/" + v + "/" + rest == g + "/" + (v + "/" + rest);
  }

  lemma PrefixUnique(a: string, b: string, x: string, y: string)
    requires '|' !in a && '|' !in b && a + "|" + x == b + "|" + y
    ensures a == b && x == y
  {
    SplitAt(a, '|', x);
    SplitAt(b, '|', y);
    assert Split(a + "|" + x, '|')[0] == a && Split(b + "|" + y, '|')[0] == b;
    assert (a + "|" + x)[|a| + 1..] == x && (b + "|" + y)[|b| + 1..] == y;
  }

  /** The mapping key determines group, version and kind unless group or version contain a bar; what the
      kind contains does not matter. */
  lemma MappingKeyInjective(g: string, v: string, k: string, g': string, v': string, k': string)
    requires '|' !in g && '|' !in v && '|' !in g' && '|' !in v'
    requires MappingKey(g, v, k) == MappingKey(g', v', k')
    ensures g == g' && v == v' && k == k'
  {
    assert MappingKey(g, v, k) == g + "|" + (v + "|" + k);
    assert MappingKey(g', v', k') == g' + "|" + (v' + "|" + k');
    PrefixUnique(g, g', v + "|" + k, v' + "|" + k');
    PrefixUnique(v, v', k, k');
  }

  lemma BarsCollide()
    ensures MappingKey("a|b", "c", "d") == MappingKey("a", "b|c", "d")
  {
    assert MappingKey("a|b", "c", "d") == "a|b|c|d";
  }

  function Bars(s: string): nat {
    if s == "" then 0 else Bars(s[1..]) + (if s[0] == '|' then 1 else 0)
  }

  lemma {:induction false} BarsConcat(a: string, b: string)
    ensures Bars(a + b) == Bars(a) + Bars(b)
  {
    if a == "" {
      assert a + b == b;
    } else {
      assert (a + b)[0] == a[0] && (a + b)[1..] == a[1..] + b;
      BarsConcat(a[1..], b);
    }
  }

  lemma {:induction false} NoBars(s: string)
    ensures Bars(s) == 0 <==> '|' !in s
  {
    if s != "" { NoBars(s[1..]); }
  }

  lemma KeyBars(g: string, v: string, k: string)
    ensures Bars(MappingKey(g, v, k)) == Bars(g) + Bars(v) + Bars(k) + 2
  {
    BarsConcat(g, "|");
    BarsConcat(g + "|", v);
    BarsConcat(g + "|" + v, "|");
    BarsConcat(g + "|" + v + "|", k);
    assert Bars("|") == 1;
  }

  predicate BarFree(g: string, v: string, k: string) { '|' !in g && '|' !in v && '|' !in k }

  /** No other triple at all shares the key of a triple without bars. */
  lemma BarFreeKeyUnique(g: string, v: string, k: string, g': string, v': string, k': string)
    requires BarFree(g, v, k) && MappingKey(g, v, k) == MappingKey(g', v', k')
    ensures g == g' && v == v' && k == k'
  {
    KeyBars(g, v, k);
    KeyBars(g', v', k');
    NoBars(g);
    NoBars(v);
    NoBars(k);
    NoBars(g');
    NoBars(v');
    MappingKeyInjective(g, v, k, g', v', k');
  }

  // ---------- The cache as a state machine ----------

  datatype Counters = Counters(
    readHits: nat, mappingHits: nat, mappingReads: nat, objectReads: nat,
    calls: nat, mappingFailures: nat)   // the last two are not exported, they only serve the accounting

  datatype State = State(cache: map<string, Cached>, mapping: map<string, Gvr>, counters: Counters)

  const EMPTY := State(map[], map[], Counters(0, 0, 0, 0, 0, 0))

  type Answer = Result<ObjectMetadata, ApiError>

  datatype Action = Call(ref: ObjectReference, api: Api) | Evict(uids: set<string>, keys: set<string>)

  predicate Hit(ttl: int, s: State, ref: ObjectReference, api: Api) {
    ref.uid in s.cache && api.now - s.cache[ref.uid].fetchedAt < ttl
  }

  /** The REST mapping, from the cache or from discovery. */
  function MappingFor(s: State, ref: ObjectReference, api: Api): Result<Gvr, ApiError> {
    if KeyOf(ref) in s.mapping then Success(s.mapping[KeyOf(ref)])
    else api.discovery(GroupOf(ref.apiVersion), VersionOf(ref.apiVersion), ref.kind)
  }

  function AnswerOf(ttl: int, s: State, ref: ObjectReference, api: Api): Answer {
    if Hit(ttl, s, ref, api) then Success(s.cache[ref.uid].metadata)
    else
      match MappingFor(s, ref, api)
      case Failure(e) => Failure(e)
      case Success(gvr) => api.get(gvr, ref.namespace, ref.name)
  }

  function Count(ttl: int, s: State, ref: ObjectReference, api: Api): Counters {
    var c := s.counters.(calls := s.counters.calls + 1);
    if Hit(ttl, s, ref, api) then c.(readHits := c.readHits + 1)
    else if MappingFor(s, ref, api).Failure? then c.(mappingFailures := c.mappingFailures + 1)
    else if KeyOf(ref) in s.mapping then c.(mappingHits := c.mappingHits + 1, objectReads := c.objectReads + 1)
    else c.(mappingReads := c.mappingReads + 1, objectReads := c.objectReads + 1)
  }

  function Next(ttl: int, s: State, a: Action): State {
    match a
    case Evict(uids, keys) => s.(cache := s.cache - uids, mapping := s.mapping - keys)
    case Call(ref, api) =>
      var c := Count(ttl, s, ref, api);
      if Hit(ttl, s, ref, api) then s.(counters := c)
      else
        var expired := s.(cache := s.cache - {ref.uid}, counters := c);
        match MappingFor(s, ref, api)
        case Failure(_) => expired
        case Success(gvr) =>
          var mapped := expired.(mapping := s.mapping[KeyOf(ref) := gvr]);
          match api.get(gvr, ref.namespace, ref.name)
          case Failure(_) => mapped
          case Success(om) => mapped.(cache := mapped.cache[ref.uid := Cached(api.stamp, om)])
  }

  function Run(ttl: int, actions: seq<Action>): State {
    if |actions| == 0 then EMPTY
    else Next(ttl, Run(ttl, actions[..|actions| - 1]), actions[|actions| - 1])
  }

  // ---------- Transparency ----------

  /** Discovery knows only names without bars, and whenever it succeeds it says what `rest` says. */
  ghost predicate Agrees(rest: (string, string, string) -> Gvr, api: Api) {
    forall g, v, k :: api.discovery(g, v, k).Success? ==>
      BarFree(g, v, k) && api.discovery(g, v, k).value == rest(g, v, k)
  }

  /** A stable mapping. What the references of the calls look like does not matter. */
  ghost predicate Stable(rest: (string, string, string) -> Gvr, actions: seq<Action>) {
    forall i :: 0 <= i < |actions| && actions[i].Call? ==> Agrees(rest, actions[i].api)
  }

  function GvrOf(rest: (string, string, string) -> Gvr, ref: ObjectReference): Gvr {
    rest(GroupOf(ref.apiVersion), VersionOf(ref.apiVersion), ref.kind)
  }

  /** What the API says about the object of a reference, asked directly. */
  function Ask(rest: (string, string, string) -> Gvr, api: Api, ref: ObjectReference): Answer {
    api.get(GvrOf(rest, ref), ref.namespace, ref.name)
  }

  /** Call `j` fetched these metadata from the API, for a reference with this UID, and stored them at `t`. */
  ghost predicate FetchedBy(rest: (string, string, string) -> Gvr, actions: seq<Action>, j: nat, uid: string,
                            t: Time, om: ObjectMetadata)
  {
    && j < |actions| && actions[j].Call? && actions[j].ref.uid == uid && actions[j].api.stamp == t
    && Ask(rest, actions[j].api, actions[j].ref) == Success(om)
  }

  /** Every cached entry is the result of a successful fetch; every cached mapping is the right one. */
  ghost predicate Faithful(rest: (string, string, string) -> Gvr, actions: seq<Action>, s: State) {
    && (forall uid :: uid in s.cache ==>
          exists j :: FetchedBy(rest, actions, j, uid, s.cache[uid].fetchedAt, s.cache[uid].metadata))
    && (forall g, v, k :: MappingKey(g, v, k) in s.mapping ==> s.mapping[MappingKey(g, v, k)] == rest(g, v, k))
  }

  lemma FetchExtends(rest: (string, string, string) -> Gvr, actions: seq<Action>, s: State)
    requires |actions| > 0 && Faithful(rest, actions[..|actions| - 1], s)
    ensures Faithful(rest, actions, s)
  {
    var init := actions[..|actions| - 1];
    forall uid | uid in s.cache
      ensures exists j :: FetchedBy(rest, actions, j, uid, s.cache[uid].fetchedAt, s.cache[uid].metadata)
    {
      var j :| FetchedBy(rest, init, j, uid, s.cache[uid].fetchedAt, s.cache[uid].metadata);
      assert FetchedBy(rest, actions, j, uid, s.cache[uid].fetchedAt, s.cache[uid].metadata);
    }
  }

  lemma CallFaithful(ttl: int, rest: (string, string, string) -> Gvr, actions: seq<Action>, s: State)
    requires |actions| > 0 && actions[|actions| - 1].Call? && Agrees(rest, actions[|actions| - 1].api)
    requires Faithful(rest, actions, s)
    ensures Faithful(rest, actions, Next(ttl, s, actions[|actions| - 1]))
  {
    var n := |actions| - 1;
    var ref, api := actions[n].ref, actions[n].api;
    var t := Next(ttl, s, actions[n]);
    forall uid | uid in t.cache
      ensures exists j :: FetchedBy(rest, actions, j, uid, t.cache[uid].fetchedAt, t.cache[uid].metadata)
    {
      if uid !in s.cache || t.cache[uid] != s.cache[uid] {
        assert FetchedBy(rest, actions, n, uid, t.cache[uid].fetchedAt, t.cache[uid].metadata);
      }
    }
    forall g, v, k | MappingKey(g, v, k) in t.mapping ensures t.mapping[MappingKey(g, v, k)] == rest(g, v, k) {
      if MappingKey(g, v, k) !in s.mapping {
        BarFreeKeyUnique(GroupOf(ref.apiVersion), VersionOf(ref.apiVersion), ref.kind, g, v, k);
      }
    }
  }

  lemma {:induction false} RunFaithful(ttl: int, rest: (string, string, string) -> Gvr, actions: seq<Action>)
    requires Stable(rest, actions)
    ensures Faithful(rest, actions, Run(ttl, actions))
  {
    if |actions| > 0 {
      var n := |actions| - 1;
      RunFaithful(ttl, rest, actions[..n]);
      var s := Run(ttl, actions[..n]);
      FetchExtends(rest, actions, s);
      if actions[n].Call? { CallFaithful(ttl, rest, actions, s); }
    }
  }

  /** Call `i` of the run answers with these metadata. */
  ghost predicate Answers(ttl: int, actions: seq<Action>, i: nat, om: ObjectMetadata) {
    && i < |actions| && actions[i].Call?
    && AnswerOf(ttl, Run(ttl, actions[..i]), actions[i].ref, actions[i].api) == Success(om)
  }

  /**
   After any calls and any evictions, a successful answer is what the API returned either to this very
   call or to an earlier call for the same UID whose result was stored less than the time to live ago.
   */
  lemma BoundedStaleness(ttl: int, rest: (string, string, string) -> Gvr, actions: seq<Action>, i: nat,
                         om: ObjectMetadata) returns (j: nat)
    requires Stable(rest, actions) && Answers(ttl, actions, i, om)
    ensures j <= i && actions[j].Call? && actions[j].ref.uid == actions[i].ref.uid
    ensures Ask(rest, actions[j].api, actions[j].ref) == Success(om)
    ensures j < i ==> actions[i].api.now - actions[j].api.stamp < ttl
  {
    var before := actions[..i];
    RunFaithful(ttl, rest, before);
    var s := Run(ttl, before);
    var ref, api := actions[i].ref, actions[i].api;
    if Hit(ttl, s, ref, api) {
      j :| FetchedBy(rest, before, j, ref.uid, s.cache[ref.uid].fetchedAt, s.cache[ref.uid].metadata);
    } else {
      j := i;
      assert Agrees(rest, api);
    }
  }

  /** No two references of the run share a UID unless they name the same object. */
  ghost predicate UidsIdentify(rest: (string, string, string) -> Gvr, actions: seq<Action>) {
    forall i, j :: 0 <= i < |actions| && 0 <= j < |actions| && actions[i].Call? && actions[j].Call? ==>
      actions[i].ref.uid == actions[j].ref.uid ==> SameObject(rest, actions[i].ref, actions[j].ref)
  }

  predicate SameObject(rest: (string, string, string) -> Gvr, a: ObjectReference, b: ObjectReference) {
    GvrOf(rest, a) == GvrOf(rest, b) && a.namespace == b.namespace && a.name == b.name
  }

  /** If UIDs identify objects, every successful answer is what the API said about that very object. */
  lemma CacheTransparent(ttl: int, rest: (string, string, string) -> Gvr, actions: seq<Action>, i: nat,
                         om: ObjectMetadata)
    requires Stable(rest, actions) && UidsIdentify(rest, actions)
    requires Answers(ttl, actions, i, om)
    ensures exists j :: 0 <= j <= i && actions[j].Call?
                        && Ask(rest, actions[j].api, actions[i].ref) == Success(om)
                        && (j < i ==> actions[i].api.now - actions[j].api.stamp < ttl)
  {
    var j := BoundedStaleness(ttl, rest, actions, i, om);
    assert SameObject(rest, actions[i].ref, actions[j].ref);
  }

  /** The API that knows nothing but one object. */
  function OnlyApi(rest: (string, string, string) -> Gvr, r: ObjectReference, om: ObjectMetadata): Api {
    Api(0, (g, v, k) => Success(rest(g, v, k)),
        (gvr, ns, name) => if gvr == GvrOf(rest, r) && ns == r.namespace && name == r.name
                           then Success(om) else Failure(NotFound), 0)
  }

  /** And only then: for any two references that share a UID but not the object, there is a cluster in
      which the second is answered with the first one's metadata though the API never knew it. */
  lemma SharedUidServesOther(ttl: int, rest: (string, string, string) -> Gvr, r1: ObjectReference,
                             r2: ObjectReference, om: ObjectMetadata)
    requires ttl > 0 && r1.uid == r2.uid && !SameObject(rest, r1, r2)
    ensures var api := OnlyApi(rest, r1, om);
            Answers(ttl, [Call(r1, api), Call(r2, api)], 1, om) && Ask(rest, api, r2) == Failure(NotFound)
  {
    var api := OnlyApi(rest, r1, om);
    var actions := [Call(r1, api), Call(r2, api)];
    assert actions[..1] == [Call(r1, api)];
    assert actions[..1][..0] == [];
    assert Run(ttl, actions[..1]) == Next(ttl, EMPTY, Call(r1, api));
  }

  /** The cache is used: an answer that had to be fetched is given again, to any reference with the same
      UID, without asking anybody, as long as it is younger than the time to live. */
  lemma RepeatedCallHits(ttl: int, s: State, ref: ObjectReference, api: Api, again: ObjectReference, later: Api,
                         om: ObjectMetadata)
    requires !Hit(ttl, s, ref, api) && AnswerOf(ttl, s, ref, api) == Success(om)
    requires again.uid == ref.uid && later.now - api.stamp < ttl
    ensures var t := Next(ttl, s, Call(ref, api));
            && AnswerOf(ttl, t, again, later) == Success(om)
            && Next(ttl, t, Call(again, later)).counters
               == t.counters.(calls := t.counters.calls + 1, readHits := t.counters.readHits + 1)
  {
  }

  /** What an API server is asked for a reference that is in neither cache: discovery for the group, the
      version and the kind, and then the object by its namespace and name. */
  lemma UncachedAsks(ttl: int, s: State, ref: ObjectReference, api: Api, g: string, v: string)
    requires '/' !in g && '/' !in v && ref.uid !in s.cache
    ensures ref.apiVersion == g + "/" + v && g + "|" + v + "|" + ref.kind !in s.mapping ==>
              AnswerOf(ttl, s, ref, api) == AskedFor(api, g, v, ref.kind, ref.namespace, ref.name)
    ensures ref.apiVersion == v && "|" + v + "|" + ref.kind !in s.mapping ==>
              AnswerOf(ttl, s, ref, api) == AskedFor(api, "", v, ref.kind, ref.namespace, ref.name)
  {
    GroupAndVersion(g, v, "");
    assert "" + "|" + v + "|" + ref.kind == "|" + v + "|" + ref.kind;
  }

  /** A GET for an object of this kind, with the mapping that discovery gives. */
  function AskedFor(api: Api, group: string, version: string, kind: string, namespace: string, name: string): Answer {
    match api.discovery(group, version, kind)
    case Failure(e) => Failure(e)
    case Success(gvr) => api.get(gvr, namespace, name)
  }

  /** A call touches the entry of its UID and the mapping of its kind only. If it fails, nothing is cached
      for the UID afterwards; and once discovery has succeeded, nobody asks it for this kind again. */
  lemma CallTouches(ttl: int, s: State, ref: ObjectReference, api: Api)
    ensures var t := Next(ttl, s, Call(ref, api));
            && t.cache - {ref.uid} == s.cache - {ref.uid} && t.mapping - {KeyOf(ref)} == s.mapping - {KeyOf(ref)}
            && (AnswerOf(ttl, s, ref, api).Failure? ==> ref.uid !in t.cache)
            && (!Hit(ttl, s, ref, api) && MappingFor(s, ref, api).Success? ==>
                  forall later :: MappingFor(t, ref, later) == MappingFor(s, ref, api))
  {
    var t := Next(ttl, s, Call(ref, api));
    assert (t.cache - {ref.uid}).Keys == (s.cache - {ref.uid}).Keys;
    assert (t.mapping - {KeyOf(ref)}).Keys == (s.mapping - {KeyOf(ref)}).Keys;
  }

  /** Eviction takes away the entries it is about and leaves everything else alone. */
  lemma EvictionTakesOnly(ttl: int, s: State, uids: set<string>, keys: set<string>, uid: string, key: string)
    ensures var t := Next(ttl, s, Evict(uids, keys));
            && (if uid in uids then uid !in t.cache else Entry(t.cache, uid) == Entry(s.cache, uid))
            && (if key in keys then key !in t.mapping else Entry(t.mapping, key) == Entry(s.mapping, key))
            && t.counters == s.counters
  {
  }

  function Entry<V>(m: map<string, V>, k: string): Option<V> { if k in m then Some(m[k]) else None }

  // ---------- Counters ----------

  /** Which counter is which: a mapping that was read from discovery is found in the cache by the next call,
      and a mapping that discovery refuses is not counted as read. */
  lemma MappingCounters(ttl: int, ref: ObjectReference, api: Api, later: Api)
    requires forall gvr :: api.get(gvr, ref.namespace, ref.name).Failure?
    ensures var first := Run(ttl, [Call(ref, api)]).counters;
            var both := Run(ttl, [Call(ref, api), Call(ref, later)]).counters;
            if api.discovery(GroupOf(ref.apiVersion), VersionOf(ref.apiVersion), ref.kind).Success?
            then first == Counters(0, 0, 1, 1, 1, 0) && both == Counters(0, 1, 1, 2, 2, 0)
            else first == Counters(0, 0, 0, 0, 1, 1)
  {
    var one, two := [Call(ref, api)], [Call(ref, api), Call(ref, later)];
    assert two[..1] == one && one[..0] == [];
    assert Run(ttl, one) == Next(ttl, EMPTY, Call(ref, api));
    assert Run(ttl, two) == Next(ttl, Run(ttl, one), Call(ref, later));
  }

  predicate Balanced(c: Counters) {
    c.mappingHits + c.mappingReads == c.objectReads && c.readHits + c.objectReads + c.mappingFailures == c.calls
  }

  lemma CountBalanced(ttl: int, s: State, ref: ObjectReference, api: Api)
    requires Balanced(s.counters)
    ensures Balanced(Count(ttl, s, ref, api)) && Count(ttl, s, ref, api).calls == s.counters.calls + 1
  {
  }

  lemma NextCounters(ttl: int, s: State, a: Action)
    ensures Next(ttl, s, a).counters == if a.Call? then Count(ttl, s, a.ref, a.api) else s.counters
  {
  }

  /** Every object read used a mapping that was cached or freshly read, and every call was a hit, an
      object read or a failed mapping. */
  lemma {:induction false} CountersAddUp(ttl: int, actions: seq<Action>)
    ensures var c := Run(ttl, actions).counters;
            && c.mappingHits + c.mappingReads == c.objectReads
            && c.readHits + c.objectReads + c.mappingFailures == c.calls == |CallsIn(actions)|
  {
    if |actions| > 0 {
      var init, last := actions[..|actions| - 1], actions[|actions| - 1];
      CountersAddUp(ttl, init);
      NextCounters(ttl, Run(ttl, init), last);
      if last.Call? { CountBalanced(ttl, Run(ttl, init), last.ref, last.api); }
    }
  }

  function CallsIn(actions: seq<Action>): seq<ObjectReference> {
    if |actions| == 0 then []
    else
      var n := |actions| - 1;
      CallsIn(actions[..n]) + (if actions[n].Call? then [actions[n].ref] else [])
  }

  // ---------- The implementation ----------

  class MetricsStore {
    var kubeApiReadCacheHits: nat
    var kubeApiMappingCacheHits: nat
    var kubeApiMappingReadRequests: nat
    var kubeApiReadRequests: nat
    ghost var calls: nat
    ghost var mappingFailures: nat
    var eventsProcessed: nat
    var eventsDiscarded: nat

    constructor ()
      ensures CacheCounters() == EMPTY.counters && eventsProcessed == eventsDiscarded == 0
    {
      kubeApiReadCacheHits, kubeApiMappingCacheHits, kubeApiMappingReadRequests, kubeApiReadRequests := 0, 0, 0, 0;
      calls, mappingFailures := 0, 0;
      eventsProcessed, eventsDiscarded := 0, 0;
    }

    ghost function CacheCounters(): Counters
      reads this
    {
      Counters(kubeApiReadCacheHits, kubeApiMappingCacheHits, kubeApiMappingReadRequests, kubeApiReadRequests,
               calls, mappingFailures)
    }
  }

  class ObjectMetadataCache {
    var cache: map<string, Cached>
    var mappingCache: map<string, Gvr>
    const ttl: int
    const metricsStore: MetricsStore

    ghost function Abs(): State
      reads this, metricsStore
    {
      State(cache, mappingCache, metricsStore.CacheCounters())
    }

    /** A time to live that is not positive is refused by the original with a panic. */
    constructor (ttl: int, metricsStore: MetricsStore)
      requires ttl > 0 && metricsStore.CacheCounters() == EMPTY.counters
      ensures Abs() == EMPTY && this.ttl == ttl && this.metricsStore == metricsStore
    {
      cache, mappingCache := map[], map[];
      this.ttl, this.metricsStore := ttl, metricsStore;
    }

    /** Any entries may be gone at any time. */
    method EvictSome(uids: set<string>, keys: set<string>)
      modifies this
      ensures Abs() == Next(ttl, old(Abs()), Evict(uids, keys))
    {
      cache, mappingCache := cache - uids, mappingCache - keys;
    }

    /** The REST mapping of a reference: from the cache, or from discovery and then cached. */
    method Resolve(reference: ObjectReference, api: Api) returns (mapping: Result<Gvr, ApiError>)
      modifies this`mappingCache, metricsStore
      ensures mapping == MappingFor(old(Abs()), reference, api)
      ensures mappingCache == if mapping.Success? then old(mappingCache)[KeyOf(reference) := mapping.value]
                              else old(mappingCache)
      ensures var c := old(metricsStore.CacheCounters());
              metricsStore.CacheCounters() ==
              if mapping.Failure? then c.(mappingFailures := c.mappingFailures + 1)
              else if KeyOf(reference) in old(mappingCache) then c.(mappingHits := c.mappingHits + 1)
              else c.(mappingReads := c.mappingReads + 1)
      ensures metricsStore.eventsProcessed == old(metricsStore.eventsProcessed)
      ensures metricsStore.eventsDiscarded == old(metricsStore.eventsDiscarded)
    {
      var s := Split(reference.apiVersion, '/');
      var group, version := "", s[0];
      if |s| != 1 { group, version := s[0], s[1]; }
      var mappingKey := MappingKey(group, version, reference.kind);
      if mappingKey in mappingCache {
        metricsStore.kubeApiMappingCacheHits := metricsStore.kubeApiMappingCacheHits + 1;
        mapping := Success(mappingCache[mappingKey]);
        assert mappingCache == mappingCache[mappingKey := mapping.value];
      } else {
        mapping := api.discovery(group, version, reference.kind);
        if mapping.Failure? {
          metricsStore.mappingFailures := metricsStore.mappingFailures + 1;
        } else {
          metricsStore.kubeApiMappingReadRequests := metricsStore.kubeApiMappingReadRequests + 1;
          mappingCache := mappingCache[mappingKey := mapping.value];
        }
      }
    }

    method GetObjectMetadata(reference: ObjectReference, api: Api) returns (r: Answer)
      modifies this, metricsStore
      ensures r == AnswerOf(ttl, old(Abs()), reference, api)
      ensures Abs() == Next(ttl, old(Abs()), Call(reference, api))
      ensures var s := old(Abs());
              var hit, known := Hit(ttl, s, reference, api), KeyOf(reference) in s.mapping;
              var read := !hit && MappingFor(s, reference, api).Success?;
              && metricsStore.kubeApiReadCacheHits == old(metricsStore.kubeApiReadCacheHits) + (if hit then 1 else 0)
              && metricsStore.kubeApiMappingCacheHits
                 == old(metricsStore.kubeApiMappingCacheHits) + (if !hit && known then 1 else 0)
              && metricsStore.kubeApiMappingReadRequests
                 == old(metricsStore.kubeApiMappingReadRequests) + (if read && !known then 1 else 0)
              && metricsStore.kubeApiReadRequests == old(metricsStore.kubeApiReadRequests) + (if read then 1 else 0)
      ensures metricsStore.eventsProcessed == old(metricsStore.eventsProcessed)
      ensures metricsStore.eventsDiscarded == old(metricsStore.eventsDiscarded)
    {
      metricsStore.calls := metricsStore.calls + 1;
      var cacheKey := reference.uid;
      if cacheKey in cache {
        var val := cache[cacheKey];
        if api.now - val.fetchedAt < ttl {
          metricsStore.kubeApiReadCacheHits := metricsStore.kubeApiReadCacheHits + 1;
          return Success(val.metadata);
        }
        cache := cache - {cacheKey};
      }
      assert cache == old(cache) - {cacheKey};

      var mapping := Resolve(reference, api);
      if mapping.Failure? { return Failure(mapping.error); }
      var gvr := mapping.value;

      var item := api.get(gvr, reference.namespace, reference.name);
      metricsStore.kubeApiReadRequests := metricsStore.kubeApiReadRequests + 1;
      if item.Failure? { return Failure(item.error); }
      cache := cache[cacheKey := Cached(api.stamp, item.value)];
      r := Success(item.value);
    }
  }
}
