/**
 Rules and the routing tree as pure values (pkg/exporter/rule.go, pkg/exporter/route.go): which
 receivers an event is sent to, as a flat list of guarded sends, and what drop rules can do.
 */
module Routing {
  import opened Wrappers
  import opened Kube

  /** The regular expression library: a compiler that may fail, and a matcher. */
  datatype Regexp<!R> = Regexp(compile: string -> Option<R>, matches: (R, string) -> bool)

  /** regexp.MatchString with its error ignored: a pattern that does not compile matches nothing. */
  predicate MatchString<R>(rx: Regexp<R>, pattern: string, s: string) {
    match rx.compile(pattern) case None => false case Some(r) => rx.matches(r, s)
  }

  /** A rule as it is configured. */
  datatype RuleSource = RuleSource(
    labels: map<string, string>,
    annotations: map<string, string>,
    message: string,
    apiVersion: string,
    kind: string,
    namespace: string,
    reason: string,
    typ: string,
    component: string,
    host: string,
    receiver: string,
    minCount: int)

  /** The pattern fields of a rule. */
  datatype Field = Message | ApiVersion | Kind | Namespace | Reason | Type | Component | Host | Receiver

  function PatternOf(r: RuleSource, f: Field): string {
    match f
    case Message => r.message
    case ApiVersion => r.apiVersion
    case Kind => r.kind
    case Namespace => r.namespace
    case Reason => r.reason
    case Type => r.typ
    case Component => r.component
    case Host => r.host
    case Receiver => r.receiver
  }

  /** What a pattern field is compared with; the receiver is not compared with anything. */
  function EventField(ev: EnhancedEvent, f: Field): string
    requires f != Receiver
  {
    match f
    case Message => ev.event.message
    case ApiVersion => ev.involved.reference.apiVersion
    case Kind => ev.involved.reference.kind
    case Namespace => ev.event.namespace
    case Reason => ev.event.reason
    case Type => ev.event.typ
    case Component => ev.event.component
    case Host => ev.event.host
  }

  predicate MapMatches<R>(rx: Regexp<R>, patterns: map<string, string>, actual: map<string, string>) {
    forall k :: k in patterns ==> k in actual && MatchString(rx, patterns[k], actual[k])
  }

  /** What a rule means: every configured field, label and annotation matches, and the count suffices. */
  predicate Matches<R>(rx: Regexp<R>, r: RuleSource, ev: EnhancedEvent) {
    && (forall f: Field :: f != Receiver && PatternOf(r, f) != "" ==>
          MatchString(rx, PatternOf(r, f), EventField(ev, f)))
    && MapMatches(rx, r.labels, ev.involved.metadata.labels)
    && MapMatches(rx, r.annotations, ev.involved.metadata.annotations)
    && ev.event.count >= r.minCount
  }

  /** A pattern fits a text if it compiles and the compiled pattern matches. */
  predicate Fits<R>(rx: Regexp<R>, pattern: string, s: string) {
    rx.compile(pattern).Some? && rx.matches(rx.compile(pattern).value, s)
  }

  predicate FitsIfSet<R>(rx: Regexp<R>, pattern: string, s: string) { pattern != "" ==> Fits(rx, pattern, s) }

  /** Field by field: what of a rule is compared with what of an event. */
  lemma MatchesIff<R>(rx: Regexp<R>, r: RuleSource, ev: EnhancedEvent)
    ensures Matches(rx, r, ev) <==>
            && FitsIfSet(rx, r.message, ev.event.message)
            && FitsIfSet(rx, r.apiVersion, ev.involved.reference.apiVersion)
            && FitsIfSet(rx, r.kind, ev.involved.reference.kind)
            && FitsIfSet(rx, r.namespace, ev.event.namespace)
            && FitsIfSet(rx, r.reason, ev.event.reason)
            && FitsIfSet(rx, r.typ, ev.event.typ)
            && FitsIfSet(rx, r.component, ev.event.component)
            && FitsIfSet(rx, r.host, ev.event.host)
            && (forall k :: k in r.labels ==>
                  k in ev.involved.metadata.labels && Fits(rx, r.labels[k], ev.involved.metadata.labels[k]))
            && (forall k :: k in r.annotations ==>
                  k in ev.involved.metadata.annotations
                  && Fits(rx, r.annotations[k], ev.involved.metadata.annotations[k]))
            && ev.event.count >= r.minCount
  {
    if Matches(rx, r, ev) {
      forall f: Field | f != Receiver ensures FitsIfSet(rx, PatternOf(r, f), EventField(ev, f)) {}
      assert PatternOf(r, Message) == r.message && PatternOf(r, ApiVersion) == r.apiVersion;
      assert PatternOf(r, Kind) == r.kind && PatternOf(r, Namespace) == r.namespace;
      assert PatternOf(r, Reason) == r.reason && PatternOf(r, Type) == r.typ;
      assert PatternOf(r, Component) == r.component && PatternOf(r, Host) == r.host;
    }
  }

  /** For one event: which rules match. Routing depends on nothing else. */
  type Meaning = RuleSource -> bool

  function MeaningFor<R>(rx: Regexp<R>, ev: EnhancedEvent): Meaning { (r: RuleSource) => Matches(rx, r, ev) }

  datatype RouteSource = RouteSource(drop: seq<RuleSource>, rules: seq<RuleSource>, routes: seq<RouteSource>)

  predicate AnyMatches(m: Meaning, rules: seq<RuleSource>) {
    exists i :: 0 <= i < |rules| && m(rules[i])
  }

  predicate AllMatch(m: Meaning, rules: seq<RuleSource>) {
    forall i :: 0 <= i < |rules| ==> m(rules[i])
  }

  /** Receivers of the matching rules, in rule order. */
  function Direct(m: Meaning, rules: seq<RuleSource>): seq<string> {
    if |rules| == 0 then []
    else
      var n := |rules| - 1;
      Direct(m, rules[..n])
      + (if m(rules[n]) && rules[n].receiver != "" then [rules[n].receiver] else [])
  }

  /** The receivers ProcessEvent sends the event to, in order. */
  function Emissions(m: Meaning, r: RouteSource): seq<string>
    decreases r, 1
  {
    if AnyMatches(m, r.drop) then []
    else
      Direct(m, r.rules)
      + (if AllMatch(m, r.rules) then EmissionsOfAll(m, r.routes) else [])
  }

  function EmissionsOfAll(m: Meaning, rs: seq<RouteSource>): seq<string>
    decreases rs, 0
  {
    if |rs| == 0 then []
    else Emissions(m, rs[0]) + EmissionsOfAll(m, rs[1..])
  }

  // ---------- Flattening ----------

  /** One send of the tree with everything that decides about it. */
  datatype Guard = Guard(unless: seq<RuleSource>, given: seq<RuleSource>, rule: RuleSource)

  predicate Open(m: Meaning, unless: seq<RuleSource>, given: seq<RuleSource>) {
    (forall d :: d in unless ==> !m(d)) && (forall x :: x in given ==> m(x))
  }

  predicate Fires(m: Meaning, g: Guard) {
    Open(m, g.unless, g.given) && m(g.rule)
  }

  function OwnGuards(unless: seq<RuleSource>, given: seq<RuleSource>, rules: seq<RuleSource>): seq<Guard> {
    if |rules| == 0 then []
    else
      var n := |rules| - 1;
      OwnGuards(unless, given, rules[..n])
      + (if rules[n].receiver != "" then [Guard(unless, given, rules[n])] else [])
  }

  /** The tree in preorder as guarded sends: no drop rule of the node or an ancestor matches, all match
      rules of strict ancestors match, and the rule itself matches. */
  function Flatten(unless: seq<RuleSource>, given: seq<RuleSource>, r: RouteSource): seq<Guard>
    decreases r, 1
  {
    OwnGuards(unless + r.drop, given, r.rules) + FlattenAll(unless + r.drop, given + r.rules, r.routes)
  }

  function FlattenAll(unless: seq<RuleSource>, given: seq<RuleSource>, rs: seq<RouteSource>): seq<Guard>
    decreases rs, 0
  {
    if |rs| == 0 then []
    else Flatten(unless, given, rs[0]) + FlattenAll(unless, given, rs[1..])
  }

  /** The receivers of the guards that fire, in list order. */
  function Fired(m: Meaning, gs: seq<Guard>): seq<string> {
    if |gs| == 0 then []
    else (if Fires(m, gs[0]) then [gs[0].rule.receiver] else []) + Fired(m, gs[1..])
  }

  lemma {:induction false} FiredConcat(m: Meaning, a: seq<Guard>, b: seq<Guard>)
    ensures Fired(m, a + b) == Fired(m, a) + Fired(m, b)
  {
    if |a| == 0 {
      assert a + b == b;
    } else {
      assert (a + b)[1..] == a[1..] + b;
      FiredConcat(m, a[1..], b);
    }
  }

  lemma AnyConcat(m: Meaning, a: seq<RuleSource>, b: seq<RuleSource>)
    ensures AnyMatches(m, a + b) <==> AnyMatches(m, a) || AnyMatches(m, b)
    ensures AllMatch(m, a + b) <==> AllMatch(m, a) && AllMatch(m, b)
  {
    forall i | 0 <= i < |a| ensures (a + b)[i] == a[i] {}
    forall i | 0 <= i < |b| ensures (a + b)[|a| + i] == b[i] {}
    if AllMatch(m, a + b) {
      forall i | 0 <= i < |b| ensures m(b[i]) { assert (a + b)[|a| + i] == b[i]; }
    }
    if AnyMatches(m, b) {
      var i :| 0 <= i < |b| && m(b[i]);
      assert (a + b)[|a| + i] == b[i];
    }
  }

  lemma {:induction false} OwnGuardsFire(m: Meaning, unless: seq<RuleSource>, given: seq<RuleSource>,
                                            rules: seq<RuleSource>)
    ensures Fired(m, OwnGuards(unless, given, rules))
            == if Open(m, unless, given) then Direct(m, rules) else []
  {
    if |rules| > 0 {
      var n := |rules| - 1;
      OwnGuardsFire(m, unless, given, rules[..n]);
      var last := if rules[n].receiver != "" then [Guard(unless, given, rules[n])] else [];
      FiredConcat(m, OwnGuards(unless, given, rules[..n]), last);
    }
  }

  lemma {:induction false} FlattenInContext(m: Meaning, unless: seq<RuleSource>, given: seq<RuleSource>,
                                            r: RouteSource)
    ensures Fired(m, Flatten(unless, given, r))
            == if Open(m, unless, given) then Emissions(m, r) else []
    decreases r, 1
  {
    var drops, givens := unless + r.drop, given + r.rules;
    FiredConcat(m, OwnGuards(drops, given, r.rules), FlattenAll(drops, givens, r.routes));
    OwnGuardsFire(m, drops, given, r.rules);
    FlattenAllInContext(m, drops, givens, r.routes);
    assert Open(m, drops, given) <==> Open(m, unless, given) && !AnyMatches(m, r.drop);
    assert Open(m, drops, givens) <==> Open(m, drops, given) && AllMatch(m, r.rules);
  }

  lemma {:induction false} FlattenAllInContext(m: Meaning, unless: seq<RuleSource>, given: seq<RuleSource>,
                                                  rs: seq<RouteSource>)
    ensures Fired(m, FlattenAll(unless, given, rs))
            == if Open(m, unless, given) then EmissionsOfAll(m, rs) else []
    decreases rs, 0
  {
    if |rs| > 0 {
      FiredConcat(m, Flatten(unless, given, rs[0]), FlattenAll(unless, given, rs[1..]));
      FlattenInContext(m, unless, given, rs[0]);
      FlattenAllInContext(m, unless, given, rs[1..]);
    }
  }

  /** Processing an event through the tree sends to exactly the receivers of the flat list's guards
      that fire, in the same order. */
  lemma FlattenPreservesMeaning(m: Meaning, r: RouteSource)
    ensures Emissions(m, r) == Fired(m, Flatten([], [], r))
  {
    FlattenInContext(m, [], [], r);
  }

  // ---------- Drop rules only remove ----------

  /** `a` is `b` with some elements left out. */
  ghost predicate Subsequence<T>(a: seq<T>, b: seq<T>) {
    if |a| == 0 then true
    else if |b| == 0 then false
    else (a[0] == b[0] && Subsequence(a[1..], b[1..])) || Subsequence(a, b[1..])
  }

  lemma {:induction false} SubsequenceRefl<T>(a: seq<T>)
    ensures Subsequence(a, a)
  {
    if |a| > 0 { SubsequenceRefl(a[1..]); }
  }

  lemma {:induction false} SubsequenceConcat<T>(a: seq<T>, b: seq<T>, c: seq<T>, d: seq<T>)
    requires Subsequence(a, b) && Subsequence(c, d)
    ensures Subsequence(a + c, b + d)
    decreases |b|
  {
    if |b| == 0 {
      assert a + c == c && b + d == d;
    } else {
      assert (b + d)[1..] == b[1..] + d;
      if |a| > 0 && a[0] == b[0] && Subsequence(a[1..], b[1..]) {
        SubsequenceConcat(a[1..], b[1..], c, d);
        assert (a + c)[1..] == a[1..] + c;
      } else {
        SubsequenceConcat(a, b[1..], c, d);
      }
    }
  }

  /** The path names a node: the child index at each level. */
  predicate IsNode(r: RouteSource, path: seq<nat>) {
    |path| == 0 || (path[0] < |r.routes| && IsNode(r.routes[path[0]], path[1..]))
  }

  /** The tree with `rule` inserted at position `at` of the drop rules of one node. */
  function InsertDrop(r: RouteSource, path: seq<nat>, at: nat, rule: RuleSource): RouteSource
    requires IsNode(r, path)
    decreases |path|
  {
    if |path| == 0 then
      var k := if at <= |r.drop| then at else |r.drop|;
      r.(drop := r.drop[..k] + [rule] + r.drop[k..])
    else
      r.(routes := r.routes[path[0] := InsertDrop(r.routes[path[0]], path[1..], at, rule)])
  }

  lemma {:induction false} OneSubrouteShrinks(m: Meaning, rs: seq<RouteSource>, i: nat, sub: RouteSource)
    requires i < |rs| && Subsequence(Emissions(m, sub), Emissions(m, rs[i]))
    ensures Subsequence(EmissionsOfAll(m, rs[i := sub]), EmissionsOfAll(m, rs))
  {
    if i == 0 {
      assert rs[i := sub][1..] == rs[1..];
      SubsequenceRefl(EmissionsOfAll(m, rs[1..]));
      SubsequenceConcat(Emissions(m, sub), Emissions(m, rs[0]),
                        EmissionsOfAll(m, rs[1..]), EmissionsOfAll(m, rs[1..]));
    } else {
      assert rs[i := sub][1..] == rs[1..][i - 1 := sub];
      OneSubrouteShrinks(m, rs[1..], i - 1, sub);
      SubsequenceRefl(Emissions(m, rs[0]));
      SubsequenceConcat(Emissions(m, rs[0]), Emissions(m, rs[0]),
                        EmissionsOfAll(m, rs[1..][i - 1 := sub]), EmissionsOfAll(m, rs[1..]));
    }
  }

  lemma InsertedDropMatches(m: Meaning, rules: seq<RuleSource>, k: nat, rule: RuleSource)
    requires k <= |rules|
    ensures AnyMatches(m, rules[..k] + [rule] + rules[k..])
            <==> AnyMatches(m, rules) || m(rule)
  {
    AnyConcat(m, rules[..k] + [rule], rules[k..]);
    AnyConcat(m, rules[..k], [rule]);
    AnyConcat(m, rules[..k], rules[k..]);
    assert rules[..k] + rules[k..] == rules;
    assert AnyMatches(m, [rule]) <==> m(rule) by {
      if m(rule) { assert m([rule][0]); }
    }
  }

  /** Adding a drop rule anywhere in a tree never adds, doubles or reorders a send; if the rule does not
      match the event, nothing changes at all. */
  lemma {:induction false} DropRulesOnlyRemove(m: Meaning, r: RouteSource, path: seq<nat>, at: nat,
                                                  rule: RuleSource)
    requires IsNode(r, path)
    ensures Subsequence(Emissions(m, InsertDrop(r, path, at, rule)), Emissions(m, r))
    ensures !m(rule) ==> Emissions(m, InsertDrop(r, path, at, rule)) == Emissions(m, r)
    ensures |path| == 0 && m(rule) ==> Emissions(m, InsertDrop(r, path, at, rule)) == []
    decreases |path|
  {
    if |path| == 0 {
      InsertedDropMatches(m, r.drop, if at <= |r.drop| then at else |r.drop|, rule);
      SubsequenceRefl(Emissions(m, r));
    } else {
      var i := path[0];
      DropRulesOnlyRemove(m, r.routes[i], path[1..], at, rule);
      var sub := InsertDrop(r.routes[i], path[1..], at, rule);
      OneSubrouteShrinks(m, r.routes, i, sub);
      SubsequenceRefl(Direct(m, r.rules));
      SubsequenceConcat(Direct(m, r.rules), Direct(m, r.rules),
                        EmissionsOfAll(m, r.routes[i := sub]), EmissionsOfAll(m, r.routes));
      if !m(rule) { SameSubroute(m, r.routes, i, sub); }
      SubsequenceRefl(Emissions(m, r));
    }
  }

  lemma {:induction false} SameSubroute(m: Meaning, rs: seq<RouteSource>, i: nat, sub: RouteSource)
    requires i < |rs| && Emissions(m, sub) == Emissions(m, rs[i])
    ensures EmissionsOfAll(m, rs[i := sub]) == EmissionsOfAll(m, rs)
  {
    if i == 0 {
      assert rs[i := sub][1..] == rs[1..];
    } else {
      assert rs[i := sub][1..] == rs[1..][i - 1 := sub];
      SameSubroute(m, rs[1..], i - 1, sub);
    }
  }

  /** The order of a node's drop rules is irrelevant. */
  lemma DropOrderIrrelevant(m: Meaning, r: RouteSource, drop: seq<RuleSource>)
    requires multiset(drop) == multiset(r.drop)
    ensures Emissions(m, r.(drop := drop)) == Emissions(m, r)
  {
    if AnyMatches(m, drop) {
      var i :| 0 <= i < |drop| && m(drop[i]);
      assert drop[i] in multiset(r.drop);
    }
    if AnyMatches(m, r.drop) {
      var i :| 0 <= i < |r.drop| && m(r.drop[i]);
      assert r.drop[i] in multiset(drop);
    }
  }
}
