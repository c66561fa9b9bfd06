/**
 Rules with their precompiled patterns, which configuration validation fills in place
 (pkg/exporter/rule.go, pkg/exporter/config.go), and the evaluation of a routing tree of such rules
 (pkg/exporter/route.go).
 */
module Rules {
  import opened Wrappers
  import opened Kube
  import opened Routing

  /** What compilePattern returns: the compiled pattern or nil, and whether there was an error. */
  datatype Compiled<+R> = Compiled(slot: Option<R>, err: bool)

  function CompilePattern<R>(rx: Regexp<R>, pattern: string): Compiled<R> {
    if pattern == "" then Compiled(None, false)
    else Compiled(rx.compile(pattern), rx.compile(pattern).None?)
  }

  predicate Compiles<R>(rx: Regexp<R>, pattern: string) {
    pattern != "" ==> rx.compile(pattern).Some?
  }

  /** A slot holds nothing or the compilation of its own source. */
  ghost predicate SlotOk<R>(rx: Regexp<R>, pattern: string, slot: Option<R>) {
    slot.Some? ==> pattern != "" && slot == rx.compile(pattern)
  }

  ghost predicate SlotsOk<R>(rx: Regexp<R>, patterns: map<string, string>, slots: map<string, Option<R>>) {
    forall k :: k in slots ==> k in patterns && SlotOk(rx, patterns[k], slots[k])
  }

  /** Ranges over the map in any order and stops at the first pattern that does not compile. */
  method CompilePatternMap<R>(rx: Regexp<R>, patterns: map<string, string>)
    returns (slots: map<string, Option<R>>, err: bool)
    ensures err <==> !MapCompiles(rx, patterns)
    ensures SlotsOk(rx, patterns, slots)
    ensures if err then slots == map[] else slots.Keys == patterns.Keys && MapReady(patterns, slots)
  {
    slots := map[];
    var rest := patterns.Keys;
    while rest != {}
      invariant rest <= patterns.Keys
      invariant slots.Keys == patterns.Keys - rest
      invariant forall k :: k in slots ==> Compiles(rx, patterns[k]) && slots[k] == CompilePattern(rx, patterns[k]).slot
    {
      var k :| k in rest;
      var c := CompilePattern(rx, patterns[k]);
      if c.err { return map[], true; }
      slots := slots[k := c.slot];
      rest := rest - {k};
    }
    err := false;
  }

  function SlotIn<K, R>(slots: map<K, Option<R>>, k: K): Option<R> {
    if k in slots then slots[k] else None
  }

  /** Matching with the compiled pattern, or, if there is none, compiling on the fly. */
  predicate PatternMatches<R>(rx: Regexp<R>, slot: Option<R>, pattern: string, s: string) {
    match slot
    case Some(r) => rx.matches(r, s)
    case None => MatchString(rx, pattern, s)
  }

  predicate MapPasses<R>(rx: Regexp<R>, patterns: map<string, string>, slots: map<string, Option<R>>,
                         actual: map<string, string>) {
    forall k :: k in patterns ==> k in actual && PatternMatches(rx, SlotIn(slots, k), patterns[k], actual[k])
  }

  class Rule<R> {
    const src: RuleSource

    var fieldPatterns: map<Field, Option<R>>     // the pattern slots of the nine string fields
    var labelsPatterns: map<string, Option<R>>
    var annotationsPatterns: map<string, Option<R>>

    /** A rule as it comes out of the configuration file. */
    constructor (src: RuleSource)
      ensures this.src == src && forall rx: Regexp<R> :: Consistent(rx)
    {
      this.src := src;
      fieldPatterns, labelsPatterns, annotationsPatterns := map[], map[], map[];
    }

    ghost predicate FieldsConsistent(rx: Regexp<R>)
      reads this
    {
      forall f :: f in fieldPatterns ==> SlotOk(rx, PatternOf(src, f), fieldPatterns[f])
    }

    /** Every pattern slot is nil or the compilation of its own source string. */
    ghost predicate Consistent(rx: Regexp<R>)
      reads this
    {
      && FieldsConsistent(rx)
      && SlotsOk(rx, src.labels, labelsPatterns)
      && SlotsOk(rx, src.annotations, annotationsPatterns)
    }

    predicate MatchesEvent(rx: Regexp<R>, ev: EnhancedEvent)
      reads this
    {
      && (forall f: Field :: f != Receiver && PatternOf(src, f) != "" ==>
            PatternMatches(rx, SlotIn(fieldPatterns, f), PatternOf(src, f), EventField(ev, f)))
      && MapPasses(rx, src.labels, labelsPatterns, ev.involved.metadata.labels)
      && MapPasses(rx, src.annotations, annotationsPatterns, ev.involved.metadata.annotations)
      && !(ev.event.count < src.minCount)
    }

    /** However much has been precompiled, a rule means what its source means. */
    lemma MeansItsSource(rx: Regexp<R>, ev: EnhancedEvent)
      requires Consistent(rx)
      ensures MatchesEvent(rx, ev) <==> MeaningFor(rx, ev)(src)
    {
      SlotsMean(rx, src.labels, labelsPatterns, ev.involved.metadata.labels);
      SlotsMean(rx, src.annotations, annotationsPatterns, ev.involved.metadata.annotations);
      forall f: Field | f != Receiver && PatternOf(src, f) != ""
        ensures PatternMatches(rx, SlotIn(fieldPatterns, f), PatternOf(src, f), EventField(ev, f))
                <==> MatchString(rx, PatternOf(src, f), EventField(ev, f))
      {
      }
    }

    /** The slot of `f` is what its pattern compiles to, and it does compile. */
    ghost predicate Compiled(rx: Regexp<R>, f: Field)
      reads this
    {
      Compiles(rx, PatternOf(src, f)) && SlotIn(fieldPatterns, f) == CompilePattern(rx, PatternOf(src, f)).slot
    }

    /** Everything compiled before is still compiled. */
    twostate predicate Keeps(rx: Regexp<R>)
      reads this
    {
      forall g :: old(Compiled(rx, g)) ==> Compiled(rx, g)
    }

    method PreCompileField(rx: Regexp<R>, f: Field) returns (err: bool)
      requires FieldsConsistent(rx)
      modifies this`fieldPatterns
      ensures FieldsConsistent(rx) && Keeps(rx)
      ensures err <==> !Compiles(rx, PatternOf(src, f))
      ensures !err ==> Compiled(rx, f)
    {
      var c := CompilePattern(rx, PatternOf(src, f));
      fieldPatterns := fieldPatterns[f := c.slot];
      err := c.err;
    }

    method PreCompileObjectFields(rx: Regexp<R>) returns (err: bool)
      requires FieldsConsistent(rx)
      modifies this`fieldPatterns
      ensures FieldsConsistent(rx) && Keeps(rx)
      ensures err ==> exists f :: !Compiles(rx, PatternOf(src, f))
      ensures !err ==> Compiled(rx, ApiVersion) && Compiled(rx, Kind) && Compiled(rx, Namespace)
                       && Compiled(rx, Reason) && Compiled(rx, Type)
    {
      err := PreCompileField(rx, ApiVersion);
      if err { return; }
      err := PreCompileField(rx, Kind);
      if err { return; }
      err := PreCompileField(rx, Namespace);
      if err { return; }
      err := PreCompileField(rx, Reason);
      if err { return; }
      err := PreCompileField(rx, Type);
    }

    method PreCompileFields(rx: Regexp<R>) returns (err: bool)
      requires FieldsConsistent(rx)
      modifies this`fieldPatterns
      ensures FieldsConsistent(rx)
      ensures err ==> exists f :: !Compiles(rx, PatternOf(src, f))
      ensures !err ==> (forall f :: Compiles(rx, PatternOf(src, f))) && FieldsReady()
    {
      err := PreCompileObjectFields(rx);
      if err { return; }
      err := PreCompileField(rx, Component);
      if err { return; }
      err := PreCompileField(rx, Host);
      if err { return; }
      err := PreCompileField(rx, Message);
      if err { return; }
      err := PreCompileField(rx, Receiver);
      if err { return; }
      forall f ensures Compiled(rx, f) {
        match f case ApiVersion => case Kind => case Namespace => case Reason => case Type =>
        case Component => case Host => case Message => case Receiver =>
      }
      forall f ensures Compiles(rx, PatternOf(src, f)) && (PatternOf(src, f) != "" ==> SlotIn(fieldPatterns, f).Some?) {
        assert Compiled(rx, f);
      }
    }

    /** Compiles one field after the other, then the labels, then the annotations, and stops at the first
        error. */
    method PreCompile(rx: Regexp<R>) returns (ok: bool)
      requires Consistent(rx)
      modifies this
      ensures Consistent(rx)
      ensures ok <==> RuleCompiles(rx, src)
      ensures ok ==> Precompiled()
    {
      var err := PreCompileFields(rx);
      if err { return false; }
      labelsPatterns, err := CompilePatternMap(rx, src.labels);
      if err { return false; }
      annotationsPatterns, err := CompilePatternMap(rx, src.annotations);
      ok := !err;
    }

    ghost predicate FieldsReady()
      reads this
    {
      forall f :: PatternOf(src, f) != "" ==> SlotIn(fieldPatterns, f).Some?
    }

    /** Every configured pattern has been compiled. */
    ghost predicate Precompiled()
      reads this
    {
      FieldsReady() && MapReady(src.labels, labelsPatterns) && MapReady(src.annotations, annotationsPatterns)
    }
  }

  ghost predicate MapReady<R>(patterns: map<string, string>, slots: map<string, Option<R>>) {
    forall k :: k in patterns && patterns[k] != "" ==> k in slots && slots[k].Some?
  }

  lemma SlotsMean<R>(rx: Regexp<R>, patterns: map<string, string>, slots: map<string, Option<R>>,
                     actual: map<string, string>)
    requires SlotsOk(rx, patterns, slots)
    ensures MapPasses(rx, patterns, slots, actual) <==> MapMatches(rx, patterns, actual)
  {
  }

  predicate MapCompiles<R>(rx: Regexp<R>, patterns: map<string, string>) {
    forall k :: k in patterns ==> Compiles(rx, patterns[k])
  }

  predicate RuleCompiles<R>(rx: Regexp<R>, r: RuleSource) {
    && (forall f: Field :: Compiles(rx, PatternOf(r, f)))
    && MapCompiles(rx, r.labels) && MapCompiles(rx, r.annotations)
  }

  /** The patterns that matching uses: all but the receiver. */
  predicate UsedCompile<R>(rx: Regexp<R>, r: RuleSource) {
    && (forall f: Field :: f != Receiver ==> Compiles(rx, PatternOf(r, f)))
    && MapCompiles(rx, r.labels) && MapCompiles(rx, r.annotations)
  }

  predicate ReceiverCompiles<R>(rx: Regexp<R>, r: RuleSource) { Compiles(rx, r.receiver) }

  lemma ReceiverIsExtra<R>(rx: Regexp<R>, r: RuleSource)
    ensures RuleCompiles(rx, r) <==> UsedCompile(rx, r) && ReceiverCompiles(rx, r)
  {
    assert PatternOf(r, Receiver) == r.receiver;
  }
}

module Routes {
  import opened Wrappers
  import opened Kube
  import opened Routing
  import opened RoutingPaths
  import opened Rules

  datatype Route<R> = Route(drop: seq<Rule<R>>, rules: seq<Rule<R>>, routes: seq<Route<R>>)

  function Sources<R>(rules: seq<Rule<R>>): seq<RuleSource> {
    seq(|rules|, i requires 0 <= i < |rules| => rules[i].src)
  }

  /** The configured tree, without anything precompiled. */
  function Source<R>(r: Route<R>): RouteSource
    decreases r, 1
  {
    RouteSource(Sources(r.drop), Sources(r.rules), SourceOfAll(r.routes))
  }

  function SourceOfAll<R>(rs: seq<Route<R>>): seq<RouteSource>
    decreases rs, 0
  {
    if |rs| == 0 then [] else [Source(rs[0])] + SourceOfAll(rs[1..])
  }

  /** It has the same rules and sub-routes in the same places. */
  lemma {:induction false} SourceAt<R>(rs: seq<Route<R>>)
    ensures |SourceOfAll(rs)| == |rs|
    ensures forall i :: 0 <= i < |rs| ==>
              && SourceOfAll(rs)[i].routes == SourceOfAll(rs[i].routes)
              && SameRules(SourceOfAll(rs)[i].drop, rs[i].drop) && SameRules(SourceOfAll(rs)[i].rules, rs[i].rules)
  {
    if |rs| > 0 {
      SourceAt(rs[1..]);
      forall i | 0 < i < |rs| ensures SourceOfAll(rs)[i] == SourceOfAll(rs[1..])[i - 1] && rs[i] == rs[1..][i - 1] {}
    }
  }

  ghost predicate SameRules<R>(sources: seq<RuleSource>, rules: seq<Rule<R>>) {
    |sources| == |rules| && forall i :: 0 <= i < |rules| ==> sources[i] == rules[i].src
  }

  ghost function RulesOf<R>(r: Route<R>): set<Rule<R>>
    decreases r, 1
  {
    (set x | x in r.drop) + (set x | x in r.rules) + RulesOfAll(r.routes)
  }

  ghost function RulesOfAll<R>(rs: seq<Route<R>>): set<Rule<R>>
    decreases rs, 0
  {
    if |rs| == 0 then {} else RulesOf(rs[0]) + RulesOfAll(rs[1..])
  }

  ghost predicate AllConsistent<R>(rx: Regexp<R>, rules: set<Rule<R>>)
    reads rules
  {
    forall x :: x in rules ==> x.Consistent(rx)
  }

  lemma Uncons<R>(routes: seq<Route<R>>, i: nat)
    requires i < |routes|
    ensures SourceOfAll(routes[i..]) == [Source(routes[i])] + SourceOfAll(routes[i + 1..])
    ensures RulesOfAll(routes[i..]) == RulesOf(routes[i]) + RulesOfAll(routes[i + 1..])
  {
    assert routes[i..][1..] == routes[i + 1..];
  }

  // ---------- Precompilation ----------

  predicate AllCompile(c: RuleSource -> bool, rules: seq<RuleSource>) {
    forall i :: 0 <= i < |rules| ==> c(rules[i])
  }

  predicate RouteCompiles(c: RuleSource -> bool, r: RouteSource)
    decreases r, 1
  {
    AllCompile(c, r.drop) && AllCompile(c, r.rules) && RoutesCompile(c, r.routes)
  }

  predicate RoutesCompile(c: RuleSource -> bool, rs: seq<RouteSource>)
    decreases rs, 0
  {
    |rs| == 0 || (RouteCompiles(c, rs[0]) && RoutesCompile(c, rs[1..]))
  }

  /** All rules at this place satisfy the condition. */
  predicate NodeCompiles(c: RuleSource -> bool, node: RouteSource) {
    && (forall i :: 0 <= i < |node.drop| ==> c(node.drop[i]))
    && (forall i :: 0 <= i < |node.rules| ==> c(node.rules[i]))
  }

  ghost predicate AllPlacesCompile(c: RuleSource -> bool, t: RouteSource) {
    forall path: seq<nat> :: NodeAt(t, path).Some? ==> NodeCompiles(c, NodeAt(t, path).value)
  }

  lemma PlacesBelow(c: RuleSource -> bool, t: RouteSource)
    ensures AllPlacesCompile(c, t) <==>
            NodeCompiles(c, t) && forall j :: 0 <= j < |t.routes| ==> AllPlacesCompile(c, t.routes[j])
  {
    if AllPlacesCompile(c, t) {
      var here: seq<nat> := [];
      assert NodeAt(t, here) == Some(t);
      forall j, rest: seq<nat> | 0 <= j < |t.routes| && NodeAt(t.routes[j], rest).Some?
        ensures NodeCompiles(c, NodeAt(t.routes[j], rest).value)
      {
        var path: seq<nat> := [j] + rest;
        assert path[0] == j && path[1..] == rest;
        assert NodeAt(t, path) == NodeAt(t.routes[j], rest);
      }
    }
    if NodeCompiles(c, t) && forall j :: 0 <= j < |t.routes| ==> AllPlacesCompile(c, t.routes[j]) {
      forall path: seq<nat> | NodeAt(t, path).Some? ensures NodeCompiles(c, NodeAt(t, path).value) {
        if |path| > 0 {
          assert AllPlacesCompile(c, t.routes[path[0]]);
          assert NodeAt(t, path) == NodeAt(t.routes[path[0]], path[1..]);
        }
      }
    }
  }

  /** A tree compiles if and only if the rules at every place of it do. */
  lemma {:induction false} RouteCompilesIff(c: RuleSource -> bool, t: RouteSource)
    ensures RouteCompiles(c, t) <==> AllPlacesCompile(c, t)
    decreases t
  {
    PlacesBelow(c, t);
    SubroutesCompileIff(c, t.routes);
    forall j | 0 <= j < |t.routes| ensures RouteCompiles(c, t.routes[j]) <==> AllPlacesCompile(c, t.routes[j]) {
      RouteCompilesIff(c, t.routes[j]);
    }
    assert NodeCompiles(c, t) <==> AllCompile(c, t.drop) && AllCompile(c, t.rules);
  }

  lemma {:induction false} SubroutesCompileIff(c: RuleSource -> bool, ts: seq<RouteSource>)
    ensures RoutesCompile(c, ts) <==> forall j :: 0 <= j < |ts| ==> RouteCompiles(c, ts[j])
    decreases ts, 0
  {
    if |ts| > 0 {
      SubroutesCompileIff(c, ts[1..]);
      if forall j :: 0 <= j < |ts| ==> RouteCompiles(c, ts[j]) {
        forall j | 0 <= j < |ts[1..]| ensures RouteCompiles(c, ts[1..][j]) { assert ts[1..][j] == ts[j + 1]; }
      }
      if RoutesCompile(c, ts) {
        forall j | 0 <= j < |ts| ensures RouteCompiles(c, ts[j]) {
          if j > 0 { assert ts[j] == ts[1..][j - 1]; }
        }
      }
    }
  }

  /** Everything precompiled before this call still is. */
  twostate predicate Keeps<R>(all: set<Rule<R>>)
    reads all
  {
    forall x :: x in all && old(x.Precompiled()) ==> x.Precompiled()
  }

  method PreCompileRule<R>(rx: Regexp<R>, rule: Rule<R>, ghost c: RuleSource -> bool, ghost all: set<Rule<R>>)
    returns (ok: bool)
    requires AllConsistent(rx, all) && rule in all && (RuleCompiles(rx, rule.src) <==> c(rule.src))
    modifies all
    ensures AllConsistent(rx, all)
    ensures ok <==> c(rule.src)
    ensures ok ==> Keeps(all) && rule.Precompiled()
  {
    ok := rule.PreCompile(rx);
  }

  method PreCompileRules<R>(rx: Regexp<R>, rules: seq<Rule<R>>, ghost c: RuleSource -> bool, ghost all: set<Rule<R>>)
    returns (ok: bool)
    requires AllConsistent(rx, all) && forall x :: x in rules ==> x in all
    requires forall x :: x in all ==> (RuleCompiles(rx, x.src) <==> c(x.src))
    modifies all
    ensures AllConsistent(rx, all)
    ensures ok <==> AllCompile(c, Sources(rules))
    ensures ok ==> Keeps(all) && forall x :: x in rules ==> x.Precompiled()
  {
    for i := 0 to |rules|
      invariant AllConsistent(rx, all)
      invariant forall j :: 0 <= j < i ==> c(Sources(rules)[j])
      invariant Keeps(all) && forall j :: 0 <= j < i ==> rules[j].Precompiled()
    {
      ok := PreCompileRule(rx, rules[i], c, all);
      if !ok {
        assert !c(Sources(rules)[i]);
        return;
      }
    }
    ok := true;
  }

  method PreCompileTree<R>(rx: Regexp<R>, route: Route<R>, ghost c: RuleSource -> bool, ghost all: set<Rule<R>>)
    returns (ok: bool)
    requires RulesOf(route) <= all && AllConsistent(rx, all)
    requires forall x :: x in all ==> (RuleCompiles(rx, x.src) <==> c(x.src))
    modifies all
    ensures AllConsistent(rx, all)
    ensures ok <==> RouteCompiles(c, Source(route))
    ensures ok ==> Keeps(all) && forall x :: x in RulesOf(route) ==> x.Precompiled()
    decreases route, 1
  {
    ok := PreCompileRules(rx, route.drop, c, all);
    if !ok { return; }
    ok := PreCompileRules(rx, route.rules, c, all);
    if !ok { return; }
    ok := PreCompileSubroutes(rx, route.routes, c, all);
  }

  method PreCompileSubroutes<R>(rx: Regexp<R>, routes: seq<Route<R>>, ghost c: RuleSource -> bool,
                                ghost all: set<Rule<R>>)
    returns (ok: bool)
    requires RulesOfAll(routes) <= all && AllConsistent(rx, all)
    requires forall x :: x in all ==> (RuleCompiles(rx, x.src) <==> c(x.src))
    modifies all
    ensures AllConsistent(rx, all)
    ensures ok <==> RoutesCompile(c, SourceOfAll(routes))
    ensures ok ==> Keeps(all) && forall x :: x in RulesOfAll(routes) ==> x.Precompiled()
    decreases routes, 0
  {
    assert routes[0..] == routes;
    for i := 0 to |routes|
      invariant AllConsistent(rx, all) && Keeps(all)
      invariant RulesOfAll(routes[i..]) <= all
      invariant RoutesCompile(c, SourceOfAll(routes)) <==> RoutesCompile(c, SourceOfAll(routes[i..]))
      invariant forall x :: x in RulesOfAll(routes) ==> x in RulesOfAll(routes[i..]) || x.Precompiled()
    {
      Uncons(routes, i);
      UnconsCompile(c, Source(routes[i]), SourceOfAll(routes[i + 1..]));
      ok := PreCompileTree(rx, routes[i], c, all);
      if !ok { return; }
    }
    ok := true;
  }

  lemma UnconsCompile(c: RuleSource -> bool, r: RouteSource, rs: seq<RouteSource>)
    ensures RoutesCompile(c, [r] + rs) <==> RouteCompiles(c, r) && RoutesCompile(c, rs)
  {
    assert ([r] + rs)[1..] == rs;
  }

  /** Compiles the whole tree in place, or up to the first error. Either way every pattern slot stays nil
      or right; it succeeds if and only if every pattern in the whole tree compiles. */
  method PreCompileRoute<R>(rx: Regexp<R>, route: Route<R>) returns (ok: bool)
    requires AllConsistent(rx, RulesOf(route))
    modifies RulesOf(route)
    ensures AllConsistent(rx, RulesOf(route))
    ensures ok <==> RouteCompiles((r: RuleSource) => RuleCompiles(rx, r), Source(route))
    ensures ok ==> forall x :: x in RulesOf(route) ==> x.Precompiled()
  {
    ok := PreCompileTree(rx, route, (r: RuleSource) => RuleCompiles(rx, r), RulesOf(route));
  }

  lemma {:induction false} CompilesInParts(c: RuleSource -> bool, a: RuleSource -> bool, b: RuleSource -> bool,
                                           t: RouteSource)
    requires forall r :: c(r) <==> a(r) && b(r)
    ensures RouteCompiles(c, t) <==> RouteCompiles(a, t) && RouteCompiles(b, t)
    decreases t, 1
  {
    AllCompileInParts(c, a, b, t.routes);
    assert AllCompile(c, t.drop) <==> AllCompile(a, t.drop) && AllCompile(b, t.drop);
    assert AllCompile(c, t.rules) <==> AllCompile(a, t.rules) && AllCompile(b, t.rules);
  }

  lemma {:induction false} AllCompileInParts(c: RuleSource -> bool, a: RuleSource -> bool, b: RuleSource -> bool,
                                             ts: seq<RouteSource>)
    requires forall r :: c(r) <==> a(r) && b(r)
    ensures RoutesCompile(c, ts) <==> RoutesCompile(a, ts) && RoutesCompile(b, ts)
    decreases ts, 0
  {
    if |ts| > 0 {
      CompilesInParts(c, a, b, ts[0]);
      AllCompileInParts(c, a, b, ts[1..]);
    }
  }

  /** Validation also compiles the names of receivers. It accepts exactly the trees all of whose used
      patterns compile if and only if, where these do, the receivers' names compile too. */
  lemma ValidationFitsUseIff<R>(rx: Regexp<R>, t: RouteSource)
    ensures var valid := RouteCompiles((r: RuleSource) => RuleCompiles(rx, r), t);
            var usable := RouteCompiles((r: RuleSource) => UsedCompile(rx, r), t);
            var names := RouteCompiles((r: RuleSource) => ReceiverCompiles(rx, r), t);
            (valid <==> usable && names) && ((valid <==> usable) <==> (usable ==> names))
  {
    forall r ensures RuleCompiles(rx, r) <==> UsedCompile(rx, r) && ReceiverCompiles(rx, r) { ReceiverIsExtra(rx, r); }
    CompilesInParts((r: RuleSource) => RuleCompiles(rx, r), (r: RuleSource) => UsedCompile(rx, r),
                    (r: RuleSource) => ReceiverCompiles(rx, r), t);
  }

  /** A tree of one rule that matches everything, for a receiver whose name is not a regular expression. */
  lemma BracketReceiverInvalid<R>(rx: Regexp<R>)
    requires rx.compile("(").None?
    ensures var rule := RuleSource(map[], map[], "", "", "", "", "", "", "", "", "(", 0);
            var t := RouteSource([], [rule], []);
            && RouteCompiles((r: RuleSource) => UsedCompile(rx, r), t)
            && !RouteCompiles((r: RuleSource) => RuleCompiles(rx, r), t)
            && forall ev: EnhancedEvent :: ev.event.count >= 0 ==> Emissions(MeaningFor(rx, ev), t) == ["("]
  {
    var rule := RuleSource(map[], map[], "", "", "", "", "", "", "", "", "(", 0);
    var t := RouteSource([], [rule], []);
    ReceiverIsExtra(rx, rule);
    assert t.rules[0] == rule;
    forall ev: EnhancedEvent | ev.event.count >= 0 ensures Emissions(MeaningFor(rx, ev), t) == ["("] {
      var m := MeaningFor(rx, ev);
      assert m(rule) && [rule][..0] == [];
      assert Direct(m, [rule]) == Direct(m, []) + ["("];
      assert Emissions(m, t) == Direct(m, [rule]) + [];
    }
  }

  // ---------- Processing ----------

  /** The registry as routing sees it: it takes SendEvent calls. */
  class CallLog {
    var calls: seq<(string, EnhancedEvent)>

    constructor ()
      ensures calls == []
    {
      calls := [];
    }

    method SendEvent(name: string, ev: EnhancedEvent)
      modifies this
      ensures calls == old(calls) + [(name, ev)]
    {
      calls := calls + [(name, ev)];
    }
  }

  function Tag<E>(receivers: seq<string>, ev: E): seq<(string, E)> {
    seq(|receivers|, i requires 0 <= i < |receivers| => (receivers[i], ev))
  }

  /** For this event, every rule object means what `m` says of its source. */
  ghost predicate Agree<R>(rx: Regexp<R>, ev: EnhancedEvent, m: Meaning, all: set<Rule<R>>)
    reads all
  {
    forall x :: x in all ==> (x.MatchesEvent(rx, ev) <==> m(x.src))
  }

  method IsDropped<R>(rx: Regexp<R>, rules: seq<Rule<R>>, ev: EnhancedEvent, ghost m: Meaning, ghost all: set<Rule<R>>)
    returns (dropped: bool)
    requires Agree(rx, ev, m, all) && forall x :: x in rules ==> x in all
    ensures dropped <==> AnyMatches(m, Sources(rules))
  {
    for i := 0 to |rules|
      invariant forall j :: 0 <= j < i ==> !m(Sources(rules)[j])
    {
      if rules[i].MatchesEvent(rx, ev) {
        assert m(Sources(rules)[i]);
        return true;
      }
    }
    dropped := false;
  }

  method SendMatches<R>(rx: Regexp<R>, rules: seq<Rule<R>>, ev: EnhancedEvent, registry: CallLog,
                        ghost m: Meaning, ghost all: set<Rule<R>>)
    returns (matchesAll: bool)
    requires Agree(rx, ev, m, all) && forall x :: x in rules ==> x in all
    modifies registry
    ensures matchesAll <==> AllMatch(m, Sources(rules))
    ensures registry.calls == old(registry.calls) + Tag(Direct(m, Sources(rules)), ev)
  {
    ghost var src, before := Sources(rules), registry.calls;
    matchesAll := true;
    for i := 0 to |rules|
      invariant Agree(rx, ev, m, all)
      invariant matchesAll <==> AllMatch(m, src[..i])
      invariant registry.calls == before + Tag(Direct(m, src[..i]), ev)
    {
      DirectStep(m, src, i, before, ev);
      if rules[i].MatchesEvent(rx, ev) {
        if rules[i].src.receiver != "" {
          registry.SendEvent(rules[i].src.receiver, ev);
        }
      } else {
        matchesAll := false;
      }
    }
    assert src[..|rules|] == src;
  }

  method ProcessRoute<R>(rx: Regexp<R>, route: Route<R>, ev: EnhancedEvent, registry: CallLog,
                         ghost m: Meaning, ghost all: set<Rule<R>>)
    requires Agree(rx, ev, m, all) && RulesOf(route) <= all
    modifies registry
    ensures registry.calls == old(registry.calls) + Tag(Emissions(m, Source(route)), ev)
    decreases route, 1
  {
    ghost var before := registry.calls;
    var dropped := IsDropped(rx, route.drop, ev, m, all);
    if dropped {
      NothingEmitted(m, Source(route), before, ev);
      return;
    }
    var matchesAll := SendMatches(rx, route.rules, ev, registry, m, all);
    if matchesAll {
      ProcessSubroutes(rx, route.routes, ev, registry, m, all);
    }
    EmittedInParts(m, Source(route), before, ev);
  }

  lemma NothingEmitted<E>(m: Meaning, r: RouteSource, before: seq<(string, E)>, ev: E)
    requires AnyMatches(m, r.drop)
    ensures before + Tag(Emissions(m, r), ev) == before
  {
  }

  lemma EmittedInParts<E>(m: Meaning, r: RouteSource, before: seq<(string, E)>, ev: E)
    requires !AnyMatches(m, r.drop)
    ensures before + Tag(Emissions(m, r), ev)
            == if AllMatch(m, r.rules) then before + Tag(Direct(m, r.rules), ev) + Tag(EmissionsOfAll(m, r.routes), ev)
               else before + Tag(Direct(m, r.rules), ev)
  {
    TagConcat(Direct(m, r.rules), EmissionsOfAll(m, r.routes), ev);
    if AllMatch(m, r.rules) {
      assert Emissions(m, r) == Direct(m, r.rules) + EmissionsOfAll(m, r.routes);
    } else {
      assert Emissions(m, r) == Direct(m, r.rules);
    }
  }

  method ProcessSubroutes<R>(rx: Regexp<R>, routes: seq<Route<R>>, ev: EnhancedEvent, registry: CallLog,
                             ghost m: Meaning, ghost all: set<Rule<R>>)
    requires Agree(rx, ev, m, all) && RulesOfAll(routes) <= all
    modifies registry
    ensures registry.calls == old(registry.calls) + Tag(EmissionsOfAll(m, SourceOfAll(routes)), ev)
    decreases routes, 0
  {
    ghost var goal := registry.calls + Tag(EmissionsOfAll(m, SourceOfAll(routes)), ev);
    assert routes[0..] == routes;
    for i := 0 to |routes|
      invariant Agree(rx, ev, m, all) && RulesOfAll(routes[i..]) <= all
      invariant registry.calls + Tag(EmissionsOfAll(m, SourceOfAll(routes[i..])), ev) == goal
    {
      Uncons(routes, i);
      FirstSubroute(m, Source(routes[i]), SourceOfAll(routes[i + 1..]), registry.calls, ev);
      ProcessRoute(rx, routes[i], ev, registry, m, all);
    }
    assert Tag(EmissionsOfAll(m, []), ev) == [];
  }

  /** The calls made are those of the configured tree, whatever part of it has been precompiled. */
  method ProcessEvent<R>(rx: Regexp<R>, route: Route<R>, ev: EnhancedEvent, registry: CallLog,
                         ghost all: set<Rule<R>>)
    requires RulesOf(route) <= all && AllConsistent(rx, all)
    modifies registry
    ensures registry.calls == old(registry.calls) + Tag(Emissions(MeaningFor(rx, ev), Source(route)), ev)
  {
    forall x | x in all ensures x.MatchesEvent(rx, ev) <==> MeaningFor(rx, ev)(x.src) { x.MeansItsSource(rx, ev); }
    ProcessRoute(rx, route, ev, registry, MeaningFor(rx, ev), all);
  }

  lemma DirectStep<E>(m: Meaning, rules: seq<RuleSource>, i: nat, before: seq<(string, E)>, ev: E)
    requires i < |rules|
    ensures before + Tag(Direct(m, rules[..i + 1]), ev)
            == if m(rules[i]) && rules[i].receiver != ""
               then before + Tag(Direct(m, rules[..i]), ev) + [(rules[i].receiver, ev)]
               else before + Tag(Direct(m, rules[..i]), ev)
    ensures AllMatch(m, rules[..i + 1]) <==> AllMatch(m, rules[..i]) && m(rules[i])
  {
    assert rules[..i + 1][..i] == rules[..i];
    AnyConcat(m, rules[..i], [rules[i]]);
    assert rules[..i + 1] == rules[..i] + [rules[i]];
    assert AllMatch(m, [rules[i]]) <==> m([rules[i]][0]);
    TagConcat(Direct(m, rules[..i]), [rules[i].receiver], ev);
  }

  lemma FirstSubroute<E>(m: Meaning, r: RouteSource, rs: seq<RouteSource>, before: seq<(string, E)>, ev: E)
    ensures before + Tag(EmissionsOfAll(m, [r] + rs), ev)
            == before + Tag(Emissions(m, r), ev) + Tag(EmissionsOfAll(m, rs), ev)
  {
    assert ([r] + rs)[1..] == rs;
    TagConcat(Emissions(m, r), EmissionsOfAll(m, rs), ev);
  }

  lemma TagConcat<E>(a: seq<string>, b: seq<string>, ev: E)
    ensures Tag(a + b, ev) == Tag(a, ev) + Tag(b, ev)
  {
  }
}
