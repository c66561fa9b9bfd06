/**
 What the repository's README.md (lines 78-79) says about match rules, and exactly when the code keeps it:
 first, that one matching rule is enough to enter the subtree, and second, that receivers are for events that
 all match rules match.
 */
module RoutingPromises {
  import opened Wrappers
  import opened Kube
  import opened Routing

  // ---------- For one event ----------

  /** All receivers the rules name, in rule order. */
  function Receivers(rules: seq<RuleSource>): seq<string> {
    if |rules| == 0 then []
    else
      var n := |rules| - 1;
      Receivers(rules[..n]) + (if rules[n].receiver != "" then [rules[n].receiver] else [])
  }

  /** The second sentence, read as saying when the event is passed on. */
  function Promised(m: Meaning, rules: seq<RuleSource>): seq<string> {
    if AllMatch(m, rules) then Receivers(rules) else []
  }

  /** No matching rule names a receiver. */
  predicate SilentMatches(m: Meaning, rules: seq<RuleSource>) {
    forall i :: 0 <= i < |rules| && m(rules[i]) ==> rules[i].receiver == ""
  }

  lemma {:induction false} DirectWhenAll(m: Meaning, rules: seq<RuleSource>)
    requires AllMatch(m, rules)
    ensures Direct(m, rules) == Receivers(rules)
  {
    if |rules| > 0 { DirectWhenAll(m, rules[..|rules| - 1]); }
  }

  lemma {:induction false} DirectEmptyIff(m: Meaning, rules: seq<RuleSource>)
    ensures Direct(m, rules) == [] <==> SilentMatches(m, rules)
  {
    if |rules| > 0 {
      var n := |rules| - 1;
      DirectEmptyIff(m, rules[..n]);
      assert forall i :: 0 <= i < n ==> rules[..n][i] == rules[i];
    }
  }

  /** If all rules match, the code passes the event on as promised. It passes it on only then if and only if
      no rule that matches without the others names a receiver. */
  lemma PromisedIff(m: Meaning, rules: seq<RuleSource>)
    ensures Direct(m, rules) == Promised(m, rules) <==> AllMatch(m, rules) || SilentMatches(m, rules)
  {
    if AllMatch(m, rules) { DirectWhenAll(m, rules); } else { DirectEmptyIff(m, rules); }
  }

  // ---------- For one configuration ----------

  /** Everything the second rule demands, the first demands too. */
  predicate Demands(a: RuleSource, b: RuleSource) {
    && (forall f: Field :: f != Receiver && PatternOf(b, f) != "" ==> PatternOf(b, f) == PatternOf(a, f))
    && (forall k :: k in b.labels ==> k in a.labels && b.labels[k] == a.labels[k])
    && (forall k :: k in b.annotations ==> k in a.annotations && b.annotations[k] == a.annotations[k])
    && b.minCount <= a.minCount
  }

  lemma DemandsSound<R>(rx: Regexp<R>, a: RuleSource, b: RuleSource, ev: EnhancedEvent)
    requires Demands(a, b) && Matches(rx, a, ev)
    ensures Matches(rx, b, ev)
  {
  }

  // An event with a different value in every place, and a library that lets the patterns of one rule match
  // only in their own places.

  function FieldValue(f: Field): string {
    match f
    case Message => "fm" case ApiVersion => "fa" case Kind => "fk" case Namespace => "fn" case Reason => "fr"
    case Type => "ft" case Component => "fc" case Host => "fh" case Receiver => "f"
  }

  function LabelValue(k: string): string { "l" + k }

  function AnnotationValue(k: string): string { "a" + k }

  function TypicalEvent(a: RuleSource): EnhancedEvent {
    var ref := NO_OBJECT.(apiVersion := FieldValue(ApiVersion), kind := FieldValue(Kind));
    var md := NO_METADATA.(labels := map k | k in a.labels :: LabelValue(k),
                           annotations := map k | k in a.annotations :: AnnotationValue(k));
    EnhancedEvent(
      EMPTY_EVENT.event.(message := FieldValue(Message), namespace := FieldValue(Namespace),
                         reason := FieldValue(Reason), typ := FieldValue(Type), component := FieldValue(Component),
                         host := FieldValue(Host), count := a.minCount),
      EnhancedReference(ref, md))
  }

  ghost predicate InPlace(a: RuleSource, pattern: string, s: string) {
    || (exists f: Field :: f != Receiver && pattern == PatternOf(a, f) && s == FieldValue(f))
    || (exists k :: k in a.labels && pattern == a.labels[k] && s == LabelValue(k))
    || (exists k :: k in a.annotations && pattern == a.annotations[k] && s == AnnotationValue(k))
  }

  ghost function Typical(a: RuleSource): Regexp<string> {
    Regexp((pattern: string) => Some(pattern), (pattern: string, s: string) => InPlace(a, pattern, s))
  }

  lemma TypicalFields(ev: EnhancedEvent, a: RuleSource, f: Field)
    requires ev == TypicalEvent(a) && f != Receiver
    ensures EventField(ev, f) == FieldValue(f)
  {
  }

  lemma FieldInPlace(a: RuleSource, pattern: string, f: Field)
    requires f != Receiver
    ensures InPlace(a, pattern, FieldValue(f)) <==> pattern == PatternOf(a, f)
  {
    if pattern == PatternOf(a, f) { assert InPlace(a, pattern, FieldValue(f)); }
    assert FieldValue(f)[0] == 'f';
    assert forall k :: LabelValue(k)[0] == 'l' && AnnotationValue(k)[0] == 'a';
    forall g: Field | FieldValue(g) == FieldValue(f) ensures g == f { SameField(g, f); }
  }

  lemma SameField(g: Field, f: Field)
    requires FieldValue(g) == FieldValue(f)
    ensures g == f
  {
    if g != Receiver && f != Receiver { assert FieldValue(g)[1] == FieldValue(f)[1]; }
  }

  lemma LabelInPlace(a: RuleSource, pattern: string, k: string)
    ensures InPlace(a, pattern, LabelValue(k)) <==> k in a.labels && pattern == a.labels[k]
  {
    assert LabelValue(k)[0] == 'l';
    assert forall f: Field :: FieldValue(f)[0] == 'f';
    assert forall j :: AnnotationValue(j)[0] == 'a';
    assert forall j :: LabelValue(j)[1..] == j;
  }

  lemma AnnotationInPlace(a: RuleSource, pattern: string, k: string)
    ensures InPlace(a, pattern, AnnotationValue(k)) <==> k in a.annotations && pattern == a.annotations[k]
  {
    assert AnnotationValue(k)[0] == 'a';
    assert forall f: Field :: FieldValue(f)[0] == 'f';
    assert forall j :: LabelValue(j)[0] == 'l';
    assert forall j :: AnnotationValue(j)[1..] == j;
  }

  /** Of this event, another rule matches exactly if it demands nothing else. */
  lemma TypicalMatchesIff(a: RuleSource, b: RuleSource)
    ensures Matches(Typical(a), b, TypicalEvent(a)) <==> Demands(a, b)
  {
    var rx, ev := Typical(a), TypicalEvent(a);
    forall f: Field | f != Receiver
      ensures MatchString(rx, PatternOf(b, f), EventField(ev, f)) <==> PatternOf(b, f) == PatternOf(a, f)
    {
      TypicalFields(ev, a, f);
      FieldInPlace(a, PatternOf(b, f), f);
    }
    forall k | k in b.labels && k in a.labels
      ensures MatchString(rx, b.labels[k], ev.involved.metadata.labels[k]) <==> b.labels[k] == a.labels[k]
    {
      LabelInPlace(a, b.labels[k], k);
    }
    forall k | k in b.annotations && k in a.annotations
      ensures MatchString(rx, b.annotations[k], ev.involved.metadata.annotations[k])
              <==> b.annotations[k] == a.annotations[k]
    {
      AnnotationInPlace(a, b.annotations[k], k);
    }
  }

  /** One rule matches whenever another does, for every event and whatever regular expressions match, if
      and only if it demands nothing the other does not. */
  lemma MatchesTooIff(a: RuleSource, b: RuleSource)
    ensures (forall rx: Regexp<string>, ev :: Matches(rx, a, ev) ==> Matches(rx, b, ev)) <==> Demands(a, b)
  {
    if Demands(a, b) {
      forall rx: Regexp<string>, ev | Matches(rx, a, ev) ensures Matches(rx, b, ev) { DemandsSound(rx, a, b, ev); }
    } else {
      TypicalMatchesIff(a, a);
      TypicalMatchesIff(a, b);
    }
  }

  ghost predicate KeepsPromise(rules: seq<RuleSource>, rx: Regexp<string>, ev: EnhancedEvent) {
    Direct(MeaningFor(rx, ev), rules) == Promised(MeaningFor(rx, ev), rules)
  }

  /** Receivers get an event only if all match rules of the route match, for every event, if and only if no
      rule demands anything that a rule with a receiver does not. */
  lemma PromiseKeptIff(rules: seq<RuleSource>)
    ensures (forall rx: Regexp<string>, ev :: KeepsPromise(rules, rx, ev))
            <==> forall i, j :: 0 <= i < |rules| && 0 <= j < |rules| && rules[i].receiver != "" ==>
                   Demands(rules[i], rules[j])
  {
    if i, j :| 0 <= i < |rules| && 0 <= j < |rules| && rules[i].receiver != "" && !Demands(rules[i], rules[j]) {
      var rx, ev := Typical(rules[i]), TypicalEvent(rules[i]);
      TypicalMatchesIff(rules[i], rules[i]);
      TypicalMatchesIff(rules[i], rules[j]);
      PromisedIff(MeaningFor(rx, ev), rules);
      assert MeaningFor(rx, ev)(rules[i]) && !MeaningFor(rx, ev)(rules[j]);
      assert !KeepsPromise(rules, rx, ev);
    } else {
      forall rx: Regexp<string>, ev ensures KeepsPromise(rules, rx, ev) { DemandingRulesKeep(rules, rx, ev); }
    }
  }

  lemma DemandingRulesKeep(rules: seq<RuleSource>, rx: Regexp<string>, ev: EnhancedEvent)
    requires forall i, j :: 0 <= i < |rules| && 0 <= j < |rules| && rules[i].receiver != "" ==>
               Demands(rules[i], rules[j])
    ensures KeepsPromise(rules, rx, ev)
  {
    var m := MeaningFor(rx, ev);
    PromisedIff(m, rules);
    if i :| 0 <= i < |rules| && m(rules[i]) && rules[i].receiver != "" {
      forall j | 0 <= j < |rules| ensures m(rules[j]) { DemandsSound(rx, rules[i], rules[j], ev); }
    }
  }

  /** The first sentence: the code goes down the subtree if all match rules match. That it does so whenever
      one of them matches holds for every event if and only if all rules demand the same. */
  lemma SubtreeEnteredIff(rules: seq<RuleSource>)
    ensures (forall rx: Regexp<string>, ev :: AnyMatches(MeaningFor(rx, ev), rules) ==>
               AllMatch(MeaningFor(rx, ev), rules))
            <==> forall i, j :: 0 <= i < |rules| && 0 <= j < |rules| ==> Demands(rules[i], rules[j])
  {
    if i, j :| 0 <= i < |rules| && 0 <= j < |rules| && !Demands(rules[i], rules[j]) {
      var rx, ev := Typical(rules[i]), TypicalEvent(rules[i]);
      TypicalMatchesIff(rules[i], rules[i]);
      TypicalMatchesIff(rules[i], rules[j]);
      assert MeaningFor(rx, ev)(rules[i]) && !MeaningFor(rx, ev)(rules[j]);
      assert AnyMatches(MeaningFor(rx, ev), rules) && !AllMatch(MeaningFor(rx, ev), rules);
    } else {
      forall rx: Regexp<string>, ev | AnyMatches(MeaningFor(rx, ev), rules)
        ensures AllMatch(MeaningFor(rx, ev), rules)
      {
        var i :| 0 <= i < |rules| && MeaningFor(rx, ev)(rules[i]);
        forall j | 0 <= j < |rules| ensures MeaningFor(rx, ev)(rules[j]) { DemandsSound(rx, rules[i], rules[j], ev); }
      }
    }
  }

  // ---------- One input ----------

  const NO_RULE := RuleSource(map[], map[], "", "", "", "", "", "", "", "", "", 0)

  /** A rule without conditions and one for repeated events, and an event that is not repeated: the first
      receiver gets it although not all rules match, and the subtree is not entered although one does. */
  lemma NotAllMatchYetSent<R>(rx: Regexp<R>, ev: EnhancedEvent)
    requires ev.event.count == 1
    ensures var rules := [NO_RULE.(receiver := "dump"), NO_RULE.(receiver := "slack", minCount := 2)];
            var m := MeaningFor(rx, ev);
            && Direct(m, rules) == ["dump"] && Promised(m, rules) == []
            && AnyMatches(m, rules) && !AllMatch(m, rules)
  {
    var first, second := NO_RULE.(receiver := "dump"), NO_RULE.(receiver := "slack", minCount := 2);
    var rules, m := [first, second], MeaningFor(rx, ev);
    assert m(rules[0]) && !m(rules[1]);
    assert rules[..1] == [first] && rules[..1][..0] == [];
    assert Direct(m, rules) == Direct(m, [first]) + [];
    assert Direct(m, [first]) == Direct(m, []) + ["dump"];
  }
}
