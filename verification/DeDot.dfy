/**
 De-dotting of label and annotation maps (pkg/kube/event.go), for every order in which Go may range over
 a map.
 */
module DeDot {
  import opened Wrappers
  import opened Kube
  import opened IterationOrder

  function DeDotKey(key: string): string {
    seq(|key|, i requires 0 <= i < |key| => if key[i] == '.' then '_' else key[i])
  }

  /** `ret` is the de-dotted `m` for some iteration order. */
  ghost predicate Dedots(m: map<string, string>, ret: map<string, string>) {
    exists order :: Enumerates(m.Keys, order) && InOrder(DeDotKey, m, order) == ret
  }

  method DedotMap(input: map<string, string>) returns (ret: map<string, string>)
    ensures Dedots(input, ret)
  {
    ret := map[];
    ghost var order := [];
    if |input| == 0 {
      assert Enumerates(input.Keys, order);
      return input;
    }
    var rest := input.Keys;
    while rest != {}
      invariant UpTo(input.Keys, rest, order) && ret == InOrder(DeDotKey, input, order)
    {
      var key :| key in rest;
      ret := ret[DeDotKey(key) := input[key]];
      Visit(DeDotKey, input, rest, order, key);
      order := order + [key];
      rest := rest - {key};
    }
  }

  predicate DotFree(m: map<string, string>) { forall k :: k in m ==> '.' !in k }

  /** The four maps of an event are de-dotted, each in an order of its own; nothing else changes. */
  ghost predicate DedotsEvent(e: EnhancedEvent, c: EnhancedEvent) {
    && Dedots(e.event.labels, c.event.labels)
    && Dedots(e.event.annotations, c.event.annotations)
    && Dedots(e.involved.metadata.labels, c.involved.metadata.labels)
    && Dedots(e.involved.metadata.annotations, c.involved.metadata.annotations)
    && c.event.(labels := e.event.labels, annotations := e.event.annotations) == e.event
    && c.involved.reference == e.involved.reference
    && c.involved.metadata.(labels := e.involved.metadata.labels, annotations := e.involved.metadata.annotations)
       == e.involved.metadata
  }

  /** DeDot of a pointer that may be nil. */
  method DeDotEvent(e: Option<EnhancedEvent>) returns (c: EnhancedEvent)
    ensures e.None? ==> c == EMPTY_EVENT
    ensures e.Some? ==> DedotsEvent(e.value, c)
  {
    if e.None? { return EMPTY_EVENT; }
    var labels := DedotMap(e.value.event.labels);
    var annotations := DedotMap(e.value.event.annotations);
    var objectLabels := DedotMap(e.value.involved.metadata.labels);
    var objectAnnotations := DedotMap(e.value.involved.metadata.annotations);
    c := EnhancedEvent(
      e.value.event.(labels := labels, annotations := annotations),
      e.value.involved.(metadata :=
        e.value.involved.metadata.(labels := objectLabels, annotations := objectAnnotations)));
  }

  // ---------- What every order has in common ----------

  /** Every dot becomes an underscore and every other character stays. */
  lemma DeDotKeyAt(key: string)
    ensures |DeDotKey(key)| == |key|
    ensures forall i :: 0 <= i < |key| ==> if key[i] == '.' then DeDotKey(key)[i] == '_' else DeDotKey(key)[i] == key[i]
  {
  }

  lemma DotFreeFixed(key: string)
    requires '.' !in key
    ensures DeDotKey(key) == key
  {
  }

  /** The keys of the result are the de-dotted keys, without dots, in every order. */
  lemma DedotKeys(m: map<string, string>, ret: map<string, string>)
    requires Dedots(m, ret)
    ensures ret.Keys == set k | k in m :: DeDotKey(k)
    ensures DotFree(ret)
  {
    OutcomesIff(DeDotKey, m, ret);
  }

  /** De-dotting again changes nothing, whatever the two orders. */
  lemma DedotIdempotent(m: map<string, string>, once: map<string, string>, twice: map<string, string>)
    requires Dedots(m, once) && Dedots(once, twice)
    ensures twice == once && DotFree(once)
  {
    DedotKeys(m, once);
    OutcomesIff(DeDotKey, once, twice);
    forall k | k in once ensures DeDotKey(k) == k { DotFreeFixed(k); }
  }

  /** De-dotting a whole event again changes nothing, and none of its four maps has a dotted key. */
  lemma DedotEventIdempotent(e: EnhancedEvent, c: EnhancedEvent, d: EnhancedEvent)
    requires DedotsEvent(e, c) && DedotsEvent(c, d)
    ensures d == c
    ensures DotFree(c.event.labels) && DotFree(c.event.annotations)
    ensures DotFree(c.involved.metadata.labels) && DotFree(c.involved.metadata.annotations)
  {
    DedotIdempotent(e.event.labels, c.event.labels, d.event.labels);
    DedotIdempotent(e.event.annotations, c.event.annotations, d.event.annotations);
    DedotIdempotent(e.involved.metadata.labels, c.involved.metadata.labels, d.involved.metadata.labels);
    DedotIdempotent(e.involved.metadata.annotations, c.involved.metadata.annotations, d.involved.metadata.annotations);
  }

  // ---------- When the order does not matter ----------

  /** Keys that fall together carry the same value. */
  ghost predicate Agreeing(m: map<string, string>) {
    forall a, b :: a in m && b in m && DeDotKey(a) == DeDotKey(b) ==> m[a] == m[b]
  }

  lemma AgreeingResults(m: map<string, string>, r1: map<string, string>, r2: map<string, string>)
    requires Agreeing(m) && Carries(DeDotKey, m, r1) && Carries(DeDotKey, m, r2)
    ensures r1 == r2
  {
    forall k' | k' in r1 ensures k' in r2 && r1[k'] == r2[k'] { AgreeingAt(m, r1, r2, k'); }
    forall k' | k' in r2 ensures k' in r1 { AgreeingAt(m, r2, r1, k'); }
    assert r1.Keys == r2.Keys;
  }

  lemma AgreeingAt(m: map<string, string>, r1: map<string, string>, r2: map<string, string>, k': string)
    requires Agreeing(m) && Carries(DeDotKey, m, r1) && Carries(DeDotKey, m, r2) && k' in r1
    ensures k' in r2 && r1[k'] == r2[k']
  {
    var a :| a in m && DeDotKey(a) == k' && m[a] == r1[k'];
    var b :| b in m && DeDotKey(b) == k' && m[b] == r2[k'];
    assert m[a] == m[b];
  }

  /** Any key can be the last one of those that fall together. */
  lemma CarryingValueOf(m: map<string, string>, k: string) returns (ret: map<string, string>)
    requires k in m
    ensures Dedots(m, ret) && DeDotKey(k) in ret && ret[DeDotKey(k)] == m[k]
  {
    var order := Enumeration(m.Keys);
    var any := InOrder(DeDotKey, m, order);
    OutcomesIff(DeDotKey, m, any);
    CarriesInstead(DeDotKey, m, any, k);
    ret := any[DeDotKey(k) := m[k]];
    OutcomesIff(DeDotKey, m, ret);
  }

  /** The result is the same for all iteration orders if and only if keys that fall together agree on
      their values; in particular if no two keys fall together. */
  lemma DedotDeterministicIff(m: map<string, string>)
    ensures (forall r1, r2 :: Dedots(m, r1) && Dedots(m, r2) ==> r1 == r2) <==> Agreeing(m)
  {
    if Agreeing(m) {
      forall r1, r2 | Dedots(m, r1) && Dedots(m, r2) ensures r1 == r2 {
        OutcomesIff(DeDotKey, m, r1);
        OutcomesIff(DeDotKey, m, r2);
        AgreeingResults(m, r1, r2);
      }
    }
    if a, b :| a in m && b in m && DeDotKey(a) == DeDotKey(b) && m[a] != m[b] {
      var r1 := CarryingValueOf(m, a);
      var r2 := CarryingValueOf(m, b);
      assert r1 != r2;
    }
  }
}
