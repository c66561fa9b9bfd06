/**
 Which receivers an event reaches, in terms of the places of the tree: a rule sends if its node can be
 reached from the root.
 */
module RoutingPaths {
  import opened Wrappers
  import opened Routing

  /** The node at the end of a path of sub-route positions. */
  function NodeAt(r: RouteSource, path: seq<nat>): Option<RouteSource>
    decreases |path|
  {
    if |path| == 0 then Some(r)
    else if path[0] < |r.routes| then NodeAt(r.routes[path[0]], path[1..])
    else None
  }

  predicate NotDropped(m: Meaning, node: RouteSource) {
    forall i :: 0 <= i < |node.drop| ==> !m(node.drop[i])
  }

  predicate LetsDown(m: Meaning, node: RouteSource) {
    NotDropped(m, node) && forall i :: 0 <= i < |node.rules| ==> m(node.rules[i])
  }

  /** The event gets to the node at this path: no drop rule of it or of a node above matches, and all match
      rules of every node above do. */
  ghost predicate Reached(m: Meaning, r: RouteSource, path: seq<nat>) {
    && NodeAt(r, path).Some? && NotDropped(m, NodeAt(r, path).value)
    && forall k :: 0 <= k < |path| ==> NodeAt(r, path[..k]).Some? && LetsDown(m, NodeAt(r, path[..k]).value)
  }

  /** A rule at this node matches and names the receiver. */
  ghost predicate Sends(m: Meaning, node: RouteSource, name: string) {
    exists i :: 0 <= i < |node.rules| && m(node.rules[i]) && node.rules[i].receiver == name
  }

  lemma ReachedStep(m: Meaning, r: RouteSource, j: nat, rest: seq<nat>)
    requires j < |r.routes|
    ensures NodeAt(r, [j] + rest) == NodeAt(r.routes[j], rest)
    ensures Reached(m, r, [j] + rest) <==> LetsDown(m, r) && Reached(m, r.routes[j], rest)
  {
    var path := [j] + rest;
    assert path[1..] == rest;
    forall k | 0 <= k <= |rest| ensures NodeAt(r, path[..k + 1]) == NodeAt(r.routes[j], rest[..k]) {
      assert path[..k + 1][0] == j && path[..k + 1][1..] == rest[..k];
    }
    if Reached(m, r, path) {
      assert NodeAt(r, path[..0]) == Some(r);
      forall k | 0 <= k < |rest|
        ensures NodeAt(r.routes[j], rest[..k]).Some? && LetsDown(m, NodeAt(r.routes[j], rest[..k]).value)
      {
        assert NodeAt(r, path[..k + 1]) == NodeAt(r.routes[j], rest[..k]);
      }
    }
    if LetsDown(m, r) && Reached(m, r.routes[j], rest) {
      forall k | 0 <= k < |path| ensures NodeAt(r, path[..k]).Some? && LetsDown(m, NodeAt(r, path[..k]).value) {
        if k > 0 { assert NodeAt(r, path[..k - 1 + 1]) == NodeAt(r.routes[j], rest[..k - 1]); }
      }
    }
  }

  // ---------- In which order ----------

  lemma {:induction false} EmissionsConcat(m: Meaning, a: seq<RouteSource>, b: seq<RouteSource>)
    ensures EmissionsOfAll(m, a + b) == EmissionsOfAll(m, a) + EmissionsOfAll(m, b)
  {
    if |a| == 0 {
      assert a + b == b;
    } else {
      assert (a + b)[1..] == a[1..] + b;
      EmissionsConcat(m, a[1..], b);
    }
  }

  /** A node sends for itself first and then for its sub-routes in order: without sub-routes it sends to the
      receivers of its matching rules, and one more sub-route at the end adds its sends at the end. */
  lemma SubroutesInOrder(m: Meaning, node: RouteSource, next: RouteSource)
    ensures Emissions(m, node.(routes := [])) == if NotDropped(m, node) then Direct(m, node.rules) else []
    ensures Emissions(m, node.(routes := node.routes + [next]))
            == Emissions(m, node) + (if LetsDown(m, node) then Emissions(m, next) else [])
  {
    EmissionsConcat(m, node.routes, [next]);
    assert AnyMatches(m, node.drop) <==> !NotDropped(m, node);
    var own := Direct(m, node.rules);
    assert own + [] == own;
    assert [next][1..] == [] && Emissions(m, next) + [] == Emissions(m, next);
    assert own + (EmissionsOfAll(m, node.routes) + Emissions(m, next))
        == own + EmissionsOfAll(m, node.routes) + Emissions(m, next);
  }

  // ---------- Who gets it ----------

  lemma {:induction false} DirectHasIff(m: Meaning, rules: seq<RuleSource>, name: string)
    ensures name in Direct(m, rules) <==>
            name != "" && exists i :: 0 <= i < |rules| && m(rules[i]) && rules[i].receiver == name
  {
    if |rules| > 0 {
      var n := |rules| - 1;
      DirectHasIff(m, rules[..n], name);
      assert forall i :: 0 <= i < n ==> rules[..n][i] == rules[i];
      if i :| 0 <= i < |rules| && m(rules[i]) && rules[i].receiver == name {
        if i < n { assert rules[..n][i].receiver == name; }
      }
    }
  }

  lemma {:induction false} AllHaveIff(m: Meaning, rs: seq<RouteSource>, name: string)
    ensures name in EmissionsOfAll(m, rs) <==> exists j :: 0 <= j < |rs| && name in Emissions(m, rs[j])
  {
    if |rs| > 0 {
      AllHaveIff(m, rs[1..], name);
      if j :| 0 <= j < |rs| && name in Emissions(m, rs[j]) {
        if j > 0 { assert rs[1..][j - 1] == rs[j]; }
      }
      if j :| 0 <= j < |rs[1..]| && name in Emissions(m, rs[1..][j]) { assert rs[j + 1] == rs[1..][j]; }
    }
  }

  lemma {:induction false} FindSender(m: Meaning, r: RouteSource, name: string) returns (path: seq<nat>)
    requires name in Emissions(m, r)
    ensures name != "" && Reached(m, r, path) && Sends(m, NodeAt(r, path).value, name)
    decreases r
  {
    if name in Direct(m, r.rules) {
      DirectHasIff(m, r.rules, name);
      path := [];
    } else {
      AllHaveIff(m, r.routes, name);
      var j :| 0 <= j < |r.routes| && name in Emissions(m, r.routes[j]);
      var rest := FindSender(m, r.routes[j], name);
      ReachedStep(m, r, j, rest);
      path := [j] + rest;
    }
  }

  lemma {:induction false} SenderSends(m: Meaning, r: RouteSource, path: seq<nat>, name: string)
    requires name != "" && Reached(m, r, path) && Sends(m, NodeAt(r, path).value, name)
    ensures name in Emissions(m, r)
    decreases |path|
  {
    if |path| == 0 {
      DirectHasIff(m, r.rules, name);
    } else {
      var j, rest := path[0], path[1..];
      assert path == [j] + rest;
      ReachedStep(m, r, j, rest);
      SenderSends(m, r.routes[j], rest, name);
      AllHaveIff(m, r.routes, name);
      assert !AnyMatches(m, r.drop) && AllMatch(m, r.rules);
    }
  }

  /** A receiver gets the event if and only if the event reaches some node with a matching rule for it. */
  lemma SentIff(m: Meaning, r: RouteSource, name: string)
    ensures name in Emissions(m, r) <==>
            name != "" && exists path: seq<nat> :: Reached(m, r, path) && Sends(m, NodeAt(r, path).value, name)
  {
    if name in Emissions(m, r) {
      var path := FindSender(m, r, name);
    }
    if path: seq<nat> :| Reached(m, r, path) && Sends(m, NodeAt(r, path).value, name) {
      if name != "" { SenderSends(m, r, path, name); }
    }
  }
}
