/**
 Which deliveries the channel registry can produce: since every SendEvent starts a goroutine of its
 own, receivers may see their events in any order at all, independently of each other, and nothing else.
 */
module DeliveryOrder {
  import opened Wrappers
  import opened ChannelRegistry
  import opened RegistrySafety
  import opened RegistryShutdown
  import opened SyncRegistry
  import opened RegistryRefinement

  // ---------- What a sink answered ----------

  /** The events whose Send has returned, each with whether it succeeded. */
  function Results<E>(calls: seq<Call<E>>): seq<(E, bool)> {
    if |calls| == 0 then []
    else
      var n := |calls| - 1;
      Results(calls[..n]) + (if calls[n].End? then [(calls[n].ev, calls[n].ok)] else [])
  }

  function Events<E>(results: seq<(E, bool)>): seq<E> {
    seq(|results|, i requires 0 <= i < |results| => results[i].0)
  }

  lemma {:induction false} ResultEvents<E>(calls: seq<Call<E>>)
    ensures Events(Results(calls)) == Delivered(calls)
  {
    if |calls| > 0 { ResultEvents(calls[..|calls| - 1]); }
  }

  function Failures<E>(results: seq<(E, bool)>): nat {
    if |results| == 0 then 0
    else Failures(results[..|results| - 1]) + (if results[|results| - 1].1 then 0 else 1)
  }

  lemma {:induction false} FailedResults<E>(calls: seq<Call<E>>)
    ensures Failed(calls) == Failures(Results(calls))
  {
    if |calls| > 0 {
      var n := |calls| - 1;
      FailedResults(calls[..n]);
      if calls[n].End? {
        assert Results(calls)[..|Results(calls)| - 1] == Results(calls[..n]);
      } else {
        assert Results(calls) == Results(calls[..n]);
      }
    }
  }

  function AllFailures<E>(workers: seq<Worker<E>>): nat {
    if |workers| == 0 then 0
    else AllFailures(workers[..|workers| - 1]) + Failures(Results(workers[|workers| - 1].calls))
  }

  lemma {:induction false} FailuresOfAll<E>(workers: seq<Worker<E>>)
    ensures FailedSends(workers) == AllFailures(workers)
  {
    if |workers| > 0 {
      FailuresOfAll(workers[..|workers| - 1]);
      FailedResults(workers[|workers| - 1].calls);
    }
  }

  /** SendErrors is the number of results that are failures, over all sinks. */
  lemma ErrorsAreFailures<E(!new)>(names: seq<string>, actions: seq<Action<E>>)
    requires Play(Boot(names), actions).Some?
    ensures var s := Play(Boot(names), actions).value; s.sendErrors == AllFailures(s.workers)
  {
    Reachable(names, actions);
    FailuresOfAll(Play(Boot(names), actions).value.workers);
  }

  // ---------- Sends to nobody ----------

  /** The events sent to names that no receiver has. */
  function Astray<E>(names: seq<string>, sends: seq<(string, E)>): seq<E> {
    if |sends| == 0 then []
    else
      var n := |sends| - 1;
      Astray(names, sends[..n]) + (if sends[n].0 in names then [] else [sends[n].1])
  }

  lemma {:induction false} NowhereIsAstray<E>(names: seq<string>, ch: map<string, nat>, sends: seq<(string, E)>)
    requires TableOk(names, ch)
    ensures SentNowhere(ch, sends) == Astray(names, sends)
  {
    if |sends| > 0 {
      var n := |sends| - 1;
      NowhereIsAstray(names, ch, sends[..n]);
      if sends[n].0 in names { var w := LastIndex(names, sends[n].0); }
    }
  }

  /** A send to a name that no receiver has blocks its goroutine for ever, and nothing else does. */
  lemma AstrayIsStuck<E(!new)>(names: seq<string>, actions: seq<Action<E>>)
    requires Play(Boot(names), actions).Some?
    ensures var s := Play(Boot(names), actions).value; s.stuck == multiset(Astray(names, s.sends))
  {
    Reachable(names, actions);
    var s := Play(Boot(names), actions).value;
    NowhereIsAstray(names, s.ch, s.sends);
  }

  lemma ResultsStep<E>(calls: seq<Call<E>>, c: Call<E>)
    ensures Results(calls + [c]) == Results(calls) + (if c.End? then [(c.ev, c.ok)] else [])
  {
    assert (calls + [c])[..|calls|] == calls;
  }

  // ---------- All events sent, none delivered ----------

  function SendActions<E>(sends: seq<(string, E)>): seq<Action<E>> {
    seq(|sends|, i requires 0 <= i < |sends| => Send(sends[i].0, sends[i].1))
  }

  lemma {:induction false} SendsOnly<E(!new)>(s: State<E>, sends: seq<(string, E)>)
    ensures Play(s, SendActions(sends)).Some?
    ensures var t := Play(s, SendActions(sends)).value;
            t.workers == s.workers && t.ch == s.ch && t.sends == s.sends + sends
  {
    if |sends| == 0 {
      assert s.sends + sends == s.sends;
    } else {
      var n := |sends| - 1;
      var last := Send(sends[n].0, sends[n].1);
      SendsOnly(s, sends[..n]);
      assert SendActions(sends) == SendActions(sends[..n]) + [last];
      PlaySnoc(s, SendActions(sends[..n]), last);
      assert s.sends + sends == (s.sends + sends[..n]) + [sends[n]];
    }
  }

  ghost predicate Supplied<E(!new)>(s: State<E>, w: nat, p: seq<(E, bool)>) {
    && w < |s.workers| && s.workers[w].phase.Idle?
    && Results(s.workers[w].calls) == []
    && forall e :: multiset(Events(p))[e] <= s.inFlight[(w, e)]
  }

  /** The registry after these sends, before any worker has moved. */
  lemma Load<E(!new)>(names: seq<string>, sends: seq<(string, E)>) returns (s: State<E>)
    ensures Play(Boot(names), SendActions(sends)) == Some(s)
    ensures Ok(names, s) && s.sends == sends && |s.workers| == |names|
    ensures forall w, p {:trigger Supplied(s, w, p)} ::
              0 <= w < |names| && multiset(Events(p)) <= multiset(SentTo(s.ch, sends, w)) ==> Supplied(s, w, p)
  {
    BootShape<E>(names);
    SendsOnly(Boot(names), sends);
    Reachable(names, SendActions(sends));
    s := Play(Boot(names), SendActions(sends)).value;
    assert [] + sends == sends;
    forall w, p | 0 <= w < |names| && multiset(Events(p)) <= multiset(SentTo(s.ch, sends, w))
      ensures Supplied(s, w, p)
    {
      forall e ensures multiset(Events(p))[e] <= s.inFlight[(w, e)] {
        assert ConservedAt(s, w, e);
        assert multiset(Events(p))[e] <= multiset(SentTo(s.ch, sends, w))[e];
      }
    }
  }

  // ---------- Delivering in a chosen order ----------

  /** Nothing that concerns another worker has changed. */
  ghost predicate OthersSame<E(!new)>(s: State<E>, t: State<E>, w: nat) {
    && |t.workers| == |s.workers| && t.sends == s.sends && t.ch == s.ch
    && (forall v :: 0 <= v < |s.workers| && v != w ==> t.workers[v] == s.workers[v])
    && (forall v, e :: v != w ==> t.inFlight[(v, e)] == s.inFlight[(v, e)])
  }

  /** One event more, through the rendezvous and the sink. */
  lemma DeliverOne<E(!new)>(s: State<E>, w: nat, ev: E, ok: bool) returns (actions: seq<Action<E>>)
    requires w < |s.workers| && s.workers[w].phase.Idle? && (w, ev) in s.inFlight
    ensures Play(s, actions).Some?
    ensures var t := Play(s, actions).value;
            && OthersSame(s, t, w) && t.workers[w].phase.Idle?
            && Results(t.workers[w].calls) == Results(s.workers[w].calls) + [(ev, ok)]
            && t.inFlight == s.inFlight - multiset{(w, ev)}
  {
    var r := Apply(s, Receive(w, ev));
    PlayOne(s, Receive(w, ev));
    PlayOne(r, Finish(w, ok));
    PlayConcat(s, [Receive(w, ev)], [Finish(w, ok)]);
    actions := [Receive(w, ev)] + [Finish(w, ok)];
    ResultsStep(s.workers[w].calls, Begin(ev));
    ResultsStep(r.workers[w].calls, End(ev, ok));
  }

  /** The worker has had exactly these, and nothing else has changed. */
  ghost predicate Served<E(!new)>(s: State<E>, t: State<E>, w: nat, p: seq<(E, bool)>) {
    && w < |s.workers| && OthersSame(s, t, w) && t.workers[w].phase.Idle?
    && Results(t.workers[w].calls) == p
    && forall e :: t.inFlight[(w, e)] + multiset(Events(p))[e] == s.inFlight[(w, e)]
  }

  lemma ServedMore<E(!new)>(s: State<E>, r: State<E>, t: State<E>, w: nat, p: seq<(E, bool)>, x: (E, bool))
    requires Served(s, r, w, p) && OthersSame(r, t, w) && t.workers[w].phase.Idle?
    requires Results(t.workers[w].calls) == Results(r.workers[w].calls) + [x]
    requires (w, x.0) in r.inFlight && t.inFlight == r.inFlight - multiset{(w, x.0)}
    ensures Served(s, t, w, p + [x])
  {
    OthersTransitive(s, r, t, w);
    assert Events(p + [x]) == Events(p) + [x.0];
    forall e ensures t.inFlight[(w, e)] + multiset(Events(p + [x]))[e] == s.inFlight[(w, e)] {
      var one := if e == x.0 then 1 else 0;
      assert multiset(Events(p) + [x.0])[e] == multiset(Events(p))[e] + one;
      assert t.inFlight[(w, e)] == r.inFlight[(w, e)] - one;
    }
  }

  lemma OthersTransitive<E(!new)>(s: State<E>, r: State<E>, t: State<E>, w: nat)
    requires OthersSame(s, r, w) && OthersSame(r, t, w)
    ensures OthersSame(s, t, w)
  {
  }

  lemma StillSupplied<E(!new)>(s: State<E>, r: State<E>, w: nat, p: seq<(E, bool)>, x: (E, bool))
    requires Served(s, r, w, p) && Supplied(s, w, p + [x])
    ensures (w, x.0) in r.inFlight
  {
    assert Events(p + [x]) == Events(p) + [x.0];
    assert multiset(Events(p) + [x.0])[x.0] == multiset(Events(p))[x.0] + 1;
  }

  lemma SuppliedLess<E(!new)>(s: State<E>, w: nat, p: seq<(E, bool)>, x: (E, bool))
    requires Supplied(s, w, p + [x])
    ensures Supplied(s, w, p)
  {
    assert Events(p + [x]) == Events(p) + [x.0];
    forall e ensures multiset(Events(p))[e] <= s.inFlight[(w, e)] {
      assert multiset(Events(p))[e] <= multiset(Events(p + [x]))[e];
    }
  }

  lemma {:induction false} Deliver<E(!new)>(s: State<E>, w: nat, p: seq<(E, bool)>) returns (actions: seq<Action<E>>)
    requires Supplied(s, w, p)
    ensures Play(s, actions).Some? && Served(s, Play(s, actions).value, w, p)
  {
    if |p| == 0 {
      actions := [];
    } else {
      var q, x := p[..|p| - 1], p[|p| - 1];
      assert p == q + [x];
      SuppliedLess(s, w, q, x);
      var init := Deliver(s, w, q);
      var r := Play(s, init).value;
      StillSupplied(s, r, w, q, x);
      var last := DeliverOne(r, w, x.0, x.1);
      ServedMore(s, r, Play(r, last).value, w, q, x);
      PlayConcat(s, init, last);
      actions := init + last;
    }
  }

  lemma OthersSupplied<E(!new)>(s: State<E>, t: State<E>, w: nat, v: nat, p: seq<(E, bool)>)
    requires OthersSame(s, t, w) && v != w && Supplied(s, v, p)
    ensures Supplied(t, v, p)
  {
    assert t.workers[v] == s.workers[v];
  }

  /** The first `k` workers have had what was planned for them, and the others can still get it. */
  ghost predicate Underway<E(!new)>(t: State<E>, plan: seq<seq<(E, bool)>>, k: nat) {
    && |t.workers| == |plan|
    && (forall w :: 0 <= w < |plan| && w < k ==> Results(t.workers[w].calls) == plan[w])
    && (forall w :: 0 <= w < |plan| && k <= w ==> Supplied(t, w, plan[w]))
  }

  lemma OneMoreServed<E(!new)>(s: State<E>, t: State<E>, plan: seq<seq<(E, bool)>>, k: nat)
    requires k < |plan| && Underway(s, plan, k) && Served(s, t, k, plan[k])
    ensures Underway(t, plan, k + 1)
  {
    forall w | 0 <= w < |plan| && k + 1 <= w ensures Supplied(t, w, plan[w]) { OthersSupplied(s, t, k, w, plan[w]); }
    forall w | 0 <= w < |plan| && w < k ensures Results(t.workers[w].calls) == plan[w] {
      assert t.workers[w] == s.workers[w];
    }
  }

  /** One worker after the other gets the events planned for it. */
  lemma {:induction false} DeliverPlan<E(!new)>(s: State<E>, plan: seq<seq<(E, bool)>>, k: nat)
    returns (actions: seq<Action<E>>)
    requires k <= |plan| && Underway(s, plan, 0)
    ensures Play(s, actions).Some? && Underway(Play(s, actions).value, plan, k)
    ensures Play(s, actions).value.sends == s.sends && Play(s, actions).value.ch == s.ch
  {
    if k == 0 {
      actions := [];
    } else {
      var init := DeliverPlan(s, plan, k - 1);
      var r := Play(s, init).value;
      var last := Deliver(r, k - 1, plan[k - 1]);
      OneMoreServed(r, Play(r, last).value, plan, k - 1);
      PlayConcat(s, init, last);
      actions := init + last;
    }
  }

  // ---------- Exactly the arrangements ----------

  /** A run that makes these sends and gives every receiver exactly what is wanted, in this order. */
  ghost predicate Outcome<E(!new)>(names: seq<string>, sends: seq<(string, E)>, want: map<string, seq<(E, bool)>>,
                                   actions: seq<Action<E>>)
  {
    && Play(Boot(names), actions).Some?
    && var s := Play(Boot(names), actions).value;
       && s.sends == sends
       && forall name :: name in names ==> Got(s, name, want)
  }

  ghost predicate Got<E(!new)>(s: State<E>, name: string, want: map<string, seq<(E, bool)>>) {
    && name in s.ch && s.ch[name] < |s.workers| && name in want
    && Results(s.workers[s.ch[name]].calls) == want[name]
  }

  /** For every receiver an arrangement of part of what was sent to it. */
  ghost predicate Arrangements<E(!new)>(names: seq<string>, sends: seq<(string, E)>,
                                        want: map<string, seq<(E, bool)>>)
  {
    forall name :: name in names ==> name in want && multiset(Events(want[name])) <= multiset(EventsFor(name, sends))
  }

  lemma AnyArrangement<E(!new)>(names: seq<string>, sends: seq<(string, E)>, want: map<string, seq<(E, bool)>>)
    returns (actions: seq<Action<E>>)
    requires Arrangements(names, sends, want)
    ensures Outcome(names, sends, want, actions)
  {
    var s := Load(names, sends);
    var plan := Plan(names, s.ch, want);
    forall w | 0 <= w < |plan| ensures Supplied(s, w, plan[w]) {
      if names[w] in s.ch && s.ch[names[w]] == w { SentToReceiver(names, s.ch, sends, names[w]); }
    }
    var rest := DeliverPlan(s, plan, |plan|);
    PlayConcat(Boot(names), SendActions(sends), rest);
    actions := SendActions(sends) + rest;
    PlanGot(names, want, Play(s, rest).value);
  }

  /** What the worker behind each name should get; others get nothing. */
  ghost function Plan<E(!new)>(names: seq<string>, ch: map<string, nat>, want: map<string, seq<(E, bool)>>)
    : seq<seq<(E, bool)>>
    requires forall name :: name in names ==> name in want
  {
    seq(|names|, w requires 0 <= w < |names| =>
      if names[w] in ch && ch[names[w]] == w then want[names[w]] else [])
  }

  lemma PlanGot<E(!new)>(names: seq<string>, want: map<string, seq<(E, bool)>>, t: State<E>)
    requires TableOk(names, t.ch) && |t.workers| == |names| && forall name :: name in names ==> name in want
    requires forall w :: 0 <= w < |names| ==> Results(t.workers[w].calls) == Plan(names, t.ch, want)[w]
    ensures forall name :: name in names ==> Got(t, name, want)
  {
    forall name | name in names ensures Got(t, name, want) {
      var w := LastIndex(names, name);
      assert Results(t.workers[w].calls) == Plan(names, t.ch, want)[w];
    }
  }

  lemma OnlyArrangements<E(!new)>(names: seq<string>, sends: seq<(string, E)>, want: map<string, seq<(E, bool)>>,
                                  actions: seq<Action<E>>)
    requires Outcome(names, sends, want, actions)
    ensures Arrangements(names, sends, want)
  {
    forall name | name in names
      ensures name in want && multiset(Events(want[name])) <= multiset(EventsFor(name, sends))
    {
      RefinesSync(names, actions, name);
      var s := Play(Boot(names), actions).value;
      assert Got(s, name, want);
      ResultEvents(s.workers[s.ch[name]].calls);
    }
  }

  /**
   After these SendEvent calls, the receivers can have got exactly `want`, each in the given order and with
   the given successes and failures, in some run if and only if `want` is, for every receiver, an arrangement
   of part of what was sent to it: order is not kept, receivers do not constrain each other, any Send may
   fail, and nothing is doubled or invented.
   */
  lemma AnyOrder<E(!new)>(names: seq<string>, sends: seq<(string, E)>, want: map<string, seq<(E, bool)>>)
    ensures (exists actions: seq<Action<E>> :: Outcome(names, sends, want, actions))
            <==> Arrangements(names, sends, want)
  {
    if Arrangements(names, sends, want) {
      var actions := AnyArrangement(names, sends, want);
    }
    if actions: seq<Action<E>> :| Outcome(names, sends, want, actions) {
      OnlyArrangements(names, sends, want, actions);
    }
  }
}
