/**
 The synchronous registry of pkg/exporter/sync_registry.go, and the agreement of the channel based
 registry with it.
 */
module SyncRegistry {

  /** The events sent to one receiver, in order. */
  function EventsFor<E>(name: string, sends: seq<(string, E)>): seq<E> {
    if |sends| == 0 then []
    else
      var n := |sends| - 1;
      EventsFor(name, sends[..n]) + (if sends[n].0 == name then [sends[n].1] else [])
  }

  class RecordingSink<E> {
    var events: seq<E>
    var closes: nat

    constructor ()
      ensures events == [] && closes == 0
    {
      events, closes := [], 0;
    }

    /** Returns whether the sink reported an error, which it may do for any event. */
    method Send(ev: E, fails: bool) returns (err: bool)
      modifies this`events
      ensures events == old(events) + [ev] && err == fails
    {
      events := events + [ev];
      err := fails;
    }

    method Close()
      modifies this`closes
      ensures closes == old(closes) + 1
    {
      closes := closes + 1;
    }
  }

  /** The events of all sends that reach this sink, under whichever names it is registered. */
  ghost function SinkEvents<E>(reg: map<string, RecordingSink<E>>, sink: RecordingSink<E>, sends: seq<(string, E)>)
    : seq<E>
  {
    if |sends| == 0 then []
    else
      var n := |sends| - 1;
      SinkEvents(reg, sink, sends[..n]) + (if sends[n].0 in reg && reg[sends[n].0] == sink then [sends[n].1] else [])
  }

  ghost function NamesOf<E>(reg: map<string, RecordingSink<E>>, keys: set<string>, sink: RecordingSink<E>)
    : set<string>
  {
    set n | n in keys && n in reg && reg[n] == sink
  }

  /** What the sinks have got after one more send: the one that the name resolves to, under all its names. */
  ghost function AfterSend<E>(reg: map<string, RecordingSink<E>>, events: map<string, seq<E>>, name: string, ev: E)
    : map<string, seq<E>>
  {
    map n | n in reg && n in events :: events[n] + (if name in reg && reg[n] == reg[name] then [ev] else [])
  }

  ghost function AfterAll<E>(reg: map<string, RecordingSink<E>>, events: map<string, seq<E>>, sends: seq<(string, E)>)
    : map<string, seq<E>>
  {
    map n | n in reg && n in events :: events[n] + SinkEvents(reg, reg[n], sends)
  }

  lemma OneMoreSend<E>(reg: map<string, RecordingSink<E>>, events: map<string, seq<E>>, sends: seq<(string, E)>, i: nat)
    requires i < |sends|
    ensures AfterSend(reg, AfterAll(reg, events, sends[..i]), sends[i].0, sends[i].1)
            == AfterAll(reg, events, sends[..i + 1])
  {
    assert sends[..i + 1][..i] == sends[..i];
    var after, all := AfterSend(reg, AfterAll(reg, events, sends[..i]), sends[i].0, sends[i].1),
                      AfterAll(reg, events, sends[..i + 1]);
    assert after.Keys == all.Keys;
    forall n | n in after ensures after[n] == all[n] {}
  }

  lemma NothingSent<E>(reg: map<string, RecordingSink<E>>, events: map<string, seq<E>>, name: string, ev: E)
    requires events.Keys == reg.Keys && name !in reg
    ensures AfterSend(reg, events, name, ev) == events
  {
    var after := AfterSend(reg, events, name, ev);
    assert after.Keys == events.Keys;
    forall n | n in events ensures after[n] == events[n] {}
  }

  lemma NoSend<E>(reg: map<string, RecordingSink<E>>, events: map<string, seq<E>>)
    requires events.Keys == reg.Keys
    ensures AfterAll(reg, events, []) == events
  {
    var all := AfterAll(reg, events, []);
    assert all.Keys == events.Keys;
    forall n | n in events ensures all[n] == events[n] {}
  }

  /** A sink with one name gets the events sent under that name, in order. */
  lemma {:induction false} SinkOfOneName<E>(reg: map<string, RecordingSink<E>>, name: string, sends: seq<(string, E)>)
    requires name in reg && NamesOf(reg, reg.Keys, reg[name]) == {name}
    ensures SinkEvents(reg, reg[name], sends) == EventsFor(name, sends)
  {
    if |sends| > 0 {
      var n := |sends| - 1;
      SinkOfOneName(reg, name, sends[..n]);
      if sends[n].0 in reg && reg[sends[n].0] == reg[name] {
        assert sends[n].0 in NamesOf(reg, reg.Keys, reg[name]);
      }
    }
  }

  class Registry<E> {
    var reg: map<string, RecordingSink<E>>

    /** What the sink behind each name has got. */
    ghost function Events(): map<string, seq<E>>
      reads this, set n | n in reg :: reg[n]
    {
      map n | n in reg :: reg[n].events
    }

    constructor ()
      ensures reg == map[]
    {
      reg := map[];
    }

    method Register(name: string, sink: RecordingSink<E>)
      modifies this
      ensures reg == old(reg)[name := sink]
    {
      reg := reg[name := sink];
    }

    /** Calls the receiver's sink in the caller's goroutine. The lookup of an unknown receiver yields a
        nil interface, and calling it panics. */
    method SendEvent(name: string, ev: E, fails: bool) returns (panics: bool)
      modifies set n | n in reg :: reg[n]`events
      ensures panics <==> name !in reg
      ensures Events() == AfterSend(reg, old(Events()), name, ev)
    {
      if name !in reg {
        NothingSent(reg, Events(), name, ev);
        return true;
      }
      var err := reg[name].Send(ev, fails);
      panics := false;
      ghost var after := AfterSend(reg, old(Events()), name, ev);
      assert Events().Keys == after.Keys;
      forall n | n in reg ensures Events()[n] == after[n] {}
    }

    /** Any number of sends to registered receivers: every sink gets its own events, in order. */
    method SendAll(sends: seq<(string, E)>)
      requires forall k :: 0 <= k < |sends| ==> sends[k].0 in reg
      modifies set n | n in reg :: reg[n]`events
      ensures Events() == AfterAll(reg, old(Events()), sends)
    {
      NoSend(reg, Events());
      for i := 0 to |sends|
        invariant Events() == AfterAll(reg, old(Events()), sends[..i])
      {
        OneMoreSend(reg, old(Events()), sends, i);
        var fails := *;
        var panics := SendEvent(sends[i].0, sends[i].1, fails);
      }
      assert sends[..|sends|] == sends;
    }

    /** Closes every sink once for each of its names, in whatever order the map is ranged over. */
    method Close()
      modifies set n | n in reg :: reg[n]`closes
      ensures forall n :: n in reg ==> reg[n].closes == old(reg[n].closes) + |NamesOf(reg, reg.Keys, reg[n])|
    {
      var rest := reg.Keys;
      while rest != {}
        invariant rest <= reg.Keys
        invariant forall n :: n in reg ==>
                    reg[n].closes == old(reg[n].closes) + |NamesOf(reg, reg.Keys - rest, reg[n])|
      {
        var name :| name in rest;
        reg[name].Close();
        forall n | n in reg
          ensures |NamesOf(reg, reg.Keys - (rest - {name}), reg[n])|
                  == |NamesOf(reg, reg.Keys - rest, reg[n])| + (if reg[n] == reg[name] then 1 else 0)
        {
          OneMoreName(reg, rest, name, reg[n]);
        }
        rest := rest - {name};
      }
      assert reg.Keys - {} == reg.Keys;
    }
  }

  lemma OneMoreName<E>(reg: map<string, RecordingSink<E>>, rest: set<string>, name: string, sink: RecordingSink<E>)
    requires rest <= reg.Keys && name in rest
    ensures |NamesOf(reg, reg.Keys - (rest - {name}), sink)|
            == |NamesOf(reg, reg.Keys - rest, sink)| + (if reg[name] == sink then 1 else 0)
  {
    var before, after := NamesOf(reg, reg.Keys - rest, sink), NamesOf(reg, reg.Keys - (rest - {name}), sink);
    assert after == if reg[name] == sink then before + {name} else before;
  }
}

module RegistryRefinement {
  import opened ChannelRegistry
  import opened RegistrySafety
  import opened SyncRegistry

  lemma {:induction false} SentToReceiver<E(!new)>(names: seq<string>, ch: map<string, nat>, sends: seq<(string, E)>,
                                                   name: string)
    requires TableOk(names, ch) && name in ch
    ensures SentTo(ch, sends, ch[name]) == EventsFor(name, sends)
  {
    if |sends| > 0 {
      var n := |sends| - 1;
      SentToReceiver(names, ch, sends[..n], name);
      if sends[n].0 in ch && ch[sends[n].0] == ch[name] {
        assert names[ch[sends[n].0]] == sends[n].0 && names[ch[name]] == name;
      }
    }
  }

  /** No sender of worker `w` is waiting and its sink is not busy. */
  ghost predicate Quiescent<E(!new)>(s: State<E>, w: nat) requires w < |s.workers| {
    !s.workers[w].phase.Sending? && forall ev :: (w, ev) !in s.inFlight
  }

  lemma DeliveredCount<E(!new)>(names: seq<string>, s: State<E>, name: string, ev: E)
    requires Ok(names, s) && name in names
    ensures name in s.ch && s.ch[name] < |s.workers|
    ensures var w := s.ch[name];
            multiset(EventsFor(name, s.sends))[ev]
            == multiset(Delivered(s.workers[w].calls))[ev] + s.inFlight[(w, ev)]
               + (if s.workers[w].phase == Sending(ev) then 1 else 0)
  {
    var i := LastIndex(names, name);
    assert s.ch[name] == i;
    SentToReceiver(names, s.ch, s.sends, name);
    assert ConservedAt(s, i, ev);
    assert WorkerOk(s.workers[i]);
  }

  /** What is owed to the receiver: delivered, in the hands of its sink, or with a sender. */
  ghost predicate Accounts<E(!new)>(got: multiset<E>, all: multiset<E>, s: State<E>, w: nat, ev: E)
    requires w < |s.workers|
  {
    all[ev] == got[ev] + s.inFlight[(w, ev)] + (if s.workers[w].phase == Sending(ev) then 1 else 0)
  }

  lemma ReceivedAllIff<E(!new)>(got: multiset<E>, all: multiset<E>, s: State<E>, w: nat)
    requires w < |s.workers| && forall ev :: Accounts(got, all, s, w, ev)
    ensures got <= all && (got == all <==> Quiescent(s, w))
  {
    forall ev ensures got[ev] <= all[ev] { assert Accounts(got, all, s, w, ev); }
    if got == all {
      forall ev ensures (w, ev) !in s.inFlight && s.workers[w].phase != Sending(ev) {
        assert Accounts(got, all, s, w, ev);
      }
    }
    if Quiescent(s, w) {
      forall ev ensures got[ev] == all[ev] { assert Accounts(got, all, s, w, ev); }
    }
  }

  /**
   For every list of receivers, every run and every registered receiver: its sink has received a part
   of what the synchronous registry would have given it, and exactly all of it, as a multiset, if and
   only if nothing sent to it is still under way.
   */
  lemma RefinesSync<E(!new)>(names: seq<string>, actions: seq<Action<E>>, name: string)
    requires Play(Boot(names), actions).Some? && name in names
    ensures var s := Play(Boot(names), actions).value;
            && name in s.ch && s.ch[name] < |s.workers|
            && var got := multiset(Delivered(s.workers[s.ch[name]].calls));
               var all := multiset(EventsFor(name, s.sends));
               got <= all && (got == all <==> Quiescent(s, s.ch[name]))
  {
    Reachable(names, actions);
    StateRefinesSync(names, Play(Boot(names), actions).value, name);
  }

  lemma StateRefinesSync<E(!new)>(names: seq<string>, s: State<E>, name: string)
    requires Ok(names, s) && name in names
    ensures && name in s.ch && s.ch[name] < |s.workers|
            && var got := multiset(Delivered(s.workers[s.ch[name]].calls));
               var all := multiset(EventsFor(name, s.sends));
               got <= all && (got == all <==> Quiescent(s, s.ch[name]))
  {
    var i := LastIndex(names, name);
    assert s.ch[name] == i;
    var got, all := multiset(Delivered(s.workers[i].calls)), multiset(EventsFor(name, s.sends));
    forall ev ensures Accounts(got, all, s, i, ev) { DeliveredCount(names, s, name, ev); }
    ReceivedAllIff(got, all, s, i);
  }
}

module EngineSetup {
  import opened SyncRegistry
  import CR = ChannelRegistry
  import RR = RegistryRefinement
  import RS = RegistrySafety

  /** Registers the configured receivers one after the other. The synchronous registry then resolves
      names exactly as the channel based one does: of receivers that share a name, the last one counts. */
  method RegisterReceivers<E>(registry: Registry<E>, names: seq<string>, sinks: seq<RecordingSink<E>>)
    requires registry.reg == map[] && |sinks| == |names|
    modifies registry
    ensures Resolves(registry.reg, CR.Boot<E>(names).ch, sinks, |names|)
  {
    for i := 0 to |names|
      invariant Resolves(registry.reg, CR.Boot<E>(names[..i]).ch, sinks, i)
    {
      assert names[..i + 1][..i] == names[..i];
      RS.BootWorkers<E>(names[..i]);
      registry.Register(names[i], sinks[i]);
    }
    assert names[..|names|] == names;
  }

  ghost predicate Resolves<E>(reg: map<string, RecordingSink<E>>, ch: map<string, nat>, sinks: seq<RecordingSink<E>>,
                              n: nat)
  {
    && n <= |sinks| && reg.Keys == ch.Keys
    && forall name :: name in ch ==> ch[name] < n && reg[name] == sinks[ch[name]]
  }

  /** Receivers with sinks of their own: each registered sink has one name. */
  lemma OneNameEach<E>(names: seq<string>, ch: map<string, nat>, reg: map<string, RecordingSink<E>>,
                       sinks: seq<RecordingSink<E>>, name: string)
    requires RS.TableOk(names, ch) && Resolves(reg, ch, sinks, |names|) && name in reg
    requires forall i, j :: 0 <= i < j < |sinks| ==> sinks[i] != sinks[j]
    ensures NamesOf(reg, reg.Keys, reg[name]) == {name}
  {
    forall n | n in NamesOf(reg, reg.Keys, reg[name]) ensures n == name {
      assert sinks[ch[n]] == sinks[ch[name]];
      assert names[ch[n]] == n && names[ch[name]] == name;
    }
  }

  /** One run of each registry, with the same receivers and the same sends: what the channel based one has
      delivered to a sink is part of what the synchronous one has sent it, and all of it if and only if
      nothing for that receiver is under way. */
  lemma RegistriesAgree<E(!new)>(names: seq<string>, actions: seq<CR.Action<E>>, reg: map<string, RecordingSink<E>>,
                                 sinks: seq<RecordingSink<E>>, name: string)
    requires CR.Play(CR.Boot(names), actions).Some? && name in names
    requires Resolves(reg, CR.Boot<E>(names).ch, sinks, |names|)
    requires forall i, j :: 0 <= i < j < |sinks| ==> sinks[i] != sinks[j]
    ensures var s := CR.Play(CR.Boot(names), actions).value;
            && name in reg && name in s.ch && s.ch[name] < |s.workers|
            && var got := multiset(RS.Delivered(s.workers[s.ch[name]].calls));
               var all := multiset(SinkEvents(reg, reg[name], s.sends));
               got <= all && (got == all <==> RR.Quiescent(s, s.ch[name]))
  {
    RS.BootShape<E>(names);
    var i := RS.LastIndex(names, name);
    RR.RefinesSync(names, actions, name);
    OneNameEach(names, CR.Boot<E>(names).ch, reg, sinks, name);
    SinkOfOneName(reg, name, CR.Play(CR.Boot(names), actions).value.sends);
  }
}
