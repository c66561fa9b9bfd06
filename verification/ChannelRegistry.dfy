/**
 The channel based receiver registry of pkg/exporter/channel_registry.go as a transition system.

 Every registration starts a worker goroutine, every SendEvent a goroutine that blocks until its
 worker is ready to receive, and Close signals one exit channel after the other before it waits for
 all workers. An `Action` is one rendezvous or one local step; a run is any interleaving of them.
 */
module ChannelRegistry {
  import opened Wrappers

  /** What a sink observes. */
  datatype Call<E> = Begin(ev: E) | End(ev: E, ok: bool) | CloseCall

  datatype Phase<E> = Idle | Sending(ev: E) | Exiting | Exited

  datatype Worker<E> = Worker(name: string, phase: Phase<E>, calls: seq<Call<E>>)

  /** The goroutine inside Close: it blocks on `current` before it turns to the `rest`. */
  datatype Closer = Open | Signalling(current: Option<nat>, rest: set<string>) | Waiting | Returned | Panicked

  datatype State<E> = State(
    workers: seq<Worker<E>>,
    ch: map<string, nat>,             // name -> worker reading that channel
    exitCh: map<string, nat>,
    inFlight: multiset<(nat, E)>,     // sender goroutines, by target worker
    stuck: multiset<E>,               // sender goroutines blocked on a nil channel
    sendErrors: nat,
    sends: seq<(string, E)>,          // all SendEvent calls, in order
    closer: Closer)

  // ---------- Registration ----------

  function Register<E>(s: State<E>, name: string): State<E> {
    var id := |s.workers|;
    s.(workers := s.workers + [Worker(name, Idle, [])], ch := s.ch[name := id], exitCh := s.exitCh[name := id])
  }

  /** The registry after registering the receivers in configuration order. */
  function Boot<E>(names: seq<string>): State<E> {
    if |names| == 0 then State([], map[], map[], multiset{}, multiset{}, 0, [], Open)
    else Register(Boot(names[..|names| - 1]), names[|names| - 1])
  }

  // ---------- Transitions ----------

  datatype Action<E> =
    | Send(name: string, ev: E)            // SendEvent
    | Receive(w: nat, ev: E)               // a worker takes an event from its channel
    | Finish(w: nat, ok: bool)             // the sink's Send returns
    | StartClose
    | PickExit(name: string)               // next iteration of the loop over exitCh
    | Exit(w: nat)                         // a worker takes the exit signal
    | CloseSink(w: nat)                    // receiver.Close returned, the goroutine ends
    | AllSignalled
    | Return

  predicate Enabled<E(==)>(s: State<E>, a: Action<E>) {
    match a
    case Send(_, _) => true
    case Receive(w, ev) => w < |s.workers| && s.workers[w].phase.Idle? && (w, ev) in s.inFlight
    case Finish(w, _) => w < |s.workers| && s.workers[w].phase.Sending?
    case StartClose => s.closer.Open?
    case PickExit(name) => s.closer.Signalling? && s.closer.current == None && name in s.closer.rest && name in s.exitCh
    case Exit(w) => s.closer.Signalling? && s.closer.current == Some(w) && w < |s.workers| && s.workers[w].phase.Idle?
    case CloseSink(w) => w < |s.workers| && s.workers[w].phase.Exiting?
    case AllSignalled => s.closer.Signalling? && s.closer.current == None && s.closer.rest == {}
    case Return => s.closer.Waiting? && forall w :: 0 <= w < |s.workers| ==> s.workers[w].phase.Exited?
  }

  function SetWorker<E>(s: State<E>, w: nat, phase: Phase<E>, calls: seq<Call<E>>): State<E>
    requires w < |s.workers|
  {
    s.(workers := s.workers[w := s.workers[w].(phase := phase, calls := s.workers[w].calls + calls)])
  }

  function Apply<E(==)>(s: State<E>, a: Action<E>): State<E>
    requires Enabled(s, a)
  {
    match a
    case Send(name, ev) =>
      var t := s.(sends := s.sends + [(name, ev)]);
      if name in s.ch then t.(inFlight := s.inFlight + multiset{(s.ch[name], ev)})
      else t.(stuck := s.stuck + multiset{ev})
    case Receive(w, ev) =>
      SetWorker(s.(inFlight := s.inFlight - multiset{(w, ev)}), w, Sending(ev), [Begin(ev)])
    case Finish(w, ok) =>
      var t := SetWorker(s, w, Idle, [End(s.workers[w].phase.ev, ok)]);
      if ok then t else t.(sendErrors := s.sendErrors + 1)
    case StartClose =>
      // Wait on a wait group that no registration ever created is a nil dereference
      s.(closer := if s.workers == [] then Panicked else Signalling(None, s.exitCh.Keys))
    case PickExit(name) => s.(closer := Signalling(Some(s.exitCh[name]), s.closer.rest - {name}))
    case Exit(w) => SetWorker(s, w, Exiting, []).(closer := Signalling(None, s.closer.rest))
    case CloseSink(w) => SetWorker(s, w, Exited, [CloseCall])
    case AllSignalled => s.(closer := Waiting)
    case Return => s.(closer := Returned)
  }

  /** One more action, if it is enabled. */
  function Then<E(==)>(r: Option<State<E>>, a: Action<E>): Option<State<E>> {
    if r.Some? && Enabled(r.value, a) then Some(Apply(r.value, a)) else None
  }

  /** The state after these actions, if each was enabled when its turn came. */
  function Play<E(==)>(s0: State<E>, actions: seq<Action<E>>): Option<State<E>>
    decreases |actions|
  {
    if |actions| == 0 then Some(s0)
    else Then(Play(s0, actions[..|actions| - 1]), actions[|actions| - 1])
  }
}
