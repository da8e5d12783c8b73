/**
 * The watcher's debouncer (homedrive/internal/watcher/debouncer.go): one timer
 * per path, reset by each event, whose callback hands on the pending event.
 * A timer that has already fired cannot be stopped: its callback still runs,
 * possibly against a later event of the same path. Callbacks take the lock,
 * then emit after releasing it, so every step below is one critical section,
 * one timer firing, or one emission.
 */
module Debouncer {
  import World

  datatype Op = Create | Write | Remove | Rename

  datatype Event = Event(path: string, op: Op, at: int)

  /** Where one timer callback stands. Armed can still be stopped; Fired waits
      for the lock; Emitting has taken an event and released the lock. */
  datatype Callback = Armed(path: string) | Fired(path: string) | Emitting(ev: Event) | Finished

  /** History, kept for the specification only: events added, pending events
      taken by a callback, pending events dropped. */
  datatype Note = Added(ev: Event) | Taken(path: string) | Dropped(paths: set<string>)

  /** callbacks are numbered in the order their timers were started; timers
      holds the number of the newest timer of each waiting path. */
  datatype State = State(
    timers: map<string, nat>,
    pending: map<string, Event>,
    callbacks: seq<Callback>,
    emitted: seq<Event>,
    history: seq<Note>)

  datatype Input =
    | Adds(ev: Event)
    | Suppresses(path: string)
    | SuppressesPrefix(prefix: string)
    | Stops
    | Fires(k: nat)
    | Enters(k: nat)
    | Delivers(k: nat)

  const FRESH := State(map[], map[], [], [], [])

  // ---------------------------------------------------------------------
  // What one batch of events amounts to
  // ---------------------------------------------------------------------

  /** A pending Create absorbs a Write; otherwise the newer event wins. */
  function Absorb(existing: Event, ev: Event): Event {
    if existing.op.Create? && ev.op.Write? then existing else ev
  }

  function Fold(batch: seq<Event>): Event
    requires batch != []
  {
    var n := |batch| - 1;
    if n == 0 then batch[0] else Absorb(Fold(batch[..n]), batch[n])
  }

  /** How many Writes a batch ends with. */
  function TrailingWrites(batch: seq<Event>): (n: nat)
    ensures n <= |batch|
    ensures forall i :: |batch| - n <= i < |batch| ==> batch[i].op.Write?
    ensures n < |batch| ==> !batch[|batch| - n - 1].op.Write?
  {
    if batch == [] || !batch[|batch| - 1].op.Write? then 0 else 1 + TrailingWrites(batch[..|batch| - 1])
  }

  /** The event handed on for a batch is its last one, unless the batch ends
      with a Create and then only Writes: then it is that Create. */
  lemma {:induction false} FoldPicks(batch: seq<Event>)
    requires batch != []
    ensures var c := |batch| - TrailingWrites(batch) - 1;
            Fold(batch) == if c >= 0 && batch[c].op.Create? then batch[c] else batch[|batch| - 1]
  {
    var n := |batch| - 1;
    if n > 0 {
      FoldPicks(batch[..n]);
    }
  }

  // ---------------------------------------------------------------------
  // What the history says
  // ---------------------------------------------------------------------

  /** The events of a path since it was last taken or dropped. */
  function Open(h: seq<Note>, p: string): (batch: seq<Event>)
    ensures forall ev :: ev in batch ==> ev.path == p
  {
    if h == [] then []
    else
      var rest := Open(h[..|h| - 1], p);
      match h[|h| - 1]
      case Added(ev) => if ev.path == p then rest + [ev] else rest
      case Taken(q) => if q == p then [] else rest
      case Dropped(qs) => if p in qs then [] else rest
  }

  /** The batches of a path that were taken or dropped, oldest first. */
  function Closed(h: seq<Note>, p: string): seq<seq<Event>> {
    if h == [] then []
    else
      var rest := h[..|h| - 1];
      match h[|h| - 1]
      case Added(_) => Closed(rest, p)
      case Taken(q) => if q == p then Closed(rest, p) + [Open(rest, p)] else Closed(rest, p)
      case Dropped(qs) => if p in qs then Closed(rest, p) + [Open(rest, p)] else Closed(rest, p)
  }

  /** Every event added for a path. */
  function AddsOf(h: seq<Note>, p: string): seq<Event> {
    if h == [] then []
    else
      var rest := AddsOf(h[..|h| - 1], p);
      match h[|h| - 1]
      case Added(ev) => if ev.path == p then rest + [ev] else rest
      case _ => rest
  }

  function Concat(batches: seq<seq<Event>>): seq<Event> {
    if batches == [] then [] else Concat(batches[..|batches| - 1]) + batches[|batches| - 1]
  }

  /** One event per batch a callback took: the fold of that batch. */
  ghost function Due(h: seq<Note>): multiset<Event> {
    if h == [] then multiset{}
    else
      var rest := h[..|h| - 1];
      match h[|h| - 1]
      case Taken(q) => if Open(rest, q) != [] then Due(rest) + multiset{Fold(Open(rest, q))} else Due(rest)
      case _ => Due(rest)
  }

  /** No added event falls outside the batches, and none is in two of them. */
  lemma {:induction false} BatchesPartition(h: seq<Note>, p: string)
    ensures Concat(Closed(h, p)) + Open(h, p) == AddsOf(h, p)
  {
    if h != [] {
      var rest := h[..|h| - 1];
      BatchesPartition(rest, p);
      assert (Closed(rest, p) + [Open(rest, p)])[..|Closed(rest, p)|] == Closed(rest, p);
    }
  }

  function OpenNext(batch: seq<Event>, n: Note, p: string): seq<Event> {
    match n
    case Added(ev) => if ev.path == p then batch + [ev] else batch
    case Taken(q) => if q == p then [] else batch
    case Dropped(qs) => if p in qs then [] else batch
  }

  lemma OpenAppend(h: seq<Note>, n: Note, p: string)
    ensures Open(h + [n], p) == OpenNext(Open(h, p), n, p)
  {
    assert (h + [n])[..|h|] == h;
  }

  lemma DueAppend(h: seq<Note>, n: Note)
    ensures Due(h + [n]) == Due(h) + if n.Taken? && Open(h, n.path) != [] then multiset{Fold(Open(h, n.path))} else multiset{}
  {
    assert (h + [n])[..|h|] == h;
  }

  // ---------------------------------------------------------------------
  // One step
  // ---------------------------------------------------------------------

  /** Stopping a timer works only while it is armed. */
  function Stopped(callbacks: seq<Callback>, k: nat): seq<Callback>
    requires k < |callbacks|
  {
    if callbacks[k].Armed? then callbacks[k := Finished] else callbacks
  }

  function Latest(pending: map<string, Event>, ev: Event): map<string, Event> {
    pending[ev.path := if ev.path in pending then Absorb(pending[ev.path], ev) else ev]
  }

  function Restarted(timers: map<string, nat>, callbacks: seq<Callback>, path: string): seq<Callback>
    requires path in timers ==> timers[path] < |callbacks|
  {
    (if path in timers then Stopped(callbacks, timers[path]) else callbacks) + [Armed(path)]
  }

  function AfterAdd(s: State, ev: Event): State
    requires forall p :: p in s.timers ==> s.timers[p] < |s.callbacks|
  {
    var p := ev.path;
    s.(timers := s.timers[p := |s.callbacks|], pending := Latest(s.pending, ev),
       callbacks := Restarted(s.timers, s.callbacks, p), history := s.history + [Added(ev)])
  }

  /** The current timers of the given paths, stopped where that still works. */
  function Halted(s: State, paths: set<string>): (r: seq<Callback>)
    ensures |r| == |s.callbacks|
  {
    seq(|s.callbacks|, i requires 0 <= i < |s.callbacks| =>
      var c := s.callbacks[i];
      if c.Armed? && c.path in paths && c.path in s.timers && s.timers[c.path] == i then Finished else c)
  }

  function AfterDrop(s: State, paths: set<string>): State {
    s.(timers := s.timers - paths, pending := s.pending - paths,
       callbacks := Halted(s, paths), history := s.history + [Dropped(paths)])
  }

  function WithPrefix(s: State, prefix: string): set<string> {
    set p | p in s.timers && prefix <= p
  }

  function AfterEnter(s: State, k: nat): State
    requires k < |s.callbacks| && s.callbacks[k].Fired?
  {
    var p := s.callbacks[k].path;
    if p in s.pending then
      s.(timers := s.timers - {p}, pending := s.pending - {p},
         callbacks := s.callbacks[k := Emitting(s.pending[p])], history := s.history + [Taken(p)])
    else
      s.(callbacks := s.callbacks[k := Finished])
  }

  function AfterDeliver(s: State, k: nat): State
    requires k < |s.callbacks| && s.callbacks[k].Emitting?
  {
    s.(emitted := s.emitted + [s.callbacks[k].ev], callbacks := s.callbacks[k := Finished])
  }

  predicate Enabled(s: State, i: Input) {
    match i
    case Fires(k) => k < |s.callbacks| && s.callbacks[k].Armed?
    case Enters(k) => k < |s.callbacks| && s.callbacks[k].Fired?
    case Delivers(k) => k < |s.callbacks| && s.callbacks[k].Emitting?
    case _ => true
  }

  function Step(s: State, i: Input): State
    requires forall p :: p in s.timers ==> s.timers[p] < |s.callbacks|
    requires Enabled(s, i)
  {
    match i
    case Adds(ev) => AfterAdd(s, ev)
    case Suppresses(p) => AfterDrop(s, {p} * s.timers.Keys)
    case SuppressesPrefix(prefix) => AfterDrop(s, WithPrefix(s, prefix))
    case Stops => AfterDrop(s, s.timers.Keys)
    case Fires(k) => s.(callbacks := s.callbacks[k := Fired(s.callbacks[k].path)])
    case Enters(k) => AfterEnter(s, k)
    case Delivers(k) => AfterDeliver(s, k)
  }

  // ---------------------------------------------------------------------
  // The invariant
  // ---------------------------------------------------------------------

  /** The events taken by callbacks that have not emitted them yet. */
  ghost function Held(callbacks: seq<Callback>): multiset<Event> {
    HeldBelow(callbacks, |callbacks|)
  }

  ghost function HeldBelow(callbacks: seq<Callback>, n: nat): multiset<Event>
    requires n <= |callbacks|
  {
    if n == 0 then multiset{} else HeldBelow(callbacks, n - 1) + Own(callbacks[n - 1])
  }

  function Own(c: Callback): multiset<Event> {
    if c.Emitting? then multiset{c.ev} else multiset{}
  }

  /** The waiting paths are exactly those with a timer, and each of those
      timers has a callback that has not yet looked for the event. */
  ghost predicate TimersServe(s: State) {
    && s.timers.Keys == s.pending.Keys
    && forall p :: p in s.timers ==>
        s.timers[p] < |s.callbacks| && (s.callbacks[s.timers[p]] == Armed(p) || s.callbacks[s.timers[p]] == Fired(p))
  }

  /** What waits for a path is the fold of its open batch. */
  ghost predicate PendingIsFold(s: State) {
    forall p :: (p in s.pending <==> Open(s.history, p) != []) && (p in s.pending ==> s.pending[p] == Fold(Open(s.history, p)))
  }

  /** Emitted and about to be emitted: one event per batch taken. */
  ghost predicate EmittedOnce(s: State) {
    multiset(s.emitted) + Held(s.callbacks) == Due(s.history)
  }

  ghost predicate Valid(s: State) {
    TimersServe(s) && PendingIsFold(s) && EmittedOnce(s)
  }

  lemma Swap(a: multiset<Event>, x: multiset<Event>, y: multiset<Event>)
    ensures a + x + y == a + y + x
  {
  }

  lemma Regroup(a: multiset<Event>, b: multiset<Event>, x: multiset<Event>, y: multiset<Event>, z: multiset<Event>)
    requires a + x == b + y
    ensures a + z + x == b + z + y
  {
    Swap(a, z, x);
    Swap(b, z, y);
  }

  lemma {:induction false} HeldAgree(cs: seq<Callback>, ds: seq<Callback>, n: nat)
    requires n <= |cs| && n <= |ds| && forall i :: 0 <= i < n ==> Own(cs[i]) == Own(ds[i])
    ensures HeldBelow(cs, n) == HeldBelow(ds, n)
  {
    if n > 0 {
      HeldAgree(cs, ds, n - 1);
    }
  }

  lemma HeldUnfold(cs: seq<Callback>, m: nat)
    requires m < |cs|
    ensures HeldBelow(cs, m + 1) == HeldBelow(cs, m) + Own(cs[m])
  {
  }

  lemma {:induction false} HeldUpdateBelow(cs: seq<Callback>, k: nat, c: Callback, n: nat)
    requires k < n <= |cs|
    ensures HeldBelow(cs[k := c], n) + Own(cs[k]) == HeldBelow(cs, n) + Own(c)
  {
    hide HeldBelow, Own;
    var ds := cs[k := c];
    var m := n - 1;
    HeldUnfold(cs, m);
    HeldUnfold(ds, m);
    if k == m {
      HeldAgree(cs, ds, m);
      Swap(HeldBelow(cs, m), Own(cs[k]), Own(c));
    } else {
      assert ds[m] == cs[m];
      HeldUpdateBelow(cs, k, c, m);
      Regroup(HeldBelow(ds, m), HeldBelow(cs, m), Own(cs[k]), Own(c), Own(cs[m]));
    }
  }

  lemma HeldUpdate(cs: seq<Callback>, k: nat, c: Callback)
    requires k < |cs|
    ensures Held(cs[k := c]) + Own(cs[k]) == Held(cs) + Own(c)
  {
    HeldUpdateBelow(cs, k, c, |cs|);
  }

  lemma HeldSame(cs: seq<Callback>, ds: seq<Callback>)
    requires |cs| == |ds| && forall i :: 0 <= i < |cs| ==> Own(cs[i]) == Own(ds[i])
    ensures Held(cs) == Held(ds)
  {
    HeldAgree(cs, ds, |cs|);
  }

  lemma HeldAppend(cs: seq<Callback>, c: Callback)
    ensures Held(cs + [c]) == Held(cs) + Own(c)
  {
    HeldAgree(cs, cs + [c], |cs|);
  }

  lemma HeldSilent(cs: seq<Callback>, k: nat, c: Callback)
    requires k < |cs| && !cs[k].Emitting? && !c.Emitting?
    ensures Held(cs[k := c]) == Held(cs)
  {
    HeldUpdate(cs, k, c);
    assert Held(cs) + Own(c) == Held(cs);
    assert Held(cs[k := c]) + Own(cs[k]) == Held(cs[k := c]);
  }

  lemma AddServes(s: State, ev: Event)
    requires TimersServe(s)
    ensures TimersServe(AfterAdd(s, ev))
  {
    var t := AfterAdd(s, ev);
    var stopped := if ev.path in s.timers then Stopped(s.callbacks, s.timers[ev.path]) else s.callbacks;
    forall p | p in t.timers
      ensures t.timers[p] < |t.callbacks| && (t.callbacks[t.timers[p]] == Armed(p) || t.callbacks[t.timers[p]] == Fired(p))
    {
      if p != ev.path {
        assert stopped[s.timers[p]] == s.callbacks[s.timers[p]];
      }
    }
  }

  lemma FoldAppend(batch: seq<Event>, ev: Event)
    ensures Fold(batch + [ev]) == if batch == [] then ev else Absorb(Fold(batch), ev)
  {
    assert (batch + [ev])[..|batch|] == batch;
  }

  lemma AddFolds(s: State, ev: Event)
    requires TimersServe(s) && PendingIsFold(s)
    ensures PendingIsFold(AfterAdd(s, ev))
  {
    hide Open, Fold;
    var t := AfterAdd(s, ev);
    forall p
      ensures p in t.pending <==> Open(t.history, p) != []
      ensures p in t.pending ==> t.pending[p] == Fold(Open(t.history, p))
    {
      OpenAppend(s.history, Added(ev), p);
      FoldAppend(Open(s.history, p), ev);
    }
  }

  lemma AddEmits(s: State, ev: Event)
    requires TimersServe(s) && EmittedOnce(s)
    ensures EmittedOnce(AfterAdd(s, ev))
  {
    hide Due, Held;
    DueAppend(s.history, Added(ev));
    var stopped := if ev.path in s.timers then Stopped(s.callbacks, s.timers[ev.path]) else s.callbacks;
    HeldSame(s.callbacks, stopped);
    HeldAppend(stopped, Armed(ev.path));
  }

  lemma DropServes(s: State, paths: set<string>)
    requires TimersServe(s)
    ensures TimersServe(AfterDrop(s, paths))
  {
    var t := AfterDrop(s, paths);
    forall p | p in t.timers
      ensures t.timers[p] < |t.callbacks| && (t.callbacks[t.timers[p]] == Armed(p) || t.callbacks[t.timers[p]] == Fired(p))
    {
      assert t.callbacks[t.timers[p]] == s.callbacks[s.timers[p]];
    }
  }

  lemma DropFolds(s: State, paths: set<string>)
    requires PendingIsFold(s)
    ensures PendingIsFold(AfterDrop(s, paths))
  {
    hide Open, Fold;
    var t := AfterDrop(s, paths);
    forall p
      ensures p in t.pending <==> Open(t.history, p) != []
      ensures p in t.pending ==> t.pending[p] == Fold(Open(t.history, p))
    {
      OpenAppend(s.history, Dropped(paths), p);
    }
  }

  lemma DropEmits(s: State, paths: set<string>)
    requires EmittedOnce(s)
    ensures EmittedOnce(AfterDrop(s, paths))
  {
    hide Due, Held;
    DueAppend(s.history, Dropped(paths));
    HeldSame(s.callbacks, Halted(s, paths));
  }

  lemma EnterServes(s: State, k: nat)
    requires TimersServe(s) && Enabled(s, Enters(k))
    ensures TimersServe(AfterEnter(s, k))
  {
  }

  lemma EnterFolds(s: State, k: nat)
    requires PendingIsFold(s) && Enabled(s, Enters(k))
    ensures PendingIsFold(AfterEnter(s, k))
  {
    hide Open, Fold;
    var t := AfterEnter(s, k);
    if s.callbacks[k].path in s.pending {
      forall p
        ensures p in t.pending <==> Open(t.history, p) != []
        ensures p in t.pending ==> t.pending[p] == Fold(Open(t.history, p))
      {
        OpenAppend(s.history, Taken(s.callbacks[k].path), p);
      }
    }
  }

  lemma EnterEmits(s: State, k: nat)
    requires PendingIsFold(s) && EmittedOnce(s) && Enabled(s, Enters(k))
    ensures EmittedOnce(AfterEnter(s, k))
  {
    hide Due, Held, Open, Fold;
    var p := s.callbacks[k].path;
    if p in s.pending {
      DueAppend(s.history, Taken(p));
      HeldUpdate(s.callbacks, k, Emitting(s.pending[p]));
      assert Held(s.callbacks[k := Emitting(s.pending[p])]) == Held(s.callbacks) + multiset{s.pending[p]};
    } else {
      HeldSilent(s.callbacks, k, Finished);
    }
  }

  lemma FireKeeps(s: State, k: nat)
    requires Valid(s) && Enabled(s, Fires(k))
    ensures Valid(Step(s, Fires(k)))
  {
    hide Due, Held, Open, Fold;
    HeldSilent(s.callbacks, k, Fired(s.callbacks[k].path));
  }

  lemma DeliverKeeps(s: State, k: nat)
    requires Valid(s) && Enabled(s, Delivers(k))
    ensures Valid(AfterDeliver(s, k))
  {
    hide Due, Held, Open, Fold;
    HeldUpdate(s.callbacks, k, Finished);
    assert Held(s.callbacks[k := Finished]) + multiset{s.callbacks[k].ev} == Held(s.callbacks);
    assert multiset(AfterDeliver(s, k).emitted) == multiset(s.emitted) + multiset{s.callbacks[k].ev};
  }

  /** Every step keeps the invariant, whichever callbacks Stop came too late
      for. */
  lemma StepKeeps(s: State, i: Input)
    requires Valid(s) && Enabled(s, i)
    ensures Valid(Step(s, i))
  {
    hide TimersServe, PendingIsFold, EmittedOnce, AfterAdd, AfterDrop, AfterEnter, AfterDeliver;
    match i
    case Adds(ev) => AddServes(s, ev); AddFolds(s, ev); AddEmits(s, ev);
    case Suppresses(p) => DropKeeps(s, {p} * s.timers.Keys);
    case SuppressesPrefix(prefix) => DropKeeps(s, WithPrefix(s, prefix));
    case Stops => DropKeeps(s, s.timers.Keys);
    case Fires(k) => FireKeeps(s, k);
    case Enters(k) => EnterServes(s, k); EnterFolds(s, k); EnterEmits(s, k);
    case Delivers(k) => DeliverKeeps(s, k);
  }

  lemma DropKeeps(s: State, paths: set<string>)
    requires Valid(s)
    ensures Valid(AfterDrop(s, paths))
  {
    DropServes(s, paths);
    DropFolds(s, paths);
    DropEmits(s, paths);
    hide TimersServe, PendingIsFold, EmittedOnce, AfterDrop;
  }

  // ---------------------------------------------------------------------
  // Runs
  // ---------------------------------------------------------------------

  ghost predicate EnabledRun(s: State, run: seq<Input>)
    requires Valid(s)
    decreases |run|
  {
    run != [] ==> Enabled(s, run[0]) && (StepKeeps(s, run[0]); EnabledRun(Step(s, run[0]), run[1..]))
  }

  ghost function Run(s: State, run: seq<Input>): (t: State)
    requires Valid(s) && EnabledRun(s, run)
    ensures Valid(t)
    decreases |run|
  {
    if run == [] then s else (StepKeeps(s, run[0]); Run(Step(s, run[0]), run[1..]))
  }

  /** Under every interleaving of events, suppressions, timers and callbacks:
      the two maps have the same keys, a waiting path has an unfinished callback
      of its own, it waits with the fold of the events added since its last
      batch was closed, and what has been emitted or is about to be is one
      event per batch taken, so no batch is emitted twice and none that was
      suppressed is emitted at all. */
  lemma EveryInterleaving(run: seq<Input>, p: string)
    requires Valid(FRESH) && EnabledRun(FRESH, run)
    ensures var s := Run(FRESH, run);
            && (p in s.timers <==> p in s.pending) && (p in s.pending <==> Open(s.history, p) != [])
            && (p in s.pending ==>
                  && s.timers[p] < |s.callbacks| && s.callbacks[s.timers[p]] in {Armed(p), Fired(p)}
                  && s.pending[p] == Fold(Open(s.history, p)))
            && multiset(s.emitted) + Held(s.callbacks) == Due(s.history)
            && Concat(Closed(s.history, p)) + Open(s.history, p) == AddsOf(s.history, p)
  {
    var s := Run(FRESH, run);
    BatchesPartition(s.history, p);
    hide Run, EnabledRun, Open, Fold, Due, Held, Concat, Closed, AddsOf;
  }

  // ---------------------------------------------------------------------
  // The quiet window
  // ---------------------------------------------------------------------

  /** Every event added, of whatever path. The k-th started timer k. */
  function AllAdds(h: seq<Note>): seq<Event> {
    if h == [] then []
    else
      var rest := AllAdds(h[..|h| - 1]);
      match h[|h| - 1]
      case Added(ev) => rest + [ev]
      case _ => rest
  }

  /** No event of p was added since timer k was started. */
  ghost predicate QuietSince(adds: seq<Event>, k: nat, p: string) {
    forall i :: k < i < |adds| ==> adds[i].path != p
  }

  /** Each callback belongs to the event that started its timer, and the
      current timer of a path to the last event of that path. */
  ghost predicate Numbered(s: State) {
    var adds := AllAdds(s.history);
    && |s.callbacks| == |adds|
    && (forall k :: 0 <= k < |adds| && (s.callbacks[k].Armed? || s.callbacks[k].Fired?) ==> s.callbacks[k].path == adds[k].path)
    && (forall p :: p in s.timers ==> s.timers[p] < |adds| && adds[s.timers[p]].path == p && QuietSince(adds, s.timers[p], p))
  }

  lemma AllAddsAppend(h: seq<Note>, n: Note)
    ensures AllAdds(h + [n]) == if n.Added? then AllAdds(h) + [n.ev] else AllAdds(h)
  {
    assert (h + [n])[..|h|] == h;
  }

  lemma AddNumbered(s: State, ev: Event)
    requires TimersServe(s) && Numbered(s)
    ensures Numbered(AfterAdd(s, ev))
  {
    hide AllAdds, Latest;
    AllAddsAppend(s.history, Added(ev));
  }

  lemma StepNumbered(s: State, i: Input)
    requires TimersServe(s) && Numbered(s) && Enabled(s, i)
    ensures Numbered(Step(s, i))
  {
    hide AllAdds, AfterAdd;
    match i
    case Adds(ev) => AddNumbered(s, ev);
    case Suppresses(p) => AllAddsAppend(s.history, Dropped({p} * s.timers.Keys));
    case SuppressesPrefix(prefix) => AllAddsAppend(s.history, Dropped(WithPrefix(s, prefix)));
    case Stops => AllAddsAppend(s.history, Dropped(s.timers.Keys));
    case Fires(k) =>
    case Enters(k) => AllAddsAppend(s.history, Taken(s.callbacks[k].path));
    case Delivers(k) =>
  }

  lemma {:induction false} RunNumbered(s: State, run: seq<Input>)
    requires Valid(s) && Numbered(s) && EnabledRun(s, run)
    ensures Numbered(Run(s, run))
    decreases |run|
  {
    if run != [] {
      StepKeeps(s, run[0]);
      StepNumbered(s, run[0]);
      hide Step, Numbered, Enabled, PendingIsFold, EmittedOnce;
      RunNumbered(Step(s, run[0]), run[1..]);
    }
  }

  /** When the quiet window holds. In every reachable state, a callback about to
      take a batch finds that no event of its path was added since its own timer
      was started if and only if its timer is the path's current one. The code
      does not ask: it takes the batch in either case. */
  lemma QuietWindowIff(run: seq<Input>, k: nat)
    requires Valid(FRESH) && EnabledRun(FRESH, run) && Enabled(Run(FRESH, run), Enters(k))
    requires Run(FRESH, run).callbacks[k].path in Run(FRESH, run).pending
    ensures var s := Run(FRESH, run);
            var p := s.callbacks[k].path;
            && p in s.timers && (QuietSince(AllAdds(s.history), k, p) <==> s.timers[p] == k)
            && Step(s, Enters(k)).callbacks[k] == Emitting(s.pending[p])
  {
    var s := Run(FRESH, run);
    RunNumbered(FRESH, run);
    hide Run, EnabledRun, AllAdds;
    var adds, p := AllAdds(s.history), s.callbacks[k].path;
    assert adds[s.timers[p]].path == p && adds[k].path == p;
  }

  /** The callback that is not the newest: one that Stop came too late for
      hands on the newer event at once, while that event's own timer has only
      just been started and runs on with nothing left to hand on. */
  lemma StaleCallbackEmitsEarly(a: Event, b: Event)
    requires a.path == b.path
    ensures var late := Step(Step(Step(FRESH, Adds(a)), Fires(0)), Adds(b));
            && Enabled(late, Enters(0)) && late.timers == map[b.path := 1]
            && var s := Step(late, Enters(0));
               s.callbacks == [Emitting(Absorb(a, b)), Armed(b.path)] && s.pending == map[] && s.timers == map[]
  {
    var one := Step(FRESH, Adds(a));
    assert one.callbacks == [Armed(a.path)] && one.timers == map[a.path := 0] && one.pending == map[a.path := a];
    var fired := Step(one, Fires(0));
    assert fired.callbacks == [Fired(a.path)];
    var late := Step(fired, Adds(b));
    assert late.callbacks == [Fired(a.path), Armed(b.path)];
    assert late.pending == map[b.path := Absorb(a, b)] && late.timers == map[b.path := 1];
    assert late.pending - {b.path} == map[] && late.timers - {b.path} == map[];
  }

  // ---------------------------------------------------------------------
  // Letting the timers run out
  // ---------------------------------------------------------------------

  predicate ByTimer(i: Input) { i.Fires? || i.Enters? || i.Delivers? }

  predicate Quiet(s: State) {
    forall k :: 0 <= k < |s.callbacks| ==> s.callbacks[k].Finished?
  }

  /** Everything emitted, about to be emitted, or waiting. */
  ghost function Ripe(s: State): multiset<Event> {
    multiset(s.emitted) + Held(s.callbacks) + World.Values(s.pending)
  }

  lemma EnterConserves(s: State, k: nat)
    requires Enabled(s, Enters(k))
    ensures Ripe(AfterEnter(s, k)) == Ripe(s)
  {
    hide Held, World.Values;
    var p := s.callbacks[k].path;
    if p in s.pending {
      var c := Emitting(s.pending[p]);
      HeldUpdate(s.callbacks, k, c);
      World.ValuesRemove(s.pending, p);
      assert Held(s.callbacks[k := c]) == Held(s.callbacks) + multiset{s.pending[p]};
      Swap(Held(s.callbacks), multiset{s.pending[p]}, World.Values(s.pending - {p}));
    } else {
      HeldSilent(s.callbacks, k, Finished);
    }
  }

  lemma TimerConserves(s: State, i: Input)
    requires Valid(s) && Enabled(s, i) && ByTimer(i)
    ensures Ripe(Step(s, i)) == Ripe(s)
  {
    hide Held, World.Values, AfterEnter;
    match i
    case Fires(k) => HeldSilent(s.callbacks, k, Fired(s.callbacks[k].path));
    case Enters(k) => EnterConserves(s, k);
    case Delivers(k) =>
      HeldUpdate(s.callbacks, k, Finished);
      assert Held(s.callbacks[k := Finished]) + multiset{s.callbacks[k].ev} == Held(s.callbacks);
      assert multiset(AfterDeliver(s, k).emitted) == multiset(s.emitted) + multiset{s.callbacks[k].ev};
  }

  function StepsLeft(c: Callback): nat {
    match c
    case Armed(_) => 3
    case Fired(_) => 2
    case Emitting(_) => 1
    case Finished => 0
  }

  function WorkBelow(cs: seq<Callback>, n: nat): nat
    requires n <= |cs|
  {
    if n == 0 then 0 else WorkBelow(cs, n - 1) + StepsLeft(cs[n - 1])
  }

  lemma {:induction false} WorkUpdate(cs: seq<Callback>, k: nat, c: Callback, n: nat)
    requires k < |cs| && n <= |cs|
    ensures WorkBelow(cs[k := c], n) == WorkBelow(cs, n) + if k < n then StepsLeft(c) - StepsLeft(cs[k]) else 0
  {
    if n > 0 {
      WorkUpdate(cs, k, c, n - 1);
    }
  }

  function Work(s: State): nat { WorkBelow(s.callbacks, |s.callbacks|) }

  lemma TimerWorks(s: State, i: Input)
    requires Valid(s) && Enabled(s, i) && ByTimer(i)
    ensures Work(Step(s, i)) < Work(s)
  {
    hide Valid;
    match i
    case Fires(k) => WorkUpdate(s.callbacks, k, Fired(s.callbacks[k].path), |s.callbacks|);
    case Enters(k) =>
      var p := s.callbacks[k].path;
      WorkUpdate(s.callbacks, k, if p in s.pending then Emitting(s.pending[p]) else Finished, |s.callbacks|);
    case Delivers(k) => WorkUpdate(s.callbacks, k, Finished, |s.callbacks|);
  }

  /** Without new events the callbacks cannot go on for ever, and while one is
      unfinished some step is possible: every longest such run ends quiet. */
  lemma {:induction false} TimersRunOut(s: State, run: seq<Input>)
    requires Valid(s) && EnabledRun(s, run) && forall i :: i in run ==> ByTimer(i)
    ensures |run| <= Work(s)
    ensures !Quiet(Run(s, run)) ==> exists i :: ByTimer(i) && Enabled(Run(s, run), i)
    decreases |run|
  {
    if run == [] {
      if !Quiet(s) {
        var k :| 0 <= k < |s.callbacks| && !s.callbacks[k].Finished?;
        assert Enabled(s, Fires(k)) || Enabled(s, Enters(k)) || Enabled(s, Delivers(k));
      }
    } else {
      StepKeeps(s, run[0]);
      TimerWorks(s, run[0]);
      hide Step, Valid, Work, Quiet, Enabled;
      TimersRunOut(Step(s, run[0]), run[1..]);
    }
  }

  lemma {:induction false} TimersConserve(s: State, run: seq<Input>)
    requires Valid(s) && EnabledRun(s, run) && forall i :: i in run ==> ByTimer(i)
    ensures Ripe(Run(s, run)) == Ripe(s)
    decreases |run|
  {
    if run != [] {
      StepKeeps(s, run[0]);
      TimerConserves(s, run[0]);
      hide Step, Valid, Ripe, Enabled;
      TimersConserve(Step(s, run[0]), run[1..]);
    }
  }

  lemma WaitingNotQuiet(s: State)
    requires TimersServe(s) && s.timers != map[]
    ensures !Quiet(s)
  {
    var p :| p in s.timers;
    assert !s.callbacks[s.timers[p]].Finished?;
  }

  lemma QuietHoldsNothing(s: State)
    requires Valid(s) && Quiet(s)
    ensures s.pending == map[] && s.timers == map[] && Held(s.callbacks) == multiset{}
  {
    if s.timers != map[] {
      hide Quiet, TimersServe;
      WaitingNotQuiet(s);
    }
    HeldAgree(s.callbacks, seq(|s.callbacks|, _ => Finished), |s.callbacks|);
    NothingHeld(|s.callbacks|, |s.callbacks|);
  }

  lemma {:induction false} NothingHeld(m: nat, n: nat)
    requires n <= m
    ensures HeldBelow(seq(m, _ => Finished), n) == multiset{}
  {
    if n > 0 { NothingHeld(m, n - 1); }
  }

  /** Once the timers have run out, everything that was waiting has been emitted
      exactly once, whichever callbacks emitted it, and nothing else has. */
  lemma {:induction false} DrainEmitsEachOnce(s: State, run: seq<Input>)
    requires Valid(s) && EnabledRun(s, run) && forall i :: i in run ==> ByTimer(i)
    requires Quiet(Run(s, run))
    ensures multiset(Run(s, run).emitted) == multiset(s.emitted) + Held(s.callbacks) + World.Values(s.pending)
    ensures Run(s, run).pending == map[]
  {
    TimersConserve(s, run);
    var t := Run(s, run);
    hide Run, EnabledRun;
    QuietHoldsNothing(t);
    hide Held;
    assert Ripe(t) == multiset(t.emitted);
  }

  // ---------------------------------------------------------------------
  // Suppression
  // ---------------------------------------------------------------------

  /** The paths a suppression is meant for, or every path for Stop. */
  predicate Aimed(i: Input, p: string) {
    match i
    case Suppresses(q) => p == q
    case SuppressesPrefix(prefix) => |prefix| <= |p| && p[..|prefix|] == prefix
    case Stops => true
    case _ => false
  }

  /** A suppression drops exactly what waits under the paths it is meant for
      and stops their timers where that still works. It emits nothing, and what
      waits elsewhere, and every callback past stopping, is as it was. */
  lemma SuppressionDrops(s: State, i: Input, p: string)
    requires Valid(s) && (i.Suppresses? || i.SuppressesPrefix? || i.Stops?)
    ensures var t := Step(s, i);
            && t.emitted == s.emitted && |t.callbacks| == |s.callbacks|
            && (forall k :: 0 <= k < |s.callbacks| && !s.callbacks[k].Armed? ==> t.callbacks[k] == s.callbacks[k])
            && (p in t.pending <==> p in s.pending && !Aimed(i, p)) && (p in t.timers <==> p in s.timers && !Aimed(i, p))
            && (p in t.pending ==> t.pending[p] == s.pending[p] && t.timers[p] == s.timers[p])
            && (p in s.timers ==>
                  t.callbacks[s.timers[p]] ==
                  if Aimed(i, p) && s.callbacks[s.timers[p]].Armed? then Finished else s.callbacks[s.timers[p]])
  {
    hide Open, Fold, Due, Held;
  }

  lemma FoldIsOfPath(batch: seq<Event>, p: string)
    requires batch != [] && forall ev :: ev in batch ==> ev.path == p
    ensures Fold(batch).path == p
  {
    FoldPicks(batch);
  }

  /** While nothing waits for a path and nothing is added for it, no callback
      takes an event of it. */
  lemma SilentStep(s: State, i: Input, ev: Event)
    requires Valid(s) && Enabled(s, i) && ev.path !in s.pending && !(i.Adds? && i.ev.path == ev.path)
    ensures Due(Step(s, i).history)[ev] == Due(s.history)[ev] && ev.path !in Step(s, i).pending
  {
    hide Open, Fold, Due, EmittedOnce;
    match i
    case Adds(other) => DueAppend(s.history, Added(other));
    case Suppresses(p) => DueAppend(s.history, Dropped({p} * s.timers.Keys));
    case SuppressesPrefix(prefix) => DueAppend(s.history, Dropped(WithPrefix(s, prefix)));
    case Stops => DueAppend(s.history, Dropped(s.timers.Keys));
    case Fires(_) =>
    case Enters(k) =>
      var q := s.callbacks[k].path;
      DueAppend(s.history, Taken(q));
      if q in s.pending { FoldIsOfPath(Open(s.history, q), q); }
    case Delivers(_) =>
  }

  lemma {:induction false} SilentRun(s: State, run: seq<Input>, ev: Event)
    requires Valid(s) && EnabledRun(s, run) && ev.path !in s.pending
    requires forall i :: i in run ==> !(i.Adds? && i.ev.path == ev.path)
    ensures Due(Run(s, run).history)[ev] == Due(s.history)[ev]
    decreases |run|
  {
    if run != [] {
      StepKeeps(s, run[0]);
      SilentStep(s, run[0], ev);
      assert run[0] in run;
      hide Step, Valid, Due, Enabled;
      SilentRun(Step(s, run[0]), run[1..], ev);
    }
  }

  /** After a suppression nothing of the path is emitted any more, by no
      interleaving, until something is added for it; only an event that a
      callback had already taken still comes out. */
  lemma SuppressedIsSilent(s: State, run: seq<Input>, ev: Event)
    requires Valid(s) && EnabledRun(s, run) && run != [] && Aimed(run[0], ev.path)
    requires forall i :: i in run ==> !(i.Adds? && i.ev.path == ev.path)
    ensures var t := Run(s, run);
            multiset(t.emitted)[ev] + Held(t.callbacks)[ev] == multiset(s.emitted)[ev] + Held(s.callbacks)[ev]
  {
    var t, u := Run(s, run), Step(s, run[0]);
    StepKeeps(s, run[0]);
    SuppressionDrops(s, run[0], ev.path);
    DropsTakeNothing(s, run[0]);
    hide Step, Due, Held, Open, Fold;
    SilentRun(u, run[1..], ev);
    hide Run, EnabledRun;
    assert EmittedOnce(s) && EmittedOnce(t);
    MultisetAt(multiset(t.emitted), Held(t.callbacks), ev);
    MultisetAt(multiset(s.emitted), Held(s.callbacks), ev);
  }

  lemma MultisetAt(a: multiset<Event>, b: multiset<Event>, ev: Event)
    ensures (a + b)[ev] == a[ev] + b[ev]
  {
  }

  lemma DropsTakeNothing(s: State, i: Input)
    requires Valid(s) && (i.Suppresses? || i.SuppressesPrefix? || i.Stops?)
    ensures Due(Step(s, i).history) == Due(s.history)
  {
    hide Due;
    var paths := match i
      case Suppresses(p) => {p} * s.timers.Keys
      case SuppressesPrefix(prefix) => WithPrefix(s, prefix)
      case _ => s.timers.Keys;
    DueAppend(s.history, Dropped(paths));
  }

  // ---------------------------------------------------------------------
  // The object itself
  // ---------------------------------------------------------------------

  lemma AddStep(s: State, ev: Event) returns (t: State)
    requires Valid(s)
    ensures Valid(t) && t == Step(s, Adds(ev))
    ensures t == State(s.timers[ev.path := |s.callbacks|], Latest(s.pending, ev), Restarted(s.timers, s.callbacks, ev.path), s.emitted, s.history + [Added(ev)])
  {
    StepKeeps(s, Adds(ev));
    t := Step(s, Adds(ev));
  }

  /** The three suppressing inputs differ only in the paths they drop. */
  ghost function Victims(s: State, i: Input): set<string>
    requires i.Suppresses? || i.SuppressesPrefix? || i.Stops?
  {
    match i
    case Suppresses(p) => {p} * s.timers.Keys
    case SuppressesPrefix(prefix) => WithPrefix(s, prefix)
    case Stops => s.timers.Keys
  }

  lemma DropStep(s: State, i: Input, paths: set<string>) returns (t: State)
    requires Valid(s) && (i.Suppresses? || i.SuppressesPrefix? || i.Stops?) && paths == Victims(s, i)
    ensures Valid(t) && t == Step(s, i) && TimersServe(s)
    ensures t == State(s.timers - paths, s.pending - paths, Halted(s, paths), s.emitted, s.history + [Dropped(paths)])
  {
    StepKeeps(s, i);
    t := Step(s, i);
  }

  class Debouncer {
    var timers: map<string, nat>
    var pending: map<string, Event>
    var callbacks: seq<Callback>
    var emitted: seq<Event>
    ghost var history: seq<Note>

    ghost function View(): State
      reads this
    {
      State(timers, pending, callbacks, emitted, history)
    }

    constructor ()
      ensures View() == FRESH && Valid(View())
    {
      timers, pending, callbacks, emitted, history := map[], map[], [], [], [];
    }

    /** time.Timer.Stop: too late once the timer has fired. */
    method StopTimer(k: nat)
      requires k < |callbacks|
      modifies this`callbacks
      ensures callbacks == Stopped(old(callbacks), k)
    {
      if callbacks[k].Armed? {
        callbacks := callbacks[k := Finished];
      }
    }

    /** Records ev as what waits for its path, unless a Create absorbs it. */
    method Record(ev: Event)
      modifies this`pending
      ensures pending == Latest(old(pending), ev)
    {
      if ev.path !in pending || pending[ev.path].op != Create || ev.op != Write {
        pending := pending[ev.path := ev];
      }
    }

    /** Starts a new timer for path, stopping the current one if it can. */
    method ResetTimer(path: string)
      requires path in timers ==> timers[path] < |callbacks|
      modifies this`timers, this`callbacks
      ensures timers == old(timers)[path := |old(callbacks)|]
      ensures callbacks == Restarted(old(timers), old(callbacks), path)
    {
      if path in timers {
        StopTimer(timers[path]);
      }
      timers := timers[path := |callbacks|];
      callbacks := callbacks + [Armed(path)];
    }

    method Add(ev: Event)
      requires Valid(View())
      modifies this
      ensures View() == Step(old(View()), Adds(ev)) && Valid(View())
    {
      hide PendingIsFold, EmittedOnce, Latest, Restarted, Stopped, Held, Due, Open, Fold;
      ghost var s := View();
      ghost var t := AddStep(s, ev);
      assert ev.path in timers ==> timers[ev.path] < |callbacks|;
      hide Valid, TimersServe;
      hide AfterAdd, Step;
      Record(ev);
      ResetTimer(ev.path);
      history := history + [Added(ev)];
      assert View() == t;
    }

    /** The runtime fires a timer: its callback now waits for the lock. */
    method Fire(k: nat)
      requires Valid(View()) && Enabled(View(), Fires(k))
      modifies this
      ensures View() == Step(old(View()), Fires(k)) && Valid(View())
    {
      hide PendingIsFold, EmittedOnce;
      StepKeeps(View(), Fires(k));
      callbacks := callbacks[k := Fired(callbacks[k].path)];
    }

    /** The callback's critical section. */
    method RunCallback(k: nat)
      requires Valid(View()) && Enabled(View(), Enters(k))
      modifies this
      ensures View() == Step(old(View()), Enters(k)) && Valid(View())
    {
      hide PendingIsFold, EmittedOnce;
      StepKeeps(View(), Enters(k));
      var path := callbacks[k].path;
      if path in pending {
        callbacks := callbacks[k := Emitting(pending[path])];
        pending := pending - {path};
        timers := timers - {path};
        history := history + [Taken(path)];
      } else {
        callbacks := callbacks[k := Finished];
      }
    }

    /** The callback's emission, after the lock is released. */
    method Emit(k: nat)
      requires Valid(View()) && Enabled(View(), Delivers(k))
      modifies this
      ensures View() == Step(old(View()), Delivers(k)) && Valid(View())
    {
      hide PendingIsFold, EmittedOnce;
      StepKeeps(View(), Delivers(k));
      emitted := emitted + [callbacks[k].ev];
      callbacks := callbacks[k := Finished];
    }

    /** The state is s with the given paths dropped, but for the note of it. */
    ghost predicate Dropping(s: State, dropped: set<string>)
      reads this
    {
      && timers == s.timers - dropped && pending == s.pending - dropped
      && callbacks == Halted(s, dropped) && emitted == s.emitted && history == s.history
    }

    /** Stops and forgets one waiting path. */
    method Drop(path: string, ghost s: State, ghost dropped: set<string>)
      requires TimersServe(s) && Dropping(s, dropped) && path in timers
      modifies this
      ensures Dropping(s, dropped + {path})
    {
      hide Halted;
      DropOne(s, dropped, path);
      StopTimer(timers[path]);
      timers := timers - {path};
      pending := pending - {path};
    }

    method Suppress(path: string)
      requires Valid(View())
      modifies this
      ensures View() == Step(old(View()), Suppresses(path)) && Valid(View())
    {
      hide PendingIsFold, EmittedOnce, Held, Due, Open, Fold, Halted;
      ghost var s := View();
      ghost var victims := {path} * s.timers.Keys;
      ghost var t := DropStep(s, Suppresses(path), victims);
      hide Valid, TimersServe, Step;
      DropNone(s);
      if path in timers {
        Drop(path, s, {});
        assert victims == {} + {path};
      } else {
        assert victims == {};
      }
      history := history + [Dropped(victims)];
      assert View() == t;
    }

    /** Visits the current timers in whatever order the map yields them, and
        drops those under prefix. */
    method SuppressPrefix(prefix: string)
      requires Valid(View())
      modifies this
      ensures View() == Step(old(View()), SuppressesPrefix(prefix)) && Valid(View())
    {
      hide PendingIsFold, EmittedOnce, Held, Due, Open, Fold, Halted;
      ghost var s := View();
      ghost var victims := WithPrefix(s, prefix);
      ghost var t := DropStep(s, SuppressesPrefix(prefix), victims);
      hide Valid, TimersServe, Step;
      DropNone(s);
      ghost var dropped: set<string> := {};
      var left := timers.Keys;
      while left != {}
        invariant left <= s.timers.Keys && dropped !! left && dropped <= victims <= dropped + left
        invariant Dropping(s, dropped)
        decreases left
      {
        var path :| path in left;
        left := left - {path};
        if |path| >= |prefix| && path[..|prefix|] == prefix {
          assert path in victims;
          Drop(path, s, dropped);
          dropped := dropped + {path};
        }
      }
      assert dropped == victims;
      history := history + [Dropped(dropped)];
      assert View() == t;
    }

    /** Drops everything that waits. */
    method Stop()
      requires Valid(View())
      modifies this
      ensures View() == Step(old(View()), Stops) && Valid(View()) && pending == map[]
    {
      hide PendingIsFold, EmittedOnce, Held, Due, Open, Fold, Halted;
      ghost var s := View();
      ghost var victims := s.timers.Keys;
      ghost var t := DropStep(s, Stops, victims);
      assert s.pending.Keys == victims;
      hide Valid, TimersServe, Step;
      DropNone(s);
      ghost var dropped: set<string> := {};
      var left := timers.Keys;
      while left != {}
        invariant left <= victims && dropped == victims - left
        invariant Dropping(s, dropped)
        decreases left
      {
        var path :| path in left;
        left := left - {path};
        Drop(path, s, dropped);
        dropped := dropped + {path};
      }
      assert dropped == victims;
      history := history + [Dropped(dropped)];
      assert View() == t;
    }
  }

  lemma DropNone(s: State)
    ensures s.timers - {} == s.timers && s.pending - {} == s.pending && Halted(s, {}) == s.callbacks
  {
  }

  lemma DropOne(s: State, dropped: set<string>, p: string)
    requires TimersServe(s) && p in s.timers && p !in dropped
    ensures Halted(s, dropped + {p}) == Stopped(Halted(s, dropped), s.timers[p])
  {
  }
}
