/**
 * The page-token protocol of the pull loop: a persisted cursor into the
 * remote's change log, a full walk after each reset, and a token that advances
 * only after all items of a cycle were handed on. The remote keeps changing at
 * any step; a cycle can be cancelled or crash at any step
 * (homedrive/internal/syncer/puller.go, homedrive/internal/rcloneclient).
 */
module PageToken {
  import opened Text

  /** One entry of the remote's change log: an object with a new state, or
      gone. A parent of "" is the sync root, which every poll knows. */
  datatype LogEntry = LogEntry(id: string, live: bool, folder: bool, parent: string)

  /** An object in the state its change number version gave it. */
  datatype Item = Item(id: string, version: nat)

  /** What is persisted: nothing, a start token still owing a full walk (the
      "initial_sync:" marker), or a position in the change log. */
  datatype Token = NoToken | Initial(pos: nat) | Real(pos: nat)

  /** Where the cycle in progress stands; all of it is lost with the cycle. */
  datatype Phase =
    | Idle
    | Minted(pos: nat)
    | Walking(resume: nat, seen: set<string>, items: seq<Item>)
    | Polling(since: nat, cursor: nat, items: seq<Item>)
    | Handing(items: seq<Item>, done: nat, next: nat)

  /** known: the ids whose path is cached, in memory only. handed: what
      processChange was called with. skipped: what a poll dropped because the
      path of its parent was not cached. */
  datatype State = State(log: seq<LogEntry>, token: Token, phase: Phase, known: set<string>, handed: set<Item>, skipped: set<Item>)

  datatype Event =
    | RemoteChange(entry: LogEntry)
    | Mint
    | PersistStart
    | Resume
    | WalkFile(id: string)
    | WalkDone
    | ReadPage(upTo: nat)
    | TokenGone
    | PollDone
    | Hand
    | PersistNext
    | Stop
    | Crash

  /** The number of the newest change of an object, if it has one. */
  function Newest(log: seq<LogEntry>, id: string): (r: Option<nat>)
    ensures r.Some? ==> r.value < |log| && log[r.value].id == id
    ensures r.Some? ==> forall i :: r.value < i < |log| ==> log[i].id != id
    ensures r.None? ==> forall i :: 0 <= i < |log| ==> log[i].id != id
  {
    if log == [] then None
    else if log[|log| - 1].id == id then Some(|log| - 1)
    else Newest(log[..|log| - 1], id)
  }

  /** A file that exists and is not excluded, in its newest state. */
  predicate Current(excluded: Item -> bool, log: seq<LogEntry>, it: Item) {
    Newest(log, it.id) == Some(it.version) && log[it.version].live && !log[it.version].folder && !excluded(it)
  }

  datatype Page = Page(items: seq<Item>, known: set<string>, skipped: set<Item>)

  /** One change of a page: the object as it is when the page is read, if the
      path of its parent is cached; then its own path is cached too. */
  function ReadEntry(excluded: Item -> bool, log: seq<LogEntry>, i: nat, known: set<string>): Page
    requires i < |log|
  {
    var it := Item(log[i].id, Newest(log, log[i].id).value);
    var e := log[it.version];
    if !e.live then Page([], known, {})
    else if e.parent != "" && e.parent !in known then Page([], known, {it})
    else if excluded(it) then Page([], known, {})
    else Page([it], known + {it.id}, {})
  }

  function ReadEntries(excluded: Item -> bool, log: seq<LogEntry>, since: nat, upTo: nat, known: set<string>): Page
    requires since <= upTo <= |log|
    decreases upTo - since
  {
    if since == upTo then Page([], known, {})
    else
      var first := ReadEntry(excluded, log, since, known);
      var rest := ReadEntries(excluded, log, since + 1, upTo, first.known);
      Page(first.items + rest.items, rest.known, first.skipped + rest.skipped)
  }

  /** A walk may end once it has visited every object that is not excluded and
      has not changed since its token was minted: no folder is moved under a
      walk. */
  ghost predicate WalkComplete(excluded: Item -> bool, s: State)
    requires s.phase.Walking?
  {
    forall id ::
      (match Newest(s.log, id)
       case None => true
       case Some(v) => v < s.phase.resume && s.log[v].live && !excluded(Item(id, v)) ==> id in s.phase.seen)
  }

  ghost predicate Enabled(excluded: Item -> bool, s: State, ev: Event) {
    match ev
    case RemoteChange(_) => true
    case Mint => s.phase.Idle? && s.token.NoToken?
    case PersistStart => s.phase.Minted?
    case Resume => s.phase.Idle? && !s.token.NoToken?
    case WalkFile(id) => s.phase.Walking? && Newest(s.log, id).Some?
    case WalkDone => s.phase.Walking? && WalkComplete(excluded, s)
    case ReadPage(upTo) => s.phase.Polling? && s.phase.cursor <= upTo <= |s.log|
    case TokenGone => s.phase.Polling?
    case PollDone => s.phase.Polling?
    case Hand => s.phase.Handing? && s.phase.done < |s.phase.items|
    case PersistNext => s.phase.Handing? && s.phase.done == |s.phase.items|
    case Stop => true
    case Crash => true
  }

  /** Stop is any error return or cancellation: the persisted token, the cache
      and what was handed on stay, the cycle does not. Crash is the end of the
      process: the cache goes too. TokenGone is a 410 or 400 answer: a new start
      token is minted, and persisted by the next step. */
  ghost function Next(excluded: Item -> bool, s: State, ev: Event): State
    requires Enabled(excluded, s, ev)
  {
    match ev
    case RemoteChange(e) => s.(log := s.log + [e])
    case Mint => s.(phase := Minted(|s.log|))
    case PersistStart => s.(token := Initial(s.phase.pos), phase := Walking(s.phase.pos, {}, []))
    case Resume =>
      if s.token.Initial? then s.(phase := Walking(s.token.pos, {}, []))
      else s.(phase := Polling(s.token.pos, s.token.pos, []))
    case WalkFile(id) =>
      var it := Item(id, Newest(s.log, id).value);
      var e := s.log[it.version];
      var listed := e.live && !e.folder && !excluded(it);
      s.(phase := s.phase.(seen := s.phase.seen + {id}, items := if listed then s.phase.items + [it] else s.phase.items),
         known := if listed || (e.live && e.folder) then s.known + {id} else s.known)
    case WalkDone => s.(phase := Handing(s.phase.items, 0, s.phase.resume))
    case ReadPage(upTo) =>
      var page := ReadEntries(excluded, s.log, s.phase.cursor, upTo, s.known);
      s.(phase := s.phase.(cursor := upTo, items := s.phase.items + page.items),
         known := page.known, skipped := s.skipped + page.skipped)
    case TokenGone => s.(phase := Minted(|s.log|))
    case PollDone => s.(phase := Handing(s.phase.items, 0, s.phase.cursor))
    case Hand => s.(handed := s.handed + {s.phase.items[s.phase.done]}, phase := s.phase.(done := s.phase.done + 1))
    case PersistNext => s.(token := Real(s.phase.next), phase := Idle)
    case Stop => s.(phase := Idle)
    case Crash => s.(phase := Idle, known := {})
  }

  // ---------------------------------------------------------------------
  // Safety
  // ---------------------------------------------------------------------

  /** Every current file whose newest change lies before t is among items. */
  ghost predicate Covered(excluded: Item -> bool, log: seq<LogEntry>, t: nat, items: set<Item>) {
    forall it :: Current(excluded, log, it) && it.version < t ==> it in items
  }

  function Waiting(items: seq<Item>, done: nat): set<Item>
    requires done <= |items|
  {
    set i | done <= i < |items| :: items[i]
  }

  ghost predicate TokenSafe(excluded: Item -> bool, s: State) {
    s.token.Real? ==> Covered(excluded, s.log, s.token.pos, s.handed + s.skipped)
  }

  ghost predicate PhaseSafe(excluded: Item -> bool, s: State) {
    match s.phase
    case Idle => true
    case Minted(pos) => pos <= |s.log|
    case Walking(resume, seen, items) =>
      && resume <= |s.log|
      && forall it :: Current(excluded, s.log, it) && it.version < resume && it.id in seen ==> it in items
    case Polling(since, cursor, items) =>
      && since <= cursor <= |s.log|
      && forall it :: Current(excluded, s.log, it) && it.version < cursor ==> it in items || it in s.handed || it in s.skipped
    case Handing(items, done, next) =>
      && next <= |s.log| && done <= |items|
      && Covered(excluded, s.log, next, s.handed + s.skipped + Waiting(items, done))
  }

  ghost predicate Safe(excluded: Item -> bool, s: State) {
    && TokenSafe(excluded, s) && PhaseSafe(excluded, s)
    && (s.token.Initial? || s.token.Real? ==> s.token.pos <= |s.log|)
  }

  /** Only the changed file's newest number moves, and it moves to the end. */
  lemma NewestAppend(log: seq<LogEntry>, e: LogEntry)
    ensures forall id :: Newest(log + [e], id) == if id == e.id then Some(|log|) else Newest(log, id)
  {
    assert (log + [e])[..|log|] == log;
  }

  lemma CurrentBefore(excluded: Item -> bool, log: seq<LogEntry>, e: LogEntry)
    ensures forall it :: Current(excluded, log + [e], it) && it.version < |log| ==> Current(excluded, log, it)
  {
    NewestAppend(log, e);
  }

  /** Every step keeps the protocol safe. */
  lemma StepSafe(excluded: Item -> bool, s: State, ev: Event)
    requires Safe(excluded, s) && Enabled(excluded, s, ev)
    ensures Safe(excluded, Next(excluded, s, ev))
  {
    match ev
    case RemoteChange(e) =>
      CurrentBefore(excluded, s.log, e);
      hide Current, Newest;
    case Hand => HandSafe(excluded, s);
    case ReadPage(upTo) => ReadSafe(excluded, s, upTo);
    case WalkFile(id) =>
    case WalkDone => WalkDoneSafe(excluded, s);
    case PollDone => PollDoneSafe(excluded, s);
    case PersistNext => assert Waiting(s.phase.items, s.phase.done) == {};
    case _ =>
  }

  lemma HandSafe(excluded: Item -> bool, s: State)
    requires Safe(excluded, s) && Enabled(excluded, s, Hand)
    ensures Safe(excluded, Next(excluded, s, Hand))
  {
    hide Current;
    var items, done := s.phase.items, s.phase.done;
    assert Waiting(items, done) == Waiting(items, done + 1) + {items[done]};
  }

  /** A page hands on or skips each file whose newest change is in it. */
  lemma {:induction false} ReadCovers(excluded: Item -> bool, log: seq<LogEntry>, since: nat, upTo: nat, known: set<string>, i: nat)
    requires since <= i < upTo <= |log| && Current(excluded, log, Item(log[i].id, i))
    ensures var page := ReadEntries(excluded, log, since, upTo, known);
            Item(log[i].id, i) in page.items || Item(log[i].id, i) in page.skipped
    decreases upTo - since
  {
    var first := ReadEntry(excluded, log, since, known);
    if since < i {
      ReadCovers(excluded, log, since + 1, upTo, first.known, i);
    }
  }

  lemma ReadSafe(excluded: Item -> bool, s: State, upTo: nat)
    requires Safe(excluded, s) && Enabled(excluded, s, ReadPage(upTo))
    ensures Safe(excluded, Next(excluded, s, ReadPage(upTo)))
  {
    var t := Next(excluded, s, ReadPage(upTo));
    forall it | Current(excluded, s.log, it) && it.version < upTo
      ensures it in t.phase.items || it in t.handed || it in t.skipped
    {
      if it.version >= s.phase.cursor {
        assert s.log[it.version].id == it.id;
        ReadCovers(excluded, s.log, s.phase.cursor, upTo, s.known, it.version);
      }
    }
  }

  lemma WalkDoneSafe(excluded: Item -> bool, s: State)
    requires Safe(excluded, s) && Enabled(excluded, s, WalkDone)
    ensures Safe(excluded, Next(excluded, s, WalkDone))
  {
    forall it | Current(excluded, s.log, it) && it.version < s.phase.resume
      ensures it in Waiting(s.phase.items, 0)
    {
      assert it in s.phase.items;
    }
  }

  lemma PollDoneSafe(excluded: Item -> bool, s: State)
    requires Safe(excluded, s) && Enabled(excluded, s, PollDone)
    ensures Safe(excluded, Next(excluded, s, PollDone))
  {
    hide Current;
    forall it | it in s.phase.items
      ensures it in Waiting(s.phase.items, 0)
    {
    }
  }

  ghost predicate EnabledRun(excluded: Item -> bool, s: State, evs: seq<Event>)
    decreases |evs|
  {
    evs != [] ==> Enabled(excluded, s, evs[0]) && EnabledRun(excluded, Next(excluded, s, evs[0]), evs[1..])
  }

  ghost function Run(excluded: Item -> bool, s: State, evs: seq<Event>): State
    requires EnabledRun(excluded, s, evs)
    decreases |evs|
  {
    if evs == [] then s else Run(excluded, Next(excluded, s, evs[0]), evs[1..])
  }

  lemma {:induction false} RunSafe(excluded: Item -> bool, s: State, evs: seq<Event>)
    requires Safe(excluded, s) && EnabledRun(excluded, s, evs)
    ensures Safe(excluded, Run(excluded, s, evs))
    decreases |evs|
  {
    if evs != [] {
      StepSafe(excluded, s, evs[0]);
      hide Next, Safe;
      RunSafe(excluded, Next(excluded, s, evs[0]), evs[1..]);
    }
  }

  /** Over every run from a fresh install, with the remote changing, tokens
      expiring, and cycles failing or crashing anywhere: whenever the persisted
      token is a position t, each existing, not excluded file whose newest
      change lies before t was handed on in that newest state, or was dropped
      by a poll that could not resolve its path. */
  lemma TokenNeverOvertakes(excluded: Item -> bool, log: seq<LogEntry>, evs: seq<Event>, id: string)
    requires EnabledRun(excluded, State(log, NoToken, Idle, {}, {}, {}), evs)
    ensures var s := Run(excluded, State(log, NoToken, Idle, {}, {}, {}), evs);
            var v := Newest(s.log, id);
            s.token.Real? && v.Some? && v.value < s.token.pos && s.log[v.value].live && !s.log[v.value].folder && !excluded(Item(id, v.value)) ==>
              Item(id, v.value) in s.handed || Item(id, v.value) in s.skipped
  {
    var start := State(log, NoToken, Idle, {}, {}, {});
    RunSafe(excluded, start, evs);
    var s := Run(excluded, start, evs);
    hide Run, EnabledRun;
    var v := Newest(s.log, id);
    assert v.Some? ==> (Current(excluded, s.log, Item(id, v.value)) <==> s.log[v.value].live && !s.log[v.value].folder && !excluded(Item(id, v.value)));
  }

  /** The items of the cycle counted as handed on were. */
  ghost predicate HandedSoFar(s: State) {
    s.phase.Handing? ==> s.phase.done <= |s.phase.items| && forall i :: 0 <= i < s.phase.done ==> s.phase.items[i] in s.handed
  }

  /** The persisted token moves in two steps only: to the start token a cycle
      minted, and, once every item of the cycle was handed on, to the position
      the cycle read up to. Nothing handed on is taken back. */
  lemma TokenMoves(excluded: Item -> bool, s: State, ev: Event)
    requires Enabled(excluded, s, ev) && HandedSoFar(s)
    ensures var t := Next(excluded, s, ev);
            && HandedSoFar(t) && s.handed <= t.handed && (t.handed != s.handed ==> ev.Hand?)
            && (t.token != s.token ==>
                  || (s.phase.Minted? && t.token == Initial(s.phase.pos))
                  || (s.phase.Handing? && t.token == Real(s.phase.next) && forall it :: it in s.phase.items ==> it in s.handed))
  {
    hide ReadEntries;
  }

  /** Over every run from a fresh install: a cycle about to move the token has
      handed on everything it listed. */
  lemma {:induction false} TokenMovesLast(excluded: Item -> bool, s: State, evs: seq<Event>)
    requires HandedSoFar(s) && EnabledRun(excluded, s, evs)
    ensures var t := Run(excluded, s, evs);
            HandedSoFar(t) && (Enabled(excluded, t, PersistNext) ==> forall it :: it in t.phase.items ==> it in t.handed)
    decreases |evs|
  {
    if evs != [] {
      TokenMoves(excluded, s, evs[0]);
      hide Next, HandedSoFar;
      TokenMovesLast(excluded, Next(excluded, s, evs[0]), evs[1..]);
    }
  }

  // ---------------------------------------------------------------------
  // Progress
  // ---------------------------------------------------------------------

  lemma {:induction false} RunConcat(excluded: Item -> bool, s: State, a: seq<Event>, b: seq<Event>)
    requires EnabledRun(excluded, s, a) && EnabledRun(excluded, Run(excluded, s, a), b)
    ensures EnabledRun(excluded, s, a + b) && Run(excluded, s, a + b) == Run(excluded, Run(excluded, s, a), b)
    decreases |a|
  {
    hide Next, Enabled;
    if a == [] {
      assert a + b == b;
    } else {
      assert (a + b)[1..] == a[1..] + b;
      RunConcat(excluded, Next(excluded, s, a[0]), a[1..], b);
    }
  }

  lemma RunFirst(excluded: Item -> bool, s: State, ev: Event, evs: seq<Event>)
    requires Enabled(excluded, s, ev) && EnabledRun(excluded, Next(excluded, s, ev), evs)
    ensures EnabledRun(excluded, s, [ev] + evs) && Run(excluded, s, [ev] + evs) == Run(excluded, Next(excluded, s, ev), evs)
  {
    assert ([ev] + evs)[1..] == evs;
  }

  lemma {:induction false} HandsAll(excluded: Item -> bool, s: State) returns (evs: seq<Event>)
    requires s.phase.Handing? && s.phase.done <= |s.phase.items|
    ensures EnabledRun(excluded, s, evs)
    ensures var t := Run(excluded, s, evs);
            && t.phase.Idle? && t.log == s.log && t.token == Real(s.phase.next)
            && t.skipped == s.skipped
            && forall it :: it in t.handed <==> it in s.handed || it in s.phase.items[s.phase.done..]
    decreases |s.phase.items| - s.phase.done
  {
    if s.phase.done == |s.phase.items| {
      evs := [PersistNext];
      RunFirst(excluded, s, PersistNext, []);
    } else {
      evs := HandsAll(excluded, Next(excluded, s, Hand));
      RunFirst(excluded, s, Hand, evs);
      evs := [Hand] + evs;
    }
  }

  /** The walk of the files of the change log from the k-th entry on. */
  lemma {:induction false} WalksAll(excluded: Item -> bool, s: State, k: nat) returns (evs: seq<Event>)
    requires s.phase.Walking? && k <= |s.log|
    requires forall i :: 0 <= i < k ==> s.log[i].id in s.phase.seen
    ensures EnabledRun(excluded, s, evs)
    ensures var t := Run(excluded, s, evs); t.phase.Idle? && t.log == s.log && t.token == Real(s.phase.resume)
    decreases |s.log| - k
  {
    if k == |s.log| {
      forall id
        ensures Newest(s.log, id).Some? ==> id in s.phase.seen
      {
        assert Newest(s.log, id).Some? ==> s.log[Newest(s.log, id).value].id == id;
      }
      evs := HandsAll(excluded, Next(excluded, s, WalkDone));
      RunFirst(excluded, s, WalkDone, evs);
      evs := [WalkDone] + evs;
    } else {
      var ev := WalkFile(s.log[k].id);
      assert Newest(s.log, s.log[k].id).Some?;
      evs := WalksAll(excluded, Next(excluded, s, ev), k + 1);
      RunFirst(excluded, s, ev, evs);
      evs := [ev] + evs;
    }
  }

  lemma PollsAll(excluded: Item -> bool, s: State) returns (evs: seq<Event>)
    requires s.phase.Idle? && s.token.Real? && s.token.pos <= |s.log|
    ensures EnabledRun(excluded, s, evs)
    ensures var t := Run(excluded, s, evs); t.phase.Idle? && t.log == s.log && t.token == Real(|s.log|)
  {
    var polling := Next(excluded, s, Resume);
    var read := Next(excluded, polling, ReadPage(|s.log|));
    evs := HandsAll(excluded, Next(excluded, read, PollDone));
    RunFirst(excluded, read, PollDone, evs);
    RunFirst(excluded, polling, ReadPage(|s.log|), [PollDone] + evs);
    RunFirst(excluded, s, Resume, [ReadPage(|s.log|)] + ([PollDone] + evs));
    evs := [Resume] + ([ReadPage(|s.log|)] + ([PollDone] + evs));
  }

  /** Between cycles, whatever is persisted, undisturbed cycles bring the token
      to the end of the change log. */
  lemma CatchesUp(excluded: Item -> bool, s: State) returns (evs: seq<Event>)
    requires Safe(excluded, s) && s.phase.Idle?
    ensures EnabledRun(excluded, s, evs)
    ensures var t := Run(excluded, s, evs); t.phase.Idle? && t.log == s.log && t.token == Real(|s.log|)
  {
    match s.token
    case Real(_) => evs := PollsAll(excluded, s);
    case Initial(_) =>
      var first := WalksAll(excluded, Next(excluded, s, Resume), 0);
      RunFirst(excluded, s, Resume, first);
      first := [Resume] + first;
      var second := PollsAll(excluded, Run(excluded, s, first));
      RunConcat(excluded, s, first, second);
      evs := first + second;
    case NoToken =>
      var minted := Next(excluded, s, Mint);
      evs := WalksAll(excluded, Next(excluded, minted, PersistStart), 0);
      RunFirst(excluded, minted, PersistStart, evs);
      RunFirst(excluded, s, Mint, [PersistStart] + evs);
      evs := [Mint] + ([PersistStart] + evs);
  }

  // ---------------------------------------------------------------------
  // What a poll skips
  // ---------------------------------------------------------------------

  /** A page only adds to the cache, and skips nothing whose parent it knew. */
  lemma {:induction false} KnownParentsRead(excluded: Item -> bool, log: seq<LogEntry>, since: nat, upTo: nat, known: set<string>)
    requires since <= upTo <= |log|
    ensures var page := ReadEntries(excluded, log, since, upTo, known);
            && known <= page.known
            && forall it :: it in page.skipped ==>
                it.version < |log| && log[it.version].parent != "" && log[it.version].parent !in known
    decreases upTo - since
  {
    if since < upTo {
      KnownParentsRead(excluded, log, since + 1, upTo, ReadEntry(excluded, log, since, known).known);
    }
  }

  lemma StepSkips(excluded: Item -> bool, s: State, ev: Event)
    requires Safe(excluded, s) && Enabled(excluded, s, ev) && !ev.Crash?
    ensures var t := Next(excluded, s, ev);
            && s.known <= t.known && s.log <= t.log && s.skipped <= t.skipped
            && forall it :: it in t.skipped && it !in s.skipped ==>
                it.version < |t.log| && t.log[it.version].parent != "" && t.log[it.version].parent !in s.known
  {
    if ev.ReadPage? {
      KnownParentsRead(excluded, s.log, s.phase.cursor, ev.upTo, s.known);
    }
    hide ReadEntries;
  }

  /** Within one process, polls skip nothing below a folder whose path is
      cached: the cache only grows, and a skip is always for an unknown parent. */
  lemma {:induction false} RunSkips(excluded: Item -> bool, s: State, evs: seq<Event>)
    requires Safe(excluded, s) && EnabledRun(excluded, s, evs) && Crash !in evs
    ensures var t := Run(excluded, s, evs);
            && s.known <= t.known && s.log <= t.log
            && forall it :: it in t.skipped && it !in s.skipped ==>
                it.version < |t.log| && t.log[it.version].parent != "" && t.log[it.version].parent !in s.known
    decreases |evs|
  {
    if evs != [] {
      var t := Next(excluded, s, evs[0]);
      StepSafe(excluded, s, evs[0]);
      StepSkips(excluded, s, evs[0]);
      hide Next, Safe, Enabled;
      RunSkips(excluded, t, evs[1..]);
    }
  }

  /** A folder that a walk visited, or a change that a poll handed on, is known
      from then on, until the process ends. */
  lemma VisitedIsKnown(excluded: Item -> bool, s: State, folder: string)
    requires s.phase.Walking? && Newest(s.log, folder).Some?
    requires s.log[Newest(s.log, folder).value].live && s.log[Newest(s.log, folder).value].folder
    ensures folder in Next(excluded, s, WalkFile(folder)).known
  {
  }

  lemma {:induction false} ReportedIsKnown(excluded: Item -> bool, log: seq<LogEntry>, since: nat, upTo: nat, known: set<string>)
    requires since <= upTo <= |log|
    ensures var page := ReadEntries(excluded, log, since, upTo, known);
            forall it :: it in page.items ==> it.id in page.known
    decreases upTo - since
  {
    if since < upTo {
      var first := ReadEntry(excluded, log, since, known);
      ReportedIsKnown(excluded, log, since + 1, upTo, first.known);
      KnownParentsRead(excluded, log, since + 1, upTo, first.known);
    }
  }

  /** A file is skipped only if its parent folder was not visited by a walk
      earlier in the same process. */
  lemma WalkedFolderSkipsNothing(excluded: Item -> bool, s: State, folder: string, evs: seq<Event>, it: Item)
    requires Safe(excluded, s) && s.phase.Walking? && Newest(s.log, folder).Some?
    requires s.log[Newest(s.log, folder).value].live && s.log[Newest(s.log, folder).value].folder
    requires EnabledRun(excluded, s, [WalkFile(folder)] + evs) && Crash !in evs
    ensures var t := Run(excluded, s, [WalkFile(folder)] + evs);
            it in t.skipped && it !in s.skipped ==> it.version < |t.log| && t.log[it.version].parent != folder
  {
    VisitedIsKnown(excluded, s, folder);
    StepSafe(excluded, s, WalkFile(folder));
    var t := Next(excluded, s, WalkFile(folder));
    assert t.skipped == s.skipped;
    assert ([WalkFile(folder)] + evs)[1..] == evs;
    hide Next, Safe;
    RunSkips(excluded, t, evs);
  }

  // ---------------------------------------------------------------------
  // Exactly what a poll hands on
  // ---------------------------------------------------------------------

  /** The path of a folder is known once the changes from since to upTo have
      been read: it is the sync root, its path was cached before, or one of
      those changes is to it, and it exists, is not excluded, and its own
      parent's path was known by then. */
  predicate Reachable(excluded: Item -> bool, log: seq<LogEntry>, since: nat, upTo: nat, known: set<string>, folder: string)
    requires since <= upTo <= |log|
    decreases upTo, 0
  {
    folder == "" || folder in known ||
    exists j :: since <= j < upTo && log[j].id == folder && Caches(excluded, log, since, j, known)
  }

  /** Change j puts the path of its object in the cache. */
  predicate Caches(excluded: Item -> bool, log: seq<LogEntry>, since: nat, j: nat, known: set<string>)
    requires since <= j < |log|
    decreases j, 1
  {
    var it := Item(log[j].id, Newest(log, log[j].id).value);
    log[it.version].live && !excluded(it) && Reachable(excluded, log, since, j, known, log[it.version].parent)
  }

  /** Reading one change more. */
  lemma {:induction false} ReadSnoc(excluded: Item -> bool, log: seq<LogEntry>, since: nat, upTo: nat, known: set<string>)
    requires since <= upTo < |log|
    ensures var page := ReadEntries(excluded, log, since, upTo, known);
            var last := ReadEntry(excluded, log, upTo, page.known);
            ReadEntries(excluded, log, since, upTo + 1, known) ==
            Page(page.items + last.items, last.known, page.skipped + last.skipped)
    decreases upTo - since
  {
    hide ReadEntry;
    var first := ReadEntry(excluded, log, since, known);
    if since < upTo {
      ReadSnoc(excluded, log, since + 1, upTo, first.known);
      var rest := ReadEntries(excluded, log, since + 1, upTo, first.known);
      var last := ReadEntry(excluded, log, upTo, rest.known);
      assert first.items + (rest.items + last.items) == first.items + rest.items + last.items;
      assert first.skipped + (rest.skipped + last.skipped) == first.skipped + rest.skipped + last.skipped;
    } else {
      assert ReadEntries(excluded, log, since + 1, since + 1, first.known) == Page([], first.known, {});
    }
  }

  /** The cache after reading is what is reachable. */
  lemma {:induction false} KnownIffReachable(excluded: Item -> bool, log: seq<LogEntry>, since: nat, upTo: nat, known: set<string>, folder: string)
    requires since <= upTo <= |log|
    ensures folder == "" || folder in ReadEntries(excluded, log, since, upTo, known).known <==>
            Reachable(excluded, log, since, upTo, known, folder)
    decreases upTo
  {
    if since < upTo {
      var j := upTo - 1;
      var it := Item(log[j].id, Newest(log, log[j].id).value);
      ReadSnoc(excluded, log, since, j, known);
      KnownIffReachable(excluded, log, since, j, known, folder);
      KnownIffReachable(excluded, log, since, j, known, log[it.version].parent);
      hide ReadEntries;
      ReachableSnoc(excluded, log, since, j, known, folder);
    }
  }

  lemma ReachableSnoc(excluded: Item -> bool, log: seq<LogEntry>, since: nat, j: nat, known: set<string>, folder: string)
    requires since <= j < |log|
    ensures Reachable(excluded, log, since, j + 1, known, folder) <==>
            Reachable(excluded, log, since, j, known, folder) || (log[j].id == folder && Caches(excluded, log, since, j, known))
  {
    hide Caches;
  }

  lemma ReachableLater(excluded: Item -> bool, log: seq<LogEntry>, since: nat, i: nat, j: nat, known: set<string>, folder: string)
    requires since <= i <= j <= |log| && Reachable(excluded, log, since, i, known, folder)
    ensures Reachable(excluded, log, since, j, known, folder)
  {
    hide Caches;
  }

  /** Before its newest change is read, an object is handed on only if its
      parent is reachable by then. */
  lemma {:induction false} HandedEarlier(excluded: Item -> bool, log: seq<LogEntry>, since: nat, upTo: nat, known: set<string>, it: Item)
    requires since <= upTo <= |log| && it in ReadEntries(excluded, log, since, upTo, known).items
    ensures it.version < |log| && Reachable(excluded, log, since, upTo, known, log[it.version].parent)
    decreases upTo
  {
    if since < upTo {
      var j := upTo - 1;
      ReadSnoc(excluded, log, since, j, known);
      if it in ReadEntries(excluded, log, since, j, known).items {
        HandedEarlier(excluded, log, since, j, known, it);
        ReachableLater(excluded, log, since, j, upTo, known, log[it.version].parent);
      } else {
        KnownIffReachable(excluded, log, since, j, known, log[it.version].parent);
        hide ReadEntries;
        assert it in ReadEntry(excluded, log, j, ReadEntries(excluded, log, since, j, known).known).items;
        ReachableLater(excluded, log, since, j, upTo, known, log[it.version].parent);
      }
    }
  }

  /** A page hands an existing object in its newest state on if and only if the
      path of its parent is known by the time that change is read, and skips it
      otherwise. */
  lemma {:induction false} HandedIffReachable(excluded: Item -> bool, log: seq<LogEntry>, since: nat, upTo: nat, known: set<string>, i: nat)
    requires since <= i < upTo <= |log| && Newest(log, log[i].id) == Some(i) && log[i].live && !excluded(Item(log[i].id, i))
    ensures var page := ReadEntries(excluded, log, since, upTo, known);
            && (Item(log[i].id, i) in page.items <==> Reachable(excluded, log, since, i, known, log[i].parent))
            && (!Reachable(excluded, log, since, i, known, log[i].parent) ==> Item(log[i].id, i) in page.skipped)
    decreases upTo
  {
    var j := upTo - 1;
    var it := Item(log[i].id, i);
    ReadSnoc(excluded, log, since, j, known);
    if i < j {
      HandedIffReachable(excluded, log, since, j, known, i);
      hide ReadEntries;
      assert log[j].id != it.id;
    } else {
      KnownIffReachable(excluded, log, since, i, known, log[i].parent);
      if it in ReadEntries(excluded, log, since, i, known).items {
        HandedEarlier(excluded, log, since, i, known, it);
      }
    }
  }

  /** One undisturbed poll from a stored position: everything that changed since
      is read, handed on and passed. */
  lemma OnePoll(excluded: Item -> bool, s: State) returns (evs: seq<Event>)
    requires s.phase.Idle? && s.token.Real? && s.token.pos <= |s.log|
    ensures EnabledRun(excluded, s, evs)
    ensures var t, page := Run(excluded, s, evs), ReadEntries(excluded, s.log, s.token.pos, |s.log|, s.known);
            && t.phase.Idle? && t.log == s.log && t.token == Real(|s.log|)
            && t.skipped == s.skipped + page.skipped
            && forall it :: it in t.handed <==> it in s.handed || it in page.items
  {
    var end := |s.log|;
    var polling := Next(excluded, s, Resume);
    var read := Next(excluded, polling, ReadPage(end));
    var handing := Next(excluded, read, PollDone);
    hide ReadEntries;
    evs := HandsAll(excluded, handing);
    var page := ReadEntries(excluded, s.log, s.token.pos, end, s.known);
    assert handing.phase.items == [] + page.items && handing.phase.items[0..] == page.items;
    RunFirst(excluded, read, PollDone, evs);
    RunFirst(excluded, polling, ReadPage(end), [PollDone] + evs);
    RunFirst(excluded, s, Resume, [ReadPage(end)] + ([PollDone] + evs));
    evs := [Resume] + ([ReadPage(end)] + ([PollDone] + evs));
  }

  /** What a restart costs, exactly. The token survives it and the cache does
      not. After the next undisturbed poll the token has passed everything, and
      of the objects that changed since, those have been handed on that had been
      before, or whose parent is the sync root, or whose parent folder the poll
      itself reports earlier, with its own parent known in the same way. All
      others are skipped. */
  lemma RestartHandsExactly(excluded: Item -> bool, s: State) returns (evs: seq<Event>)
    requires s.phase.Idle? && s.token.Real? && s.token.pos <= |s.log|
    ensures EnabledRun(excluded, s, [Crash] + evs)
    ensures var t := Run(excluded, s, [Crash] + evs);
            && t.phase.Idle? && t.log == s.log && t.token == Real(|s.log|)
            && forall i :: HasChanged(excluded, s, i) ==>
                 && (Item(s.log[i].id, i) in t.handed <==> Item(s.log[i].id, i) in s.handed || KnownAfterRestart(excluded, s, i))
                 && (!KnownAfterRestart(excluded, s, i) ==> Item(s.log[i].id, i) in t.skipped)
  {
    var crashed := Next(excluded, s, Crash);
    evs := OnePoll(excluded, crashed);
    RunFirst(excluded, s, Crash, evs);
    hide ReadEntries, Newest, Run, EnabledRun, Reachable;
    forall i | HasChanged(excluded, s, i)
      ensures Item(s.log[i].id, i) in ReadEntries(excluded, s.log, s.token.pos, |s.log|, {}).items <==> KnownAfterRestart(excluded, s, i)
      ensures !KnownAfterRestart(excluded, s, i) ==> Item(s.log[i].id, i) in ReadEntries(excluded, s.log, s.token.pos, |s.log|, {}).skipped
    {
      HandedIffReachable(excluded, s.log, s.token.pos, |s.log|, {}, i);
    }
  }

  /** An object that exists, is not excluded, and last changed at i, after the
      stored position. */
  predicate HasChanged(excluded: Item -> bool, s: State, i: int) {
    && s.token.Real? && s.token.pos <= i < |s.log|
    && Newest(s.log, s.log[i].id) == Some(i) && s.log[i].live && !excluded(Item(s.log[i].id, i))
  }

  predicate KnownAfterRestart(excluded: Item -> bool, s: State, i: int)
    requires HasChanged(excluded, s, i)
  {
    Reachable(excluded, s.log, s.token.pos, i, {}, s.log[i].parent)
  }
}
