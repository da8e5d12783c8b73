/**
 * The Drive client behind the pull loop: the full recursive walk, the cache
 * from file and folder ids to paths that it fills, and the translation of
 * incremental changes through that cache (homedrive/internal/rcloneclient:
 * rclonefs.go, driveapi.go, idpathcache.go). The remote's answers are inputs.
 */
module Drive {
  import opened Text
  import opened Pull
  import opened Puller

  /** What the remote holds, in the order it lists it. Names may repeat under
      one folder; ids may not. */
  datatype Node =
    | File(id: string, name: string, modTime: int, md5: string)
    | Dir(id: string, name: string, children: seq<Node>)

  /** One listed or changed object, with its id. */
  datatype Item = Item(id: string, change: Change)

  type Cache = map<string, string>

  /** path.Join of a clean folder path and a name. */
  function Child(dir: string, name: string): string {
    if dir == "" then name else dir + "/" + name
  }

  function FileItem(n: Node, path: string): Item
    requires n.File?
  {
    Item(n.id, FileChange(path, n.modTime, n.md5))
  }

  function Put(cache: Cache, id: string, path: string): Cache {
    if id == "" then cache else cache[id := path]
  }

  function Get(cache: Cache, id: string): Option<string> {
    if id == "" || id !in cache then None else Some(cache[id])
  }

  // ---------------------------------------------------------------------
  // The walk
  // ---------------------------------------------------------------------

  /** What the walk lists below dir, whose entries are nodes. */
  function Listing(excluded: string -> bool, dir: string, nodes: seq<Node>): seq<Item>
    decreases nodes
  {
    if nodes == [] then [] else EntryListing(excluded, dir, nodes[0]) + Listing(excluded, dir, nodes[1..])
  }

  function EntryListing(excluded: string -> bool, dir: string, n: Node): seq<Item>
    decreases n
  {
    var p := Child(dir, n.name);
    if excluded(p) then []
    else match n
      case File(_, _, _, _) => [FileItem(n, p)]
      case Dir(_, _, children) => Listing(excluded, p, children)
  }

  /** The cache after the walk of dir. A folder is cached even if excluded, an
      excluded file is not. */
  function Cached(excluded: string -> bool, dir: string, nodes: seq<Node>, cache: Cache): Cache
    decreases nodes
  {
    if nodes == [] then cache else Cached(excluded, dir, nodes[1..], EntryCached(excluded, dir, nodes[0], cache))
  }

  function EntryCached(excluded: string -> bool, dir: string, n: Node, cache: Cache): Cache
    decreases n
  {
    var p := Child(dir, n.name);
    match n
    case File(id, _, _, _) => if excluded(p) then cache else Put(cache, id, p)
    case Dir(id, _, children) =>
      if excluded(p) then Put(cache, id, p) else Cached(excluded, p, children, Put(cache, id, p))
  }

  /** No folder that the walk has to list is broken. */
  predicate Listable(excluded: string -> bool, broken: set<string>, dir: string, nodes: seq<Node>) {
    dir !in broken && EntriesListable(excluded, broken, dir, nodes)
  }

  predicate EntriesListable(excluded: string -> bool, broken: set<string>, dir: string, nodes: seq<Node>)
    decreases nodes
  {
    nodes != [] ==> EntryListable(excluded, broken, dir, nodes[0]) && EntriesListable(excluded, broken, dir, nodes[1..])
  }

  predicate EntryListable(excluded: string -> bool, broken: set<string>, dir: string, n: Node)
    decreases n
  {
    var p := Child(dir, n.name);
    n.Dir? && !excluded(p) ==> p !in broken && EntriesListable(excluded, broken, p, n.children)
  }

  // ---------------------------------------------------------------------
  // An independent view of the tree: trails from the root to a node
  // ---------------------------------------------------------------------

  ghost predicate IsTrail(nodes: seq<Node>, trail: seq<Node>) {
    && trail != [] && trail[0] in nodes
    && (|trail| > 1 ==> trail[0].Dir? && IsTrail(trail[0].children, trail[1..]))
  }

  function TrailPath(dir: string, trail: seq<Node>): string
    requires trail != []
    decreases trail
  {
    var p := Child(dir, trail[0].name);
    if |trail| == 1 then p else TrailPath(p, trail[1..])
  }

  function NamesJoined(trail: seq<Node>): string
    requires trail != []
  {
    if |trail| == 1 then trail[0].name else trail[0].name + "/" + NamesJoined(trail[1..])
  }

  /** A path is the names on the way, with slashes between them. */
  lemma {:induction false} PathIsNames(dir: string, trail: seq<Node>)
    requires trail != [] && forall n :: n in trail ==> n.name != ""
    ensures TrailPath(dir, trail) == (if dir == "" then "" else dir + "/") + NamesJoined(trail)
    decreases trail
  {
    if |trail| > 1 {
      var name, rest := trail[0].name, NamesJoined(trail[1..]);
      PathIsNames(Child(dir, name), trail[1..]);
      assert dir + "/" + name + "/" + rest == dir + "/" + (name + "/" + rest);
    }
  }

  /** No folder above the last node of the trail is excluded. */
  ghost predicate Reached(excluded: string -> bool, dir: string, trail: seq<Node>)
    requires trail != []
    decreases trail
  {
    |trail| > 1 ==>
      var p := Child(dir, trail[0].name);
      !excluded(p) && Reached(excluded, p, trail[1..])
  }

  function Last(trail: seq<Node>): Node
    requires trail != []
  {
    trail[|trail| - 1]
  }

  ghost predicate Lists(excluded: string -> bool, dir: string, nodes: seq<Node>, trail: seq<Node>) {
    IsTrail(nodes, trail) && Reached(excluded, dir, trail) && Last(trail).File? && !excluded(TrailPath(dir, trail))
  }

  /** Every file that is not excluded and lies below no excluded folder is
      listed, at its true path. */
  lemma {:induction false} EveryFileListed(excluded: string -> bool, dir: string, nodes: seq<Node>, trail: seq<Node>)
    requires Lists(excluded, dir, nodes, trail)
    ensures var n := Last(trail);
            Item(n.id, FileChange(TrailPath(dir, trail), n.modTime, n.md5)) in Listing(excluded, dir, nodes)
    decreases nodes
  {
    var it := FileItem(Last(trail), TrailPath(dir, trail));
    if trail[0] == nodes[0] {
      var p := Child(dir, nodes[0].name);
      if |trail| > 1 {
        EveryFileListed(excluded, p, nodes[0].children, trail[1..]);
      }
    } else {
      assert trail[0] in nodes[1..];
      EveryFileListed(excluded, dir, nodes[1..], trail);
    }
  }

  lemma TrailDown(excluded: string -> bool, dir: string, nodes: seq<Node>, below: seq<Node>)
    requires nodes != [] && nodes[0].Dir? && !excluded(Child(dir, nodes[0].name))
    requires Lists(excluded, Child(dir, nodes[0].name), nodes[0].children, below)
    ensures Lists(excluded, dir, nodes, [nodes[0]] + below)
    ensures Last([nodes[0]] + below) == Last(below)
    ensures TrailPath(dir, [nodes[0]] + below) == TrailPath(Child(dir, nodes[0].name), below)
  {
    assert ([nodes[0]] + below)[1..] == below;
  }

  /** Nothing else is listed. */
  lemma {:induction false} OnlyFilesListed(excluded: string -> bool, dir: string, nodes: seq<Node>, it: Item)
    returns (trail: seq<Node>)
    requires it in Listing(excluded, dir, nodes)
    ensures Lists(excluded, dir, nodes, trail)
    ensures it == Item(Last(trail).id, FileChange(TrailPath(dir, trail), Last(trail).modTime, Last(trail).md5))
    decreases nodes
  {
    var n, p := nodes[0], Child(dir, nodes[0].name);
    if it in Listing(excluded, dir, nodes[1..]) {
      trail := OnlyFilesListed(excluded, dir, nodes[1..], it);
      assert trail[0] in nodes;
    } else if n.File? {
      trail := [n];
    } else {
      assert it in Listing(excluded, p, n.children);
      trail := OnlyFilesListed(excluded, p, n.children, it);
      hide Listing;
      TrailDown(excluded, dir, nodes, trail);
      trail := [n] + trail;
    }
  }

  /** The walk has to list the folder at the end of the trail, and cannot. */
  ghost predicate Breaks(excluded: string -> bool, broken: set<string>, dir: string, nodes: seq<Node>, trail: seq<Node>) {
    && IsTrail(nodes, trail) && Reached(excluded, dir, trail) && Last(trail).Dir?
    && !excluded(TrailPath(dir, trail)) && TrailPath(dir, trail) in broken
  }

  lemma {:induction false} BrokenFails(excluded: string -> bool, broken: set<string>, dir: string, nodes: seq<Node>, trail: seq<Node>)
    requires Breaks(excluded, broken, dir, nodes, trail)
    ensures !EntriesListable(excluded, broken, dir, nodes)
    decreases nodes
  {
    if trail[0] != nodes[0] {
      assert trail[0] in nodes[1..];
      BrokenFails(excluded, broken, dir, nodes[1..], trail);
    } else if |trail| > 1 {
      BrokenFails(excluded, broken, Child(dir, nodes[0].name), nodes[0].children, trail[1..]);
    }
  }

  lemma {:induction false} FailureIsBroken(excluded: string -> bool, broken: set<string>, dir: string, nodes: seq<Node>)
    returns (trail: seq<Node>)
    requires !EntriesListable(excluded, broken, dir, nodes)
    ensures Breaks(excluded, broken, dir, nodes, trail)
    decreases nodes
  {
    var n, p := nodes[0], Child(dir, nodes[0].name);
    if EntryListable(excluded, broken, dir, n) {
      trail := FailureIsBroken(excluded, broken, dir, nodes[1..]);
      assert trail[0] in nodes;
    } else if p in broken {
      trail := [n];
    } else {
      var below := FailureIsBroken(excluded, broken, p, n.children);
      trail := [n] + below;
      assert trail[1..] == below;
    }
  }

  /** A walk fails if and only if it meets a folder that cannot be listed: the
      one it starts at, or one that is not excluded and lies below no excluded
      folder. */
  lemma ListableIff(excluded: string -> bool, broken: set<string>, dir: string, nodes: seq<Node>)
    ensures Listable(excluded, broken, dir, nodes) <==>
            dir !in broken && forall trail :: !Breaks(excluded, broken, dir, nodes, trail)
  {
    forall trail | Breaks(excluded, broken, dir, nodes, trail)
      ensures !EntriesListable(excluded, broken, dir, nodes)
    {
      BrokenFails(excluded, broken, dir, nodes, trail);
    }
    if !EntriesListable(excluded, broken, dir, nodes) {
      var trail := FailureIsBroken(excluded, broken, dir, nodes);
    }
  }

  function Ids(nodes: seq<Node>): set<string> {
    if nodes == [] then {} else IdsIn(nodes[0]) + Ids(nodes[1..])
  }

  function IdsIn(n: Node): set<string> {
    {n.id} + if n.Dir? then Ids(n.children) else {}
  }

  /** No id occurs twice, and none is empty. */
  predicate DistinctIds(nodes: seq<Node>) {
    nodes != [] ==>
      && nodes[0].id != ""
      && (nodes[0].Dir? ==> nodes[0].id !in Ids(nodes[0].children) && DistinctIds(nodes[0].children))
      && IdsIn(nodes[0]) !! Ids(nodes[1..])
      && DistinctIds(nodes[1..])
  }

  lemma {:induction false} IdOfNode(nodes: seq<Node>, n: Node)
    requires n in nodes
    ensures IdsIn(n) <= Ids(nodes)
  {
    if n != nodes[0] {
      IdOfNode(nodes[1..], n);
    }
  }

  lemma {:induction false} IdOfTrail(nodes: seq<Node>, trail: seq<Node>)
    requires IsTrail(nodes, trail)
    ensures Last(trail).id in Ids(nodes)
    decreases trail
  {
    IdOfNode(nodes, trail[0]);
    if |trail| > 1 {
      IdOfTrail(trail[0].children, trail[1..]);
    }
  }

  lemma {:induction false} IdOfItem(excluded: string -> bool, dir: string, nodes: seq<Node>)
    ensures forall it :: it in Listing(excluded, dir, nodes) ==> it.id in Ids(nodes)
    decreases nodes
  {
    if nodes != [] {
      IdOfItem(excluded, dir, nodes[1..]);
      if nodes[0].Dir? {
        IdOfItem(excluded, Child(dir, nodes[0].name), nodes[0].children);
      }
    }
  }

  ghost predicate Unique(items: seq<Item>) {
    forall i, j :: 0 <= i < j < |items| ==> items[i].id != items[j].id
  }

  lemma UniqueConcat(a: seq<Item>, b: seq<Item>, ids: set<string>)
    requires Unique(a) && Unique(b)
    requires forall it :: it in a ==> it.id in ids
    requires forall it :: it in b ==> it.id !in ids
    ensures Unique(a + b)
  {
  }

  /** No file is listed twice. */
  lemma {:induction false} ListedOnce(excluded: string -> bool, dir: string, nodes: seq<Node>)
    requires DistinctIds(nodes)
    ensures Unique(Listing(excluded, dir, nodes))
    decreases nodes
  {
    if nodes != [] {
      var p := Child(dir, nodes[0].name);
      var rest := Listing(excluded, dir, nodes[1..]);
      ListedOnce(excluded, dir, nodes[1..]);
      IdOfItem(excluded, dir, nodes[1..]);
      if !excluded(p) {
        if nodes[0].File? {
          UniqueConcat([FileItem(nodes[0], p)], rest, IdsIn(nodes[0]));
        } else {
          ListedOnce(excluded, p, nodes[0].children);
          IdOfItem(excluded, p, nodes[0].children);
          UniqueConcat(Listing(excluded, p, nodes[0].children), rest, IdsIn(nodes[0]));
        }
      }
    }
  }

  // ---------------------------------------------------------------------
  // What the cache knows after a walk
  // ---------------------------------------------------------------------

  /** A walk touches only the ids below it. */
  lemma {:induction false} CachedElsewhere(excluded: string -> bool, dir: string, nodes: seq<Node>, cache: Cache, id: string)
    requires id !in Ids(nodes)
    ensures Get(Cached(excluded, dir, nodes, cache), id) == Get(cache, id)
    decreases nodes
  {
    if nodes != [] {
      var p := Child(dir, nodes[0].name);
      var here := EntryCached(excluded, dir, nodes[0], cache);
      if nodes[0].Dir? && !excluded(p) {
        CachedElsewhere(excluded, p, nodes[0].children, Put(cache, nodes[0].id, p), id);
      }
      CachedElsewhere(excluded, dir, nodes[1..], here, id);
    }
  }

  /** What the walk visits: folders it reaches, and the files it lists. */
  ghost predicate Visits(excluded: string -> bool, dir: string, nodes: seq<Node>, trail: seq<Node>) {
    && IsTrail(nodes, trail) && Reached(excluded, dir, trail)
    && (Last(trail).File? ==> !excluded(TrailPath(dir, trail)))
  }

  /** After the walk, every visited folder and every listed file is cached at
      its true path. */
  lemma {:induction false} VisitedCached(excluded: string -> bool, dir: string, nodes: seq<Node>, cache: Cache, trail: seq<Node>)
    requires DistinctIds(nodes) && Visits(excluded, dir, nodes, trail)
    ensures Get(Cached(excluded, dir, nodes, cache), Last(trail).id) == Some(TrailPath(dir, trail))
    decreases nodes
  {
    var p := Child(dir, nodes[0].name);
    var here := EntryCached(excluded, dir, nodes[0], cache);
    if trail[0] == nodes[0] {
      if |trail| == 1 {
        if nodes[0].Dir? && !excluded(p) {
          CachedElsewhere(excluded, p, nodes[0].children, Put(cache, nodes[0].id, p), nodes[0].id);
        }
        CachedElsewhere(excluded, dir, nodes[1..], here, nodes[0].id);
      } else {
        VisitedCached(excluded, p, nodes[0].children, Put(cache, nodes[0].id, p), trail[1..]);
        IdOfTrail(nodes[0].children, trail[1..]);
        CachedElsewhere(excluded, dir, nodes[1..], here, Last(trail).id);
      }
    } else {
      assert trail[0] in nodes[1..];
      VisitedCached(excluded, dir, nodes[1..], here, trail);
    }
  }

  // ---------------------------------------------------------------------
  // Incremental changes
  // ---------------------------------------------------------------------

  /** One entry of changes.list. */
  datatype DriveChange =
    | Removed(id: string)
    | Touched(id: string, name: string, parents: seq<string>, trashed: bool, folder: bool, modTime: int, md5: string)

  /** Where a touched object lies, through its first parent. */
  function ResolveChangePath(cache: Cache, name: string, parents: seq<string>): Option<string> {
    if parents == [] then Some(name)
    else match Get(cache, parents[0])
      case None => None
      case Some(parent) => Some(Child(parent, name))
  }

  datatype Translation = Translation(items: seq<Item>, cache: Cache)

  /** Skips what cannot be resolved and what is excluded. */
  function TranslateChange(excluded: string -> bool, cache: Cache, c: DriveChange): Translation {
    match c
    case Removed(id) =>
      (match Get(cache, id)
       case None => Translation([], cache)
       case Some(p) => Translation(if excluded(p) then [] else [Item(id, Deleted(p))], cache))
    case Touched(id, name, parents, trashed, folder, modTime, md5) =>
      (match ResolveChangePath(cache, name, parents)
       case None => Translation([], cache)
       case Some(p) =>
         if excluded(p) then Translation([], cache)
         else if trashed then Translation([Item(id, Deleted(p))], cache)
         else Translation([Item(id, if folder then DirChange(p) else FileChange(p, modTime, md5))], Put(cache, id, p)))
  }

  function TranslateAll(excluded: string -> bool, cache: Cache, cs: seq<DriveChange>): Translation
    decreases |cs|
  {
    if cs == [] then Translation([], cache)
    else
      var first := TranslateChange(excluded, cache, cs[0]);
      var rest := TranslateAll(excluded, first.cache, cs[1..]);
      Translation(first.items + rest.items, rest.cache)
  }

  function Then(first: Translation, rest: Translation): Translation {
    Translation(first.items + rest.items, rest.cache)
  }

  lemma ThenAssociates(a: Translation, b: Translation, c: Translation)
    ensures Then(Then(a, b), c) == Then(a, Then(b, c))
  {
    assert a.items + b.items + c.items == a.items + (b.items + c.items);
  }

  /** Where one batch of changes ends and the next begins makes no difference. */
  lemma {:induction false} TranslateConcat(excluded: string -> bool, cache: Cache, a: seq<DriveChange>, b: seq<DriveChange>)
    ensures var first := TranslateAll(excluded, cache, a);
            TranslateAll(excluded, cache, a + b) == Then(first, TranslateAll(excluded, first.cache, b))
    decreases |a|
  {
    hide TranslateChange;
    if a == [] {
      assert a + b == b;
    } else {
      var one := TranslateChange(excluded, cache, a[0]);
      var more := TranslateAll(excluded, one.cache, a[1..]);
      TranslateCons(excluded, cache, a);
      TranslateCons(excluded, cache, a + b);
      hide TranslateAll, Then;
      assert (a + b)[0] == a[0] && (a + b)[1..] == a[1..] + b;
      TranslateConcat(excluded, one.cache, a[1..], b);
      ThenAssociates(one, more, TranslateAll(excluded, more.cache, b));
      ThenCache(one, more);
    }
  }

  lemma ThenCache(first: Translation, rest: Translation)
    ensures Then(first, rest).cache == rest.cache
  {
  }

  lemma TranslateCons(excluded: string -> bool, cache: Cache, cs: seq<DriveChange>)
    requires cs != []
    ensures var first := TranslateChange(excluded, cache, cs[0]);
            TranslateAll(excluded, cache, cs) == Then(first, TranslateAll(excluded, first.cache, cs[1..]))
  {
  }

  /** Changes to other objects leave an id where it was. */
  lemma {:induction false} UntouchedStays(excluded: string -> bool, cache: Cache, cs: seq<DriveChange>, id: string)
    requires forall c :: c in cs ==> c.id != id
    ensures Get(TranslateAll(excluded, cache, cs).cache, id) == Get(cache, id)
    decreases |cs|
  {
    if cs != [] {
      UntouchedStays(excluded, TranslateChange(excluded, cache, cs[0]).cache, cs[1..], id);
    }
  }

  lemma {:induction false} TrailExtend(dir: string, trail: seq<Node>, n: Node)
    requires trail != []
    requires forall m :: m in trail ==> m.name != ""
    ensures TrailPath(dir, trail + [n]) == Child(TrailPath(dir, trail), n.name)
    ensures TrailPath(dir, trail) != ""
    decreases trail
  {
    assert (trail + [n])[1..] == trail[1..] + [n];
    if |trail| > 1 {
      TrailExtend(Child(dir, trail[0].name), trail[1..], n);
    }
  }

  lemma ChildInjective(d: string, e: string, name: string)
    ensures Child(d, name) == Child(e, name) <==> d == e
  {
    if d != "" && e != "" && Child(d, name) == Child(e, name) {
      assert Child(d, name)[..|d|] == d && Child(e, name)[..|e|] == e;
    }
  }

  // ---------------------------------------------------------------------
  // A change says what a walk would have said
  // ---------------------------------------------------------------------

  /** How the remote reports an object of the tree as it is. */
  function Report(n: Node, parent: string): DriveChange {
    match n
    case File(id, name, modTime, md5) => Touched(id, name, [parent], false, false, modTime, md5)
    case Dir(id, name, _) => Touched(id, name, [parent], false, true, 0, "")
  }

  /** A file reported in a folder at dir is handed on as the walk of dir would
      list it, and cached alike. */
  lemma FileAsWalked(excluded: string -> bool, cache: Cache, n: Node, parent: string, dir: string)
    requires n.File? && Get(cache, parent) == Some(dir)
    ensures var t := TranslateChange(excluded, cache, Report(n, parent));
            && t.items == Listing(excluded, dir, [n]) && t.cache == Cached(excluded, dir, [n], cache)
            && (!excluded(Child(dir, n.name)) ==> t.items == [Item(n.id, FileChange(Child(dir, n.name), n.modTime, n.md5))])
  {
    assert [n][1..] == [];
    assert Listing(excluded, dir, []) == [];
    assert Cached(excluded, dir, [], EntryCached(excluded, dir, n, cache)) == EntryCached(excluded, dir, n, cache);
  }

  /** A folder is handed on as a folder, and cached unless it is excluded. */
  lemma FolderAsFolder(excluded: string -> bool, cache: Cache, n: Node, parent: string, dir: string)
    requires n.Dir? && Get(cache, parent) == Some(dir)
    ensures var t, p := TranslateChange(excluded, cache, Report(n, parent)), Child(dir, n.name);
            if excluded(p) then t.items == [] && t.cache == cache
            else t.items == [Item(n.id, DirChange(p))] && t.cache == Put(cache, n.id, p)
  {
  }

  /** What is in the trash is a deletion at its place, what is gone one at the
      place it was cached at. Neither changes the cache, and neither is handed
      on if that place is excluded or unknown. */
  lemma GoneAsDeleted(excluded: string -> bool, cache: Cache, c: DriveChange, p: string)
    requires c.Removed? || c.trashed
    requires if c.Removed? then Get(cache, c.id) == Some(p)
             else c.parents != [] && exists dir :: Get(cache, c.parents[0]) == Some(dir) && p == Child(dir, c.name)
    ensures TranslateChange(excluded, cache, c) == Translation(if excluded(p) then [] else [Item(c.id, Deleted(p))], cache)
  {
  }

  lemma UnknownIsSkipped(excluded: string -> bool, cache: Cache, c: DriveChange)
    requires if c.Removed? then Get(cache, c.id).None? else c.parents != [] && Get(cache, c.parents[0]).None?
    ensures TranslateChange(excluded, cache, c) == Translation([], cache)
  {
  }

  /** A report of a whole tree, each folder before what is in it. */
  function ReportAll(nodes: seq<Node>, parent: string): seq<DriveChange> {
    if nodes == [] then [] else ReportOne(nodes[0], parent) + ReportAll(nodes[1..], parent)
  }

  function ReportOne(n: Node, parent: string): seq<DriveChange> {
    [Report(n, parent)] + if n.Dir? then ReportAll(n.children, n.id) else []
  }

  function FilesOf(items: seq<Item>): seq<Item> {
    if items == [] then []
    else (if items[0].change.FileChange? then [items[0]] else []) + FilesOf(items[1..])
  }

  lemma {:induction false} FilesConcat(a: seq<Item>, b: seq<Item>)
    ensures FilesOf(a + b) == FilesOf(a) + FilesOf(b)
  {
    if a == [] {
      assert a + b == b;
    } else {
      assert (a + b)[0] == a[0] && (a + b)[1..] == a[1..] + b;
      FilesConcat(a[1..], b);
      var first := if a[0].change.FileChange? then [a[0]] else [];
      assert first + (FilesOf(a[1..]) + FilesOf(b)) == first + FilesOf(a[1..]) + FilesOf(b);
    }
  }

  lemma {:induction false} ReportIds(nodes: seq<Node>, parent: string)
    ensures forall c :: c in ReportAll(nodes, parent) ==> c.id in Ids(nodes)
    decreases nodes
  {
    if nodes != [] {
      ReportIds(nodes[1..], parent);
      if nodes[0].Dir? { ReportIds(nodes[0].children, nodes[0].id); }
    }
  }

  /** Below a folder that is not cached, nothing is handed on. */
  lemma {:induction false} UnknownBelow(excluded: string -> bool, cache: Cache, nodes: seq<Node>, parent: string)
    requires Get(cache, parent).None? && DistinctIds(nodes) && parent !in Ids(nodes)
    requires forall id :: id in Ids(nodes) ==> Get(cache, id).None?
    ensures TranslateAll(excluded, cache, ReportAll(nodes, parent)) == Translation([], cache)
    decreases nodes
  {
    if nodes != [] {
      var n := nodes[0];
      var below := if n.Dir? then ReportAll(n.children, n.id) else [];
      UnknownIsSkipped(excluded, cache, Report(n, parent));
      TranslateConcat(excluded, cache, ReportOne(n, parent), ReportAll(nodes[1..], parent));
      TranslateCons(excluded, cache, ReportOne(n, parent));
      assert ReportOne(n, parent)[1..] == below;
      if n.Dir? {
        UnknownBelow(excluded, cache, n.children, n.id);
      }
      UnknownBelow(excluded, cache, nodes[1..], parent);
    }
  }

  /** What one entry and what is below it yields, and which ids it touches. */
  ghost predicate PolledAs(excluded: string -> bool, dir: string, nodes: seq<Node>, cache: Cache, t: Translation) {
    && FilesOf(t.items) == Listing(excluded, dir, nodes)
    && forall id :: id !in Ids(nodes) ==> Get(t.cache, id) == Get(cache, id)
  }

  lemma OneAsWalked(excluded: string -> bool, dir: string, n: Node, cache: Cache, parent: string)
    requires DistinctIds([n]) && Get(cache, parent) == Some(dir)
    requires forall id :: id in IdsIn(n) ==> Get(cache, id).None?
    requires n.Dir? ==> forall c: Cache :: Get(c, n.id) == Some(Child(dir, n.name)) && (forall id :: id in Ids(n.children) ==> Get(c, id).None?) ==>
      PolledAs(excluded, Child(dir, n.name), n.children, c, TranslateAll(excluded, c, ReportAll(n.children, n.id)))
    ensures var t := TranslateAll(excluded, cache, ReportOne(n, parent));
            && FilesOf(t.items) == EntryListing(excluded, dir, n)
            && forall id :: id !in IdsIn(n) ==> Get(t.cache, id) == Get(cache, id)
  {
    var p := Child(dir, n.name);
    TranslateCons(excluded, cache, ReportOne(n, parent));
    var below := if n.Dir? then ReportAll(n.children, n.id) else [];
    assert ReportOne(n, parent)[1..] == below;
    assert FilesOf([]) == [];
    if n.File? {
      FileAsWalked(excluded, cache, n, parent, dir);
      assert Listing(excluded, dir, [n]) == EntryListing(excluded, dir, n) + Listing(excluded, dir, [n][1..]);
    } else {
      FolderAsFolder(excluded, cache, n, parent, dir);
      if excluded(p) {
        UnknownBelow(excluded, cache, n.children, n.id);
      } else {
        var first := TranslateChange(excluded, cache, Report(n, parent));
        FilesConcat(first.items, TranslateAll(excluded, first.cache, below).items);
      }
    }
  }

  /** A poll that reports every object of a tree once, folders first, to a cache
      that knows the root only, hands on exactly the files that a walk lists, in
      the same order. */
  lemma {:induction false} PollAsWalk(excluded: string -> bool, dir: string, nodes: seq<Node>, cache: Cache, parent: string)
    requires DistinctIds(nodes) && parent !in Ids(nodes) && Get(cache, parent) == Some(dir)
    requires forall id :: id in Ids(nodes) ==> Get(cache, id).None?
    ensures PolledAs(excluded, dir, nodes, cache, TranslateAll(excluded, cache, ReportAll(nodes, parent)))
    decreases nodes
  {
    if nodes != [] {
      var n, rest := nodes[0], nodes[1..];
      assert Ids([n]) == IdsIn(n) && DistinctIds([n]);
      if n.Dir? {
        forall c: Cache | Get(c, n.id) == Some(Child(dir, n.name)) && (forall id :: id in Ids(n.children) ==> Get(c, id).None?)
          ensures PolledAs(excluded, Child(dir, n.name), n.children, c, TranslateAll(excluded, c, ReportAll(n.children, n.id)))
        {
          PollAsWalk(excluded, Child(dir, n.name), n.children, c, n.id);
        }
      }
      OneAsWalked(excluded, dir, n, cache, parent);
      var first := TranslateAll(excluded, cache, ReportOne(n, parent));
      PollAsWalk(excluded, dir, rest, first.cache, parent);
      hide TranslateAll, TranslateChange;
      TranslateConcat(excluded, cache, ReportOne(n, parent), ReportAll(rest, parent));
      FilesConcat(first.items, TranslateAll(excluded, first.cache, ReportAll(rest, parent)).items);
    }
  }

  /** A change to an object in a folder that the walk visited, reported after
      any changes to other objects, resolves to the object's place in the tree
      that was walked: a stale path once a folder above has been renamed, as
      ChildAfterRename says. */
  lemma {:induction false} ChildResolves(excluded: string -> bool, tree: seq<Node>, cache: Cache, cs: seq<DriveChange>, trail: seq<Node>,
      c: Node, others: seq<string>)
    requires DistinctIds(tree) && Visits(excluded, "", tree, trail) && Last(trail).Dir?
    requires forall m :: m in trail ==> m.name != ""
    requires forall d :: d in cs ==> d.id != Last(trail).id
    ensures var known := TranslateAll(excluded, Cached(excluded, "", tree, cache), cs).cache;
            ResolveChangePath(known, c.name, [Last(trail).id] + others) == Some(TrailPath("", trail + [c]))
  {
    var walked := Cached(excluded, "", tree, cache);
    VisitedCached(excluded, "", tree, cache, trail);
    UntouchedStays(excluded, walked, cs, Last(trail).id);
    TrailExtend("", trail, c);
  }

  // ---------------------------------------------------------------------
  // After a folder is renamed
  // ---------------------------------------------------------------------

  /** The tree after the object with the given id is renamed. */
  function RenameNode(n: Node, id: string, name: string): Node {
    var renamed := if n.id == id then name else n.name;
    match n
    case File(i, _, modTime, md5) => File(i, renamed, modTime, md5)
    case Dir(i, _, children) => Dir(i, renamed, RenameAll(children, id, name))
  }

  function RenameAll(nodes: seq<Node>, id: string, name: string): (r: seq<Node>)
    ensures |r| == |nodes| && forall i :: 0 <= i < |nodes| ==> r[i] == RenameNode(nodes[i], id, name)
  {
    if nodes == [] then [] else [RenameNode(nodes[0], id, name)] + RenameAll(nodes[1..], id, name)
  }

  /** A trail through the tree is, renamed, a trail through the renamed tree. */
  lemma {:induction false} TrailRenamed(nodes: seq<Node>, trail: seq<Node>, id: string, name: string)
    requires IsTrail(nodes, trail)
    ensures IsTrail(RenameAll(nodes, id, name), RenameAll(trail, id, name))
    decreases trail
  {
    var i :| 0 <= i < |nodes| && nodes[i] == trail[0];
    assert RenameAll(nodes, id, name)[i] == RenameNode(trail[0], id, name);
    if |trail| > 1 {
      TrailRenamed(trail[0].children, trail[1..], id, name);
    }
  }

  lemma {:induction false} TrailIdsDistinct(nodes: seq<Node>, trail: seq<Node>, i: nat, j: nat)
    requires DistinctIds(nodes) && IsTrail(nodes, trail) && i < j < |trail|
    ensures trail[i].id != trail[j].id
    decreases nodes, |trail|
  {
    if trail[0] == nodes[0] {
      if i == 0 {
        assert trail[..j + 1][1..] == trail[1..][..j];
        TrailPrefix(nodes[0].children, trail[1..], j);
        IdOfTrail(nodes[0].children, trail[1..][..j]);
      } else {
        TrailIdsDistinct(nodes[0].children, trail[1..], i - 1, j - 1);
      }
    } else {
      assert trail[0] in nodes[1..];
      TrailIdsDistinct(nodes[1..], trail, i, j);
    }
  }

  lemma {:induction false} TrailPrefix(nodes: seq<Node>, trail: seq<Node>, n: nat)
    requires IsTrail(nodes, trail) && 0 < n <= |trail|
    ensures IsTrail(nodes, trail[..n])
    decreases trail
  {
    if n > 1 {
      assert trail[..n][1..] == trail[1..][..n - 1];
      TrailPrefix(trail[0].children, trail[1..], n - 1);
    }
  }

  /** Paths are joined from names alone: equal trails of names, equal paths. */
  lemma {:induction false} PathOfNames(dir: string, a: seq<Node>, b: seq<Node>)
    requires a != [] && |a| == |b| && forall i :: 0 <= i < |a| ==> a[i].name == b[i].name
    ensures TrailPath(dir, a) == TrailPath(dir, b)
    decreases a
  {
    if |a| > 1 { PathOfNames(Child(dir, a[0].name), a[1..], b[1..]); }
  }

  /** Below two folders, the same names give the same path only if the folders'
      paths are the same. */
  lemma {:induction false} PathInjective(d: string, e: string, trail: seq<Node>)
    requires trail != [] && TrailPath(d, trail) == TrailPath(e, trail)
    requires forall m :: m in trail ==> m.name != ""
    ensures d == e
    decreases trail
  {
    if |trail| > 1 {
      PathInjective(Child(d, trail[0].name), Child(e, trail[0].name), trail[1..]);
    }
    ChildInjective(d, e, trail[0].name);
  }

  lemma NameInjective(dir: string, x: string, y: string)
    ensures Child(dir, x) == Child(dir, y) <==> x == y
  {
    if dir != "" && Child(dir, x) == Child(dir, y) {
      assert Child(dir, x)[|dir| + 1..] == x && Child(dir, y)[|dir| + 1..] == y;
    }
  }

  /** Renaming one folder of a trail changes the path of what lies in it,
      unless the name is the old one. */
  lemma {:induction false} RenameMovesPath(dir: string, trail: seq<Node>, moved: seq<Node>, i: nat)
    requires i < |trail| == |moved|
    requires forall j :: 0 <= j < |trail| && j != i ==> moved[j].name == trail[j].name
    requires forall m :: m in trail ==> m.name != ""
    ensures TrailPath(dir, moved) == TrailPath(dir, trail) <==> moved[i].name == trail[i].name
    decreases trail
  {
    if moved[i].name == trail[i].name {
      PathOfNames(dir, moved, trail);
    } else if i > 0 {
      RenameMovesPath(Child(dir, trail[0].name), trail[1..], moved[1..], i - 1);
    } else {
      NameInjective(dir, moved[0].name, trail[0].name);
      if |trail| > 1 && TrailPath(dir, moved) == TrailPath(dir, trail) {
        PathOfNames(Child(dir, moved[0].name), moved[1..], trail[1..]);
        PathInjective(Child(dir, moved[0].name), Child(dir, trail[0].name), trail[1..]);
      }
    }
  }

  /** Every folder above a visited node is visited. */
  lemma {:induction false} VisitsPrefix(excluded: string -> bool, dir: string, nodes: seq<Node>, trail: seq<Node>, n: nat)
    requires Visits(excluded, dir, nodes, trail) && 0 < n < |trail|
    ensures Visits(excluded, dir, nodes, trail[..n]) && Last(trail[..n]).Dir?
    decreases trail
  {
    if n > 1 {
      assert trail[..n][1..] == trail[1..][..n - 1];
      VisitsPrefix(excluded, Child(dir, trail[0].name), trail[0].children, trail[1..], n - 1);
    }
  }

  /** The folders of the trail are renamed at i and nowhere else. */
  lemma RenamedNames(tree: seq<Node>, trail: seq<Node>, i: nat, name: string)
    requires DistinctIds(tree) && IsTrail(tree, trail) && i < |trail|
    ensures var moved := RenameAll(trail, trail[i].id, name);
            moved[i].name == name && forall j :: 0 <= j < |trail| && j != i ==> moved[j].name == trail[j].name
  {
    forall j | 0 <= j < |trail| && j != i
      ensures trail[j].id != trail[i].id
    {
      TrailIdsDistinct(tree, trail, if i < j then i else j, if i < j then j else i);
    }
  }

  /** A report that the folder at i was renamed: it names its parent folder on
      the trail or, at the top, nothing or the sync root. */
  predicate ReportsRename(trail: seq<Node>, i: nat, root: string, c: DriveChange)
    requires i < |trail|
  {
    && c.Touched? && c.id == trail[i].id && c.name != "" && !c.trashed
    && (if i == 0 then c.parents == [] || c.parents[0] == root
        else c.parents != [] && c.parents[0] == trail[i - 1].id)
  }

  /** What the cache knows when the rename is reported, after a walk and other
      changes. */
  ghost predicate KnowsTrail(cache: Cache, trail: seq<Node>, root: string) {
    && Get(cache, root) == Some("")
    && forall n :: 0 < n <= |trail| ==> Get(cache, trail[n - 1].id) == Some(TrailPath("", trail[..n]))
  }

  lemma WalkKnowsTrail(excluded: string -> bool, tree: seq<Node>, cache: Cache, root: string, trail: seq<Node>, cs: seq<DriveChange>)
    requires DistinctIds(tree) && Visits(excluded, "", tree, trail) && root != "" && root !in Ids(tree)
    requires forall d :: d in cs ==> d.id != root && forall m :: m in trail ==> d.id != m.id
    ensures KnowsTrail(TranslateAll(excluded, Put(Cached(excluded, "", tree, cache), root, ""), cs).cache, trail, root)
  {
    var walked := Cached(excluded, "", tree, cache);
    var seeded := Put(walked, root, "");
    UntouchedStays(excluded, seeded, cs, root);
    forall n | 0 < n <= |trail|
      ensures Get(TranslateAll(excluded, seeded, cs).cache, trail[n - 1].id) == Some(TrailPath("", trail[..n]))
    {
      if n < |trail| {
        VisitsPrefix(excluded, "", tree, trail, n);
      } else {
        assert trail[..n] == trail;
      }
      VisitedCached(excluded, "", tree, cache, trail[..n]);
      IdOfTrail(tree, trail[..n]);
      UntouchedStays(excluded, seeded, cs, trail[n - 1].id);
    }
  }

  /** The rename resolves to the folder's new path. */
  lemma RenameResolves(cache: Cache, tree: seq<Node>, trail: seq<Node>, i: nat, root: string, c: DriveChange)
    requires DistinctIds(tree) && IsTrail(tree, trail) && i < |trail|
    requires KnowsTrail(cache, trail, root) && ReportsRename(trail, i, root, c)
    requires forall m :: m in trail ==> m.name != ""
    ensures ResolveChangePath(cache, c.name, c.parents) == Some(TrailPath("", RenameAll(trail, c.id, c.name)[..i + 1]))
  {
    var moved := RenameAll(trail, c.id, c.name);
    RenamedNames(tree, trail, i, c.name);
    assert moved[..i + 1] == moved[..i] + [moved[i]];
    if i > 0 {
      TrailExtend("", moved[..i], moved[i]);
      PathOfNames("", moved[..i], trail[..i]);
      assert Get(cache, trail[i - 1].id) == Some(TrailPath("", trail[..i]));
    }
  }

  /** After a reported rename of one folder on the trail to a visited folder,
      among changes to other objects, a change in that visited folder resolves
      to its path in the renamed tree if and only if the name is the old one,
      or the renamed folder is that folder itself and its new path is not
      excluded. Otherwise it resolves to where it lay before: the remote
      reports the folder that moved, not what lies below it. */
  lemma {:induction false} ChildAfterRename(excluded: string -> bool, tree: seq<Node>, cache: Cache, root: string, trail: seq<Node>,
      i: nat, before: seq<DriveChange>, rename: DriveChange, after: seq<DriveChange>, c: Node, others: seq<string>)
    requires DistinctIds(tree) && Visits(excluded, "", tree, trail) && Last(trail).Dir?
    requires forall m :: m in trail ==> m.name != ""
    requires root != "" && root !in Ids(tree) && i < |trail| && ReportsRename(trail, i, root, rename)
    requires forall d :: d in before ==> d.id != root && forall m :: m in trail ==> d.id != m.id
    requires forall d :: d in after ==> d.id != Last(trail).id
    ensures var seeded := Put(Cached(excluded, "", tree, cache), root, "");
            var known := TranslateAll(excluded, seeded, before + ([rename] + after)).cache;
            var path := ResolveChangePath(known, c.name, [Last(trail).id] + others);
            var moved := RenameAll(trail, rename.id, rename.name);
            && IsTrail(RenameAll(tree, rename.id, rename.name), moved)
            && (path == Some(TrailPath("", moved + [c])) <==>
                  rename.name == trail[i].name || (i == |trail| - 1 && !excluded(TrailPath("", moved))))
            && (i < |trail| - 1 ==> path == Some(TrailPath("", trail + [c])))
  {
    var moved := RenameAll(trail, rename.id, rename.name);
    FolderAfterRename(excluded, tree, cache, root, trail, i, before, rename, after);
    TrailRenamed(tree, trail, rename.id, rename.name);
    RenamedNames(tree, trail, i, rename.name);
    RenameMovesPath("", trail, moved, i);
    MovedNamesStay(trail, moved, i);
    hide TranslateAll, Cached, RenameAll, DistinctIds, Visits, TrailPath, IsTrail, ReportsRename;
    TrailExtend("", trail, c);
    TrailExtend("", moved, c);
    ChildInjective(TrailPath("", moved), TrailPath("", trail), c.name);
  }

  lemma MovedNamesStay(trail: seq<Node>, moved: seq<Node>, i: nat)
    requires i < |trail| == |moved| && moved[i].name != ""
    requires forall j :: 0 <= j < |trail| && j != i ==> moved[j].name == trail[j].name
    requires forall m :: m in trail ==> m.name != ""
    ensures forall m :: m in moved ==> m.name != ""
  {
    forall j | 0 <= j < |moved|
      ensures moved[j].name != ""
    {
      assert trail[j] in trail;
    }
  }

  /** What the cache holds for the visited folder in the end. */
  lemma FolderAfterRename(excluded: string -> bool, tree: seq<Node>, cache: Cache, root: string, trail: seq<Node>,
      i: nat, before: seq<DriveChange>, rename: DriveChange, after: seq<DriveChange>)
    requires DistinctIds(tree) && Visits(excluded, "", tree, trail)
    requires forall m :: m in trail ==> m.name != ""
    requires root != "" && root !in Ids(tree) && i < |trail| && ReportsRename(trail, i, root, rename)
    requires forall d :: d in before ==> d.id != root && forall m :: m in trail ==> d.id != m.id
    requires forall d :: d in after ==> d.id != Last(trail).id
    ensures var seeded := Put(Cached(excluded, "", tree, cache), root, "");
            var moved := RenameAll(trail, rename.id, rename.name);
            Get(TranslateAll(excluded, seeded, before + ([rename] + after)).cache, Last(trail).id) ==
            if i == |trail| - 1 && !excluded(TrailPath("", moved)) then Some(TrailPath("", moved)) else Some(TrailPath("", trail))
  {
    var seeded := Put(Cached(excluded, "", tree, cache), root, "");
    var first := TranslateAll(excluded, seeded, before).cache;
    WalkKnowsTrail(excluded, tree, cache, root, trail, before);
    assert IsTrail(tree, trail);
    hide TranslateAll, TranslateChange, Cached, Put, RenameAll, Ids, DistinctIds, Visits, TrailPath, IsTrail, Get;
    RenameResolves(first, tree, trail, i, root, rename);
    assert Get(first, Last(trail).id) == Some(TrailPath("", trail)) by {
      assert trail[..|trail|] == trail;
      assert Get(first, trail[|trail| - 1].id) == Some(TrailPath("", trail[..|trail|]));
    }
    RenameKeepsOthers(excluded, tree, first, trail, i, rename, RenameAll(trail, rename.id, rename.name));
    AfterRename(excluded, seeded, before, rename, after, Last(trail).id);
  }

  /** What is cached for the visited folder after the rename is translated. */
  lemma RenameKeepsOthers(excluded: string -> bool, tree: seq<Node>, cache: Cache, trail: seq<Node>, i: nat, rename: DriveChange, moved: seq<Node>)
    requires DistinctIds(tree) && IsTrail(tree, trail) && i < |trail| == |moved|
    requires rename.Touched? && rename.id == trail[i].id && !rename.trashed
    requires ResolveChangePath(cache, rename.name, rename.parents) == Some(TrailPath("", moved[..i + 1]))
    requires Get(cache, Last(trail).id) == Some(TrailPath("", trail))
    ensures Get(TranslateChange(excluded, cache, rename).cache, Last(trail).id) ==
            if i == |trail| - 1 && !excluded(TrailPath("", moved)) then Some(TrailPath("", moved)) else Some(TrailPath("", trail))
  {
    if i < |trail| - 1 {
      TrailIdsDistinct(tree, trail, i, |trail| - 1);
    } else {
      assert moved[..i + 1] == moved;
    }
  }

  lemma AfterRename(excluded: string -> bool, cache: Cache, before: seq<DriveChange>, rename: DriveChange, after: seq<DriveChange>, id: string)
    requires forall d :: d in after ==> d.id != id
    ensures Get(TranslateAll(excluded, cache, before + ([rename] + after)).cache, id) ==
            Get(TranslateChange(excluded, TranslateAll(excluded, cache, before).cache, rename).cache, id)
  {
    hide TranslateChange;
    var first := TranslateAll(excluded, cache, before).cache;
    TranslateConcat(excluded, cache, before, [rename] + after);
    TranslateCons(excluded, first, [rename] + after);
    assert ([rename] + after)[1..] == after;
    UntouchedStays(excluded, TranslateChange(excluded, first, rename).cache, after, id);
  }

  /** A folder reported before what is put into it makes that resolvable. */
  lemma FolderThenChild(excluded: string -> bool, cache: Cache, f: DriveChange, cs: seq<DriveChange>, name: string, others: seq<string>)
    requires f.Touched? && f.id != "" && !f.trashed
    requires forall d :: d in cs ==> d.id != f.id
    requires ResolveChangePath(cache, f.name, f.parents).Some?
    requires !excluded(ResolveChangePath(cache, f.name, f.parents).value)
    ensures ResolveChangePath(TranslateAll(excluded, cache, [f] + cs).cache, name, [f.id] + others)
         == Some(Child(ResolveChangePath(cache, f.name, f.parents).value, name))
  {
    TranslateCons(excluded, cache, [f] + cs);
    assert ([f] + cs)[1..] == cs;
    UntouchedStays(excluded, TranslateChange(excluded, cache, f).cache, cs, f.id);
  }

  // ---------------------------------------------------------------------
  // Paging
  // ---------------------------------------------------------------------

  /** One answer of changes.list. */
  datatype PageAnswer =
    | Page(changes: seq<DriveChange>, newStart: string, next: string)
    | PageFailed(failure: Failure)

  datatype Reply = Changes(items: seq<Item>, next: string) | Failed(failure: Failure)

  datatype Polled = Polled(reply: Reply, cache: Cache)

  /** Reads pages until the remote reports a new start token or no next page.
      When the answers run out the call is cancelled. */
  function PollPages(excluded: string -> bool, cache: Cache, token: string, pages: seq<PageAnswer>, items: seq<Item>): Polled
    decreases |pages|
  {
    if pages == [] then Polled(Failed(OtherFailure), cache)
    else match pages[0]
      case PageFailed(f) => Polled(Failed(f), cache)
      case Page(cs, newStart, next) =>
        var t := TranslateAll(excluded, cache, cs);
        if newStart != "" then Polled(Changes(items + t.items, newStart), t.cache)
        else if next != "" then PollPages(excluded, t.cache, next, pages[1..], items + t.items)
        else Polled(Changes(items + t.items, token), t.cache)
  }

  /** The changes of a run of pages, in order. */
  function AllChanges(pages: seq<PageAnswer>): seq<DriveChange>
    requires forall p :: p in pages ==> p.Page?
  {
    if pages == [] then [] else pages[0].changes + AllChanges(pages[1..])
  }

  /** How many pages a poll reads. */
  function PagesRead(pages: seq<PageAnswer>): (n: nat)
    ensures n <= |pages|
  {
    if pages == [] || pages[0].PageFailed? || pages[0].newStart != "" || pages[0].next == "" then if pages == [] then 0 else 1
    else 1 + PagesRead(pages[1..])
  }

  /** The token after reading n pages: the last page's new start token or,
      failing that, the one that page was asked with. */
  function TokenAfter(token: string, pages: seq<PageAnswer>, n: nat): string
    requires 0 < n <= |pages| && forall p :: p in pages[..n] ==> p.Page?
  {
    var last := pages[n - 1];
    assert last in pages[..n];
    if last.newStart != "" then last.newStart
    else if n == 1 then token
    else assert pages[n - 2] in pages[..n]; pages[n - 2].next
  }

  ghost predicate ReadsAs(excluded: string -> bool, cache: Cache, token: string, pages: seq<PageAnswer>, n: nat, items: seq<Item>, polled: Polled) {
    && 0 < n <= |pages| && (forall p :: p in pages[..n] ==> p.Page?)
    && var t := TranslateAll(excluded, cache, AllChanges(pages[..n]));
       polled == Polled(Changes(items + t.items, TokenAfter(token, pages, n)), t.cache)
  }

  lemma LastPage(excluded: string -> bool, cache: Cache, token: string, pages: seq<PageAnswer>, items: seq<Item>)
    requires pages != [] && pages[0].Page? && (pages[0].newStart != "" || pages[0].next == "")
    ensures ReadsAs(excluded, cache, token, pages, 1, items, PollPages(excluded, cache, token, pages, items))
  {
    hide TranslateAll;
    assert pages[..1] == [pages[0]] + [];
    AllCons(pages[0], []);
    assert pages[0].changes + [] == pages[0].changes;
  }

  lemma MorePages(excluded: string -> bool, cache: Cache, token: string, pages: seq<PageAnswer>, n: nat, items: seq<Item>, polled: Polled)
    requires pages != [] && pages[0].Page?
    requires var t := TranslateAll(excluded, cache, pages[0].changes);
             ReadsAs(excluded, t.cache, pages[0].next, pages[1..], n, items + t.items, polled)
    ensures ReadsAs(excluded, cache, token, pages, n + 1, items, polled)
  {
    hide TranslateAll, AllChanges;
    var rest := pages[1..];
    var t := TranslateAll(excluded, cache, pages[0].changes);
    assert pages[..n + 1] == [pages[0]] + rest[..n];
    AllCons(pages[0], rest[..n]);
    TranslateConcat(excluded, cache, pages[0].changes, AllChanges(rest[..n]));
    var u := TranslateAll(excluded, t.cache, AllChanges(rest[..n]));
    assert items + t.items + u.items == items + (t.items + u.items);
    assert pages[n] == rest[n - 1];
    assert n > 1 ==> pages[n - 1] == rest[n - 2];
  }

  /** A poll that succeeds yields what its pages' changes yield as one list:
      where the remote cuts pages makes no difference. */
  lemma {:induction false} PagingIsInvisible(excluded: string -> bool, cache: Cache, token: string, pages: seq<PageAnswer>, items: seq<Item>)
    requires PollPages(excluded, cache, token, pages, items).reply.Changes?
    ensures ReadsAs(excluded, cache, token, pages, PagesRead(pages), items, PollPages(excluded, cache, token, pages, items))
    decreases |pages|
  {
    hide ReadsAs, TranslateAll;
    var t := TranslateAll(excluded, cache, pages[0].changes);
    if pages[0].newStart != "" || pages[0].next == "" {
      LastPage(excluded, cache, token, pages, items);
    } else {
      PagingIsInvisible(excluded, t.cache, pages[0].next, pages[1..], items + t.items);
      MorePages(excluded, cache, token, pages, PagesRead(pages[1..]), items, PollPages(excluded, cache, token, pages, items));
    }
  }

  /** The poll goes on to a next page. */
  predicate GoesOn(p: PageAnswer) {
    p.Page? && p.newStart == "" && p.next != ""
  }

  /** A poll that fails has read a run of pages that all had a next one, and
      then met the failure it answers with, or was cancelled. */
  lemma {:induction false} PollFails(excluded: string -> bool, cache: Cache, token: string, pages: seq<PageAnswer>, items: seq<Item>)
    returns (n: nat)
    requires PollPages(excluded, cache, token, pages, items).reply.Failed?
    ensures n <= |pages| && forall i :: 0 <= i < n ==> GoesOn(pages[i])
    ensures n < |pages| ==> pages[n].PageFailed?
    ensures PollPages(excluded, cache, token, pages, items).reply == Failed(if n == |pages| then OtherFailure else pages[n].failure)
    decreases |pages|
  {
    hide TranslateAll;
    if pages == [] || pages[0].PageFailed? {
      n := 0;
    } else {
      var t := TranslateAll(excluded, cache, pages[0].changes);
      var m := PollFails(excluded, t.cache, pages[0].next, pages[1..], items + t.items);
      n := m + 1;
      forall i | 0 <= i < n
        ensures GoesOn(pages[i])
      {
        assert i > 0 ==> pages[i] == pages[1..][i - 1];
      }
    }
  }

  lemma AllCons(p: PageAnswer, rest: seq<PageAnswer>)
    requires p.Page? && forall q :: q in rest ==> q.Page?
    ensures AllChanges([p] + rest) == p.changes + AllChanges(rest)
  {
    assert ([p] + rest)[1..] == rest;
  }

  // ---------------------------------------------------------------------
  // The client
  // ---------------------------------------------------------------------

  const INITIAL_SYNC := "initial_sync:"

  /** How the remote answers during one cycle: its tree, the folders whose
      listing fails, its start token, the id of the sync root, and what
      successive changes.list calls return. */
  datatype Remote = Remote(
    tree: seq<Node>,
    broken: set<string>,
    start: Option<string>,
    root: Option<string>,
    pages: seq<PageAnswer>)

  /** A poll needs the id of the sync root, and caches it. */
  function PollFrom(excluded: string -> bool, cache: Cache, rootId: string, token: string, remote: Remote): Polled {
    if rootId != "" then PollPages(excluded, cache, token, remote.pages, [])
    else match remote.root
      case None => Polled(Failed(OtherFailure), cache)
      case Some(id) => PollPages(excluded, Put(cache, id, ""), token, remote.pages, [])
  }

  lemma FirstEntry(excluded: string -> bool, broken: set<string>, dir: string, nodes: seq<Node>, cache: Cache, items: seq<Item>)
    requires nodes != []
    ensures items + Listing(excluded, dir, nodes) == items + EntryListing(excluded, dir, nodes[0]) + Listing(excluded, dir, nodes[1..])
    ensures Cached(excluded, dir, nodes, cache) == Cached(excluded, dir, nodes[1..], EntryCached(excluded, dir, nodes[0], cache))
    ensures EntriesListable(excluded, broken, dir, nodes)
        <==> EntryListable(excluded, broken, dir, nodes[0]) && EntriesListable(excluded, broken, dir, nodes[1..])
  {
  }

  class DriveClient {
    const excluded: string -> bool
    var pathCache: Cache
    var rootId: string

    constructor (excluded: string -> bool)
      ensures this.excluded == excluded && pathCache == map[] && rootId == ""
    {
      this.excluded, pathCache, rootId := excluded, map[], "";
    }

    method Store(id: string, path: string)
      modifies this`pathCache
      ensures pathCache == Put(old(pathCache), id, path)
    {
      if id == "" {
        return;
      }
      pathCache := pathCache[id := path];
    }

    /** Walks one folder, whose entries are nodes, appending to found. */
    method ListRecursive(dir: string, nodes: seq<Node>, broken: set<string>, found: seq<Item>) returns (ok: bool, items: seq<Item>)
      modifies this`pathCache
      ensures ok == Listable(excluded, broken, dir, nodes)
      ensures ok ==> items == found + Listing(excluded, dir, nodes)
      ensures ok ==> pathCache == Cached(excluded, dir, nodes, old(pathCache))
      decreases nodes
    {
      items := found;
      if dir in broken {
        return false, items;
      }
      ghost var cache := pathCache;
      assert nodes[0..] == nodes;
      assert items + Listing(excluded, dir, nodes) == found + Listing(excluded, dir, nodes);
      var i := 0;
      while i < |nodes|
        invariant i <= |nodes|
        invariant items + Listing(excluded, dir, nodes[i..]) == found + Listing(excluded, dir, nodes)
        invariant Cached(excluded, dir, nodes[i..], pathCache) == Cached(excluded, dir, nodes, cache)
        invariant EntriesListable(excluded, broken, dir, nodes[i..]) == EntriesListable(excluded, broken, dir, nodes)
      {
        ghost var before, sofar := pathCache, items;
        var path := Child(dir, nodes[i].name);
        match nodes[i] {
          case File(id, _, modTime, md5) =>
            if !excluded(path) {
              Store(id, path);
              items := items + [Item(id, FileChange(path, modTime, md5))];
            }
          case Dir(id, _, children) =>
            Store(id, path);
            if !excluded(path) {
              var below;
              below, items := ListRecursive(path, children, broken, items);
              if !below {
                assert !EntryListable(excluded, broken, dir, nodes[i]);
                FirstEntry(excluded, broken, dir, nodes[i..], before, sofar);
                return false, items;
              }
            }
        }
        assert items == sofar + EntryListing(excluded, dir, nodes[i]);
        assert pathCache == EntryCached(excluded, dir, nodes[i], before);
        assert EntryListable(excluded, broken, dir, nodes[i]);
        FirstEntry(excluded, broken, dir, nodes[i..], before, sofar);
        assert nodes[i..][1..] == nodes[i + 1..];
        i := i + 1;
      }
      ok := true;
    }

    /** The walk owed to a start token: its items, and that token to go on
        from. */
    method FullWalkThenResume(resume: string, remote: Remote) returns (reply: Reply)
      modifies this`pathCache
      ensures var walks := (resume != "" || remote.start.Some?) && Listable(excluded, remote.broken, "", remote.tree);
              && (walks ==>
                    && reply == Changes(Listing(excluded, "", remote.tree), if resume != "" then resume else remote.start.value)
                    && pathCache == Cached(excluded, "", remote.tree, old(pathCache)))
              && (!walks ==> reply == Failed(OtherFailure))
    {
      var token := resume;
      if token == "" {
        if remote.start.None? {
          return Failed(OtherFailure);
        }
        token := remote.start.value;
      }
      var ok, items := ListRecursive("", remote.tree, remote.broken, []);
      if !ok {
        return Failed(OtherFailure);
      }
      reply := Changes(items, token);
    }

    /** Caches the sync root's id, once. */
    method EnsureRootId(remote: Remote) returns (ok: bool)
      modifies this
      ensures ok == (old(rootId) != "" || remote.root.Some?)
      ensures ok && old(rootId) == "" ==> rootId == remote.root.value && pathCache == Put(old(pathCache), rootId, "")
      ensures !ok || old(rootId) != "" ==> rootId == old(rootId) && pathCache == old(pathCache)
    {
      if rootId == "" {
        if remote.root.None? {
          return false;
        }
        rootId := remote.root.value;
        Store(rootId, "");
      }
      ok := true;
    }

    method PollChanges(token: string, remote: Remote) returns (reply: Reply)
      modifies this
      ensures Polled(reply, pathCache) == PollFrom(excluded, old(pathCache), old(rootId), token, remote)
    {
      var ok := EnsureRootId(remote);
      if !ok {
        return Failed(OtherFailure);
      }
      ghost var seeded := pathCache;
      var items: seq<Item>, asked, k := [], token, 0;
      while k < |remote.pages|
        invariant k <= |remote.pages|
        invariant PollPages(excluded, pathCache, asked, remote.pages[k..], items) == PollPages(excluded, seeded, token, remote.pages, [])
      {
        assert remote.pages[k..][1..] == remote.pages[k + 1..];
        match remote.pages[k] {
          case PageFailed(failure) =>
            return Failed(failure);
          case Page(changes, newStart, next) =>
            items := TranslatePage(changes, items);
            if newStart != "" {
              return Changes(items, newStart);
            }
            if next == "" {
              return Changes(items, asked);
            }
            asked := next;
        }
        k := k + 1;
      }
      reply := Failed(OtherFailure);
    }

    /** Translates the changes of one page, one by one. */
    method TranslatePage(changes: seq<DriveChange>, found: seq<Item>) returns (items: seq<Item>)
      modifies this`pathCache
      ensures items == found + TranslateAll(excluded, old(pathCache), changes).items
      ensures pathCache == TranslateAll(excluded, old(pathCache), changes).cache
    {
      items := found;
      ghost var cache := pathCache;
      var i := 0;
      while i < |changes|
        invariant i <= |changes|
        invariant Then(Translation(items, pathCache), TranslateAll(excluded, pathCache, changes[i..]))
               == Then(Translation(found, cache), TranslateAll(excluded, cache, changes))
      {
        ghost var done := Translation(items, pathCache);
        ghost var step := TranslateChange(excluded, pathCache, changes[i]);
        ghost var rest := TranslateAll(excluded, step.cache, changes[i + 1..]);
        TranslateCons(excluded, pathCache, changes[i..]);
        assert changes[i..][1..] == changes[i + 1..];
        ThenAssociates(done, step, rest);
        items := Translate(changes[i], items);
        i := i + 1;
      }
    }

    method Translate(c: DriveChange, found: seq<Item>) returns (items: seq<Item>)
      modifies this`pathCache
      ensures items == found + TranslateChange(excluded, old(pathCache), c).items
      ensures pathCache == TranslateChange(excluded, old(pathCache), c).cache
    {
      items := found;
      match c
      case Removed(id) =>
        var known := Get(pathCache, id);
        if known.Some? && !excluded(known.value) {
          items := items + [Item(id, Deleted(known.value))];
        }
      case Touched(id, name, parents, trashed, folder, modTime, md5) =>
        var resolved := ResolveChangePath(pathCache, name, parents);
        if resolved.None? || excluded(resolved.value) {
          return;
        }
        var path := resolved.value;
        if trashed {
          items := items + [Item(id, Deleted(path))];
          return;
        }
        Store(id, path);
        items := items + [Item(id, if folder then DirChange(path) else FileChange(path, modTime, md5))];
    }

    /** A start token, or none, owes a full walk; any other token is polled. */
    method ListChanges(token: string, remote: Remote) returns (reply: Reply)
      modifies this
      ensures WalkDue(token) && (Resume(token) != "" || remote.start.Some?) && Listable(excluded, remote.broken, "", remote.tree) ==>
        && reply == Changes(Listing(excluded, "", remote.tree), if Resume(token) != "" then Resume(token) else remote.start.value)
        && pathCache == Cached(excluded, "", remote.tree, old(pathCache))
      ensures WalkDue(token) && !Listable(excluded, remote.broken, "", remote.tree) ==> reply == Failed(OtherFailure)
      ensures !WalkDue(token) ==> Polled(reply, pathCache) == PollFrom(excluded, old(pathCache), old(rootId), token, remote)
    {
      if token == "" || INITIAL_SYNC <= token {
        reply := FullWalkThenResume(Resume(token), remote);
      } else {
        reply := PollChanges(token, remote);
      }
    }
  }

  predicate WalkDue(token: string) { token == "" || INITIAL_SYNC <= token }

  /** The position a start token resumes from. */
  function Resume(token: string): string {
    if INITIAL_SYNC <= token then token[|INITIAL_SYNC|..] else token
  }

  function ChangesOf(items: seq<Item>): seq<Change> {
    seq(|items|, i requires 0 <= i < |items| => items[i].change)
  }

  function AnswerOf(reply: Reply): Answer {
    match reply
    case Changes(items, next) => Listed(ChangesOf(items), next)
    case Failed(f) => Unlisted(f)
  }

  /** The cycle owes a walk: no token is stored, the stored one is a start
      token, or the remote refuses it. */
  predicate OwesWalk(token: string, poll: Reply) {
    WalkDue(token) || poll == Failed(Gone) || poll == Failed(TokenRejected)
  }

  /** The start token that stands for the owed walk. */
  function Owed(token: string, start: string): string {
    if token != "" && WalkDue(token) then token else INITIAL_SYNC + start
  }

  /** One pull cycle against the remote. A cycle that owes a walk hands on
      exactly the files the walk lists and then stores the position minted
      before that walk. If the walk fails, or the cycle is cancelled before the
      last file, a start token is stored and the walk stays owed. Any other
      cycle hands on exactly what the poll yields, and only then stores the
      position the poll gives; cancelled or failed, it keeps its position. */
  method Cycle(p: Puller, d: DriveClient, remote: Remote, cancelAt: nat) returns (outcome: Outcome)
    modifies p, d
    ensures var token := old(p.pageToken);
            var poll := PollFrom(d.excluded, old(d.pathCache), old(d.rootId), token, remote).reply;
            OwesWalk(token, poll) && remote.start.Some? && remote.start.value != "" ==>
              var walked, kept := ChangesOf(Listing(d.excluded, "", remote.tree)), Owed(token, remote.start.value);
              && WalkDue(kept)
              && (outcome == ListFailed <==> !Listable(d.excluded, remote.broken, "", remote.tree))
              && (outcome == ListFailed ==> p.handed == old(p.handed) && p.pageToken == kept)
              && (outcome != ListFailed ==> outcome == if cancelAt < |walked| then Cancelled else Finished)
              && (outcome == Cancelled ==> p.handed == old(p.handed) + walked[..cancelAt] && p.pageToken == kept)
              && (outcome == Finished ==>
                    && p.handed == old(p.handed) + walked
                    && p.pageToken == if Resume(kept) != "" then Resume(kept) else remote.start.value)
    ensures var token := old(p.pageToken);
            var poll := PollFrom(d.excluded, old(d.pathCache), old(d.rootId), token, remote).reply;
            !OwesWalk(token, poll) && poll.Changes? ==>
              var changed := ChangesOf(poll.items);
              && outcome == (if cancelAt < |changed| then Cancelled else Finished)
              && (outcome == Cancelled ==> p.handed == old(p.handed) + changed[..cancelAt] && p.pageToken == token)
              && (outcome == Finished ==>
                    p.handed == old(p.handed) + changed && p.pageToken == if poll.next != "" then poll.next else token)
    ensures var token := old(p.pageToken);
            var poll := PollFrom(d.excluded, old(d.pathCache), old(d.rootId), token, remote).reply;
            !OwesWalk(token, poll) && poll.Failed? ==>
              outcome == ListFailed && p.handed == old(p.handed) && p.pageToken == token
    ensures remote.start.None? && old(p.pageToken) == "" ==>
              outcome == TokenFailed && p.handed == old(p.handed) && p.pageToken == ""
    ensures WalkDue(old(p.pageToken)) && remote.start.Some? && outcome in {Finished, Cancelled} ==>
              d.pathCache == Cached(d.excluded, "", remote.tree, old(d.pathCache))
  {
    var mints := match remote.start case None => None case Some(start) => Some(INITIAL_SYNC + start);
    if p.pageToken == "" && mints.None? {
      outcome := p.Poll(None, Unlisted(OtherFailure), None, Unlisted(OtherFailure), cancelAt);
      return;
    }
    assert mints.Some? ==> WalkDue(mints.value) && Resume(mints.value) == remote.start.value;
    var token := if p.pageToken != "" then p.pageToken else mints.value;
    var reply := d.ListChanges(token, remote);
    var answer := AnswerOf(reply);
    var retried := answer;
    if ResetWorthy(answer) && mints.Some? {
      var again := d.ListChanges(mints.value, remote);
      retried := AnswerOf(again);
    }
    outcome := p.Poll(mints, answer, mints, retried, cancelAt);
  }
}
