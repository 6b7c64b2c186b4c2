/** The notebook directory tree built from flat (notebook ID, path) pairs. */
module NotebookTree {
  import opened Strings
  import opened Wrappers

  type Path = seq<string>

  /** One of the nested insertion-ordered dictionaries: an ID and named children. */
  datatype Dir = Dir(id: Option<string>, children: Dirs)
  datatype Dirs = Empty | Cons(name: string, dir: Dir, rest: Dirs)

  /** The tree that is returned. */
  datatype Node = Node(name: string, path: string, id: Option<string>, children: seq<Node>)

  datatype Listed = Listed(id: string, path: string)

  const NEW_DIR := Dir(None, Empty)

  // ---------------------------------------------------------------------------------------------
  // Paths

  function NonEmpty(parts: seq<string>): Path {
    if parts == [] then []
    else if parts[0] == "" then NonEmpty(parts[1..])
    else [parts[0]] + NonEmpty(parts[1..])
  }

  function Segments(path: string): Path {
    NonEmpty(Split(path, '/'))
  }

  predicate Segment(s: string) {
    s != "" && '/' !in s
  }

  predicate Normal(p: Path) {
    forall i :: 0 <= i < |p| ==> Segment(p[i])
  }

  /** The path string of a node. */
  function Render(p: Path): string {
    if p == [] then "" else "/" + p[0] + Render(p[1..])
  }

  lemma NonEmptyCons(part: string, parts: seq<string>)
    ensures NonEmpty([part] + parts) == if part == "" then NonEmpty(parts) else [part] + NonEmpty(parts)
  {
    assert ([part] + parts)[1..] == parts;
  }

  lemma SplitStep(seg: string, rest: string)
    requires Segment(seg) && (rest == "" || rest[0] == '/')
    ensures NonEmpty(Split(seg + rest, '/')) == [seg] + Segments(rest)
  {
    SplitWithout(seg, '/');
    if rest == "" {
      assert seg + rest == seg;
      NonEmptyCons(seg, []);
      NonEmptyCons("", []);
      assert [seg] + [] == [seg] && [""] + [] == [""];
    } else {
      assert seg + rest == seg + ['/'] + rest[1..];
      SplitBetween(seg, rest[1..], '/');
      NonEmptyCons(seg, Split(rest[1..], '/'));
      NonEmptyCons("", Split(rest[1..], '/'));
    }
  }

  lemma SegmentsStep(seg: string, rest: string)
    requires Segment(seg) && (rest == "" || rest[0] == '/')
    ensures Segments("/" + seg + rest) == [seg] + Segments(rest)
  {
    var s := "/" + seg + rest;
    assert s[1..] == seg + rest;
    SplitStep(seg, rest);
    NonEmptyCons("", Split(seg + rest, '/'));
  }

  /** Reading a rendered path gives its segments back. */
  lemma {:induction false} RenderedSegments(p: Path)
    requires Normal(p)
    ensures Segments(Render(p)) == p
    ensures Render(p) == "" || Render(p)[0] == '/'
  {
    if p != [] {
      RenderedSegments(p[1..]);
      SegmentsStep(p[0], Render(p[1..]));
      assert p == [p[0]] + p[1..];
    }
  }

  lemma SegmentsAreNormal(s: string)
    ensures Normal(Segments(s))
  {
    PartsHoldNoSeparator(s, '/');
    NonEmptyIsNormal(Split(s, '/'));
  }

  lemma {:induction false} NonEmptyIsNormal(parts: seq<string>)
    requires forall i :: 0 <= i < |parts| ==> '/' !in parts[i]
    ensures Normal(NonEmpty(parts))
  {
    if parts != [] {
      NonEmptyIsNormal(parts[1..]);
    }
  }

  // ---------------------------------------------------------------------------------------------
  // Building

  function Child(ds: Dirs, name: string): Dir {
    match ds
    case Empty => NEW_DIR
    case Cons(n, d, rest) => if n == name then d else Child(rest, name)
  }

  /** Dictionary assignment: in place for a known name, at the end for a new one. */
  function Assign(ds: Dirs, name: string, d: Dir): Dirs {
    match ds
    case Empty => Cons(name, d, Empty)
    case Cons(n, e, rest) => if n == name then Cons(n, d, rest) else Cons(n, e, Assign(rest, name, d))
  }

  /** Descends along the segments, creating what is missing, and sets the ID at the last one. */
  function Insert(d: Dir, p: Path, id: string): Dir
    decreases |p|
  {
    if p == [] then d.(id := Some(id))
    else d.(children := Assign(d.children, p[0], Insert(Child(d.children, p[0]), p[1..], id)))
  }

  /** One round of the insertion loop; a path without segments is skipped. */
  function Enter(root: Dir, e: Listed): Dir {
    if Segments(e.path) == [] then root else Insert(root, Segments(e.path), e.id)
  }

  function Build(entries: seq<Listed>): Dir {
    if entries == [] then NEW_DIR
    else Enter(Build(entries[..|entries| - 1]), entries[|entries| - 1])
  }

  /** `to_node` on each child in turn. */
  function ToNodes(ds: Dirs, path: string): seq<Node> {
    match ds
    case Empty => []
    case Cons(name, d, rest) =>
      [Node(name, path + "/" + name, d.id, ToNodes(d.children, path + "/" + name))] + ToNodes(rest, path)
  }

  /** `build_notebook_tree` */
  method BuildNotebookTree(entries: seq<Listed>) returns (nodes: seq<Node>)
    ensures nodes == ToNodes(Build(entries).children, "")
  {
    var root, i := NEW_DIR, 0;
    while i < |entries|
      invariant i <= |entries|
      invariant root == Build(entries[..i])
    {
      var segments := Segments(entries[i].path);
      if segments != [] {
        root := Insert(root, segments, entries[i].id);
      }
      i := i + 1;
      assert entries[..i][..i - 1] == entries[..i - 1];
    }
    assert entries[..i] == entries;
    nodes := ToNodes(root.children, "");
  }

  // ---------------------------------------------------------------------------------------------
  // What the tree holds: the ID and the child names at every path

  function Names(ds: Dirs): seq<string> {
    match ds case Empty => [] case Cons(n, _, rest) => [n] + Names(rest)
  }

  function At(d: Dir, p: Path): Dir
    decreases |p|
  {
    if p == [] then d else At(Child(d.children, p[0]), p[1..])
  }

  function AddName(names: seq<string>, name: string): seq<string> {
    if name in names then names else names + [name]
  }

  lemma {:induction false} AssignFacts(ds: Dirs, name: string, d: Dir)
    ensures Names(Assign(ds, name, d)) == AddName(Names(ds), name)
    ensures forall n :: Child(Assign(ds, name, d), n) == if n == name then d else Child(ds, n)
  {
    if ds.Cons? && ds.name != name {
      AssignFacts(ds.rest, name, d);
    }
  }

  predicate Extends(p: Path, prefix: Path) {
    prefix < p
  }

  /** An insertion sets one ID and adds one name to each directory on its way. */
  lemma {:induction false} InsertFacts(d: Dir, p: Path, id: string, q: Path)
    ensures At(Insert(d, p, id), q).id == if q == p then Some(id) else At(d, q).id
    ensures Names(At(Insert(d, p, id), q).children) ==
            if Extends(p, q) then AddName(Names(At(d, q).children), p[|q|]) else Names(At(d, q).children)
    decreases |p|
  {
    if p != [] {
      AssignFacts(d.children, p[0], Insert(Child(d.children, p[0]), p[1..], id));
      if q != [] && q[0] == p[0] {
        InsertFacts(Child(d.children, p[0]), p[1..], id, q[1..]);
        assert Extends(p, q) <==> Extends(p[1..], q[1..]);
        assert q == [q[0]] + q[1..] && p == [p[0]] + p[1..];
      }
    }
  }

  /** The last ID given for each normalized path. */
  function LastWins(entries: seq<Listed>): map<Path, string> {
    if entries == [] then map[]
    else
      var before, e := LastWins(entries[..|entries| - 1]), entries[|entries| - 1];
      if Segments(e.path) == [] then before else before[Segments(e.path) := e.id]
  }

  /** The segments that follow `p` in the input, each at its first occurrence. */
  function FirstSeen(entries: seq<Listed>, p: Path): seq<string> {
    if entries == [] then []
    else
      var before, s := FirstSeen(entries[..|entries| - 1], p), Segments(entries[|entries| - 1].path);
      if Extends(s, p) then AddName(before, s[|p|]) else before
  }

  lemma EmptyAt(p: Path)
    ensures At(NEW_DIR, p) == NEW_DIR
  {
  }

  /** The tree's IDs are the last-wins map of the input, and the children of every directory
      appear in the order in which the input first named them. */
  lemma {:induction false} BuildHoldsTheInput(entries: seq<Listed>, p: Path)
    ensures At(Build(entries), p).id == if p in LastWins(entries) then Some(LastWins(entries)[p]) else None
    ensures Names(At(Build(entries), p).children) == FirstSeen(entries, p)
  {
    if entries == [] {
      EmptyAt(p);
    } else {
      var before, e := entries[..|entries| - 1], entries[|entries| - 1];
      BuildHoldsTheInput(before, p);
      if Segments(e.path) != [] {
        InsertFacts(Build(before), Segments(e.path), e.id, p);
      }
    }
  }

  // ---------------------------------------------------------------------------------------------
  // Flattening and rebuilding

  datatype Placed = Placed(path: Path, id: string)

  function Below(name: string, ps: seq<Placed>): (r: seq<Placed>)
    ensures |r| == |ps|
    ensures forall i :: 0 <= i < |r| ==> r[i] == Placed([name] + ps[i].path, ps[i].id)
  {
    seq(|ps|, i requires 0 <= i < |ps| => Placed([name] + ps[i].path, ps[i].id))
  }

  /** The IDs in preorder. */
  function Listing(d: Dir): seq<Placed> {
    (if d.id.Some? then [Placed([], d.id.value)] else []) + ListingAll(d.children)
  }

  function ListingAll(ds: Dirs): seq<Placed> {
    match ds
    case Empty => []
    case Cons(name, d, rest) => Below(name, Listing(d)) + ListingAll(rest)
  }

  function InsertAll(d: Dir, ps: seq<Placed>): Dir
    decreases |ps|
  {
    if ps == [] then d else InsertAll(Insert(d, ps[0].path, ps[0].id), ps[1..])
  }

  /** Every directory leads to an ID, and no name occurs twice among siblings. */
  predicate Live(ds: Dirs) {
    match ds
    case Empty => true
    case Cons(name, d, rest) =>
      Segment(name) && name !in Names(rest) && Listing(d) != [] && Live(d.children) && Live(rest)
  }

  lemma {:induction false} InsertAllAppend(d: Dir, a: seq<Placed>, b: seq<Placed>)
    ensures InsertAll(d, a + b) == InsertAll(InsertAll(d, a), b)
    decreases |a|
  {
    if a == [] {
      assert a + b == b;
    } else {
      InsertAllAppend(Insert(d, a[0].path, a[0].id), a[1..], b);
      assert (a + b)[1..] == a[1..] + b;
    }
  }

  lemma {:induction false} AssignTwice(ds: Dirs, name: string, d: Dir, e: Dir)
    ensures Assign(Assign(ds, name, d), name, e) == Assign(ds, name, e)
  {
    if ds.Cons? && ds.name != name {
      AssignTwice(ds.rest, name, d, e);
    }
  }

  /** Insertions below one name all happen inside that child. */
  lemma {:induction false} InsertAllBelow(d: Dir, name: string, ps: seq<Placed>)
    requires ps != []
    ensures InsertAll(d, Below(name, ps)) ==
            d.(children := Assign(d.children, name, InsertAll(Child(d.children, name), ps)))
    decreases |ps|
  {
    var d' := Insert(d, [name] + ps[0].path, ps[0].id);
    assert ([name] + ps[0].path)[1..] == ps[0].path;
    assert Below(name, ps)[1..] == Below(name, ps[1..]);
    if |ps| > 1 {
      InsertAllBelow(d', name, ps[1..]);
      AssignFacts(d.children, name, Insert(Child(d.children, name), ps[0].path, ps[0].id));
      AssignTwice(d.children, name, Insert(Child(d.children, name), ps[0].path, ps[0].id),
                  InsertAll(Child(d'.children, name), ps[1..]));
    }
  }

  function Append(a: Dirs, b: Dirs): Dirs {
    match a case Empty => b case Cons(n, d, rest) => Cons(n, d, Append(rest, b))
  }

  lemma {:induction false} AssignNew(a: Dirs, name: string, d: Dir)
    requires name !in Names(a)
    ensures Assign(a, name, d) == Append(a, Cons(name, d, Empty))
    ensures Child(a, name) == NEW_DIR
  {
    if a.Cons? {
      AssignNew(a.rest, name, d);
    }
  }

  lemma {:induction false} AppendFacts(a: Dirs, b: Dirs, c: Dirs)
    ensures Append(Append(a, b), c) == Append(a, Append(b, c))
    ensures Names(Append(a, b)) == Names(a) + Names(b)
    ensures Append(a, Empty) == a
  {
    if a.Cons? {
      AppendFacts(a.rest, b, c);
    }
  }

  lemma {:induction false} ListingRebuilds(d: Dir)
    requires Live(d.children)
    ensures InsertAll(NEW_DIR, Listing(d)) == d
    decreases d, 0
  {
    var base := Dir(d.id, Empty);
    var own := if d.id.Some? then [Placed([], d.id.value)] else [];
    assert InsertAll(NEW_DIR, own) == base;
    InsertAllAppend(NEW_DIR, own, ListingAll(d.children));
    ListingsRebuild(base, d.children);
  }

  lemma {:induction false} ListingsRebuild(base: Dir, ds: Dirs)
    requires Live(ds) && forall n :: n in Names(base.children) ==> n !in Names(ds)
    ensures InsertAll(base, ListingAll(ds)) == base.(children := Append(base.children, ds))
    decreases ds, 1
  {
    match ds
    case Empty => AppendFacts(base.children, Empty, Empty);
    case Cons(name, d, rest) =>
      ListingRebuilds(d);
      InsertAllBelow(base, name, Listing(d));
      AssignNew(base.children, name, d);
      var next := base.(children := Append(base.children, Cons(name, d, Empty)));
      AppendFacts(base.children, Cons(name, d, Empty), rest);
      InsertAllAppend(base, Below(name, Listing(d)), ListingAll(rest));
      ListingsRebuild(next, rest);
  }

  lemma {:induction false} InsertedListing(d: Dir, p: Path, id: string)
    ensures Listing(Insert(d, p, id)) != []
    decreases |p|
  {
    if p != [] {
      var child := Insert(Child(d.children, p[0]), p[1..], id);
      InsertedListing(Child(d.children, p[0]), p[1..], id);
      AssignedListing(d.children, p[0], child);
    }
  }

  lemma {:induction false} AssignedListing(ds: Dirs, name: string, d: Dir)
    requires Listing(d) != []
    ensures ListingAll(Assign(ds, name, d)) != []
  {
    if ds.Cons? && ds.name != name {
      AssignedListing(ds.rest, name, d);
    }
  }

  lemma {:induction false} AssignKeepsLive(ds: Dirs, name: string, d: Dir)
    requires Live(ds) && Segment(name) && Listing(d) != [] && Live(d.children)
    ensures Live(Assign(ds, name, d))
  {
    if ds.Cons? && ds.name != name {
      AssignKeepsLive(ds.rest, name, d);
      AssignFacts(ds.rest, name, d);
    }
  }

  lemma {:induction false} ChildIsLive(ds: Dirs, name: string)
    requires Live(ds)
    ensures Live(Child(ds, name).children)
  {
    if ds.Cons? && ds.name != name {
      ChildIsLive(ds.rest, name);
    }
  }

  lemma {:induction false} InsertKeepsLive(d: Dir, p: Path, id: string)
    requires Live(d.children) && Normal(p)
    ensures Live(Insert(d, p, id).children)
    decreases |p|
  {
    if p != [] {
      ChildIsLive(d.children, p[0]);
      InsertKeepsLive(Child(d.children, p[0]), p[1..], id);
      InsertedListing(Child(d.children, p[0]), p[1..], id);
      AssignKeepsLive(d.children, p[0], Insert(Child(d.children, p[0]), p[1..], id));
    }
  }

  lemma {:induction false} BuildIsLive(entries: seq<Listed>)
    ensures Live(Build(entries).children) && Build(entries).id == None
  {
    if entries != [] {
      var before, e := entries[..|entries| - 1], entries[|entries| - 1];
      BuildIsLive(before);
      if Segments(e.path) != [] {
        SegmentsAreNormal(e.path);
        InsertKeepsLive(Build(before), Segments(e.path), e.id);
      }
    }
  }

  /** The (ID, path) pairs of a returned tree, in preorder. */
  function Flatten(nodes: seq<Node>): seq<Listed> {
    if nodes == [] then []
    else
      var n := nodes[0];
      (if n.id.Some? then [Listed(n.id.value, n.path)] else []) + Flatten(n.children) + Flatten(nodes[1..])
  }

  function Rendered(prefix: string, ps: seq<Placed>): (r: seq<Listed>)
    ensures |r| == |ps|
    ensures forall i :: 0 <= i < |r| ==> r[i] == Listed(ps[i].id, prefix + Render(ps[i].path))
  {
    seq(|ps|, i requires 0 <= i < |ps| => Listed(ps[i].id, prefix + Render(ps[i].path)))
  }

  lemma RenderedBelow(prefix: string, name: string, ps: seq<Placed>)
    ensures Rendered(prefix, Below(name, ps)) == Rendered(prefix + "/" + name, ps)
  {
    var a, b := Rendered(prefix, Below(name, ps)), Rendered(prefix + "/" + name, ps);
    forall i | 0 <= i < |ps| ensures a[i] == b[i] {
      var q := [name] + ps[i].path;
      assert q[1..] == ps[i].path;
      assert prefix + Render(q) == prefix + "/" + name + Render(ps[i].path);
    }
  }

  lemma RenderedAppend(prefix: string, a: seq<Placed>, b: seq<Placed>)
    ensures Rendered(prefix, a + b) == Rendered(prefix, a) + Rendered(prefix, b)
  {
  }

  lemma RenderedOwn(path: string, d: Dir)
    ensures Rendered(path, Listing(d)) ==
            (if d.id.Some? then [Listed(d.id.value, path)] else []) + Rendered(path, ListingAll(d.children))
  {
    var own := if d.id.Some? then [Placed([], d.id.value)] else [];
    RenderedAppend(path, own, ListingAll(d.children));
    assert path + Render([]) == path;
  }

  lemma {:induction false} FlattenLists(ds: Dirs, prefix: string)
    ensures Flatten(ToNodes(ds, prefix)) == Rendered(prefix, ListingAll(ds))
  {
    match ds
    case Empty =>
    case Cons(name, d, rest) =>
      var path := prefix + "/" + name;
      FlattenLists(d.children, path);
      FlattenLists(rest, prefix);
      RenderedBelow(prefix, name, Listing(d));
      RenderedOwn(path, d);
      RenderedAppend(prefix, Below(name, Listing(d)), ListingAll(rest));
      var nodes := ToNodes(ds, prefix);
      assert nodes[0] == Node(name, path, d.id, ToNodes(d.children, path)) && nodes[1..] == ToNodes(rest, prefix);
  }

  predicate AllNormal(ps: seq<Placed>) {
    forall i :: 0 <= i < |ps| ==> Normal(ps[i].path)
  }

  lemma {:induction false} LivePathsAreNormal(ds: Dirs)
    requires Live(ds)
    ensures AllNormal(ListingAll(ds)) && forall i :: 0 <= i < |ListingAll(ds)| ==> ListingAll(ds)[i].path != []
  {
    if ds.Cons? {
      LivePathsAreNormal(ds.dir.children);
      LivePathsAreNormal(ds.rest);
      assert AllNormal(Listing(ds.dir));
    }
  }

  lemma {:induction false} BuildInsertsAll(entries: seq<Listed>, ps: seq<Placed>)
    requires entries == Rendered("", ps) && AllNormal(ps)
    requires forall i :: 0 <= i < |ps| ==> ps[i].path != []
    ensures Build(entries) == InsertAll(NEW_DIR, ps)
  {
    if ps != [] {
      var n := |ps| - 1;
      BuildInsertsAll(entries[..n], ps[..n]);
      assert Normal(ps[n].path);
      RenderedSegments(ps[n].path);
      assert "" + Render(ps[n].path) == Render(ps[n].path);
      InsertAllAppend(NEW_DIR, ps[..n], [ps[n]]);
      assert ps == ps[..n] + [ps[n]];
    }
  }

  /** Round trip: flattening a built tree in preorder and building again gives the same tree. */
  lemma FlattenedTreesRebuild(entries: seq<Listed>)
    ensures var nodes := ToNodes(Build(entries).children, "");
            ToNodes(Build(Flatten(nodes)).children, "") == nodes
  {
    var d := Build(entries);
    BuildIsLive(entries);
    FlattenLists(d.children, "");
    LivePathsAreNormal(d.children);
    BuildInsertsAll(Flatten(ToNodes(d.children, "")), ListingAll(d.children));
    ListingRebuilds(d);
    assert Listing(d) == ListingAll(d.children);
  }

  /** Every node's path reads back as its parent's segments and its own name. */
  lemma {:induction false} PathsGrowBySegments(ds: Dirs, p: Path, i: nat)
    requires Live(ds) && Normal(p) && i < |ToNodes(ds, Render(p))|
    ensures var n := ToNodes(ds, Render(p))[i];
            n.path == Render(p) + "/" + n.name && Segments(n.path) == p + [n.name] && Segment(n.name)
  {
    if i == 0 {
      RenderAppend(p, ds.name);
      RenderedSegments(p + [ds.name]);
    } else {
      PathsGrowBySegments(ds.rest, p, i - 1);
    }
  }

  lemma {:induction false} RenderAppend(p: Path, name: string)
    ensures Render(p + [name]) == Render(p) + "/" + name
  {
    if p != [] {
      RenderAppend(p[1..], name);
      assert (p + [name])[1..] == p[1..] + [name];
    } else {
      assert ([] + [name])[1..] == [];
    }
  }

  // ---------------------------------------------------------------------------------------------
  // What the returned nodes show

  /** How any path string reads: slashes separate, and what lies between them is a segment. */
  lemma SegmentsRead(segment: string, rest: string)
    ensures Segments("") == [] && Segments("/" + rest) == Segments(rest)
    ensures Segment(segment) && (rest == "" || rest[0] == '/') ==> Segments(segment + rest) == [segment] + Segments(rest)
  {
    NonEmptyCons("", []);
    assert [""] + [] == [""];
    assert ("/" + rest)[1..] == rest;
    NonEmptyCons("", Split(rest, '/'));
    if Segment(segment) && (rest == "" || rest[0] == '/') {
      SplitStep(segment, rest);
    }
  }

  /** A name follows a path exactly if some listed path continues it so. */
  lemma {:induction false} FirstSeenMeans(entries: seq<Listed>, p: Path, name: string)
    ensures name in FirstSeen(entries, p) <==>
            exists i :: 0 <= i < |entries| && p + [name] <= Segments(entries[i].path)
  {
    if entries != [] {
      var n := |entries| - 1;
      var before, s := entries[..n], Segments(entries[n].path);
      FirstSeenMeans(before, p, name);
      assert p + [name] <= s <==> Extends(s, p) && s[|p|] == name;
      if name in FirstSeen(entries, p) && !(p + [name] <= s) {
        var i :| 0 <= i < |before| && p + [name] <= Segments(before[i].path);
        assert entries[i] == before[i];
      }
      if i :| 0 <= i < |entries| && p + [name] <= Segments(entries[i].path) {
        assert i < n ==> before[i] == entries[i];
      }
    }
  }

  /** The node at the end of a path of names. */
  function NodeAt(nodes: seq<Node>, p: Path): Option<Node>
    decreases |p|, |nodes|
  {
    if p == [] || nodes == [] then None
    else if nodes[0].name != p[0] then NodeAt(nodes[1..], p)
    else if |p| == 1 then Some(nodes[0])
    else NodeAt(nodes[0].children, p[1..])
  }

  function NodeNames(nodes: seq<Node>): seq<string> {
    if nodes == [] then [] else [nodes[0].name] + NodeNames(nodes[1..])
  }

  lemma {:induction false} NamesAreShown(ds: Dirs, path: string)
    ensures NodeNames(ToNodes(ds, path)) == Names(ds)
  {
    if ds.Cons? {
      NamesAreShown(ds.rest, path);
      assert ToNodes(ds, path)[1..] == ToNodes(ds.rest, path);
    }
  }

  /** The path leads through existing directories. */
  predicate Leads(ds: Dirs, p: Path)
    decreases |p|
  {
    p != [] && p[0] in Names(ds) && (|p| == 1 || Leads(Child(ds, p[0]).children, p[1..]))
  }

  /** The node at a path shows the directory there. */
  ghost predicate Shows(n: Node, d: Dir, path: string) {
    n.path == path && n.id == d.id && n.children == ToNodes(d.children, path)
  }

  lemma {:induction false} NodesShowDirectories(ds: Dirs, path: string, p: Path)
    requires Live(ds) && p != []
    ensures NodeAt(ToNodes(ds, path), p).Some? <==> Leads(ds, p)
    ensures Leads(ds, p) ==>
      Shows(NodeAt(ToNodes(ds, path), p).value, At(Child(ds, p[0]), p[1..]), path + Render(p))
    decreases ds
  {
    match ds
    case Empty =>
    case Cons(name, d, rest) =>
      var nodes := ToNodes(ds, path);
      assert nodes[1..] == ToNodes(rest, path);
      assert path + Render(p) == path + "/" + p[0] + Render(p[1..]);
      if name != p[0] {
        NodesShowDirectories(rest, path, p);
      } else if |p| == 1 {
        assert Render(p[1..]) == "";
        assert path + Render(p) == path + "/" + name;
      } else {
        NodesShowDirectories(d.children, path + "/" + name, p[1..]);
        assert At(d, p[1..]) == At(Child(d.children, p[1..][0]), p[1..][1..]);
      }
  }

  /** The path's name at `k` is one of the directory before it. */
  predicate NamedAt(d: Dir, p: Path, k: nat)
    requires k < |p|
  {
    p[k] in Names(At(d, p[..k]).children)
  }

  lemma NamedBelow(d: Dir, p: Path, k: nat)
    requires k < |p| - 1
    ensures NamedAt(d, p, k + 1) <==> NamedAt(Child(d.children, p[0]), p[1..], k)
  {
    assert p[..k + 1][0] == p[0] && p[..k + 1][1..] == p[1..][..k];
  }

  lemma {:induction false} LeadsMeans(d: Dir, p: Path)
    requires p != []
    ensures Leads(d.children, p) <==> forall k :: 0 <= k < |p| ==> NamedAt(d, p, k)
    decreases |p|
  {
    assert p[..0] == [] && (NamedAt(d, p, 0) <==> p[0] in Names(d.children));
    if |p| > 1 {
      var child := Child(d.children, p[0]);
      LeadsMeans(child, p[1..]);
      forall k | 0 <= k < |p[1..]| ensures NamedAt(d, p, k + 1) <==> NamedAt(child, p[1..], k) {
        NamedBelow(d, p, k);
      }
      if forall k :: 0 <= k < |p[1..]| ==> NamedAt(child, p[1..], k) {
        forall k | 1 <= k < |p| ensures NamedAt(d, p, k) {
          assert NamedAt(child, p[1..], k - 1);
        }
      }
    }
  }

  /** Some listed path begins like this. */
  predicate Begun(entries: seq<Listed>, p: Path) {
    exists i :: 0 <= i < |entries| && p <= Segments(entries[i].path)
  }

  /** The returned tree has a node at exactly the nonempty prefixes of the listed paths.  It shows its
      path, the last ID listed for it, and its children in the order of their first listing. */
  lemma TreeShowsTheInput(entries: seq<Listed>, p: Path)
    requires p != []
    ensures var found := NodeAt(ToNodes(Build(entries).children, ""), p);
            && (found.Some? <==> Begun(entries, p))
            && (found.Some? ==>
                  && found.value.path == Render(p) && NodeNames(found.value.children) == FirstSeen(entries, p)
                  && found.value.id == if p in LastWins(entries) then Some(LastWins(entries)[p]) else None)
  {
    var d := Build(entries);
    BuildIsLive(entries);
    NodesShowDirectories(d.children, "", p);
    LeadsMeans(d, p);
    ListedPrefixes(entries, p);
    if Leads(d.children, p) {
      var n := NodeAt(ToNodes(d.children, ""), p).value;
      BuildHoldsTheInput(entries, p);
      assert At(d, p) == At(Child(d.children, p[0]), p[1..]);
      assert "" + Render(p) == Render(p);
      NamesAreShown(At(d, p).children, Render(p));
    }
  }

  lemma NamedIsBegun(entries: seq<Listed>, p: Path, k: nat)
    requires k < |p|
    ensures NamedAt(Build(entries), p, k) <==> Begun(entries, p[..k + 1])
  {
    BuildHoldsTheInput(entries, p[..k]);
    FirstSeenMeans(entries, p[..k], p[k]);
    assert p[..k] + [p[k]] == p[..k + 1];
  }

  lemma BegunBefore(entries: seq<Listed>, p: Path, k: nat)
    requires k <= |p| && Begun(entries, p)
    ensures Begun(entries, p[..k])
  {
    var i :| 0 <= i < |entries| && p <= Segments(entries[i].path);
    assert p[..k] <= Segments(entries[i].path);
  }

  /** Every step of the path was listed exactly if the whole path was begun by some listed one. */
  lemma ListedPrefixes(entries: seq<Listed>, p: Path)
    requires p != []
    ensures (forall k :: 0 <= k < |p| ==> NamedAt(Build(entries), p, k)) <==> Begun(entries, p)
  {
    var n := |p| - 1;
    assert p[..n + 1] == p;
    NamedIsBegun(entries, p, n);
    if Begun(entries, p) {
      forall k | 0 <= k < |p| ensures NamedAt(Build(entries), p, k) {
        NamedIsBegun(entries, p, k);
        BegunBefore(entries, p, k + 1);
      }
    }
  }
}
