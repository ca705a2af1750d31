/** The earlier, single-step listing parser of `src/h5ls_reader.rs`. It only
    builds groups; dataset lines and unmatched lines change nothing. For a
    group line it asks once whether the line lies one component below the
    cursor: if so it inserts an empty group through `locate_group_mut` and
    moves the cursor onto it, and otherwise it pops the cursor once and
    drops the line.

    `locate_group_mut` has no root skip: the root component of an absolute
    path is looked up as a child named "/". The parser's cursor always
    starts with that component, so the first nested group fails the lookup.
    `Step` models the code as written; `FixedStep` is the same parser with
    the root-skipping lookup of `src/h5meta.rs`. */
module LegacyListing {
  import opened Results
  import opened Paths
  import opened ArchiveTree
  import Listing

  /** `H5Group::locate_group_mut`: every component, the root included, is
      looked up by its text among the children, and each child found must
      be a group. */
  function LocateGroupMut(g: Node, p: Path): (r: Result<Node, LookupError>)
    requires g.Group?
    ensures r.Ok? ==> r.value.Group?
    ensures p == [] ==> r == Ok(g)
    ensures |p| > 0 && ComponentText(p[0]) !in g.children ==> r == Err(NotFound(ComponentText(p[0])))
    ensures |p| > 0 && ComponentText(p[0]) in g.children && g.children[ComponentText(p[0])].Dataset? ==>
      r == Err(NotAGroup)
    decreases |p|
  {
    if |p| == 0 then Ok(g)
    else
      var key := ComponentText(p[0]);
      if key !in g.children then Err(NotFound(key))
      else
        var child := g.children[key];
        if child.Dataset? then Err(NotAGroup) else LocateGroupMut(child, p[1..])
  }

  /** `root.locate_group_mut(p).children.insert(key, child)` as a rebuilt
      tree. It fails exactly when the lookup does. */
  function InsertGroupAt(g: Node, p: Path, key: string, child: Node): (r: Result<Node, LookupError>)
    requires g.Group?
    ensures r.Ok? <==> LocateGroupMut(g, p).Ok?
    ensures r.Err? ==> r.error == LocateGroupMut(g, p).error
    ensures r.Ok? ==> r.value.Group? && r.value.name == g.name
    decreases |p|
  {
    if |p| == 0 then Ok(Group(g.name, g.children[key := child]))
    else
      var k := ComponentText(p[0]);
      if k !in g.children then Err(NotFound(k))
      else
        var c := g.children[k];
        if c.Dataset? then Err(NotAGroup)
        else match InsertGroupAt(c, p[1..], key, child)
          case Err(e) => Err(e)
          case Ok(c') => Ok(Group(g.name, g.children[k := c']))
  }

  /** On a path of names only, where no root skip can apply, the legacy
      lookup and insert are exactly `locate_mut` and its insert in
      `src/h5meta.rs`; so `InsertAtLocates`, `InsertAtChild` and
      `InsertAtFrame` describe what a successful legacy insert builds. */
  lemma {:induction false} LegacyAgreesOnNames(g: Node, p: Path, key: string, child: Node)
    requires g.Group? && Relative(p)
    ensures LocateGroupMut(g, p) == LocateMut(g, p)
    ensures InsertGroupAt(g, p, key, child) == InsertAt(g, p, key, child)
    decreases |p|
  {
    if |p| > 0 {
      var k := ComponentText(p[0]);
      if k in g.children && g.children[k].Group? {
        LegacyAgreesOnNames(g.children[k], p[1..], key, child);
      }
    }
  }

  /** The lookup of a cursor that starts at the root fails unless the root
      has a child literally named "/". */
  lemma NoRootSkip(g: Node, p: Path)
    requires g.Group? && IsAbsolute(p) && "/" !in g.children
    ensures LocateGroupMut(g, p) == Err(NotFound("/"))
  {
  }

  /** One line of the loop in `parse`, as written. */
  function Step(c: Listing.Cursor, line: Listing.Line): (r: Result<Listing.Cursor, LookupError>)
    requires c.root.Group?
    ensures !line.GroupLine? || line.name == "/" ==> r == Ok(c)
    ensures r.Ok? ==> r.value.root.Group? && r.value.root.name == c.root.name
  {
    match line
    case GroupLine(s) =>
      if s == "/" then Ok(c)
      else
        (match Subgroup(c.spath, FromText(s))
         case None => Ok(Listing.Cursor(c.root, Pop(c.spath)))
         case Some(n) =>
           match InsertGroupAt(c.root, c.spath, n, Group(n, map[]))
           case Err(e) => Err(e)
           case Ok(root) => Ok(Listing.Cursor(root, c.spath + [Normal(n)])))
    case _ => Ok(c)
  }

  /** The lines in order, stopping at the first failed lookup (a panic in
      the Rust code): the fold of `Listing.Run` over the legacy step. */
  function Run(c: Listing.Cursor, lines: seq<Listing.Line>): (r: Result<Listing.Cursor, LookupError>)
    requires c.root.Group?
    ensures lines == [] ==> r == Ok(c)
    ensures r.Ok? ==> r.value.root.Group? && r.value.root.name == c.root.name
    decreases |lines|
  {
    if |lines| == 0 then Ok(c)
    else match Step(c, lines[0])
      case Err(e) => Err(e)
      case Ok(c') => Run(c', lines[1..])
  }

  /** A group line that lies one component below the root. */
  predicate OpensTopGroup(line: Listing.Line)
  {
    line.GroupLine? && line.name != "/" && Subgroup([Root], FromText(line.name)).Some?
  }

  /** As written, the parser never builds anything: it panics at the first
      group line that lies directly below the root, and until then its tree
      stays the empty root and its cursor stays on it. */
  lemma {:induction false} AsWrittenNeverInserts(lines: seq<Listing.Line>)
    ensures Run(Listing.Start(), lines) ==
      if exists i :: 0 <= i < |lines| && OpensTopGroup(lines[i])
      then Err(NotFound("/")) else Ok(Listing.Start())
    decreases |lines|
  {
    if |lines| > 0 {
      var line := lines[0];
      var start := Listing.Start();
      if OpensTopGroup(line) {
        NoRootSkip(start.root, start.spath);
        assert Step(start, line) == Err(NotFound("/"));
      } else {
        assert Step(start, line) == Ok(start) by {
          if line.GroupLine? && line.name != "/" {
            assert Pop(start.spath) == start.spath;
          }
        }
        AsWrittenNeverInserts(lines[1..]);
        assert (exists i :: 0 <= i < |lines| && OpensTopGroup(lines[i]))
            <==> (exists i :: 0 <= i < |lines[1..]| && OpensTopGroup(lines[1..][i])) by {
          if exists i :: 0 <= i < |lines| && OpensTopGroup(lines[i]) {
            var i :| 0 <= i < |lines| && OpensTopGroup(lines[i]);
            assert i > 0 && lines[1..][i - 1] == lines[i];
          }
        }
      }
    }
  }

  /** `parse` with its loop over the lines. The Rust function discards the
      tree and returns `Ok(())`; here the tree is the result, and a panic is
      an error. */
  method Parse(lines: seq<Listing.Line>) returns (r: Result<Node, LookupError>)
    ensures r.Ok? <==> Run(Listing.Start(), lines).Ok?
    ensures r.Ok? ==> r.value == Run(Listing.Start(), lines).value.root
    ensures r.Err? ==> r.error == Run(Listing.Start(), lines).error
  {
    var root := Group("/", map[]);
    var spath := [Root];
    var i := 0;
    while i < |lines|
      invariant 0 <= i <= |lines|
      invariant root.Group?
      invariant Run(Listing.Start(), lines) == Run(Listing.Cursor(root, spath), lines[i..])
    {
      assert lines[i..][0] == lines[i] && lines[i..][1..] == lines[i + 1..];
      ghost var next := Step(Listing.Cursor(root, spath), lines[i]);
      if lines[i].GroupLine? && lines[i].name != "/" {
        match Subgroup(spath, FromText(lines[i].name)) {
          case None =>
            spath := Pop(spath);
          case Some(n) =>
            var inserted := InsertGroupAt(root, spath, n, Group(n, map[]));
            if inserted.Err? {
              assert next == Err(inserted.error);
              return Err(inserted.error);
            }
            root := inserted.value;
            spath := spath + [Normal(n)];
        }
      }
      assert next == Ok(Listing.Cursor(root, spath));
      i := i + 1;
    }
    return Ok(root);
  }

  /** The same step with the lookup of `src/h5meta.rs`, which skips the root
      component when it starts from the root group. */
  function FixedStep(c: Listing.Cursor, line: Listing.Line): (r: Result<Listing.Cursor, LookupError>)
    requires c.root.Group?
    ensures !line.GroupLine? || line.name == "/" ==> r == Ok(c)
    ensures r.Ok? ==> r.value.root.Group? && r.value.root.name == c.root.name
  {
    match line
    case GroupLine(s) =>
      if s == "/" then Ok(c)
      else
        (match Subgroup(c.spath, FromText(s))
         case None => Ok(Listing.Cursor(c.root, Pop(c.spath)))
         case Some(n) =>
           match InsertAt(c.root, c.spath, n, Group(n, map[]))
           case Err(e) => Err(e)
           case Ok(root) => Ok(Listing.Cursor(root, c.spath + [Normal(n)])))
    case _ => Ok(c)
  }

  /** The same fold over the corrected step. */
  function FixedRun(c: Listing.Cursor, lines: seq<Listing.Line>): Result<Listing.Cursor, LookupError>
    requires c.root.Group?
    decreases |lines|
  {
    if |lines| == 0 then Ok(c)
    else match FixedStep(c, lines[0])
      case Err(e) => Err(e)
      case Ok(c') => FixedRun(c', lines[1..])
  }

  /** With the root-skipping lookup every step keeps the cursor on a group
      of the tree, so no lookup fails; a group line one component below the
      cursor adds an empty group that is then found at the new cursor. */
  lemma FixedStepKeepsInv(c: Listing.Cursor, line: Listing.Line)
    requires Listing.Inv(c)
    ensures FixedStep(c, line).Ok? && Listing.Inv(FixedStep(c, line).value)
    ensures line.GroupLine? && line.name != "/" && Subgroup(c.spath, FromText(line.name)).Some? ==>
      var n := Subgroup(c.spath, FromText(line.name)).value;
      LocateMut(FixedStep(c, line).value.root, c.spath + [Normal(n)]) == Ok(Group(n, map[]))
  {
    if line.GroupLine? && line.name != "/" {
      var target := FromText(line.name);
      match Subgroup(c.spath, target) {
        case None =>
          var up := Pop(c.spath);
          if up != c.spath {
            assert up == c.spath[..|c.spath| - 1];
            LocateMutPrefix(c.root, c.spath, |up|);
          }
        case Some(n) =>
          SubgroupIff(c.spath, target, n);
          assert target == c.spath + [Normal(n)];
          assert target[|target| - 1] == Normal(n);
          InsertAtChild(c.root, c.spath, n, Group(n, map[]));
          assert WellFormed(c.spath + [Normal(n)]);
      }
    }
  }

  /** Hence the corrected parser never panics on a lookup. */
  lemma {:induction false} FixedRunNeverFails(c: Listing.Cursor, lines: seq<Listing.Line>)
    requires Listing.Inv(c)
    ensures FixedRun(c, lines).Ok? && Listing.Inv(FixedRun(c, lines).value)
    decreases |lines|
  {
    if |lines| > 0 {
      FixedStepKeepsInv(c, lines[0]);
      FixedRunNeverFails(FixedStep(c, lines[0]).value, lines[1..]);
    }
  }
}

/** The two listings that separate the parsers. */
module LegacyExamples {
  import opened Results
  import opened Paths
  import opened ArchiveTree
  import opened Listing
  import opened LegacyListing
  import ListingExamples

  /** As written, the first group below the root already fails its lookup. */
  lemma FirstGroupPanics()
    ensures LegacyListing.Run(Start(), [GroupLine("/a")]) == Err(NotFound("/"))
  {
    ListingExamples.PathText("a", "b");
    SubgroupJoin([Root], "a");
    assert OpensTopGroup([GroupLine("/a")][0]);
    AsWrittenNeverInserts([GroupLine("/a")]);
  }

  /** Even with the lookup corrected, a group line whose parent is an
      ancestor of the cursor only pops the cursor: the sibling "/b" of "/a"
      is never added. */
  lemma SiblingDropped()
    ensures FixedRun(Start(), [GroupLine("/a"), GroupLine("/b")])
         == Ok(Cursor(Group("/", map["a" := Group("a", map[])]), [Root]))
  {
    var lines := [GroupLine("/a"), GroupLine("/b")];
    FixedOpensA();
    FixedPopsForB();
    assert lines[1..] == [GroupLine("/b")] && lines[1..][1..] == [];
  }

  lemma FixedOpensA()
    ensures FixedStep(Start(), GroupLine("/a")) == Ok(Cursor(ListingExamples.TreeA(), [Root, Normal("a")]))
  {
    ListingExamples.PathText("a", "b");
    assert "/a" == "/" + "a";
    SubgroupJoin([Root], "a");
    assert InsertAt(Group("/", map[]), [Root], "a", Group("a", map[])) == Ok(ListingExamples.TreeA());
  }

  lemma FixedPopsForB()
    ensures FixedStep(Cursor(ListingExamples.TreeA(), [Root, Normal("a")]), GroupLine("/b"))
         == Ok(Cursor(ListingExamples.TreeA(), [Root]))
  {
    var pa := [Root, Normal("a")];
    ListingExamples.PathText("b", "a");
    assert "/b" == "/" + "b";
    assert FromText("/b") == [Root, Normal("b")];
    assert StripPrefix([Root, Normal("b")], pa) == None;
    assert Subgroup(pa, [Root, Normal("b")]) == None;
    assert Pop(pa) == [Root];
  }

  /** The loop of `src/h5meta.rs` keeps ascending and adds the sibling. */
  lemma SiblingKept()
    ensures ParseListing([GroupLine("/a"), GroupLine("/b")])
         == Ok(Group("/", map["a" := Group("a", map[]), "b" := Group("b", map[])]))
  {
    var lines := [GroupLine("/a"), GroupLine("/b")];
    var treeAB := Group("/", map["a" := Group("a", map[]), "b" := Group("b", map[])]);
    ListingExamples.OpenA();
    AddSibling();
    assert lines[1..] == [GroupLine("/b")] && lines[1..][1..] == [];
  }

  lemma AddSibling()
    ensures Listing.Step(Cursor(ListingExamples.TreeA(), [Root, Normal("a")]), GroupLine("/b"))
         == Ok(Cursor(Group("/", map["a" := Group("a", map[]), "b" := Group("b", map[])]), [Root, Normal("b")]))
  {
    var pa := [Root, Normal("a")];
    var treeAB := Group("/", map["a" := Group("a", map[]), "b" := Group("b", map[])]);
    ListingExamples.PathText("b", "a");
    SubgroupJoin([Root], "b");
    assert StripPrefix([Root, Normal("b")], pa) == None;
    assert Ascend(pa, [Root, Normal("b")]) == Ok(([Root], "b"));
    assert InsertAt(ListingExamples.TreeA(), [Root], "b", Group("b", map[])) == Ok(treeAB);
  }
}
