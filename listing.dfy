/** `H5Group::parse` of `src/h5meta.rs`: rebuild the archive tree from a
    pre-order `h5ls`-style listing. The parser keeps a cursor `spath`, the
    path of the group most recently opened. A group line pops the cursor
    until the line's path lies one component below it, inserts an empty
    group there and moves the cursor onto it. A dataset line inserts a
    dataset under the group at the cursor.

    Reading the file and the two regular expressions are replaced by a line
    classifier: each line arrives as a `Line`. The Rust loop that pops the
    cursor never ends once the cursor is the root; here that case is the
    error `StructuralViolation`. */
module Listing {
  import opened Results
  import opened Strings
  import opened Paths
  import opened ArchiveTree

  /** A listing line as the two regular expressions see it:
      `NAME ws Group`, `NAME ws Dataset` (with the text between the braces
      when the whole line also matches `NAME ws Dataset ws {...}`), or
      anything else. */
  datatype Line =
    | GroupLine(name: string)
    | DatasetLine(name: string, braced: Option<string>)
    | Unmatched

  datatype ParseError =
    | MalformedDataset     // the dataset line does not match the brace pattern
    | MalformedShape       // a shape token is not a `usize`
    | NoFileName           // the dataset path has no last name
    | StructuralViolation  // the ascend loop reaches the root without finding the parent
    | Lookup(error: LookupError)

  predicate ShapeChar(c: char) { IsDigit(c) || c == ',' || c == ' ' }

  /** The text the brace pattern admits: `[0-9, ]*` or `SCALAR`. */
  predicate ShapeTextMatches(t: string)
  {
    t == "SCALAR" || forall i :: 0 <= i < |t| ==> ShapeChar(t[i])
  }

  /** Each token parsed as a `usize`, failing on the first that is not. */
  function ParseDims(tokens: seq<string>): (r: Option<seq<nat>>)
    ensures r.Some? <==> forall i :: 0 <= i < |tokens| ==> ParseUsize(tokens[i]).Some?
    ensures r.Some? ==> |r.value| == |tokens|
    ensures r.Some? ==> forall i :: 0 <= i < |tokens| ==> ParseUsize(tokens[i]) == Some(r.value[i])
  {
    if |tokens| == 0 then Some([])
    else match (ParseUsize(tokens[0]), ParseDims(tokens[1..]))
      case (Some(d), Some(ds)) => Some([d] + ds)
      case _ => None
  }

  /** The shape of a dataset line: `SCALAR` is the empty shape; any other
      text must consist of digits, commas and spaces, and is split on ", "
      into tokens that must each be a `usize`. */
  function ParseShape(t: string): (r: Result<seq<nat>, ParseError>)
    ensures t == "SCALAR" ==> r == Ok([])
    ensures !ShapeTextMatches(t) ==> r == Err(MalformedDataset)
    ensures r.Ok? && t != "SCALAR" ==> |r.value| == |Split(t, ", ")|
    ensures r.Ok? && t != "SCALAR" ==>
      forall i :: 0 <= i < |r.value| ==> ParseUsize(Split(t, ", ")[i]) == Some(r.value[i])
    ensures r.Err? ==> r.error == MalformedDataset || r.error == MalformedShape
    ensures ShapeTextMatches(t) && (forall i :: 0 <= i < |Split(t, ", ")| ==> ParseUsize(Split(t, ", ")[i]).Some?)
      ==> r.Ok?
    ensures ShapeTextMatches(t) && r.Err? ==> r.error == MalformedShape
  {
    if t == "SCALAR" then Ok([])
    else if !ShapeTextMatches(t) then Err(MalformedDataset)
    else
      var tokens := Split(t, ", ");
      match ParseDims(tokens)
      case None =>
        assert !forall i :: 0 <= i < |tokens| ==> ParseUsize(tokens[i]).Some?;
        assert !forall i :: 0 <= i < |Split(t, ", ")| ==> ParseUsize(Split(t, ", ")[i]).Some?;
        Err(MalformedShape)
      case Some(dims) =>
        assert forall i :: 0 <= i < |tokens| ==> ParseUsize(tokens[i]).Some?;
        assert forall i :: 0 <= i < |Split(t, ", ")| ==> ParseUsize(Split(t, ", ")[i]).Some?;
        Ok(dims)
  }

  /** The shape text `h5ls` prints for a non-empty shape: the dimensions in
      decimal, separated by ", ". */
  function ShapeText(dims: seq<nat>): string
  {
    Join(seq(|dims|, i requires 0 <= i < |dims| => Decimal(dims[i])), ", ")
  }

  lemma {:induction false} JoinDigitsIsShapeText(parts: seq<string>)
    requires forall i :: 0 <= i < |parts| ==> AllDigits(parts[i])
    ensures forall i :: 0 <= i < |Join(parts, ", ")| ==> ShapeChar(Join(parts, ", ")[i])
  {
    if |parts| > 1 {
      JoinDigitsIsShapeText(parts[1..]);
      assert Join(parts, ", ") == parts[0] + ", " + Join(parts[1..], ", ");
    }
  }

  /** Parsing the printed shape of a dataset gives the shape back. */
  lemma ShapeRoundTrip(dims: seq<nat>)
    requires |dims| >= 1 && forall i :: 0 <= i < |dims| ==> dims[i] <= UsizeMax
    ensures ParseShape(ShapeText(dims)) == Ok(dims)
  {
    var parts := seq(|dims|, i requires 0 <= i < |dims| => Decimal(dims[i]));
    var t := ShapeText(dims);
    JoinDigitsIsShapeText(parts);
    assert t != "SCALAR" by {
      assert ShapeChar(t[0]);
    }
    SplitJoin(parts, ", ");
    forall i | 0 <= i < |parts| ensures ParseUsize(parts[i]) == Some(dims[i]) {
      DecimalRoundTrip(dims[i]);
    }
    assert ShapeTextMatches(t);
    assert Split(t, ", ") == parts;
    var parsed := ParseDims(parts);
    assert parsed.Some?;
    assert parsed.value == dims;
  }

  /** Empty braces are a malformed shape: "" splits into one empty token. */
  lemma EmptyShapeFails()
    ensures ParseShape("") == Err(MalformedShape)
  {
    assert Split("", ", ") == [""];
  }

  /** The parser's state: the tree built so far and the cursor. */
  datatype Cursor = Cursor(root: Node, spath: Path)

  /** An empty root group named "/" with the cursor on it. */
  function Start(): Cursor { Cursor(Group("/", map[]), [Root]) }

  /** The ascend loop: pop `spath` until `target` lies one component below
      it, giving that path and the new component's name. */
  function Ascend(spath: Path, target: Path): (r: Result<(Path, string), ParseError>)
    ensures r.Ok? ==> Subgroup(r.value.0, target) == Some(r.value.1)
    ensures r.Ok? ==> |r.value.0| <= |spath| && spath[..|r.value.0|] == r.value.0
    ensures r.Ok? && IsAbsolute(spath) ==> IsAbsolute(r.value.0)
    ensures r.Err? ==> r.error == StructuralViolation
    decreases |spath|
  {
    match Subgroup(spath, target)
    case Some(n) => Ok((spath, n))
    case None =>
      var up := Pop(spath);
      if up == spath then Err(StructuralViolation)
      else
        var r := Ascend(up, target);
        assert r.Ok? ==> spath[..|r.value.0|] == up[..|r.value.0|];
        r
  }

  /** The ascend loop succeeds exactly when the parent of `target` is the
      cursor or one of its ancestors below the root, and then stops at that
      parent. */
  lemma {:induction false} AscendFindsParent(spath: Path, target: Path)
    requires WellFormed(spath) && IsAbsolute(spath) && WellFormed(target)
    ensures Ascend(spath, target).Ok? <==>
      2 <= |target| <= |spath| + 1 && target[..|target| - 1] == spath[..|target| - 1]
    ensures Ascend(spath, target).Ok? ==>
      var (base, n) := Ascend(spath, target).value;
      base == target[..|target| - 1] && target == base + [Normal(n)]
    decreases |spath|
  {
    var r := Ascend(spath, target);
    match Subgroup(spath, target)
    case Some(n) =>
      SubgroupIff(spath, target, n);
      assert target[..|target| - 1] == spath;
    case None =>
      var d := |target|;
      var up := Pop(spath);
      if up != spath {
        assert up == spath[..|spath| - 1];
        AscendFindsParent(up, target);
        if 2 <= d <= |up| + 1 {
          assert spath[..d - 1] == up[..d - 1];
        }
      }
  }

  /** One line. A group line other than "/" ascends, inserts an empty group
      named by its last component (replacing any child of that name) and
      moves the cursor onto it. A dataset line parses its shape and inserts
      the dataset under the group at the cursor, not under the parent of
      its own path, and leaves the cursor where it is. Other lines change
      nothing. */
  function Step(c: Cursor, line: Line): (r: Result<Cursor, ParseError>)
    requires c.root.Group?
    ensures line.Unmatched? || line == GroupLine("/") ==> r == Ok(c)
    ensures line.DatasetLine? && line.braced.None? ==> r == Err(MalformedDataset)
    ensures line.DatasetLine? && r.Ok? ==> r.value.spath == c.spath
    ensures r.Ok? ==> r.value.root.Group? && r.value.root.name == c.root.name
  {
    match line
    case Unmatched => Ok(c)
    case GroupLine(s) =>
      if s == "/" then Ok(c)
      else
        (match Ascend(c.spath, FromText(s))
         case Err(e) => Err(e)
         case Ok((base, n)) =>
           match InsertAt(c.root, base, n, Group(n, map[]))
           case Err(e) => Err(Lookup(e))
           case Ok(root) => Ok(Cursor(root, base + [Normal(n)])))
    case DatasetLine(s, braced) =>
      if braced.None? then Err(MalformedDataset)
      else
        match ParseShape(braced.value)
        case Err(e) => Err(e)
        case Ok(shape) =>
          match FileName(FromText(s))
          case None => Err(NoFileName)
          case Some(n) =>
            match InsertAt(c.root, c.spath, n, Dataset(n, shape))
            case Err(e) => Err(Lookup(e))
            case Ok(root) => Ok(Cursor(root, c.spath))
  }

  /** The lines in order, stopping at the first error. `LegacyListing.Run`
      and `LegacyListing.FixedRun` are the same fold over the two steps of
      the older parser. */
  function Run(c: Cursor, lines: seq<Line>): (r: Result<Cursor, ParseError>)
    requires c.root.Group?
    ensures lines == [] ==> r == Ok(c)
    ensures r.Ok? ==> r.value.root.Group? && r.value.root.name == c.root.name
    decreases |lines|
  {
    if |lines| == 0 then Ok(c)
    else match Step(c, lines[0])
      case Err(e) => Err(e)
      case Ok(c') => Run(c', lines[1..])
  }

  /** The whole parse: the tree built from `Start()`. */
  function ParseListing(lines: seq<Line>): (r: Result<Node, ParseError>)
    ensures r.Ok? ==> r.value.Group? && r.value.name == "/"
  {
    match Run(Start(), lines)
    case Err(e) => Err(e)
    case Ok(c) => Ok(c.root)
  }

  /** `H5Group::parse`, with the loop over lines and the inner ascend loop. */
  method Parse(lines: seq<Line>) returns (r: Result<Node, ParseError>)
    ensures r == ParseListing(lines)
    ensures r.Ok? ==> r.value.Group? && r.value.name == "/"
  {
    var root := Group("/", map[]);
    var spath := [Root];
    var i := 0;
    while i < |lines|
      invariant 0 <= i <= |lines|
      invariant root.Group? && root.name == "/"
      invariant Run(Start(), lines) == Run(Cursor(root, spath), lines[i..])
    {
      assert lines[i..][0] == lines[i] && lines[i..][1..] == lines[i + 1..];
      ghost var before := Cursor(root, spath);
      match lines[i] {
        case Unmatched =>
        case GroupLine(s) =>
        if s != "/" {
          var target := FromText(s);
          var name := Subgroup(spath, target);
          while name.None?
            invariant name == Subgroup(spath, target)
            invariant Ascend(spath, target) == Ascend(before.spath, target)
            decreases |spath|
          {
            var up := Pop(spath);
            if up == spath {
              return Err(StructuralViolation);
            }
            spath := up;
            name := Subgroup(spath, target);
          }
          var n := name.value;
          var inserted := InsertAt(root, spath, n, Group(n, map[]));
          if inserted.Err? {
            return Err(Lookup(inserted.error));
          }
          root := inserted.value;
          spath := spath + [Normal(n)];
        }
        case DatasetLine(s, braced) =>
        if braced.None? {
          return Err(MalformedDataset);
        }
        var shape := ParseShape(braced.value);
        if shape.Err? {
          return Err(shape.error);
        }
        var n := FileName(FromText(s));
        if n.None? {
          return Err(NoFileName);
        }
        var inserted := InsertAt(root, spath, n.value, Dataset(n.value, shape.value));
        if inserted.Err? {
          return Err(Lookup(inserted.error));
        }
        root := inserted.value;
      }
      assert Step(before, lines[i]) == Ok(Cursor(root, spath));
      i := i + 1;
    }
    return Ok(root);
  }

  /** What holds of the parser's state between lines: the root is a group
      named "/" and the cursor is a well-formed absolute path to a group. */
  ghost predicate Inv(c: Cursor)
  {
    && c.root.Group? && c.root.name == "/"
    && WellFormed(c.spath) && IsAbsolute(c.spath)
    && LocateMut(c.root, c.spath).Ok?
  }

  /** A group line other than "/": it fails, with `StructuralViolation`,
      exactly when the parent of its path is neither the cursor nor one of
      the cursor's ancestors below the root. Otherwise the cursor becomes
      the line's path, an empty group of the line's last name is found
      there, and it was added under the parent group with nothing else in
      that group changed. */
  lemma GroupLineEffect(c: Cursor, s: string)
    requires Inv(c) && s != "/"
    ensures var target := FromText(s);
      var d := |target|;
      Step(c, GroupLine(s)).Ok? <==>
        2 <= d <= |c.spath| + 1 && target[..d - 1] == c.spath[..d - 1]
    ensures Step(c, GroupLine(s)).Err? ==> Step(c, GroupLine(s)).error == StructuralViolation
    ensures Step(c, GroupLine(s)).Ok? ==>
      var target := FromText(s);
      var parent := target[..|target| - 1];
      var n := target[|target| - 1].name;
      var c' := Step(c, GroupLine(s)).value;
      && c'.spath == target
      && LocateMut(c'.root, target) == Ok(Group(n, map[]))
      && LocateMut(c.root, parent).Ok?
      && LocateMut(c'.root, parent) ==
         Ok(Group(LocateMut(c.root, parent).value.name, LocateMut(c.root, parent).value.children[n := Group(n, map[])]))
  {
    var target := FromText(s);
    AscendFindsParent(c.spath, target);
    if Ascend(c.spath, target).Ok? {
      var (base, n) := Ascend(c.spath, target).value;
      assert Step(c, GroupLine(s)) ==
        match InsertAt(c.root, base, n, Group(n, map[]))
        case Err(e) => Err(Lookup(e))
        case Ok(root) => Ok(Cursor(root, base + [Normal(n)]));
      assert target[|target| - 1] == Normal(n);
      assert ValidName(n);
      LocateMutPrefix(c.root, c.spath, |base|);
      assert c.spath[..|base|] == base;
      InsertAtLocates(c.root, base, n, Group(n, map[]));
      InsertAtChild(c.root, base, n, Group(n, map[]));
    } else {
      assert Step(c, GroupLine(s)) == Err(Ascend(c.spath, target).error);
    }
  }

  /** A dataset line whose shape parses and whose path ends in a name:
      the dataset is added under the group at the cursor, whatever the
      line's own path says, and the cursor does not move. */
  lemma DatasetLineEffect(c: Cursor, s: string, t: string)
    requires Inv(c)
    ensures Step(c, DatasetLine(s, Some(t))).Ok? <==> ParseShape(t).Ok? && FileName(FromText(s)).Some?
    ensures Step(c, DatasetLine(s, Some(t))).Ok? ==>
      var n := FileName(FromText(s)).value;
      var m := LocateMut(c.root, c.spath).value;
      && Step(c, DatasetLine(s, Some(t))).value.spath == c.spath
      && LocateMut(Step(c, DatasetLine(s, Some(t))).value.root, c.spath) ==
         Ok(Group(m.name, m.children[n := Dataset(n, ParseShape(t).value)]))
  {
    if ParseShape(t).Ok? && FileName(FromText(s)).Some? {
      var n := FileName(FromText(s)).value;
      InsertAtLocates(c.root, c.spath, n, Dataset(n, ParseShape(t).value));
    }
  }

  /** The dataset line as evidently intended: the dataset goes under the
      group its own path names as parent, not under the cursor, and the
      cursor stays where it is. */
  function PlaceDataset(c: Cursor, s: string, braced: Option<string>): (r: Result<Cursor, ParseError>)
    requires c.root.Group?
    ensures braced.None? ==> r == Err(MalformedDataset)
    ensures r.Ok? ==> r.value.spath == c.spath && r.value.root.Group? && r.value.root.name == c.root.name
  {
    if braced.None? then Err(MalformedDataset)
    else
      match ParseShape(braced.value)
      case Err(e) => Err(e)
      case Ok(shape) =>
        var path := FromText(s);
        match FileName(path)
        case None => Err(NoFileName)
        case Some(n) =>
          match InsertAt(c.root, path[..|path| - 1], n, Dataset(n, shape))
          case Err(e) => Err(Lookup(e))
          case Ok(root) => Ok(Cursor(root, c.spath))
  }

  /** With the corrected placement a dataset line succeeds exactly when its
      shape parses, its path ends in a name and the parent group of that
      path exists. */
  lemma PlacedDatasetIff(c: Cursor, s: string, t: string)
    requires c.root.Group?
    ensures var path := FromText(s);
      PlaceDataset(c, s, Some(t)).Ok? <==>
        ParseShape(t).Ok? && FileName(path).Some? && LocateMut(c.root, path[..|path| - 1]).Ok?
  {
    var path := FromText(s);
    if ParseShape(t).Err? {
      assert PlaceDataset(c, s, Some(t)) == Err(ParseShape(t).error);
    } else if FileName(path).None? {
      assert PlaceDataset(c, s, Some(t)) == Err(NoFileName);
    } else {
      var n := FileName(path).value;
      var d := Dataset(n, ParseShape(t).value);
      assert PlaceDataset(c, s, Some(t)).Ok? <==> InsertAt(c.root, path[..|path| - 1], n, d).Ok?;
    }
  }

  /** ... and the dataset is then found at its own path, which is what the
      listing says about it. */
  lemma PlacedDatasetFound(c: Cursor, s: string, t: string)
    requires c.root.Group?
    ensures PlaceDataset(c, s, Some(t)).Ok? ==>
      var n := FileName(FromText(s)).value;
      Locate(PlaceDataset(c, s, Some(t)).value.root, FromText(s)) == Ok(Dataset(n, ParseShape(t).value))
  {
    var path := FromText(s);
    if ParseShape(t).Err? {
      assert PlaceDataset(c, s, Some(t)) == Err(ParseShape(t).error);
    } else if FileName(path).None? {
      assert PlaceDataset(c, s, Some(t)) == Err(NoFileName);
    } else {
      var n := FileName(path).value;
      var parent := path[..|path| - 1];
      var d := Dataset(n, ParseShape(t).value);
      var inserted := InsertAt(c.root, parent, n, d);
      if inserted.Ok? {
        assert PlaceDataset(c, s, Some(t)) == Ok(Cursor(inserted.value, c.spath));
        FileNameSplits(path);
        InsertedFoundBelow(c.root, parent, n, d);
      } else {
        assert PlaceDataset(c, s, Some(t)) == Err(Lookup(inserted.error));
      }
    }
  }

  /** A node inserted under `n` at `parent` is found at `parent` joined with
      `n`, whether it is a group or a dataset. */
  lemma InsertedFoundBelow(g: Node, parent: Path, n: string, d: Node)
    requires g.Group? && WellFormed(parent) && InsertAt(g, parent, n, d).Ok?
    ensures Locate(InsertAt(g, parent, n, d).value, parent + [Normal(n)]) == Ok(d)
  {
    var root := InsertAt(g, parent, n, d).value;
    InsertAtLocates(g, parent, n, d);
    LocateMutAgrees(root, parent);
    LocateAppend(root, parent, [Normal(n)]);
  }

  /** Each line keeps the invariant, and no line ever fails a lookup: the
      `expect` inside `locate_mut` cannot panic during a parse. */
  lemma StepKeepsInv(c: Cursor, line: Line)
    requires Inv(c)
    ensures Step(c, line).Ok? ==> Inv(Step(c, line).value)
    ensures Step(c, line).Err? ==> !Step(c, line).error.Lookup?
  {
    match line
    case Unmatched =>
    case GroupLine(s) =>
      if s != "/" {
        GroupLineEffect(c, s);
        var target := FromText(s);
        if Step(c, line).Ok? {
          assert Step(c, line).value.spath == target;
        }
      }
    case DatasetLine(s, braced) =>
      if braced.Some? {
        DatasetLineEffect(c, s, braced.value);
      }
  }

  lemma {:induction false} RunKeepsInv(c: Cursor, lines: seq<Line>)
    requires Inv(c)
    ensures Run(c, lines).Ok? ==> Inv(Run(c, lines).value)
    ensures Run(c, lines).Err? ==> !Run(c, lines).error.Lookup?
    decreases |lines|
  {
    if |lines| > 0 {
      StepKeepsInv(c, lines[0]);
      if Step(c, lines[0]).Ok? {
        RunKeepsInv(Step(c, lines[0]).value, lines[1..]);
      }
    }
  }

  /** A parse either yields a group named "/" or fails with one of the
      listing's own errors, never with a lookup error. */
  lemma ParseOutcome(lines: seq<Line>)
    ensures ParseListing(lines).Ok? ==> ParseListing(lines).value.Group? && ParseListing(lines).value.name == "/"
    ensures ParseListing(lines).Err? ==> !ParseListing(lines).error.Lookup?
  {
    assert Inv(Start());
    RunKeepsInv(Start(), lines);
  }
}

/** Worked examples of the listing parser on small listings. */
module ListingExamples {
  import opened Results
  import opened Strings
  import opened Paths
  import opened ArchiveTree
  import opened Listing

  lemma PathText(a: string, b: string)
    requires ValidName(a) && ValidName(b)
    ensures FromText("/" + a) == [Root, Normal(a)]
    ensures FromText("/" + a + "/" + b) == [Root, Normal(a), Normal(b)]
  {
    assert Texts([Normal(a)]) == [a];
    assert Texts([Normal(a), Normal(b)]) == [a, b];
    assert Join([a, b], "/") == a + "/" + b;
    RootedRoundTrip([Normal(a)]);
    RootedRoundTrip([Normal(a), Normal(b)]);
    assert "/" + (a + "/" + b) == "/" + a + "/" + b;
  }

  function TreeA(): Node { Group("/", map["a" := Group("a", map[])]) }
  function TreeAB(): Node { Group("/", map["a" := Group("a", map["b" := Group("b", map[])])]) }
  function TreeABC(): Node
  {
    Group("/", map["a" := Group("a", map["b" := Group("b", map["c" := Dataset("c", [])])])])
  }
  function TreeABCD(): Node
  {
    Group("/", map["a" := Group("a", map[
      "b" := Group("b", map["c" := Dataset("c", [])]),
      "d" := Group("d", map[])])])
  }

  lemma OpenA()
    ensures Step(Start(), GroupLine("/a")) == Ok(Cursor(TreeA(), [Root, Normal("a")]))
  {
    PathText("a", "b");
    SubgroupJoin([Root], "a");
  }

  lemma OpenAB()
    ensures Step(Cursor(TreeA(), [Root, Normal("a")]), GroupLine("/a/b"))
         == Ok(Cursor(TreeAB(), [Root, Normal("a"), Normal("b")]))
  {
    var pa := [Root, Normal("a")];
    PathText("a", "b");
    assert "/a/b" == "/" + "a" + "/" + "b";
    assert FromText("/a/b") == pa + [Normal("b")];
    SubgroupJoin(pa, "b");
    assert Ascend(pa, pa + [Normal("b")]) == Ok((pa, "b"));
    InsertB();
  }

  lemma InsertB()
    ensures InsertAt(TreeA(), [Root, Normal("a")], "b", Group("b", map[])) == Ok(TreeAB())
  {
    assert RootSkip(TreeA(), [Root, Normal("a")]) == Ok([Normal("a")]);
    assert [Normal("a")][1..] == [];
    assert InsertAt(Group("a", map[]), [], "b", Group("b", map[])) == Ok(Group("a", map["b" := Group("b", map[])]));
    assert ComponentText(Normal("a")) == "a";
    assert "a" in TreeA().children && TreeA().children["a"] == Group("a", map[]);
    assert TreeA().children["a" := Group("a", map["b" := Group("b", map[])])] == TreeAB().children;
  }

  lemma PathABC()
    ensures FileName(FromText("/a/b/c")) == Some("c")
  {
    assert Texts([Normal("a"), Normal("b"), Normal("c")]) == ["a", "b", "c"];
    assert Join(["a", "b", "c"], "/") == "a/b/c";
    assert "/a/b/c" == "/" + "a/b/c";
    RootedRoundTrip([Normal("a"), Normal("b"), Normal("c")]);
  }

  lemma InsertC()
    ensures InsertAt(TreeAB(), [Root, Normal("a"), Normal("b")], "c", Dataset("c", [])) == Ok(TreeABC())
  {
    var gb := Group("b", map[]);
    var gb' := Group("b", map["c" := Dataset("c", [])]);
    assert InsertAt(gb, [], "c", Dataset("c", [])) == Ok(gb');
    assert [Normal("a"), Normal("b")][1..] == [Normal("b")];
    assert [Normal("b")][1..] == [];
    assert ComponentText(Normal("b")) == "b" && ComponentText(Normal("a")) == "a";
    assert map["b" := gb]["b" := gb'] == map["b" := gb'];
    assert InsertAt(Group("a", map["b" := gb]), [Normal("b")], "c", Dataset("c", []))
        == Ok(Group("a", map["b" := gb']));
    assert TreeAB().children["a" := Group("a", map["b" := gb'])] == TreeABC().children;
  }

  lemma AddC()
    ensures Step(Cursor(TreeAB(), [Root, Normal("a"), Normal("b")]), DatasetLine("/a/b/c", Some("SCALAR")))
         == Ok(Cursor(TreeABC(), [Root, Normal("a"), Normal("b")]))
  {
    PathABC();
    assert ParseShape("SCALAR") == Ok([]);
    InsertC();
  }

  lemma AscendAD()
    ensures Ascend([Root, Normal("a"), Normal("b")], FromText("/a/d")) == Ok(([Root, Normal("a")], "d"))
  {
    var pa := [Root, Normal("a")];
    var pab := [Root, Normal("a"), Normal("b")];
    var pad := [Root, Normal("a"), Normal("d")];
    PathText("a", "d");
    assert "/a/d" == "/" + "a" + "/" + "d";
    assert FromText("/a/d") == pad;
    assert StripPrefix(pad, pab) == None;
    assert Subgroup(pab, pad) == None;
    assert Pop(pab) == pa;
    SubgroupJoin(pa, "d");
    assert pad == pa + [Normal("d")];
  }

  lemma InsertD()
    ensures InsertAt(TreeABC(), [Root, Normal("a")], "d", Group("d", map[])) == Ok(TreeABCD())
  {
    var ga := Group("a", map["b" := Group("b", map["c" := Dataset("c", [])])]);
    assert InsertAt(ga, [], "d", Group("d", map[])) == Ok(Group("a", ga.children["d" := Group("d", map[])]));
    assert RootSkip(TreeABC(), [Root, Normal("a")]) == Ok([Normal("a")]);
    assert [Normal("a")][1..] == [];
    assert ComponentText(Normal("a")) == "a";
    assert "a" in TreeABC().children && TreeABC().children["a"] == ga;
    assert TreeABC().children["a" := Group("a", ga.children["d" := Group("d", map[])])] == TreeABCD().children;
  }

  lemma OpenAD()
    ensures Step(Cursor(TreeABC(), [Root, Normal("a"), Normal("b")]), GroupLine("/a/d"))
         == Ok(Cursor(TreeABCD(), [Root, Normal("a"), Normal("d")]))
  {
    AscendAD();
    InsertD();
    assert [Root, Normal("a")] + [Normal("d")] == [Root, Normal("a"), Normal("d")];
  }

  /** A listing with one nested group, a scalar dataset and a sibling group. */
  lemma NestedListing()
    ensures ParseListing([
        GroupLine("/"), GroupLine("/a"), GroupLine("/a/b"),
        DatasetLine("/a/b/c", Some("SCALAR")), GroupLine("/a/d")])
      == Ok(TreeABCD())
  {
    var lines := [
        GroupLine("/"), GroupLine("/a"), GroupLine("/a/b"),
        DatasetLine("/a/b/c", Some("SCALAR")), GroupLine("/a/d")];
    OpenA();
    OpenAB();
    AddC();
    OpenAD();
    var c4 := Cursor(TreeABCD(), [Root, Normal("a"), Normal("d")]);
    assert Run(c4, lines[5..]) == Ok(c4);
    assert Run(Cursor(TreeABC(), [Root, Normal("a"), Normal("b")]), lines[4..]) == Ok(c4);
    assert Run(Cursor(TreeAB(), [Root, Normal("a"), Normal("b")]), lines[3..]) == Ok(c4);
    assert Run(Cursor(TreeA(), [Root, Normal("a")]), lines[2..]) == Ok(c4);
    assert Run(Start(), lines[1..]) == Ok(c4);
  }

  function TreeABY(): Node
  {
    Group("/", map["a" := Group("a", map["b" := Group("b", map["y" := Dataset("y", [])])])])
  }

  lemma InsertY()
    ensures InsertAt(TreeAB(), [Root, Normal("a"), Normal("b")], "y", Dataset("y", [])) == Ok(TreeABY())
  {
    var gb := Group("b", map[]);
    var gb' := Group("b", map["y" := Dataset("y", [])]);
    assert InsertAt(gb, [], "y", Dataset("y", [])) == Ok(gb');
    assert [Normal("a"), Normal("b")][1..] == [Normal("b")];
    assert [Normal("b")][1..] == [];
    assert ComponentText(Normal("b")) == "b" && ComponentText(Normal("a")) == "a";
    assert map["b" := gb]["b" := gb'] == map["b" := gb'];
    assert InsertAt(Group("a", map["b" := gb]), [Normal("b")], "y", Dataset("y", []))
        == Ok(Group("a", map["b" := gb']));
    assert TreeAB().children["a" := Group("a", map["b" := gb'])] == TreeABY().children;
  }

  lemma AddY()
    ensures Step(Cursor(TreeAB(), [Root, Normal("a"), Normal("b")]), DatasetLine("/a/y", Some("SCALAR")))
         == Ok(Cursor(TreeABY(), [Root, Normal("a"), Normal("b")]))
  {
    PathText("a", "y");
    assert "/a/y" == "/" + "a" + "/" + "y";
    assert FileName(FromText("/a/y")) == Some("y");
    assert ParseShape("SCALAR") == Ok([]);
    InsertY();
  }

  /** A group `a` holding a subgroup `b` and a dataset `y`, listed depth
      first: the dataset line comes while the cursor is still on "/a/b", so
      `y` is stored under `b`, and its own path "/a/y" does not resolve. */
  lemma DatasetUnderCursor()
    ensures ParseListing([GroupLine("/a"), GroupLine("/a/b"), DatasetLine("/a/y", Some("SCALAR"))])
         == Ok(TreeABY())
    ensures Locate(TreeABY(), FromText("/a/y")) == Err(NotFound("y"))
  {
    ParseUnderCursor();
    PathAY();
    YNotAtItsPath();
  }

  lemma PathAY()
    ensures FromText("/a/y") == [Root, Normal("a"), Normal("y")]
  {
    PathText("a", "y");
    assert "/a/y" == "/" + "a" + "/" + "y";
  }

  lemma YNotAtItsPath()
    ensures Locate(TreeABY(), [Root, Normal("a"), Normal("y")]) == Err(NotFound("y"))
  {
    var ga := TreeABY().children["a"];
    assert RootSkip(TreeABY(), [Root, Normal("a"), Normal("y")]) == Ok([Normal("a"), Normal("y")]);
    assert ComponentText(Normal("a")) == "a" && ComponentText(Normal("y")) == "y";
    assert [Normal("a"), Normal("y")][1..] == [Normal("y")];
    assert "y" !in ga.children;
    assert Locate(ga, [Normal("y")]) == Err(NotFound("y"));
  }

  lemma ParseUnderCursor()
    ensures ParseListing([GroupLine("/a"), GroupLine("/a/b"), DatasetLine("/a/y", Some("SCALAR"))])
         == Ok(TreeABY())
  {
    var lines := [GroupLine("/a"), GroupLine("/a/b"), DatasetLine("/a/y", Some("SCALAR"))];
    OpenA();
    OpenAB();
    AddY();
    var c3 := Cursor(TreeABY(), [Root, Normal("a"), Normal("b")]);
    assert Run(c3, lines[3..]) == Ok(c3);
    assert Run(Cursor(TreeAB(), [Root, Normal("a"), Normal("b")]), lines[2..]) == Ok(c3);
    assert Run(Cursor(TreeA(), [Root, Normal("a")]), lines[1..]) == Ok(c3);
  }

  /** A group listed before its parent cannot be placed: the cursor is at
      the root and the loop in the Rust code would pop forever. */
  lemma GroupBeforeParent()
    ensures ParseListing([GroupLine("/x/y")]) == Err(StructuralViolation)
  {
    PathText("x", "y");
  }
}
