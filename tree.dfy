/** The archive tree of `src/h5meta.rs`: a node is either a group owning
    children keyed by name, or a dataset with a shape. Lookups that panic in
    the Rust code return a `LookupError` here. The in-place insertion through
    the `&mut` borrow returned by `locate_mut` becomes `InsertAt`, a function
    that rebuilds the path from the root to the changed group. */
module ArchiveTree {
  import opened Results
  import opened Paths

  datatype Node =
    | Group(name: string, children: map<string, Node>)
    | Dataset(name: string, shape: seq<nat>)

  datatype LookupError =
    | NotFound(component: string)  // "Group \"..\" doesn't exist."
    | NotAGroup                    // "Failed to cast H5Obj into H5Group."
    | AbsoluteFromNonRoot          // "Absolute path cannot be traced from here."

  /** A path of names only: what a well-formed path is once the root skip
      has removed its root, and every tail the lookups recurse on. */
  predicate Relative(p: Path) { forall i :: 0 <= i < |p| ==> p[i].Normal? }

  /** The root-skip rule shared by `locate` and `locate_mut`: an absolute
      path loses its root component when the receiver is named "/", and is
      refused by any other receiver. */
  function RootSkip(n: Node, p: Path): (r: Result<Path, LookupError>)
    ensures r.Err? <==> IsAbsolute(p) && n.name != "/"
    ensures r.Err? ==> r.error == AbsoluteFromNonRoot
    ensures r.Ok? && IsAbsolute(p) ==> p == [Root] + r.value
    ensures r.Ok? && !IsAbsolute(p) ==> r.value == p
    ensures r.Ok? && WellFormed(p) ==> Relative(r.value)
  {
    if IsAbsolute(p) then
      if n.name == "/" then Ok(p[1..]) else Err(AbsoluteFromNonRoot)
    else Ok(p)
  }

  /** `H5Obj::locate`: resolve `p` from `n`. An exhausted path gives the
      receiver itself; every further step needs a group (the `to_group`
      cast) and a child of that name. */
  function Locate(n: Node, p: Path): (r: Result<Node, LookupError>)
    ensures p == [] ==> r == Ok(n)
    ensures IsAbsolute(p) && n.name != "/" ==> r == Err(AbsoluteFromNonRoot)
    ensures WellFormed(p) && IsAbsolute(p) && n.name == "/" ==> r == Locate(n, p[1..])
    ensures n.Dataset? && r.Ok? ==> r.value == n
    ensures n.Dataset? && RootSkip(n, p).Ok? && RootSkip(n, p).value != [] ==> r == Err(NotAGroup)
    ensures n.Group? && |p| == 1 && p[0].Normal? ==>
      r == if p[0].name in n.children then Ok(n.children[p[0].name]) else Err(NotFound(p[0].name))
    decreases |p|
  {
    match RootSkip(n, p)
    case Err(e) => Err(e)
    case Ok(rest) =>
      if |rest| == 0 then Ok(n)
      else match n
        case Dataset(_, _) => Err(NotAGroup)
        case Group(_, children) =>
          var key := ComponentText(rest[0]);
          if key in children then Locate(children[key], rest[1..]) else Err(NotFound(key))
  }

  /** `H5Obj::locate_group`: the located node when it is a group and `None`
      when it is a dataset. A failed lookup is passed on (it panics inside
      `locate` in the Rust code). */
  function LocateGroup(n: Node, p: Path): (r: Result<Option<Node>, LookupError>)
    ensures r.Err? <==> Locate(n, p).Err?
    ensures r.Err? ==> r.error == Locate(n, p).error
    ensures r.Ok? ==> (r.value.Some? <==> Locate(n, p).value.Group?)
    ensures r.Ok? && r.value.Some? ==> r.value.value == Locate(n, p).value
  {
    match Locate(n, p)
    case Err(e) => Err(e)
    case Ok(m) => if m.Group? then Ok(Some(m)) else Ok(None)
  }

  /** `H5Group::locate_mut`: the same walk from a group, except that each
      child is cast to a group as soon as it is looked up, so it always ends
      on a group. */
  function LocateMut(g: Node, p: Path): (r: Result<Node, LookupError>)
    requires g.Group?
    ensures r.Ok? ==> r.value.Group?
    ensures p == [] ==> r == Ok(g)
    ensures IsAbsolute(p) && g.name != "/" ==> r == Err(AbsoluteFromNonRoot)
    ensures WellFormed(p) && IsAbsolute(p) && g.name == "/" ==> r == LocateMut(g, p[1..])
    decreases |p|
  {
    match RootSkip(g, p)
    case Err(e) => Err(e)
    case Ok(rest) =>
      if |rest| == 0 then Ok(g)
      else
        var key := ComponentText(rest[0]);
        if key !in g.children then Err(NotFound(key))
        else
          var child := g.children[key];
          if child.Dataset? then Err(NotAGroup) else LocateMut(child, rest[1..])
  }

  /** `root.locate_mut(p).children.insert(key, child)`: the tree in which
      the group at `p` has `child` under `key`, replacing any node already
      there. It fails exactly when `locate_mut` does, with the same error. */
  function InsertAt(g: Node, p: Path, key: string, child: Node): (r: Result<Node, LookupError>)
    requires g.Group?
    ensures r.Ok? <==> LocateMut(g, p).Ok?
    ensures r.Err? ==> r.error == LocateMut(g, p).error
    ensures r.Ok? ==> r.value.Group? && r.value.name == g.name
    decreases |p|
  {
    match RootSkip(g, p)
    case Err(e) => Err(e)
    case Ok(rest) =>
      if |rest| == 0 then Ok(Group(g.name, g.children[key := child]))
      else
        var k := ComponentText(rest[0]);
        if k !in g.children then Err(NotFound(k))
        else
          var c := g.children[k];
          if c.Dataset? then Err(NotAGroup)
          else match InsertAt(c, rest[1..], key, child)
            case Err(e) => Err(e)
            case Ok(c') => Ok(Group(g.name, g.children[k := c']))
  }

  /** The group lookup `locate_mut` agrees with `locate`: it finds a group
      exactly where `locate` finds one, and fails with `NotAGroup` where
      `locate` ends on a dataset. */
  lemma {:induction false} LocateMutAgrees(g: Node, p: Path)
    requires g.Group? && WellFormed(p)
    ensures LocateMut(g, p) == match Locate(g, p)
      case Err(e) => Err(e)
      case Ok(m) => if m.Group? then Ok(m) else Err(NotAGroup)
    decreases |p|
  {
    match RootSkip(g, p)
    case Err(_) =>
    case Ok(rest) =>
      if |rest| > 0 {
        var key := ComponentText(rest[0]);
        if key in g.children {
          var child := g.children[key];
          assert WellFormed(rest[1..]) && !IsAbsolute(rest[1..]);
          if child.Group? {
            LocateMutAgrees(child, rest[1..]);
          } else if |rest| > 1 {
            assert Locate(child, rest[1..]) == Err(NotAGroup);
          }
        }
      }
  }

  /** Hence `locate_group` finds a group exactly where `locate_mut` does. */
  lemma LocateGroupAgrees(g: Node, p: Path, m: Node)
    requires g.Group? && WellFormed(p)
    ensures LocateGroup(g, p) == Ok(Some(m)) <==> LocateMut(g, p) == Ok(m)
  {
    LocateMutAgrees(g, p);
  }

  /** Walking `p` and then the names `q` is walking `p + q`. */
  lemma {:induction false} LocateMutAppend(g: Node, p: Path, q: Path)
    requires g.Group? && WellFormed(p) && Relative(q)
    ensures LocateMut(g, p + q) == match LocateMut(g, p)
      case Err(e) => Err(e)
      case Ok(m) => LocateMut(m, q)
    decreases |p|
  {
    if IsAbsolute(p) {
      if g.name == "/" {
        assert (p + q)[1..] == p[1..] + q;
        assert LocateMut(g, p) == LocateMut(g, p[1..]);
        assert LocateMut(g, p + q) == LocateMut(g, p[1..] + q);
        LocateMutAppend(g, p[1..], q);
      }
    } else if |p| == 0 {
      assert p + q == q;
    } else {
      assert IsAbsolute(p + q) == IsAbsolute(p);
      var key := ComponentText(p[0]);
      assert (p + q)[1..] == p[1..] + q;
      if key in g.children && g.children[key].Group? {
        LocateMutAppend(g.children[key], p[1..], q);
      }
    }
  }

  /** Walking `p` and then the names `q` with `locate` is walking `p + q`;
      in particular a walk that goes on below a dataset fails. */
  lemma {:induction false} LocateAppend(n: Node, p: Path, q: Path)
    requires WellFormed(p) && Relative(q)
    ensures Locate(n, p + q) == match Locate(n, p)
      case Err(e) => Err(e)
      case Ok(m) => Locate(m, q)
    decreases |p|
  {
    if IsAbsolute(p) {
      if n.name == "/" {
        assert (p + q)[1..] == p[1..] + q;
        LocateAppend(n, p[1..], q);
      }
    } else if |p| == 0 {
      assert p + q == q;
    } else {
      assert IsAbsolute(p + q) == IsAbsolute(p);
      assert (p + q)[1..] == p[1..] + q;
      if n.Group? {
        var key := ComponentText(p[0]);
        if key in n.children {
          LocateAppend(n.children[key], p[1..], q);
        }
      }
    }
  }

  /** Every ancestor of a group that `locate_mut` reaches is reachable too. */
  lemma LocateMutPrefix(g: Node, p: Path, j: nat)
    requires g.Group? && WellFormed(p) && 1 <= j <= |p|
    requires LocateMut(g, p).Ok?
    ensures LocateMut(g, p[..j]).Ok?
  {
    assert p == p[..j] + p[j..];
    assert Relative(p[j..]);
    LocateMutAppend(g, p[..j], p[j..]);
  }

  /** After `InsertAt`, the group at `p` is the one found there before with
      `child` added under `key`, and the new child is found one step below. */
  lemma {:induction false} InsertAtLocates(g: Node, p: Path, key: string, child: Node)
    requires g.Group? && WellFormed(p)
    requires InsertAt(g, p, key, child).Ok?
    ensures var m := LocateMut(g, p).value;
      LocateMut(InsertAt(g, p, key, child).value, p) == Ok(Group(m.name, m.children[key := child]))
    decreases |p|
  {
    match RootSkip(g, p)
    case Err(_) =>
    case Ok(rest) =>
      if |rest| > 0 {
        var k := ComponentText(rest[0]);
        var c := g.children[k];
        assert WellFormed(rest[1..]) && !IsAbsolute(rest[1..]);
        InsertAtLocates(c, rest[1..], key, child);
      }
  }

  /** After `InsertAt` with a valid name, the new child sits at `p` joined
      with that name. */
  lemma InsertAtChild(g: Node, p: Path, key: string, child: Node)
    requires g.Group? && WellFormed(p) && ValidName(key) && child.Group?
    requires InsertAt(g, p, key, child).Ok?
    ensures LocateMut(InsertAt(g, p, key, child).value, p + [Normal(key)]) == Ok(child)
  {
    var r := InsertAt(g, p, key, child).value;
    InsertAtLocates(g, p, key, child);
    LocateMutAppend(r, p, [Normal(key)]);
  }

  /** `q` reaches a node that an insertion of `key` at `p` leaves alone: it
      does not stop on the way to the group at `p` (which changes) and does
      not pass through the new entry `key` below it. */
  predicate Apart(p: Path, key: string, q: Path)
  {
    !(q <= p) && !(p + [Normal(key)] <= q)
  }

  lemma {:induction false} InsertAtFrameNames(g: Node, p: Path, key: string, child: Node, q: Path)
    requires g.Group? && Relative(p) && Relative(q)
    requires InsertAt(g, p, key, child).Ok? && Apart(p, key, q)
    ensures LocateMut(InsertAt(g, p, key, child).value, q) == LocateMut(g, q)
    decreases |p|
  {
    var r := InsertAt(g, p, key, child).value;
    assert |q| > 0;
    if |p| == 0 {
      assert p + [Normal(key)] == [Normal(key)];
    } else if q[0] == p[0] {
      var k := ComponentText(p[0]);
      var c := g.children[k];
      assert q == [q[0]] + q[1..] && p == [p[0]] + p[1..];
      assert p + [Normal(key)] == [p[0]] + (p[1..] + [Normal(key)]);
      InsertAtFrameNames(c, p[1..], key, child, q[1..]);
    }
  }

  /** An insertion at `p` changes nothing outside the group at `p` and the
      entry it writes there: every path that is apart from both, once the
      root skip is applied, finds what it found before. This is the frame
      of `children.insert` through the borrow `locate_mut` returns. */
  lemma InsertAtFrame(g: Node, p: Path, key: string, child: Node, q: Path)
    requires g.Group? && WellFormed(p) && WellFormed(q)
    requires InsertAt(g, p, key, child).Ok?
    requires RootSkip(g, q).Ok? ==> Apart(RootSkip(g, p).value, key, RootSkip(g, q).value)
    ensures LocateMut(InsertAt(g, p, key, child).value, q) == LocateMut(g, q)
  {
    var r := InsertAt(g, p, key, child).value;
    if RootSkip(g, q).Ok? {
      var p', q' := RootSkip(g, p).value, RootSkip(g, q).value;
      assert LocateMut(g, q) == LocateMut(g, q');
      assert LocateMut(r, q) == LocateMut(r, q');
      assert InsertAt(g, p, key, child) == InsertAt(g, p', key, child);
      InsertAtFrameNames(g, p', key, child, q');
    }
  }
}
