/** Paths as the archive code sees them through Rust's `Path` and `PathBuf`:
    a sequence of components, the first of which may be the root. Only the
    operations the two listing parsers use are modelled: building a path from
    text, `strip_prefix`, `pop`, `file_name`, and the one-level containment
    test `subgroup` built on `strip_prefix`. */
module Paths {
  import opened Results
  import Strings

  datatype Component = Root | Normal(name: string)

  type Path = seq<Component>

  /** `Component::as_os_str().to_str()`: the root prints as "/". */
  function ComponentText(c: Component): string
  {
    match c
    case Root => "/"
    case Normal(n) => n
  }

  /** A component name: not empty and free of separators. */
  predicate ValidName(n: string) { n != "" && '/' !in n }

  /** What `PathBuf::from` can produce: the root only in front, every other
      component a valid name. */
  predicate WellFormed(p: Path)
  {
    forall i :: 0 <= i < |p| ==> if p[i].Root? then i == 0 else ValidName(p[i].name)
  }

  /** `Path::is_absolute` on a Unix target: the path starts at the root. */
  predicate IsAbsolute(p: Path) { |p| > 0 && p[0] == Root }

  /** The non-empty segments between separators, each a normal component. */
  function Names(segments: seq<string>): (p: Path)
    requires forall i :: 0 <= i < |segments| ==> '/' !in segments[i]
    ensures forall i :: 0 <= i < |p| ==> p[i].Normal? && ValidName(p[i].name)
  {
    if |segments| == 0 then []
    else (if segments[0] == "" then [] else [Normal(segments[0])]) + Names(segments[1..])
  }

  /** `PathBuf::from(s)` followed by `components()`: a leading "/" gives the
      root, repeated and trailing separators are ignored. */
  function FromText(s: string): (p: Path)
    ensures WellFormed(p)
    ensures IsAbsolute(p) <==> |s| > 0 && s[0] == '/'
  {
    var names := Names(Strings.Split(s, "/"));
    if |s| > 0 && s[0] == '/' then [Root] + names else names
  }

  /** The texts of the components, in order. */
  function Texts(p: Path): seq<string>
  {
    seq(|p|, i requires 0 <= i < |p| => ComponentText(p[i]))
  }

  /** The text of a path: "/" and the names joined by "/" when it is
      absolute, the names joined by "/" otherwise. */
  function Render(p: Path): string
  {
    if IsAbsolute(p) then "/" + Strings.Join(Texts(p[1..]), "/") else Strings.Join(Texts(p), "/")
  }

  lemma {:induction false} NamesOfTexts(p: Path)
    requires forall i :: 0 <= i < |p| ==> p[i].Normal? && ValidName(p[i].name)
    ensures forall i :: 0 <= i < |Texts(p)| ==> '/' !in Texts(p)[i]
    ensures Names(Texts(p)) == p
    ensures Names([""] + Texts(p)) == p
  {
    var t := Texts(p);
    assert ([""] + t)[1..] == t;
    assert Names([""] + t) == Names(t);
    if |p| > 0 {
      NamesOfTexts(p[1..]);
      assert t[0] == p[0].name != "";
      assert t[1..] == Texts(p[1..]);
      assert Names(t) == [Normal(t[0])] + Names(t[1..]);
      assert p == [p[0]] + p[1..];
    }
  }

  /** Reading back the text of a well-formed path gives the same path. */
  lemma RenderRoundTrip(p: Path)
    requires WellFormed(p)
    ensures FromText(Render(p)) == p
  {
    if IsAbsolute(p) {
      RootedRoundTrip(p[1..]);
      assert p == [Root] + p[1..];
    } else {
      NamesRoundTrip(p);
    }
  }

  lemma NamesRoundTrip(q: Path)
    requires forall i :: 0 <= i < |q| ==> q[i].Normal? && ValidName(q[i].name)
    ensures FromText(Strings.Join(Texts(q), "/")) == q
  {
    var names := Texts(q);
    var s := Strings.Join(names, "/");
    NamesOfTexts(q);
    if |names| == 0 {
      assert s == "";
      assert Strings.Split(s, "/") == [""];
    } else {
      Strings.SplitJoin(names, "/");
      assert !(|s| > 0 && s[0] == '/') by {
        if |names| == 1 {
          assert s == names[0];
        } else {
          assert s == names[0] + "/" + Strings.Join(names[1..], "/");
        }
        assert s[0] == names[0][0];
      }
    }
  }

  lemma RootedRoundTrip(q: Path)
    requires forall i :: 0 <= i < |q| ==> q[i].Normal? && ValidName(q[i].name)
    ensures FromText("/" + Strings.Join(Texts(q), "/")) == [Root] + q
  {
    var names := Texts(q);
    var s := "/" + Strings.Join(names, "/");
    NamesOfTexts(q);
    var parts := [""] + names;
    if |names| == 0 {
      assert s == "/";
      assert Strings.Split("", "/") == [""];
      assert s[..1] == "/" && s[1..] == "";
      assert Strings.Split(s, "/") == ["", ""];
      assert Names(["", ""]) == [];
    } else {
      assert parts[1..] == names;
      assert Strings.Join(parts, "/") == s;
      Strings.SplitJoin(parts, "/");
    }
  }

  /** `child.strip_prefix(parent)`: the components of `child` after
      `parent`, when `parent` is a component-wise prefix of `child`. */
  function StripPrefix(child: Path, parent: Path): (r: Option<Path>)
    ensures r.Some? <==> |parent| <= |child| && child[..|parent|] == parent
    ensures r.Some? ==> child == parent + r.value
    decreases |parent|
  {
    if |parent| == 0 then
      assert child == parent + child;
      Some(child)
    else if |child| == 0 || child[0] != parent[0] then None
    else
      var r := StripPrefix(child[1..], parent[1..]);
      assert |parent| <= |child| ==> child[..|parent|] == [child[0]] + child[1..][..|parent| - 1];
      assert parent == [parent[0]] + parent[1..];
      assert r.Some? ==> child == [child[0]] + (parent[1..] + r.value);
      r
  }

  /** `subgroup(parent, child)`: the name of `child` when it lies exactly
      one component below `parent`, and `None` otherwise. */
  function Subgroup(parent: Path, child: Path): (r: Option<string>)
    ensures r.Some? ==> |child| == |parent| + 1 && child[..|parent|] == parent
    ensures r.Some? ==> r.value == ComponentText(child[|parent|])
    ensures |child| != |parent| + 1 ==> r.None?
  {
    match StripPrefix(child, parent)
    case None => None
    case Some(rel) => if |rel| == 1 then Some(ComponentText(rel[0])) else None
  }

  /** `subgroup` answers `Some(n)` exactly when `child` is `parent` joined
      with the single component `n`; `parent` is non-empty, as every cursor
      of the parsers is. */
  lemma SubgroupIff(parent: Path, child: Path, n: string)
    requires |parent| > 0 && WellFormed(child)
    ensures Subgroup(parent, child) == Some(n) <==> child == parent + [Normal(n)]
  {
    if child == parent + [Normal(n)] {
      assert child[..|parent|] == parent;
      var rel := StripPrefix(child, parent).value;
      assert parent + rel == parent + [Normal(n)];
      assert rel == [Normal(n)];
    }
    if Subgroup(parent, child) == Some(n) {
      var rel := StripPrefix(child, parent).value;
      assert child[|parent|] == rel[0];
    }
  }

  /** Joining a valid name onto any path and asking `subgroup` gives the
      name back. */
  lemma SubgroupJoin(parent: Path, n: string)
    requires ValidName(n)
    ensures Subgroup(parent, parent + [Normal(n)]) == Some(n)
  {
    var child := parent + [Normal(n)];
    assert child[..|parent|] == parent;
    var rel := StripPrefix(child, parent).value;
    assert parent + rel == parent + [Normal(n)];
    assert rel == [Normal(n)];
  }

  /** `PathBuf::pop`: truncate to the parent. The root and the empty path
      have no parent and are left unchanged. */
  function Pop(p: Path): (r: Path)
    ensures r == p <==> p == [] || p == [Root]
    ensures r != p ==> r + [p[|p| - 1]] == p
  {
    if p == [] || p == [Root] then p else p[..|p| - 1]
  }

  /** `Path::file_name`: the last component when it is a name. */
  function FileName(p: Path): (r: Option<string>)
    ensures r.Some? <==> |p| > 0 && p[|p| - 1].Normal?
    ensures r.Some? ==> r.value == p[|p| - 1].name
  {
    if |p| > 0 && p[|p| - 1].Normal? then Some(p[|p| - 1].name) else None
  }

  /** A path with a file name is its parent joined with that name, and the
      parent of a well-formed path is well-formed. */
  lemma FileNameSplits(p: Path)
    requires WellFormed(p) && FileName(p).Some?
    ensures WellFormed(p[..|p| - 1])
    ensures p == p[..|p| - 1] + [Normal(FileName(p).value)]
  {
  }
}
