/** POSIX paths as the trainer builds them: joining literal names onto a
    directory, making a path absolute against the working directory, and the
    text form a path is written out as. A path is kept as its list of
    components; "/a/b" is Path(true, ["a", "b"]) and "a//b/" is
    Path(false, ["a", "b"]). */
module Paths {

  /** One path component: it never contains the separator. */
  type Component = s: string | '/' !in s

  datatype Path = Path(absolute: bool, parts: seq<Component>)

  type AbsolutePath = p: Path | p.absolute witness Path(true, [])

  /** A name that joins as exactly one ordinary component. */
  predicate PlainName(name: Component) {
    name != "" && name != "." && name != ".."
  }

  /** os.path.join(p, name) for a name that holds no separator. */
  function Join(p: Path, name: Component): (r: Path)
    requires name != ""
    ensures r.absolute == p.absolute && |r.parts| == |p.parts| + 1
  {
    Path(p.absolute, p.parts + [name])
  }

  // ---------------------------------------------------------------------------
  // os.path.normpath and os.path.abspath

  /** How normpath treats one more component after the already normalised
      prefix acc: empty and "." components vanish, ".." removes the last
      component unless there is none to remove (kept in a relative path,
      dropped at the root of an absolute one) or the last one is "..". */
  function NormStep(absolute: bool, acc: seq<Component>, c: Component): (r: seq<Component>)
    ensures r == acc + [c] || (|r| <= |acc| && r == acc[..|r|])
  {
    if c == "" || c == "." then acc
    else if c != ".." || (!absolute && acc == []) || (acc != [] && acc[|acc| - 1] == "..") then acc + [c]
    else if acc != [] then acc[..|acc| - 1]
    else acc
  }

  /** normpath's pass over the components, left to right: never longer than
      its input. */
  function NormParts(absolute: bool, parts: seq<Component>): (r: seq<Component>)
    ensures |r| <= |parts|
    decreases |parts|
  {
    if parts == [] then []
    else NormStep(absolute, NormParts(absolute, parts[..|parts| - 1]), parts[|parts| - 1])
  }

  /** os.path.normpath. */
  function Normalize(p: Path): (r: Path)
    ensures r.absolute == p.absolute
  {
    Path(p.absolute, NormParts(p.absolute, p.parts))
  }

  /** os.path.abspath, with the process's working directory made explicit. */
  function Abs(cwd: AbsolutePath, p: Path): (r: AbsolutePath)
    ensures Clean(r.parts)
  {
    var q := if p.absolute then p.parts else cwd.parts + p.parts;
    NormPartsAbsoluteClean(q);
    Normalize(Path(true, q))
  }

  /** No component is empty, "." or "..". */
  predicate Clean(parts: seq<Component>) {
    forall i :: 0 <= i < |parts| ==> parts[i] != "" && parts[i] != "." && parts[i] != ".."
  }

  /** What normpath leaves of a relative path: no empty or "." component, and
      every ".." comes before every other component. */
  predicate RelativeNormal(parts: seq<Component>) {
    && (forall i :: 0 <= i < |parts| ==> parts[i] != "" && parts[i] != ".")
    && (forall i, j :: 0 <= i < j < |parts| && parts[j] == ".." ==> parts[i] == "..")
  }

  lemma {:induction false} NormPartsAbsoluteClean(parts: seq<Component>)
    ensures Clean(NormParts(true, parts))
    decreases |parts|
  {
    if parts != [] {
      NormPartsAbsoluteClean(parts[..|parts| - 1]);
    }
  }

  lemma {:induction false} NormPartsRelativeNormal(parts: seq<Component>)
    ensures RelativeNormal(NormParts(false, parts))
    decreases |parts|
  {
    if parts != [] {
      var acc := NormParts(false, parts[..|parts| - 1]);
      NormPartsRelativeNormal(parts[..|parts| - 1]);
      var c := parts[|parts| - 1];
      if c != "" && c != "." && c == ".." && (acc == [] || acc[|acc| - 1] == "..") {
        forall i | 0 <= i < |acc| ensures acc[i] == ".." {
          if i < |acc| - 1 {
            assert acc[|acc| - 1] == "..";
          }
        }
      }
    }
  }

  /** A path already in normal form is left alone by normpath. */
  lemma {:induction false} NormPartsFixed(absolute: bool, parts: seq<Component>)
    requires if absolute then Clean(parts) else RelativeNormal(parts)
    ensures NormParts(absolute, parts) == parts
    decreases |parts|
  {
    if parts != [] {
      var init := parts[..|parts| - 1];
      var c := parts[|parts| - 1];
      NormPartsFixed(absolute, init);
      assert init + [c] == parts;
      if c == ".." && init != [] {
        assert init[|init| - 1] == parts[|parts| - 2];
      }
      NormStepAppends(absolute, init, c);
    }
  }

  /** normpath keeps a component that is neither empty nor "." and, when it
      is "..", follows nothing or another ".." in a relative path. */
  lemma NormStepAppends(absolute: bool, acc: seq<Component>, c: Component)
    requires c != "" && c != "."
    requires c == ".." ==> !absolute && (acc == [] || acc[|acc| - 1] == "..")
    ensures NormStep(absolute, acc, c) == acc + [c]
  {
  }

  /** normpath is idempotent. */
  lemma NormalizeIdempotent(p: Path)
    ensures Normalize(Normalize(p)) == Normalize(p)
  {
    if p.absolute {
      NormPartsAbsoluteClean(p.parts);
    } else {
      NormPartsRelativeNormal(p.parts);
    }
    NormPartsFixed(p.absolute, NormParts(p.absolute, p.parts));
  }

  /** abspath yields an absolute path with no empty, "." or ".." component,
      and applying it again changes nothing. */
  lemma AbsIsCanonical(cwd: AbsolutePath, p: Path)
    ensures Abs(cwd, p).absolute && Clean(Abs(cwd, p).parts)
    ensures Abs(cwd, Abs(cwd, p)) == Abs(cwd, p)
  {
    var q := if p.absolute then p.parts else cwd.parts + p.parts;
    NormPartsAbsoluteClean(q);
    NormPartsFixed(true, NormParts(true, q));
  }

  /** Making p/name absolute is making p absolute and then adding name. */
  lemma AbsJoin(cwd: AbsolutePath, p: Path, name: Component)
    requires PlainName(name)
    ensures Abs(cwd, Join(p, name)) == Join(Abs(cwd, p), name)
  {
    var q := if p.absolute then p.parts else cwd.parts + p.parts;
    assert (if p.absolute then Join(p, name).parts else cwd.parts + Join(p, name).parts) == q + [name];
    assert (q + [name])[..|q|] == q;
  }

  // ---------------------------------------------------------------------------
  // The text form of a path

  function JoinParts(parts: seq<Component>): string
    decreases |parts|
  {
    if parts == [] then ""
    else if |parts| == 1 then parts[0]
    else parts[0] + "/" + JoinParts(parts[1..])
  }

  /** A path as a string, as os.path functions return it ("." for the empty
      relative path). */
  function Render(p: Path): (r: string)
    ensures p.absolute ==> |r| > 0 && r[0] == '/'
    ensures !p.absolute && p.parts == [] ==> r == "."
  {
    if p.absolute then "/" + JoinParts(p.parts)
    else if p.parts == [] then "."
    else JoinParts(p.parts)
  }

  function FirstSlash(s: string): (i: nat)
    requires '/' in s
    ensures i < |s| && s[i] == '/' && '/' !in s[..i]
    decreases |s|
  {
    if s[0] == '/' then 0
    else
      assert s == [s[0]] + s[1..];
      var j := FirstSlash(s[1..]);
      assert s[..1 + j] == [s[0]] + s[1..][..j];
      1 + j
  }

  /** The non-empty components of a string, split at every '/'. */
  function Components(s: string): seq<Component>
    decreases |s|
  {
    if '/' !in s then (if s == "" then [] else [s])
    else
      var i := FirstSlash(s);
      (if i == 0 then [] else [s[..i]]) + Components(s[i + 1..])
  }

  /** A string read as a path. */
  function Parse(s: string): Path {
    Path(|s| > 0 && s[0] == '/', Components(s))
  }

  lemma FirstSlashAfter(a: Component, b: string)
    ensures '/' in a + "/" + b && FirstSlash(a + "/" + b) == |a|
  {
    var s := a + "/" + b;
    assert s[|a|] == '/';
  }

  /** A non-empty component and a separator split off as that component. */
  lemma ComponentsAfter(a: Component, rest: string)
    requires a != ""
    ensures Components(a + "/" + rest) == [a] + Components(rest)
  {
    var s := a + "/" + rest;
    FirstSlashAfter(a, rest);
    assert s[..|a|] == a;
    assert s[|a| + 1..] == rest;
  }

  lemma {:induction false} ComponentsJoinParts(parts: seq<Component>)
    requires forall i :: 0 <= i < |parts| ==> parts[i] != ""
    ensures Components(JoinParts(parts)) == parts
    decreases |parts|
  {
    if |parts| >= 2 {
      ComponentsAfter(parts[0], JoinParts(parts[1..]));
      ComponentsJoinParts(parts[1..]);
      assert parts == [parts[0]] + parts[1..];
    }
  }

  /** Reading back the text of a path gives the path again, provided it has no
      empty component and is not the empty relative path (written "."). */
  lemma ParseRender(p: Path)
    requires forall i :: 0 <= i < |p.parts| ==> p.parts[i] != ""
    requires p.absolute || p.parts != []
    ensures Parse(Render(p)) == p
  {
    var body := JoinParts(p.parts);
    ComponentsJoinParts(p.parts);
    if p.absolute {
      var s := "/" + body;
      FirstSlashAfter("", body);
      assert "" + "/" + body == s;
      assert s[1..] == body;
    } else {
      assert |p.parts[0]| > 0;
      if |p.parts| > 1 {
        assert body[0] == p.parts[0][0];
      }
      assert body[0] != '/';
    }
  }
}
