/**
 * The nodes of the parsed map: class Objectfile of linkermapviz/__init__.py.
 * One type serves for the three levels of the tree: an output section
 * (top level), an input-section contribution of an object file (its child),
 * and the (offset, symbol) pairs recorded under a contribution.
 */
module ObjectFiles {
  import opened Wrappers
  import opened Text

  /** A `(offset, function)` tuple collected from a symbol line. */
  datatype Symbol = Symbol(offset: nat, name: string)

  /** Objectfile.path: `(None, None)` without a comment, otherwise the
      source file and, for an archive member `lib.a(obj.o)`, the member. */
  datatype Path = Path(file: Option<string>, member: Option<string>)

  /** Python keeps both kinds of child in the one list `children`: an
      output section collects contributions there and a contribution
      collects symbol tuples there. The model gives each kind its own
      field; the parser fills `children` only on top-level nodes and
      `symbols` only on their children. */
  datatype Objectfile = Objectfile(
    section: string,
    offset: nat,
    size: nat,
    path: Path,
    basepath: Option<string>,
    children: seq<Objectfile>,
    symbols: seq<Symbol>)

  predicate NoNewline(s: string) {
    forall i :: 0 <= i < |s| ==> s[i] != '\n'
  }

  /** `t` is `(` + at least one character other than `)` + `)`: the
      optional trailing group `\(([^\)]+)\)` followed by the end. */
  predicate IsMemberSuffix(t: string) {
    && |t| >= 3 && t[0] == '(' && t[|t| - 1] == ')'
    && forall i :: 1 <= i < |t| - 1 ==> t[i] != ')'
  }

  /** The split `^(.+?)(?:\(([^\)]+)\))?$`: the path is the shortest
      non-empty prefix after which a member group ends the comment; when
      there is none, the path is the whole comment and there is no member. */
  function SplitComment(comment: string): (r: Path)
    requires |comment| >= 1 && NoNewline(comment)
    ensures r.file.Some? && 1 <= |r.file.value| <= |comment|
    ensures r.file.value == comment[..|r.file.value|]
    ensures r.member.Some? ==>
              && comment == r.file.value + "(" + r.member.value + ")"
              && IsMemberSuffix(comment[|r.file.value|..])
    ensures r.member.None? ==> r.file.value == comment
    ensures forall k :: 1 <= k < |r.file.value| ==> !IsMemberSuffix(comment[k..])
    ensures r.member.None? ==> forall k :: 1 <= k <= |comment| ==> !IsMemberSuffix(comment[k..])
  {
    SplitFrom(comment, 1)
  }

  /** The lazy `(.+?)` trying path lengths k, k+1, ... in turn. */
  function SplitFrom(comment: string, k: nat): (r: Path)
    requires 1 <= k <= |comment|
    requires forall j :: 1 <= j < k ==> !IsMemberSuffix(comment[j..])
    ensures r.file.Some? && k <= |r.file.value| <= |comment|
    ensures r.file.value == comment[..|r.file.value|]
    ensures r.member.Some? ==>
              && comment == r.file.value + "(" + r.member.value + ")"
              && IsMemberSuffix(comment[|r.file.value|..])
    ensures r.member.None? ==> r.file.value == comment
    ensures forall j :: 1 <= j < |r.file.value| ==> !IsMemberSuffix(comment[j..])
    ensures r.member.None? ==> forall j :: 1 <= j <= |comment| ==> !IsMemberSuffix(comment[j..])
    decreases |comment| - k
  {
    if k == |comment| then
      assert !IsMemberSuffix(comment[k..]);
      Path(Some(comment), None)
    else if IsMemberSuffix(comment[k..]) then
      var member := comment[k + 1..|comment| - 1];
      assert comment == comment[..k] + "(" + member + ")";
      Path(Some(comment[..k]), Some(member))
    else
      SplitFrom(comment, k + 1)
  }

  /** Start of the last '/'-free run ending at `k`: scanning back from `k`
      to just after a '/' or to the start. */
  function NameStart(p: string, k: nat): (j: nat)
    requires k <= |p|
    ensures j <= k
    ensures forall i :: j <= i < k ==> p[i] != '/'
    ensures j > 0 ==> p[j - 1] == '/'
  {
    if k == 0 || p[k - 1] == '/' then k else NameStart(p, k - 1)
  }

  /** os.path.basename: what follows the last '/'. */
  function Basename(p: string): (r: string)
    ensures |r| <= |p|
    ensures forall i :: 0 <= i < |r| ==> r[i] == p[|p| - |r| + i] && r[i] != '/'
    ensures |r| < |p| ==> p[|p| - |r| - 1] == '/'
  {
    p[NameStart(p, |p|)..]
  }

  /** Objectfile.__init__: the name is stripped, no children yet, and the
      comment, when there is a non-empty one, gives the path pair and the
      basename of the path's file part. */
  function NewObjectfile(section: string, offset: nat, size: nat, comment: Option<string>): (o: Objectfile)
    requires comment.Some? ==> NoNewline(comment.value)
    ensures o.section == Strip(section) && o.offset == offset && o.size == size
    ensures o.children == [] && o.symbols == []
    ensures o.path == Path(None, None) <==> (comment.None? || comment.value == "")
    ensures o.basepath.Some? <==> o.path.file.Some?
    ensures o.path.file.Some? ==> o.basepath == Some(Basename(o.path.file.value))
    ensures o.path.file.Some? ==> o.path == SplitComment(comment.value)
  {
    if comment.Some? && comment.value != "" then
      var path := SplitComment(comment.value);
      Objectfile(Strip(section), offset, size, path, Some(Basename(path.file.value)), [], [])
    else
      Objectfile(Strip(section), offset, size, Path(None, None), None, [], [])
  }
}
