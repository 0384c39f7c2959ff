// The `os.path` operations the file scanners use, for POSIX paths.
module PyPath {
  import PyStr

  /** One directory `os.walk` visits: its path and the names of the files in it, in listing order. */
  datatype WalkEntry = WalkEntry(root: string, files: seq<string>)

  /** `os.path.join(root, name)`: an absolute name replaces the root, otherwise one "/" separates them. */
  function Join(root: string, name: string): (r: string)
    ensures (name == [] || name[0] != '/') && root != [] && root[|root| - 1] != '/' ==> r == root + "/" + name
  {
    if |name| > 0 && name[0] == '/' then name
    else if root == [] || root[|root| - 1] == '/' then root + name
    else root + "/" + name
  }

  /** A joined path ends with the name. */
  lemma JoinEndsWithName(root: string, name: string)
    ensures PyStr.EndsWith(Join(root, name), name)
  {
  }

  /** The index just past the last "/" of `p`, or 0 when it has none. */
  function SlashEnd(p: string): (i: nat)
    ensures i <= |p|
    ensures i > 0 ==> p[i - 1] == '/'
    ensures forall k :: i <= k < |p| ==> p[k] != '/'
  {
    if p == [] then 0
    else if p[|p| - 1] == '/' then |p|
    else SlashEnd(p[..|p| - 1])
  }

  predicate AllSlashes(s: string)
  {
    forall k :: 0 <= k < |s| ==> s[k] == '/'
  }

  /** `os.path.dirname(p)`: everything up to the last "/", with trailing slashes dropped unless only slashes are left. */
  function DirName(p: string): (r: string)
    ensures |r| <= |p| && r == p[..|r|]
  {
    var head := p[..SlashEnd(p)];
    if head != [] && !AllSlashes(head) then PyStr.RStripChar(head, '/') else head
  }

  /** The folder of a file joined onto a directory is that directory. */
  lemma DirNameOfJoin(root: string, name: string)
    requires root != [] && root[|root| - 1] != '/'
    requires forall k :: 0 <= k < |name| ==> name[k] != '/'
    ensures DirName(Join(root, name)) == root
  {
    var p := Join(root, name);
    assert p == root + "/" + name;
    var i := SlashEnd(p);
    assert p[|root|] == '/';
    assert i == |root| + 1;
    var head := p[..i];
    assert head == root + "/";
    assert head[|root| - 1] != '/';
    assert |PyStr.RStripChar(head, '/')| == |root|;
  }
}
