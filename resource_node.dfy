/**
 * Paths of database resources as the resource tree shows them
 * (org.basex.gui.layout.ResourceNode, `preparePath` and `path`).
 *
 * A path is first normalized by the database's path normalization, which is
 * the parameter `normPath` here; one trailing slash is then dropped and a
 * leading slash put in front.
 */
module ResourceNodes {
  /** Whether a path ends with a slash. */
  predicate EndsWithSlash(p: string) {
    |p| > 0 && p[|p| - 1] == '/'
  }

  /** The path prepared for the tree: normalized, one trailing slash dropped, a slash in front. */
  function PreparePath(normPath: string -> string, path: string): (r: string)
    ensures |r| > 0 && r[0] == '/'
  {
    var p := normPath(path);
    var q := if EndsWithSlash(p) then p[..|p| - 1] else p;
    "/" + q
  }

  /**
   * Past its leading slash, the prepared path is the normalized path without
   * its trailing slash, if it had one; the length is that of the normalized
   * path, or one more when no slash was dropped.
   */
  lemma PrepareParts(normPath: string -> string, path: string)
    ensures var n := normPath(path);
      PreparePath(normPath, path)[1..] + (if EndsWithSlash(n) then "/" else "") == n
    ensures var n := normPath(path);
      |PreparePath(normPath, path)| == if EndsWithSlash(n) then |n| else |n| + 1
  {
    var n := normPath(path);
    var r := PreparePath(normPath, path);
    if EndsWithSlash(n) {
      assert r[1..] == n[..|n| - 1];
      assert n[..|n| - 1] + "/" == n;
    } else {
      assert r[1..] == n;
    }
  }

  /**
   * A normalized path that neither starts with a slash nor ends with two is
   * prepared to one with exactly one leading slash and, unless it is the
   * root `/`, no trailing slash.
   */
  lemma PrepareShape(normPath: string -> string, path: string)
    requires var n := normPath(path); (|n| == 0 || n[0] != '/') && (|n| < 2 || n[|n| - 2..] != "//")
    ensures var r := PreparePath(normPath, path); |r| == 1 || r[1] != '/'
    ensures var r := PreparePath(normPath, path); r == "/" || !EndsWithSlash(r)
  {
    var n := normPath(path);
    var r := PreparePath(normPath, path);
    PrepareParts(normPath, path);
    if EndsWithSlash(n) && |n| >= 2 {
      assert n[|n| - 2..] == [n[|n| - 2], n[|n| - 1]];
      assert r[|r| - 1] == n[|n| - 2];
    }
    if |r| > 1 {
      assert r[1] == n[0];
    }
  }

  /** A resource of the tree: its name and the path of its folder. */
  datatype ResourceNode = ResourceNode(name: string, path: string)

  /**
   * The full path of a resource: folder path, slash, name, prepared as above.
   * Past its leading slash it is the normalized full path without its
   * trailing slash, if it had one.
   */
  function FullPath(normPath: string -> string, node: ResourceNode): (r: string)
    ensures |r| > 0 && r[0] == '/'
    ensures var n := normPath(node.path + "/" + node.name);
      r[1..] + (if EndsWithSlash(n) then "/" else "") == n
  {
    PrepareParts(normPath, node.path + "/" + node.name);
    PreparePath(normPath, node.path + "/" + node.name)
  }

  /**
   * When normalization yields a path without a leading slash and without two
   * trailing ones, the full path of a resource has exactly one leading slash
   * and, unless it is the root `/`, no trailing slash.
   */
  lemma FullPathShape(normPath: string -> string, node: ResourceNode)
    requires var n := normPath(node.path + "/" + node.name);
      (|n| == 0 || n[0] != '/') && (|n| < 2 || n[|n| - 2..] != "//")
    ensures var r := FullPath(normPath, node); |r| == 1 || r[1] != '/'
    ensures var r := FullPath(normPath, node); r == "/" || !EndsWithSlash(r)
  {
    PrepareShape(normPath, node.path + "/" + node.name);
  }
}
