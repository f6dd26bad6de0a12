/** The POSIX path operations download_file and clone_website rely on:
    os.path.basename, os.path.join (for two components) and the local file an
    asset is saved to. */
module Paths {
  import opened Strings

  /** os.path.basename: the text after the last '/'. The three clauses
      together say it is the longest suffix without a '/'. */
  function Basename(p: string): (r: string)
    ensures '/' !in r
    ensures |r| <= |p| && IsSuffix(r, p)
    ensures |r| < |p| ==> p[|p| - |r| - 1] == '/'
  {
    if p == [] || p[|p| - 1] == '/' then []
    else Basename(p[..|p| - 1]) + [p[|p| - 1]]
  }

  /** os.path.join(a, b) on POSIX: an absolute `b` replaces `a`; otherwise a
      '/' is put between them unless `a` is empty or already ends with one. */
  function Join(a: string, b: string): string {
    if |b| > 0 && b[0] == '/' then b
    else if a == [] || a[|a| - 1] == '/' then a + b
    else a + "/" + b
  }

  /** local_filename: where download_file saves the asset at `url`. */
  function LocalPath(folder: string, url: string): string {
    Join(folder, Basename(url))
  }

  /** The three clauses of Basename's contract determine its result. */
  lemma BasenameUnique(p: string, r: string)
    requires '/' !in r
    requires |r| <= |p| && r == p[|p| - |r|..]
    requires |r| < |p| ==> p[|p| - |r| - 1] == '/'
    ensures Basename(p) == r
  {
    var b := Basename(p);
    assert |b| == |r|;
  }

  /** A '/'-free name is recovered from the path it was joined to. */
  lemma BasenameOfJoin(dir: string, name: string)
    requires '/' !in name
    ensures Basename(Join(dir, name)) == name
  {
    assert |name| > 0 ==> name[0] != '/' by {
      if |name| > 0 { assert name[0] in name; }
    }
    var p := Join(dir, name);
    assert p[|p| - |name|..] == name;
    BasenameUnique(p, name);
  }

  /** Joining a '/'-free name to a folder that neither is empty nor ends with
      '/' inserts exactly one separator. */
  lemma JoinUnderFolder(dir: string, name: string)
    requires dir != [] && dir[|dir| - 1] != '/' && '/' !in name
    ensures Join(dir, name) == dir + "/" + name
  {
    if |name| > 0 {
      assert name[0] in name;
    }
  }

  /** The local file of an asset is the folder, a '/', and the last
      '/'-separated segment of the URL; that segment is recovered from it. */
  lemma LocalPathShape(folder: string, url: string)
    requires folder != [] && folder[|folder| - 1] != '/'
    ensures LocalPath(folder, url) == folder + "/" + Basename(url)
    ensures Basename(LocalPath(folder, url)) == Basename(url)
  {
    JoinUnderFolder(folder, Basename(url));
    BasenameOfJoin(folder, Basename(url));
  }

  /** The local file of an asset saved in a sub-folder `sub` of `folder`,
      both non-empty and without '/'. */
  lemma NestedPath(folder: string, sub: string, url: string)
    requires folder != [] && '/' !in folder
    requires sub != [] && '/' !in sub
    ensures LocalPath(Join(folder, sub), url) == folder + "/" + sub + "/" + Basename(url)
    ensures Basename(LocalPath(Join(folder, sub), url)) == Basename(url)
  {
    assert Join(folder, sub) == folder + "/" + sub by {
      assert folder[|folder| - 1] in folder;
      JoinUnderFolder(folder, sub);
    }
    var d := Join(folder, sub);
    assert d != [] && d[|d| - 1] != '/' by {
      assert d[|d| - 1] == sub[|sub| - 1];
      assert sub[|sub| - 1] in sub;
    }
    LocalPathShape(d, url);
  }

  /** Two URLs whose last segments agree are saved to the same local file. */
  lemma SameBasenameSamePath(folder: string, u1: string, u2: string)
    requires Basename(u1) == Basename(u2)
    ensures LocalPath(folder, u1) == LocalPath(folder, u2)
  {
  }

  /** The basename of a path is what follows its last '/'. */
  lemma BasenameAfterSlash(dir: string, name: string)
    requires '/' !in name
    ensures Basename(dir + "/" + name) == name
  {
    var p := dir + "/" + name;
    assert p[|p| - |name|..] == name;
    assert p[|p| - |name| - 1] == '/';
    BasenameUnique(p, name);
  }

  /** A concrete collision: two different stylesheets, one local file. */
  lemma BasenameCollision()
    ensures "https://a.test/x/site.css" != "https://b.test/y/site.css"
    ensures LocalPath("a_test/css", "https://a.test/x/site.css") == LocalPath("a_test/css", "https://b.test/y/site.css")
  {
    assert "https://a.test/x/site.css"[8] != "https://b.test/y/site.css"[8];
    assert "https://a.test/x/site.css" == "https://a.test/x" + "/" + "site.css";
    assert "https://b.test/y/site.css" == "https://b.test/y" + "/" + "site.css";
    NoSlash("site.css");
    BasenameAfterSlash("https://a.test/x", "site.css");
    BasenameAfterSlash("https://b.test/y", "site.css");
  }

  lemma NoSlash(s: string)
    requires forall k :: 0 <= k < |s| ==> s[k] != '/'
    ensures '/' !in s
  {
  }
}
