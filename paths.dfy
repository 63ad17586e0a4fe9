/**
 * Slash-separated paths as Go's path/filepath treats them on Unix: `Base` follows
 * filepath.Base exactly; `Dir` follows filepath.Dir for paths that are already clean
 * (no "." or ".." elements and no doubled slash before the last element).
 */
module Paths {

  /** `p` with every trailing '/' removed. */
  function TrimTrailingSlashes(p: string): string
  {
    if |p| > 0 && p[|p| - 1] == '/' then TrimTrailingSlashes(p[..|p| - 1]) else p
  }

  /** Trimming keeps a prefix, removes only slashes, and leaves no slash at the end. */
  lemma {:induction false} TrimTrailingSlashesSpec(p: string)
    ensures var r := TrimTrailingSlashes(p);
      |r| <= |p| && r == p[..|r|] && (r == [] || r[|r| - 1] != '/') &&
      forall i :: |r| <= i < |p| ==> p[i] == '/'
  {
    if |p| > 0 && p[|p| - 1] == '/' {
      TrimTrailingSlashesSpec(p[..|p| - 1]);
    }
  }

  /** The text after the last '/' of `p`: all of `p` when it has no '/'. */
  function AfterLastSlash(p: string): (r: string)
    ensures |r| <= |p|
  {
    if |p| == 0 || p[|p| - 1] == '/' then [] else AfterLastSlash(p[..|p| - 1]) + [p[|p| - 1]]
  }

  /** The text after the last slash is a slash-free suffix, preceded by a slash unless it is all of `p`. */
  lemma {:induction false} AfterLastSlashSpec(p: string)
    ensures var r := AfterLastSlash(p);
      |r| <= |p| && r == p[|p| - |r|..] && '/' !in r &&
      (|r| < |p| ==> p[|p| - |r| - 1] == '/')
  {
    if |p| > 0 && p[|p| - 1] != '/' {
      var q := p[..|p| - 1];
      AfterLastSlashSpec(q);
      var rq := AfterLastSlash(q);
      assert p[|q| - |rq|..] == q[|q| - |rq|..] + [p[|p| - 1]];
      if |rq| < |q| {
        assert p[|q| - |rq| - 1] == q[|q| - |rq| - 1];
      }
    }
  }

  /**
   * filepath.Base: "." for the empty path, "/" for a path made only of slashes,
   * otherwise the last element once trailing slashes are dropped.
   */
  function Base(p: string): string
  {
    if p == "" then "."
    else
      var t := TrimTrailingSlashes(p);
      if t == "" then "/" else AfterLastSlash(t)
  }

  /**
   * A base name is never empty and holds a slash only when it is "/" itself; a
   * path without slashes is its own base name.
   */
  lemma BaseSpec(p: string)
    ensures Base(p) != ""
    ensures '/' in Base(p) ==> Base(p) == "/"
    ensures p != "" && '/' !in p ==> Base(p) == p
  {
    if p != "" {
      TrimTrailingSlashesSpec(p);
      var t := TrimTrailingSlashes(p);
      if t != "" {
        AfterLastSlashSpec(t);
        var r := AfterLastSlash(t);
        if '/' !in p {
          assert t == p;
        }
      }
    }
  }

  /** filepath.Dir on a clean path: everything before the last element, "." when there is none. */
  function Dir(p: string): string
  {
    var head := p[..|p| - |AfterLastSlash(p)|];
    if head == "" then "."
    else
      var t := TrimTrailingSlashes(head);
      if t == "" then "/" else t
  }

  /** Whatever directory precedes it, a plain name is its own base name. */
  lemma BaseOfJoin(dir: string, name: string)
    requires name != "" && '/' !in name
    ensures Base(dir + "/" + name) == name
  {
    var p := dir + "/" + name;
    assert p[|p| - 1] == name[|name| - 1];
    assert TrimTrailingSlashes(p) == p;
    AfterLastSlashSpec(p);
    var r := AfterLastSlash(p);
    assert p[|dir|] == '/';
    assert forall i :: |dir| < i < |p| ==> p[i] == name[i - |dir| - 1];
    assert |r| == |name|;
    assert r == p[|dir| + 1..] == name;
  }

  /** Taking the base name twice changes nothing. */
  lemma BaseIdempotent(p: string)
    ensures Base(Base(p)) == Base(p)
  {
    BaseSpec(p);
    var r := Base(p);
    if r == "/" {
      assert TrimTrailingSlashes("/") == "";
    } else {
      BaseSpec(r);
    }
  }

  /** The directory of `dir/name` is `dir` when `dir` is clean and `name` is one element. */
  lemma DirOfJoin(dir: string, name: string)
    requires dir != "" && dir[|dir| - 1] != '/'
    requires '/' !in name
    ensures Dir(dir + "/" + name) == dir
  {
    var p := dir + "/" + name;
    AfterLastSlashSpec(p);
    var r := AfterLastSlash(p);
    assert p[|dir|] == '/';
    assert forall i :: |dir| < i < |p| ==> p[i] == name[i - |dir| - 1];
    assert |r| == |name|;
    assert p[..|p| - |r|] == dir + "/";
    assert TrimTrailingSlashes(dir + "/") == TrimTrailingSlashes(dir) == dir;
  }
}
