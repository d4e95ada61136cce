/**
 * The file store the services write through (`bot/services/file_store.py`
 * is not part of this model). It is a map from paths relative to the data
 * root to file contents. `write_text` overwrites; `ensure_file` never
 * changes an existing entry: it reuses the intended path when that path is
 * free or already holds the default content, and otherwise moves on to a
 * suffixed variant of it. The suffix scheme (`~` appended) stands in for the
 * store's own one.
 */
module FileStore {

  /** `root / rel`. */
  function Join(root: string, rel: string): (p: string)
    ensures |p| == |root| + 1 + |rel| && p[..|root|] == root && p[|root| + 1..] == rel
  {
    root + "/" + rel
  }

  ghost function LongestKey(keys: set<string>): (n: nat)
    ensures forall k :: k in keys ==> |k| <= n
    decreases keys
  {
    if keys == {} then 0
    else
      var k :| k in keys;
      var m := LongestKey(keys - {k});
      if |k| > m then |k| else m
  }

  /**
   * The entry `ensure_file(candidate, content)` settles on: the first of
   * `candidate`, `candidate~`, `candidate~~`, … that is free or already
   * holds `content`.
   */
  function Resolve(files: map<string, string>, candidate: string, content: string): (k: string)
    ensures k !in files || files[k] == content
    ensures |candidate| <= |k| && k[..|candidate|] == candidate
    decreases LongestKey(files.Keys) + 1 - |candidate|
  {
    if candidate !in files || files[candidate] == content then candidate
    else
      var k := Resolve(files, candidate + "~", content);
      assert k[..|candidate|] == (k[..|candidate| + 1])[..|candidate|];
      k
  }

  /** An intended path that is free, or already holds the content, is used as it is. */
  lemma ResolveFree(files: map<string, string>, candidate: string, content: string)
    requires candidate !in files || files[candidate] == content
    ensures Resolve(files, candidate, content) == candidate
  {
  }

  /**
   * `Resolve` looks only at the entries it passes over: any larger store
   * that keeps those entries and in which its answer holds `content` gives
   * the same answer.
   */
  lemma {:induction false} ResolveStable(f: map<string, string>, g: map<string, string>, c: string, content: string)
    requires forall k :: k in f ==> k in g && g[k] == f[k]
    requires Resolve(f, c, content) in g && g[Resolve(f, c, content)] == content
    ensures Resolve(g, c, content) == Resolve(f, c, content)
    decreases LongestKey(f.Keys) + 1 - |c|
  {
    if c !in f || f[c] == content {
    } else {
      ResolveStable(f, g, c + "~", content);
    }
  }

  /** After storing `content` under the key `Resolve` chose, `Resolve` chooses it again. */
  lemma ResolveAgain(f: map<string, string>, c: string, content: string)
    ensures var k := Resolve(f, c, content); Resolve(f[k := content], c, content) == k
  {
    ResolveStable(f, f[Resolve(f, c, content) := content], c, content);
  }

  class Store {
    /** The configured data directory. */
    const root: string
    /** Contents by path relative to `root`. */
    var files: map<string, string>

    constructor (root: string, files: map<string, string>)
      ensures this.root == root && this.files == files
    {
      this.root := root;
      this.files := files;
    }

    /** `write_text`: stores `content` under `rel`, replacing what was there, and returns the full path. */
    method WriteText(rel: string, content: string) returns (p: string)
      modifies this
      ensures files == old(files)[rel := content]
      ensures p == Join(root, rel)
    {
      files := files[rel := content];
      p := Join(root, rel);
    }

    /**
     * `ensure_file`: leaves every existing entry as it is; the path returned
     * holds `content`, either because it already did or because it was free
     * and has just been created.
     */
    method EnsureFile(rel: string, content: string) returns (p: string)
      modifies this
      ensures var k := Resolve(old(files), rel, content);
              files == old(files)[k := content] && p == Join(root, k)
    {
      var key := rel;
      while key in files && files[key] != content
        invariant |rel| <= |key| && Resolve(files, rel, content) == Resolve(files, key, content)
        decreases LongestKey(files.Keys) + 1 - |key|
      {
        key := key + "~";
      }
      files := files[key := content];
      p := Join(root, key);
    }
  }
}
