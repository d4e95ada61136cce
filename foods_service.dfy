/**
 * The food catalog (`bot/services/foods_service.py`): one note per food
 * name, created through the store's `ensure_file`. `sanitize_filename`
 * (`bot/domain/normalize.py` is not part of this model) is a parameter.
 */
module Foods {
  import opened FileStore
  import opened Text

  /** `f"# {food}\n"`: the body of a new note. */
  function DefaultNote(name: string): (c: string)
    ensures |c| == |name| + 3 && c[2..|c| - 1] == name
  {
    "# " + name + "\n"
  }

  lemma DefaultNoteInjective(a: string, b: string)
    requires DefaultNote(a) == DefaultNote(b)
    ensures a == b
  {
    assert a == DefaultNote(a)[2..|DefaultNote(a)| - 1];
  }

  /** `Path(foods_dir) / f"{sanitize_filename(food)}.md"`. */
  function NotePath(dir: string, sanitize: string -> string, name: string): string {
    dir + "/" + sanitize(name) + ".md"
  }

  /** The store after a run of `ensure_file` calls, and the entry each call settled on. */
  datatype Catalog = Catalog(files: map<string, string>, keys: seq<string>)

  /** `ensure_notes(names)` on `files`: one `ensure_file` per name, in order. */
  function EnsureAll(dir: string, sanitize: string -> string, files: map<string, string>, names: seq<string>): (r: Catalog)
    ensures |r.keys| == |names|
    decreases |names|
  {
    if names == [] then Catalog(files, [])
    else
      var c := EnsureAll(dir, sanitize, files, names[..|names| - 1]);
      var n := names[|names| - 1];
      var k := Resolve(c.files, NotePath(dir, sanitize, n), DefaultNote(n));
      Catalog(c.files[k := DefaultNote(n)], c.keys + [k])
  }

  /** `m` keeps every entry of `f`. */
  predicate Extends(m: map<string, string>, f: map<string, string>) {
    forall k :: k in f ==> k in m && m[k] == f[k]
  }

  /** Notes that already exist are never overwritten. */
  lemma {:induction false} EnsureAllKeeps(dir: string, sanitize: string -> string, files: map<string, string>, names: seq<string>)
    ensures Extends(EnsureAll(dir, sanitize, files, names).files, files)
    decreases |names|
  {
    if names != [] {
      EnsureAllKeeps(dir, sanitize, files, names[..|names| - 1]);
    }
  }

  /** Nothing is created except the entries returned. */
  lemma {:induction false} EnsureAllOnlyAdds(dir: string, sanitize: string -> string, files: map<string, string>, names: seq<string>)
    ensures var r := EnsureAll(dir, sanitize, files, names);
            forall k :: k in r.files ==> k in files || k in r.keys
    decreases |names|
  {
    if names != [] {
      EnsureAllOnlyAdds(dir, sanitize, files, names[..|names| - 1]);
    }
  }

  /**
   * One entry per name, in input order: entry `i` lies at or beside the
   * intended `Foods/<sanitize(name)>.md` and holds that name's note.
   */
  lemma {:induction false} EnsureAllHolds(dir: string, sanitize: string -> string, files: map<string, string>, names: seq<string>)
    ensures var r := EnsureAll(dir, sanitize, files, names);
            forall i :: 0 <= i < |names| ==>
              r.keys[i] in r.files && r.files[r.keys[i]] == DefaultNote(names[i]) &&
              StartsWith(r.keys[i], NotePath(dir, sanitize, names[i]))
    decreases |names|
  {
    if names != [] {
      var init := names[..|names| - 1];
      EnsureAllHolds(dir, sanitize, files, init);
      var c := EnsureAll(dir, sanitize, files, init);
      var r := EnsureAll(dir, sanitize, files, names);
      var n := names[|names| - 1];
      var k := Resolve(c.files, NotePath(dir, sanitize, n), DefaultNote(n));
      forall i | 0 <= i < |names|
        ensures r.keys[i] in r.files && r.files[r.keys[i]] == DefaultNote(names[i])
        ensures StartsWith(r.keys[i], NotePath(dir, sanitize, names[i]))
      {
        if i < |init| {
          assert names[i] == init[i];
          assert r.keys[i] == c.keys[i];
          if c.keys[i] == k {
            assert c.files[k] == DefaultNote(init[i]);
            DefaultNoteInjective(init[i], n);
          }
        }
      }
    }
  }

  /** Running on `a + b` is running on `a`, then on `b` from where `a` left the store. */
  lemma {:induction false} EnsureAllConcat(dir: string, sanitize: string -> string, files: map<string, string>, a: seq<string>, b: seq<string>)
    ensures var c := EnsureAll(dir, sanitize, files, a);
            var d := EnsureAll(dir, sanitize, c.files, b);
            EnsureAll(dir, sanitize, files, a + b) == Catalog(d.files, c.keys + d.keys)
    decreases |b|
  {
    if b == [] {
      assert a + b == a;
    } else {
      var init := b[..|b| - 1];
      assert (a + b)[..|a + b| - 1] == a + init;
      EnsureAllConcat(dir, sanitize, files, a, init);
      var c := EnsureAll(dir, sanitize, files, a);
      var d0 := EnsureAll(dir, sanitize, c.files, init);
      assert c.keys + d0.keys + [Resolve(d0.files, NotePath(dir, sanitize, b[|b| - 1]), DefaultNote(b[|b| - 1]))]
          == c.keys + (d0.keys + [Resolve(d0.files, NotePath(dir, sanitize, b[|b| - 1]), DefaultNote(b[|b| - 1]))]);
    }
  }

  /** Two different names never share a note, even when they sanitize alike (`"сыр"`, `"сыр!"`). */
  lemma DistinctNamesDistinctNotes(dir: string, sanitize: string -> string, files: map<string, string>, names: seq<string>, i: nat, j: nat)
    requires i < |names| && j < |names| && names[i] != names[j]
    ensures var r := EnsureAll(dir, sanitize, files, names); r.keys[i] != r.keys[j]
  {
    EnsureAllHolds(dir, sanitize, files, names);
    var r := EnsureAll(dir, sanitize, files, names);
    if r.keys[i] == r.keys[j] {
      DefaultNoteInjective(names[i], names[j]);
    }
  }

  /**
   * A run seen at position `m`: its first `m` entries are those of the run
   * on the first `m` names, its store extends that run's store, and entry
   * `m` is where `Resolve` settles in that store.
   */
  lemma {:induction false} Prefix(dir: string, sanitize: string -> string, files: map<string, string>, names: seq<string>, m: nat)
    requires m <= |names|
    ensures var r := EnsureAll(dir, sanitize, files, names);
            var c := EnsureAll(dir, sanitize, files, names[..m]);
            c.keys == r.keys[..m] && Extends(r.files, c.files) &&
            (m < |names| ==> r.keys[m] == Resolve(c.files, NotePath(dir, sanitize, names[m]), DefaultNote(names[m])))
    decreases |names|
  {
    if m == |names| {
      assert names[..m] == names;
    } else {
      var init := names[..|names| - 1];
      assert init[..m] == names[..m];
      Prefix(dir, sanitize, files, init, m);
      var r0 := EnsureAll(dir, sanitize, files, init);
      var n := names[|names| - 1];
      var k := Resolve(r0.files, NotePath(dir, sanitize, n), DefaultNote(n));
      var r := EnsureAll(dir, sanitize, files, names);
      assert r.files == r0.files[k := DefaultNote(n)] && r.keys == r0.keys + [k];
      assert Extends(r.files, r0.files);
      assert r.keys[..m] == r0.keys[..m];
      if m == |names| - 1 {
        assert init == names[..m];
      } else {
        assert r.keys[m] == r0.keys[m];
      }
    }
  }

  /** Duplicates are not removed, but a repeated name comes back with the note its first occurrence got. */
  lemma SameNameSameNote(dir: string, sanitize: string -> string, files: map<string, string>, names: seq<string>, i: nat, j: nat)
    requires i < j < |names| && names[i] == names[j]
    ensures var r := EnsureAll(dir, sanitize, files, names); r.keys[i] == r.keys[j]
  {
    var n := names[j];
    var pre := names[..j];
    var fi := EnsureAll(dir, sanitize, files, names[..i]).files;
    var fj := EnsureAll(dir, sanitize, files, pre).files;
    var ki := Resolve(fi, NotePath(dir, sanitize, n), DefaultNote(n));
    Prefix(dir, sanitize, files, names, i);
    Prefix(dir, sanitize, files, names, j);
    assert pre[..i] == names[..i];
    Prefix(dir, sanitize, files, pre, i);
    EnsureAllHolds(dir, sanitize, files, pre);
    ResolveStable(fi, fj, NotePath(dir, sanitize, n), DefaultNote(n));
  }

  /** Running `ensure_notes` again with the same names changes nothing and returns the same entries. */
  lemma Idempotent(dir: string, sanitize: string -> string, files: map<string, string>, names: seq<string>)
    ensures var r := EnsureAll(dir, sanitize, files, names);
            EnsureAll(dir, sanitize, r.files, names) == r
  {
    IdempotentPrefix(dir, sanitize, files, names, |names|);
    assert names[..|names|] == names;
  }

  lemma {:induction false} IdempotentPrefix(dir: string, sanitize: string -> string, files: map<string, string>, names: seq<string>, m: nat)
    requires m <= |names|
    ensures var r := EnsureAll(dir, sanitize, files, names);
            EnsureAll(dir, sanitize, r.files, names[..m]) == Catalog(r.files, r.keys[..m])
    decreases m
  {
    var r := EnsureAll(dir, sanitize, files, names);
    if m > 0 {
      IdempotentPrefix(dir, sanitize, files, names, m - 1);
      var n := names[m - 1];
      var k := r.keys[m - 1];
      SettledKey(dir, sanitize, files, names, m);
      SnocStep(dir, sanitize, r.files, names, m);
      assert r.files[k := DefaultNote(n)] == r.files;
      assert r.keys[..m - 1] + [k] == r.keys[..m];
    } else {
      assert names[..0] == [];
    }
  }

  /** After a run, the `m`-th name's key holds its note, and asking for that name again settles on it. */
  lemma SettledKey(dir: string, sanitize: string -> string, files: map<string, string>, names: seq<string>, m: nat)
    requires 0 < m <= |names|
    ensures var r := EnsureAll(dir, sanitize, files, names);
            var n := names[m - 1];
            var k := r.keys[m - 1];
            k in r.files && r.files[k] == DefaultNote(n) &&
            Resolve(r.files, NotePath(dir, sanitize, n), DefaultNote(n)) == k
  {
    var r := EnsureAll(dir, sanitize, files, names);
    var n := names[m - 1];
    EnsureAllHolds(dir, sanitize, files, names);
    var fm := EnsureAll(dir, sanitize, files, names[..m - 1]).files;
    Prefix(dir, sanitize, files, names, m - 1);
    ResolveStable(fm, r.files, NotePath(dir, sanitize, n), DefaultNote(n));
  }

  /** The run on the first `m` names is the run on the first `m - 1`, then one more `ensure_file`. */
  lemma SnocStep(dir: string, sanitize: string -> string, files: map<string, string>, names: seq<string>, m: nat)
    requires 0 < m <= |names|
    ensures var c := EnsureAll(dir, sanitize, files, names[..m - 1]);
            var n := names[m - 1];
            var k := Resolve(c.files, NotePath(dir, sanitize, n), DefaultNote(n));
            EnsureAll(dir, sanitize, files, names[..m]) == Catalog(c.files[k := DefaultNote(n)], c.keys + [k])
  {
    assert names[..m][..m - 1] == names[..m - 1];
  }

  class FoodsService {
    const store: Store
    /** `foods_dir`, `"Foods"` unless configured otherwise. */
    const foodsDir: string
    /** `sanitize_filename`. */
    const sanitize: string -> string

    constructor (store: Store, sanitize: string -> string)
      ensures this.store == store && foodsDir == "Foods" && this.sanitize == sanitize
    {
      this.store := store;
      foodsDir := "Foods";
      this.sanitize := sanitize;
    }

    /** `ensure_notes`: one `ensure_file` per name, in order, collecting the paths the store returns. */
    method EnsureNotes(names: seq<string>) returns (paths: seq<string>)
      modifies store
      ensures var r := EnsureAll(foodsDir, sanitize, old(store.files), names);
              store.files == r.files && |paths| == |names| &&
              forall i :: 0 <= i < |names| ==> paths[i] == Join(store.root, r.keys[i])
    {
      paths := [];
      var i := 0;
      while i < |names|
        invariant 0 <= i <= |names|
        invariant var r := EnsureAll(foodsDir, sanitize, old(store.files), names[..i]);
                  store.files == r.files && |paths| == i &&
                  forall j :: 0 <= j < i ==> paths[j] == Join(store.root, r.keys[j])
      {
        var food := names[i];
        var p := store.EnsureFile(NotePath(foodsDir, sanitize, food), DefaultNote(food));
        paths := paths + [p];
        SnocStep(foodsDir, sanitize, old(store.files), names, i + 1);
        assert names[..i + 1][..i] == names[..i];
        i := i + 1;
      }
      assert names[..i] == names;
    }
  }
}
