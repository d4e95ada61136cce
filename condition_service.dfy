/**
 * The condition log (`bot/services/condition_service.py`): a file name built
 * from the timestamp and a short id, and a YAML frontmatter document. The
 * YAML emitter (`yaml.safe_dump`) is a parameter; the payload handed to it
 * is modelled as an ordered YAML value.
 */
module Conditions {
  import opened Optional
  import opened Time
  import opened Text
  import opened Domain
  import opened FileStore

  /** A YAML value as `safe_dump` receives it: mappings keep their key order (`sort_keys=False`). */
  datatype Yaml = Str(s: string) | Bool(b: bool) | Int(i: int) | Mapping(entries: seq<(string, Yaml)>)

  /** The keys of a mapping's entries, in order. */
  function Keys(entries: seq<(string, Yaml)>): (r: seq<string>)
    ensures |r| == |entries| && forall i :: 0 <= i < |entries| ==> r[i] == entries[i].0
  {
    if entries == [] then [] else [entries[0].0] + Keys(entries[1..])
  }

  /** The value under `key` in a mapping, the first one if repeated. */
  function Lookup(y: Yaml, key: string): Option<Yaml>
    decreases y
  {
    if !y.Mapping? then None else LookupIn(y.entries, key)
  }

  function LookupIn(entries: seq<(string, Yaml)>, key: string): Option<Yaml> {
    if entries == [] then None
    else if entries[0].0 == key then Some(entries[0].1)
    else LookupIn(entries[1..], key)
  }

  /** The payload of `_render_markdown`, in its key order. */
  function Payload(t: Timestamp, c: Condition): Yaml {
    Mapping([
      ("date", Str(DateText(t))),
      ("time", Str(TimeText(t))),
      ("symptoms", Mapping([
        ("bloating", Bool(c.bloating)),
        ("diarrhea", Bool(c.diarrhea)),
        ("well_being", Int(c.wellBeing))]))])
  }

  /**
   * The payload's keys are `date`, `time`, `symptoms` in that order, the
   * symptoms' keys `bloating`, `diarrhea`, `well_being`; the two symptoms
   * are booleans, the score is the condition's, the date is the file name's
   * date and the time its hours and minutes.
   */
  lemma PayloadShape(t: Timestamp, c: Condition)
    ensures var p := Payload(t, c);
            Keys(p.entries) == ["date", "time", "symptoms"] &&
            Lookup(p, "symptoms").Some? && Lookup(p, "symptoms").value.Mapping? &&
            Keys(Lookup(p, "symptoms").value.entries) == ["bloating", "diarrhea", "well_being"] &&
            Lookup(Lookup(p, "symptoms").value, "bloating") == Some(Bool(c.bloating)) &&
            Lookup(Lookup(p, "symptoms").value, "diarrhea") == Some(Bool(c.diarrhea)) &&
            Lookup(Lookup(p, "symptoms").value, "well_being") == Some(Int(c.wellBeing))
  {
    var e := Payload(t, c).entries;
    var s := [("bloating", Bool(c.bloating)), ("diarrhea", Bool(c.diarrhea)), ("well_being", Int(c.wellBeing))];
    assert Keys(e) == ["date", "time", "symptoms"];
    assert LookupIn(e, "symptoms") == Some(Mapping(s)) by {
      assert LookupIn(e, "symptoms") == LookupIn(e[1..], "symptoms") == LookupIn(e[1..][1..], "symptoms");
    }
    assert Keys(s) == ["bloating", "diarrhea", "well_being"];
    assert LookupIn(s, "diarrhea") == LookupIn(s[1..], "diarrhea");
    assert LookupIn(s, "well_being") == LookupIn(s[1..], "well_being") == LookupIn(s[1..][1..], "well_being");
  }

  /** The payload's `date` and `time` are the ones the file name carries. */
  lemma PayloadMatchesFilename(t: Timestamp, c: Condition, shortId: string)
    ensures var p := Payload(t, c);
            var name := BuildFilename(t, shortId);
            Lookup(p, "date") == Some(Str(name[..10])) &&
            Lookup(p, "time") == Some(Str(name[11..13] + ":" + name[14..16]))
  {
    var e := Payload(t, c).entries;
    assert LookupIn(e, "time") == LookupIn(e[1..], "time");
    var name := BuildFilename(t, shortId);
    var slug := StampSlug(t);
    assert name[..19] == slug;
    assert name[..10] == slug[..10];
    assert name[11..13] == slug[11..13] == Pad2(t.hour);
    assert name[14..16] == slug[14..16] == Pad2(t.minute);
  }

  /** `_build_filename`: `YYYY-MM-DD_HH-MM-SS_<short_id>.md`. */
  function BuildFilename(t: Timestamp, shortId: string): (r: string)
    ensures |r| == 19 + 1 + |shortId| + 3 && r[..19] == StampSlug(t) && r[19] == '_'
    ensures r[20..|r| - 3] == shortId && r[|r| - 3..] == ".md"
  {
    StampSlug(t) + "_" + shortId + ".md"
  }

  /** Reads a log file name back into its timestamp and short id. */
  function ParseFilename(name: string): Option<(Timestamp, string)> {
    if |name| < 23 || name[19] != '_' || name[|name| - 3..] != ".md" then None
    else
      match ParseSlug(name[..19])
      case None => None
      case Some(t) => Some((t, name[20..|name| - 3]))
  }

  lemma FilenameRoundTrip(t: Timestamp, shortId: string)
    ensures ParseFilename(BuildFilename(t, shortId)) == Some((t, shortId))
  {
    SlugRoundTrip(t);
  }

  /**
   * Different timestamps or different ids give different file names; the
   * same ones give the same name, so a second `persist` would overwrite.
   */
  lemma FilenameInjective(t1: Timestamp, id1: string, t2: Timestamp, id2: string)
    ensures BuildFilename(t1, id1) == BuildFilename(t2, id2) <==> t1 == t2 && id1 == id2
  {
    if BuildFilename(t1, id1) == BuildFilename(t2, id2) {
      FilenameRoundTrip(t1, id1);
      FilenameRoundTrip(t2, id2);
    }
  }

  /** `_render_markdown`: the stripped YAML body between two `---` lines. */
  function RenderMarkdown(t: Timestamp, c: Condition, dump: Yaml -> string): (r: string)
    ensures |r| == |Strip(dump(Payload(t, c)))| + 9
    ensures StartsWith(r, "---\n") && EndsWith(r, "\n---\n")
    ensures r[4..|r| - 5] == Strip(dump(Payload(t, c)))
  {
    "---\n" + Strip(dump(Payload(t, c))) + "\n---\n"
  }

  /** `ConditionRecord`. */
  datatype ConditionRecord = ConditionRecord(path: string, content: string)

  /** `Path(log_dir) / filename`. */
  function LogPath(logDir: string, t: Timestamp, shortId: string): string {
    logDir + "/" + BuildFilename(t, shortId)
  }

  class ConditionService {
    const store: Store
    /** `log_dir`, `"ConditionLog"` unless configured otherwise. */
    const logDir: string
    /** `yaml.safe_dump(..., allow_unicode=True, sort_keys=False)`. */
    const dump: Yaml -> string

    constructor (store: Store, dump: Yaml -> string)
      ensures this.store == store && logDir == "ConditionLog" && this.dump == dump
    {
      this.store := store;
      logDir := "ConditionLog";
      this.dump := dump;
    }

    /**
     * `persist`: writes the rendered record under `ConditionLog/<filename>`
     * and returns exactly that content with the path the store returned.
     */
    method Persist(t: Timestamp, shortId: string, c: Condition) returns (rec: ConditionRecord)
      modifies store
      ensures var rel := LogPath(logDir, t, shortId);
              var content := RenderMarkdown(t, c, dump);
              store.files == old(store.files)[rel := content] &&
              rec == ConditionRecord(Join(store.root, rel), content)
    {
      var filename := BuildFilename(t, shortId);
      var content := RenderMarkdown(t, c, dump);
      var path := store.WriteText(logDir + "/" + filename, content);
      rec := ConditionRecord(path, content);
    }
  }
}
