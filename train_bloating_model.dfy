/**
 * The pure parts of `scripts/train_bloating_model.py`: the frontmatter
 * slicing of `load_frontmatter`, `clean_food_entry`, the
 * `build_dataset` join, and the guard that refuses to train on too little
 * data.
 */
module Training {
  import opened Optional
  import opened Text
  import opened Time
  import opened Domain
  import Conditions

  // ------------------------------------------------------------ load_frontmatter

  const Delimiter := "\n---"

  /**
   * The text `load_frontmatter` hands to the YAML parser, or `None` where
   * it returns `{}` before parsing.
   */
  function FrontmatterText(text: string): Option<string> {
    if !StartsWith(text, "---") then None
    else
      var end := Find(text, Delimiter, 3);
      if end == -1 then None else Some(text[3..end])
  }

  /** Nothing is parsed exactly when the text does not open with `---` or has no `\n---` at or after index 3. */
  lemma FrontmatterAbsent(text: string)
    ensures FrontmatterText(text).None? <==>
            !StartsWith(text, "---") || forall i :: 3 <= i ==> !OccursAt(text, Delimiter, i)
  {
    if StartsWith(text, "---") && Find(text, Delimiter, 3) != -1 {
      assert OccursAt(text, Delimiter, Find(text, Delimiter, 3));
    }
  }

  /** Otherwise the parsed text is `text[3:end]`, `end` the first `\n---` at or after index 3. */
  lemma FrontmatterSlice(text: string, end: int)
    requires StartsWith(text, "---") && 3 <= end && OccursAt(text, Delimiter, end)
    requires forall i :: 3 <= i < end ==> !OccursAt(text, Delimiter, i)
    ensures FrontmatterText(text) == Some(text[3..end])
  {
  }

  /** A body framed as `---\n` body `\n---\n`, with no `\n---` inside, is read back after its opening newline. */
  lemma FrontmatterOfFramed(body: string)
    requires var text := "---\n" + body + "\n---\n";
             forall i :: 3 <= i < |text| - 5 ==> !OccursAt(text, Delimiter, i)
    ensures FrontmatterText("---\n" + body + "\n---\n") == Some("\n" + body)
  {
    var text := "---\n" + body + "\n---\n";
    assert text[..3] == "---";
    assert text[|text| - 5..|text| - 1] == Delimiter;
    FrontmatterSlice(text, |text| - 5);
    assert text[3..|text| - 5] == "\n" + body;
  }

  /**
   * What `ConditionService` writes, `load_frontmatter` reads back: the YAML
   * text it parses is the dumped payload (after the newline that opens the
   * frontmatter), provided the dump holds no line starting with `---`.
   */
  lemma ConditionFrontmatterRoundTrip(t: Timestamp, c: Condition, dump: Conditions.Yaml -> string)
    requires var text := Conditions.RenderMarkdown(t, c, dump);
             forall i :: 3 <= i < |text| - 5 ==> !OccursAt(text, Delimiter, i)
    ensures var body := Strip(dump(Conditions.Payload(t, c)));
            FrontmatterText(Conditions.RenderMarkdown(t, c, dump)) == Some("\n" + body)
  {
    var body := Strip(dump(Conditions.Payload(t, c)));
    assert Conditions.RenderMarkdown(t, c, dump) == "---\n" + body + "\n---\n";
    FrontmatterOfFramed(body);
  }

  // ------------------------------------------------------------ clean_food_entry

  predicate Wrapped(v: string) { StartsWith(v, "[[") && EndsWith(v, "]]") }

  /** A wrapped value has room for both halves, so `[2:-2]` never overlaps them. */
  lemma WrappedLength(v: string)
    requires Wrapped(v)
    ensures |v| >= 4
  {
    assert v[0] == v[..2][0] && v[1] == v[..2][1];
    assert v[|v| - 2] == v[|v| - 2..][0];
  }

  /** The `[[`…`]]` wrapper removed, when both halves are there. */
  function Unwrap(v: string): string {
    if Wrapped(v) then WrappedLength(v); v[2..|v| - 2] else v
  }

  /** What `Unwrap` removes is exactly one wrapper: putting it back gives the value again. */
  lemma UnwrapRewraps(v: string)
    requires Wrapped(v)
    ensures "[[" + Unwrap(v) + "]]" == v
  {
    WrappedLength(v);
    assert v == v[..2] + v[2..|v| - 2] + v[|v| - 2..];
  }

  /** `clean_food_entry`: strip, drop one wrapper, strip, lower-case. */
  function CleanFoodEntry(value: string): (r: string)
    ensures Trimmed(r)
  {
    var inner := Strip(Unwrap(Strip(value)));
    LowerKeepsTrimmed(inner);
    Lower(inner)
  }

  /** It undoes the back-link form `[[name]]`. */
  lemma CleanUnwrapsBacklink(name: string)
    ensures CleanFoodEntry("[[" + name + "]]") == Lower(Strip(name))
  {
    var v := "[[" + name + "]]";
    BacklinkTrimmed(name);
    StripOfTrimmed(v);
    BacklinkUnwraps(name);
    CleanOfStripped(v, name);
  }

  lemma BacklinkTrimmed(name: string)
    ensures Trimmed("[[" + name + "]]")
  {
    var v := "[[" + name + "]]";
    assert v[0] == '[' && v[|v| - 1] == ']';
    assert !IsSpace('[') && !IsSpace(']');
  }

  lemma BacklinkUnwraps(name: string)
    ensures Unwrap("[[" + name + "]]") == name
  {
    var v := "[[" + name + "]]";
    assert v[..2] == "[[" && v[|v| - 2..] == "]]";
    assert v[2..|v| - 2] == name;
  }

  lemma CleanOfStripped(v: string, inner: string)
    requires Strip(v) == v && Unwrap(v) == inner
    ensures CleanFoodEntry(v) == Lower(Strip(inner))
  {
  }

  /** Without a complete wrapper only the surrounding whitespace and the case change. */
  lemma CleanUnwrapped(value: string)
    requires !Wrapped(Strip(value))
    ensures CleanFoodEntry(value) == Lower(Strip(value))
  {
    StripOfTrimmed(Strip(value));
  }

  // ------------------------------------------------------------ build_dataset

  /** `foods` as `dict.items()` yields it: stem and cleaned ingredients, in insertion order. */
  type FoodEvents = seq<(string, seq<string>)>

  datatype Dataset = Dataset(x: seq<seq<string>>, y: seq<int>)

  function Label(b: bool): int { if b then 1 else 0 }

  /** `build_dataset`, one item of `foods` after the other. */
  function DatasetOf(foods: FoodEvents, conditions: map<string, bool>): Dataset
    decreases |foods|
  {
    if foods == [] then Dataset([], [])
    else
      var d := DatasetOf(foods[..|foods| - 1], conditions);
      var (key, ingredients) := foods[|foods| - 1];
      if key in conditions then Dataset(d.x + [ingredients], d.y + [Label(conditions[key])]) else d
  }

  /** The items of `foods` whose stem has a condition, in the order of `foods`. */
  function Joined(foods: FoodEvents, conditions: map<string, bool>): FoodEvents
    decreases |foods|
  {
    if foods == [] then []
    else
      var j := Joined(foods[..|foods| - 1], conditions);
      if foods[|foods| - 1].0 in conditions then j + [foods[|foods| - 1]] else j
  }

  /**
   * `x` and `y` have one entry per joined item: its ingredient list, and
   * 1 exactly when its condition records bloating, else 0.
   */
  lemma {:induction false} DatasetIsJoin(foods: FoodEvents, conditions: map<string, bool>)
    ensures var d := DatasetOf(foods, conditions);
            var j := Joined(foods, conditions);
            |d.x| == |j| && |d.y| == |j| &&
            forall i :: 0 <= i < |j| ==>
              j[i].0 in conditions && d.x[i] == j[i].1 && d.y[i] == Label(conditions[j[i].0])
    decreases |foods|
  {
    if foods != [] {
      DatasetIsJoin(foods[..|foods| - 1], conditions);
    }
  }

  /** An item takes part exactly when it is an item of `foods` and its stem has a condition. */
  lemma {:induction false} JoinedMembers(foods: FoodEvents, conditions: map<string, bool>, e: (string, seq<string>))
    ensures e in Joined(foods, conditions) <==> e in foods && e.0 in conditions
    decreases |foods|
  {
    if foods != [] {
      var init := foods[..|foods| - 1];
      JoinedMembers(init, conditions, e);
      assert foods == init + [foods[|foods| - 1]];
    }
  }

  /** The join keeps the order of `foods`: it distributes over concatenation. */
  lemma {:induction false} JoinedConcat(a: FoodEvents, b: FoodEvents, conditions: map<string, bool>)
    ensures Joined(a + b, conditions) == Joined(a, conditions) + Joined(b, conditions)
    decreases |b|
  {
    if b == [] {
      assert a + b == a;
    } else {
      var init := b[..|b| - 1];
      assert (a + b)[..|a + b| - 1] == a + init;
      JoinedConcat(a, init, conditions);
    }
  }

  /** `build_dataset` as the script runs it: a loop appending to `x` and `y`. */
  method BuildDataset(foods: FoodEvents, conditions: map<string, bool>) returns (x: seq<seq<string>>, y: seq<int>)
    ensures Dataset(x, y) == DatasetOf(foods, conditions)
  {
    x, y := [], [];
    for i := 0 to |foods|
      invariant Dataset(x, y) == DatasetOf(foods[..i], conditions)
    {
      var (key, ingredients) := foods[i];
      assert foods[..i + 1][..i] == foods[..i];
      if key !in conditions {
        continue;
      }
      x := x + [ingredients];
      y := y + [Label(conditions[key])];
    }
    assert foods[..|foods|] == foods;
  }

  // ------------------------------------------------------------ train_model's guard

  /** `len(x) < 2 or len(set(y)) < 2`. */
  predicate Refused(x: seq<seq<string>>, y: seq<int>) {
    |x| < 2 || |set i | 0 <= i < |y| :: y[i]| < 2
  }

  lemma {:induction false} SubsetCard<T>(a: set<T>, b: set<T>)
    requires a <= b
    ensures |a| <= |b|
    decreases |a|
  {
    if a != {} {
      var e :| e in a;
      SubsetCard(a - {e}, b - {e});
    }
  }

  /** Training is refused exactly when there are fewer than two examples or all labels agree. */
  lemma RefusedIff(x: seq<seq<string>>, y: seq<int>)
    ensures Refused(x, y) <==> |x| < 2 || forall i, j :: 0 <= i < |y| && 0 <= j < |y| ==> y[i] == y[j]
  {
    var labels := set i | 0 <= i < |y| :: y[i];
    if forall i, j :: 0 <= i < |y| && 0 <= j < |y| ==> y[i] == y[j] {
      if y != [] {
        SubsetCard(labels, {y[0]});
      } else {
        assert labels == {};
      }
    } else {
      var i, j :| 0 <= i < |y| && 0 <= j < |y| && y[i] != y[j];
      SubsetCard({y[i], y[j]}, labels);
    }
  }

  /** On a dataset from `build_dataset` the labels are 0 and 1, so a refusal means fewer than two examples or one kind of label. */
  lemma DatasetLabelsBinary(foods: FoodEvents, conditions: map<string, bool>)
    ensures var d := DatasetOf(foods, conditions);
            |d.x| == |d.y| && forall i :: 0 <= i < |d.y| ==> d.y[i] == 0 || d.y[i] == 1
  {
    DatasetIsJoin(foods, conditions);
  }
}
