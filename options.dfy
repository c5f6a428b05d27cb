/**
  The options of the Woodcutter bot: the schema that create_options declares,
  and what save_options does with the dictionary the options form returns.
  The dictionary is a sequence of (key, value) pairs in its iteration order.
 */
module Options {
  import opened Events

  const RunningTimeKey: string := "running_time"
  const MultiSelectKey: string := "multi_select_example"
  const MenuKey: string := "menu_example"

  /** One option declared through the options builder. */
  datatype OptionSpec =
    | Slider(key: string, title: string, min: int, max: int)
    | Checkbox(key: string, title: string, choices: seq<string>)
    | Dropdown(key: string, title: string, choices: seq<string>)

  /** The three options create_options declares, in declaration order. */
  function DeclaredOptions(): seq<OptionSpec> {
    [ Slider(RunningTimeKey, "How long to run (minutes)?", 1, 180),
      Checkbox(MultiSelectKey, "Multi-select Example", ["A", "B", "C"]),
      Dropdown(MenuKey, "Menu Example", ["A", "B", "C"]) ]
  }

  function Keys(specs: seq<OptionSpec>): (keys: seq<string>)
    ensures |keys| == |specs|
    ensures forall i :: 0 <= i < |specs| ==> keys[i] == specs[i].key
  {
    seq(|specs|, i requires 0 <= i < |specs| => specs[i].key)
  }

  /** The keys save_options has a branch for. */
  predicate IsKnown(key: string) {
    key == RunningTimeKey || key == MultiSelectKey || key == MenuKey
  }

  /** The three option fields of the bot. */
  datatype Settings = Settings(runningTime: OptionValue, multiSelectExample: OptionValue, menuExample: OptionValue)

  /** The field a known key names. */
  function Field(s: Settings, key: string): OptionValue
    requires IsKnown(key)
  {
    if key == RunningTimeKey then s.runningTime
    else if key == MultiSelectKey then s.multiSelectExample
    else s.menuExample
  }

  /** One pass of the loop body of save_options on the fields: a known key
      overwrites its own field, an unknown key changes nothing. */
  function Store(s: Settings, key: string, value: OptionValue): (r: Settings)
    ensures IsKnown(key) ==> Field(r, key) == value
    ensures forall other :: IsKnown(other) && other != key ==> Field(r, other) == Field(s, other)
  {
    if key == RunningTimeKey then s.(runningTime := value)
    else if key == MultiSelectKey then s.(multiSelectExample := value)
    else if key == MenuKey then s.(menuExample := value)
    else s
  }

  /** The fields after save_options has walked the whole dictionary. */
  function Apply(s: Settings, options: seq<(string, OptionValue)>): Settings
    decreases |options|
  {
    if |options| == 0 then s
    else
      var last := options[|options| - 1];
      Store(Apply(s, options[..|options| - 1]), last.0, last.1)
  }

  /** The options_set flag after the loop: it starts true and every unknown key clears it. */
  function Accepted(options: seq<(string, OptionValue)>): bool
    decreases |options|
  {
    if |options| == 0 then true
    else Accepted(options[..|options| - 1]) && IsKnown(options[|options| - 1].0)
  }

  /** The line logged for one key of the dictionary. */
  function KeyMessage(key: string, value: OptionValue): (m: Message)
    ensures m.UnknownOption? <==> !IsKnown(key)
    ensures m.UnknownOption? ==> m.key == key
    ensures key == RunningTimeKey ==> m == RunningTimeSet(value)
    ensures key == MultiSelectKey ==> m == MultiSelectSet(value)
    ensures key == MenuKey ==> m == MenuSet(value)
  {
    if key == RunningTimeKey then RunningTimeSet(value)
    else if key == MultiSelectKey then MultiSelectSet(value)
    else if key == MenuKey then MenuSet(value)
    else UnknownOption(key)
  }

  /** The lines logged inside the loop, one per key in iteration order. */
  function KeyLog(options: seq<(string, OptionValue)>): seq<Event>
    decreases |options|
  {
    if |options| == 0 then []
    else
      var last := options[|options| - 1];
      KeyLog(options[..|options| - 1]) + [Logged(KeyMessage(last.0, last.1))]
  }

  /** Everything save_options logs: the key lines, then the verdict line. */
  function SaveLog(options: seq<(string, OptionValue)>): seq<Event> {
    KeyLog(options) + [Logged(if Accepted(options) then OptionsSaved else OptionsFailed)]
  }

  // ----- Properties of save_options -----

  /** The flag ends up true exactly when every key of the dictionary is known. */
  lemma {:induction false} AcceptedIffAllKnown(options: seq<(string, OptionValue)>)
    ensures Accepted(options) <==> forall i :: 0 <= i < |options| ==> IsKnown(options[i].0)
    decreases |options|
  {
    if |options| > 0 {
      var prefix := options[..|options| - 1];
      AcceptedIffAllKnown(prefix);
      assert forall i :: 0 <= i < |prefix| ==> prefix[i] == options[i];
    }
  }

  /** A known key that occurs in the dictionary leaves its field holding the
      value of its last occurrence, whatever the fields held before. */
  lemma {:induction false} ApplyStoresLast(s: Settings, options: seq<(string, OptionValue)>, key: string, i: nat)
    requires IsKnown(key)
    requires i < |options| && options[i].0 == key
    requires forall j :: i < j < |options| ==> options[j].0 != key
    ensures Field(Apply(s, options), key) == options[i].1
    decreases |options|
  {
    if i < |options| - 1 {
      var prefix := options[..|options| - 1];
      ApplyStoresLast(s, prefix, key, i);
    }
  }

  /** A known key that does not occur leaves its field unchanged. */
  lemma {:induction false} ApplyKeepsAbsent(s: Settings, options: seq<(string, OptionValue)>, key: string)
    requires IsKnown(key)
    requires forall j :: 0 <= j < |options| ==> options[j].0 != key
    ensures Field(Apply(s, options), key) == Field(s, key)
    decreases |options|
  {
    if |options| > 0 {
      var prefix := options[..|options| - 1];
      ApplyKeepsAbsent(s, prefix, key);
    }
  }

  /** An unknown key changes no field wherever it stands in the dictionary, and
      does not stop the known keys around it from being stored. */
  lemma {:induction false} UnknownKeyIgnored(s: Settings, before: seq<(string, OptionValue)>, key: string, value: OptionValue, after: seq<(string, OptionValue)>)
    requires !IsKnown(key)
    ensures Apply(s, before + [(key, value)] + after) == Apply(s, before + after)
    decreases |after|
  {
    var whole := before + [(key, value)] + after;
    if |after| == 0 {
      assert whole[..|whole| - 1] == before;
      assert before + after == before;
    } else {
      var shorter := after[..|after| - 1];
      UnknownKeyIgnored(s, before, key, value, shorter);
      assert whole[..|whole| - 1] == before + [(key, value)] + shorter;
      assert (before + after)[..|before + after| - 1] == before + shorter;
    }
  }

  /** A known key that occurs in the dictionary gets the same value whatever
      the fields held before the call. */
  lemma {:induction false} ApplyOverwrites(s1: Settings, s2: Settings, options: seq<(string, OptionValue)>, key: string)
    requires IsKnown(key)
    requires exists j :: 0 <= j < |options| && options[j].0 == key
    ensures Field(Apply(s1, options), key) == Field(Apply(s2, options), key)
    decreases |options|
  {
    var prefix := options[..|options| - 1];
    if options[|options| - 1].0 != key {
      var j :| 0 <= j < |options| && options[j].0 == key;
      assert prefix[j].0 == key;
      ApplyOverwrites(s1, s2, prefix, key);
    }
  }

  /** Saving the same dictionary twice leaves the fields as saving it once. */
  lemma ApplyIdempotent(s: Settings, options: seq<(string, OptionValue)>)
    ensures Apply(Apply(s, options), options) == Apply(s, options)
  {
    var once := Apply(s, options);
    var twice := Apply(once, options);
    forall key | IsKnown(key)
      ensures Field(twice, key) == Field(once, key)
    {
      if exists j :: 0 <= j < |options| && options[j].0 == key {
        ApplyOverwrites(once, s, options, key);
      } else {
        ApplyKeepsAbsent(once, options, key);
      }
    }
    assert Field(twice, RunningTimeKey) == Field(once, RunningTimeKey);
    assert Field(twice, MultiSelectKey) == Field(once, MultiSelectKey);
    assert Field(twice, MenuKey) == Field(once, MenuKey);
  }

  /** The log holds one line per key, in iteration order, then exactly one
      verdict line, which is the success line exactly when every key is known. */
  lemma {:induction false} SaveLogShape(options: seq<(string, OptionValue)>)
    ensures |SaveLog(options)| == |options| + 1
    ensures forall i :: 0 <= i < |options| ==> SaveLog(options)[i] == Logged(KeyMessage(options[i].0, options[i].1))
    ensures SaveLog(options)[|options|] == Logged(OptionsSaved) <==> forall i :: 0 <= i < |options| ==> IsKnown(options[i].0)
    ensures SaveLog(options)[|options|] == Logged(OptionsFailed) <==> exists i :: 0 <= i < |options| && !IsKnown(options[i].0)
  {
    KeyLogShape(options);
    AcceptedIffAllKnown(options);
  }

  lemma {:induction false} KeyLogShape(options: seq<(string, OptionValue)>)
    ensures |KeyLog(options)| == |options|
    ensures forall i :: 0 <= i < |options| ==> KeyLog(options)[i] == Logged(KeyMessage(options[i].0, options[i].1))
    decreases |options|
  {
    if |options| > 0 {
      var prefix := options[..|options| - 1];
      KeyLogShape(prefix);
      assert forall i :: 0 <= i < |prefix| ==> prefix[i] == options[i];
    }
  }

  /** An empty dictionary changes no field, sets the flag and logs only the success line. */
  lemma EmptyOptions(s: Settings)
    ensures Apply(s, []) == s
    ensures Accepted([])
    ensures SaveLog([]) == [Logged(OptionsSaved)]
  {
  }

  /** save_options is not all-or-nothing: with an unknown key beside a known
      one the flag is cleared, yet the known key is stored. */
  lemma PartialSave(s: Settings)
    ensures !Accepted([(RunningTimeKey, Int(30)), ("speed", Int(2))])
    ensures Apply(s, [(RunningTimeKey, Int(30)), ("speed", Int(2))]).runningTime == Int(30)
  {
    var options := [(RunningTimeKey, Int(30)), ("speed", Int(2))];
    assert options[..1] == [(RunningTimeKey, Int(30))];
    assert !IsKnown("speed");
  }

  /** save_options checks neither the slider range nor the type of a value:
      a running time of 0 minutes, outside the declared range 1..180, is accepted and stored. */
  lemma RangeNotChecked(s: Settings)
    ensures DeclaredOptions()[0].key == RunningTimeKey && DeclaredOptions()[0].min == 1
    ensures Accepted([(RunningTimeKey, Int(0))])
    ensures Apply(s, [(RunningTimeKey, Int(0))]).runningTime == Int(0)
  {
  }

  /** The keys save_options recognises are exactly the keys create_options declares, each declared once. */
  lemma DeclaredKeysAreKnown()
    ensures forall key :: key in Keys(DeclaredOptions()) <==> IsKnown(key)
    ensures forall i, j :: 0 <= i < j < |DeclaredOptions()| ==> Keys(DeclaredOptions())[i] != Keys(DeclaredOptions())[j]
  {
    var keys := Keys(DeclaredOptions());
    assert keys == [RunningTimeKey, MultiSelectKey, MenuKey];
  }
}
