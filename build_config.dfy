/** The Xcode configuration update of the build helpers (`updateXcodeConfigFile` and
  * `writeProperties`): an existing `.xcconfig` file is read as a properties table, the
  * pairs computed by the build script are merged into it, and the table is written back,
  * sorted by key, only when the merge changed something. The file itself appears as the
  * table read from it (none when it does not exist) and the text written to it.
  */
module BuildConfig {
  import opened Strings

  /** A build-script callable: computes one key/value pair from the current table. */
  type PairCallable = map<string, string> -> (string, string)

  // ---------------------------------------------------------------------------
  // Loading the existing table
  // ---------------------------------------------------------------------------

  /** The entries of the loaded properties whose key is not blank. */
  function NonBlankEntries(properties: map<string, string>): map<string, string>
  {
    map k | k in properties && !IsBlank(k) :: properties[k]
  }

  /** The `forEach` over the loaded properties: entries with a blank key are dropped and
    * every other entry is kept with its value. */
  method LoadConfig(properties: map<string, string>) returns (config: map<string, string>)
    ensures forall k :: k in config <==> k in properties && !IsBlank(k)
    ensures forall k :: k in config ==> config[k] == properties[k]
    ensures config == NonBlankEntries(properties)
  {
    config := map[];
    var remaining := properties.Keys;
    while remaining != {}
      invariant remaining <= properties.Keys
      invariant forall k :: k in config <==> k in properties && k !in remaining && !IsBlank(k)
      invariant forall k :: k in config ==> config[k] == properties[k]
      decreases |remaining|
    {
      var key :| key in remaining;
      if !IsBlank(key) {
        config := config[key := properties[key]];
      }
      remaining := remaining - {key};
    }
  }

  // ---------------------------------------------------------------------------
  // Merging the pairs
  // ---------------------------------------------------------------------------

  /** `callable.map { it(xcconfigProperties) }`: every callable sees the table as loaded,
    * before any pair is stored. */
  function EvaluateCallables(callables: seq<PairCallable>, config: map<string, string>): (pairs: seq<(string, string)>)
    ensures |pairs| == |callables|
    ensures forall i :: 0 <= i < |callables| ==> pairs[i] == callables[i](config)
  {
    seq(|callables|, i requires 0 <= i < |callables| => callables[i](config))
  }

  /** The table after storing the pairs in order: no loaded key is lost, and the pair
    * stored last holds. */
  function ApplyPairs(config: map<string, string>, pairs: seq<(string, string)>): (r: map<string, string>)
    ensures config.Keys <= r.Keys
    ensures pairs != [] ==> pairs[|pairs| - 1].0 in r && r[pairs[|pairs| - 1].0] == pairs[|pairs| - 1].1
  {
    if pairs == [] then config
    else
      var last := pairs[|pairs| - 1];
      ApplyPairs(config, pairs[..|pairs| - 1])[last.0 := last.1]
  }

  /** A pair differs from the table when its key is missing or holds another value. */
  predicate Differs(config: map<string, string>, pair: (string, string)) {
    pair.0 !in config || config[pair.0] != pair.1
  }

  /** `isChanged`: some pair differed from the table at the moment it was stored. A
    * merge that is not marked changed leaves the table as loaded. */
  predicate Changed(config: map<string, string>, pairs: seq<(string, string)>): (changed: bool)
    ensures !changed ==> ApplyPairs(config, pairs) == config
  {
    pairs != [] &&
      (Changed(config, pairs[..|pairs| - 1]) ||
       Differs(ApplyPairs(config, pairs[..|pairs| - 1]), pairs[|pairs| - 1]))
  }

  /** The merge loop: each pair that differs from the table is stored and marks the
    * table changed. */
  method MergePairs(config: map<string, string>, pairs: seq<(string, string)>)
    returns (merged: map<string, string>, isChanged: bool)
    ensures merged == ApplyPairs(config, pairs)
    ensures isChanged == Changed(config, pairs)
  {
    merged, isChanged := config, false;
    var i := 0;
    while i < |pairs|
      invariant 0 <= i <= |pairs|
      invariant merged == ApplyPairs(config, pairs[..i])
      invariant isChanged == Changed(config, pairs[..i])
    {
      assert pairs[..i + 1][..i] == pairs[..i];
      var (key, value) := pairs[i];
      if key !in merged || merged[key] != value {
        merged := merged[key := value];
        isChanged := true;
      } else {
        assert merged[key := value] == merged;
      }
      i := i + 1;
    }
    assert pairs[..i] == pairs;
  }

  /** After the merge the table has the loaded keys and the keys the pairs name, and no
    * other. */
  lemma {:induction false} ApplyPairsKeys(config: map<string, string>, pairs: seq<(string, string)>, key: string)
    ensures key in ApplyPairs(config, pairs) <==> key in config || key in PairKeys(pairs)
  {
    if pairs != [] {
      var init := pairs[..|pairs| - 1];
      ApplyPairsKeys(config, init, key);
      assert PairKeys(pairs) == PairKeys(init) + [pairs[|pairs| - 1].0];
    }
  }

  /** A loaded key that no pair names keeps its loaded value. */
  lemma {:induction false} ApplyPairsUntouched(config: map<string, string>, pairs: seq<(string, string)>, key: string)
    requires key in config && key !in PairKeys(pairs)
    ensures key in ApplyPairs(config, pairs) && ApplyPairs(config, pairs)[key] == config[key]
  {
    if pairs != [] {
      var init := pairs[..|pairs| - 1];
      assert PairKeys(pairs) == PairKeys(init) + [pairs[|pairs| - 1].0];
      ApplyPairsUntouched(config, init, key);
    }
  }

  /** A key named by a pair holds the value of the last pair naming it. */
  lemma {:induction false} ApplyPairsLastWins(config: map<string, string>, pairs: seq<(string, string)>, i: int)
    requires 0 <= i < |pairs|
    requires forall j :: i < j < |pairs| ==> pairs[j].0 != pairs[i].0
    ensures pairs[i].0 in ApplyPairs(config, pairs) && ApplyPairs(config, pairs)[pairs[i].0] == pairs[i].1
  {
    var init := pairs[..|pairs| - 1];
    if i < |init| {
      assert init[i] == pairs[i];
      assert pairs[|pairs| - 1].0 != pairs[i].0;
      ApplyPairsLastWins(config, init, i);
    }
  }

  /** Pairs agree with a table that already holds every one of them. */
  predicate Holds(config: map<string, string>, pairs: seq<(string, string)>) {
    forall i :: 0 <= i < |pairs| ==> pairs[i].0 in config && config[pairs[i].0] == pairs[i].1
  }

  /** Pairs that never give one key two different values. */
  predicate Consistent(pairs: seq<(string, string)>) {
    forall i, j :: 0 <= i < j < |pairs| && pairs[i].0 == pairs[j].0 ==> pairs[i].1 == pairs[j].1
  }

  /** Merging pairs a table already holds changes nothing. */
  lemma {:induction false} HeldPairsChangeNothing(config: map<string, string>, pairs: seq<(string, string)>)
    requires Holds(config, pairs)
    ensures !Changed(config, pairs) && ApplyPairs(config, pairs) == config
  {
    if pairs != [] {
      var last := pairs[|pairs| - 1];
      HeldPairsChangeNothing(config, pairs[..|pairs| - 1]);
      assert config[last.0 := last.1] == config;
    }
  }

  /** After merging consistent pairs, the table holds all of them. */
  lemma {:induction false} MergedTableHoldsPairs(config: map<string, string>, pairs: seq<(string, string)>)
    requires Consistent(pairs)
    ensures Holds(ApplyPairs(config, pairs), pairs)
  {
    if pairs != [] {
      var init := pairs[..|pairs| - 1];
      var last := pairs[|pairs| - 1];
      assert forall i :: 0 <= i < |init| ==> init[i] == pairs[i];
      MergedTableHoldsPairs(config, init);
    }
  }

  /** Merging the same consistent pairs a second time changes nothing, so the file is not
    * rewritten. */
  lemma RerunChangesNothing(config: map<string, string>, pairs: seq<(string, string)>)
    requires Consistent(pairs)
    ensures !Changed(ApplyPairs(config, pairs), pairs)
    ensures ApplyPairs(ApplyPairs(config, pairs), pairs) == ApplyPairs(config, pairs)
  {
    MergedTableHoldsPairs(config, pairs);
    HeldPairsChangeNothing(ApplyPairs(config, pairs), pairs);
  }

  /** A merge that marks nothing changed only stored pairs the table already held, so
    * `isChanged` is false exactly when the table holds every pair. */
  lemma {:induction false} UnchangedMeansHeld(config: map<string, string>, pairs: seq<(string, string)>)
    ensures !Changed(config, pairs) <==> Holds(config, pairs)
  {
    if Holds(config, pairs) {
      HeldPairsChangeNothing(config, pairs);
    } else if pairs != [] {
      var init := pairs[..|pairs| - 1];
      UnchangedMeansHeld(config, init);
      if !Changed(config, pairs) {
        forall i | 0 <= i < |pairs| ensures pairs[i].0 in config && config[pairs[i].0] == pairs[i].1 {
          if i < |init| {
            assert pairs[i] == init[i];
          }
        }
        assert false;
      }
    }
  }

  /** Two pairs that give one key different values mark the table changed, whatever the
    * table, and so on every run. */
  lemma ConflictingPairsAlwaysChange(config: map<string, string>, pairs: seq<(string, string)>, i: int, j: int)
    requires 0 <= i < j < |pairs| && pairs[i].0 == pairs[j].0 && pairs[i].1 != pairs[j].1
    ensures Changed(config, pairs)
  {
    UnchangedMeansHeld(config, pairs);
  }

  /** An example: the last of two conflicting pairs can restore the loaded value, so the
    * table is marked changed although the merged table equals the loaded one. */
  lemma ConflictingPairsRestoreTable(config: map<string, string>, pairs: seq<(string, string)>)
    requires config == map["SETTING" := "a"]
    requires pairs == [("SETTING", "b"), ("SETTING", "a")]
    ensures ApplyPairs(config, pairs) == config
    ensures Changed(config, pairs)
  {
    ConflictingPairsAlwaysChange(config, pairs, 0, 1);
    var once := pairs[..1];
    assert once == [("SETTING", "b")] && once[..0] == [];
    assert ApplyPairs(config, once) == config["SETTING" := "b"];
    assert ApplyPairs(config, pairs) == config["SETTING" := "b"]["SETTING" := "a"];
    assert config["SETTING" := "b"]["SETTING" := "a"] == config;
  }

  // ---------------------------------------------------------------------------
  // Writing the table
  // ---------------------------------------------------------------------------

  /** Kotlin's `String.compareTo(..) < 0`: lexicographic order on characters, a proper
    * prefix first. */
  predicate StringLess(a: string, b: string)
    decreases |a|
  {
    b != [] && (a == [] || a[0] < b[0] || (a[0] == b[0] && StringLess(a[1..], b[1..])))
  }

  lemma {:induction false} StringLessIrreflexive(a: string)
    ensures !StringLess(a, a)
    decreases |a|
  {
    if a != [] {
      StringLessIrreflexive(a[1..]);
    }
  }

  lemma {:induction false} StringLessTransitive(a: string, b: string, c: string)
    requires StringLess(a, b) && StringLess(b, c)
    ensures StringLess(a, c)
    decreases |a|
  {
    if a != [] && a[0] == b[0] && b[0] == c[0] {
      StringLessTransitive(a[1..], b[1..], c[1..]);
    }
  }

  lemma {:induction false} StringLessTotal(a: string, b: string)
    requires a != b
    ensures StringLess(a, b) || StringLess(b, a)
    decreases |a|
  {
    if a != [] && b != [] && a[0] == b[0] {
      assert a == [a[0]] + a[1..] && b == [b[0]] + b[1..];
      StringLessTotal(a[1..], b[1..]);
    }
  }

  /** `k` sorts before every other key of `keys`. */
  predicate IsLeast(k: string, keys: set<string>) {
    k in keys && forall j :: j in keys && j != k ==> StringLess(k, j)
  }

  lemma {:induction false} LeastExists(keys: set<string>)
    requires keys != {}
    ensures exists k :: IsLeast(k, keys)
    decreases |keys|
  {
    var x :| x in keys;
    if keys - {x} == {} {
      assert keys == {x};
      assert IsLeast(x, keys);
    } else {
      LeastExists(keys - {x});
      var m :| IsLeast(m, keys - {x});
      if StringLess(x, m) {
        forall j | j in keys && j != x ensures StringLess(x, j) {
          if j != m {
            StringLessTransitive(x, m, j);
          }
        }
        assert IsLeast(x, keys);
      } else {
        StringLessTotal(x, m);
        assert IsLeast(m, keys);
      }
    }
  }

  lemma LeastUnique(keys: set<string>)
    ensures forall k, l :: IsLeast(k, keys) && IsLeast(l, keys) ==> k == l
  {
    forall k, l | IsLeast(k, keys) && IsLeast(l, keys) ensures k == l {
      if k != l {
        StringLessTransitive(k, l, k);
        StringLessIrreflexive(k);
      }
    }
  }

  /** `sortedBy { it.key }` on a table: its keys in ascending order. */
  function SortedKeys(keys: set<string>): (r: seq<string>)
    ensures |r| == |keys|
    ensures forall k :: k in r <==> k in keys
    ensures forall i, j :: 0 <= i < j < |r| ==> StringLess(r[i], r[j])
    decreases |keys|
  {
    if keys == {} then []
    else
      LeastExists(keys);
      LeastUnique(keys);
      var k :| IsLeast(k, keys);
      var rest := SortedKeys(keys - {k});
      LeastFirst(k, keys, rest);
      [k] + rest
  }

  /** Putting the least key before the sorted others keeps them sorted. */
  lemma LeastFirst(k: string, keys: set<string>, rest: seq<string>)
    requires IsLeast(k, keys)
    requires |rest| == |keys - {k}| && forall x :: x in rest <==> x in keys - {k}
    requires forall i, j :: 0 <= i < j < |rest| ==> StringLess(rest[i], rest[j])
    ensures |[k] + rest| == |keys|
    ensures forall x :: x in [k] + rest <==> x in keys
    ensures forall i, j :: 0 <= i < j < |[k] + rest| ==> StringLess(([k] + rest)[i], ([k] + rest)[j])
  {
  }

  /** The `key=value` line of each key, in the given order. */
  function EntryLines(properties: map<string, string>, keys: seq<string>): (lines: seq<string>)
    requires forall k :: k in keys ==> k in properties
    ensures |lines| == |keys|
  {
    seq(|keys|, i requires 0 <= i < |keys| => keys[i] + "=" + properties[keys[i]])
  }

  /** The optional `# comment` line. */
  function Header(comments: Option<string>): string
  {
    if comments.Some? then "# " + comments.value + "\n" else ""
  }

  /** The text `writeProperties` writes: it opens with the comment line, if any, and an
    * empty table writes nothing else. */
  function PropertiesText(properties: map<string, string>, comments: Option<string>): (text: string)
    ensures Header(comments) <= text
    ensures properties == map[] ==> text == Header(comments)
  {
    Header(comments) + Join("\n", EntryLines(properties, SortedKeys(properties.Keys)))
  }

  /** The text the write loop has produced after the first `n` lines: those lines, each
    * followed by a line break unless it is the last line of all. */
  function WrittenLines(lines: seq<string>, n: nat): string
    requires n <= |lines|
  {
    if n == 0 then "" else Join("\n", lines[..n]) + (if n < |lines| then "\n" else "")
  }

  lemma WrittenLinesStep(lines: seq<string>, n: nat)
    requires n < |lines|
    ensures WrittenLines(lines, n + 1) ==
      WrittenLines(lines, n) + lines[n] + (if n + 1 < |lines| then "\n" else "")
  {
    if n > 0 {
      JoinSnoc("\n", lines[..n], lines[n]);
      assert lines[..n + 1] == lines[..n] + [lines[n]];
    } else {
      assert lines[..1] == [lines[0]];
    }
  }

  /** `writeProperties`: the optional comment line, then one `key=value` line per entry
    * in key order, a line break after every line but the last. */
  method WriteProperties(properties: map<string, string>, comments: Option<string>) returns (text: string)
    ensures text == PropertiesText(properties, comments)
  {
    text := Header(comments);
    var entries := SortedKeys(properties.Keys);
    ghost var lines := EntryLines(properties, entries);
    var index := 0;
    while index < |entries|
      invariant 0 <= index <= |entries|
      invariant text == Header(comments) + WrittenLines(lines, index)
    {
      var key := entries[index];
      ghost var written := WrittenLines(lines, index);
      WrittenLinesStep(lines, index);
      text := text + (key + "=" + properties[key]);
      if index < |properties| - 1 {
        text := text + "\n";
        AppendAssociative(Header(comments), written, lines[index], "\n");
      } else {
        AppendAssociative(Header(comments), written, lines[index], "");
      }
      index := index + 1;
    }
    assert lines[..index] == lines;
  }

  lemma AppendAssociative(a: string, b: string, c: string, d: string)
    ensures (a + b) + c + d == a + (b + c + d)
    ensures (a + b) + c == a + (b + c + "")
  {
  }

  /** No line of the table contains a line break when no key or value does. */
  lemma EntryLinesUnbroken(properties: map<string, string>, keys: seq<string>)
    requires forall k :: k in properties ==> '\n' !in k && '\n' !in properties[k]
    requires forall k :: k in keys ==> k in properties
    ensures forall i :: 0 <= i < |keys| ==> '\n' !in EntryLines(properties, keys)[i]
  {
  }

  /** The written text is the comment line, if any, and the entry lines, joined by line
    * breaks. */
  lemma PropertiesTextJoined(properties: map<string, string>, comments: Option<string>)
    requires |properties| > 0
    ensures var keys := SortedKeys(properties.Keys);
      PropertiesText(properties, comments) ==
        Join("\n", (if comments.Some? then ["# " + comments.value] else []) + EntryLines(properties, keys))
  {
    var lines := EntryLines(properties, SortedKeys(properties.Keys));
    if comments.Some? {
      JoinCons("\n", "# " + comments.value, lines);
      AppendAssociative("# ", comments.value, "\n", Join("\n", lines));
    } else {
      assert [] + lines == lines;
    }
  }

  /** Read back line by line, the written text is the comment line, then the entries in
    * strictly ascending key order: provided no key, value or comment contains a line
    * break. */
  lemma PropertiesTextLines(properties: map<string, string>, comments: Option<string>)
    requires |properties| > 0
    requires forall k :: k in properties ==> '\n' !in k && '\n' !in properties[k]
    requires comments.Some? ==> '\n' !in comments.value
    ensures var keys := SortedKeys(properties.Keys);
      && |keys| == |properties|
      && (forall i, j :: 0 <= i < j < |keys| ==> StringLess(keys[i], keys[j]))
      && Split('\n', PropertiesText(properties, comments)) ==
        (if comments.Some? then ["# " + comments.value] else []) + EntryLines(properties, keys)
  {
    var keys := SortedKeys(properties.Keys);
    var header := if comments.Some? then ["# " + comments.value] else [];
    var lines := EntryLines(properties, keys);
    var all := header + lines;
    PropertiesTextJoined(properties, comments);
    EntryLinesUnbroken(properties, keys);
    forall k | 0 <= k < |all| ensures '\n' !in all[k] {
      if k >= |header| {
        assert all[k] == lines[k - |header|];
      }
    }
    SplitJoin('\n', all);
  }

  /** A join ends with the last character of its last part. */
  lemma JoinLastChar(sep: string, parts: seq<string>)
    requires |parts| >= 1 && parts[|parts| - 1] != []
    ensures var j := Join(sep, parts); var last := parts[|parts| - 1];
      j != [] && j[|j| - 1] == last[|last| - 1]
  {
  }

  /** The entry lines, joined, end with the last value (or its `=`), not a line break. */
  lemma EntryLinesEnd(properties: map<string, string>, keys: seq<string>)
    requires |keys| > 0 && forall k :: k in keys ==> k in properties
    requires forall k :: k in properties ==> '\n' !in properties[k]
    ensures var body := Join("\n", EntryLines(properties, keys));
      body != [] && body[|body| - 1] != '\n'
  {
    var lines := EntryLines(properties, keys);
    var key := keys[|keys| - 1];
    assert lines[|lines| - 1] == key + "=" + properties[key];
    EntryLineEnd(key, properties[key]);
    JoinLastChar("\n", lines);
  }

  /** The written text does not end in a line break when no value does. */
  lemma PropertiesTextEnd(properties: map<string, string>, comments: Option<string>)
    requires |properties| > 0
    requires forall k :: k in properties ==> '\n' !in properties[k]
    ensures var text := PropertiesText(properties, comments);
      text != [] && text[|text| - 1] != '\n'
  {
    var keys := SortedKeys(properties.Keys);
    assert keys[0] in properties;
    EntryLinesEnd(properties, keys);
    var body := Join("\n", EntryLines(properties, keys));
    var text := Header(comments) + body;
    assert text[|text| - 1] == body[|body| - 1];
  }

  /** A `key=value` line ends in `=` or in the value's last character. */
  lemma EntryLineEnd(key: string, value: string)
    requires '\n' !in value
    ensures var line := key + "=" + value; line[|line| - 1] != '\n'
  {
  }

  // ---------------------------------------------------------------------------
  // The whole update
  // ---------------------------------------------------------------------------

  /** `updateXcodeConfigFile`: loads the table (an empty one when the file does not exist
    * and is created), merges the callables' pairs, and writes the table back only when it
    * is not empty and the merge changed it. `written` is the text written, if any. */
  method UpdateXcodeConfigFile(existing: Option<map<string, string>>, callables: seq<PairCallable>)
    returns (config: map<string, string>, written: Option<string>)
    ensures var loaded := if existing.Some? then NonBlankEntries(existing.value) else map[];
      var pairs := EvaluateCallables(callables, loaded);
      && config == ApplyPairs(loaded, pairs)
      && (written.Some? <==> |config| > 0 && Changed(loaded, pairs))
      && (written.Some? ==> written.value == PropertiesText(config, None))
  {
    var loaded: map<string, string> := map[];
    if existing.Some? {
      loaded := LoadConfig(existing.value);
    }
    var pairs := EvaluateCallables(callables, loaded);
    var isChanged;
    config, isChanged := MergePairs(loaded, pairs);
    written := None;
    if |config.Keys| > 0 && isChanged {
      var text := WriteProperties(config, None);
      written := Some(text);
    }
  }

  /** Callables that give the same pairs whatever the table. */
  function ConstantCallables(pairs: seq<(string, string)>): (callables: seq<PairCallable>)
    ensures forall config :: EvaluateCallables(callables, config) == pairs
  {
    seq(|pairs|, i requires 0 <= i < |pairs| => (m: map<string, string>) => pairs[i])
  }

  /** Running the update a second time with callables that always give the same
    * consistent pairs writes nothing. */
  method SecondUpdateWritesNothing(existing: Option<map<string, string>>, pairs: seq<(string, string)>)
    returns (first: map<string, string>, second: Option<string>)
    requires Consistent(pairs)
    requires forall i :: 0 <= i < |pairs| ==> !IsBlank(pairs[i].0)
    ensures second.None?
  {
    var callables := ConstantCallables(pairs);
    var written;
    first, written := UpdateXcodeConfigFile(existing, callables);
    var loaded := if existing.Some? then NonBlankEntries(existing.value) else map[];
    RereadTable(loaded, pairs);
    assert NonBlankEntries(first) == first && !Changed(first, pairs);
    var config;
    config, second := UpdateXcodeConfigFile(Some(first), callables);
  }

  /** The table written by a merge of pairs with non-blank keys is read back as it is,
    * and merging the same consistent pairs into it changes nothing. */
  lemma RereadTable(loaded: map<string, string>, pairs: seq<(string, string)>)
    requires Consistent(pairs)
    requires forall i :: 0 <= i < |pairs| ==> !IsBlank(pairs[i].0)
    requires forall k :: k in loaded ==> !IsBlank(k)
    ensures NonBlankEntries(ApplyPairs(loaded, pairs)) == ApplyPairs(loaded, pairs)
    ensures !Changed(ApplyPairs(loaded, pairs), pairs)
  {
    var first := ApplyPairs(loaded, pairs);
    RerunChangesNothing(loaded, pairs);
    forall k | k in first ensures !IsBlank(k) {
      ApplyPairsKeys(loaded, pairs, k);
    }
  }
}
