/** The launch-screen fix-up of the build helpers: `getAllPlistFiles` collects the
  * Info.plist file of every build configuration of an Xcode project, and
  * `processPlistFiles` decides for each of those files whether it is rewritten and
  * whether processing goes on. The regular-expression scans appear as their results: the
  * `(INFOPLIST_FILE, name)` groups of each build configuration found in the project file,
  * and the launch-screen edits as a function from a plist's text to the edit outcome.
  * The file system is a map from relative path to text.
  */
module BuildPlist {
  import opened Strings

  /** One build configuration found in `project.pbxproj`: the `INFOPLIST_FILE` and `name`
    * groups, as written. */
  datatype ConfigurationMatch = ConfigurationMatch(infoPlistFile: string, name: string)

  /** The placeholder replaced by the configuration name. */
  const CONFIGURATION_VARIABLE := "$(CONFIGURATION)"

  /** `trim('"').trim('\'')`: surrounding double quotes, then surrounding single quotes,
    * are removed. */
  function Unquote(s: string): (r: string)
    ensures r == [] || (r[0] != '\'' && r[|r| - 1] != '\'')
  {
    TrimEnds(Trim(s, '"'), '\'');
    Trim(Trim(s, '"'), '\'')
  }

  /** `Unquote` keeps one contiguous part of the name and removes only quote characters
    * around it. */
  lemma UnquoteSlice(s: string)
    ensures exists i, j :: PaddedSlice(s, Unquote(s), i, j, {'"', '\''})
  {
    var t := Trim(s, '"');
    TrimSlice(s, '"');
    var i1, j1 :| PaddedSlice(s, t, i1, j1, {'"'});
    TrimSlice(t, '\'');
    var i2, j2 :| PaddedSlice(t, Trim(t, '\''), i2, j2, {'\''});
    PaddedSliceNested(s, t, Trim(t, '\''), i1, j1, i2, j2, {'"'}, {'\''});
    assert {'"'} + {'\''} == {'"', '\''};
    assert Unquote(s) == Trim(t, '\'');
    assert PaddedSlice(s, Unquote(s), i1 + i2, i1 + j2, {'"', '\''});
  }

  /** Text without quotes at its ends. */
  predicate Unquoted(s: string) {
    s == [] || (s[0] !in "\"'" && s[|s| - 1] !in "\"'")
  }

  /** A name written in double quotes, in single quotes, or without quotes, is read as
    * the name itself. */
  lemma UnquoteQuoted(s: string)
    requires Unquoted(s)
    ensures Unquote("\"" + s + "\"") == s
    ensures Unquote("'" + s + "'") == s
    ensures Unquote(s) == s
  {
    assert "'" + s + "'" == ['\''] + s + ['\''];
    TrimUntouched("'" + s + "'", '"');
    TrimWrapped(s, '\'');
    assert "\"" + s + "\"" == ['"'] + s + ['"'];
    TrimWrapped(s, '"');
    TrimUntouched(s, '"');
    TrimUntouched(s, '\'');
  }

  /** The plist path of a configuration: `$(CONFIGURATION)` is replaced by its name. */
  function PlistPath(plist: string, name: string): string
  {
    if Contains(plist, CONFIGURATION_VARIABLE) then ReplaceAll(plist, CONFIGURATION_VARIABLE, name) else plist
  }

  function Values(entries: seq<(string, string)>): (r: seq<string>)
    ensures |r| == |entries| && forall i :: 0 <= i < |entries| ==> r[i] == entries[i].1
  {
    seq(|entries|, i requires 0 <= i < |entries| => entries[i].1)
  }

  /** The index of the first occurrence of `v`. */
  function FirstIndex(values: seq<string>, v: string): (i: nat)
    requires v in values
    ensures i < |values| && values[i] == v && v !in values[..i]
  {
    if values[0] == v then 0
    else
      var i := 1 + FirstIndex(values[1..], v);
      assert values[..i] == [values[0]] + values[1..][..i - 1];
      i
  }

  // ---------------------------------------------------------------------------
  // getAllPlistFiles
  // ---------------------------------------------------------------------------

  /** The table entry of one configuration: its name unquoted, and its plist path
    * unquoted with the placeholder replaced by the name. */
  function EntryOf(found: ConfigurationMatch): (string, string)
  {
    var name := Unquote(found.name);
    (name, PlistPath(Unquote(found.infoPlistFile), name))
  }

  /** The `result` table after the scan: configuration name to plist path, the first
    * configuration of each name winning, in the order names first appear. */
  function ConfigurationPlists(matches: seq<ConfigurationMatch>): (r: seq<(string, string)>)
    ensures forall i, j :: 0 <= i < j < |r| ==> r[i].0 != r[j].0
  {
    if matches == [] then []
    else
      var entries := ConfigurationPlists(matches[..|matches| - 1]);
      var e := EntryOf(matches[|matches| - 1]);
      if e.0 in PairKeys(entries) then entries else entries + [e]
  }

  /** The unquoted names of the configurations found, in order. */
  function FoundNames(matches: seq<ConfigurationMatch>): (r: seq<string>)
    ensures |r| == |matches| && forall i :: 0 <= i < |matches| ==> r[i] == EntryOf(matches[i]).0
  {
    seq(|matches|, i requires 0 <= i < |matches| => EntryOf(matches[i]).0)
  }

  lemma FoundNamesSnoc(matches: seq<ConfigurationMatch>)
    requires |matches| > 0
    ensures FoundNames(matches) == FoundNames(matches[..|matches| - 1]) + [EntryOf(matches[|matches| - 1]).0]
  {
  }

  /** Every configuration name found has an entry, and no other name has one. */
  lemma {:induction false} ConfigurationPlistsNames(matches: seq<ConfigurationMatch>, name: string)
    ensures name in PairKeys(ConfigurationPlists(matches)) <==> name in FoundNames(matches)
  {
    if matches != [] {
      var last := |matches| - 1;
      var init := matches[..last];
      ConfigurationPlistsNames(init, name);
      var entries := ConfigurationPlists(init);
      var e := EntryOf(matches[last]);
      FoundNamesSnoc(matches);
      if e.0 !in PairKeys(entries) {
        assert PairKeys(entries + [e]) == PairKeys(entries) + [e.0];
      }
    }
  }

  /** Each entry is the entry of the first configuration of its name. */
  lemma {:induction false} ConfigurationPlistsFirstWins(matches: seq<ConfigurationMatch>, k: int)
    requires 0 <= k < |ConfigurationPlists(matches)|
    ensures var e := ConfigurationPlists(matches)[k];
      e.0 in FoundNames(matches) && e == EntryOf(matches[FirstIndex(FoundNames(matches), e.0)])
  {
    var last := |matches| - 1;
    var init := matches[..last];
    var entries := ConfigurationPlists(init);
    var e := ConfigurationPlists(matches)[k];
    var found := FoundNames(matches);
    FoundNamesSnoc(matches);
    if k < |entries| {
      ConfigurationPlistsFirstWins(init, k);
      assert e == entries[k];
      FirstIndexPrefix(FoundNames(init), [EntryOf(matches[last]).0], e.0);
      assert init[FirstIndex(FoundNames(init), e.0)] == matches[FirstIndex(found, e.0)];
    } else {
      ConfigurationPlistsNames(init, e.0);
      assert e == EntryOf(matches[last]);
      assert found[..last] == FoundNames(init);
      FirstIndexLast(found);
    }
  }

  /** One more configuration adds its entry unless its name has one already. */
  lemma ConfigurationPlistsStep(matches: seq<ConfigurationMatch>, i: int)
    requires 0 <= i < |matches|
    ensures var entries := ConfigurationPlists(matches[..i]);
      var e := EntryOf(matches[i]);
      ConfigurationPlists(matches[..i + 1]) == if e.0 in PairKeys(entries) then entries else entries + [e]
  {
    assert matches[..i + 1][..i] == matches[..i];
  }

  /** The `map` filled from `result`: an entry is kept only when no kept entry has its
    * value already. */
  function DedupValues(entries: seq<(string, string)>): (r: seq<(string, string)>)
    ensures forall i, j :: 0 <= i < j < |r| ==> r[i].1 != r[j].1
  {
    if entries == [] then []
    else
      var kept := DedupValues(entries[..|entries| - 1]);
      var last := entries[|entries| - 1];
      if last.1 in Values(kept) then kept else kept + [last]
  }

  /** Deduplication loses no value. */
  lemma {:induction false} DedupValuesMembers(entries: seq<(string, string)>, v: string)
    ensures v in Values(DedupValues(entries)) <==> v in Values(entries)
  {
    if entries != [] {
      var init := entries[..|entries| - 1];
      var last := entries[|entries| - 1];
      var kept := DedupValues(init);
      DedupValuesMembers(init, v);
      assert Values(entries) == Values(init) + [last.1];
      assert Values(kept + [last]) == Values(kept) + [last.1];
    }
  }

  /** Each kept entry is the first entry with its value. */
  lemma {:induction false} DedupValuesFirst(entries: seq<(string, string)>)
    ensures forall k :: 0 <= k < |DedupValues(entries)| ==>
      var v := DedupValues(entries)[k].1;
      v in Values(entries) && DedupValues(entries)[k] == entries[FirstIndex(Values(entries), v)]
  {
    if entries != [] {
      var init := entries[..|entries| - 1];
      var last := entries[|entries| - 1];
      var kept := DedupValues(init);
      DedupValuesFirst(init);
      var values := Values(entries);
      assert values == Values(init) + [last.1];
      forall v | v in Values(init) ensures FirstIndex(values, v) == FirstIndex(Values(init), v) {
        FirstIndexPrefix(Values(init), [last.1], v);
      }
      if last.1 !in Values(kept) {
        DedupValuesMembers(init, last.1);
        assert last.1 !in values[..|values| - 1];
        FirstIndexLast(values);
      }
    }
  }

  /** The kept entries are in the order their values first appear. */
  lemma {:induction false} DedupValuesOrder(entries: seq<(string, string)>)
    ensures forall k, l :: 0 <= k < l < |DedupValues(entries)| ==>
      DedupValues(entries)[k].1 in Values(entries) && DedupValues(entries)[l].1 in Values(entries) &&
      FirstIndex(Values(entries), DedupValues(entries)[k].1) < FirstIndex(Values(entries), DedupValues(entries)[l].1)
  {
    if entries != [] {
      var init := entries[..|entries| - 1];
      var last := entries[|entries| - 1];
      var kept := DedupValues(init);
      DedupValuesOrder(init);
      var values := Values(entries);
      assert values == Values(init) + [last.1];
      forall k | 0 <= k < |kept|
        ensures kept[k].1 in Values(init) && FirstIndex(values, kept[k].1) == FirstIndex(Values(init), kept[k].1)
      {
        assert kept[k].1 == Values(kept)[k];
        DedupValuesMembers(init, kept[k].1);
        FirstIndexPrefix(Values(init), [last.1], kept[k].1);
      }
      if last.1 !in Values(kept) {
        DedupValuesMembers(init, last.1);
        assert last.1 !in values[..|values| - 1];
        FirstIndexLast(values);
        assert DedupValues(entries) == kept + [last];
      }
      var r := DedupValues(entries);
      forall k, l | 0 <= k < l < |r|
        ensures r[k].1 in values && r[l].1 in values && FirstIndex(values, r[k].1) < FirstIndex(values, r[l].1)
      {
        assert r[k] == kept[k];
        if l < |kept| {
          assert r[l] == kept[l];
        } else {
          assert r[l] == last;
        }
      }
    } else {
      assert DedupValues(entries) == [];
    }
  }

  lemma FirstIndexPrefix(values: seq<string>, more: seq<string>, v: string)
    requires v in values
    ensures v in values + more && FirstIndex(values + more, v) == FirstIndex(values, v)
  {
    var i := FirstIndex(values, v);
    var j := FirstIndex(values + more, v);
    assert (values + more)[..i] == values[..i];
    assert (values + more)[i] == v;
  }

  lemma FirstIndexLast(values: seq<string>)
    requires |values| > 0 && values[|values| - 1] !in values[..|values| - 1]
    ensures FirstIndex(values, values[|values| - 1]) == |values| - 1
  {
  }

  /** The list `getAllPlistFiles` returns. */
  function PlistFiles(matches: seq<ConfigurationMatch>): seq<string>
  {
    Values(DedupValues(ConfigurationPlists(matches)))
  }

  /** The returned plist paths have no duplicates, and every configuration's plist path is
    * among them. */
  lemma PlistFilesCover(matches: seq<ConfigurationMatch>)
    ensures forall i, j :: 0 <= i < j < |PlistFiles(matches)| ==> PlistFiles(matches)[i] != PlistFiles(matches)[j]
    ensures forall e :: e in ConfigurationPlists(matches) ==> e.1 in PlistFiles(matches)
  {
    var entries := ConfigurationPlists(matches);
    forall e | e in entries ensures e.1 in PlistFiles(matches) {
      DedupValuesMembers(entries, e.1);
    }
  }

  /** The `while (matcher.find())` loop of `getAllPlistFiles`: the first configuration of
    * each name gives its plist path. */
  method CollectConfigurationPlists(matches: seq<ConfigurationMatch>) returns (result: seq<(string, string)>)
    ensures result == ConfigurationPlists(matches)
  {
    result := [];
    var i := 0;
    while i < |matches|
      invariant 0 <= i <= |matches|
      invariant result == ConfigurationPlists(matches[..i])
    {
      ConfigurationPlistsStep(matches, i);
      ghost var e := EntryOf(matches[i]);
      ghost var next := ConfigurationPlists(matches[..i + 1]);
      var plist := Unquote(matches[i].infoPlistFile);
      var name := Unquote(matches[i].name);
      assert name == e.0;
      if name !in PairKeys(result) {
        var value := if Contains(plist, CONFIGURATION_VARIABLE)
          then ReplaceAll(plist, CONFIGURATION_VARIABLE, name) else plist;
        assert value == e.1;
        result := result + [(name, value)];
        assert result == next;
      } else {
        assert result == next;
      }
      i := i + 1;
    }
    assert matches[..i] == matches;
  }

  /** The `forEach` of `getAllPlistFiles` over `result`: an entry is kept unless its
    * value is kept already. */
  method KeepFirstOfEachValue(result: seq<(string, string)>) returns (kept: seq<(string, string)>)
    ensures kept == DedupValues(result)
  {
    kept := [];
    var k := 0;
    while k < |result|
      invariant 0 <= k <= |result|
      invariant kept == DedupValues(result[..k])
    {
      assert result[..k + 1][..k] == result[..k];
      if result[k].1 !in Values(kept) {
        kept := kept + [result[k]];
      }
      k := k + 1;
    }
    assert result[..k] == result;
  }

  /** `getAllPlistFiles` after the scan: the plist paths of the configurations, each path
    * once, in the order the configurations were found. */
  method GetAllPlistFiles(matches: seq<ConfigurationMatch>) returns (plists: seq<string>)
    ensures plists == PlistFiles(matches)
  {
    var result := CollectConfigurationPlists(matches);
    var kept := KeepFirstOfEachValue(result);
    plists := Values(kept);
  }

  // ---------------------------------------------------------------------------
  // processPlistFiles
  // ---------------------------------------------------------------------------

  /** The key whose presence means the launch screen is already configured. */
  const STORYBOARD_KEY := "<key>UILaunchStoryboardName</key>"

  /** The plist text, with its spaces removed, already names a launch storyboard. */
  predicate DeclaresStoryboard(content: string) {
    Contains(ReplaceAll(content, " ", ""), STORYBOARD_KEY)
  }

  /** The outcome of the launch-screen edits on one plist's text: they either end the
    * whole processing, or give the edited text. */
  datatype LaunchScreenEdit = EndProcessing | Edited(content: string)

  /** How processing ended: every plist seen, ended early without a write, or a missing
    * plist file, with the message of the exception thrown. */
  datatype PlistOutcome = Completed | Ended | FileNotFound(message: string)

  /** The writes made, in order, as (path, new text), and how processing ended. */
  datatype PlistRun = PlistRun(writes: seq<(string, string)>, outcome: PlistOutcome)

  function PlistFilePath(moduleName: string, plist: string): string
  {
    moduleName + "/" + plist
  }

  /** Processing the plists from the `i`-th on, over the files as they are by then. It
    * writes at most once per plist; it completes only when every plist file exists, and
    * a missing one is reported with its path. */
  function ProcessFrom(moduleName: string, plists: seq<string>, files: map<string, string>,
                       edits: string -> LaunchScreenEdit, i: nat): (r: PlistRun)
    requires i <= |plists|
    ensures |r.writes| <= |plists| - i
    ensures r.outcome.Completed? ==>
      forall j :: i <= j < |plists| ==> PlistFilePath(moduleName, plists[j]) in files
    ensures r.outcome.FileNotFound? ==>
      exists j :: i <= j < |plists| && PlistFilePath(moduleName, plists[j]) !in files
        && r.outcome.message == PlistFilePath(moduleName, plists[j]) + " file not found"
    decreases |plists| - i
  {
    if i == |plists| then PlistRun([], Completed)
    else
      var path := PlistFilePath(moduleName, plists[i]);
      if path !in files then PlistRun([], FileNotFound(path + " file not found"))
      else if DeclaresStoryboard(files[path]) then PlistRun([], Ended)
      else match edits(files[path])
        case EndProcessing => PlistRun([], Ended)
        case Edited(content) =>
          if content != files[path] then
            var rest := ProcessFrom(moduleName, plists, files[path := content], edits, i + 1);
            PlistRun([(path, content)] + rest.writes, rest.outcome)
          else ProcessFrom(moduleName, plists, files, edits, i + 1)
  }

  /** `processPlistFiles` over the plist list: a missing plist file is an error; a plist
    * that already names a launch storyboard, or whose edits end processing, ends it for
    * all remaining plists; otherwise the edited text is written when it differs. */
  method ProcessPlistFiles(moduleName: string, plists: seq<string>, files: map<string, string>,
                           edits: string -> LaunchScreenEdit)
    returns (writes: seq<(string, string)>, outcome: PlistOutcome)
    ensures PlistRun(writes, outcome) == ProcessFrom(moduleName, plists, files, edits, 0)
  {
    var current := files;
    writes := [];
    var i := 0;
    while i < |plists|
      invariant 0 <= i <= |plists|
      invariant ProcessFrom(moduleName, plists, files, edits, 0) ==
        var rest := ProcessFrom(moduleName, plists, current, edits, i);
        PlistRun(writes + rest.writes, rest.outcome)
    {
      var path := moduleName + "/" + plists[i];
      if path !in current {
        return writes, FileNotFound(path + " file not found");
      }
      var originContent := current[path];
      if Contains(ReplaceAll(originContent, " ", ""), STORYBOARD_KEY) {
        return writes, Ended;
      }
      var edit := edits(originContent);
      if edit.EndProcessing? {
        return writes, Ended;
      }
      var content := edit.content;
      if originContent != content {
        ghost var rest := ProcessFrom(moduleName, plists, current[path := content], edits, i + 1);
        assert writes + ([(path, content)] + rest.writes) == (writes + [(path, content)]) + rest.writes;
        current := current[path := content];
        writes := writes + [(path, content)];
      }
      i := i + 1;
    }
    return writes, Completed;
  }

  /** Plist paths of one module differ when the plists do. */
  lemma PlistFilePathInjective(moduleName: string, a: string, b: string)
    requires PlistFilePath(moduleName, a) == PlistFilePath(moduleName, b)
    ensures a == b
  {
    CancelPrefix(moduleName + "/", a, b);
  }

  /** Every write goes to the path of a plist from the `i`-th on, and, for distinct
    * plists, replaces the file's original text by a different text. */
  lemma {:induction false} ProcessWritesChanges(moduleName: string, plists: seq<string>, files: map<string, string>,
                                                edits: string -> LaunchScreenEdit, i: nat)
    requires i <= |plists|
    requires forall j, k :: i <= j < k < |plists| ==> plists[j] != plists[k]
    ensures forall w :: w in ProcessFrom(moduleName, plists, files, edits, i).writes ==>
      (exists j :: i <= j < |plists| && w.0 == PlistFilePath(moduleName, plists[j])) &&
      w.0 in files && w.1 != files[w.0]
    decreases |plists| - i
  {
    if i < |plists| {
      var path := PlistFilePath(moduleName, plists[i]);
      if path in files && !DeclaresStoryboard(files[path]) && edits(files[path]).Edited? {
        var content := edits(files[path]).content;
        var next := if content != files[path] then files[path := content] else files;
        ProcessWritesChanges(moduleName, plists, next, edits, i + 1);
        forall w | w in ProcessFrom(moduleName, plists, next, edits, i + 1).writes
          ensures w.0 != path && w.0 in files && files[w.0] == next[w.0]
        {
          var j :| i + 1 <= j < |plists| && w.0 == PlistFilePath(moduleName, plists[j]);
          if w.0 == path {
            PlistFilePathInjective(moduleName, plists[i], plists[j]);
          }
        }
      }
    }
  }

  /** For distinct plists, no file is written twice. */
  lemma {:induction false} ProcessWritesOnce(moduleName: string, plists: seq<string>, files: map<string, string>,
                                             edits: string -> LaunchScreenEdit, i: nat)
    requires i <= |plists|
    requires forall j, k :: i <= j < k < |plists| ==> plists[j] != plists[k]
    ensures DistinctPaths(ProcessFrom(moduleName, plists, files, edits, i).writes)
    decreases |plists| - i
  {
    if i < |plists| {
      var path := PlistFilePath(moduleName, plists[i]);
      if path in files && !DeclaresStoryboard(files[path]) && edits(files[path]).Edited? {
        var content := edits(files[path]).content;
        var next := if content != files[path] then files[path := content] else files;
        ProcessWritesOnce(moduleName, plists, next, edits, i + 1);
        if content != files[path] {
          var rest := ProcessFrom(moduleName, plists, next, edits, i + 1).writes;
          ProcessWritesChanges(moduleName, plists, next, edits, i + 1);
          forall b | 0 <= b < |rest| ensures rest[b].0 != path {
            assert rest[b] in rest;
            var j :| i + 1 <= j < |plists| && rest[b].0 == PlistFilePath(moduleName, plists[j]);
            if rest[b].0 == path {
              PlistFilePathInjective(moduleName, plists[i], plists[j]);
            }
          }
          assert ProcessFrom(moduleName, plists, files, edits, i).writes == [(path, content)] + rest;
          DistinctPathsCons((path, content), rest);
        }
      }
    }
  }

  /** No two writes go to the same path. */
  predicate DistinctPaths(writes: seq<(string, string)>) {
    forall a, b :: 0 <= a < b < |writes| ==> writes[a].0 != writes[b].0
  }

  lemma DistinctPathsCons(first: (string, string), rest: seq<(string, string)>)
    requires forall b :: 0 <= b < |rest| ==> rest[b].0 != first.0
    requires DistinctPaths(rest)
    ensures DistinctPaths([first] + rest)
  {
  }

  /** A plist that already names a launch storyboard ends processing: nothing is written
    * for it or for any plist after it. */
  lemma {:induction false} StoryboardEndsProcessing(moduleName: string, plists: seq<string>, files: map<string, string>,
                                                    edits: string -> LaunchScreenEdit, i: nat, k: nat)
    requires i <= k < |plists|
    requires forall j, l :: i <= j < l < |plists| ==> plists[j] != plists[l]
    requires PlistFilePath(moduleName, plists[k]) in files
    requires DeclaresStoryboard(files[PlistFilePath(moduleName, plists[k])])
    ensures ProcessFrom(moduleName, plists, files, edits, i).outcome != Completed
    ensures forall w :: w in ProcessFrom(moduleName, plists, files, edits, i).writes ==>
      exists j :: i <= j < k && w.0 == PlistFilePath(moduleName, plists[j])
    decreases k - i
  {
    if i < k {
      var path := PlistFilePath(moduleName, plists[i]);
      if path in files && !DeclaresStoryboard(files[path]) && edits(files[path]).Edited? {
        var content := edits(files[path]).content;
        var next := if content != files[path] then files[path := content] else files;
        var target := PlistFilePath(moduleName, plists[k]);
        if path == target {
          PlistFilePathInjective(moduleName, plists[i], plists[k]);
        }
        assert next[target] == files[target];
        StoryboardEndsProcessing(moduleName, plists, next, edits, i + 1, k);
      }
    }
  }

  /** The helper as a whole: the plists of the project's configurations are processed in
    * order; no plist file is written twice and no write leaves a file as it was. */
  method ProcessProject(moduleName: string, matches: seq<ConfigurationMatch>, files: map<string, string>,
                        edits: string -> LaunchScreenEdit)
    returns (writes: seq<(string, string)>, outcome: PlistOutcome)
    ensures PlistRun(writes, outcome) == ProcessFrom(moduleName, PlistFiles(matches), files, edits, 0)
    ensures forall w :: w in writes ==> w.0 in files && w.1 != files[w.0]
    ensures DistinctPaths(writes)
  {
    var plists := GetAllPlistFiles(matches);
    writes, outcome := ProcessPlistFiles(moduleName, plists, files, edits);
    PlistFilesCover(matches);
    ProcessWritesChanges(moduleName, plists, files, edits, 0);
    ProcessWritesOnce(moduleName, plists, files, edits, 0);
  }
}
