/** Installing and removing the managed hook in a project's settings. Models claude_hook_setup.py:
    `_hook_is_agentveil`, `_strip_managed_from_group`, `install_hook` and `uninstall_hook`. */
module ClaudeHookSetup {
  import opened PyText
  import opened PyJson

  const MARKER := "agentveil_mcp_proxy.claude_hook"
  const MATCHER := "Write|Edit|MultiEdit|NotebookEdit|Bash|mcp__.*"

  type Fields = map<string, Json>

  /** `str(value)` */
  type PyStr = Json -> string

  ghost predicate StrOfStrings(py: PyStr)
  {
    forall s :: py(Str(s)) == s
  }

  /** `needle in s` */
  predicate Holds(s: string, needle: string)
  {
    StartsWith(s, needle) || (s != "" && Holds(s[1..], needle))
  }

  lemma {:induction false} HoldsInside(a: string, needle: string, b: string)
    ensures Holds(a + needle + b, needle)
  {
    var s := a + needle + b;
    if a == "" {
      assert s[..|needle|] == needle;
    } else {
      assert s[1..] == a[1..] + needle + b;
      HoldsInside(a[1..], needle, b);
    }
  }

  /** The needle stands somewhere in the text. */
  lemma {:induction false} HoldsExactly(s: string, needle: string)
    ensures Holds(s, needle) <==> exists i :: 0 <= i <= |s| && StartsWith(s[i..], needle)
  {
    hide StartsWith;
    assert s[0..] == s;
    if s != "" {
      HoldsExactly(s[1..], needle);
      if i :| 0 <= i <= |s[1..]| && StartsWith(s[1..][i..], needle) {
        assert s[1..][i..] == s[i + 1..];
      }
      if i :| 0 <= i <= |s| && StartsWith(s[i..], needle) {
        assert i > 0 ==> s[i..] == s[1..][i - 1..];
      }
    }
  }

  // --- Hooks and groups -------------------------------------------------------------

  /** `_hook_is_agentveil` */
  predicate IsManaged(py: PyStr, hook: Json)
  {
    hook.Obj? && Holds(py(GetOr(hook.fields, "command", Str(""))), MARKER)
  }

  /** A hook is managed exactly when it is an object with a command that, as text, holds the module's name. */
  lemma ManagedExactly(py: PyStr, hook: Json)
    requires StrOfStrings(py)
    ensures IsManaged(py, hook)
       <==> && hook.Obj? && "command" in hook.fields
            && var text := py(hook.fields["command"]);
               exists i :: 0 <= i <= |text| && StartsWith(text[i..], "agentveil_mcp_proxy.claude_hook")
  {
    if hook.Obj? {
      HoldsExactly(py(GetOr(hook.fields, "command", Str(""))), MARKER);
      assert !Holds("", MARKER);
      hide Holds, StartsWith;
    }
  }

  function Others(py: PyStr, hooks: seq<Json>): seq<Json>
  {
    if hooks == [] then []
    else Others(py, hooks[..|hooks| - 1]) + (if IsManaged(py, hooks[|hooks| - 1]) then [] else [hooks[|hooks| - 1]])
  }

  function Managed(py: PyStr, hooks: seq<Json>): seq<Json>
  {
    if hooks == [] then []
    else Managed(py, hooks[..|hooks| - 1]) + (if IsManaged(py, hooks[|hooks| - 1]) then [hooks[|hooks| - 1]] else [])
  }

  /** The inner hooks of a group; a group of another shape has none. */
  function Inner(group: Json): seq<Json>
  {
    if group.Obj? && Get(group.fields, "hooks").Arr? then Get(group.fields, "hooks").items else []
  }

  /** `_strip_managed_from_group` */
  function StripGroup(py: PyStr, group: Json): (Option<Json>, nat)
  {
    if !group.Obj? || !Get(group.fields, "hooks").Arr? then (Some(group), 0)
    else
      var hooks := Get(group.fields, "hooks").items;
      var kept := Others(py, hooks);
      OthersFewer(py, hooks);
      var removed := |hooks| - |kept|;
      if removed == 0 then (Some(group), 0)
      else if kept == [] then (None, removed)
      else (Some(Obj(group.fields["hooks" := Arr(kept)])), removed)
  }

  lemma {:induction false} OthersFewer(py: PyStr, hooks: seq<Json>)
    ensures |Others(py, hooks)| + |Managed(py, hooks)| == |hooks|
  {
    if hooks != [] {
      OthersFewer(py, hooks[..|hooks| - 1]);
    }
  }

  lemma AppendHook(py: PyStr, hooks: seq<Json>, hook: Json)
    ensures Others(py, hooks + [hook]) == Others(py, hooks) + (if IsManaged(py, hook) then [] else [hook])
    ensures Managed(py, hooks + [hook]) == Managed(py, hooks) + (if IsManaged(py, hook) then [hook] else [])
  {
    hide IsManaged;
    assert (hooks + [hook])[..|hooks|] == hooks;
  }

  lemma {:induction false} NoneManaged(py: PyStr, hooks: seq<Json>)
    ensures Managed(py, Others(py, hooks)) == []
    ensures Others(py, Others(py, hooks)) == Others(py, hooks)
    ensures Managed(py, hooks) == [] ==> Others(py, hooks) == hooks
  {
    if hooks != [] {
      var front, last := hooks[..|hooks| - 1], hooks[|hooks| - 1];
      assert hooks == front + [last];
      hide *;
      NoneManaged(py, front);
      AppendHook(py, front, last);
      AppendHook(py, Others(py, front), last);
      assert IsManaged(py, last) ==> Others(py, hooks) == Others(py, front);
    }
  }

  function OptionalGroup(group: Option<Json>): seq<Json>
  {
    if group.Some? then [group.value] else []
  }

  /** All groups stripped, and how many hooks went. */
  function StripAll(py: PyStr, groups: seq<Json>): (seq<Json>, nat)
  {
    if groups == [] then ([], 0)
    else
      var (cleaned, removed) := StripAll(py, groups[..|groups| - 1]);
      var (group, more) := StripGroup(py, groups[|groups| - 1]);
      (cleaned + OptionalGroup(group), removed + more)
  }

  /** All the managed inner hooks of all groups, in order. */
  function AllManaged(py: PyStr, groups: seq<Json>): seq<Json>
  {
    if groups == [] then [] else AllManaged(py, groups[..|groups| - 1]) + Managed(py, Inner(groups[|groups| - 1]))
  }

  /** All the other inner hooks, in order. */
  function AllOthers(py: PyStr, groups: seq<Json>): seq<Json>
  {
    if groups == [] then [] else AllOthers(py, groups[..|groups| - 1]) + Others(py, Inner(groups[|groups| - 1]))
  }

  /** Stripping a group takes its managed hooks and nothing else: the others stay, in order, and so do the
      group's other fields. Only a group that held nothing but managed hooks goes. */
  lemma StripGroupExactly(py: PyStr, group: Json)
    ensures var (stripped, removed) := StripGroup(py, group);
            && removed == |Managed(py, Inner(group))|
            && (stripped.None? <==> Inner(group) != [] && Others(py, Inner(group)) == [])
            && (removed == 0 ==> stripped == Some(group))
            && (stripped.Some? ==>
                  && Inner(stripped.value) == Others(py, Inner(group))
                  && (group.Obj? ==>
                        && stripped.value.Obj?
                        && Without(stripped.value.fields, "hooks") == Without(group.fields, "hooks"))
                  && (!group.Obj? ==> stripped.value == group))
  {
    OthersFewer(py, Inner(group));
    NoneManaged(py, Inner(group));
    hide IsManaged, Others, Managed;
  }

  lemma AppendAll(py: PyStr, groups: seq<Json>, group: Json)
    ensures AllManaged(py, groups + [group]) == AllManaged(py, groups) + Managed(py, Inner(group))
    ensures AllOthers(py, groups + [group]) == AllOthers(py, groups) + Others(py, Inner(group))
  {
    assert (groups + [group])[..|groups|] == groups;
  }

  lemma AppendGroup(py: PyStr, groups: seq<Json>, group: Json)
    ensures StripAll(py, groups + [group]).0 == StripAll(py, groups).0 + OptionalGroup(StripGroup(py, group).0)
    ensures StripAll(py, groups + [group]).1 == StripAll(py, groups).1 + StripGroup(py, group).1
  {
    hide StripGroup, OptionalGroup;
    assert (groups + [group])[..|groups|] == groups;
  }

  /** Stripping all groups removes exactly the managed hooks and keeps the others in order; nothing changes
      exactly when there is nothing managed. */
  lemma {:induction false} StripAllExactly(py: PyStr, groups: seq<Json>)
    ensures var (cleaned, removed) := StripAll(py, groups);
            && removed == |AllManaged(py, groups)| && |cleaned| <= |groups|
            && AllManaged(py, cleaned) == [] && AllOthers(py, cleaned) == AllOthers(py, groups)
            && (cleaned == groups <==> removed == 0)
  {
    if groups != [] {
      var front, last := groups[..|groups| - 1], groups[|groups| - 1];
      assert groups == front + [last];
      StripAllExactly(py, front);
      StripGroupExactly(py, last);
      StripLast(py, StripAll(py, front).0, last);
      AppendAll(py, front, last);
      AppendGroup(py, front, last);
      hide StripAll, StripGroup, Managed, Others, Inner, AllManaged, AllOthers;
    }
  }

  lemma StripLast(py: PyStr, cleaned: seq<Json>, last: Json)
    requires AllManaged(py, cleaned) == []
    ensures var all := cleaned + OptionalGroup(StripGroup(py, last).0);
            && AllManaged(py, all) == []
            && AllOthers(py, all) == AllOthers(py, cleaned) + Others(py, Inner(last))
  {
    StripGroupExactly(py, last);
    NoneManaged(py, Inner(last));
    var stripped := StripGroup(py, last).0;
    if stripped.Some? {
      AppendAll(py, cleaned, stripped.value);
    }
    hide StripGroup, Managed, Others, Inner, AllManaged, AllOthers;
    assert stripped.None? ==> cleaned + OptionalGroup(stripped) == cleaned;
  }

  lemma {:induction false} StripAllOfClean(py: PyStr, groups: seq<Json>)
    requires AllManaged(py, groups) == []
    ensures StripAll(py, groups) == (groups, 0)
  {
    StripAllExactly(py, groups);
  }

  /** A group that holds managed hooks and nothing else. */
  predicate OnlyManaged(py: PyStr, group: Json)
  {
    Managed(py, Inner(group)) != [] && Others(py, Inner(group)) == []
  }

  /** A group with its managed hooks filtered out; its other fields stay, and so does a group that has none. */
  function Filtered(py: PyStr, group: Json): Json
  {
    if group.Obj? && Managed(py, Inner(group)) != [] then Obj(group.fields["hooks" := Arr(Others(py, Inner(group)))])
    else group
  }

  /** All groups but those that held nothing but managed hooks, filtered, in their order. */
  function FilteredGroups(py: PyStr, groups: seq<Json>): seq<Json>
  {
    if groups == [] then []
    else
      var last := groups[|groups| - 1];
      FilteredGroups(py, groups[..|groups| - 1]) + (if OnlyManaged(py, last) then [] else [Filtered(py, last)])
  }

  lemma StripGroupFilters(py: PyStr, group: Json)
    ensures OptionalGroup(StripGroup(py, group).0) == if OnlyManaged(py, group) then [] else [Filtered(py, group)]
  {
    OthersFewer(py, Inner(group));
    hide IsManaged, Others, Managed;
  }

  /** Stripping leaves the filtered groups in their order. */
  lemma {:induction false} StripAllFilters(py: PyStr, groups: seq<Json>)
    ensures StripAll(py, groups).0 == FilteredGroups(py, groups)
  {
    if groups != [] {
      var front, last := groups[..|groups| - 1], groups[|groups| - 1];
      assert groups == front + [last];
      StripAllFilters(py, front);
      StripGroupFilters(py, last);
      AppendGroup(py, front, last);
      hide StripAll, StripGroup, OnlyManaged, Filtered, OptionalGroup;
    }
  }

  // --- The managed entry ---------------------------------------------------------------

  /** `build_hook_command`, from the shell-quoted paths */
  function HookCommand(python: string, home: string, evidence: string): string
  {
    python + " -m " + MARKER + " --home " + home + " --evidence-path " + evidence
  }

  /** `build_managed_hook_entry` */
  function ManagedEntry(command: string): Json
  {
    Obj(map["matcher" := Str(MATCHER),
            "hooks" := Arr([Obj(map["type" := Str("command"), "command" := Str(command)])])])
  }

  /** An entry with exactly one inner hook, which is managed. */
  predicate SingleManaged(py: PyStr, entry: Json)
  {
    |Inner(entry)| == 1 && Managed(py, Inner(entry)) == Inner(entry)
  }

  /** The entry is for the tools that change something, its one hook is a command by which the interpreter runs the
      module with the home and the evidence path as options, and that hook is recognised as managed. */
  lemma EntryIsManaged(py: PyStr, python: string, home: string, evidence: string)
    requires StrOfStrings(py)
    ensures var entry := ManagedEntry(HookCommand(python, home, evidence));
            && SingleManaged(py, entry)
            && entry.fields.Keys == {"matcher", "hooks"}
            && entry.fields["matcher"] == Str("Write|Edit|MultiEdit|NotebookEdit|Bash|mcp__.*")
            && Inner(entry)[0].Obj?
            && var hook := Inner(entry)[0].fields;
            && hook.Keys == {"type", "command"} && hook["type"] == Str("command")
            && hook["command"] == Str(python + " -m " + "agentveil_mcp_proxy.claude_hook" + " --home " + home
                                      + " --evidence-path " + evidence)
  {
    var command := HookCommand(python, home, evidence);
    var tail := " --home " + home + " --evidence-path " + evidence;
    HoldsInside(python + " -m ", MARKER, tail);
    assert command == python + " -m " + MARKER + tail;
    hide Holds;
    var inner := Inner(ManagedEntry(command));
    assert inner == [Obj(map["type" := Str("command"), "command" := Str(command)])];
    assert [] + inner == inner;
    AppendHook(py, [], inner[0]);
  }

  // --- Settings ----------------------------------------------------------------------

  function HooksOf(settings: Fields): Fields
  {
    if Get(settings, "hooks").Obj? then Get(settings, "hooks").fields else map[]
  }

  /** `_pre_tool_use_list` */
  function PreToolUse(settings: Fields): seq<Json>
  {
    var pre := Get(HooksOf(settings), "PreToolUse");
    if pre.Arr? then pre.items else []
  }

  function WithPreToolUse(settings: Fields, groups: seq<Json>): Fields
  {
    settings["hooks" := Obj(HooksOf(settings)["PreToolUse" := Arr(groups)])]
  }

  function Installed(py: PyStr, settings: Fields, entry: Json): Fields
  {
    WithPreToolUse(settings, StripAll(py, PreToolUse(settings)).0 + [entry])
  }

  function Uninstalled(py: PyStr, settings: Fields): (Fields, nat)
  {
    var (cleaned, removed) := StripAll(py, PreToolUse(settings));
    if removed == 0 then (settings, 0)
    else
      var hooks := if cleaned != [] then HooksOf(settings)["PreToolUse" := Arr(cleaned)]
                   else Without(HooksOf(settings), "PreToolUse");
      (if hooks == map[] then Without(settings, "hooks") else settings["hooks" := Obj(hooks)], removed)
  }

  /** A settings file: `load_settings` treats a blank one as empty and refuses what is not a JSON object. */
  datatype Content = Missing | Blank | NotJson | Parsed(value: Json)

  function Loaded(content: Content): Option<Fields>
  {
    match content
    case Missing => Some(map[])
    case Blank => Some(map[])
    case NotJson => None
    case Parsed(value) => if value.Obj? then Some(value.fields) else None
  }

  datatype InstallResult = InstallResult(created: bool, replacedExisting: bool)

  datatype UninstallResult = UninstallResult(removed: nat, settingsExisted: bool, reloadRequired: bool)

  class SettingsFile {
    var content: Content

    constructor (content: Content)
      ensures this.content == content
    {
      this.content := content;
    }

    /** `install_hook`; None is HookSetupError, and then the file is not touched. */
    method Install(py: PyStr, entry: Json) returns (r: Option<InstallResult>)
      modifies this
      ensures r.None? <==> old(content).NotJson? || (old(content).Parsed? && !old(content).value.Obj?)
      ensures r.None? ==> content == old(content)
      ensures r.Some? ==>
                var settings := if old(content).Parsed? then old(content).value.fields else map[];
                && content == Parsed(Obj(Installed(py, settings, entry)))
                && r.value == InstallResult(old(content).Missing?, AllManaged(py, PreToolUse(settings)) != [])
    {
      hide AllManaged, StripGroup;
      var created := content.Missing?;
      var loaded := Loaded(content);
      if loaded.None? {
        return None;
      }
      var settings := loaded.value;
      var hooks := if Get(settings, "hooks").Obj? then Get(settings, "hooks").fields else map[];
      var pre := if Get(hooks, "PreToolUse").Arr? then Get(hooks, "PreToolUse").items else [];
      var cleaned, removedTotal := StripGroups(py, pre);
      StripAllExactly(py, pre);
      var replaced := removedTotal > 0;
      cleaned := cleaned + [entry];
      hooks := hooks["PreToolUse" := Arr(cleaned)];
      settings := settings["hooks" := Obj(hooks)];
      content := Parsed(Obj(settings));
      return Some(InstallResult(created, replaced));
    }

    /** `uninstall_hook` */
    method Uninstall(py: PyStr) returns (r: Option<UninstallResult>)
      modifies this
      ensures r.None? <==> old(content).NotJson? || (old(content).Parsed? && !old(content).value.Obj?)
      ensures r.Some? ==>
                var settings := if old(content).Parsed? then old(content).value.fields else map[];
                var (left, removed) := Uninstalled(py, settings);
                && r.value == UninstallResult(removed, !old(content).Missing?, removed > 0)
                && content == if removed > 0 then Parsed(Obj(left)) else old(content)
      ensures r.None? ==> content == old(content)
    {
      hide StripGroup;
      var loaded := Loaded(content);
      if content.Missing? {
        return Some(UninstallResult(0, false, false));
      }
      if loaded.None? {
        return None;
      }
      var settings := loaded.value;
      if !Get(settings, "hooks").Obj? {
        return Some(UninstallResult(0, true, false));
      }
      var hooks := Get(settings, "hooks").fields;
      if !Get(hooks, "PreToolUse").Arr? {
        return Some(UninstallResult(0, true, false));
      }
      var cleaned, removed := StripGroups(py, Get(hooks, "PreToolUse").items);
      if removed == 0 {
        return Some(UninstallResult(0, true, false));
      }
      if cleaned != [] {
        hooks := hooks["PreToolUse" := Arr(cleaned)];
      } else {
        hooks := Without(hooks, "PreToolUse");
      }
      settings := if hooks == map[] then Without(settings, "hooks") else settings["hooks" := Obj(hooks)];
      content := Parsed(Obj(settings));
      return Some(UninstallResult(removed, true, true));
    }
  }

  /** The loop that both share. */
  method StripGroups(py: PyStr, groups: seq<Json>) returns (cleaned: seq<Json>, removed: nat)
    ensures (cleaned, removed) == StripAll(py, groups)
  {
    cleaned, removed := [], 0;
    assert StripAll(py, []) == ([], 0);
    hide StripGroup, StripAll;
    var i := 0;
    while i < |groups|
      invariant i <= |groups| && cleaned == StripAll(py, groups[..i]).0 && removed == StripAll(py, groups[..i]).1
    {
      assert groups[..i + 1] == groups[..i] + [groups[i]];
      AppendGroup(py, groups[..i], groups[i]);
      var (group, more) := StripGroup(py, groups[i]);
      removed := removed + more;
      if group.Some? {
        cleaned := cleaned + [group.value];
      }
      i := i + 1;
    }
    assert groups[..i] == groups;
  }

  // --- Install and uninstall together --------------------------------------------------------

  lemma PreOfInstalled(settings: Fields, groups: seq<Json>)
    ensures PreToolUse(WithPreToolUse(settings, groups)) == groups
    ensures HooksOf(WithPreToolUse(settings, groups)) == HooksOf(settings)["PreToolUse" := Arr(groups)]
  {
  }

  /** After installing there is one managed hook, in the last group; before it come the groups from before in their
      order, with the managed hooks filtered out, and nothing outside `PreToolUse` has changed. */
  lemma InstalledExactly(py: PyStr, settings: Fields, entry: Json)
    requires SingleManaged(py, entry)
    ensures var before, after := PreToolUse(settings), PreToolUse(Installed(py, settings, entry));
            && after == FilteredGroups(py, before) + [entry]
            && AllManaged(py, after) == Inner(entry)
            && AllOthers(py, after) == AllOthers(py, before)
            && (AllManaged(py, before) == [] ==> after == before + [entry])
    ensures Without(Installed(py, settings, entry), "hooks") == Without(settings, "hooks")
    ensures Without(HooksOf(Installed(py, settings, entry)), "PreToolUse") == Without(HooksOf(settings), "PreToolUse")
  {
    var before := PreToolUse(settings);
    var cleaned := StripAll(py, before).0;
    StripAllExactly(py, before);
    StripAllFilters(py, before);
    PreOfInstalled(settings, cleaned + [entry]);
    AppendAll(py, cleaned, entry);
    OthersFewer(py, Inner(entry));
    hide StripAll, FilteredGroups, AllManaged, AllOthers, Managed, Others, Inner;
  }

  lemma SingleGoes(py: PyStr, entry: Json)
    requires SingleManaged(py, entry)
    ensures StripGroup(py, entry) == (None, 1)
  {
    OthersFewer(py, Inner(entry));
    StripGroupExactly(py, entry);
    hide StripGroup, Managed, Others, Inner;
    assert |Others(py, Inner(entry))| == 0;
  }

  /** What installing makes of groups that a previous install has closed with its entry. */
  lemma StripClosed(py: PyStr, cleaned: seq<Json>, entry: Json)
    requires AllManaged(py, cleaned) == [] && SingleManaged(py, entry)
    ensures StripAll(py, cleaned + [entry]) == (cleaned, 1)
  {
    hide StripAll, StripGroup, AllManaged, SingleManaged;
    StripAllOfClean(py, cleaned);
    SingleGoes(py, entry);
    AppendGroup(py, cleaned, entry);
    assert cleaned + OptionalGroup(None) == cleaned;
  }

  /** Installing again replaces the entry: the last install wins, and repeating it changes nothing. */
  lemma InstallTwice(py: PyStr, settings: Fields, entry: Json, newer: Json)
    requires SingleManaged(py, entry)
    ensures Installed(py, Installed(py, settings, entry), newer) == Installed(py, settings, newer)
  {
    hide StripAll, SingleManaged, HooksOf, PreToolUse, AllManaged;
    var cleaned := StripAll(py, PreToolUse(settings)).0;
    StripAllExactly(py, PreToolUse(settings));
    PreOfInstalled(settings, cleaned + [entry]);
    StripClosed(py, cleaned, entry);
    var hooks := HooksOf(settings);
    assert hooks["PreToolUse" := Arr(cleaned + [entry])]["PreToolUse" := Arr(cleaned + [newer])]
        == hooks["PreToolUse" := Arr(cleaned + [newer])];
    assert settings["hooks" := Obj(hooks["PreToolUse" := Arr(cleaned + [entry])])]
                   ["hooks" := Obj(hooks["PreToolUse" := Arr(cleaned + [newer])])]
        == settings["hooks" := Obj(hooks["PreToolUse" := Arr(cleaned + [newer])])];
  }

  /** No managed hook, and no container that is empty or of another type. */
  predicate Restorable(py: PyStr, settings: Fields)
  {
    "hooks" in settings ==>
      && settings["hooks"].Obj? && settings["hooks"].fields != map[]
      && var hooks := settings["hooks"].fields;
         "PreToolUse" in hooks ==>
           && hooks["PreToolUse"].Arr? && hooks["PreToolUse"].items != []
           && AllManaged(py, hooks["PreToolUse"].items) == []
  }

  /** Uninstalling right after installing removes one hook; it restores the settings exactly when they were
      restorable. */
  lemma UninstallUndoesInstallExactly(py: PyStr, settings: Fields, entry: Json)
    requires SingleManaged(py, entry)
    ensures var (left, removed) := Uninstalled(py, Installed(py, settings, entry));
            removed == 1 && (left == settings <==> Restorable(py, settings))
  {
    var pre := PreToolUse(settings);
    var cleaned := StripAll(py, pre).0;
    StripAllExactly(py, pre);
    PreOfInstalled(settings, cleaned + [entry]);
    StripClosed(py, cleaned, entry);
    hide *;
    RemovedAgain(py, settings, cleaned, entry);
    RestoredExactly(py, settings, cleaned);
  }

  /** What uninstalling leaves when `cleaned` is left of the groups. */
  function Emptied(settings: Fields, cleaned: seq<Json>): Fields
  {
    var hooks := if cleaned != [] then HooksOf(settings)["PreToolUse" := Arr(cleaned)]
                 else Without(HooksOf(settings), "PreToolUse");
    if hooks == map[] then Without(settings, "hooks") else settings["hooks" := Obj(hooks)]
  }

  lemma RemovedAgain(py: PyStr, settings: Fields, cleaned: seq<Json>, entry: Json)
    requires cleaned == StripAll(py, PreToolUse(settings)).0
    requires StripAll(py, cleaned + [entry]) == (cleaned, 1)
    ensures Uninstalled(py, Installed(py, settings, entry)) == (Emptied(settings, cleaned), 1)
  {
    PreOfInstalled(settings, cleaned + [entry]);
    hide StripAll, HooksOf, PreToolUse;
    var hooks := HooksOf(settings);
    var more := hooks["PreToolUse" := Arr(cleaned + [entry])];
    assert Without(more, "PreToolUse") == Without(hooks, "PreToolUse");
    assert more["PreToolUse" := Arr(cleaned)] == hooks["PreToolUse" := Arr(cleaned)];
    var installed := settings["hooks" := Obj(more)];
    assert Without(installed, "hooks") == Without(settings, "hooks");
    var left := if cleaned != [] then hooks["PreToolUse" := Arr(cleaned)] else Without(hooks, "PreToolUse");
    assert installed["hooks" := Obj(left)] == settings["hooks" := Obj(left)];
  }

  lemma RestoredExactly(py: PyStr, settings: Fields, cleaned: seq<Json>)
    requires AllManaged(py, cleaned) == []
    requires cleaned == PreToolUse(settings) <==> AllManaged(py, PreToolUse(settings)) == []
    requires |cleaned| <= |PreToolUse(settings)|
    ensures Emptied(settings, cleaned) == settings <==> Restorable(py, settings)
  {
    hide AllManaged;
    var hooks := HooksOf(settings);
    if "hooks" !in settings {
      assert Without(hooks, "PreToolUse") == map[];
      assert Without(settings, "hooks") == settings;
    } else if settings["hooks"].Obj? && "PreToolUse" !in hooks {
      assert Without(hooks, "PreToolUse") == hooks;
      assert settings["hooks" := settings["hooks"]] == settings;
    } else if Restorable(py, settings) {
      assert hooks["PreToolUse" := hooks["PreToolUse"]] == hooks;
      assert settings["hooks" := settings["hooks"]] == settings;
    }
  }
}
