/// Tool authority: which tools a configuration enables, and how a session mode
/// narrows them.
module ToolAuthority {
  import opened Wrappers
  import opened Text

  datatype PermissionMode = Custom | Read | Workspace | WorkspaceExec

  /// What the configuration maps a session mode to; absent parts are inherited.
  datatype Mapping = Mapping(model: Option<string>, effort: Option<string>, prompt: Option<string>,
                             tools: Option<seq<string>>)

  datatype Summary = Summary(configured: seq<string>, preset: seq<string>, excluded: seq<string>,
                             effective: seq<string>)

  datatype Applied = Done | UnknownMode | NoTools | NoCommonTools

  /// The part of a configuration that modes and the site profile look at.
  datatype Settings = Settings(
    selected: Option<string>, model: string, effort: Option<string>, prompt: Option<string>,
    enabled: seq<string>, mode: PermissionMode, modes: map<string, Mapping>,
    governance: string, failClosed: bool, gateway: bool, nested: bool, servers: nat)

  const GATEWAY_PREFIX: string := "mcp.gateway."

  // ----- Effective tools -----

  function CodingTools(): seq<string>
  {
    ["read_file", "write_file", "edit", "multi_edit", "apply_patch", "glob", "grep", "todo_write", "handoff",
      "report", "escalate"]
  }

  function ToolsFor(mode: PermissionMode): seq<string>
  {
    match mode
    case Custom => CodingTools()
    case Read => ["read_file", "glob", "grep", "todo_write", "handoff", "report", "escalate"]
    case Workspace => CodingTools()
    case WorkspaceExec => CodingTools() + ["bash"]
  }

  /// The elements of a list that are in another, in order.
  function Kept(tools: seq<string>, allowed: seq<string>): (r: seq<string>)
    ensures forall t :: t in r <==> t in tools && t in allowed
  {
    if tools == [] then []
    else (if tools[0] in allowed then [tools[0]] else []) + Kept(tools[1..], allowed)
  }

  /// The elements of a list that are not in another, in order.
  function Dropped(tools: seq<string>, allowed: seq<string>): (r: seq<string>)
    ensures forall t :: t in r <==> t in tools && t !in allowed
  {
    if tools == [] then []
    else (if tools[0] in allowed then [] else [tools[0]]) + Dropped(tools[1..], allowed)
  }

  function Effective(s: Settings): seq<string>
  {
    var base := if s.mode == Custom && s.enabled != [] then s.enabled else ToolsFor(s.mode);
    if s.mode == Custom || s.enabled == [] then base else Kept(base, s.enabled)
  }

  function AuthoritySummary(s: Settings): Summary
  {
    var preset, effective := ToolsFor(s.mode), Effective(s);
    var excluded := if s.mode == Custom || s.enabled == [] then [] else Dropped(preset, effective);
    Summary(s.enabled, preset, excluded, effective)
  }

  // ----- What a permission mode permits -----

  /// Tools that write to the workspace or start a process in it.
  predicate MutatesWorkspace(tool: string)
  {
    Writes(tool) || tool == "bash" || tool == "bash_background"
  }

  predicate Writes(tool: string)
  {
    tool == "write_file" || tool == "edit" || tool == "multi_edit" || tool == "apply_patch"
  }

  predicate Observes(tool: string)
  {
    || tool == "read_file" || tool == "glob" || tool == "grep" || tool == "todo_write" || tool == "handoff"
    || tool == "report" || tool == "escalate"
  }

  /// What a mode allows, whatever presets there are: all may observe, all but `Read`
  /// may write, and only `WorkspaceExec` may run commands.
  predicate Permits(mode: PermissionMode, tool: string)
  {
    Observes(tool) || (Writes(tool) && !mode.Read?) || (tool == "bash" && mode.WorkspaceExec?)
  }

  lemma PresetPermits(mode: PermissionMode, tool: string)
    ensures tool in ToolsFor(mode) <==> Permits(mode, tool)
  {
    var c := CodingTools();
    assert tool in c <==> exists i | 0 <= i < 11 :: c[i] == tool;
    assert c[0] == "read_file" && c[1] == "write_file" && c[2] == "edit" && c[3] == "multi_edit";
    assert c[4] == "apply_patch" && c[5] == "glob" && c[6] == "grep" && c[7] == "todo_write";
    assert c[8] == "handoff" && c[9] == "report" && c[10] == "escalate";
  }

  /// Outside custom mode a tool is effective exactly when the mode permits it and the
  /// explicit list, unless it is empty, names it; in custom mode the list is the
  /// tools, and an empty one permits no command. So nothing that mutates the workspace
  /// is effective under `Read`, whatever the list says.
  lemma EffectiveExactly(s: Settings, tool: string)
    ensures !s.mode.Custom? ==>
              (tool in Effective(s) <==> Permits(s.mode, tool) && (s.enabled == [] || tool in s.enabled))
    ensures s.mode.Custom? && s.enabled != [] ==> Effective(s) == s.enabled
    ensures s.mode.Custom? && s.enabled == [] ==> (tool in Effective(s) <==> Observes(tool) || Writes(tool))
    ensures s.mode.Read? && MutatesWorkspace(tool) ==> tool !in Effective(s)
  {
    PresetPermits(s.mode, tool);
    hide ToolsFor, CodingTools;
  }

  /// For the same list, `Read` permits no more than `Workspace`, and that no more than
  /// `WorkspaceExec`, which adds `bash` alone.
  lemma ModesNest(s: Settings, tool: string)
    ensures tool in Effective(s.(mode := Read)) ==> tool in Effective(s.(mode := Workspace))
    ensures tool in Effective(s.(mode := Workspace)) <==>
              tool in Effective(s.(mode := WorkspaceExec)) && tool != "bash"
  {
    EffectiveExactly(s.(mode := Read), tool);
    EffectiveExactly(s.(mode := Workspace), tool);
    EffectiveExactly(s.(mode := WorkspaceExec), tool);
    hide Effective;
  }

  lemma {:induction false} KeptAndDropped(tools: seq<string>, allowed: seq<string>)
    ensures multiset(tools) == multiset(Kept(tools, allowed)) + multiset(Dropped(tools, allowed))
  {
    if tools != [] {
      KeptAndDropped(tools[1..], allowed);
      assert tools == [tools[0]] + tools[1..];
    }
  }

  lemma {:induction false} SameKept(tools: seq<string>, a: seq<string>, b: seq<string>)
    requires forall t | t in tools :: t in a <==> t in b
    ensures Kept(tools, a) == Kept(tools, b) && Dropped(tools, a) == Dropped(tools, b)
  {
    if tools != [] {
      SameKept(tools[1..], a, b);
    }
  }

  /// Outside custom mode the preset splits into the effective tools and those the
  /// explicit list takes away; in custom mode nothing is reported as taken away,
  /// so it splits only when the effective tools are the preset.
  lemma PresetSplits(s: Settings)
    ensures var a := AuthoritySummary(s);
            && (multiset(a.preset) == multiset(a.effective) + multiset(a.excluded)
                <==> s.mode != Custom || multiset(Effective(s)) == multiset(CodingTools()))
            && (forall t | t in a.excluded :: t !in a.effective && t !in s.enabled)
            && (s.mode != Custom ==> forall t | t in a.effective :: t in a.preset)
  {
    var a := AuthoritySummary(s);
    if s.mode != Custom && s.enabled != [] {
      KeptAndDropped(a.preset, s.enabled);
      SameKept(a.preset, s.enabled, a.effective);
    }
  }

  // ----- Applying a session mode -----

  predicate IsCatalogName(name: string)
  {
    name == "low" || name == "medium" || name == "high" || name == "ultra"
  }

  function WithMapping(s: Settings, m: Mapping): Settings
  {
    s.(model := if m.model.Some? && !IsBlank(m.model.value) then m.model.value else s.model,
       effort := if m.effort.Some? then m.effort else s.effort,
       prompt := if m.prompt.Some? then m.prompt else s.prompt)
  }

  /// The settings after applying a mode. A refusal can leave the mode selected and
  /// its model, effort and prompt in place, but never changes the tools.
  function Apply(s: Settings, mode: string): (Settings, Applied)
  {
    if !IsCatalogName(mode) then (s, UnknownMode)
    else
      var t := s.(selected := Some(mode));
      if mode !in s.modes then (t, Done) else WithCommonTools(t, s.modes[mode])
  }

  function WithCommonTools(s: Settings, m: Mapping): (Settings, Applied)
  {
    var u := WithMapping(s, m);
    if m.tools.None? then (u, Done)
    else if m.tools.value == [] then (u, NoTools)
    else
      var common := Kept(m.tools.value, Effective(u));
      if common == [] then (u, NoCommonTools) else (u.(enabled := common), Done)
  }

  class Config {
    var selected: Option<string>
    var model: string
    var effort: Option<string>
    var prompt: Option<string>
    var enabled: seq<string>
    const rest: Settings

    constructor (s: Settings)
      ensures Value() == s
    {
      selected, model, effort, prompt, enabled, rest := s.selected, s.model, s.effort, s.prompt, s.enabled, s;
    }

    function Value(): Settings
      reads this
    {
      rest.(selected := selected, model := model, effort := effort, prompt := prompt, enabled := enabled)
    }

    method ApplySessionMode(mode: string) returns (r: Applied)
      modifies this
      ensures (Value(), r) == Apply(old(Value()), mode)
      ensures r == Done ==> forall tool | tool in Effective(Value()) :: tool in old(Effective(Value()))
      ensures r != Done ==> enabled == old(enabled) && Effective(Value()) == old(Effective(Value()))
      ensures old(SiteAgent(Value())) ==> SiteAgent(Value())
    {
      hide Effective, SiteAgent, IsCatalogName, WithCommonTools;
      ApplyNarrows(Value(), mode);
      if SiteAgent(Value()) {
        SiteAgentStep(Value(), mode);
      }
      if !IsCatalogName(mode) {
        return UnknownMode;
      }
      selected := Some(mode);
      if mode !in rest.modes {
        return Done;
      }
      r := ApplyMapping(rest.modes[mode]);
    }

    method ApplyMapping(mapping: Mapping) returns (r: Applied)
      modifies this`model, this`effort, this`prompt, this`enabled
      ensures (Value(), r) == WithCommonTools(old(Value()), mapping)
    {
      hide Effective, Kept, IsBlank;
      if mapping.model.Some? && !IsBlank(mapping.model.value) {
        model := mapping.model.value;
      }
      if mapping.effort.Some? {
        effort := mapping.effort;
      }
      if mapping.prompt.Some? {
        prompt := mapping.prompt;
      }
      if mapping.tools.Some? {
        if mapping.tools.value == [] {
          return NoTools;
        }
        var host := Effective(Value());
        var intersection := Kept(mapping.tools.value, host);
        if intersection == [] {
          return NoCommonTools;
        }
        enabled := intersection;
      }
      r := Done;
    }
  }

  /// The settings after applying modes one after another; a refusal ends it.
  function ApplyAll(s: Settings, modes: seq<string>): Option<Settings>
  {
    if modes == [] then Some(s)
    else
      var before := ApplyAll(s, modes[..|modes| - 1]);
      if before.None? then None
      else
        var (t, r) := Apply(before.value, modes[|modes| - 1]);
        if r == Done then Some(t) else None
  }

  /// What a step of applying a mode keeps and narrows.
  lemma ApplyNarrows(s: Settings, mode: string)
    ensures var (t, r) := Apply(s, mode);
            && (r == Done ==> forall tool | tool in Effective(t) :: tool in Effective(s))
            && (r != Done ==> Effective(t) == Effective(s) && t.enabled == s.enabled)
            && (r == Done && mode in s.modes && s.modes[mode].tools.Some? ==>
                  && Effective(t) != []
                  && forall tool ::
                       tool in Effective(t) <==> tool in s.modes[mode].tools.value && tool in Effective(s))
            && (r == Done && !(mode in s.modes && s.modes[mode].tools.Some?) ==> Effective(t) == Effective(s))
            && t.mode == s.mode && t.modes == s.modes
  {
    hide IsCatalogName, IsBlank, ToolsFor, CodingTools;
    var (t, r) := Apply(s, mode);
    if r == Done && mode in s.modes && s.modes[mode].tools.Some? {
      var common := Kept(s.modes[mode].tools.value, Effective(s));
      assert t.enabled == common && common[0] in common;
      assert common[0] in Effective(t);
    }
  }

  /// A mode is accepted exactly when the catalog has it and what it maps to, if it
  /// names tools, shares one with the effective tools. It is then the selected one,
  /// and its model, effort and prompt, where it has them, take effect.
  lemma AcceptedExactlyWhen(s: Settings, mode: string)
    ensures var (t, r) := Apply(s, mode);
            && (r == UnknownMode <==> mode != "low" && mode != "medium" && mode != "high" && mode != "ultra")
            && (r == UnknownMode ==> t == s)
            && (r == NoTools <==> r != UnknownMode && mode in s.modes && s.modes[mode].tools == Some([]))
            && (r == NoCommonTools <==>
                  && r != UnknownMode && mode in s.modes && s.modes[mode].tools.Some?
                  && s.modes[mode].tools.value != []
                  && forall tool | tool in s.modes[mode].tools.value :: tool !in Effective(s))
            && (r != UnknownMode ==> t.selected == Some(mode))
            && (r != UnknownMode && mode !in s.modes ==> t == s.(selected := Some(mode)))
            && (r != UnknownMode && mode in s.modes ==>
                  var m := s.modes[mode];
                  && t.model == (if m.model.Some? && !IsBlank(m.model.value) then m.model.value else s.model)
                  && t.effort == (if m.effort.Some? then m.effort else s.effort)
                  && t.prompt == (if m.prompt.Some? then m.prompt else s.prompt)
                  && (m.tools.None? ==> t.enabled == s.enabled))
            && t == s.(selected := t.selected, model := t.model, effort := t.effort, prompt := t.prompt,
                       enabled := t.enabled)
  {
    hide IsBlank, ToolsFor, CodingTools;
    if mode in s.modes && s.modes[mode].tools.Some? {
      var tools := s.modes[mode].tools.value;
      var common := Kept(tools, Effective(s));
      assert common != [] ==> common[0] in common;
    }
  }

  /// However many modes are applied, in whatever order, authority only narrows.
  lemma {:induction false} ModesOnlyNarrow(s: Settings, modes: seq<string>)
    requires ApplyAll(s, modes).Some?
    ensures var t := ApplyAll(s, modes).value;
            (forall tool | tool in Effective(t) :: tool in Effective(s)) && t.mode == s.mode && t.modes == s.modes
  {
    hide Apply, Effective;
    if modes != [] {
      ModesOnlyNarrow(s, modes[..|modes| - 1]);
      ApplyNarrows(ApplyAll(s, modes[..|modes| - 1]).value, modes[|modes| - 1]);
    }
  }

  /// Applying a mode again changes nothing at all.
  lemma ReapplyChangesNothing(s: Settings, mode: string)
    requires Apply(s, mode).1 == Done
    ensures Apply(Apply(s, mode).0, mode) == Apply(s, mode)
  {
    ApplyNarrows(s, mode);
    hide IsCatalogName, IsBlank, ToolsFor, CodingTools;
    if mode in s.modes && s.modes[mode].tools.Some? {
      hide Effective;
      var t, tools := Apply(s, mode).0, s.modes[mode].tools.value;
      SameKept(tools, Effective(s), Effective(t));
      SameEffective(t, mode);
      SameEffective(s, mode);
    }
  }

  lemma SameEffective(s: Settings, mode: string)
    requires mode in s.modes
    ensures Effective(WithMapping(s.(selected := Some(mode)), s.modes[mode])) == Effective(s)
  {
  }

  // ----- The site profile -----

  predicate SiteTool(tool: string)
  {
    tool == "report" || tool == "escalate" || GATEWAY_PREFIX <= tool
  }

  predicate SiteAgent(s: Settings)
  {
    && s.governance == "sekai-chisei" && s.failClosed && s.gateway && !s.nested && s.servers == 0
    && s.mode == Custom && s.enabled != [] && forall t | t in s.enabled :: SiteTool(t)
  }

  /// A configuration that satisfies the site profile still does after any modes,
  /// and every tool it can use is the gateway's, `report` or `escalate`.
  lemma {:induction false} SiteAgentStays(s: Settings, modes: seq<string>)
    requires SiteAgent(s) && ApplyAll(s, modes).Some?
    ensures SiteAgent(ApplyAll(s, modes).value)
    ensures var t := ApplyAll(s, modes).value;
            && t.governance == "sekai-chisei" && t.failClosed && t.gateway && !t.nested && t.servers == 0
            && t.mode.Custom? && t.enabled != []
    ensures forall t | t in Effective(ApplyAll(s, modes).value) ::
              t == "report" || t == "escalate" || GATEWAY_PREFIX <= t
  {
    hide Apply, IsCatalogName, IsBlank;
    if modes != [] {
      SiteAgentStays(s, modes[..|modes| - 1]);
      SiteAgentStep(ApplyAll(s, modes[..|modes| - 1]).value, modes[|modes| - 1]);
    }
  }

  lemma SiteAgentStep(s: Settings, mode: string)
    requires SiteAgent(s)
    ensures SiteAgent(Apply(s, mode).0)
    ensures forall t | t in Effective(Apply(s, mode).0) :: SiteTool(t)
  {
    hide SiteTool, IsCatalogName, IsBlank;
  }
}
