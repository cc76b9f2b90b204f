/** Pre- and post-bump hooks: choosing the configured list of command
    templates, parsing every template before anything runs, then running the
    hooks one after another until the first failure. Parsing a template,
    substituting the versions, printing and running a command are
    collaborators passed in as functions. */
module Hooks {
  import opened Wrappers
  import opened Tags
  import opened BumpErrors

  datatype HookType = PreBump | PostBump

  /** The command templates configured for each hook type. */
  datatype HookLists = HookLists(preBump: seq<string>, postBump: seq<string>) {
    function Get(hookType: HookType): seq<string> {
      match hookType
      case PreBump => preBump
      case PostBump => postBump
    }
  }

  /** Repository-wide settings: default hooks and named bump profiles. */
  datatype Settings = Settings(hooks: HookLists, bumpProfiles: map<string, HookLists>)

  /** A monorepo package with its own hooks, profiles and directory. */
  datatype Package = Package(path: string, hooks: HookLists, bumpProfiles: map<string, HookLists>)

  /** A version substituted into a hook's placeholders. */
  datatype HookVersion = HookVersion(tag: Tag)

  /** A parsed hook: the words of its command line. */
  datatype Hook = Hook(words: seq<string>)

  datatype HookRuntime = HookRuntime(
    parse: string -> Result<Hook, string>,
    insertVersions: (Hook, Option<HookVersion>, HookVersion) -> Result<Hook, string>,
    render: Hook -> string,
    run: (Hook, Option<string>) -> Outcome<string>)

  /** What running a hook list did: the command lines started, in order, how
      many hooks completed before processing stopped, and the result. */
  datatype HookReport = HookReport(executed: seq<string>, completed: nat, outcome: Outcome<BumpError>)

  /** A selected profile must exist where it is looked up (the lookup panics
      otherwise). */
  predicate ProfileKnown(settings: Settings, package: Option<Package>, profile: Option<string>) {
    profile.Some? ==>
      if package.Some? then profile.value in package.value.bumpProfiles
      else profile.value in settings.bumpProfiles
  }

  /** The template list is chosen by (package, profile), most specific first;
      the chosen list replaces the others, nothing is merged. */
  function SelectHookTemplates(settings: Settings, package: Option<Package>, profile: Option<string>,
                               hookType: HookType): (r: seq<string>)
    requires ProfileKnown(settings, package, profile)
    ensures package.Some? && profile.Some? ==> r == package.value.bumpProfiles[profile.value].Get(hookType)
    ensures package.Some? && profile.None? ==> r == package.value.hooks.Get(hookType)
    ensures package.None? && profile.Some? ==> r == settings.bumpProfiles[profile.value].Get(hookType)
    ensures package.None? && profile.None? ==> r == settings.hooks.Get(hookType)
  {
    match (package, profile)
    case (None, Some(p)) => settings.bumpProfiles[p].Get(hookType)
    case (Some(pkg), Some(p)) => pkg.bumpProfiles[p].Get(hookType)
    case (Some(pkg), None) => pkg.hooks.Get(hookType)
    case (None, None) => settings.hooks.Get(hookType)
  }

  function PackagePath(package: Option<Package>): Option<string> {
    match package
    case Some(pkg) => Some(pkg.path)
    case None => None
  }

  /** Parses templates[from..], stopping at the first template that does not
      parse and reporting its index in the whole list. */
  function ParseFrom(templates: seq<string>, parse: string -> Result<Hook, string>,
                     profile: Option<string>, from: nat): (r: Result<seq<Hook>, BumpError>)
    requires from <= |templates|
    ensures r.Success? <==> forall i :: from <= i < |templates| ==> parse(templates[i]).Success?
    ensures r.Success? ==>
              && |r.value| == |templates| - from
              && forall i :: from <= i < |templates| ==> parse(templates[i]) == Success(r.value[i - from])
    ensures r.Failure? ==>
              && r.error.HookParse?
              && r.error.profile == profile
              && from <= r.error.index < |templates|
              && parse(templates[r.error.index]) == Failure(r.error.cause)
              && forall i :: from <= i < r.error.index ==> parse(templates[i]).Success?
    decreases |templates| - from
  {
    if from == |templates| then Success([])
    else
      match parse(templates[from])
      case Failure(cause) => Failure(HookParse(profile, from, cause))
      case Success(hook) =>
        match ParseFrom(templates, parse, profile, from + 1)
        case Failure(e) => Failure(e)
        case Success(hooks) => Success([hook] + hooks)
  }

  /** Every template is parsed before any hook runs (`try_collect`). */
  function ParseHooks(templates: seq<string>, parse: string -> Result<Hook, string>,
                      profile: Option<string>): (r: Result<seq<Hook>, BumpError>)
    ensures r.Success? <==> forall i :: 0 <= i < |templates| ==> parse(templates[i]).Success?
    ensures r.Success? ==>
              && |r.value| == |templates|
              && forall i :: 0 <= i < |templates| ==> parse(templates[i]) == Success(r.value[i])
    ensures r.Failure? ==>
              && r.error.HookParse?
              && r.error.profile == profile
              && r.error.index < |templates|
              && parse(templates[r.error.index]) == Failure(r.error.cause)
              && forall i :: 0 <= i < r.error.index ==> parse(templates[i]).Success?
  {
    ParseFrom(templates, parse, profile, 0)
  }

  /** A hook succeeds when its versions can be substituted and its command
      then runs successfully. */
  predicate HookSucceeds(rt: HookRuntime, hook: Hook, current: Option<HookVersion>, next: HookVersion,
                         path: Option<string>) {
    && rt.insertVersions(hook, current, next).Success?
    && rt.run(rt.insertVersions(hook, current, next).value, path).Pass?
  }

  /** The error reported for a hook that does not succeed. */
  function StepFailure(rt: HookRuntime, hook: Hook, current: Option<HookVersion>, next: HookVersion,
                       path: Option<string>): BumpError
    requires !HookSucceeds(rt, hook, current, next, path)
  {
    match rt.insertVersions(hook, current, next)
    case Failure(cause) => HookVersions(cause)
    case Success(ready) => HookRun(rt.render(ready), rt.run(ready, path).error)
  }

  /** Runs the hooks in order and stops at the first one that fails. */
  function ExecuteHooks(rt: HookRuntime, hooks: seq<Hook>, current: Option<HookVersion>, next: HookVersion,
                        path: Option<string>): (r: HookReport)
    ensures r.completed <= |hooks|
    ensures forall i :: 0 <= i < r.completed ==> HookSucceeds(rt, hooks[i], current, next, path)
    ensures r.outcome.Pass? <==> r.completed == |hooks|
    ensures r.outcome.Fail? ==>
              && r.completed < |hooks|
              && !HookSucceeds(rt, hooks[r.completed], current, next, path)
              && r.outcome.error == StepFailure(rt, hooks[r.completed], current, next, path)
    ensures |r.executed| ==
              if r.outcome.Fail? && rt.insertVersions(hooks[r.completed], current, next).Failure?
              then r.completed else r.completed + (if r.outcome.Fail? then 1 else 0)
    ensures forall i :: 0 <= i < |r.executed| ==>
              && rt.insertVersions(hooks[i], current, next).Success?
              && r.executed[i] == rt.render(rt.insertVersions(hooks[i], current, next).value)
  {
    if |hooks| == 0 then HookReport([], 0, Pass)
    else
      match rt.insertVersions(hooks[0], current, next)
      case Failure(cause) => HookReport([], 0, Fail(HookVersions(cause)))
      case Success(ready) =>
        var command := rt.render(ready);
        match rt.run(ready, path)
        case Fail(cause) => HookReport([command], 0, Fail(HookRun(command, cause)))
        case Pass =>
          var rest := ExecuteHooks(rt, hooks[1..], current, next, path);
          HookReport([command] + rest.executed, rest.completed + 1, rest.outcome)
  }

  /** What a run of the hook list selected as `templates` reports: a template
      that does not parse stops everything before any hook starts; otherwise
      the hooks run in order up to the first one that does not succeed, and
      each started command line is its template, substituted and rendered. */
  predicate TemplatesRunReport(r: HookReport, templates: seq<string>, rt: HookRuntime, profile: Option<string>,
                               current: Option<HookVersion>, next: HookVersion, path: Option<string>) {
    && ((exists i :: 0 <= i < |templates| && rt.parse(templates[i]).Failure?) ==>
          && r.executed == []
          && r.completed == 0
          && r.outcome.Fail? && r.outcome.error.HookParse?
          && r.outcome.error.profile == profile
          && r.outcome.error.index < |templates|
          && rt.parse(templates[r.outcome.error.index]) == Failure(r.outcome.error.cause)
          && forall i :: 0 <= i < r.outcome.error.index ==> rt.parse(templates[i]).Success?)
    && ((forall i :: 0 <= i < |templates| ==> rt.parse(templates[i]).Success?) && r.outcome.Fail? ==>
          && r.completed < |templates|
          && !HookSucceeds(rt, rt.parse(templates[r.completed]).value, current, next, path)
          && r.outcome.error == StepFailure(rt, rt.parse(templates[r.completed]).value, current, next, path)
          && (forall i :: 0 <= i < r.completed ==>
                HookSucceeds(rt, rt.parse(templates[i]).value, current, next, path))
          && |r.executed| <= r.completed + 1)
    && (r.outcome.Pass? <==>
          && (forall i :: 0 <= i < |templates| ==> rt.parse(templates[i]).Success?)
          && forall i :: 0 <= i < |templates| ==> HookSucceeds(rt, rt.parse(templates[i]).value, current, next, path))
    && r.completed <= |templates|
    && |r.executed| <= |templates|
    && (forall i :: 0 <= i < |r.executed| ==>
          && rt.parse(templates[i]).Success?
          && rt.insertVersions(rt.parse(templates[i]).value, current, next).Success?
          && r.executed[i] == rt.render(rt.insertVersions(rt.parse(templates[i]).value, current, next).value))
  }

  /** Parses every template, then runs the hooks. */
  function RunTemplates(templates: seq<string>, rt: HookRuntime, profile: Option<string>,
                        current: Option<HookVersion>, next: HookVersion, path: Option<string>): (r: HookReport)
    ensures TemplatesRunReport(r, templates, rt, profile, current, next, path)
  {
    match ParseHooks(templates, rt.parse, profile)
    case Failure(e) => HookReport([], 0, Fail(e))
    case Success(hooks) =>
      ExecuteParsedHooks(rt, templates, hooks, current, next, path);
      ExecuteHooks(rt, hooks, current, next, path)
  }

  /** Resolves, parses and runs the hooks of one type. Settings are read
      first; their failure stops everything. */
  function RunHooks(settings: Result<Settings, string>, hookType: HookType, current: Option<HookVersion>,
                    next: HookVersion, profile: Option<string>, package: Option<Package>,
                    rt: HookRuntime): (r: HookReport)
    requires settings.Success? ==> ProfileKnown(settings.value, package, profile)
    ensures settings.Failure? ==> r == HookReport([], 0, Fail(SettingsUnreadable(settings.error)))
    ensures settings.Success? ==>
              TemplatesRunReport(r, SelectHookTemplates(settings.value, package, profile, hookType),
                                 rt, profile, current, next, PackagePath(package))
  {
    match settings
    case Failure(message) => HookReport([], 0, Fail(SettingsUnreadable(message)))
    case Success(config) =>
      RunTemplates(SelectHookTemplates(config, package, profile, hookType), rt, profile, current, next,
                   PackagePath(package))
  }

  /** Running the parsed hooks, restated over the templates they came from. */
  lemma ExecuteParsedHooks(rt: HookRuntime, templates: seq<string>, hooks: seq<Hook>,
                           current: Option<HookVersion>, next: HookVersion, path: Option<string>)
    requires |hooks| == |templates|
    requires forall i :: 0 <= i < |templates| ==> rt.parse(templates[i]) == Success(hooks[i])
    ensures var r := ExecuteHooks(rt, hooks, current, next, path);
            && (r.outcome.Pass? <==>
                  forall i :: 0 <= i < |templates| ==> HookSucceeds(rt, rt.parse(templates[i]).value, current, next, path))
            && (r.outcome.Fail? ==>
                  && r.completed < |templates|
                  && !HookSucceeds(rt, rt.parse(templates[r.completed]).value, current, next, path)
                  && r.outcome.error == StepFailure(rt, rt.parse(templates[r.completed]).value, current, next, path)
                  && (forall i :: 0 <= i < r.completed ==>
                        HookSucceeds(rt, rt.parse(templates[i]).value, current, next, path))
                  && |r.executed| <= r.completed + 1)
            && r.completed <= |templates|
            && |r.executed| <= |templates|
            && (forall i :: 0 <= i < |r.executed| ==>
                  && rt.parse(templates[i]).Success?
                  && rt.insertVersions(rt.parse(templates[i]).value, current, next).Success?
                  && r.executed[i] == rt.render(rt.insertVersions(rt.parse(templates[i]).value, current, next).value))
  {
    var r := ExecuteHooks(rt, hooks, current, next, path);
    assert forall i :: 0 <= i < |templates| ==> rt.parse(templates[i]).value == hooks[i];
    if r.outcome.Pass? {
      assert forall i :: 0 <= i < |templates| ==> HookSucceeds(rt, hooks[i], current, next, path);
    }
  }

  /** A package profile, a package's own hooks, a settings profile and the
      settings' own hooks each replace every other list: two configurations
      that agree on the one list chosen select the same templates, however
      they differ elsewhere (other profiles, other hook types, the settings
      when a package is given, the package directory). */
  lemma SelectionDoesNotMerge(settings: Settings, other: Settings, pkg: Package, otherPkg: Package,
                              profile: string, hookType: HookType)
    ensures profile in pkg.bumpProfiles && profile in otherPkg.bumpProfiles
            && pkg.bumpProfiles[profile].Get(hookType) == otherPkg.bumpProfiles[profile].Get(hookType) ==>
              SelectHookTemplates(settings, Some(pkg), Some(profile), hookType)
              == SelectHookTemplates(other, Some(otherPkg), Some(profile), hookType)
    ensures pkg.hooks.Get(hookType) == otherPkg.hooks.Get(hookType) ==>
              SelectHookTemplates(settings, Some(pkg), None, hookType)
              == SelectHookTemplates(other, Some(otherPkg), None, hookType)
    ensures profile in settings.bumpProfiles && profile in other.bumpProfiles
            && settings.bumpProfiles[profile].Get(hookType) == other.bumpProfiles[profile].Get(hookType) ==>
              SelectHookTemplates(settings, None, Some(profile), hookType)
              == SelectHookTemplates(other, None, Some(profile), hookType)
    ensures settings.hooks.Get(hookType) == other.hooks.Get(hookType) ==>
              SelectHookTemplates(settings, None, None, hookType)
              == SelectHookTemplates(other, None, None, hookType)
  {
  }

  /** When every selected template parses, the report counts the hooks that
      were started: all of them on success; on failure every completed hook
      plus the stopping one, unless its versions could not be substituted. */
  lemma RunHooksReportsStartedHooks(settings: Settings, hookType: HookType, current: Option<HookVersion>,
                                    next: HookVersion, profile: Option<string>, package: Option<Package>,
                                    rt: HookRuntime)
    requires ProfileKnown(settings, package, profile)
    ensures var templates := SelectHookTemplates(settings, package, profile, hookType);
            var r := RunHooks(Success(settings), hookType, current, next, profile, package, rt);
            (forall i :: 0 <= i < |templates| ==> rt.parse(templates[i]).Success?) ==>
              && (r.outcome.Pass? ==> r.completed == |templates| && |r.executed| == |templates|)
              && (r.outcome.Fail? ==>
                    && r.completed < |templates|
                    && |r.executed| ==
                         if rt.insertVersions(rt.parse(templates[r.completed]).value, current, next).Failure?
                         then r.completed else r.completed + 1)
  {
    var templates := SelectHookTemplates(settings, package, profile, hookType);
    if forall i :: 0 <= i < |templates| ==> rt.parse(templates[i]).Success? {
      var parsed := ParseHooks(templates, rt.parse, profile);
      assert parsed.Success? && |parsed.value| == |templates|;
      assert forall i :: 0 <= i < |templates| ==> rt.parse(templates[i]).value == parsed.value[i];
    }
  }

  /** Three hooks where the second fails when run: the first two commands are
      started, the third never is, and the failure names the second command. */
  lemma SecondOfThreeHooksFails(rt: HookRuntime, hooks: seq<Hook>, current: Option<HookVersion>,
                                next: HookVersion, path: Option<string>)
    requires |hooks| == 3
    requires HookSucceeds(rt, hooks[0], current, next, path)
    requires rt.insertVersions(hooks[1], current, next).Success?
    requires rt.run(rt.insertVersions(hooks[1], current, next).value, path).Fail?
    ensures var r := ExecuteHooks(rt, hooks, current, next, path);
            var second := rt.insertVersions(hooks[1], current, next).value;
            && r.completed == 1
            && r.executed == [rt.render(rt.insertVersions(hooks[0], current, next).value), rt.render(second)]
            && r.outcome == Fail(HookRun(rt.render(second), rt.run(second, path).error))
  {
    var r := ExecuteHooks(rt, hooks, current, next, path);
    assert !HookSucceeds(rt, hooks[1], current, next, path);
  }
}
