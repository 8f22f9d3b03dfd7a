/**
 * Validation, lookup and defaulting of the main configuration
 * (backend/src/model/config/base.rs). Sources hold inputs and targets; the
 * API proxy's user list, which the source consults for user lookups, is a
 * parameter mapping a user name to its credentials and target name.
 */
module Config {
  import opened Wrappers
  import Text
  import Seqs

  datatype ProxyUserCredentials = ProxyUserCredentials(username: string, password: string)

  datatype ConfigTarget = ConfigTarget(id: nat, name: string)

  datatype ConfigInputAlias = ConfigInputAlias(aliasName: string)

  /** The input options; their fields are not part of this model. */
  datatype ConfigInputOptions = ConfigInputOptions(settings: map<string, string>)

  datatype ConfigInput = ConfigInput(
    id: nat,
    name: string,
    aliases: Option<seq<ConfigInputAlias>>,
    options: Option<ConfigInputOptions>)

  datatype ConfigSource = ConfigSource(inputs: seq<ConfigInput>, targets: seq<ConfigTarget>)

  datatype ScheduleConfig = ScheduleConfig(targets: Option<seq<string>>)

  /** The download and web-search settings are not part of this model. */
  datatype VideoConfig = VideoConfig(extensions: seq<string>, download: Option<map<string, string>>, webSearch: Option<string>)

  const DEFAULT_WEB_ROOT := "./web"
  const DEFAULT_VIDEO_EXTENSIONS: seq<string> := ["mkv", "avi", "mp4"]

  /** The inputs of all sources, source after source. */
  function AllInputs(sources: seq<ConfigSource>): seq<ConfigInput> {
    if sources == [] then [] else sources[0].inputs + AllInputs(sources[1..])
  }

  /** The targets of all sources, source after source. */
  function AllTargets(sources: seq<ConfigSource>): seq<ConfigTarget> {
    if sources == [] then [] else sources[0].targets + AllTargets(sources[1..])
  }

  /** The index of the first input with exactly this name. */
  function IndexOfName(inputs: seq<ConfigInput>, inputName: string): (r: Option<nat>)
    ensures r.Some? ==> r.value < |inputs| && inputs[r.value].name == inputName
    ensures r.Some? ==> forall j | 0 <= j < r.value :: inputs[j].name != inputName
    ensures r.None? ==> forall j | 0 <= j < |inputs| :: inputs[j].name != inputName
  {
    if inputs == [] then None
    else if inputs[0].name == inputName then Some(0)
    else match IndexOfName(inputs[1..], inputName)
      case None => None
      case Some(i) => Some(i + 1)
  }

  /** `get_input_by_name`: the first input, in source order, with exactly this name. */
  function GetInputByName(sources: seq<ConfigSource>, inputName: string): (r: Option<ConfigInput>)
    ensures r.None? <==> forall x | x in AllInputs(sources) :: x.name != inputName
    ensures r.Some? ==> exists i | 0 <= i < |AllInputs(sources)| ::
      AllInputs(sources)[i] == r.value && r.value.name == inputName
      && forall j | 0 <= j < i :: AllInputs(sources)[j].name != inputName
  {
    var all := AllInputs(sources);
    match IndexOfName(all, inputName)
    case None => None
    case Some(i) => Some(all[i])
  }

  /** `get_input_by_id`: the first input, in source order, with this id. */
  function GetInputById(sources: seq<ConfigSource>, inputId: nat): (r: Option<ConfigInput>)
    ensures r.None? <==> forall x | x in AllInputs(sources) :: x.id != inputId
    ensures r.Some? ==> exists i | 0 <= i < |AllInputs(sources)| ::
      AllInputs(sources)[i] == r.value && r.value.id == inputId
      && forall j | 0 <= j < i :: AllInputs(sources)[j].id != inputId
  {
    var all := AllInputs(sources);
    var p := (x: ConfigInput) => x.id == inputId;
    Seqs.FirstSpec(all, p);
    match Seqs.First(all, p)
    case None => None
    case Some(i) => Some(all[i])
  }

  /** The options of the first named input of one source's list, or nothing when there is none. */
  function OptionsIn(inputs: seq<ConfigInput>, inputName: string): Option<Option<ConfigInputOptions>> {
    if inputs == [] then None
    else if inputs[0].name == inputName then Some(inputs[0].options)
    else OptionsIn(inputs[1..], inputName)
  }

  /**
   * `get_input_options_by_name`: the options of the first input with this
   * name, absent options included; a later input of the same name is never
   * consulted.
   */
  function GetInputOptionsByName(sources: seq<ConfigSource>, inputName: string): (r: Option<ConfigInputOptions>)
  {
    if sources == [] then None
    else match OptionsIn(sources[0].inputs, inputName)
      case Some(options) => options
      case None => GetInputOptionsByName(sources[1..], inputName)
  }

  /** The options lookup returns exactly the options of the input the name lookup finds. */
  lemma {:induction false} InputOptionsOfFirst(sources: seq<ConfigSource>, inputName: string)
    ensures GetInputOptionsByName(sources, inputName)
      == (if GetInputByName(sources, inputName).Some? then GetInputByName(sources, inputName).value.options else None)
  {
    if sources != [] {
      InputOptionsOfFirst(sources[1..], inputName);
      OptionsInFirst(sources[0].inputs, inputName);
      IndexOfNameConcat(sources[0].inputs, AllInputs(sources[1..]), inputName);
    }
  }

  /** Within one source, the options found are those of the first input of that name. */
  lemma {:induction false} OptionsInFirst(inputs: seq<ConfigInput>, inputName: string)
    ensures OptionsIn(inputs, inputName)
      == (match IndexOfName(inputs, inputName) case None => None case Some(i) => Some(inputs[i].options))
  {
    if inputs != [] && inputs[0].name != inputName {
      OptionsInFirst(inputs[1..], inputName);
    }
  }

  /** The first match in a concatenation lies in the first part when there is one there. */
  lemma {:induction false} IndexOfNameConcat(inputs: seq<ConfigInput>, rest: seq<ConfigInput>, inputName: string)
    ensures IndexOfName(inputs + rest, inputName)
      == (match IndexOfName(inputs, inputName)
          case Some(i) => Some(i)
          case None => (match IndexOfName(rest, inputName) case None => None case Some(i) => Some(i + |inputs|)))
  {
    if inputs == [] {
      assert inputs + rest == rest;
    } else {
      assert (inputs + rest)[1..] == inputs[1..] + rest;
      IndexOfNameConcat(inputs[1..], rest, inputName);
    }
  }

  /** `intern_get_target_for_user`: the first target whose name equals the requested one up to ASCII case, with the user passed through. */
  function InternGetTargetForUser(sources: seq<ConfigSource>, userTarget: Option<(ProxyUserCredentials, string)>)
    : (r: Option<(ProxyUserCredentials, ConfigTarget)>)
    ensures userTarget.None? ==> r.None?
    ensures userTarget.Some? && r.None? ==>
      forall t | t in AllTargets(sources) :: !Text.EqIgnoreAsciiCase(userTarget.value.1, t.name)
    ensures r.Some? ==> userTarget.Some? && r.value.0 == userTarget.value.0 && exists i | 0 <= i < |AllTargets(sources)| ::
      AllTargets(sources)[i] == r.value.1 && Text.EqIgnoreAsciiCase(userTarget.value.1, r.value.1.name)
      && forall j | 0 <= j < i :: !Text.EqIgnoreAsciiCase(userTarget.value.1, AllTargets(sources)[j].name)
  {
    match userTarget
    case None => None
    case Some((user, targetName)) =>
      var all := AllTargets(sources);
      var p := (t: ConfigTarget) => Text.EqIgnoreAsciiCase(targetName, t.name);
      Seqs.FirstSpec(all, p);
      match Seqs.First(all, p)
      case None => None
      case Some(i) => Some((user, all[i]))
  }

  /** `get_target_for_username`: the user's target, when the user and the target both exist. */
  function GetTargetForUsername(sources: seq<ConfigSource>, users: map<string, (ProxyUserCredentials, string)>, username: string)
    : (r: Option<(ProxyUserCredentials, ConfigTarget)>)
    ensures r.None? <==>
      (username !in users || forall t | t in AllTargets(sources) :: !Text.EqIgnoreAsciiCase(users[username].1, t.name))
    ensures r.Some? ==>
      (username in users && r.value.0 == users[username].0
       && r.value.1 in AllTargets(sources) && Text.EqIgnoreAsciiCase(users[username].1, r.value.1.name))
  {
    if username in users then InternGetTargetForUser(sources, Some(users[username])) else None
  }

  /**
   * `check_username`: no user name is fine; otherwise the user must exist and
   * belong to the named target.
   */
  function CheckUsername(sources: seq<ConfigSource>, users: map<string, (ProxyUserCredentials, string)>,
                         outputUsername: Option<string>, targetName: string): (r: Result<(), string>)
    ensures outputUsername.None? ==> r.Ok?
    ensures outputUsername.Some? ==>
      var found := GetTargetForUsername(sources, users, outputUsername.value);
      (r.Ok? <==> found.Some? && found.value.1.name == targetName)
      && (found.None? ==> r == Err("User: " + outputUsername.value + " does not exist"))
  {
    match outputUsername
    case None => Ok(())
    case Some(username) =>
      match GetTargetForUsername(sources, users, username)
      case Some((_, configTarget)) =>
        if configTarget.name != targetName then Err("User:" + username + " does not belong to target: " + targetName)
        else Ok(())
      case None => Err("User: " + username + " does not exist")
  }

  /** A user assigned to an existing target passes the check for exactly that target. */
  lemma UsernameOfOwnTarget(sources: seq<ConfigSource>, users: map<string, (ProxyUserCredentials, string)>,
                            username: string, t: ConfigTarget)
    requires username in users && t in AllTargets(sources) && t.name == users[username].1
    requires forall u | u in AllTargets(sources) :: Text.EqIgnoreAsciiCase(t.name, u.name) ==> u == t
    ensures CheckUsername(sources, users, Some(username), t.name).Ok?
  {
    var found := GetTargetForUsername(sources, users, username);
    assert Text.EqIgnoreAsciiCase(users[username].1, t.name);
    assert found.Some?;
  }

  // ---------------------------------------------------------------------
  // Schedules
  // ---------------------------------------------------------------------

  /** The target names of all schedules, in order. */
  function ScheduledNames(schedules: seq<ScheduleConfig>): seq<string> {
    if schedules == [] then [] else schedules[0].targets.GetOr([]) + ScheduledNames(schedules[1..])
  }

  /** `check_scheduled_targets`: every scheduled target must be known; the first unknown one is reported. */
  function CheckScheduledTargets(schedules: Option<seq<ScheduleConfig>>, targetNames: set<string>): (r: Result<(), string>)
    ensures schedules.None? ==> r.Ok?
    ensures schedules.Some? ==> (r.Ok? <==> forall n | n in ScheduledNames(schedules.value) :: n in targetNames)
    ensures r.Err? ==> var names := ScheduledNames(schedules.value);
      exists i | 0 <= i < |names| :: names[i] !in targetNames && r.error == "Unknown target name in scheduler: " + names[i]
        && forall j | 0 <= j < i :: names[j] in targetNames
  {
    match schedules
    case None => Ok(())
    case Some(list) =>
      var names := ScheduledNames(list);
      var p := (n: string) => n !in targetNames;
      Seqs.FirstSpec(names, p);
      match Seqs.First(names, p)
      case None => Ok(())
      case Some(i) => Err("Unknown target name in scheduler: " + names[i])
  }

  /** The `sleep_timer_mins` check of `prepare`: zero minutes is rejected, anything else accepted. */
  function CheckSleepTimer(sleepTimerMins: Option<nat>): (r: Result<(), string>)
    ensures r.Err? <==> sleepTimerMins == Some(0)
  {
    if sleepTimerMins.Some? && sleepTimerMins.value == 0 then Err("`sleep_timer_mins` must be > 0 when specified")
    else Ok(())
  }

  // ---------------------------------------------------------------------
  // Unique input names
  // ---------------------------------------------------------------------

  /** The trimmed names of the aliases. */
  function AliasNames(aliases: seq<ConfigInputAlias>): seq<string> {
    seq(|aliases|, i requires 0 <= i < |aliases| => Text.Trim(aliases[i].aliasName))
  }

  /** An input's trimmed name followed by its aliases' trimmed names. */
  function InputNames(input: ConfigInput): seq<string> {
    [Text.Trim(input.name)] + AliasNames(input.aliases.GetOr([]))
  }

  function SourceNames(inputs: seq<ConfigInput>): seq<string> {
    if inputs == [] then [] else InputNames(inputs[0]) + SourceNames(inputs[1..])
  }

  /** Every input and alias name of every source, in the order they are checked. */
  function AllNames(sources: seq<ConfigSource>): seq<string> {
    if sources == [] then [] else SourceNames(sources[0].inputs) + AllNames(sources[1..])
  }

  /**
   * Checks the names in order against the names seen so far: the first
   * empty or already seen name fails; otherwise the grown set of seen names.
   */
  function CheckFrom(names: seq<string>, seen: set<string>): Result<set<string>, string> {
    if names == [] then Ok(seen)
    else if names[0] == [] then Err("input name required")
    else if names[0] in seen then Err("input names should be unique: " + names[0])
    else CheckFrom(names[1..], seen + {names[0]})
  }

  /** Continues a check with more names, unless it has already failed. */
  function AndThen(r: Result<set<string>, string>, rest: seq<string>): Result<set<string>, string> {
    match r
    case Ok(seen) => CheckFrom(rest, seen)
    case Err(e) => Err(e)
  }

  /** Checking two runs of names is checking the first, then the second. */
  lemma {:induction false} CheckFromConcat(xs: seq<string>, ys: seq<string>, seen: set<string>)
    ensures CheckFrom(xs + ys, seen) == AndThen(CheckFrom(xs, seen), ys)
  {
    if xs == [] {
      assert xs + ys == ys;
    } else {
      assert (xs + ys)[1..] == xs[1..] + ys;
      CheckFromConcat(xs[1..], ys, seen + {xs[0]});
    }
  }

  /** The verdict on all input and alias names of the configuration. */
  function CheckUniqueNames(sources: seq<ConfigSource>): Result<(), string> {
    match CheckFrom(AllNames(sources), {})
    case Ok(_) => Ok(())
    case Err(e) => Err(e)
  }

  predicate NoDuplicates(s: seq<string>) {
    forall i, j | 0 <= i < j < |s| :: s[i] != s[j]
  }

  function Elems(s: seq<string>): set<string> {
    set x | x in s
  }

  /**
   * The names pass exactly when none is empty, none was seen before and
   * none repeats; then the seen names grow by exactly these names.
   */
  lemma {:induction false} CheckFromSpec(names: seq<string>, seen: set<string>)
    ensures CheckFrom(names, seen).Ok? <==>
      (forall i | 0 <= i < |names| :: names[i] != [] && names[i] !in seen) && NoDuplicates(names)
    ensures CheckFrom(names, seen).Ok? ==> CheckFrom(names, seen).value == seen + Elems(names)
  {
    if names == [] {
      assert Elems(names) == {};
    } else {
      var rest := names[1..];
      CheckFromSpec(rest, seen + {names[0]});
      assert Elems(names) == {names[0]} + Elems(rest);
      FreshCons(names, seen);
    }
  }

  /** The names are fresh and distinct exactly when the first is fresh and the rest are fresh after it. */
  lemma FreshCons(names: seq<string>, seen: set<string>)
    requires names != []
    ensures ((forall i | 0 <= i < |names| :: names[i] != [] && names[i] !in seen) && NoDuplicates(names))
      <==> (names[0] != [] && names[0] !in seen
            && (forall i | 0 <= i < |names[1..]| :: names[1..][i] != [] && names[1..][i] !in seen + {names[0]})
            && NoDuplicates(names[1..]))
  {
    var rest := names[1..];
    assert forall i | 0 <= i < |rest| :: rest[i] == names[i + 1];
    assert NoDuplicates(names) <==> (forall i | 0 <= i < |rest| :: names[0] != rest[i]) && NoDuplicates(rest);
  }

  /** `check_unique_input_names` accepts exactly configurations whose trimmed input and alias names are non-empty and pairwise distinct. */
  lemma CheckUniqueNamesSpec(sources: seq<ConfigSource>)
    ensures CheckUniqueNames(sources).Ok? <==>
      (forall i | 0 <= i < |AllNames(sources)| :: AllNames(sources)[i] != []) && NoDuplicates(AllNames(sources))
  {
    CheckFromSpec(AllNames(sources), {});
  }

  // ---------------------------------------------------------------------
  // The configuration object
  // ---------------------------------------------------------------------

  /** `ConfigApi`: where the API listens and what it serves. */
  class ConfigApi {
    var host: string
    var port: nat
    var webRoot: string

    constructor (host: string, port: nat, webRoot: string)
      ensures this.host == host && this.port == port && this.webRoot == webRoot
    {
      this.host := host;
      this.port := port;
      this.webRoot := webRoot;
    }

    /** `ConfigApi::prepare`: an empty web root becomes "./web"; a set one stays. */
    method Prepare()
      modifies this
      ensures webRoot == if old(webRoot) == [] then DEFAULT_WEB_ROOT else old(webRoot)
      ensures webRoot != []
      ensures host == old(host) && port == old(port)
    {
      if webRoot == [] {
        webRoot := DEFAULT_WEB_ROOT;
      }
    }
  }

  /** The part of `Config` that validation, lookup and defaulting touch. */
  class Config {
    var workingDir: string
    var backupDir: Option<string>
    var userConfigDir: Option<string>
    var sleepTimerMins: Option<nat>
    var video: Option<VideoConfig>
    var schedules: Option<seq<ScheduleConfig>>
    var sources: seq<ConfigSource>

    constructor (workingDir: string, backupDir: Option<string>, userConfigDir: Option<string>,
                 sleepTimerMins: Option<nat>, video: Option<VideoConfig>,
                 schedules: Option<seq<ScheduleConfig>>, sources: seq<ConfigSource>)
      ensures this.workingDir == workingDir && this.backupDir == backupDir && this.userConfigDir == userConfigDir
      ensures this.sleepTimerMins == sleepTimerMins && this.video == video
      ensures this.schedules == schedules && this.sources == sources
    {
      this.workingDir := workingDir;
      this.backupDir := backupDir;
      this.userConfigDir := userConfigDir;
      this.sleepTimerMins := sleepTimerMins;
      this.video := video;
      this.schedules := schedules;
      this.sources := sources;
    }

    /**
     * `check_unique_input_names`: every input and alias name, trimmed, must
     * be non-empty and unseen so far, across all sources.
     */
    method CheckUniqueInputNames() returns (r: Result<(), string>)
      ensures r == CheckUniqueNames(sources)
    {
      var srcs := sources;
      var seenNames: set<string> := {};
      var s := 0;
      while s < |srcs|
        invariant 0 <= s <= |srcs|
        invariant CheckFrom(AllNames(srcs), {}) == CheckFrom(AllNames(srcs[s..]), seenNames)
      {
        assert srcs[s..][1..] == srcs[s + 1..];
        CheckFromConcat(SourceNames(srcs[s].inputs), AllNames(srcs[s + 1..]), seenNames);
        var checked := CheckSourceNames(srcs[s].inputs, seenNames);
        if checked.Err? {
          return Err(checked.error);
        }
        seenNames := checked.value;
        s := s + 1;
      }
      r := Ok(());
    }

    /**
     * `prepare_directories`: a missing backup or user-config directory
     * becomes a sub-directory of the working directory; a configured one is
     * kept.
     */
    method PrepareDirectories()
      modifies this
      ensures backupDir == Some(old(backupDir).GetOr(JoinPath(workingDir, "backup")))
      ensures userConfigDir == Some(old(userConfigDir).GetOr(JoinPath(workingDir, "user_config")))
      ensures workingDir == old(workingDir) && sources == old(sources) && video == old(video)
      ensures schedules == old(schedules) && sleepTimerMins == old(sleepTimerMins)
    {
      backupDir := SetDirectory(backupDir, "backup", workingDir);
      userConfigDir := SetDirectory(userConfigDir, "user_config", workingDir);
    }

    /**
     * `prepare_video_config`: without a video section the default extensions
     * are installed; with one, its own preparation (a parameter here) decides.
     */
    method PrepareVideoConfig(prepareVideo: VideoConfig -> Result<VideoConfig, string>) returns (r: Result<(), string>)
      modifies this
      ensures old(video).None? ==> r.Ok? && video == Some(VideoConfig(DEFAULT_VIDEO_EXTENSIONS, None, None))
      ensures old(video).Some? ==> match prepareVideo(old(video).value)
        case Ok(v) => r.Ok? && video == Some(v)
        case Err(e) => r == Err(e) && video == old(video)
      ensures workingDir == old(workingDir) && sources == old(sources) && backupDir == old(backupDir)
      ensures userConfigDir == old(userConfigDir) && schedules == old(schedules) && sleepTimerMins == old(sleepTimerMins)
    {
      match video {
        case None =>
          video := Some(VideoConfig(DEFAULT_VIDEO_EXTENSIONS, None, None));
        case Some(v) =>
          match prepareVideo(v) {
            case Ok(prepared) => video := Some(prepared);
            case Err(err) => return Err(err);
          }
      }
      r := Ok(());
    }
  }

  /** The inputs of one source, in order, for `check_unique_input_names`. */
  method CheckSourceNames(inputs: seq<ConfigInput>, seenNames: set<string>) returns (r: Result<set<string>, string>)
    ensures r == CheckFrom(SourceNames(inputs), seenNames)
  {
    var seen := seenNames;
    var k := 0;
    while k < |inputs|
      invariant 0 <= k <= |inputs|
      invariant CheckFrom(SourceNames(inputs), seenNames) == CheckFrom(SourceNames(inputs[k..]), seen)
    {
      assert inputs[k..][1..] == inputs[k + 1..];
      CheckFromConcat(InputNames(inputs[k]), SourceNames(inputs[k + 1..]), seen);
      var checked := CheckInputNames(inputs[k], seen);
      if checked.Err? {
        return checked;
      }
      seen := checked.value;
      k := k + 1;
    }
    r := Ok(seen);
  }

  /** One input of `check_unique_input_names`: its name, then its aliases' names. */
  method CheckInputNames(input: ConfigInput, seenNames: set<string>) returns (r: Result<set<string>, string>)
    ensures r == CheckFrom(InputNames(input), seenNames)
  {
    var aliases := input.aliases.GetOr([]);
    ghost var aliasNames := AliasNames(aliases);
    assert InputNames(input)[1..] == aliasNames;
    var checked := CheckName(Text.Trim(input.name), seenNames);
    if checked.Err? {
      return checked;
    }
    var seen := checked.value;
    if input.aliases.Some? {
      var a := 0;
      while a < |aliases|
        invariant 0 <= a <= |aliases|
        invariant CheckFrom(InputNames(input), seenNames) == CheckFrom(aliasNames[a..], seen)
      {
        assert aliasNames[a..][1..] == aliasNames[a + 1..];
        checked := CheckName(Text.Trim(aliases[a].aliasName), seen);
        if checked.Err? {
          return checked;
        }
        seen := checked.value;
        a := a + 1;
      }
    }
    r := Ok(seen);
  }

  /** One name of `check_unique_input_names`: required, and not seen before; the result is the grown set of seen names. */
  method CheckName(inputName: string, seenNames: set<string>) returns (r: Result<set<string>, string>)
    ensures r.Ok? <==> inputName != [] && inputName !in seenNames
    ensures r.Ok? ==> r.value == seenNames + {inputName}
    ensures r.Err? ==> r == CheckFrom([inputName], seenNames)
  {
    if inputName == [] {
      return Err("input name required");
    }
    if inputName in seenNames {
      return Err("input names should be unique: " + inputName);
    }
    r := Ok(seenNames + {inputName});
  }

  /** A sub-directory of the working directory (path cleaning is not modelled). */
  function JoinPath(workingDir: string, subdir: string): string {
    workingDir + "/" + subdir
  }

  /** `set_directory` inside `prepare_directories`. */
  function SetDirectory(path: Option<string>, defaultSubdir: string, workingDir: string): (r: Option<string>)
    ensures r.Some?
    ensures path.Some? ==> r == path
    ensures path.None? ==> r == Some(JoinPath(workingDir, defaultSubdir))
  {
    Some(match path case Some(existing) => existing case None => JoinPath(workingDir, defaultSubdir))
  }

}
