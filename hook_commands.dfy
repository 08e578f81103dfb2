// src/libtmux/hooks.py: the argv of run_hook, set_hook, unset_hook,
// show_hooks and _show_hook, the tmux 3.2 gate on their scope flag, and
// what show_hooks and show_hook make of tmux's output. The hook scope flag
// map and the version probe are parameters; tmux's stdout and stderr are
// inputs.
module HookCommands {
  import opened Wrappers
  import opened Text
  import opened Scopes
  import opened ShellWords
  import opened CommandFlags
  import opened OptionValues
  import opened OptionCommands
  import opened HookRecords
  import opened KeyPattern

  /** The scope words a hook command adds, and whether it warned instead. */
  datatype GatedScope = GatedScope(words: seq<string>, warned: bool)

  /**
   * The scope step every hook command shares: the mapped flag is added,
   * except that `-p` and `-w` on tmux older than 3.2 are dropped with a
   * warning. No scope adds nothing.
   */
  function HookScopeWords(scope: Option<OptionScope>, hookFlag: OptionScope -> string, ltV32: bool): (r: GatedScope)
    ensures scope.None? ==> r == GatedScope([], false)
    ensures scope.Some? ==>
              var f := hookFlag(scope.value);
              (r.warned <==> (f == "-p" || f == "-w") && ltV32)
              && (r.warned ==> r.words == [])
              && (!r.warned ==> r.words == [f])
  {
    match scope
    case None => GatedScope([], false)
    case Some(s) =>
      var f := hookFlag(s);
      if (f == "-p" || f == "-w") && ltV32 then GatedScope([], true) else GatedScope([f], false)
  }

  /**
   * With the option flags as the hook flags: on tmux 3.2 or later every
   * scope keeps its flag; before 3.2 exactly the Window and Pane flags are
   * dropped, with a warning.
   */
  lemma GateWithScopeFlags(scope: OptionScope, ltV32: bool)
    ensures HookScopeWords(Some(scope), ScopeFlag, ltV32).warned <==> ltV32 && (scope == Window || scope == Pane)
    ensures !ltV32 ==> HookScopeWords(Some(scope), ScopeFlag, ltV32).words == [ScopeFlag(scope)]
    ensures scope == Server || scope == Session ==>
              HookScopeWords(Some(scope), ScopeFlag, ltV32).words == [ScopeFlag(scope)]
  {
    var f := ScopeFlag(scope);
    if scope == Server || scope == Session {
      assert f == "-s" || f == "";
      assert f != "-p" && f != "-w" by {
        if f == "-s" { assert f[1] == 's'; }
      }
    }
  }

  /** `run_hook`: `set-hook -R`, the gated scope flag, the hook. */
  method RunHook(hook: string, scope: ScopeArg, defaultHookScope: Option<OptionScope>,
                 hookFlag: OptionScope -> string, ltV32: bool, stderr: seq<string>)
    returns (argv: seq<string>, err: Option<OptionErrorKind>, warned: bool)
    ensures var gate := HookScopeWords(Resolve(scope, defaultHookScope), hookFlag, ltV32);
            argv == ["set-hook", "-R"] + gate.words + [hook] && warned == gate.warned
    ensures 3 <= |argv| <= 4 && argv[..2] == ["set-hook", "-R"] && argv[|argv| - 1] == hook
    ensures err == CheckStderr(stderr)
  {
    var flags := ["-R"];
    var gate := HookScopeWords(Resolve(scope, defaultHookScope), hookFlag, ltV32);
    flags := flags + gate.words;
    warned := gate.warned;
    argv := ["set-hook"] + flags + [hook];
    err := CheckStderr(stderr);
  }

  /** set_hook's switch steps in source order: -u -R -F -o -q -a -g, each with its condition. */
  function SetHookSwitches(unset: bool, run: bool, format: bool, preventOverwrite: bool, ignoreErrors: bool,
                           append: bool, global: bool): (pairs: seq<(char, bool)>)
    ensures LettersDistinct(pairs)
  {
    [('u', unset), ('R', run), ('F', format), ('o', preventOverwrite),
     ('q', ignoreErrors), ('a', append), ('g', global)]
  }

  /**
   * `set_hook`: the switches, then the gated scope flag, the hook and the
   * value. `g` is accepted and ignored: only `_global` adds -g.
   */
  method SetHook(hook: string, value: ArgValue, format: bool, unset: bool, run: bool,
                 preventOverwrite: bool, ignoreErrors: bool, append: bool, g: Option<bool>, global: bool,
                 scope: ScopeArg, defaultHookScope: Option<OptionScope>,
                 hookFlag: OptionScope -> string, ltV32: bool, stderr: seq<string>)
    returns (argv: seq<string>, err: Option<OptionErrorKind>, warned: bool)
    ensures var pairs := SetHookSwitches(unset, run, format, preventOverwrite, ignoreErrors, append, global);
            var switches := Switches(pairs);
            var gate := HookScopeWords(Resolve(scope, defaultHookScope), hookFlag, ltV32);
            argv == ["set-hook"] + switches + gate.words + [hook, Render(value)]
            && warned == gate.warned
            && forall k :: 0 <= k < |pairs| ==> (Switch(pairs[k].0) in switches <==> pairs[k].1)
    ensures |argv| >= 3 && argv[|argv| - 2] == hook && argv[|argv| - 1] == Render(value)
    ensures err == CheckStderr(stderr)
  {
    var pairs := SetHookSwitches(unset, run, format, preventOverwrite, ignoreErrors, append, global);
    var flags := AppendSwitches([], pairs);
    SwitchesPresent(pairs);
    var gate := HookScopeWords(Resolve(scope, defaultHookScope), hookFlag, ltV32);
    flags := flags + gate.words;
    warned := gate.warned;
    argv := ["set-hook"] + flags + [hook, Render(value)];
    err := CheckStderr(stderr);
  }

  /** `unset_hook`: `set-hook -u`, then -q and -g when asked, the gated scope flag and the hook. */
  method UnsetHook(hook: string, global: bool, ignoreErrors: bool, scope: ScopeArg,
                   defaultHookScope: Option<OptionScope>, hookFlag: OptionScope -> string, ltV32: bool,
                   stderr: seq<string>)
    returns (argv: seq<string>, err: Option<OptionErrorKind>, warned: bool)
    ensures var pairs := [('q', ignoreErrors), ('g', global)];
            var switches := Switches(pairs);
            var gate := HookScopeWords(Resolve(scope, defaultHookScope), hookFlag, ltV32);
            argv == ["set-hook", "-u"] + switches + gate.words + [hook] && warned == gate.warned
            && forall k :: 0 <= k < |pairs| ==> (Switch(pairs[k].0) in switches <==> pairs[k].1)
    ensures |argv| >= 3 && argv[..2] == ["set-hook", "-u"] && argv[|argv| - 1] == hook
    ensures err == CheckStderr(stderr)
  {
    var pairs := [('q', ignoreErrors), ('g', global)];
    var flags := AppendSwitches(["-u"], pairs);
    assert LettersDistinct(pairs);
    SwitchesPresent(pairs);
    var gate := HookScopeWords(Resolve(scope, defaultHookScope), hookFlag, ltV32);
    flags := flags + gate.words;
    warned := gate.warned;
    argv := ["set-hook"] + flags + [hook];
    err := CheckStderr(stderr);
  }

  /**
   * One line of show_hooks' loop: an entry only when the line splits into
   * exactly two shell words and the second is all digits, as a number.
   */
  function HookValueLine(item: string): (r: Option<(string, nat)>)
    ensures r.Some? <==> Split(item).Ok? && |Split(item).value| == 2 && IsDigits(Split(item).value[1])
    ensures r.Some? ==> r.value == (Split(item).value[0], DigitsValue(Split(item).value[1]))
  {
    match Split(item)
    case Err(_) => None
    case Ok(words) =>
      if |words| == 2 && IsDigits(words[1]) then Some((words[0], DigitsValue(words[1]))) else None
  }

  /** show_hooks' result: the entries of every line that has one, a later line winning. */
  function HookValues(lines: seq<string>): map<string, nat>
  {
    if lines == [] then map[]
    else
      var prev := HookValues(lines[..|lines| - 1]);
      match HookValueLine(lines[|lines| - 1])
      case None => prev
      case Some((key, n)) => prev[key := n]
  }

  /** A key is in the result exactly when some line gives an entry for it. */
  lemma {:induction false} HookValuesKeys(lines: seq<string>, key: string)
    ensures key in HookValues(lines) <==>
              exists i :: 0 <= i < |lines| && HookValueLine(lines[i]).Some? && HookValueLine(lines[i]).value.0 == key
  {
    if lines != [] {
      var init := lines[..|lines| - 1];
      HookValuesKeys(init, key);
      assert forall i :: 0 <= i < |init| ==> init[i] == lines[i];
      var last := HookValueLine(lines[|lines| - 1]);
      if key in HookValues(lines) && !(last.Some? && last.value.0 == key) {
        var i :| 0 <= i < |init| && HookValueLine(init[i]).Some? && HookValueLine(init[i]).value.0 == key;
        assert lines[i] == init[i];
      }
    }
  }

  /** The value stored for a key is the one on the last line with an entry for it. */
  lemma {:induction false} HookValuesLastWins(lines: seq<string>, i: nat)
    requires i < |lines| && HookValueLine(lines[i]).Some?
    requires forall j :: i < j < |lines| ==> HookValueLine(lines[j]).None? || HookValueLine(lines[j]).value.0 != HookValueLine(lines[i]).value.0
    ensures HookValueLine(lines[i]).value.0 in HookValues(lines)
    ensures HookValues(lines)[HookValueLine(lines[i]).value.0] == HookValueLine(lines[i]).value.1
    decreases |lines|
  {
    var init := lines[..|lines| - 1];
    if i < |lines| - 1 {
      assert forall j :: 0 <= j < |init| ==> init[j] == lines[j];
      HookValuesLastWins(init, i);
    }
  }

  /** `name n` stores the number n under the name. */
  lemma DigitHookLine(lines: seq<string>, name: string, n: nat)
    requires |name| > 0 && AllPlain(name)
    ensures HookValues(lines + [name + " " + NatToString(n)]) == HookValues(lines)[name := n]
  {
    var w := NatToString(n);
    assert AllPlain(w) by {
      forall i | 0 <= i < |w| ensures IsPlain(w[i]) { assert IsDigit(w[i]); }
    }
    PlainPair(name, w);
    NatToStringRoundTrip(n);
    assert (lines + [name + " " + w])[..|lines|] == lines;
  }

  /** A line whose value is not all digits is dropped. */
  lemma TextHookLineDropped(lines: seq<string>, name: string, value: string)
    requires |name| > 0 && AllPlain(name)
    requires |value| > 0 && AllPlain(value) && !IsDigits(value)
    ensures HookValues(lines + [name + " " + value]) == HookValues(lines)
  {
    PlainPair(name, value);
    assert (lines + [name + " " + value])[..|lines|] == lines;
  }

  /** A line that does not split into two words is dropped rather than raising. */
  lemma MalformedHookLineDropped(lines: seq<string>, item: string)
    requires Split(item).Err? || |Split(item).value| != 2
    ensures HookValues(lines + [item]) == HookValues(lines)
  {
    assert (lines + [item])[..|lines|] == lines;
  }

  /** show_hooks' switch steps after the scope flag: -v, then -q. */
  function ShowHooksSwitches(valuesOnly: bool, ignoreErrors: bool): (pairs: seq<(char, bool)>)
    ensures LettersDistinct(pairs)
  {
    [('v', valuesOnly), ('q', ignoreErrors)]
  }

  /**
   * `show_hooks`: -g when `_global`, the gated scope flag, -v and -q, then
   * the numeric entries of tmux's output.
   */
  method ShowHooks(global: bool, scope: ScopeArg, defaultHookScope: Option<OptionScope>,
                   hookFlag: OptionScope -> string, ltV32: bool, ignoreErrors: bool, valuesOnly: bool,
                   stdout: seq<string>)
    returns (argv: seq<string>, hooks: map<string, nat>, warned: bool)
    ensures var pairs := ShowHooksSwitches(valuesOnly, ignoreErrors);
            var gate := HookScopeWords(Resolve(scope, defaultHookScope), hookFlag, ltV32);
            argv == ["show-hooks"] + Keep("-g", global) + gate.words + Switches(pairs) && warned == gate.warned
            && forall k :: 0 <= k < |pairs| ==> (Switch(pairs[k].0) in Switches(pairs) <==> pairs[k].1)
    ensures hooks == HookValues(stdout)
  {
    hooks := ReadHookLines(stdout);
    var gate := HookScopeWords(Resolve(scope, defaultHookScope), hookFlag, ltV32);
    warned := gate.warned;
    var pairs := ShowHooksSwitches(valuesOnly, ignoreErrors);
    var flags := [];
    if global {
      flags := flags + ["-g"];
    }
    flags := flags + gate.words;
    flags := AppendSwitches(flags, pairs);
    SwitchesPresent(pairs);
    argv := ["show-hooks"] + flags;
  }

  /** show_hooks' loop over tmux's output, one line at a time. */
  method ReadHookLines(stdout: seq<string>) returns (hooks: map<string, nat>)
    ensures hooks == HookValues(stdout)
  {
    hooks := map[];
    for i := 0 to |stdout|
      invariant hooks == HookValues(stdout[..i])
    {
      assert stdout[..i + 1][..i] == stdout[..i];
      var split := Split(stdout[i]);
      if split.Ok? && |split.value| == 2 && IsDigits(split.value[1]) {
        hooks := hooks[split.value[0] := DigitsValue(split.value[1])];
      }
    }
    assert stdout[..|stdout|] == stdout;
  }

  /**
   * `_show_hook`: -g when `_global`, the gated scope flag, -q and the hook;
   * stderr raises through handle_option_error, otherwise stdout is returned.
   */
  method ShowHookRaw(hook: string, global: bool, scope: ScopeArg, defaultHookScope: Option<OptionScope>,
                     hookFlag: OptionScope -> string, ltV32: bool, ignoreErrors: bool,
                     stderr: seq<string>, stdout: seq<string>)
    returns (argv: seq<string>, output: Result<seq<string>, OptionErrorKind>, warned: bool)
    ensures var gate := HookScopeWords(Resolve(scope, defaultHookScope), hookFlag, ltV32);
            argv == ["show-hooks"] + Switches([('g', global)]) + gate.words
                    + Switches([('q', ignoreErrors)]) + [hook]
            && warned == gate.warned
    ensures |argv| >= 2 && argv[0] == "show-hooks" && argv[|argv| - 1] == hook
    ensures output.Err? <==> stderr != []
    ensures output.Err? ==> output.error == HandleOptionError(stderr[0])
    ensures output.Ok? ==> output.value == stdout
  {
    var flags := AppendSwitches([], [('g', global)]);
    var gate := HookScopeWords(Resolve(scope, defaultHookScope), hookFlag, ltV32);
    flags := flags + gate.words;
    warned := gate.warned;
    flags := AppendSwitches(flags, [('q', ignoreErrors)]);
    argv := ["show-hooks"] + flags + [hook];
    if stderr != [] {
      output := Err(HandleOptionError(stderr[0]));
    } else {
      output := Ok(stdout);
    }
  }

  /** How show_hook can fail: the option error raised for stderr, or from_stdout's error. */
  datatype ShowHookError = HookRaised(kind: OptionErrorKind) | HookUnparsed(e: HookError)

  /**
   * `show_hook`'s result: the output of `_show_hook` parsed by
   * `from_stdout`, then the attribute named by the hook with `-` replaced
   * by `_`: that field's array, or nothing when no field has that name.
   */
  function ShowHookValue(hook: string, stderr: seq<string>, stdout: seq<string>): (r: Result<Option<map<int, string>>, ShowHookError>)
    ensures stderr != [] ==> r == Err(HookRaised(HandleOptionError(stderr[0])))
    ensures stderr == [] ==> (r.Err? <==> HooksOf(stdout).Err?)
    ensures stderr == [] && HooksOf(stdout).Err? ==> r == Err(HookUnparsed(HooksOf(stdout).error))
    ensures stderr == [] && HooksOf(stdout).Ok? ==>
              (r.value.Some? <==> ReplaceChar(hook, '-', '_') in HookFields)
    ensures r.Ok? && r.value.Some? ==> r.value.value == HooksOf(stdout).value.arrays[ReplaceChar(hook, '-', '_')]
  {
    if stderr != [] then Err(HookRaised(HandleOptionError(stderr[0])))
    else
      match HooksOf(stdout)
      case Err(e) => Err(HookUnparsed(e))
      case Ok(hooks) =>
        var field := ReplaceChar(hook, '-', '_');
        if field in hooks.arrays then Ok(Some(hooks.arrays[field])) else Ok(None)
  }

  /** A hook set at one index reads back as the array holding just that command. */
  lemma ShowHookOneLine(name: string, digits: string, cmd: string)
    requires |name| > 0 && AllNameChars(name)
    requires IsDigits(digits)
    requires ReplaceChar(name, '-', '_') in HookFields
    ensures ShowHookValue(name, [], [name + "[" + digits + "]" + " " + cmd])
            == Ok(Some(map[DigitsValue(digits) := cmd]))
  {
    var line := name + "[" + digits + "]" + " " + cmd;
    IndexedLine(name, digits, cmd);
    var field := ReplaceChar(name, '-', '_');
    assert [line][..0] == [];
    assert Collect([line]) == Ok(map[field := map[DigitsValue(digits) := cmd]]);
  }

  /**
   * `show_hook`: `_show_hook` without `_global` (it is accepted and not
   * passed on), then the hook's array read from tmux's output.
   */
  method ShowHook(hook: string, global: bool, scope: ScopeArg, defaultHookScope: Option<OptionScope>,
                  hookFlag: OptionScope -> string, ltV32: bool, ignoreErrors: bool,
                  stderr: seq<string>, stdout: seq<string>)
    returns (argv: seq<string>, result: Result<Option<map<int, string>>, ShowHookError>, warned: bool)
    ensures var gate := HookScopeWords(Resolve(scope, defaultHookScope), hookFlag, ltV32);
            argv == ["show-hooks"] + gate.words + Switches([('q', ignoreErrors)]) + [hook]
            && warned == gate.warned
    ensures result == ShowHookValue(hook, stderr, stdout)
  {
    var output;
    argv, output, warned := ShowHookRaw(hook, false, scope, defaultHookScope, hookFlag, ltV32, ignoreErrors,
                                        stderr, stdout);
    assert Switches([('g', false)]) == [];
    if output.Err? {
      result := Err(HookRaised(output.error));
    } else {
      var hooks := FromStdout(output.value);
      if hooks.Err? {
        result := Err(HookUnparsed(hooks.error));
      } else {
        var field := ReplaceChar(hook, '-', '_');
        if field in hooks.value.arrays {
          result := Ok(Some(hooks.value.arrays[field]));
        } else {
          result := Ok(None);
        }
      }
    }
  }
}
