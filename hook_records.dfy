// `Hooks` and `Hooks.from_stdout` (src/libtmux/_internal/constants.py): the
// record of every tmux hook, each a `TmuxArray` of commands, and the parser
// of `show-hooks` lines `name[index] command`. `Hooks` keeps the
// constructor `@dataclass` generates, which gives every field not passed a
// fresh empty array and rejects a keyword that names no field.
module HookRecords {
  import opened Wrappers
  import opened Text
  import opened KeyPattern

  /** The fields of `Hooks`, one per tmux hook, spelt with `_`. */
  const HookFields: set<string> :=
    {
      "alert_activity", "alert_bell", "alert_silence", "client_active", "client_attached",
      "client_detached", "client_focus_in", "client_focus_out", "client_resized",
      "client_session_changed", "pane_died", "pane_exited", "pane_focus_in",
      "pane_focus_out", "pane_set_clipboard", "session_created", "session_closed",
      "session_renamed", "window_linked", "window_renamed", "window_resized",
      "window_unlinked", "client_detached_control", "client_session_changed_control",
      "config_error", "continue_control", "exit_control", "extended_output",
      "layout_change", "message_control", "output", "pane_mode_changed",
      "paste_buffer_changed", "paste_buffer_deleted", "pause_control",
      "session_changed_control", "session_renamed_control", "session_window_changed",
      "sessions_changed", "subscription_changed", "unlinked_window_add",
      "unlinked_window_close", "unlinked_window_renamed", "window_add", "window_close",
      "window_pane_changed", "window_renamed_control", "after_bind_key",
      "after_capture_pane", "after_copy_mode", "after_display_message",
      "after_display_panes", "after_kill_pane", "after_list_buffers", "after_list_clients",
      "after_list_keys", "after_list_panes", "after_list_sessions", "after_list_windows",
      "after_load_buffer", "after_lock_server", "after_new_session", "after_new_window",
      "after_paste_buffer", "after_pipe_pane", "after_queue", "after_refresh_client",
      "after_rename_session", "after_rename_window", "after_resize_pane",
      "after_resize_window", "after_save_buffer", "after_select_layout",
      "after_select_pane", "after_select_window", "after_send_keys", "after_set_buffer",
      "after_set_environment", "after_set_hook", "after_set_option",
      "after_show_environment", "after_show_messages", "after_show_options",
      "after_split_window"
    }

  /** How `from_stdout` fails: `AssertionError`, `TypeError` from `int(None)`, `TypeError` from `cls(**output)`. */
  datatype HookError = NoNameMatch | MissingIndex | UnexpectedKeyword

  /** A `Hooks` value: field name to the index map of its `TmuxArray`. */
  datatype Hooks = Hooks(arrays: map<string, map<int, string>>)

  /** One stored command: the hook's field name, the array index and the command text. */
  datatype HookEntry = HookEntry(hook: string, index: nat, cmd: string)

  /**
   * One line of `from_stdout`: `None` for a skipped line (empty or without a
   * space); otherwise the line is split at its first space and the name part
   * must match `[\w-]+` followed by `[digits]`. `lstrip("%")` never changes a
   * name the pattern matched, because `%` is not a name character.
   */
  function ParseHookLine(line: string): (r: Result<Option<HookEntry>, HookError>)
    ensures r == Ok(None) <==> line == [] || ' ' !in line
    ensures r.Ok? && r.value.Some? ==>
              exists full :: SplitOnce(line, ' ') == Some((full, r.value.value.cmd)) && '-' !in r.value.value.hook
    ensures r == Err(NoNameMatch) <==> ' ' in line && MatchKey(SplitOnce(line, ' ').value.0).None?
  {
    if line == [] || ' ' !in line then Ok(None)
    else
      var (full, cmd) := SplitOnce(line, ' ').value;
      match MatchKey(full)
      case None => Err(NoNameMatch)
      case Some(m) =>
        match m.index
        case None => Err(MissingIndex)
        case Some(d) => Ok(Some(HookEntry(ReplaceChar(m.name, '-', '_'), DigitsValue(d), cmd)))
  }

  /** `output[hook][index] = cmd`, creating the hook's array first if needed. */
  function Store(output: map<string, map<int, string>>, e: HookEntry): (r: map<string, map<int, string>>)
    ensures r.Keys == output.Keys + {e.hook}
    ensures e.hook in r && e.index in r[e.hook] && r[e.hook][e.index] == e.cmd
    ensures forall h :: h in output && h != e.hook ==> r[h] == output[h]
    ensures e.hook in output ==> r[e.hook] == output[e.hook][e.index := e.cmd]
    ensures e.hook !in output ==> r[e.hook] == map[e.index := e.cmd]
  {
    var current := if e.hook in output then output[e.hook] else map[];
    output[e.hook := current[e.index := e.cmd]]
  }

  /** The `output` dict after the loop over `lines`, or the first line's error. */
  function Collect(lines: seq<string>): Result<map<string, map<int, string>>, HookError>
  {
    if lines == [] then Ok(map[])
    else
      match Collect(lines[..|lines| - 1])
      case Err(e) => Err(e)
      case Ok(output) =>
        match ParseHookLine(lines[|lines| - 1])
        case Err(e) => Err(e)
        case Ok(None) => Ok(output)
        case Ok(Some(entry)) => Ok(Store(output, entry))
  }

  /** `cls(**output)`: every field gets its array or a fresh empty one; an unknown name is rejected. */
  function BuildHooks(output: map<string, map<int, string>>): (r: Result<Hooks, HookError>)
    ensures r.Ok? <==> output.Keys <= HookFields
    ensures r.Ok? ==> r.value.arrays.Keys == HookFields
    ensures r.Ok? ==> forall h :: h in HookFields ==> r.value.arrays[h] == if h in output then output[h] else map[]
  {
    if output.Keys <= HookFields then
      Ok(Hooks(map h | h in HookFields :: if h in output then output[h] else map[]))
    else Err(UnexpectedKeyword)
  }

  /** `Hooks.from_stdout(lines)`, as a value. */
  function HooksOf(lines: seq<string>): Result<Hooks, HookError>
  {
    match Collect(lines)
    case Err(e) => Err(e)
    case Ok(output) => BuildHooks(output)
  }

  /** `Hooks.from_stdout`: the loop filling `output` in place, then the constructor. */
  method FromStdout(lines: seq<string>) returns (r: Result<Hooks, HookError>)
    ensures r == HooksOf(lines)
  {
    var output: map<string, map<int, string>> := map[];
    for i := 0 to |lines|
      invariant Collect(lines[..i]) == Ok(output)
    {
      assert lines[..i + 1][..i] == lines[..i];
      var parsed := ParseHookLine(lines[i]);
      if parsed.Err? {
        r := Err(parsed.error);
        ErrorPersists(lines, i + 1);
        return;
      }
      if parsed.value.Some? {
        output := Store(output, parsed.value.value);
      }
    }
    assert lines[..|lines|] == lines;
    r := BuildHooks(output);
  }

  /** Once a prefix of the lines fails, so does every longer prefix. */
  lemma {:induction false} ErrorPersists(lines: seq<string>, n: nat)
    requires n <= |lines|
    requires Collect(lines[..n]).Err?
    ensures Collect(lines).Err? && Collect(lines).error == Collect(lines[..n]).error
    decreases |lines| - n
  {
    if n < |lines| {
      var longer := lines[..n + 1];
      assert longer[..n] == lines[..n];
      ErrorPersists(lines, n + 1);
    } else {
      assert lines[..n] == lines;
    }
  }

  /** A skipped line (empty, or with no space) changes nothing. */
  lemma SkippedLine(lines: seq<string>, line: string)
    requires line == [] || ' ' !in line
    ensures Collect(lines + [line]) == Collect(lines)
  {
    assert (lines + [line])[..|lines|] == lines;
  }

  /**
   * The whole parse fails exactly when some line fails, and then with the
   * first failing line's error.
   */
  lemma {:induction false} CollectFailsIffSomeLineFails(lines: seq<string>)
    ensures Collect(lines).Err? <==> exists i :: 0 <= i < |lines| && ParseHookLine(lines[i]).Err?
    ensures Collect(lines).Err? ==>
              exists i :: 0 <= i < |lines| && ParseHookLine(lines[i]) == Err(Collect(lines).error) &&
                          forall j :: 0 <= j < i ==> ParseHookLine(lines[j]).Ok?
  {
    if lines != [] {
      var init := lines[..|lines| - 1];
      CollectFailsIffSomeLineFails(init);
      assert forall j :: 0 <= j < |init| ==> init[j] == lines[j];
    }
  }

  /** Parsing a line stores its command under its name and index and leaves every other entry alone. */
  lemma LaterLineOverwrites(lines: seq<string>, line: string, output: map<string, map<int, string>>, e: HookEntry)
    requires Collect(lines) == Ok(output)
    requires ParseHookLine(line) == Ok(Some(e))
    ensures Collect(lines + [line]).Ok?
    ensures var after := Collect(lines + [line]).value;
            e.hook in after && e.index in after[e.hook] && after[e.hook][e.index] == e.cmd &&
            (forall h :: h in output && h != e.hook ==> h in after && after[h] == output[h]) &&
            (forall k :: e.hook in output && k in output[e.hook] && k != e.index ==>
               k in after[e.hook] && after[e.hook][k] == output[e.hook][k])
  {
    assert (lines + [line])[..|lines|] == lines;
  }

  /** A `name[digits]` key holds no space. */
  lemma IndexedKeyHasNoSpace(name: string, digits: string)
    requires AllNameChars(name) && AllDigits(digits)
    ensures ' ' !in name + "[" + digits + "]"
  {
    var full := name + "[" + digits + "]";
    forall i | 0 <= i < |full| ensures full[i] != ' ' {
      if i < |name| {
        assert full[i] == name[i] && IsNameChar(name[i]);
      } else if |name| < i < |name| + 1 + |digits| {
        assert full[i] == digits[i - |name| - 1] && IsDigit(digits[i - |name| - 1]);
      }
    }
  }

  /** `name[digits] command`: the command is everything after the first space, later spaces included. */
  lemma IndexedLine(name: string, digits: string, cmd: string)
    requires |name| > 0 && AllNameChars(name)
    requires IsDigits(digits)
    ensures ParseHookLine(name + "[" + digits + "]" + " " + cmd)
            == Ok(Some(HookEntry(ReplaceChar(name, '-', '_'), DigitsValue(digits), cmd)))
  {
    var full := name + "[" + digits + "]";
    var line := full + " " + cmd;
    IndexedKeyHasNoSpace(name, digits);
    assert line == full + [' '] + cmd;
    SplitOnceAt(full, ' ', cmd);
    assert line[|full|] == ' ';
    MatchIndexedName(name, digits, "");
    assert full + "" == full;
  }

  /** `name command` without an index fails (`int(None)` raises TypeError). */
  lemma LineWithoutIndex(name: string, cmd: string)
    requires |name| > 0 && AllNameChars(name)
    ensures ParseHookLine(name + " " + cmd) == Err(MissingIndex)
  {
    var line := name + " " + cmd;
    assert ' ' !in name by {
      forall i | 0 <= i < |name| ensures name[i] != ' ' {
        assert IsNameChar(name[i]);
      }
    }
    assert line == name + [' '] + cmd;
    SplitOnceAt(name, ' ', cmd);
    assert line[|name|] == ' ';
    MatchPlainName(name, "");
    assert name + "" == name;
  }

  /** A `%`-prefixed name does not match the pattern, so the `assert` trips. */
  lemma PercentName(rest: string, cmd: string)
    ensures ParseHookLine("%" + rest + " " + cmd) == Err(NoNameMatch)
  {
    var line := "%" + rest + " " + cmd;
    assert line[|rest| + 1] == ' ';
    assert ' ' in line;
    var full := SplitOnce(line, ' ').value.0;
    assert line[0] == '%';
    assert full == [] || full[0] == '%' by {
      if full != [] {
        assert line == full + [' '] + SplitOnce(line, ' ').value.1;
        assert full[0] == line[0];
      }
    }
  }

  /** A name that is not a hook field makes the constructor fail. */
  lemma UnknownHookRejected(output: map<string, map<int, string>>, name: string)
    requires name in output && name !in HookFields
    ensures BuildHooks(output) == Err(UnexpectedKeyword)
  {
  }
}
