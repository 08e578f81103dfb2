// The scope records `ServerOptions`, `SessionOptions`, `WindowOptions`,
// `PaneOptions` and their union `Options` (src/libtmux/_internal/constants.py).
// Their hand-written `__init__` turns each keyword into an attribute name and
// `setattr`s the value, with no check that the name is a declared field.
// Fields declared with `default=None` read as `None` until set; the
// `default_factory` fields have no class-level default, so an `__init__` that
// never sets one leaves it missing and reading it raises AttributeError.
module OptionRecords {
  import opened Wrappers
  import opened Text
  import opened OptionValues

  datatype RecordKind = ServerRecord | SessionRecord | WindowRecord | PaneRecord | AllScopes

  /** The `default=None` fields of `ServerOptions`. */
  const ServerNoneFields: set<string> :=
    {
      "backspace", "buffer_limit", "default_terminal", "copy_command", "escape_time",
      "editor", "exit_empty", "exit_unattached", "extended_keys", "focus_events",
      "history_file", "message_limit", "prompt_history_limit", "set_clipboard"
    }

  /** The `default_factory` fields of `ServerOptions` (`TmuxArray` or dict). */
  const ServerFactoryFields: set<string> :=
    {
      "command_alias", "terminal_features", "terminal_overrides", "user_keys"
    }

  const SessionNoneFields: set<string> :=
    {
      "activity_action", "assume_paste_time", "base_index", "bell_action",
      "default_command", "default_shell", "default_size", "destroy_unattached",
      "detach_on_destroy", "display_panes_active_colour", "display_panes_colour",
      "display_panes_time", "display_time", "history_limit", "key_table",
      "lock_after_time", "lock_command", "menu_style", "menu_selected_style",
      "menu_border_style", "menu_border_lines", "message_command_style", "message_line",
      "message_style", "mouse", "prefix", "prefix2", "renumber_windows", "repeat_time",
      "set_titles", "set_titles_string", "silence_action", "status", "status_format",
      "status_interval", "status_justify", "status_keys", "status_left",
      "status_left_length", "status_left_style", "status_position", "status_right",
      "status_right_length", "status_right_style", "status_style", "update_environment",
      "visual_activity", "visual_bell", "visual_silence", "word_separators"
    }

  const WindowNoneFields: set<string> :=
    {
      "aggressive_resize", "automatic_rename", "automatic_rename_format",
      "clock_mode_colour", "clock_mode_style", "fill_character", "main_pane_height",
      "main_pane_width", "copy_mode_match_style", "copy_mode_mark_style",
      "copy_mode_current_match_style", "mode_keys", "mode_style", "monitor_activity",
      "monitor_bell", "monitor_silence", "other_pane_height", "other_pane_width",
      "pane_active_border_style", "pane_base_index", "pane_border_format",
      "pane_border_indicators", "pane_border_lines", "pane_border_status",
      "pane_border_style", "popup_style", "popup_border_style", "popup_border_lines",
      "window_status_activity_style", "window_status_bell_style",
      "window_status_current_format", "window_status_current_style",
      "window_status_format", "window_status_last_style", "window_status_separator",
      "window_status_style", "window_size", "wrap_search"
    }

  const PaneNoneFields: set<string> :=
    {
      "allow_passthrough", "allow_rename", "alternate_screen", "cursor_colour",
      "pane_colours", "cursor_style", "remain_on_exit", "remain_on_exit_format", "scroll_on_clear",
      "synchronize_panes", "window_active_style", "window_style"
    }

  /** The fields that read as `None` when no keyword set them; `Options` inherits all four. */
  function NoneFields(kind: RecordKind): set<string>
  {
    match kind
    case ServerRecord => ServerNoneFields
    case SessionRecord => SessionNoneFields
    case WindowRecord => WindowNoneFields
    case PaneRecord => PaneNoneFields
    case AllScopes => ServerNoneFields + SessionNoneFields + WindowNoneFields + PaneNoneFields
  }

  /**
   * The attribute a keyword sets: every `-` becomes `_`; `Options` then also
   * drops every trailing `*` (the inherited-value marker of `show-options -A`).
   */
  function AttrName(key: string, kind: RecordKind): (name: string)
    ensures '-' !in name
    ensures kind != AllScopes ==> |name| == |key|
    ensures kind == AllScopes ==> |name| <= |key| && (|name| > 0 ==> name[|name| - 1] != '*')
    ensures kind == AllScopes ==> forall i :: |name| <= i < |key| ==> key[i] == '*'
    ensures forall i :: 0 <= i < |name| ==> name[i] == if key[i] == '-' then '_' else key[i]
  {
    var underscored := ReplaceChar(key, '-', '_');
    if kind == AllScopes then RStrip(underscored, '*') else underscored
  }

  /** The attributes after `setattr` of each keyword in turn onto `attrs`. */
  function Assigned(attrs: map<string, OptionValue>, kwargs: seq<(string, OptionValue)>, kind: RecordKind): map<string, OptionValue>
  {
    if kwargs == [] then attrs
    else
      var last := kwargs[|kwargs| - 1];
      Assigned(attrs, kwargs[..|kwargs| - 1], kind)[AttrName(last.0, kind) := last.1]
  }

  /** Reading an attribute: its value if set, `None` for an unset `default=None` field, else AttributeError. */
  function Attribute(kind: RecordKind, attrs: map<string, OptionValue>, name: string): (r: Option<OptionValue>)
    ensures name in attrs ==> r == Some(attrs[name])
    ensures name !in attrs ==> (r == Some(NoValue) <==> name in NoneFields(kind))
    ensures name !in attrs ==> (r.None? <==> name !in NoneFields(kind))
  {
    if name in attrs then Some(attrs[name])
    else if name in NoneFields(kind) then Some(NoValue)
    else None
  }

  /** A keyword's attribute is set, and the last keyword with that attribute name decides its value. */
  lemma {:induction false} AssignedLastWins(attrs: map<string, OptionValue>, kwargs: seq<(string, OptionValue)>, kind: RecordKind, i: nat)
    requires i < |kwargs|
    requires forall j :: i < j < |kwargs| ==> AttrName(kwargs[j].0, kind) != AttrName(kwargs[i].0, kind)
    ensures AttrName(kwargs[i].0, kind) in Assigned(attrs, kwargs, kind)
    ensures Assigned(attrs, kwargs, kind)[AttrName(kwargs[i].0, kind)] == kwargs[i].1
  {
    if i < |kwargs| - 1 {
      var init := kwargs[..|kwargs| - 1];
      assert forall j :: i < j < |init| ==> init[j] == kwargs[j];
      AssignedLastWins(attrs, init, kind, i);
      assert init[i] == kwargs[i];
    }
  }

  /** An attribute no keyword names keeps its prior state, set or not. */
  lemma {:induction false} AssignedUntouched(attrs: map<string, OptionValue>, kwargs: seq<(string, OptionValue)>, kind: RecordKind, name: string)
    requires forall j :: 0 <= j < |kwargs| ==> AttrName(kwargs[j].0, kind) != name
    ensures name in Assigned(attrs, kwargs, kind) <==> name in attrs
    ensures name in attrs ==> Assigned(attrs, kwargs, kind)[name] == attrs[name]
  {
    if kwargs != [] {
      var init := kwargs[..|kwargs| - 1];
      assert forall j :: 0 <= j < |init| ==> init[j] == kwargs[j];
      AssignedUntouched(attrs, init, kind, name);
    }
  }

  /** Every set attribute was set beforehand or by some keyword. */
  lemma {:induction false} AssignedOnlyNamed(attrs: map<string, OptionValue>, kwargs: seq<(string, OptionValue)>, kind: RecordKind, name: string)
    requires name in Assigned(attrs, kwargs, kind)
    ensures name in attrs || exists j :: 0 <= j < |kwargs| && AttrName(kwargs[j].0, kind) == name
  {
    if kwargs != [] {
      var init := kwargs[..|kwargs| - 1];
      if name != AttrName(kwargs[|kwargs| - 1].0, kind) {
        AssignedOnlyNamed(attrs, init, kind, name);
        if name !in attrs {
          var j :| 0 <= j < |init| && AttrName(init[j].0, kind) == name;
          assert kwargs[j] == init[j];
        }
      }
    }
  }

  /** `rstrip("*")` removes exactly a run of trailing stars. */
  lemma {:induction false} RStripStars(u: string, stars: string)
    requires |u| > 0 ==> u[|u| - 1] != '*'
    requires forall i :: 0 <= i < |stars| ==> stars[i] == '*'
    ensures RStrip(u + stars, '*') == u
    decreases |stars|
  {
    if stars != [] {
      var shorter := stars[..|stars| - 1];
      assert (u + stars)[..|u + stars| - 1] == u + shorter;
      RStripStars(u, shorter);
    } else {
      assert u + stars == u;
    }
  }

  /**
   * `Options` strips the inherited marker, so `visual-activity*` fills
   * `visual_activity`; a scope record keeps the stars in the attribute name.
   */
  lemma InheritedMarker(key: string, stars: string, kind: RecordKind)
    requires |key| > 0 && key[|key| - 1] != '*'
    requires forall i :: 0 <= i < |stars| ==> stars[i] == '*'
    ensures AttrName(key + stars, AllScopes) == AttrName(key, kind)
    ensures kind != AllScopes ==> AttrName(key + stars, kind) == AttrName(key, kind) + stars
  {
    var u := ReplaceChar(key, '-', '_');
    assert ReplaceChar(key + stars, '-', '_') == u + stars;
    RStripStars(u, stars);
    if kind == AllScopes {
      RStripStars(u, "");
      assert u + "" == u;
    }
  }

  /** A scope record's object: the constructor is the only writer of its attributes. */
  class OptionRecord {
    const kind: RecordKind
    var attrs: map<string, OptionValue>

    /** `ServerOptions(**kwargs)` and its siblings: `setattr` each keyword in turn. */
    constructor (kind: RecordKind, kwargs: seq<(string, OptionValue)>)
      ensures this.kind == kind
      ensures attrs == Assigned(map[], kwargs, kind)
    {
      this.kind := kind;
      attrs := map[];
      new;
      for i := 0 to |kwargs|
        invariant attrs == Assigned(map[], kwargs[..i], kind)
      {
        assert kwargs[..i + 1][..i] == kwargs[..i];
        attrs := attrs[AttrName(kwargs[i].0, kind) := kwargs[i].1];
      }
      assert kwargs[..|kwargs|] == kwargs;
    }

    /** `getattr(record, name)`: `None` stands for AttributeError. */
    method Get(name: string) returns (r: Option<OptionValue>)
      ensures r == Attribute(kind, attrs, name)
    {
      if name in attrs {
        r := Some(attrs[name]);
      } else if name in NoneFields(kind) {
        r := Some(NoValue);
      } else {
        r := None;
      }
    }
  }

  /** `user_keys` is declared with `default_factory`, not `default=None`. */
  lemma UserKeysHasNoDefault()
    ensures "user_keys" !in NoneFields(ServerRecord)
  {
  }

  /** A `default_factory` field no keyword set cannot be read: `ServerOptions().user_keys` raises. */
  lemma UnsetFactoryField(kwargs: seq<(string, OptionValue)>)
    requires forall j :: 0 <= j < |kwargs| ==> AttrName(kwargs[j].0, ServerRecord) != "user_keys"
    ensures "user_keys" in ServerFactoryFields
    ensures Attribute(ServerRecord, Assigned(map[], kwargs, ServerRecord), "user_keys") == None
  {
    UserKeysHasNoDefault();
    AssignedUntouched(map[], kwargs, ServerRecord, "user_keys");
  }

  /** A `default=None` field no keyword set reads as `None`. */
  lemma UnsetNoneField(kwargs: seq<(string, OptionValue)>, kind: RecordKind)
    requires kind == ServerRecord || kind == AllScopes
    requires forall j :: 0 <= j < |kwargs| ==> AttrName(kwargs[j].0, kind) != "backspace"
    ensures Attribute(kind, Assigned(map[], kwargs, kind), "backspace") == Some(NoValue)
  {
    AssignedUntouched(map[], kwargs, kind, "backspace");
  }

  /** A keyword that names no field is stored all the same; nothing is rejected. */
  lemma UnknownKeywordStored(value: OptionValue)
    ensures Attribute(PaneRecord, Assigned(map[], [("no-op", value)], PaneRecord), "no_op") == Some(value)
  {
    assert ReplaceChar("no-op", '-', '_') == "no_op";
    AssignedLastWins(map[], [("no-op", value)], PaneRecord, 0);
  }
}
