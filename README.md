# libtmux options, hooks and pane commands in Dafny

This project models the text layer of libtmux, the Python binding for tmux.
That layer covers three things:

- it builds the argv of tmux's option, hook and pane commands;
- it parses the lines tmux prints back into typed values;
- it holds them in the indexed-array and record types libtmux defines.

The modelled sources are:

- `src/libtmux/_internal/constants.py`:
  - `TmuxArray`, an int-indexed dict listed in ascending index order;
  - the `__init__` of the option records (`ServerOptions`, `SessionOptions`, `WindowOptions`, `PaneOptions`, `Options`);
  - the `Hooks` record and `Hooks.from_stdout`.
- `src/libtmux/constants.py`: `OptionScope` and `OPTION_SCOPE_FLAG_MAP`.
- `src/libtmux/options.py`:
  - `handle_option_error`;
  - `set_option`, `unset_option`, `show_options` and `show_option`, including the parser of `show-options` lines (plain values, digit coercion, `name[index]` arrays, `terminal-features` term maps).
- `src/libtmux/hooks.py`:
  - `run_hook`, `set_hook`, `unset_hook`, `show_hooks`, `_show_hook` and `show_hook`;
  - the tmux-3.2 gate that drops `-p`/`-w` scope flags with a warning.
- `src/libtmux/pane.py`:
  - `Pane.cmd`'s rule that adds `-t <pane id>` unless some argument mentions `-t`;
  - `resize`, `capture_pane`, `send_keys` (with `enter`) and `kill`.

A command method takes tmux's reply as input: its `stdout` lines, and its `stderr` lines wherever the source reads them (`show_options` and `show_hooks` never do).
It returns three things:

- the argv it would send;
- the value or exception it would produce;
- for the warning paths, whether it would warn.

Several Python library behaviours are modelled in their own modules:

- `ShellWords`: POSIX `shlex.split`, with quotes, backslashes and the "No closing quotation" error.
- `KeyPattern`: the anchored `re.match` of `(?P<hook>[\w-]+)(\[(?P<index>\d+)\])?`.
- `Text`: `str.isdigit`, `int()`, `str()`, `split`, `replace` and `rstrip`.

Exceptions are values of error datatypes. Where a scope flag or a version matters, the same fact is passed in as a parameter:

- the entity's default scope;
- the hook flag map;
- the resize direction map;
- the tmux version probes (`has_lt_version("3.2")`, `has_gte_version("3.1")`).

Modules follow the source: `Scopes` (constants.py), `TmuxArrays`, `OptionValues` and `OptionRecords` (the records in `_internal/constants.py`), `HookRecords` (`Hooks`), `CommandFlags` (the shared `flags.append("-x")` pattern), `OptionCommands` (options.py), `HookCommands` (hooks.py) and `PaneCommands` (pane.py). `Wrappers` holds `Option` and `Result`.

Points where the model follows the code rather than the documentation:

- The option records' `__init__` calls `setattr` on any keyword. An unknown keyword is therefore stored, not rejected (`OptionRecords.UnknownKeywordStored`). `Hooks` keeps the generated dataclass constructor, so `from_stdout` does reject a line naming no hook field (`HookRecords.UnknownHookRejected`).
- `Hooks.from_stdout` calls `int(match["index"])` before its `is not None` test. A hook line without `[index]` is therefore an error (`HookRecords.LineWithoutIndex`), and the `append` branch can never run.
- `set_hook` accepts `g` but never reads it. Only `_global` produces `-g` (`HookCommands.SetHook`). `show_hook` does not pass `_global` on to `_show_hook` (`HookCommands.ShowHook`).
- `show_options` and `show_hooks` never look at stderr. `show_option`, `run_hook`, `set_hook`, `unset_hook` and `_show_hook` (and so `show_hook`) raise through `handle_option_error` when stderr is non-empty.
- `Session` maps to the empty string in `OPTION_SCOPE_FLAG_MAP`, so a Session-scoped command carries an empty word in its argv (`Scopes.ScopeWords`).
- `Pane.cmd` tests whether `-t` occurs anywhere inside any argument. Key text such as `ls -t` therefore suppresses the pane's own target (`PaneCommands.KeysMentioningDashT`).

## Model

| member | source | states |
|---|---|---|
| Scopes.ScopeFlag | src/libtmux/constants.py:15-20 | Server, Session, Window and Pane map to `-s`, the empty word, `-w` and `-p`, each in both directions |
| Scopes.ScopeFlagInjective | src/libtmux/constants.py:15-20 | no two scopes share a flag |
| Scopes.Resolve | src/libtmux/options.py:110-111 | the default-scope sentinel becomes the entity's default scope; an explicit scope is kept; `None` stays none |
| Scopes.ScopeWords | src/libtmux/options.py:151-155 | a resolved scope adds exactly its mapped flag; no scope adds nothing |
| TmuxArrays.Greatest | src/libtmux/_internal/constants.py:19-21 | `max(keys)` is a key and bounds every key |
| TmuxArrays.InsertAscendingCount | src/libtmux/_internal/constants.py:23-28 | inserting a key into the sorted view keeps every key once and adds the new one |
| TmuxArrays.InsertAscendingSorted | src/libtmux/_internal/constants.py:23-28 | inserting into an ascending key list keeps it ascending |
| TmuxArrays.AscendingTail | src/libtmux/_internal/constants.py:23-25 | dropping the smallest key of an ascending list leaves it ascending (a step of `InsertAscendingSorted`) |
| TmuxArrays.SortedKeys | src/libtmux/_internal/constants.py:23-25 | `sorted(self.keys())`, built by insertion; its contract gives the length, and `SortedKeysSound` and `AscendingUnique` state that it is the ascending permutation of the keys |
| TmuxArrays.SortedKeysSound | src/libtmux/_internal/constants.py:23-28 | `sorted(self.keys())` is ascending and a permutation of the keys |
| TmuxArrays.AscendingUnique | src/libtmux/_internal/constants.py:23-28 | two ascending orderings of the same keys are equal, so the sorted view is unique |
| TmuxArrays.SortedKeysOrderIndependent | src/libtmux/_internal/constants.py:23-28 | the sorted view does not depend on the order keys were inserted in |
| TmuxArrays.SortedKeysAppendGreater | src/libtmux/_internal/constants.py:19-21 | a key above all others goes last in the sorted view |
| TmuxArrays.ValuesByIndexAt | src/libtmux/_internal/constants.py:27-28 | `as_list()` has one entry per key, and the entry at a key's sorted position is that key's value |
| TmuxArrays.ValuesByIndex | src/libtmux/_internal/constants.py:27-28 | the values listed in a given key order; `ValuesByIndexAt`, `ValuesOrderIndependent`, `ValuesAfterAppend` and `ValuesAfterOverwrite` state its properties |
| TmuxArrays.ValuesOrderIndependent | src/libtmux/_internal/constants.py:27-28 | `as_list()` depends only on the key-value pairs, not on insertion order |
| TmuxArrays.ValuesAfterAppend | src/libtmux/_internal/constants.py:19-21 | storing at an index above all others appends the value to `as_list()` |
| TmuxArrays.ValuesAfterOverwrite | src/libtmux/_internal/constants.py:16-17 | overwriting an existing index changes exactly that position of `as_list()` |
| TmuxArrays.TmuxArray.constructor | src/libtmux/_internal/constants.py:13-14 | a new array is empty |
| TmuxArrays.TmuxArray.Add | src/libtmux/_internal/constants.py:16-17 | `self[index] = value`: the map gets the value; a new index joins the insertion order at the end, an existing one keeps its place |
| TmuxArrays.TmuxArray.Append | src/libtmux/_internal/constants.py:19-21 | on an empty array `max` fails and nothing changes; otherwise the value is stored at `max + 1`, a fresh index, and `as_list()` grows by exactly that value at the end |
| TmuxArrays.TmuxArray.IterValues | src/libtmux/_internal/constants.py:23-25 | the generator yields exactly `as_list()` |
| TmuxArrays.TmuxArray.AsList | src/libtmux/_internal/constants.py:27-28 | `as_list()`: the values by ascending index; `Add`, `Append` and `IterValues` promise their results in terms of it, and `ValuesByIndexAt` states what it holds |
| TmuxArrays.NonContiguousIndices | src/libtmux/_internal/constants.py:13-14 | indices stored out of order and with gaps are listed by ascending index, without filling the gaps |
| OptionValues.Coerce | src/libtmux/options.py:350-353 | a value becomes an int exactly when it is non-empty and all digits, and then it is that number; otherwise it is the same string |
| OptionValues.CoerceNumber | src/libtmux/options.py:350-351 | the decimal text of any number coerces back to that number |
| OptionValues.CoerceLeadingZeros | src/libtmux/options.py:350-351 | `"007"` becomes 7 |
| OptionValues.CoerceNonDigits | src/libtmux/options.py:352-353 | the empty string and `"50%"` stay strings |
| OptionRecords.AttrName | src/libtmux/_internal/constants.py:237-243 | every `-` becomes `_` and nothing else changes; for `Options`, trailing `*` are also removed, and every dropped character is a `*` |
| OptionRecords.Attribute | src/libtmux/_internal/constants.py:32-53 | reading an attribute gives its assigned value; an unassigned `default=None` field reads as None; any other unassigned name has no value |
| OptionRecords.AssignedLastWins | src/libtmux/_internal/constants.py:54-58 | when several keywords map to one attribute, the last one decides its value |
| OptionRecords.AssignedUntouched | src/libtmux/_internal/constants.py:54-58 | an attribute no keyword names keeps what it had |
| OptionRecords.AssignedOnlyNamed | src/libtmux/_internal/constants.py:54-58 | every attribute present was there already or is named by some keyword |
| OptionRecords.Assigned | src/libtmux/_internal/constants.py:54-58 | the `setattr` loop over the keywords; its properties are the three lemmas above (`AssignedLastWins`, `AssignedUntouched`, `AssignedOnlyNamed`) |
| OptionRecords.RStripStars | src/libtmux/_internal/constants.py:237-243 | `rstrip("*")` removes exactly the trailing run of stars |
| OptionRecords.InheritedMarker | src/libtmux/_internal/constants.py:237-243 | `Options` sets the same attribute for `name*` as for `name`; the scope records keep the star |
| OptionRecords.OptionRecord.constructor | src/libtmux/_internal/constants.py:54-58 | `__init__` assigns every keyword in turn under its attribute name |
| OptionRecords.OptionRecord.Get | src/libtmux/_internal/constants.py:32-53 | attribute reads follow `Attribute` on the constructed record |
| OptionRecords.UserKeysHasNoDefault | src/libtmux/_internal/constants.py:52 | `user_keys` has a factory default, not `None` |
| OptionRecords.UnsetFactoryField | src/libtmux/_internal/constants.py:52-58 | a factory field that no keyword assigned is not an assigned attribute of the record |
| OptionRecords.UnsetNoneField | src/libtmux/_internal/constants.py:35 | an unassigned `backspace` reads as None on `ServerOptions` and on `Options` |
| OptionRecords.UnknownKeywordStored | src/libtmux/_internal/constants.py:222-226 | a keyword naming no field is stored under its underscored name |
| HookRecords.ParseHookLine | src/libtmux/_internal/constants.py:436-457 | a line is skipped exactly when it is empty or has no space; a kept entry's command is the text after the first space and its hook name has no `-`; the pattern fails exactly when the name part does not start with a name character |
| HookRecords.Store | src/libtmux/_internal/constants.py:451-457 | `output[hook][index] = cmd`: a new hook starts a fresh array; other hooks and other indices are unchanged |
| HookRecords.Collect | src/libtmux/_internal/constants.py:436-457 | the loop over the lines into `output`; `CollectFailsIffSomeLineFails`, `ErrorPersists`, `SkippedLine` and `LaterLineOverwrites` state its properties |
| HookRecords.BuildHooks | src/libtmux/_internal/constants.py:459 | `cls(**output)` succeeds exactly when every key is a hook field; every field then holds its parsed array, or an empty one |
| HookRecords.HooksOf | src/libtmux/_internal/constants.py:433-459 | `from_stdout` as a value: `Collect` then `BuildHooks`; `IndexedLine`, `LineWithoutIndex`, `PercentName` and `UnknownHookRejected` state what it returns for each kind of line |
| HookRecords.FromStdout | src/libtmux/_internal/constants.py:433-459 | the loop computes `HooksOf(lines)` |
| HookRecords.ErrorPersists | src/libtmux/_internal/constants.py:436-445 | once a line fails, the whole parse fails with that error |
| HookRecords.SkippedLine | src/libtmux/_internal/constants.py:437-438 | an empty line or one with no space changes nothing |
| HookRecords.CollectFailsIffSomeLineFails | src/libtmux/_internal/constants.py:436-457 | the parse fails exactly when some line fails, and the error is that of the first failing line |
| HookRecords.LaterLineOverwrites | src/libtmux/_internal/constants.py:451-457 | a parsed line sets its hook's index to its command and leaves every other hook and index as it was |
| HookRecords.IndexedKeyHasNoSpace | src/libtmux/_internal/constants.py:439 | a `name[digits]` key contains no space, so the first space ends it |
| HookRecords.IndexedLine | src/libtmux/_internal/constants.py:439-457 | `name[digits] cmd` parses to the underscored name, the digits' value and `cmd` |
| HookRecords.LineWithoutIndex | src/libtmux/_internal/constants.py:447 | a hook line without `[index]` raises, because `int(None)` runs first |
| HookRecords.PercentName | src/libtmux/_internal/constants.py:441-445 | a `%`-prefixed name fails the match, so the `lstrip("%")` never sees a `%` |
| HookRecords.UnknownHookRejected | src/libtmux/_internal/constants.py:459 | a parsed name that is not a hook field makes the constructor fail |
| KeyPattern.NameRun | src/libtmux/_internal/constants.py:441-444 | the greedy `[\w-]+` run is the longest prefix of name characters |
| KeyPattern.DigitRun | src/libtmux/options.py:323-326 | the greedy `\d+` run is the longest prefix of digits |
| KeyPattern.MatchKey | src/libtmux/options.py:323-326 | there is no match exactly when the key is empty or starts with a non-name character; the hook group is the maximal name run; a captured index is digits |
| KeyPattern.MatchKeyIndex | src/libtmux/options.py:323-326 | a captured index sits in brackets right after the name |
| KeyPattern.MatchPlainName | src/libtmux/options.py:323-330 | a name followed by neither a name character nor `[` matches with no index |
| KeyPattern.MatchIndexedAt | src/libtmux/options.py:323-326 | a name run followed by `[`, a digit run and `]` matches with those two groups |
| KeyPattern.MatchIndexedName | src/libtmux/options.py:323-331 | `name[digits]...` matches with that name and those digits |
| KeyPattern.NameRunOf | src/libtmux/options.py:323-326 | the name run of `name + tail` is `name` when the tail starts with a non-name character |
| KeyPattern.DigitRunOf | src/libtmux/options.py:323-326 | the digit run of `digits + tail` is `digits` when the tail starts with a non-digit |
| ShellWords.LexPlainRun | src/libtmux/options.py:322 | plain characters extend the current word unchanged |
| ShellWords.Lex | src/libtmux/options.py:322 | the `shlex` state machine over blank, word and quoted modes; `LexPlainRun`, `LexQuotedRun`, `LexBlankRun`, `LexPlainWord` and `LexJoinedWords` state what each run of characters does |
| ShellWords.Split | src/libtmux/options.py:322 | `shlex.split`; `PlainPair`, `QuotedPair`, `BlankLine`, `UnclosedSingleQuote` and `SplitJoinWords` state its results |
| ShellWords.LexQuotedRun | src/libtmux/options.py:322 | inside quotes every character but the closing quote (and a backslash in `"`) is kept |
| ShellWords.LexBlankRun | src/libtmux/options.py:322 | runs of blanks between words produce nothing |
| ShellWords.PlainWord | src/libtmux/options.py:322 | one plain word splits to itself |
| ShellWords.PlainPair | src/libtmux/options.py:322 | `key value` splits into exactly those two words |
| ShellWords.QuotedPair | src/libtmux/options.py:322 | `key 'value'` or `key "value"` splits to the key and the unquoted value, which may be empty |
| ShellWords.BlankLine | src/libtmux/options.py:342-343 | a blank line splits to no words, which makes the two-word unpacking fail |
| ShellWords.UnclosedSingleQuote | src/libtmux/options.py:342-343 | an unclosed single quote is an error |
| ShellWords.JoinWordsHead | src/libtmux/options.py:322 | a space-joined word list is its first word, a space, and the join of the rest |
| ShellWords.LexPlainWord | src/libtmux/options.py:322 | a plain word read from blank mode is accumulated whole |
| ShellWords.LexJoinedWords | src/libtmux/options.py:322 | the lexer reads a space-joined list of plain words back as that list |
| ShellWords.SplitJoinWords | src/libtmux/options.py:322 | `shlex.split(' '.join(ws)) == ws` for non-empty plain words: `JoinWords` is the reference join `Split` inverts |
| Text.NatToString | src/libtmux/options.py:350-351 | `str()` of a number is digits without a leading zero |
| Text.NatToStringRoundTrip | src/libtmux/options.py:350-351 | `int(str(n)) == n` |
| Text.IntToString | src/libtmux/pane.py:217 | `str()` of a negative number is a minus sign and the digits of its magnitude |
| Text.IsDigits | src/libtmux/options.py:350 | `str.isdigit()` on ASCII: non-empty and all digits; `OptionValues.Coerce` states that it decides the int branch |
| Text.DigitsValue | src/libtmux/options.py:351 | `int()` of a digit string; `NatToStringRoundTrip` and `OptionValues.CoerceNumber` state that it inverts `str()` |
| Text.EndsWith | src/libtmux/pane.py:223 | `str.endswith`; `PaneCommands.DimensionError` states how the `%` test decides the resize error |
| Text.HasSubstring | src/libtmux/options.py:54-59 | the `in` test on strings; `OptionCommands.SubstringWitness` and `PaneCommands.DashTChars` state its properties |
| Text.ReplaceChar | src/libtmux/_internal/constants.py:56-57 | `replace("-", "_")` changes exactly the `-` characters |
| Text.RStrip | src/libtmux/_internal/constants.py:241-242 | `rstrip(c)` is a prefix that does not end in `c`, and what it drops is all `c` |
| Text.Find | src/libtmux/options.py:333 | the position of the first occurrence of a character, or none exactly when it is absent |
| Text.SplitOnce | src/libtmux/options.py:333 | `split(c, maxsplit=1)` gives two parts exactly when `c` occurs; they rebuild the text, and the first part has no `c` |
| Text.SplitAll | src/libtmux/options.py:336 | `split(c)` gives at least one part, none containing `c` |
| Text.SplitAllJoin | src/libtmux/options.py:336 | joining the parts of `split(c)` with `c` rebuilds the text |
| Text.JoinSplitAll | src/libtmux/options.py:336 | splitting a join of `c`-free parts gives the parts back |
| Text.SplitOnceAt | src/libtmux/_internal/constants.py:439 | `a + c + b` with no `c` in `a` splits into `a` and `b` |
| Text.FindAfterFree | src/libtmux/_internal/constants.py:439 | the first `c` in `a + c + b` is at `|a|` when `a` has none |
| CommandFlags.Switch | src/libtmux/options.py:119-149 | a flag word is `-` followed by its letter |
| CommandFlags.AppendSwitches | src/libtmux/options.py:119-149 | the run of `if x: flags.append("-x")` steps appends the switched-on flags in order |
| CommandFlags.SwitchesMember | src/libtmux/options.py:119-149 | a flag is present exactly when its switch is on |
| CommandFlags.SwitchAt | src/libtmux/options.py:119-149 | with distinct letters, each switch's flag is present exactly when it is on |
| CommandFlags.SwitchAbsent | src/libtmux/options.py:119-149 | a letter no switch uses never appears |
| CommandFlags.NotAScopeFlag | src/libtmux/options.py:151-155 | a switch letter other than `s`, `w`, `p` is never a scope flag |
| CommandFlags.SwitchesStep | src/libtmux/options.py:119-149 | one more step adds its flag exactly when its condition holds |
| CommandFlags.SwitchesAppend | src/libtmux/options.py:119-149 | running two tables one after the other is running their concatenation |
| CommandFlags.SwitchesPresent | src/libtmux/options.py:119-149 | with distinct letters, every flag of the table is present exactly when its condition holds |
| CommandFlags.SwitchesAroundScope | src/libtmux/options.py:292-315 | switches before and after a scope flag: each is present exactly when its condition holds, whatever the scope |
| CommandFlags.ScopedSwitches | src/libtmux/options.py:292-315 | builds switches, scope flag, switches in that order, each switch present exactly when its condition holds |
| OptionCommands.HandleOptionError | src/libtmux/options.py:54-61 | unknown, invalid, ambiguous and generic errors, each in both directions and in that priority order |
| OptionCommands.SubstringWitness | src/libtmux/options.py:54 | a message containing a phrase is recognised as containing it |
| OptionCommands.UnknownOptionWins | src/libtmux/options.py:54-55 | any message containing "unknown option" is UnknownOption, whatever else it contains |
| OptionCommands.InvalidOptionReported | src/libtmux/options.py:56-57 | "invalid option" without "unknown option" is InvalidOption |
| OptionCommands.AmbiguousOptionReported | src/libtmux/options.py:58-59 | "ambiguous option" without the two earlier phrases is AmbiguousOption |
| OptionCommands.CheckStderr | src/libtmux/options.py:164-165 | an error exactly when stderr is non-empty, classified from its first line |
| OptionCommands.OptionWord | src/libtmux/options.py:114-117 | True goes to tmux as `on`, False as `off`, anything else as its `str()` |
| OptionCommands.IntValueWord | src/libtmux/options.py:157-162 | an int value is sent as decimal text that reads back as the same number |
| OptionCommands.Render | src/libtmux/hooks.py:153-158 | the `str()` tmux's command wrapper applies to a value argument; `OptionWord` and `HookCommands.SetHook` state where it is used, and `IntValueWord` that an int reads back |
| OptionCommands.SetOptionSwitches | src/libtmux/options.py:119-149 | set_option's flags u U F o q a g have distinct letters, none of them a scope letter |
| OptionCommands.SetOption | src/libtmux/options.py:110-165 | the argv is `set-option`, the flags u U F o q a g in source order, the scope flag, the option and its value word; each flag is present exactly when its argument is true; `g` overrides `_global` and warns; stderr raises |
| OptionCommands.UnsetOptionSwitches | src/libtmux/options.py:198-210 | unset_option's flags U u q g have distinct letters, none of them a scope letter |
| OptionCommands.UnsetOption | src/libtmux/options.py:193-225 | the argv is `set-option`, then `-U` when unsetting panes (else `-u`), `-q`, `-g`, the scope flag and the option; each flag is present exactly when asked for; stderr raises |
| OptionCommands.ParseOptionLine | src/libtmux/options.py:320-353 | one `show-options` line preserves the shape invariant: term maps only under `terminal-features`, arrays never there |
| OptionCommands.ParseOptionLineKeys | src/libtmux/options.py:320-353 | one line keeps every key, adds only the keys it can touch, and leaves every other key unchanged |
| OptionCommands.StoreIndexed | src/libtmux/options.py:332-346 | the `name[index] value` branch preserves the shape invariant and writes only the whole line or the name |
| OptionCommands.ParseOptionLines | src/libtmux/options.py:319-355 | the parsed dict is well shaped |
| OptionCommands.ParseOptionLinesKeys | src/libtmux/options.py:319-355 | every key of the parsed dict comes from some line |
| OptionCommands.ShowOptionsSwitches | src/libtmux/options.py:294-315 | show_options' flags g A H v q have distinct letters, none of them a scope letter, with `-g` first |
| OptionCommands.ShowOptions | src/libtmux/options.py:289-355 | the argv is `show-options`, `-g` when `g` or `_global`, the scope flag, then A H v q when asked for; `g` warns; the result is the parse of stdout |
| OptionCommands.ReadOptionLines | src/libtmux/options.py:319-355 | the loop over stdout computes `ParseOptionLines` |
| OptionCommands.ReadOptionLine | src/libtmux/options.py:321-353 | the body of the loop computes `ParseOptionLine` |
| OptionCommands.StoreIndexedLine | src/libtmux/options.py:332-346 | the indexed branch of the loop body computes `StoreIndexed` |
| OptionCommands.ParseOptionLinesStep | src/libtmux/options.py:320 | parsing one more line is one `ParseOptionLine` step on what came before |
| OptionCommands.TwoOptionLines | src/libtmux/options.py:319-320 | two lines of output are two steps from the empty dict |
| OptionCommands.NameCharsArePlain | src/libtmux/options.py:322-326 | option-name characters need no shell quoting |
| OptionCommands.PlainOptionLine | src/libtmux/options.py:322-353 | `name value` stores the coerced value under the name |
| OptionCommands.NumericOptionLine | src/libtmux/options.py:350-351 | `name 42` stores the int 42 |
| OptionCommands.QuotedOptionLine | src/libtmux/options.py:322-353 | a quoted value is stored unquoted and coerced |
| OptionCommands.EmptyQuotedValue | src/libtmux/options.py:322-353 | `copy-command ''` stores the empty string, not None |
| OptionCommands.BareOptionLine | src/libtmux/options.py:342-343 | a line that is only a name stores None under the whole line |
| OptionCommands.UnclosedQuoteOptionLine | src/libtmux/options.py:344-346 | a line that does not split stores None under the whole line |
| OptionCommands.IndexedWords | src/libtmux/options.py:322-331 | `name[digits] value` splits into the key and value, and the key matches with that name and index |
| OptionCommands.IndexedOptionLine | src/libtmux/options.py:322-331 | a `name[digits] value` line takes the indexed branch with the index's value |
| OptionCommands.ArrayOptionLine | src/libtmux/options.py:337-341 | an indexed line sets that index of the name's array, starting a new array when there is none |
| OptionCommands.ArrayOverScalarLine | src/libtmux/options.py:337-346 | an indexed line over a name already holding a string or int fails the item assignment and stores None under the whole line |
| OptionCommands.FeaturesOptionLine | src/libtmux/options.py:332-336 | `terminal-features[i] term:f1:f2` maps `term` to its `:`-separated features |
| OptionCommands.FeaturesWithoutColon | src/libtmux/options.py:333-346 | a `terminal-features` value without `:` fails the unpacking and stores None under the whole line |
| OptionCommands.TwoFeatureLines | src/libtmux/options.py:319-341 | two `terminal-features` lines for different terms yield one map holding both |
| OptionCommands.ShowOptionValue | src/libtmux/options.py:412-426 | stderr raises the classified error; no output gives None; a first line `shlex` cannot split raises its error, and one with fewer than two words fails the index; otherwise the second word of the first line, coerced |
| OptionCommands.ShowOptionPlain | src/libtmux/options.py:420-424 | the first line's value is returned, coerced; later lines are ignored |
| OptionCommands.ShowOptionNumberRoundTrip | src/libtmux/options.py:420-424 | a number set with `set_option` is read back as that int |
| OptionCommands.ShowOptionSwitches | src/libtmux/options.py:389-406 | show_option's flags g q A H have distinct letters, none of them a scope letter, with `-g` first |
| OptionCommands.ShowOption | src/libtmux/options.py:384-426 | the argv is `show-options`, `-g` when `g` or `_global`, the scope flag, then q A H when asked for, then the option; `g` warns; the result is `ShowOptionValue` |
| HookCommands.HookScopeWords | src/libtmux/hooks.py:54-64 | the mapped scope flag is added, except that `-p` and `-w` on tmux before 3.2 are dropped with a warning |
| HookCommands.GateWithScopeFlags | src/libtmux/hooks.py:54-64 | with the option flag map, only Window and Pane are gated, and only on old tmux |
| HookCommands.RunHook | src/libtmux/hooks.py:49-73 | the argv is `set-hook -R`, the gated scope flag and the hook; stderr raises |
| HookCommands.SetHookSwitches | src/libtmux/hooks.py:114-140 | set_hook's flags u R F o q a g have distinct letters |
| HookCommands.SetHook | src/libtmux/hooks.py:109-162 | the argv is `set-hook`, the flags u R F o q a g in source order, the gated scope flag, the hook and the value; each flag is present exactly when its argument is true; `g` is not read |
| HookCommands.UnsetHook | src/libtmux/hooks.py:189-221 | the argv is `set-hook -u`, then `-q` and `-g` when asked for, the gated scope flag and the hook; stderr raises |
| HookCommands.HookValueLine | src/libtmux/hooks.py:298-307 | a line yields a value exactly when it splits into two words whose second is all digits, and then it is that number |
| HookCommands.HookValuesKeys | src/libtmux/hooks.py:296-309 | a hook is in the result exactly when some line gives it a digit value |
| HookCommands.HookValuesLastWins | src/libtmux/hooks.py:296-309 | the last digit line for a hook decides its value |
| HookCommands.HookValues | src/libtmux/hooks.py:296-307 | the `show_hooks` loop as a value; `HookValuesKeys`, `HookValuesLastWins`, `DigitHookLine`, `TextHookLineDropped` and `MalformedHookLineDropped` state its properties |
| HookCommands.DigitHookLine | src/libtmux/hooks.py:306-307 | `name 3` sets the hook to 3 |
| HookCommands.TextHookLineDropped | src/libtmux/hooks.py:306-307 | a hook whose value is not digits is left out of the result |
| HookCommands.MalformedHookLineDropped | src/libtmux/hooks.py:298-302 | a line that does not split into exactly two words is left out |
| HookCommands.ShowHooksSwitches | src/libtmux/hooks.py:287-292 | show_hooks' flags v q have distinct letters |
| HookCommands.ShowHooks | src/libtmux/hooks.py:267-309 | the argv is `show-hooks`, `-g` when `_global`, the gated scope flag, then v q when asked for; the result is `HookValues` of stdout |
| HookCommands.ReadHookLines | src/libtmux/hooks.py:296-309 | the loop over stdout computes `HookValues` |
| HookCommands.ShowHookRaw | src/libtmux/hooks.py:331-362 | the argv is `show-hooks`, `-g` when `_global`, the gated scope flag, `-q` when asked for, then the hook; non-empty stderr raises the classified error, and otherwise stdout is returned as it is |
| HookCommands.ShowHookValue | src/libtmux/hooks.py:384-392 | stderr raises; a failing `from_stdout` propagates; otherwise the attribute named by the underscored hook, present exactly when it is a hook field |
| HookCommands.ShowHookOneLine | src/libtmux/hooks.py:384-392 | one `name[i] cmd` line reads back as the array mapping `i` to `cmd` |
| HookCommands.ShowHook | src/libtmux/hooks.py:364-392 | the argv is that of `_show_hook` without `-g`; the result is `ShowHookValue` |
| PaneCommands.TargetArgs | src/libtmux/pane.py:145-146 | arguments that mention `-t` are kept as they are; otherwise `-t <pane id>` goes in front |
| PaneCommands.PaneCommand | src/libtmux/pane.py:145-148 | the command word is followed by the targeted arguments |
| PaneCommands.NamesTarget | src/libtmux/pane.py:145 | `any("-t" in str(x) for x in args)`; `DashTNamesTarget` and `TargetAdded` state when it holds |
| PaneCommands.DashTNamesTarget | src/libtmux/pane.py:145 | `-t <id>` counts as mentioning `-t` |
| PaneCommands.TargetArgsSound | src/libtmux/pane.py:145-146 | the result always mentions `-t` and ends with the caller's arguments unchanged |
| PaneCommands.TargetArgsIdempotent | src/libtmux/pane.py:145-146 | applying the target rule twice is the same as once |
| PaneCommands.DashTChars | src/libtmux/pane.py:145 | a word containing `-t` has both a `-` and a `t` |
| PaneCommands.TargetAdded | src/libtmux/pane.py:145-146 | arguments none of which has both a `-` and a `t` get the pane's target |
| PaneCommands.DecimalChars | src/libtmux/pane.py:285-287 | `str()` of an int is made of `-` and digits |
| PaneCommands.DecimalHasNoT | src/libtmux/pane.py:215-218 | `str()` of an int has no `t` |
| PaneCommands.Given | src/libtmux/pane.py:219-229 | the truthiness of `height` and `width`: absent, `""` and `0` are false; `ResizeArgs` and `ResizeOneBranch` state which branch it selects |
| PaneCommands.DimensionText | src/libtmux/pane.py:227 | the text of `f"-y{height}"` and `f"-x{width}"`; `PercentHeight` states the word sent for a percentage and an int |
| PaneCommands.DimensionError | src/libtmux/pane.py:221-234 | an int is never checked; a `%` string fails exactly on tmux before 3.1; any other string fails exactly when it is not all digits |
| PaneCommands.ResizeArgs | src/libtmux/pane.py:209-244 | a direction needs an adjustment and gives the mapped flag and the amount; else a given height or width is checked, height first, and gives `-y`/`-x` words; else `-Z` for zoom, else `-M` for mouse; `-T` comes last when trimming |
| PaneCommands.ResizeOneBranch | src/libtmux/pane.py:219-241 | `-Z` appears exactly when zooming with no size given; `-M` exactly when using the mouse with neither zoom nor size |
| PaneCommands.PercentNeedsTmux31 | src/libtmux/pane.py:221-224 | a percentage height on tmux before 3.1 raises VersionTooLow |
| PaneCommands.PercentHeight | src/libtmux/pane.py:219-236 | on tmux 3.1 a percentage height is sent as `-y<n>%`, followed by a non-zero int width as `-x<n>` |
| PaneCommands.TextDimensionRejected | src/libtmux/pane.py:229-234 | a width that is neither digits nor a percentage raises RequiresDigitOrPercentage |
| PaneCommands.TrimBelowLast | src/libtmux/pane.py:243-244 | the last argument is `-T` exactly when trimming below |
| PaneCommands.Resize | src/libtmux/pane.py:209-249 | nothing is sent when the arguments are invalid, and the error is the one `ResizeArgs` names; otherwise `resize-pane` goes out through the target rule, and stderr raises |
| PaneCommands.LineText | src/libtmux/pane.py:283-287 | a bound's text is `-` or a decimal number |
| PaneCommands.CaptureArgs | src/libtmux/pane.py:283-287 | capture_pane's arguments start with `-p` |
| PaneCommands.BoundsFlags | src/libtmux/pane.py:283-287 | `-S` appears exactly when a start is given and `-E` exactly when an end is given |
| PaneCommands.CaptureArgsTargeted | src/libtmux/pane.py:145-148 | no word of capture_pane's arguments mentions `-t`, so the pane's target goes in front |
| PaneCommands.CaptureCommand | src/libtmux/pane.py:283-288 | the argv is `capture-pane -t <id>` and the arguments, with `-S` and `-E` after the target exactly when the bounds are given |
| PaneCommands.CapturePane | src/libtmux/pane.py:283-288 | the argv is `capture-pane -t <id> -p`, then `-S start` and `-E end` for the bounds given, each present exactly when given |
| PaneCommands.SendKeysCommands | src/libtmux/pane.py:333-341 | one `send-keys` with `-l` when literal and the text, space-prefixed when suppressing history, through the target rule; a second `send-keys -t <id> Enter` exactly when `enter` |
| PaneCommands.KeysWithoutT | src/libtmux/pane.py:333-338 | text with no `t` is sent as `send-keys -t <id> [-l] text` |
| PaneCommands.KeysMentioningDashT | src/libtmux/pane.py:145-146 | the keys `ls -t` are sent without the pane's target |
| PaneCommands.Kill | src/libtmux/pane.py:421-432 | the argv is `kill-pane -t <id>`, plus `-a` exactly when killing all the others; stderr raises |

## Left out

- Running tmux, and all I/O. A command's `stdout`, and its `stderr` where the source reads it, are inputs, and each operation returns the argv it would send.
- The tmux version probes (`has_lt_version`, `has_gte_version`) are boolean parameters. `HOOK_SCOPE_FLAG_MAP` and `RESIZE_ADJUSTMENT_DIRECTION_FLAG_MAP` are function parameters, because their definitions are not part of this model.
- `warnings.warn` is a boolean result. Logging (`logger.warning`) is not modelled.
- `\w` and `str.isdigit` are taken over ASCII letters, digits and `_`. Unicode letters and digits are not modelled.
- `shlex.split` is modelled in POSIX mode on spaces, tabs and newlines, with `'`, `"` and backslash escapes. Comment characters and the other shlex settings are not modelled.
- `show_options`' `values_only` output is parsed like the keyed output; the model does not separate the list return type.
- `TmuxArray`s inside parsed options and hooks are held as plain index maps. Aliasing between containers is not modelled, because the code never shares them.
- Python dict key order is not modelled for parsed options and hooks. Keys are a set.
- Values passed to `set_option`/`set_hook` are strings, ints or bools. The `str()` that `tmux_cmd` applies to each argv element is `Render`.
- `repr` of the records (`SkipDefaultFieldsReprMixin`) is not modelled.
- The deprecated `Pane` wrappers (`resize_pane`, `set_width`, `set_height`, `select_pane`), `display_message`, `split_window`, `clear`, `reset` and the `Pane` properties are not modelled. They are not part of the modelled core.
- `refresh()` after a successful resize re-reads pane attributes from tmux. That is I/O and is not modelled.
- OptionRecords.UnsetFactoryField: stated for `user_keys` of `ServerOptions` only. The other factory fields behave in the same way.
- HookCommands.ShowHookValue: `getattr(hooks, name, None)` on a name that is a method of `Hooks` rather than a field is not modelled. Every name that is not a field reads as None.
- OptionCommands.ParseOptionLine: states the shape invariant only. The key frame is stated by `ParseOptionLineKeys`, and the exact value for each kind of line by the line lemmas that sit beside it.
- OptionCommands.SetOption: the scope flag's position is fixed by the argv equation. Its membership is not restated for each scope.
- PaneCommands.Resize: `str(adjustment)` is modelled for an int adjustment only.
