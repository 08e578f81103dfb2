// src/libtmux/options.py: the argv that set_option, unset_option,
// show_options and show_option hand to tmux, what they do with tmux's
// stderr, and how the text tmux prints back is turned into option values.
// Running tmux is left out: its stdout and stderr are parameters.
module OptionCommands {
  import opened Wrappers
  import opened Text
  import opened Scopes
  import opened ShellWords
  import opened KeyPattern
  import opened OptionValues
  import opened CommandFlags

  /** The exceptions handle_option_error raises, most specific first. */
  datatype OptionErrorKind = UnknownOption | InvalidOption | AmbiguousOption | GenericOptionError

  /**
   * `handle_option_error`: classifies a tmux error message by the first of
   * "unknown option", "invalid option", "ambiguous option" it contains.
   */
  function HandleOptionError(error: string): (kind: OptionErrorKind)
    ensures kind == UnknownOption <==> HasSubstring(error, "unknown option")
    ensures kind == InvalidOption <==>
              !HasSubstring(error, "unknown option") && HasSubstring(error, "invalid option")
    ensures kind == AmbiguousOption <==>
              !HasSubstring(error, "unknown option") && !HasSubstring(error, "invalid option")
              && HasSubstring(error, "ambiguous option")
    ensures kind == GenericOptionError <==>
              !HasSubstring(error, "unknown option") && !HasSubstring(error, "invalid option")
              && !HasSubstring(error, "ambiguous option")
  {
    if HasSubstring(error, "unknown option") then UnknownOption
    else if HasSubstring(error, "invalid option") then InvalidOption
    else if HasSubstring(error, "ambiguous option") then AmbiguousOption
    else GenericOptionError
  }

  lemma SubstringWitness(pre: string, sub: string, post: string)
    ensures HasSubstring(pre + sub + post, sub)
  {
    var s := pre + sub + post;
    assert s[|pre|..|pre| + |sub|] == sub;
    assert OccursAt(s, sub, |pre|);
  }

  /** A message that names an unknown option is reported as one whatever else it says. */
  lemma UnknownOptionWins(pre: string, post: string)
    ensures HandleOptionError(pre + "unknown option" + post) == UnknownOption
  {
    SubstringWitness(pre, "unknown option", post);
  }

  /** "invalid option" is reported when "unknown option" does not occur. */
  lemma InvalidOptionReported(pre: string, post: string)
    requires !HasSubstring(pre + "invalid option" + post, "unknown option")
    ensures HandleOptionError(pre + "invalid option" + post) == InvalidOption
  {
    SubstringWitness(pre, "invalid option", post);
  }

  /** "ambiguous option" is reported when neither earlier phrase occurs. */
  lemma AmbiguousOptionReported(pre: string, post: string)
    requires !HasSubstring(pre + "ambiguous option" + post, "unknown option")
    requires !HasSubstring(pre + "ambiguous option" + post, "invalid option")
    ensures HandleOptionError(pre + "ambiguous option" + post) == AmbiguousOption
  {
    SubstringWitness(pre, "ambiguous option", post);
  }

  /**
   * The check after each option command: when tmux wrote anything to
   * stderr, its first line is classified and raised; otherwise nothing is.
   */
  function CheckStderr(stderr: seq<string>): (r: Option<OptionErrorKind>)
    ensures r.None? <==> stderr == []
    ensures r.Some? ==> r.value == HandleOptionError(stderr[0])
  {
    if stderr == [] then None else Some(HandleOptionError(stderr[0]))
  }

  /** The Python values a caller passes as an option value. */
  datatype ArgValue = StrArg(s: string) | IntArg(i: int) | BoolArg(b: bool)

  /** The word the command layer puts in argv for a value: its `str()`. */
  function Render(v: ArgValue): string
  {
    match v
    case StrArg(s) => s
    case IntArg(i) => IntToString(i)
    case BoolArg(b) => if b then "True" else "False"
  }

  /** set_option's value word: booleans become tmux's `on` and `off`. */
  function OptionWord(v: ArgValue): (w: string)
    ensures v == BoolArg(true) ==> w == "on"
    ensures v == BoolArg(false) ==> w == "off"
    ensures !v.BoolArg? ==> w == Render(v)
  {
    match v
    case BoolArg(b) => if b then "on" else "off"
    case _ => Render(v)
  }

  /** An integer value is sent as its decimal digits. */
  lemma IntValueWord(n: nat)
    ensures OptionWord(IntArg(n)) == NatToString(n)
    ensures DigitsValue(OptionWord(IntArg(n))) == n
  {
    NatToStringRoundTrip(n);
  }

  /** set_option's switch steps in source order: -u -U -F -o -q -a -g, each with its condition. */
  function SetOptionSwitches(unset: bool, unsetPanes: bool, format: bool, preventOverwrite: bool,
                             ignoreErrors: bool, append: bool, global: bool): (pairs: seq<(char, bool)>)
    ensures LettersDistinct(pairs) && NoScopeLetters(pairs)
  {
    [('u', unset), ('U', unsetPanes), ('F', format), ('o', preventOverwrite),
     ('q', ignoreErrors), ('a', append), ('g', global)]
  }

  /**
   * `set_option`: the switches, then the scope flag, the option and the
   * value. The deprecated `g`, when given, replaces `_global` and warns.
   */
  method SetOption(option: string, value: ArgValue, format: bool, unset: bool, unsetPanes: bool,
                   preventOverwrite: bool, ignoreErrors: bool, append: bool, g: Option<bool>,
                   global: bool, scope: ScopeArg, defaultScope: Option<OptionScope>, stderr: seq<string>)
    returns (argv: seq<string>, err: Option<OptionErrorKind>, warned: bool)
    ensures var pairs := SetOptionSwitches(unset, unsetPanes, format, preventOverwrite, ignoreErrors, append,
                                           if g.Some? then g.value else global);
            argv == ["set-option"] + Switches(pairs) + ScopeWords(Resolve(scope, defaultScope)) + [option, OptionWord(value)]
            && forall k :: 0 <= k < |pairs| ==> (Switch(pairs[k].0) in argv[1..|argv| - 2] <==> pairs[k].1)
    ensures |argv| >= 3 && argv[0] == "set-option"
    ensures argv[|argv| - 2] == option && argv[|argv| - 1] == OptionWord(value)
    ensures warned <==> g.Some?
    ensures err == CheckStderr(stderr)
  {
    var global' := global;
    warned := false;
    if g.Some? {
      warned := true;
      global' := g.value;
    }
    var pairs := SetOptionSwitches(unset, unsetPanes, format, preventOverwrite, ignoreErrors, append, global');
    var resolved := Resolve(scope, defaultScope);
    assert pairs + [] == pairs;
    var flags := ScopedSwitches(pairs, resolved, []);
    argv := ["set-option"] + flags + [option, OptionWord(value)];
    assert argv[1..|argv| - 2] == flags;
    err := CheckStderr(stderr);
  }

  /** unset_option's switch steps: -U for panes, else -u; then -q and -g. */
  function UnsetOptionSwitches(unsetPanes: bool, ignoreErrors: bool, global: bool): (pairs: seq<(char, bool)>)
    ensures LettersDistinct(pairs) && NoScopeLetters(pairs)
  {
    [('U', unsetPanes), ('u', !unsetPanes), ('q', ignoreErrors), ('g', global)]
  }

  /**
   * `unset_option`: `set-option` with the switches, the scope flag and the
   * option; no value is sent.
   */
  method UnsetOption(option: string, unsetPanes: bool, global: bool, ignoreErrors: bool,
                     scope: ScopeArg, defaultScope: Option<OptionScope>, stderr: seq<string>)
    returns (argv: seq<string>, err: Option<OptionErrorKind>)
    ensures var pairs := UnsetOptionSwitches(unsetPanes, ignoreErrors, global);
            argv == ["set-option"] + Switches(pairs) + ScopeWords(Resolve(scope, defaultScope)) + [option]
            && forall k :: 0 <= k < |pairs| ==> (Switch(pairs[k].0) in argv[1..|argv| - 1] <==> pairs[k].1)
    ensures |argv| >= 3 && argv[0] == "set-option" && argv[|argv| - 1] == option
    ensures err == CheckStderr(stderr)
  {
    var pairs := UnsetOptionSwitches(unsetPanes, ignoreErrors, global);
    var resolved := Resolve(scope, defaultScope);
    assert pairs + [] == pairs;
    var flags := ScopedSwitches(pairs, resolved, []);
    assert pairs[0].0 == 'U' && pairs[1].0 == 'u';
    argv := ["set-option"] + flags + [option];
    assert argv[1..|argv| - 1] == flags;
    err := CheckStderr(stderr);
  }

  /**
   * The map show_options builds: option name to value. An array option
   * holds `Array`, terminal-features holds `Features`, an unparsable line
   * or a bare name maps to `NoValue`.
   */
  type OptionMap = map<string, OptionValue>

  /** Term-feature maps live only under terminal-features, arrays never do. */
  predicate WellShaped(options: OptionMap)
  {
    forall k :: k in options ==>
      (options[k].Features? ==> k == "terminal-features")
      && (options[k].Array? ==> k != "terminal-features")
  }

  /** The keys one line can write: the line itself, its first word, or the matched name. */
  function TouchedKeys(item: string): set<string>
  {
    var split := Split(item);
    {item} + if split.Ok? && |split.value| == 2 then
               {split.value[0]} + (var m := MatchKey(split.value[0]); if m.Some? then {m.value.name} else {})
             else {}
  }

  /**
   * One pass of show_options' loop over a line of tmux output.
   * - a line that is not exactly two shell words (or does not split) maps
   *   the whole line to no value;
   * - `name[index] value` stores the raw value at that index of the name's
   *   array, creating the array when the name holds nothing;
   * - `terminal-features[index] term:f1:f2` stores the list of features
   *   under the term instead, and a value without `:` maps the line to no
   *   value;
   * - item assignment on a name that already holds a string or a number
   *   fails, and the line maps to no value;
   * - any other two-word line stores its value, as a number when it is all
   *   digits, under its first word.
   */
  function ParseOptionLine(options: OptionMap, item: string): (r: OptionMap)
    ensures WellShaped(options) ==> WellShaped(r)
  {
    var split := Split(item);
    if split.Err? || |split.value| != 2 then options[item := NoValue]
    else
      var key := split.value[0];
      var val := split.value[1];
      var m := MatchKey(key);
      if m.Some? && m.value.index.Some? then
        StoreIndexed(options, item, m.value.name, DigitsValue(m.value.index.value), val)
      else options[key := Coerce(val)]
  }

  /**
   * The `name[index] value` branch: a term's features under
   * `terminal-features`, otherwise the value at that index of the name's
   * array; a failed unpacking or item assignment maps the whole line to no
   * value.
   */
  function StoreIndexed(options: OptionMap, item: string, name: string, index: int, val: string): (r: OptionMap)
    ensures WellShaped(options) ==> WellShaped(r)
    ensures options.Keys <= r.Keys <= options.Keys + {item, name}
    ensures forall k :: k in options && k != item && k != name ==> r[k] == options[k]
  {
    var current := if name in options then options[name] else NoValue;
    if name == "terminal-features" then
      match SplitOnce(val, ':')
      case None => options[item := NoValue]
      case Some((term, features)) =>
        match current
        case NoValue => options[name := Features(map[term := SplitAll(features, ':')])]
        case Features(terms) => options[name := Features(terms[term := SplitAll(features, ':')])]
        case _ => options[item := NoValue]
    else
      match current
      case NoValue => options[name := Array(map[index := val])]
      case Array(items) => options[name := Array(items[index := val])]
      case _ => options[item := NoValue]
  }

  /**
   * A line keeps every key already read, adds only the keys it can touch,
   * and leaves every other key's value as it was.
   */
  lemma ParseOptionLineKeys(options: OptionMap, item: string)
    ensures var r := ParseOptionLine(options, item);
            options.Keys <= r.Keys <= options.Keys + TouchedKeys(item)
            && forall k :: k in options && k !in TouchedKeys(item) ==> r[k] == options[k]
  {
    var split := Split(item);
    if split.Ok? && |split.value| == 2 {
      var m := MatchKey(split.value[0]);
      if m.Some? && m.value.index.Some? {
        assert m.value.name in TouchedKeys(item);
      }
    }
  }

  /** show_options' loop from an empty map over every line, in order. */
  function ParseOptionLines(lines: seq<string>): (r: OptionMap)
    ensures WellShaped(r)
  {
    if lines == [] then map[]
    else ParseOptionLine(ParseOptionLines(lines[..|lines| - 1]), lines[|lines| - 1])
  }

  /** Every key of the parsed map comes from some line of the output. */
  lemma {:induction false} ParseOptionLinesKeys(lines: seq<string>)
    ensures forall k :: k in ParseOptionLines(lines) ==> exists i :: 0 <= i < |lines| && k in TouchedKeys(lines[i])
  {
    if lines != [] {
      var init := lines[..|lines| - 1];
      var prev := ParseOptionLines(init);
      var r := ParseOptionLines(lines);
      ParseOptionLinesKeys(init);
      ParseOptionLineKeys(prev, lines[|lines| - 1]);
      forall k | k in r
        ensures exists i :: 0 <= i < |lines| && k in TouchedKeys(lines[i])
      {
        if k in prev {
          var i :| 0 <= i < |init| && k in TouchedKeys(init[i]);
          assert init[i] == lines[i];
        } else {
          assert k in TouchedKeys(lines[|lines| - 1]);
        }
      }
    }
  }

  /** show_options' switch steps: -g (before the scope flag), then -A -H -v -q. */
  function ShowOptionsSwitches(global: bool, includeInherited: bool, includeHooks: bool, valuesOnly: bool,
                               ignoreErrors: bool): (pairs: seq<(char, bool)>)
    ensures LettersDistinct(pairs) && NoScopeLetters(pairs)
    ensures |pairs| > 0 && pairs[0] == ('g', global)
  {
    [('g', global), ('A', includeInherited), ('H', includeHooks), ('v', valuesOnly), ('q', ignoreErrors)]
  }

  /**
   * `show_options`: -g (for `g` or `_global`; `g` warns), the scope flag,
   * the other switches, then every line of tmux's output parsed into the
   * option map. This command does not look at stderr.
   */
  method ShowOptions(g: bool, global: bool, scope: ScopeArg, defaultScope: Option<OptionScope>,
                     includeInherited: bool, includeHooks: bool, valuesOnly: bool, ignoreErrors: bool,
                     stdout: seq<string>)
    returns (argv: seq<string>, options: OptionMap, warned: bool)
    ensures var pairs := ShowOptionsSwitches(g || global, includeInherited, includeHooks, valuesOnly, ignoreErrors);
            argv == ["show-options"] + Switches(pairs[..1]) + ScopeWords(Resolve(scope, defaultScope)) + Switches(pairs[1..])
            && forall k :: 0 <= k < |pairs| ==> (Switch(pairs[k].0) in argv[1..] <==> pairs[k].1)
    ensures |argv| >= 1 && argv[0] == "show-options"
    ensures warned <==> g
    ensures options == ParseOptionLines(stdout)
  {
    options := ReadOptionLines(stdout);
    warned := g;
    var pairs := ShowOptionsSwitches(g || global, includeInherited, includeHooks, valuesOnly, ignoreErrors);
    assert pairs[..1] + pairs[1..] == pairs;
    var flags := ScopedSwitches(pairs[..1], Resolve(scope, defaultScope), pairs[1..]);
    argv := ["show-options"] + flags;
    assert argv[1..] == flags;
  }

  /** show_options' loop over tmux's output, one line at a time. */
  method ReadOptionLines(stdout: seq<string>) returns (options: OptionMap)
    ensures options == ParseOptionLines(stdout)
    ensures WellShaped(options)
  {
    options := map[];
    for i := 0 to |stdout|
      invariant options == ParseOptionLines(stdout[..i])
    {
      ParseOptionLinesStep(stdout, i);
      options := ReadOptionLine(options, stdout[i]);
    }
    assert stdout[..|stdout|] == stdout;
  }

  /** One pass of show_options' loop. */
  method ReadOptionLine(options0: OptionMap, item: string) returns (options: OptionMap)
    ensures options == ParseOptionLine(options0, item)
  {
    options := options0;
    var split := Split(item);
    if split.Err? || |split.value| != 2 {
      options := options[item := NoValue];
    } else {
      var key, val := split.value[0], split.value[1];
      var m := MatchKey(key);
      if m.Some? && m.value.index.Some? {
        options := StoreIndexedLine(options, item, m.value.name, DigitsValue(m.value.index.value), val);
      } else {
        options := options[key := Coerce(val)];
      }
    }
  }

  /** The `name[index] value` branch of the loop body. */
  method StoreIndexedLine(options0: OptionMap, item: string, name: string, index: int, val: string)
    returns (options: OptionMap)
    ensures options == StoreIndexed(options0, item, name, index, val)
  {
    options := options0;
    var current := if name in options then options[name] else NoValue;
    if name == "terminal-features" {
      var parts := SplitOnce(val, ':');
      if parts.None? {
        options := options[item := NoValue];
      } else if current.NoValue? {
        options := options[name := Features(map[parts.value.0 := SplitAll(parts.value.1, ':')])];
      } else if current.Features? {
        options := options[name := Features(current.terms[parts.value.0 := SplitAll(parts.value.1, ':')])];
      } else {
        options := options[item := NoValue];
      }
    } else if current.NoValue? {
      options := options[name := Array(map[index := val])];
    } else if current.Array? {
      options := options[name := Array(current.items[index := val])];
    } else {
      options := options[item := NoValue];
    }
  }

  /** Two lines of output are two passes of the loop body from the empty map. */
  lemma TwoOptionLines(l0: string, l1: string)
    ensures ParseOptionLines([l0, l1]) == ParseOptionLine(ParseOptionLine(map[], l0), l1)
  {
    assert [l0, l1][..1] == [l0];
    assert [l0][..0] == [];
    assert ParseOptionLines([l0]) == ParseOptionLine(ParseOptionLines([]), l0);
  }

  /** Reading one more line is one more pass of the loop body. */
  lemma ParseOptionLinesStep(lines: seq<string>, i: nat)
    requires i < |lines|
    ensures ParseOptionLines(lines[..i + 1]) == ParseOptionLine(ParseOptionLines(lines[..i]), lines[i])
  {
    assert lines[..i + 1][..i] == lines[..i];
  }

  /** Option names are made of plain characters, so tmux prints them unquoted. */
  lemma NameCharsArePlain(name: string)
    requires AllNameChars(name)
    ensures AllPlain(name)
  {
  }

  /** `name value`: the value is stored under the name, coerced. */
  lemma PlainOptionLine(options: OptionMap, name: string, value: string)
    requires |name| > 0 && AllNameChars(name)
    requires |value| > 0 && AllPlain(value)
    ensures ParseOptionLine(options, name + " " + value) == options[name := Coerce(value)]
  {
    NameCharsArePlain(name);
    PlainPair(name, value);
    MatchPlainName(name, "");
    assert name + "" == name;
  }

  /** A numeric value comes back as that number (`buffer-limit 50`). */
  lemma NumericOptionLine(options: OptionMap, name: string, n: nat)
    requires |name| > 0 && AllNameChars(name)
    ensures ParseOptionLine(options, name + " " + NatToString(n)) == options[name := Int(n)]
  {
    var w := NatToString(n);
    assert AllPlain(w) by {
      forall i | 0 <= i < |w| ensures IsPlain(w[i]) { assert IsDigit(w[i]); }
    }
    PlainOptionLine(options, name, w);
    CoerceNumber(n);
  }

  /** A quoted value loses its quotes; `copy-command ''` gives the empty string. */
  lemma QuotedOptionLine(options: OptionMap, name: string, q: char, value: string)
    requires |name| > 0 && AllNameChars(name)
    requires IsQuote(q)
    requires forall k :: 0 <= k < |value| ==> QuotedLiteral(value[k], q)
    ensures ParseOptionLine(options, name + " " + [q] + value + [q]) == options[name := Coerce(value)]
  {
    NameCharsArePlain(name);
    QuotedPair(name, q, value);
    MatchPlainName(name, "");
    assert name + "" == name;
  }

  lemma EmptyQuotedValue(options: OptionMap)
    ensures ParseOptionLine(options, "copy-command ''") == options["copy-command" := Str("")]
  {
    assert "copy-command ''" == "copy-command" + " " + ['\''] + "" + ['\''];
    QuotedOptionLine(options, "copy-command", '\'', "");
    CoerceNonDigits();
  }

  /** A name with no value (`user-keys`) maps the whole line to no value. */
  lemma BareOptionLine(options: OptionMap, name: string)
    requires |name| > 0 && AllPlain(name)
    ensures ParseOptionLine(options, name) == options[name := NoValue]
  {
    PlainWord(name);
  }

  /** An unbalanced quote makes the split fail, and the line maps to no value. */
  lemma UnclosedQuoteOptionLine(options: OptionMap, name: string, value: string)
    requires |name| > 0 && AllPlain(name)
    requires '\'' !in value
    ensures ParseOptionLine(options, name + " '" + value) == options[name + " '" + value := NoValue]
  {
    UnclosedSingleQuote(name, value);
  }

  /** The index map an array option holds so far (empty when it holds nothing). */
  function ArrayItems(options: OptionMap, name: string): map<int, string>
  {
    if name in options && options[name].Array? then options[name].items else map[]
  }

  lemma IndexedWords(name: string, digits: string, value: string)
    requires |name| > 0 && AllNameChars(name)
    requires IsDigits(digits)
    requires |value| > 0 && AllPlain(value)
    ensures Split(name + "[" + digits + "] " + value) == Ok([name + "[" + digits + "]", value])
    ensures MatchKey(name + "[" + digits + "]") == Some(KeyMatch(name, Some(digits)))
  {
    var key := name + "[" + digits + "]";
    assert AllPlain(key) by {
      forall i | 0 <= i < |key| ensures IsPlain(key[i]) {
        if i < |name| { assert key[i] == name[i]; }
        else if i == |name| { assert key[i] == '['; }
        else if i < |name| + 1 + |digits| { assert key[i] == digits[i - |name| - 1]; }
        else { assert key[i] == ']'; }
      }
    }
    PlainPair(key, value);
    assert name + "[" + digits + "] " + value == key + " " + value;
    MatchIndexedName(name, digits, "");
    assert key + "" == key;
  }

  /** A `name[index] value` line goes to the indexed branch with the index's value. */
  lemma IndexedOptionLine(options: OptionMap, name: string, digits: string, value: string)
    requires |name| > 0 && AllNameChars(name)
    requires IsDigits(digits)
    requires |value| > 0 && AllPlain(value)
    ensures var item := name + "[" + digits + "] " + value;
            ParseOptionLine(options, item) == StoreIndexed(options, item, name, DigitsValue(digits), value)
  {
    IndexedWords(name, digits, value);
  }

  /**
   * `name[index] value` for an array option: the raw value is stored at
   * the index, next to the indices already read; it is not coerced.
   */
  lemma ArrayOptionLine(options: OptionMap, name: string, digits: string, value: string)
    requires |name| > 0 && AllNameChars(name) && name != "terminal-features"
    requires IsDigits(digits)
    requires |value| > 0 && AllPlain(value)
    requires name !in options || options[name].NoValue? || options[name].Array?
    ensures ParseOptionLine(options, name + "[" + digits + "] " + value)
            == options[name := Array(ArrayItems(options, name)[DigitsValue(digits) := value])]
  {
    IndexedWords(name, digits, value);
  }

  /** An indexed line for a name that already holds a plain value maps the line to no value. */
  lemma ArrayOverScalarLine(options: OptionMap, name: string, digits: string, value: string)
    requires |name| > 0 && AllNameChars(name) && name != "terminal-features"
    requires IsDigits(digits)
    requires |value| > 0 && AllPlain(value)
    requires name in options && (options[name].Str? || options[name].Int?)
    ensures ParseOptionLine(options, name + "[" + digits + "] " + value)
            == options[name + "[" + digits + "] " + value := NoValue]
  {
    IndexedWords(name, digits, value);
  }

  /** The term-to-features map terminal-features holds so far. */
  function FeatureTerms(options: OptionMap): map<string, seq<string>>
  {
    if "terminal-features" in options && options["terminal-features"].Features?
    then options["terminal-features"].terms else map[]
  }

  /** `terminal-features[digits] term:features` as tmux prints it: a plain `term` before the first colon. */
  predicate FeatureLine(digits: string, term: string, features: string)
  {
    IsDigits(digits) && ':' !in term && AllPlain(term + ":" + features)
  }

  /**
   * `terminal-features[index] term:f1:...:fn`: the index is dropped and
   * the term maps to its features split on `:`.
   */
  lemma FeaturesOptionLine(options: OptionMap, digits: string, term: string, features: string)
    requires FeatureLine(digits, term, features)
    requires "terminal-features" !in options || options["terminal-features"].NoValue?
             || options["terminal-features"].Features?
    ensures ParseOptionLine(options, "terminal-features[" + digits + "] " + term + ":" + features)
            == options["terminal-features" := Features(FeatureTerms(options)[term := SplitAll(features, ':')])]
  {
    var value := term + ":" + features;
    var name := "terminal-features";
    var item := name + "[" + digits + "] " + value;
    assert "terminal-features[" + digits + "] " + term + ":" + features == item;
    IndexedOptionLine(options, name, digits, value);
    SplitOnceAt(term, ':', features);
    assert term + [':'] + features == value;
    assert StoreIndexed(options, item, name, DigitsValue(digits), value)
        == options[name := Features(FeatureTerms(options)[term := SplitAll(features, ':')])];
  }

  /** A terminal-features value without `:` cannot be unpacked; the line maps to no value. */
  lemma FeaturesWithoutColon(options: OptionMap, digits: string, value: string)
    requires IsDigits(digits)
    requires |value| > 0 && AllPlain(value) && ':' !in value
    ensures ParseOptionLine(options, "terminal-features[" + digits + "] " + value)
            == options["terminal-features[" + digits + "] " + value := NoValue]
  {
    IndexedOptionLine(options, "terminal-features", digits, value);
    assert "terminal-features[" + digits + "] " + value == "terminal-features" + "[" + digits + "] " + value;
  }

  /** Two terminal-features lines give one map from each term to its features. */
  lemma TwoFeatureLines(d0: string, t0: string, f0: string, d1: string, t1: string, f1: string)
    requires FeatureLine(d0, t0, f0) && FeatureLine(d1, t1, f1) && t0 != t1
    ensures var lines := ["terminal-features[" + d0 + "] " + t0 + ":" + f0,
                          "terminal-features[" + d1 + "] " + t1 + ":" + f1];
            ParseOptionLines(lines)
            == map["terminal-features" := Features(map[t0 := SplitAll(f0, ':'), t1 := SplitAll(f1, ':')])]
  {
    var lines := ["terminal-features[" + d0 + "] " + t0 + ":" + f0,
                  "terminal-features[" + d1 + "] " + t1 + ":" + f1];
    var first := map["terminal-features" := Features(map[t0 := SplitAll(f0, ':')])];
    TwoOptionLines(lines[0], lines[1]);
    FeaturesOptionLine(map[], d0, t0, f0);
    FeaturesOptionLine(first, d1, t1, f1);
    var terms := map[t0 := SplitAll(f0, ':')];
    assert FeatureTerms(first) == terms;
    assert first["terminal-features" := Features(terms[t1 := SplitAll(f1, ':')])]
        == map["terminal-features" := Features(map[t0 := SplitAll(f0, ':'), t1 := SplitAll(f1, ':')])];
  }

  /** What show_option can end in, besides a value or nothing. */
  datatype ShowOptionError = Raised(kind: OptionErrorKind) | Unsplittable(e: SplitError) | NoValueWord

  /**
   * show_option's result: stderr raises through handle_option_error; no
   * output gives no value; otherwise the first output line is split into
   * shell words and its second word is the value, coerced. A first line
   * that does not split, or has fewer than two words, is an error.
   */
  function ShowOptionValue(stderr: seq<string>, stdout: seq<string>): (r: Result<Option<OptionValue>, ShowOptionError>)
    ensures stderr != [] <==> r.Err? && r.error.Raised?
    ensures stderr != [] ==> r == Err(Raised(HandleOptionError(stderr[0])))
    ensures stderr == [] ==> (r == Ok(None) <==> stdout == [])
    ensures stderr == [] && stdout != [] && Split(stdout[0]).Ok? && |Split(stdout[0]).value| >= 2
            ==> r == Ok(Some(Coerce(Split(stdout[0]).value[1])))
    ensures stderr == [] && stdout != [] && Split(stdout[0]).Err? ==> r == Err(Unsplittable(Split(stdout[0]).error))
    ensures stderr == [] && stdout != [] && Split(stdout[0]).Ok? && |Split(stdout[0]).value| < 2 ==> r == Err(NoValueWord)
    ensures r.Ok? && r.value.Some? ==> r.value.value.Int? || r.value.value.Str?
  {
    if stderr != [] then Err(Raised(HandleOptionError(stderr[0])))
    else if stdout == [] then Ok(None)
    else
      match Split(stdout[0])
      case Err(e) => Err(Unsplittable(e))
      case Ok(words) => if |words| < 2 then Err(NoValueWord) else Ok(Some(Coerce(words[1])))
  }

  /** `show-options name` printing `name value` returns the coerced value. */
  lemma ShowOptionPlain(name: string, value: string, rest: seq<string>)
    requires |name| > 0 && AllPlain(name)
    requires |value| > 0 && AllPlain(value)
    ensures ShowOptionValue([], [name + " " + value] + rest) == Ok(Some(Coerce(value)))
  {
    PlainPair(name, value);
  }

  /** Setting a number and showing it back gives the number (tests/test_window.py). */
  lemma ShowOptionNumberRoundTrip(name: string, n: nat)
    requires |name| > 0 && AllPlain(name)
    ensures ShowOptionValue([], [name + " " + OptionWord(IntArg(n))]) == Ok(Some(Int(n)))
  {
    var w := NatToString(n);
    assert AllPlain(w) by {
      forall i | 0 <= i < |w| ensures IsPlain(w[i]) { assert IsDigit(w[i]); }
    }
    ShowOptionPlain(name, w, []);
    assert [name + " " + w] + [] == [name + " " + w];
    CoerceNumber(n);
  }

  /** show_option's switch steps: -g (before the scope flag), then -q -A -H. */
  function ShowOptionSwitches(global: bool, ignoreErrors: bool, includeInherited: bool, includeHooks: bool)
    : (pairs: seq<(char, bool)>)
    ensures LettersDistinct(pairs) && NoScopeLetters(pairs)
    ensures |pairs| > 0 && pairs[0] == ('g', global)
  {
    [('g', global), ('q', ignoreErrors), ('A', includeInherited), ('H', includeHooks)]
  }

  /**
   * `show_option`: -g (for `g` or `_global`; `g` warns), the scope flag,
   * the other switches and the option, then the value read back.
   */
  method ShowOption(option: string, g: bool, global: bool, scope: ScopeArg, defaultScope: Option<OptionScope>,
                    ignoreErrors: bool, includeInherited: bool, includeHooks: bool,
                    stderr: seq<string>, stdout: seq<string>)
    returns (argv: seq<string>, result: Result<Option<OptionValue>, ShowOptionError>, warned: bool)
    ensures var pairs := ShowOptionSwitches(g || global, ignoreErrors, includeInherited, includeHooks);
            argv == ["show-options"] + Switches(pairs[..1]) + ScopeWords(Resolve(scope, defaultScope))
                    + Switches(pairs[1..]) + [option]
            && forall k :: 0 <= k < |pairs| ==> (Switch(pairs[k].0) in argv[1..|argv| - 1] <==> pairs[k].1)
    ensures |argv| >= 2 && argv[0] == "show-options" && argv[|argv| - 1] == option
    ensures warned <==> g
    ensures result == ShowOptionValue(stderr, stdout)
  {
    result := ShowOptionValue(stderr, stdout);
    warned := g;
    var pairs := ShowOptionSwitches(g || global, ignoreErrors, includeInherited, includeHooks);
    var resolved := Resolve(scope, defaultScope);
    assert pairs[..1] + pairs[1..] == pairs;
    var flags := ScopedSwitches(pairs[..1], resolved, pairs[1..]);
    argv := ["show-options"] + flags + [option];
    assert argv[1..|argv| - 1] == flags;
  }
}
