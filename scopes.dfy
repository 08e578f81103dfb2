// src/libtmux/constants.py: the option scopes, their command-line flags, and
// the three-way scope argument every option and hook command takes.
module Scopes {
  import opened Wrappers

  /** `OptionScope`: Server, Session, Window, Pane. */
  datatype OptionScope = Server | Session | Window | Pane

  /**
   * `OPTION_SCOPE_FLAG_MAP`. Session maps to the empty string, so a
   * Session-scoped command carries an empty word in its argv.
   */
  function ScopeFlag(scope: OptionScope): (flag: string)
    ensures scope == Server <==> flag == "-s"
    ensures scope == Session <==> flag == ""
    ensures scope == Window <==> flag == "-w"
    ensures scope == Pane <==> flag == "-p"
  {
    match scope
    case Server => "-s"
    case Session => ""
    case Window => "-w"
    case Pane => "-p"
  }

  /** The map is injective: distinct scopes give distinct flags. */
  lemma ScopeFlagInjective(a: OptionScope, b: OptionScope)
    requires ScopeFlag(a) == ScopeFlag(b)
    ensures a == b
  {
  }

  /**
   * The `scope` argument: the sentinel `DEFAULT_OPTION_SCOPE` (use the
   * entity's default), `None` (no scope flag), or an explicit scope.
   */
  datatype ScopeArg = UseDefault | NoScope | Explicit(scope: OptionScope)

  /**
   * `if scope is DEFAULT_OPTION_SCOPE: scope = self.default_option_scope`
   * (or `default_hook_scope`): the sentinel defers to the entity's default.
   */
  function Resolve(arg: ScopeArg, entityDefault: Option<OptionScope>): (r: Option<OptionScope>)
    ensures arg == UseDefault ==> r == entityDefault
    ensures arg == NoScope ==> r == None
    ensures arg.Explicit? ==> r == Some(arg.scope)
  {
    match arg
    case UseDefault => entityDefault
    case NoScope => None
    case Explicit(s) => Some(s)
  }

  /** The option commands' scope words: the mapped flag, or nothing for no scope. */
  function ScopeWords(scope: Option<OptionScope>): (words: seq<string>)
    ensures scope.None? <==> words == []
    ensures scope.Some? ==> words == [ScopeFlag(scope.value)]
  {
    match scope
    case None => []
    case Some(s) => [ScopeFlag(s)]
  }
}
