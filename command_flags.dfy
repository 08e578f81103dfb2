// How the option and hook commands assemble their argv: a fixed sequence of
// `if flag: flags.append("-x")` steps, each adding one tmux switch.
module CommandFlags {
  import opened Wrappers
  import opened Scopes

  /** The tmux switch `-c`. */
  function Switch(c: char): (w: string)
    ensures |w| == 2 && w[0] == '-' && w[1] == c
  {
    ['-', c]
  }

  /** `[flag]` when `on`, else nothing: one `if on: flags.append(flag)`. */
  function Keep(flag: string, on: bool): seq<string>
  {
    if on then [flag] else []
  }

  /** The switches whose condition holds, in the order given: a run of such steps. */
  function Switches(pairs: seq<(char, bool)>): seq<string>
  {
    if pairs == [] then []
    else Switches(pairs[..|pairs| - 1]) + Keep(Switch(pairs[|pairs| - 1].0), pairs[|pairs| - 1].1)
  }

  /**
   * The builders' `if on: flags.append("-c")` steps, run in order over a
   * table of (letter, condition) pairs.
   */
  method AppendSwitches(flags0: seq<string>, pairs: seq<(char, bool)>) returns (flags: seq<string>)
    ensures flags == flags0 + Switches(pairs)
  {
    flags := flags0;
    for k := 0 to |pairs|
      invariant flags == flags0 + Switches(pairs[..k])
    {
      SwitchesStep(pairs, k);
      if pairs[k].1 {
        flags := flags + [Switch(pairs[k].0)];
      }
    }
    assert pairs[..|pairs|] == pairs;
  }

  /** One more step of the table adds its switch when its condition holds. */
  lemma SwitchesStep(pairs: seq<(char, bool)>, k: nat)
    requires k < |pairs|
    ensures Switches(pairs[..k + 1]) == Switches(pairs[..k]) + Keep(Switch(pairs[k].0), pairs[k].1)
  {
    assert pairs[..k + 1][..k] == pairs[..k];
  }

  /** No switch letter is listed twice. */
  predicate LettersDistinct(pairs: seq<(char, bool)>)
  {
    forall i, j :: 0 <= i < j < |pairs| ==> pairs[i].0 != pairs[j].0
  }

  /** A switch is in the argv exactly when one of its steps is enabled. */
  lemma {:induction false} SwitchesMember(pairs: seq<(char, bool)>, c: char)
    ensures Switch(c) in Switches(pairs) <==> (c, true) in pairs
  {
    if pairs != [] {
      var init := pairs[..|pairs| - 1];
      SwitchesMember(init, c);
      assert pairs == init + [pairs[|pairs| - 1]];
    }
  }

  /** With distinct letters, the k-th switch is present exactly when its condition holds. */
  lemma SwitchAt(pairs: seq<(char, bool)>, k: nat)
    requires LettersDistinct(pairs) && k < |pairs|
    ensures Switch(pairs[k].0) in Switches(pairs) <==> pairs[k].1
  {
    SwitchesMember(pairs, pairs[k].0);
  }

  /** A switch whose letter is not listed is never added. */
  lemma SwitchAbsent(pairs: seq<(char, bool)>, c: char)
    requires forall i :: 0 <= i < |pairs| ==> pairs[i].0 != c
    ensures Switch(c) !in Switches(pairs)
  {
    SwitchesMember(pairs, c);
  }

  /** Only the letters `s`, `w` and `p` can be confused with a scope flag. */
  lemma NotAScopeFlag(c: char, scope: Option<OptionScope>)
    requires c != 's' && c != 'w' && c != 'p'
    ensures Switch(c) !in ScopeWords(scope)
  {
    if scope.Some? {
      var f := ScopeFlag(scope.value);
      assert f == "" || f[1] == 's' || f[1] == 'w' || f[1] == 'p';
    }
  }
  /** No letter in the table is one a scope flag uses (`-s`, `-w`, `-p`). */
  predicate NoScopeLetters(pairs: seq<(char, bool)>)
  {
    forall i :: 0 <= i < |pairs| ==> pairs[i].0 != 's' && pairs[i].0 != 'w' && pairs[i].0 != 'p'
  }

  /** Running two tables one after the other is running their concatenation. */
  lemma {:induction false} SwitchesAppend(head: seq<(char, bool)>, tail: seq<(char, bool)>)
    ensures Switches(head + tail) == Switches(head) + Switches(tail)
    decreases |tail|
  {
    if tail != [] {
      var init := tail[..|tail| - 1];
      var last := tail[|tail| - 1];
      assert (head + tail)[..|head + tail| - 1] == head + init;
      assert (head + tail)[|head + tail| - 1] == last;
      SwitchesAppend(head, init);
    } else {
      assert head + tail == head;
    }
  }

  /** Every switch of a table with distinct letters is present exactly when its condition holds. */
  lemma SwitchesPresent(pairs: seq<(char, bool)>)
    requires LettersDistinct(pairs)
    ensures forall k :: 0 <= k < |pairs| ==> (Switch(pairs[k].0) in Switches(pairs) <==> pairs[k].1)
  {
    forall k | 0 <= k < |pairs| ensures Switch(pairs[k].0) in Switches(pairs) <==> pairs[k].1 {
      SwitchAt(pairs, k);
    }
  }

  /**
   * The layout `head switches, scope flag, tail switches`: every switch of
   * the two tables is present exactly when its condition holds, whatever
   * the scope.
   */
  lemma SwitchesAroundScope(head: seq<(char, bool)>, scope: Option<OptionScope>, tail: seq<(char, bool)>)
    requires LettersDistinct(head + tail) && NoScopeLetters(head + tail)
    ensures var pairs := head + tail;
            forall k :: 0 <= k < |pairs| ==>
              (Switch(pairs[k].0) in Switches(head) + ScopeWords(scope) + Switches(tail) <==> pairs[k].1)
  {
    var pairs := head + tail;
    SwitchesAppend(head, tail);
    forall k | 0 <= k < |pairs|
      ensures Switch(pairs[k].0) in Switches(head) + ScopeWords(scope) + Switches(tail) <==> pairs[k].1
    {
      SwitchAt(pairs, k);
      NotAScopeFlag(pairs[k].0, scope);
    }
  }

  /**
   * Builds `head switches, scope flag, tail switches`, the layout every
   * options and hooks builder uses; each switch of the two tables is in the
   * result exactly when its condition holds.
   */
  method ScopedSwitches(head: seq<(char, bool)>, scope: Option<OptionScope>, tail: seq<(char, bool)>)
    returns (flags: seq<string>)
    requires LettersDistinct(head + tail) && NoScopeLetters(head + tail)
    ensures flags == Switches(head) + ScopeWords(scope) + Switches(tail)
    ensures var pairs := head + tail;
            forall k :: 0 <= k < |pairs| ==> (Switch(pairs[k].0) in flags <==> pairs[k].1)
  {
    flags := AppendSwitches([], head);
    flags := flags + ScopeWords(scope);
    flags := AppendSwitches(flags, tail);
    SwitchesAroundScope(head, scope, tail);
  }
}
