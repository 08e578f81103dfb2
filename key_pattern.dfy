// The pattern `(?P<hook>[\w-]+)(\[(?P<index>\d+)\])?` that both the option
// and the hook parsers apply with `re.match`: anchored at the start of the
// key but not at its end. `\w` and `\d` are taken as ASCII.
module KeyPattern {
  import opened Wrappers
  import opened Text

  /** `[\w-]`: an ASCII letter or digit, `_` or `-`. */
  predicate IsNameChar(c: char)
  {
    ('a' <= c <= 'z') || ('A' <= c <= 'Z') || IsDigit(c) || c == '_' || c == '-'
  }

  predicate AllNameChars(s: string) { forall i :: 0 <= i < |s| ==> IsNameChar(s[i]) }

  /** Length of the longest prefix of `s` made of name characters (`[\w-]+` is greedy). */
  function NameRun(s: string): (n: nat)
    ensures n <= |s| && AllNameChars(s[..n])
    ensures n < |s| ==> !IsNameChar(s[n])
  {
    if s != [] && IsNameChar(s[0]) then
      var n := 1 + NameRun(s[1..]);
      assert s[..n] == [s[0]] + s[1..][..n - 1];
      n
    else 0
  }

  /** Length of the longest prefix of `s` made of digits. */
  function DigitRun(s: string): (n: nat)
    ensures n <= |s| && AllDigits(s[..n])
    ensures n < |s| ==> !IsDigit(s[n])
  {
    if s != [] && IsDigit(s[0]) then
      var n := 1 + DigitRun(s[1..]);
      assert s[..n] == [s[0]] + s[1..][..n - 1];
      n
    else 0
  }

  /** The groups of a successful match: `hook` and, when present, `index`. */
  datatype KeyMatch = KeyMatch(name: string, index: Option<string>)

  /**
   * `re.match(pattern, key)`. `None` when the key does not start with a name
   * character (for instance `%hook` or a user option `@name`).
   */
  function MatchKey(key: string): (r: Option<KeyMatch>)
    ensures r.None? <==> key == [] || !IsNameChar(key[0])
    ensures r.Some? ==> |r.value.name| > 0 && r.value.name <= key && AllNameChars(r.value.name)
    ensures r.Some? ==> |r.value.name| == |key| || !IsNameChar(key[|r.value.name|])
    ensures r.Some? && r.value.index.Some? ==> IsDigits(r.value.index.value)
  {
    var n := NameRun(key);
    if n == 0 then None
    else
      var rest := key[n..];
      var d := if |rest| > 0 && rest[0] == '[' then DigitRun(rest[1..]) else 0;
      if d > 0 && d + 1 < |rest| && rest[d + 1] == ']' then
        assert rest[1..][..d] == rest[1..d + 1];
        Some(KeyMatch(key[..n], Some(rest[1..d + 1])))
      else Some(KeyMatch(key[..n], None))
  }

  /** An index group is written in brackets right after the name. */
  lemma MatchKeyIndex(key: string)
    ensures var r := MatchKey(key);
            r.Some? && r.value.index.Some? ==>
              var d := r.value.index.value;
              var n := |r.value.name|;
              n + |d| + 2 <= |key| && key[n..n + |d| + 2] == "[" + d + "]"
  {
    var n := NameRun(key);
    if n > 0 {
      var rest := key[n..];
      var d := if |rest| > 0 && rest[0] == '[' then DigitRun(rest[1..]) else 0;
      if d > 0 && d + 1 < |rest| && rest[d + 1] == ']' {
        assert rest[1..][..d] == rest[1..d + 1];
        assert key[n..n + d + 2] == rest[..d + 2] == "[" + rest[1..d + 1] + "]";
      }
    }
  }

  /** A key with no `[` after its name matches as a plain name. */
  lemma {:induction false} MatchPlainName(name: string, tail: string)
    requires |name| > 0 && AllNameChars(name)
    requires tail == [] || (!IsNameChar(tail[0]) && tail[0] != '[')
    ensures MatchKey(name + tail) == Some(KeyMatch(name, None))
  {
    NameRunOf(name, tail);
    assert (name + tail)[..|name|] == name;
    assert (name + tail)[|name|..] == tail;
  }

  /** The match in terms of the two greedy runs: a name run of `n`, then `[`, `d` digits and `]`. */
  lemma MatchIndexedAt(key: string, n: nat, d: nat)
    requires n > 0 && NameRun(key) == n
    requires n + d + 1 < |key| && key[n] == '[' && key[n + d + 1] == ']'
    requires d > 0 && DigitRun(key[n + 1..]) == d
    ensures MatchKey(key) == Some(KeyMatch(key[..n], Some(key[n + 1..n + d + 1])))
  {
    var rest := key[n..];
    assert rest[0] == '[';
    assert rest[1..] == key[n + 1..];
    assert d + 1 < |rest| && rest[d + 1] == ']';
    assert rest[1..d + 1] == key[n + 1..n + d + 1];
  }

  /** `name[digits]`, followed by anything, matches with those groups. */
  lemma {:induction false} MatchIndexedName(name: string, digits: string, tail: string)
    requires |name| > 0 && AllNameChars(name)
    requires IsDigits(digits)
    ensures MatchKey(name + "[" + digits + "]" + tail) == Some(KeyMatch(name, Some(digits)))
  {
    var close := "]" + tail;
    var inner := digits + close;
    var after := "[" + inner;
    var key := name + after;
    assert key == name + "[" + digits + "]" + tail;
    var n, d := |name|, |digits|;
    assert key[n..] == after;
    NameRunOf(name, after);
    assert key[n + 1..] == inner;
    DigitRunOf(digits, close);
    assert key[..n] == name;
    assert inner[..d] == digits;
    assert key[n + 1..n + d + 1] == digits;
    assert key[n + d + 1] == inner[d] == ']';
    MatchIndexedAt(key, n, d);
  }

  lemma {:induction false} NameRunOf(name: string, tail: string)
    requires AllNameChars(name)
    requires tail == [] || !IsNameChar(tail[0])
    ensures NameRun(name + tail) == |name|
    decreases |name|
  {
    if name != [] {
      assert (name + tail)[1..] == name[1..] + tail;
      NameRunOf(name[1..], tail);
    } else {
      assert name + tail == tail;
    }
  }

  lemma {:induction false} DigitRunOf(digits: string, tail: string)
    requires AllDigits(digits)
    requires tail == [] || !IsDigit(tail[0])
    ensures DigitRun(digits + tail) == |digits|
    decreases |digits|
  {
    if digits != [] {
      assert (digits + tail)[1..] == digits[1..] + tail;
      DigitRunOf(digits[1..], tail);
    } else {
      assert digits + tail == tail;
    }
  }
}
