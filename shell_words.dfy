// The word splitter the option and hook parsers call: Python's
// `shlex.split(line)` in POSIX mode with its defaults (comments off, so `#`
// is an ordinary character). Blanks are space, tab, carriage return and
// newline. Single quotes keep everything literally; double quotes keep
// everything except that a backslash before `"` or `\` yields that
// character; outside quotes a backslash yields the next character. A quote
// left open, or a backslash at the end of the line, is an error
// (ValueError in Python). Quoting follows the quoting rules of the POSIX
// Shell Command Language (section 2.2 of its Shell and Utilities volume).
module ShellWords {
  import opened Wrappers

  datatype SplitError = NoClosingQuotation | NoEscapedCharacter

  /** The states of shlex's reader. */
  datatype Mode = Blank | Word | Quoted(q: char) | EscapeInWord | EscapeInQuote(q: char)

  predicate IsBlank(c: char) { c == ' ' || c == '\t' || c == '\r' || c == '\n' }

  predicate IsQuote(c: char) { c == '\'' || c == '"' }

  /** A character that stands for itself outside quotes. */
  predicate IsPlain(c: char) { !IsBlank(c) && !IsQuote(c) && c != '\\' }

  predicate AllPlain(s: string) { forall i :: 0 <= i < |s| ==> IsPlain(s[i]) }

  /**
   * Reads `s` from position `i` in state `mode`, with `cur` the word being
   * built and `acc` the words already finished. A word is finished at a blank
   * or at the end; every word under construction is non-empty or was quoted,
   * which is when shlex emits it.
   */
  function Lex(s: string, i: nat, mode: Mode, cur: string, acc: seq<string>): Result<seq<string>, SplitError>
    requires i <= |s|
    decreases |s| - i
  {
    if i == |s| then
      match mode
      case Blank => Ok(acc)
      case Word => Ok(acc + [cur])
      case Quoted(_) => Err(NoClosingQuotation)
      case EscapeInWord => Err(NoEscapedCharacter)
      case EscapeInQuote(_) => Err(NoEscapedCharacter)
    else
      var c := s[i];
      match mode
      case Blank =>
        if IsBlank(c) then Lex(s, i + 1, Blank, "", acc)
        else if c == '\\' then Lex(s, i + 1, EscapeInWord, "", acc)
        else if IsQuote(c) then Lex(s, i + 1, Quoted(c), "", acc)
        else Lex(s, i + 1, Word, [c], acc)
      case Word =>
        if IsBlank(c) then Lex(s, i + 1, Blank, "", acc + [cur])
        else if IsQuote(c) then Lex(s, i + 1, Quoted(c), cur, acc)
        else if c == '\\' then Lex(s, i + 1, EscapeInWord, cur, acc)
        else Lex(s, i + 1, Word, cur + [c], acc)
      case Quoted(q) =>
        if c == q then Lex(s, i + 1, Word, cur, acc)
        else if c == '\\' && q == '"' then Lex(s, i + 1, EscapeInQuote(q), cur, acc)
        else Lex(s, i + 1, Quoted(q), cur + [c], acc)
      case EscapeInWord =>
        Lex(s, i + 1, Word, cur + [c], acc)
      case EscapeInQuote(q) =>
        var kept := if c != q && c != '\\' then cur + ['\\', c] else cur + [c];
        Lex(s, i + 1, Quoted(q), kept, acc)
  }

  /** `shlex.split(s)`. */
  function Split(s: string): Result<seq<string>, SplitError>
  {
    Lex(s, 0, Blank, "", [])
  }

  /** A run of plain characters extends the current word. */
  lemma {:induction false} LexPlainRun(s: string, i: nat, j: nat, cur: string, acc: seq<string>)
    requires i <= j <= |s|
    requires forall k :: i <= k < j ==> IsPlain(s[k])
    ensures Lex(s, i, Word, cur, acc) == Lex(s, j, Word, cur + s[i..j], acc)
    decreases j - i
  {
    if i < j {
      LexPlainRun(s, i + 1, j, cur + [s[i]], acc);
      assert cur + [s[i]] + s[i + 1..j] == cur + s[i..j];
    } else {
      assert cur + s[i..j] == cur;
    }
  }

  /** Characters that a quotation opened by `q` keeps as they are. */
  predicate QuotedLiteral(c: char, q: char) { c != q && (q == '"' ==> c != '\\') }

  /** Inside quotes every character except the closing quote (and, in `"`, a backslash) is kept as it is. */
  lemma {:induction false} LexQuotedRun(s: string, i: nat, j: nat, q: char, cur: string, acc: seq<string>)
    requires i <= j <= |s|
    requires forall k :: i <= k < j ==> QuotedLiteral(s[k], q)
    ensures Lex(s, i, Quoted(q), cur, acc) == Lex(s, j, Quoted(q), cur + s[i..j], acc)
    decreases j - i
  {
    if i < j {
      LexQuotedRun(s, i + 1, j, q, cur + [s[i]], acc);
      assert cur + [s[i]] + s[i + 1..j] == cur + s[i..j];
    } else {
      assert cur + s[i..j] == cur;
    }
  }

  /** Blanks between words are skipped. */
  lemma {:induction false} LexBlankRun(s: string, i: nat, j: nat, acc: seq<string>)
    requires i <= j <= |s|
    requires forall k :: i <= k < j ==> IsBlank(s[k])
    ensures Lex(s, i, Blank, "", acc) == Lex(s, j, Blank, "", acc)
    decreases j - i
  {
    if i < j {
      LexBlankRun(s, i + 1, j, acc);
    }
  }

  /** A bare word of plain characters splits into exactly that word. */
  lemma PlainWord(w: string)
    requires |w| > 0 && AllPlain(w)
    ensures Split(w) == Ok([w])
  {
    assert IsPlain(w[0]);
    assert Split(w) == Lex(w, 1, Word, [w[0]], []);
    LexPlainRun(w, 1, |w|, [w[0]], []);
    assert [w[0]] + w[1..|w|] == w;
    var r := Lex(w, |w|, Word, w, []);
    assert r.Ok? && r.value == [w];
  }

  /** `key value` with plain words splits into the two words. */
  lemma PlainPair(key: string, value: string)
    requires |key| > 0 && AllPlain(key)
    requires |value| > 0 && AllPlain(value)
    ensures Split(key + " " + value) == Ok([key, value])
  {
    var s := key + " " + value;
    var n := |key|;
    assert s[0] == key[0] && IsPlain(key[0]);
    assert Split(s) == Lex(s, 1, Word, [key[0]], []);
    LexPlainRun(s, 1, n, [key[0]], []);
    assert [key[0]] + s[1..n] == key;
    assert s[n] == ' ' && s[n + 1] == value[0] && IsPlain(value[0]);
    assert [] + [key] == [key];
    assert Lex(s, n, Word, key, []) == Lex(s, n + 1, Blank, "", [key]);
    assert Lex(s, n + 1, Blank, "", [key]) == Lex(s, n + 2, Word, [value[0]], [key]);
    LexPlainRun(s, n + 2, |s|, [value[0]], [key]);
    assert [value[0]] + s[n + 2..|s|] == value;
    var r := Lex(s, |s|, Word, value, [key]);
    assert r.Ok? && r.value == [key, value];
  }

  /**
   * `key 'value'` or `key "value"`: a quoted value comes back without its
   * quotes and with its blanks and `#` intact; `''` gives the empty word.
   */
  lemma QuotedPair(key: string, q: char, value: string)
    requires |key| > 0 && AllPlain(key)
    requires IsQuote(q)
    requires forall k :: 0 <= k < |value| ==> QuotedLiteral(value[k], q)
    ensures Split(key + " " + [q] + value + [q]) == Ok([key, value])
  {
    var s := key + " " + [q] + value + [q];
    var n := |key|;
    assert s[0] == key[0] && IsPlain(key[0]);
    assert Split(s) == Lex(s, 1, Word, [key[0]], []);
    LexPlainRun(s, 1, n, [key[0]], []);
    assert [key[0]] + s[1..n] == key;
    assert s[n] == ' ' && s[n + 1] == q;
    assert [] + [key] == [key];
    assert Lex(s, n, Word, key, []) == Lex(s, n + 1, Blank, "", [key]);
    assert Lex(s, n + 1, Blank, "", [key]) == Lex(s, n + 2, Quoted(q), "", [key]);
    assert forall k :: n + 2 <= k < |s| - 1 ==> s[k] == value[k - n - 2];
    LexQuotedRun(s, n + 2, |s| - 1, q, "", [key]);
    assert "" + s[n + 2..|s| - 1] == value;
    assert s[|s| - 1] == q;
    assert Lex(s, |s| - 1, Quoted(q), value, [key]) == Lex(s, |s|, Word, value, [key]);
    var r := Lex(s, |s|, Word, value, [key]);
    assert r.Ok? && r.value == [key, value];
  }

  /** A line that is only blanks has no words. */
  lemma BlankLine(s: string)
    requires forall k :: 0 <= k < |s| ==> IsBlank(s[k])
    ensures Split(s) == Ok([])
  {
    LexBlankRun(s, 0, |s|, []);
  }

  /** An opening single quote that is never closed makes the split fail. */
  lemma UnclosedSingleQuote(key: string, value: string)
    requires |key| > 0 && AllPlain(key)
    requires '\'' !in value
    ensures Split(key + " '" + value) == Err(NoClosingQuotation)
  {
    var s := key + " '" + value;
    var n := |key|;
    assert s[0] == key[0] && IsPlain(key[0]);
    assert Split(s) == Lex(s, 1, Word, [key[0]], []);
    LexPlainRun(s, 1, n, [key[0]], []);
    assert [key[0]] + s[1..n] == key;
    assert s[n] == ' ' && s[n + 1] == '\'';
    assert [] + [key] == [key];
    assert Lex(s, n, Word, key, []) == Lex(s, n + 1, Blank, "", [key]);
    assert Lex(s, n + 1, Blank, "", [key]) == Lex(s, n + 2, Quoted('\''), "", [key]);
    assert forall k :: n + 2 <= k < |s| ==> s[k] == value[k - n - 2];
    LexQuotedRun(s, n + 2, |s|, '\'', "", [key]);
  }

  /** Words joined by single spaces: what tmux prints for words that need no quoting. */
  function JoinWords(ws: seq<string>): string
  {
    if ws == [] then ""
    else if |ws| == 1 then ws[0]
    else ws[0] + " " + JoinWords(ws[1..])
  }

  /** Every word is non-empty and made of plain characters. */
  predicate PlainWords(ws: seq<string>)
  {
    forall k :: 0 <= k < |ws| ==> |ws[k]| > 0 && AllPlain(ws[k])
  }

  /** A join starts with the first word; a space and the join of the rest follow it. */
  lemma JoinWordsHead(ws: seq<string>)
    requires ws != []
    ensures var j, n := JoinWords(ws), |ws[0]|;
            n <= |j| && j[..n] == ws[0]
            && (|ws| == 1 ==> |j| == n)
            && (|ws| > 1 ==> n < |j| && j[n] == ' ' && j[n + 1..] == JoinWords(ws[1..]))
  {
    if |ws| > 1 {
      var j, n := JoinWords(ws), |ws[0]|;
      assert j == ws[0] + " " + JoinWords(ws[1..]);
      assert j[..n] == ws[0];
      assert j[n + 1..] == JoinWords(ws[1..]);
    }
  }

  /** From a blank position, a plain word is read up to its end. */
  lemma LexPlainWord(s: string, i: nat, w: string, acc: seq<string>)
    requires |w| > 0 && AllPlain(w)
    requires i + |w| <= |s| && s[i..i + |w|] == w
    ensures Lex(s, i, Blank, "", acc) == Lex(s, i + |w|, Word, w, acc)
  {
    assert s[i] == w[0] && IsPlain(w[0]);
    assert forall k :: i + 1 <= k < i + |w| ==> s[k] == w[k - i];
    LexPlainRun(s, i + 1, i + |w|, [w[0]], acc);
    assert [w[0]] + s[i + 1..i + |w|] == w;
  }

  /** From a blank position, the rest of the line being joined plain words, the words are read in order. */
  lemma {:induction false} LexJoinedWords(s: string, i: nat, ws: seq<string>, acc: seq<string>)
    requires i <= |s| && ws != [] && PlainWords(ws)
    requires s[i..] == JoinWords(ws)
    ensures Lex(s, i, Blank, "", acc) == Ok(acc + ws)
    decreases |ws|
  {
    var w := ws[0];
    var n := |w|;
    JoinWordsHead(ws);
    assert s[i..i + n] == s[i..][..n];
    LexPlainWord(s, i, w, acc);
    if |ws| == 1 {
      assert ws == [w];
    } else {
      var rest := ws[1..];
      assert s[i + n] == s[i..][n];
      assert s[i + n + 1..] == s[i..][n + 1..];
      LexJoinedWords(s, i + n + 1, rest, acc + [w]);
      assert acc + [w] + rest == acc + ws;
    }
  }

  /** Splitting plain words joined by spaces gives the words back. */
  lemma SplitJoinWords(ws: seq<string>)
    requires PlainWords(ws)
    ensures Split(JoinWords(ws)) == Ok(ws)
  {
    if ws != [] {
      var s := JoinWords(ws);
      assert s[0..] == s;
      LexJoinedWords(s, 0, ws, []);
      assert [] + ws == ws;
    }
  }
}
