// src/libtmux/pane.py: how a pane targets its commands, and the argv of
// resize, capture_pane, send_keys and kill. The direction flag map and the
// tmux 3.1 version probe are parameters; tmux's stderr is an input.
module PaneCommands {
  import opened Wrappers
  import opened Text
  import opened CommandFlags

  /** `any("-t" in str(x) for x in args)`: the caller already names a target. */
  predicate NamesTarget(args: seq<string>)
  {
    exists i :: 0 <= i < |args| && HasSubstring(args[i], "-t")
  }

  /** `Pane.cmd`'s rule: `-t <pane id>` goes in front unless some argument mentions `-t`. */
  function TargetArgs(paneId: string, args: seq<string>): (r: seq<string>)
    ensures NamesTarget(args) ==> r == args
    ensures !NamesTarget(args) ==> r == ["-t", paneId] + args
  {
    if NamesTarget(args) then args else ["-t", paneId] + args
  }

  /** The argv `Pane.cmd(cmd, *args)` hands to the server. */
  function PaneCommand(paneId: string, cmd: string, args: seq<string>): (argv: seq<string>)
    ensures |argv| > 0 && argv[0] == cmd && argv[1..] == TargetArgs(paneId, args)
  {
    [cmd] + TargetArgs(paneId, args)
  }

  lemma DashTNamesTarget(paneId: string, args: seq<string>)
    ensures NamesTarget(["-t", paneId] + args)
  {
    var r := ["-t", paneId] + args;
    assert OccursAt(r[0], "-t", 0);
  }

  /**
   * The arguments that come out always name a target, and they end with
   * the caller's arguments, unchanged.
   */
  lemma TargetArgsSound(paneId: string, args: seq<string>)
    ensures NamesTarget(TargetArgs(paneId, args))
    ensures |args| <= |TargetArgs(paneId, args)| && TargetArgs(paneId, args)[|TargetArgs(paneId, args)| - |args|..] == args
  {
    if !NamesTarget(args) {
      DashTNamesTarget(paneId, args);
      assert (["-t", paneId] + args)[2..] == args;
    }
  }

  /** Targeting twice is targeting once. */
  lemma TargetArgsIdempotent(paneId: string, args: seq<string>)
    ensures TargetArgs(paneId, TargetArgs(paneId, args)) == TargetArgs(paneId, args)
  {
    TargetArgsSound(paneId, args);
  }

  /** A word that contains `-t` holds both a `-` and a `t`. */
  lemma DashTChars(w: string)
    ensures HasSubstring(w, "-t") ==> '-' in w && 't' in w
  {
    if HasSubstring(w, "-t") {
      var i :| 0 <= i <= |w| - 2 && OccursAt(w, "-t", i);
      assert w[i] == w[i..i + 2][0];
      assert w[i + 1] == w[i..i + 2][1];
    }
  }

  /** Arguments none of which contains `-t` get the pane's target. */
  lemma TargetAdded(paneId: string, args: seq<string>)
    requires forall i :: 0 <= i < |args| ==> '-' !in args[i] || 't' !in args[i]
    ensures TargetArgs(paneId, args) == ["-t", paneId] + args
  {
    forall i | 0 <= i < |args| ensures !HasSubstring(args[i], "-t") {
      DashTChars(args[i]);
    }
  }

  /** `str()` of an int is a minus sign and digits. */
  lemma DecimalChars(i: int)
    ensures forall k :: 0 <= k < |IntToString(i)| ==> IntToString(i)[k] == '-' || IsDigit(IntToString(i)[k])
  {
    var s := NatToString(if i < 0 then -i else i);
    assert forall k :: 0 <= k < |s| ==> IsDigit(s[k]);
    if i < 0 {
      assert IntToString(i) == "-" + s;
      assert forall k :: 0 <= k < |"-" + s| ==> ("-" + s)[k] == '-' || IsDigit(("-" + s)[k]);
    }
  }

  lemma DecimalHasNoT(i: int)
    ensures 't' !in IntToString(i)
  {
    DecimalChars(i);
  }

  // ---- resize ----

  /** `ResizeAdjustmentDirection`. */
  datatype Direction = Up | Down | Left | Right

  /** A height or width: a string such as `"50%"` or `"20"`, or an int. */
  datatype Dimension = DimStr(s: string) | DimInt(n: int)

  /** Python truthiness of an optional height or width: None, `""` and `0` are false. */
  predicate Given(d: Option<Dimension>)
  {
    match d
    case None => false
    case Some(DimStr(s)) => s != ""
    case Some(DimInt(n)) => n != 0
  }

  /** The exceptions resize raises: before running the command, and for stderr. */
  datatype ResizeError =
    | AdjustmentDirectionRequiresAdjustment
    | VersionTooLow
    | RequiresDigitOrPercentage
    | ResizeFailed(stderr: seq<string>)

  /** The text of a dimension in `f"-y{height}"`. */
  function DimensionText(d: Dimension): string
  {
    match d
    case DimStr(s) => s
    case DimInt(n) => IntToString(n)
  }

  /**
   * The check on a string height or width: a `%` value needs tmux 3.1
   * (checked first); otherwise it must be all digits or end in `%`. An int
   * is not checked.
   */
  function DimensionError(d: Dimension, gteV31: bool): (r: Option<ResizeError>)
    ensures d.DimInt? ==> r.None?
    ensures d.DimStr? && EndsWith(d.s, "%") ==> (r.Some? <==> !gteV31) && (r.Some? ==> r.value == VersionTooLow)
    ensures d.DimStr? && !EndsWith(d.s, "%") ==>
              (r.Some? <==> !IsDigits(d.s)) && (r.Some? ==> r.value == RequiresDigitOrPercentage)
  {
    match d
    case DimInt(_) => None
    case DimStr(s) =>
      if EndsWith(s, "%") && !gteV31 then Some(VersionTooLow)
      else if !IsDigits(s) && !EndsWith(s, "%") then Some(RequiresDigitOrPercentage)
      else None
  }

  /**
   * resize's arguments before targeting: the adjustment, else height and
   * width, else zoom, else mouse, with -T after whichever branch ran.
   */
  function ResizeArgs(direction: Option<Direction>, adjustment: Option<int>,
                      height: Option<Dimension>, width: Option<Dimension>, zoom: bool, mouse: bool,
                      trimBelow: bool, dirFlag: Direction -> string, gteV31: bool): (r: Result<seq<string>, ResizeError>)
    ensures r.Err? ==> !r.error.ResizeFailed?
    ensures direction.Some? ==>
              if adjustment.None? then r == Err(AdjustmentDirectionRequiresAdjustment)
              else r == Ok([dirFlag(direction.value), IntToString(adjustment.value)] + Keep("-T", trimBelow))
    ensures direction.None? && !Given(height) && !Given(width) ==>
              r == Ok((if zoom then ["-Z"] else if mouse then ["-M"] else []) + Keep("-T", trimBelow))
    ensures direction.None? && (Given(height) || Given(width)) ==>
              var hErr := if Given(height) then DimensionError(height.value, gteV31) else None;
              var wErr := if Given(width) then DimensionError(width.value, gteV31) else None;
              (hErr.Some? ==> r == Err(hErr.value))
              && (hErr.None? && wErr.Some? ==> r == Err(wErr.value))
              && (hErr.None? && wErr.None? ==>
                    r == Ok((if Given(height) then ["-y" + DimensionText(height.value)] else [])
                            + (if Given(width) then ["-x" + DimensionText(width.value)] else [])
                            + Keep("-T", trimBelow)))
  {
    if direction.Some? then
      if adjustment.None? then Err(AdjustmentDirectionRequiresAdjustment)
      else Ok([dirFlag(direction.value), IntToString(adjustment.value)] + Keep("-T", trimBelow))
    else if Given(height) || Given(width) then
      if Given(height) && DimensionError(height.value, gteV31).Some? then Err(DimensionError(height.value, gteV31).value)
      else if Given(width) && DimensionError(width.value, gteV31).Some? then Err(DimensionError(width.value, gteV31).value)
      else
        Ok((if Given(height) then ["-y" + DimensionText(height.value)] else [])
           + (if Given(width) then ["-x" + DimensionText(width.value)] else [])
           + Keep("-T", trimBelow))
    else Ok((if zoom then ["-Z"] else if mouse then ["-M"] else []) + Keep("-T", trimBelow))
  }

  /** Only one sizing branch contributes: zoom and mouse are ignored once a size is given, and mouse once zoom is. */
  lemma ResizeOneBranch(direction: Option<Direction>, adjustment: Option<int>,
                        height: Option<Dimension>, width: Option<Dimension>, zoom: bool, mouse: bool,
                        trimBelow: bool, dirFlag: Direction -> string, gteV31: bool)
    requires direction.None?
    ensures var r := ResizeArgs(direction, adjustment, height, width, zoom, mouse, trimBelow, dirFlag, gteV31);
            r.Ok? ==> ("-Z" in r.value <==> zoom && !Given(height) && !Given(width))
                      && ("-M" in r.value <==> mouse && !zoom && !Given(height) && !Given(width))
  {
    var r := ResizeArgs(direction, adjustment, height, width, zoom, mouse, trimBelow, dirFlag, gteV31);
    if r.Ok? && (Given(height) || Given(width)) {
      var h := if Given(height) then ["-y" + DimensionText(height.value)] else [];
      var w := if Given(width) then ["-x" + DimensionText(width.value)] else [];
      assert r.value == h + w + Keep("-T", trimBelow);
      forall x | x in r.value ensures x != "-Z" && x != "-M" {
        if x in h { assert x[1] == 'y'; }
        else if x in w { assert x[1] == 'x'; }
        else { assert x == "-T"; }
      }
    }
  }

  /** A percentage needs tmux 3.1, and that is checked before anything else about the value. */
  lemma PercentNeedsTmux31(s: string, width: Option<Dimension>, trimBelow: bool, dirFlag: Direction -> string)
    requires s != "" && EndsWith(s, "%")
    ensures ResizeArgs(None, None, Some(DimStr(s)), width, false, false, trimBelow, dirFlag, false) == Err(VersionTooLow)
  {
  }

  /** On tmux 3.1 or later `-y<n>%` goes through, before any width. */
  lemma PercentHeight(digits: string, width: nat, dirFlag: Direction -> string)
    requires IsDigits(digits)
    ensures ResizeArgs(None, None, Some(DimStr(digits + "%")), Some(DimInt(width)), false, false, false, dirFlag, true)
            == Ok(["-y" + digits + "%"] + (if width == 0 then [] else ["-x" + NatToString(width)]))
  {
    var s := digits + "%";
    assert s[|s| - 1..] == "%";
    assert EndsWith(s, "%");
    assert DimensionError(DimStr(s), true).None?;
    assert "-y" + digits + "%" == "-y" + s;
    var h := Some(DimStr(s));
    var w := Some(DimInt(width));
    assert Given(h);
    if width != 0 {
      assert Given(w);
      assert DimensionText(DimInt(width)) == NatToString(width);
      assert ResizeArgs(None, None, h, w, false, false, false, dirFlag, true)
             == Ok(["-y" + s] + ["-x" + NatToString(width)] + []);
      assert ["-y" + s] + ["-x" + NatToString(width)] + [] == ["-y" + s] + ["-x" + NatToString(width)];
    } else {
      assert !Given(w);
      assert ResizeArgs(None, None, h, w, false, false, false, dirFlag, true)
             == Ok(["-y" + s] + [] + []);
      assert ["-y" + s] + [] + [] == ["-y" + s] + [];
    }
  }

  /** A string that is neither digits nor a percentage is rejected. */
  lemma TextDimensionRejected(s: string, dirFlag: Direction -> string, gteV31: bool)
    requires s != "" && !IsDigits(s) && !EndsWith(s, "%")
    ensures ResizeArgs(None, None, None, Some(DimStr(s)), false, false, false, dirFlag, gteV31)
            == Err(RequiresDigitOrPercentage)
  {
  }

  /** `-T` is the last argument exactly when trimming below. */
  lemma TrimBelowLast(direction: Option<Direction>, adjustment: Option<int>,
                      height: Option<Dimension>, width: Option<Dimension>, zoom: bool, mouse: bool,
                      trimBelow: bool, dirFlag: Direction -> string, gteV31: bool)
    ensures var r := ResizeArgs(direction, adjustment, height, width, zoom, mouse, trimBelow, dirFlag, gteV31);
            r.Ok? ==> (trimBelow <==> r.value != [] && r.value[|r.value| - 1] == "-T")
  {
    var r := ResizeArgs(direction, adjustment, height, width, zoom, mouse, trimBelow, dirFlag, gteV31);
    if r.Ok? && !trimBelow && r.value != [] {
      var last := r.value[|r.value| - 1];
      if direction.Some? {
        var a := IntToString(adjustment.value);
        assert last == a;
        DecimalHasNoT(adjustment.value);
        assert "-T"[1] == 'T';
        if a == "-T" { assert false; }
      } else if Given(height) || Given(width) {
        assert last[1] == 'y' || last[1] == 'x';
      }
    }
  }

  /**
   * `resize`: the argument tuple grown branch by branch, then
   * `resize-pane` through the pane's target rule; the command runs only
   * when the arguments are valid, and non-empty stderr raises.
   */
  method Resize(paneId: string, direction: Option<Direction>, adjustment: Option<int>,
                height: Option<Dimension>, width: Option<Dimension>, zoom: bool, mouse: bool, trimBelow: bool,
                dirFlag: Direction -> string, gteV31: bool, stderr: seq<string>)
    returns (sent: Option<seq<string>>, err: Option<ResizeError>)
    ensures var args := ResizeArgs(direction, adjustment, height, width, zoom, mouse, trimBelow, dirFlag, gteV31);
            (sent.None? <==> args.Err?)
            && (args.Err? ==> err == Some(args.error))
            && (args.Ok? ==> sent == Some(PaneCommand(paneId, "resize-pane", args.value))
                             && err == (if stderr != [] then Some(ResizeFailed(stderr)) else None))
  {
    var tmuxArgs: seq<string> := [];
    if direction.Some? {
      if adjustment.None? {
        return None, Some(AdjustmentDirectionRequiresAdjustment);
      }
      tmuxArgs := tmuxArgs + [dirFlag(direction.value), IntToString(adjustment.value)];
      assert tmuxArgs == [dirFlag(direction.value), IntToString(adjustment.value)];
    } else if Given(height) || Given(width) {
      if Given(height) {
        var bad := DimensionError(height.value, gteV31);
        if bad.Some? {
          return None, bad;
        }
        tmuxArgs := tmuxArgs + ["-y" + DimensionText(height.value)];
      }
      if Given(width) {
        var bad := DimensionError(width.value, gteV31);
        if bad.Some? {
          return None, bad;
        }
        tmuxArgs := tmuxArgs + ["-x" + DimensionText(width.value)];
      }
      assert tmuxArgs == (if Given(height) then ["-y" + DimensionText(height.value)] else [])
                         + (if Given(width) then ["-x" + DimensionText(width.value)] else []);
    } else if zoom {
      tmuxArgs := tmuxArgs + ["-Z"];
      assert tmuxArgs == ["-Z"];
    } else if mouse {
      tmuxArgs := tmuxArgs + ["-M"];
      assert tmuxArgs == ["-M"];
    }
    ghost var chosen := tmuxArgs;
    if trimBelow {
      tmuxArgs := tmuxArgs + ["-T"];
    }
    assert tmuxArgs == chosen + Keep("-T", trimBelow);
    assert ResizeArgs(direction, adjustment, height, width, zoom, mouse, trimBelow, dirFlag, gteV31) == Ok(tmuxArgs);
    sent := Some(PaneCommand(paneId, "resize-pane", tmuxArgs));
    err := if stderr != [] then Some(ResizeFailed(stderr)) else None;
  }

  // ---- capture_pane ----

  /** A capture bound: `"-"` (the edge of the history) or a line number. */
  datatype LineRef = Edge | Line(n: int)

  function LineText(b: LineRef): (w: string)
    ensures forall k :: 0 <= k < |w| ==> w[k] == '-' || IsDigit(w[k])
  {
    match b
    case Edge => "-"
    case Line(n) => DecimalChars(n); IntToString(n)
  }

  /** capture_pane's tmux arguments: `-p`, then `-S start` and `-E end` for the bounds given. */
  function CaptureArgs(start: Option<LineRef>, end: Option<LineRef>): (cmd: seq<string>)
    ensures |cmd| >= 1 && cmd[0] == "-p"
  {
    ["-p"] + (if start.Some? then ["-S", LineText(start.value)] else [])
           + (if end.Some? then ["-E", LineText(end.value)] else [])
  }

  /** No bound's text is a flag, so `-S` and `-E` appear only when asked for. */
  lemma BoundsFlags(start: Option<LineRef>, end: Option<LineRef>)
    ensures var cmd := CaptureArgs(start, end);
            (start.Some? <==> "-S" in cmd) && (end.Some? <==> "-E" in cmd)
  {
    var s := if start.Some? then ["-S", LineText(start.value)] else [];
    var e := if end.Some? then ["-E", LineText(end.value)] else [];
    var cmd := CaptureArgs(start, end);
    assert cmd == ["-p"] + s + e;
    forall w | w in cmd ensures (w == "-S" ==> start.Some?) && (w == "-E" ==> end.Some?) {
      if w in s && w != "-S" {
        assert w == LineText(start.value);
        if |w| == 2 { assert w[1] == '-' || IsDigit(w[1]); }
      } else if w in e && w != "-E" {
        assert w == LineText(end.value);
        if |w| == 2 { assert w[1] == '-' || IsDigit(w[1]); }
      }
    }
    if start.Some? { assert cmd[1] == "-S"; }
    if end.Some? { assert cmd[|cmd| - 2] == "-E"; }
  }

  /** No word of capture_pane's arguments holds a `t`, so the target is added. */
  lemma CaptureArgsTargeted(paneId: string, start: Option<LineRef>, end: Option<LineRef>)
    ensures TargetArgs(paneId, CaptureArgs(start, end)) == ["-t", paneId] + CaptureArgs(start, end)
  {
    var cmd := CaptureArgs(start, end);
    forall i | 0 <= i < |cmd| ensures 't' !in cmd[i] {
    }
    TargetAdded(paneId, cmd);
  }

  /** The whole capture argv: the target goes in front and the bounds' switches sit after it. */
  lemma CaptureCommand(paneId: string, start: Option<LineRef>, end: Option<LineRef>)
    ensures var argv := PaneCommand(paneId, "capture-pane", CaptureArgs(start, end));
            argv == ["capture-pane", "-t", paneId] + CaptureArgs(start, end)
            && (start.Some? <==> "-S" in argv[3..]) && (end.Some? <==> "-E" in argv[3..])
  {
    var cmd := CaptureArgs(start, end);
    CaptureArgsTargeted(paneId, start, end);
    BoundsFlags(start, end);
    var argv := PaneCommand(paneId, "capture-pane", cmd);
    assert argv[3..] == cmd;
  }

  /**
   * `capture_pane`: `-p` and the bounds given, sent through the pane's
   * `cmd`, which adds the target.
   */
  method CapturePane(paneId: string, start: Option<LineRef>, end: Option<LineRef>) returns (argv: seq<string>)
    ensures argv == ["capture-pane", "-t", paneId] + CaptureArgs(start, end)
    ensures start.Some? <==> "-S" in argv[3..]
    ensures end.Some? <==> "-E" in argv[3..]
  {
    var cmd := ["-p"];
    if start.Some? {
      cmd := cmd + ["-S", LineText(start.value)];
    }
    if end.Some? {
      cmd := cmd + ["-E", LineText(end.value)];
    }
    assert cmd == CaptureArgs(start, end);
    CaptureCommand(paneId, start, end);
    argv := PaneCommand(paneId, "capture-pane", cmd);
  }

  // ---- send_keys and kill ----

  /**
   * `send_keys`: one `send-keys` with `-l` when literal and the text,
   * prefixed by a space when suppressing history; then, when `enter`,
   * `send-keys Enter`. Both go through the pane's target rule.
   */
  function SendKeysCommands(paneId: string, cmd: string, enter: bool, suppressHistory: bool, literal: bool)
    : (calls: seq<seq<string>>)
    ensures |calls| == if enter then 2 else 1
    ensures calls[0] == PaneCommand(paneId, "send-keys", Keep("-l", literal) + [(if suppressHistory then " " else "") + cmd])
    ensures enter ==> calls[1] == ["send-keys", "-t", paneId, "Enter"]
  {
    var prefix := if suppressHistory then " " else "";
    var keys := PaneCommand(paneId, "send-keys", Keep("-l", literal) + [prefix + cmd]);
    assert '-' !in "Enter";
    TargetAdded(paneId, ["Enter"]);
    if enter then [keys, PaneCommand(paneId, "send-keys", ["Enter"])] else [keys]
  }

  /** Text without a `t` is sent to this pane, after `-l` when literal. */
  lemma KeysWithoutT(paneId: string, cmd: string, suppressHistory: bool, literal: bool)
    requires 't' !in cmd
    ensures SendKeysCommands(paneId, cmd, false, suppressHistory, literal)[0]
            == ["send-keys", "-t", paneId] + Keep("-l", literal) + [(if suppressHistory then " " else "") + cmd]
  {
    var args := Keep("-l", literal) + [(if suppressHistory then " " else "") + cmd];
    forall i | 0 <= i < |args| ensures 't' !in args[i] {
      if i == |args| - 1 && suppressHistory {
        assert args[i] == " " + cmd;
      }
    }
    TargetAdded(paneId, args);
  }

  /**
   * The target rule looks inside the key text: keys that mention `-t`
   * (`ls -t`) are sent without this pane's target, so tmux delivers them to
   * its current pane instead.
   */
  lemma KeysMentioningDashT(paneId: string)
    ensures SendKeysCommands(paneId, "ls -t", false, false, false)[0] == ["send-keys", "ls -t"]
  {
    var args := Keep("-l", false) + ["" + "ls -t"];
    assert args[0] == "ls -t";
    assert OccursAt(args[0], "-t", 3);
  }

  /** `kill`: `kill-pane`, `-a` when killing all the others; non-empty stderr raises. */
  method Kill(paneId: string, allExcept: bool, stderr: seq<string>) returns (argv: seq<string>, failed: bool)
    ensures argv == ["kill-pane", "-t", paneId] + Keep("-a", allExcept)
    ensures allExcept <==> "-a" in argv[3..]
    ensures failed <==> stderr != []
  {
    var flags: seq<string> := [];
    if allExcept {
      flags := flags + ["-a"];
    }
    assert forall i :: 0 <= i < |flags| ==> flags[i] == "-a";
    TargetAdded(paneId, flags);
    argv := PaneCommand(paneId, "kill-pane", flags);
    assert argv[3..] == flags;
    failed := stderr != [];
  }
}
