/**
 * driver/redis/redis.go, the client hook: commands named keys, flushall
 * or flushdb are refused before they reach the server, and large values
 * are reported first. A command is represented by its arguments; the
 * reports the hook logs are returned.
 */
module RedisHooks {
  import opened Wrappers
  import opened Text

  /** One command argument, as far as the hook looks at it. */
  datatype Arg =
    | StrArg(s: string)
    | BytesArg(b: seq<bv8>)
    | MarshalerArg(marshaled: Result<seq<bv8>, string>)
    | OtherArg

  datatype Cmd = Cmd(args: seq<Arg>)

  /** go-redis Cmder.Name: the first argument lower-cased, "" when it is missing or not a string. */
  function Name(cmd: Cmd): string {
    if |cmd.args| > 0 && cmd.args[0].StrArg? then ToLower(cmd.args[0].s) else ""
  }

  predicate Disabled(cmd: Cmd) {
    var n := ToLower(Name(cmd));
    n == "keys" || n == "flushall" || n == "flushdb"
  }

  /** isDisableCmd: the error for the first disabled command, or none. */
  method IsDisableCmd(cmds: seq<Cmd>) returns (r: Option<string>)
    ensures r.None? <==> forall i :: 0 <= i < |cmds| ==> !Disabled(cmds[i])
    ensures forall i :: (0 <= i < |cmds| && Disabled(cmds[i]) && forall j :: 0 <= j < i ==> !Disabled(cmds[j])) ==>
      r == Some("disable cmd: " + Name(cmds[i]))
  {
    var i := 0;
    while i < |cmds|
      invariant 0 <= i <= |cmds|
      invariant forall j :: 0 <= j < i ==> !Disabled(cmds[j])
    {
      var n := ToLower(Name(cmds[i]));
      if n == "keys" || n == "flushall" || n == "flushdb" {
        return Some("disable cmd: " + Name(cmds[i]));
      }
      i := i + 1;
    }
    return None;
  }

  // ------------------------------------------------------------ large values

  datatype LargeKeyReport = LargeKeyReport(command: string, key: string, size: nat)

  /** The type assertion on the command name or key fails when a large value is found. */
  datatype HookPanic = NotAString

  /** The size checkLargeKey measures: string or byte length, or the marshaled length. */
  function Size(a: Arg): Option<nat> {
    match a
    case StrArg(s) => Some(|s|)
    case BytesArg(b) => Some(|b|)
    case MarshalerArg(m) => if m.Ok? then Some(|m.value|) else None
    case OtherArg => None
  }

  function Combine(a: Result<seq<LargeKeyReport>, HookPanic>, b: Result<seq<LargeKeyReport>, HookPanic>): Result<seq<LargeKeyReport>, HookPanic> {
    if a.Err? then a else if b.Err? then b else Ok(a.value + b.value)
  }

  /** What one value argument at index j >= 2 contributes. */
  function ArgReport(largeKeyLen: int, args: seq<Arg>, j: nat): (r: Result<seq<LargeKeyReport>, HookPanic>)
    requires 2 <= j < |args|
    ensures r.Ok? ==> |r.value| <= 1 && forall rep :: rep in r.value ==> rep.size >= largeKeyLen && Size(args[j]) == Some(rep.size)
    ensures r.Ok? && |r.value| == 0 <==> Size(args[j]).None? || Size(args[j]).value < largeKeyLen
  {
    var sz := Size(args[j]);
    if sz.None? || sz.value < largeKeyLen then Ok([])
    else if args[0].StrArg? && args[1].StrArg? then Ok([LargeKeyReport(args[0].s, args[1].s, sz.value)])
    else Err(NotAString)
  }

  /** The reports for the value arguments args[2..n], in order, or the first panic. */
  function ValueReports(largeKeyLen: int, args: seq<Arg>, n: nat): (r: Result<seq<LargeKeyReport>, HookPanic>)
    requires 2 <= n <= |args|
    ensures r.Ok? ==> |r.value| <= n - 2
    ensures r.Ok? ==> forall rep :: rep in r.value ==> rep.size >= largeKeyLen && exists j :: 2 <= j < n && Size(args[j]) == Some(rep.size)
  {
    if n == 2 then Ok([])
    else Combine(ValueReports(largeKeyLen, args, n - 1), ArgReport(largeKeyLen, args, n - 1))
  }

  /** One command's reports: none with two arguments or fewer. */
  function CmdReports(largeKeyLen: int, cmd: Cmd): (r: Result<seq<LargeKeyReport>, HookPanic>)
    ensures |cmd.args| <= 2 ==> r == Ok([])
    ensures r.Ok? ==> forall rep :: rep in r.value ==> rep.size >= largeKeyLen && exists j :: 2 <= j < |cmd.args| && Size(cmd.args[j]) == Some(rep.size)
  {
    if |cmd.args| <= 2 then Ok([]) else ValueReports(largeKeyLen, cmd.args, |cmd.args|)
  }

  /** The reports for all commands, in order, or the first panic. */
  function AllReports(largeKeyLen: int, cmds: seq<Cmd>): (r: Result<seq<LargeKeyReport>, HookPanic>)
    ensures r.Ok? ==> forall rep :: rep in r.value ==>
      (rep.size >= largeKeyLen && exists i, j :: 0 <= i < |cmds| && 2 <= j < |cmds[i].args| && Size(cmds[i].args[j]) == Some(rep.size))
  {
    if cmds == [] then Ok([])
    else
      var front := cmds[..|cmds| - 1];
      var r := Combine(AllReports(largeKeyLen, front), CmdReports(largeKeyLen, cmds[|cmds| - 1]));
      assert forall i :: 0 <= i < |front| ==> front[i] == cmds[i];
      r
  }

  /**
   * The lines largeKeyLog has written for the value arguments below n:
   * every report up to the first panic. Without a panic this is
   * ValueReports.
   */
  function LoggedArgs(largeKeyLen: int, args: seq<Arg>, n: nat): (r: seq<LargeKeyReport>)
    requires 2 <= n <= |args|
    ensures ValueReports(largeKeyLen, args, n).Ok? ==> r == ValueReports(largeKeyLen, args, n).value
  {
    if n == 2 then []
    else if ValueReports(largeKeyLen, args, n - 1).Err? then LoggedArgs(largeKeyLen, args, n - 1)
    else
      var one := ArgReport(largeKeyLen, args, n - 1);
      LoggedArgs(largeKeyLen, args, n - 1) + (if one.Ok? then one.value else [])
  }

  /** The lines logged for one command. */
  function LoggedCmd(largeKeyLen: int, cmd: Cmd): (r: seq<LargeKeyReport>)
    ensures CmdReports(largeKeyLen, cmd).Ok? ==> r == CmdReports(largeKeyLen, cmd).value
  {
    if |cmd.args| <= 2 then [] else LoggedArgs(largeKeyLen, cmd.args, |cmd.args|)
  }

  /** The lines logged for the whole pipeline, up to the first panic. Without a panic this is AllReports. */
  function Logged(largeKeyLen: int, cmds: seq<Cmd>): (r: seq<LargeKeyReport>)
    ensures AllReports(largeKeyLen, cmds).Ok? ==> r == AllReports(largeKeyLen, cmds).value
  {
    if cmds == [] then []
    else
      var front := cmds[..|cmds| - 1];
      assert forall i :: 0 <= i < |front| ==> front[i] == cmds[i];
      if AllReports(largeKeyLen, front).Err? then Logged(largeKeyLen, front)
      else Logged(largeKeyLen, front) + LoggedCmd(largeKeyLen, cmds[|cmds| - 1])
  }

  /** checkLargeKey: the nested loop over commands and their value arguments. */
  method CheckLargeKey(largeKeyLen: int, cmds: seq<Cmd>) returns (r: Result<seq<LargeKeyReport>, HookPanic>, logged: seq<LargeKeyReport>)
    ensures r == AllReports(largeKeyLen, cmds)
    ensures logged == Logged(largeKeyLen, cmds)
  {
    var reports: seq<LargeKeyReport> := [];
    var i := 0;
    while i < |cmds|
      invariant 0 <= i <= |cmds|
      invariant AllReports(largeKeyLen, cmds[..i]) == Ok(reports)
      invariant Logged(largeKeyLen, cmds[..i]) == reports
    {
      assert cmds[..i + 1][..i] == cmds[..i];
      assert AllReports(largeKeyLen, cmds[..i + 1]) == Combine(Ok(reports), CmdReports(largeKeyLen, cmds[i]));
      var args := cmds[i].args;
      if |args| > 2 {
        var j := 2;
        var own: seq<LargeKeyReport> := [];
        while j < |args|
          invariant 2 <= j <= |args|
          invariant ValueReports(largeKeyLen, args, j) == Ok(own)
        {
          var sz := Size(args[j]);
          assert ValueReports(largeKeyLen, args, j + 1) == Combine(Ok(own), ArgReport(largeKeyLen, args, j));
          if sz.Some? && sz.value >= largeKeyLen {
            if !(args[0].StrArg? && args[1].StrArg?) {
              PanicAt(largeKeyLen, cmds, i, j, reports, own);
              assert AllReports(largeKeyLen, cmds).error == NotAString;
              return Err(NotAString), reports + own;
            }
            assert ArgReport(largeKeyLen, args, j) == Ok([LargeKeyReport(args[0].s, args[1].s, sz.value)]);
            own := own + [LargeKeyReport(args[0].s, args[1].s, sz.value)];
          } else {
            assert ArgReport(largeKeyLen, args, j) == Ok([]);
            assert own + [] == own;
          }
          j := j + 1;
        }
        assert CmdReports(largeKeyLen, cmds[i]) == Ok(own);
        reports := reports + own;
      } else {
        assert reports + [] == reports;
      }
      i := i + 1;
    }
    assert cmds[..i] == cmds;
    r := Ok(reports);
    logged := reports;
  }

  /** Once a value argument panics, so does every longer prefix. */
  lemma {:induction false} ValueReportsPanicStays(largeKeyLen: int, args: seq<Arg>, n: nat, m: nat)
    requires 2 <= n <= m <= |args|
    requires ValueReports(largeKeyLen, args, n).Err?
    ensures ValueReports(largeKeyLen, args, m).Err?
    decreases m - n
  {
    if n < m {
      ValueReportsPanicStays(largeKeyLen, args, n, m - 1);
    }
  }

  /** Once a command panics, so does every longer prefix of the pipeline. */
  lemma {:induction false} AllReportsPanicStays(largeKeyLen: int, cmds: seq<Cmd>, n: nat, m: nat)
    requires n <= m <= |cmds|
    requires AllReports(largeKeyLen, cmds[..n]).Err?
    ensures AllReports(largeKeyLen, cmds[..m]).Err?
    decreases m - n
  {
    if n < m {
      AllReportsPanicStays(largeKeyLen, cmds, n, m - 1);
      assert cmds[..m][..m - 1] == cmds[..m - 1];
    }
  }

  /** A value argument checkLargeKey reports: its size is known and reaches the limit. */
  predicate Large(largeKeyLen: int, a: Arg) {
    Size(a).Some? && Size(a).value >= largeKeyLen
  }

  /** The command name and key can be read as strings. */
  predicate Named(args: seq<Arg>) {
    |args| >= 2 && args[0].StrArg? && args[1].StrArg?
  }

  /**
   * The value arguments below n panic exactly when one of them is large
   * and the name or key is not a string; otherwise every large one is
   * reported with the name, the key and its size.
   */
  lemma {:induction false} ValueReportsComplete(largeKeyLen: int, args: seq<Arg>, n: nat)
    requires 2 <= n <= |args|
    ensures ValueReports(largeKeyLen, args, n).Ok? <==>
      forall j :: 2 <= j < n && Large(largeKeyLen, args[j]) ==> Named(args)
    ensures ValueReports(largeKeyLen, args, n).Ok? ==> forall j :: 2 <= j < n && Large(largeKeyLen, args[j]) ==>
      LargeKeyReport(args[0].s, args[1].s, Size(args[j]).value) in ValueReports(largeKeyLen, args, n).value
    decreases n
  {
    if n > 2 {
      ValueReportsComplete(largeKeyLen, args, n - 1);
    }
  }

  /** No large value argument of the command sits under a name or key that is not a string. */
  predicate NoPanicDue(largeKeyLen: int, cmd: Cmd) {
    forall j :: 2 <= j < |cmd.args| && Large(largeKeyLen, cmd.args[j]) ==> Named(cmd.args)
  }

  /** Every large value argument of the command is among the reports, with its name and key. */
  predicate AllLargeReported(largeKeyLen: int, cmd: Cmd, reports: seq<LargeKeyReport>) {
    forall j :: 2 <= j < |cmd.args| && Large(largeKeyLen, cmd.args[j]) && Named(cmd.args) ==>
      LargeKeyReport(cmd.args[0].s, cmd.args[1].s, Size(cmd.args[j]).value) in reports
  }

  /** ValueReportsComplete for one whole command. */
  lemma CmdReportsComplete(largeKeyLen: int, cmd: Cmd)
    ensures CmdReports(largeKeyLen, cmd).Ok? <==> NoPanicDue(largeKeyLen, cmd)
    ensures CmdReports(largeKeyLen, cmd).Ok? ==> AllLargeReported(largeKeyLen, cmd, CmdReports(largeKeyLen, cmd).value)
  {
    if |cmd.args| > 2 {
      ValueReportsComplete(largeKeyLen, cmd.args, |cmd.args|);
    }
  }

  /**
   * The pipeline panics exactly when some command has a large value
   * argument and a name or key that is not a string.
   */
  lemma {:induction false} AllReportsPanics(largeKeyLen: int, cmds: seq<Cmd>)
    ensures AllReports(largeKeyLen, cmds).Ok? <==> forall i :: 0 <= i < |cmds| ==> NoPanicDue(largeKeyLen, cmds[i])
    decreases |cmds|
  {
    if cmds != [] {
      var n := |cmds| - 1;
      var front := cmds[..n];
      AllReportsPanics(largeKeyLen, front);
      CmdReportsComplete(largeKeyLen, cmds[n]);
      assert forall i :: 0 <= i < n ==> front[i] == cmds[i];
      assert AllReports(largeKeyLen, cmds) == Combine(AllReports(largeKeyLen, front), CmdReports(largeKeyLen, cmds[n]));
    }
  }

  /**
   * checkLargeKey misses nothing: when the pipeline does not panic, every
   * large value argument of every command is reported with that command's
   * name and key.
   */
  lemma {:induction false} AllReportsComplete(largeKeyLen: int, cmds: seq<Cmd>)
    requires AllReports(largeKeyLen, cmds).Ok?
    ensures forall i :: 0 <= i < |cmds| ==> AllLargeReported(largeKeyLen, cmds[i], AllReports(largeKeyLen, cmds).value)
    decreases |cmds|
  {
    if cmds != [] {
      var n := |cmds| - 1;
      var front := cmds[..n];
      var a := AllReports(largeKeyLen, front);
      var b := CmdReports(largeKeyLen, cmds[n]);
      assert AllReports(largeKeyLen, cmds) == Combine(a, b);
      AllReportsComplete(largeKeyLen, front);
      CmdReportsComplete(largeKeyLen, cmds[n]);
      forall i | 0 <= i < |cmds|
        ensures AllLargeReported(largeKeyLen, cmds[i], a.value + b.value)
      {
        if i < n {
          assert front[i] == cmds[i];
          assert AllLargeReported(largeKeyLen, front[i], a.value);
        }
      }
    }
  }

  /**
   * A large value argument j under a name or key that is not a string makes
   * the command panic, with the lines its earlier arguments logged.
   */
  lemma CmdPanicAt(largeKeyLen: int, cmd: Cmd, j: nat, own: seq<LargeKeyReport>)
    requires 2 <= j < |cmd.args|
    requires ValueReports(largeKeyLen, cmd.args, j) == Ok(own)
    requires Large(largeKeyLen, cmd.args[j]) && !(cmd.args[0].StrArg? && cmd.args[1].StrArg?)
    ensures CmdReports(largeKeyLen, cmd).Err? && LoggedCmd(largeKeyLen, cmd) == own
  {
    var args := cmd.args;
    assert ValueReports(largeKeyLen, args, j + 1).Err?;
    ValueReportsPanicStays(largeKeyLen, args, j + 1, |args|);
    assert LoggedArgs(largeKeyLen, args, j + 1) == own;
    LoggedArgsPanicStays(largeKeyLen, args, j + 1, |args|);
  }

  /**
   * A panicking command i makes the whole pipeline panic, with the lines
   * logged by the commands before it and its own.
   */
  lemma PanicAt(largeKeyLen: int, cmds: seq<Cmd>, i: nat, j: nat, reports: seq<LargeKeyReport>, own: seq<LargeKeyReport>)
    requires i < |cmds| && 2 <= j < |cmds[i].args|
    requires AllReports(largeKeyLen, cmds[..i]) == Ok(reports) && Logged(largeKeyLen, cmds[..i]) == reports
    requires ValueReports(largeKeyLen, cmds[i].args, j) == Ok(own)
    requires Large(largeKeyLen, cmds[i].args[j]) && !(cmds[i].args[0].StrArg? && cmds[i].args[1].StrArg?)
    ensures AllReports(largeKeyLen, cmds).Err? && Logged(largeKeyLen, cmds) == reports + own
  {
    CmdPanicAt(largeKeyLen, cmds[i], j, own);
    var pre := cmds[..i + 1];
    assert pre[..i] == cmds[..i] && pre[i] == cmds[i];
    assert AllReports(largeKeyLen, pre).Err?;
    assert Logged(largeKeyLen, pre) == reports + own;
    AllReportsPanicStays(largeKeyLen, cmds, i + 1, |cmds|);
    LoggedPanicStays(largeKeyLen, cmds, i + 1, |cmds|);
    assert cmds[..|cmds|] == cmds;
  }

  /** After a panic no argument adds a log line. */
  lemma {:induction false} LoggedArgsPanicStays(largeKeyLen: int, args: seq<Arg>, n: nat, m: nat)
    requires 2 <= n <= m <= |args|
    requires ValueReports(largeKeyLen, args, n).Err?
    ensures LoggedArgs(largeKeyLen, args, m) == LoggedArgs(largeKeyLen, args, n)
    decreases m - n
  {
    if n < m {
      LoggedArgsPanicStays(largeKeyLen, args, n, m - 1);
      ValueReportsPanicStays(largeKeyLen, args, n, m - 1);
    }
  }

  /** After a panic no later command adds a log line. */
  lemma {:induction false} LoggedPanicStays(largeKeyLen: int, cmds: seq<Cmd>, n: nat, m: nat)
    requires n <= m <= |cmds|
    requires AllReports(largeKeyLen, cmds[..n]).Err?
    ensures Logged(largeKeyLen, cmds[..m]) == Logged(largeKeyLen, cmds[..n])
    decreases m - n
  {
    if n < m {
      LoggedPanicStays(largeKeyLen, cmds, n, m - 1);
      AllReportsPanicStays(largeKeyLen, cmds, n, m - 1);
      assert cmds[..m][..m - 1] == cmds[..m - 1];
    }
  }

  // ------------------------------------------------------------------- hooks

  datatype HookOutcome<R> =
    | Panicked(panic: HookPanic)
    | Refused(err: string)
    | Forwarded(result: R)

  /**
   * ProcessHook: large values are reported first; a disabled command is
   * refused and never reaches next; any other is passed to next.
   */
  method ProcessHook<R>(largeKeyLen: int, cmd: Cmd, next: Cmd -> R) returns (o: HookOutcome<R>, reports: seq<LargeKeyReport>)
    ensures AllReports(largeKeyLen, [cmd]).Err? ==> o == Panicked(AllReports(largeKeyLen, [cmd]).error) && reports == Logged(largeKeyLen, [cmd])
    ensures AllReports(largeKeyLen, [cmd]).Ok? ==> reports == AllReports(largeKeyLen, [cmd]).value
    ensures AllReports(largeKeyLen, [cmd]).Ok? && Disabled(cmd) ==> o == Refused("disable cmd: " + Name(cmd))
    ensures AllReports(largeKeyLen, [cmd]).Ok? && !Disabled(cmd) ==> o == Forwarded(next(cmd))
  {
    var checked, logged := CheckLargeKey(largeKeyLen, [cmd]);
    if checked.Err? {
      return Panicked(checked.error), logged;
    }
    reports := checked.value;
    var err := IsDisableCmd([cmd]);
    if err.Some? {
      return Refused(err.value), reports;
    }
    return Forwarded(next(cmd)), reports;
  }

  /**
   * ProcessPipelineHook: the same checks over the whole pipeline; one
   * disabled command refuses the pipeline and nothing is passed on.
   */
  method ProcessPipelineHook<R>(largeKeyLen: int, cmds: seq<Cmd>, next: seq<Cmd> -> R) returns (o: HookOutcome<R>, reports: seq<LargeKeyReport>)
    ensures AllReports(largeKeyLen, cmds).Err? ==> o == Panicked(AllReports(largeKeyLen, cmds).error) && reports == Logged(largeKeyLen, cmds)
    ensures AllReports(largeKeyLen, cmds).Ok? ==> reports == AllReports(largeKeyLen, cmds).value
    ensures o.Forwarded? ==> o.result == next(cmds) && forall i :: 0 <= i < |cmds| ==> !Disabled(cmds[i])
    ensures AllReports(largeKeyLen, cmds).Ok? && (exists i :: 0 <= i < |cmds| && Disabled(cmds[i])) ==> o.Refused?
    ensures forall i :: (AllReports(largeKeyLen, cmds).Ok? && 0 <= i < |cmds| && Disabled(cmds[i]) &&
      forall j :: 0 <= j < i ==> !Disabled(cmds[j])) ==> o == Refused("disable cmd: " + Name(cmds[i]))
    ensures AllReports(largeKeyLen, cmds).Ok? && (forall i :: 0 <= i < |cmds| ==> !Disabled(cmds[i])) ==> o == Forwarded(next(cmds))
  {
    var checked, logged := CheckLargeKey(largeKeyLen, cmds);
    if checked.Err? {
      return Panicked(checked.error), logged;
    }
    reports := checked.value;
    var err := IsDisableCmd(cmds);
    if err.Some? {
      return Refused(err.value), reports;
    }
    return Forwarded(next(cmds)), reports;
  }
}
