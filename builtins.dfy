/**
  The builtin table, the builtin commands and the dispatcher. The operating
  system is abstract: a builtin makes at most one system call that can fail,
  whose success is the parameter ok, and what a command does is recorded as
  a list of effects. A status of 1 means keep looping, 0 means stop.
 */
module Builtins {
  import opened Options

  const Continue: int := 1
  const Terminate: int := 0
  /** Permission bits 0755 and 0644. */
  const DirMode: int := 0x1ED
  const FileMode: int := 0x1A4

  /** Observable effects of running a command. */
  datatype Effect =
    | Stdout(text: string)
    | Stderr(text: string)
      /** perror("lsh"): "lsh: " and the system's description of the failure. */
    | OsError
    | ChangeDir(path: string)
    | MakeDir(path: string, mode: int)
      /** open(path, O_WRONLY | O_CREAT | O_EXCL, mode) */
    | CreateExclusive(path: string, mode: int)
    | CloseFile
      /** fork, execvp in the child and wait for it: lsh_launch. */
    | Spawn(argv: seq<string>)

  datatype Outcome = Outcome(status: int, effects: seq<Effect>)

  datatype Builtin = CdCmd | MkdirCmd | TouchCmd | HelpCmd | ExitCmd

  /** builtin_str and builtin_func, in table order. */
  const BuiltinNames: seq<string> := ["cd", "mkdir", "touch", "help", "exit"]
  const BuiltinHandlers: seq<Builtin> := [CdCmd, MkdirCmd, TouchCmd, HelpCmd, ExitCmd]

  /** lsh_num_builtins: the size of the name table, which the handler table matches. */
  function NumBuiltins(): (n: nat)
    ensures n == |BuiltinNames| == |BuiltinHandlers| == 5
  {
    |BuiltinNames|
  }

  /** The usage message reported when args[1] is NULL. */
  function Usage(command: string): string {
    "lsh: expected argument to \"" + command + "\"\n"
  }

  predicate IsOsCall(e: Effect) {
    e.ChangeDir? || e.MakeDir? || e.CreateExclusive? || e.CloseFile? || e.Spawn?
  }

  predicate NoOsCall(effects: seq<Effect>) {
    forall i :: 0 <= i < |effects| ==> !IsOsCall(effects[i])
  }

  // ---------------------------------------------------------------------
  // The builtins
  // ---------------------------------------------------------------------

  /**
    lsh_cd as written, the handler builtin_func[0] runs: its test
    `chdir(args[1]) == -0` compares with 0, the value chdir returns on
    success, so the error is reported when the directory change succeeds and
    not when it fails.
   */
  function CdAsWritten(args: seq<string>, ok: bool): (o: Outcome)
    ensures o.status == Continue
    ensures NoOsCall(o.effects) <==> |args| < 2
    ensures |args| < 2 ==> o.effects == [Stderr(Usage("cd"))]
    ensures |args| >= 2 ==> o.effects[0] == ChangeDir(args[1]) && (OsError in o.effects <==> ok)
    ensures |args| >= 2 ==> |o.effects| == (if ok then 2 else 1)
  {
    if |args| < 2 then Outcome(Continue, [Stderr(Usage("cd"))])
    else
      var e := [ChangeDir(args[1])] + (if ok then [OsError] else []);
      assert IsOsCall(e[0]);
      Outcome(Continue, e)
  }

  /** The discrepancy: a successful `cd /tmp` reports an error, a failing one is silent. */
  lemma CdAsWrittenInverted()
    ensures CdAsWritten(["cd", "/tmp"], true).effects == [ChangeDir("/tmp"), OsError]
    ensures CdAsWritten(["cd", "/missing"], false).effects == [ChangeDir("/missing")]
  {
  }

  /**
    lsh_cd with the test meant (chdir returning -1), as lsh_mkdir and
    lsh_touch test it: usage message and no system call without an argument,
    otherwise one chdir, with an error reported exactly when it fails.
    Always continues.
   */
  function Cd(args: seq<string>, ok: bool): (o: Outcome)
    ensures o.status == Continue
    ensures NoOsCall(o.effects) <==> |args| < 2
    ensures |args| < 2 ==> o.effects == [Stderr(Usage("cd"))]
    ensures |args| >= 2 ==> o.effects[0] == ChangeDir(args[1]) && (OsError in o.effects <==> !ok)
    ensures |args| >= 2 ==> |o.effects| == (if ok then 1 else 2)
  {
    if |args| < 2 then Outcome(Continue, [Stderr(Usage("cd"))])
    else
      var e := [ChangeDir(args[1])] + (if ok then [] else [OsError]);
      assert IsOsCall(e[0]);
      Outcome(Continue, e)
  }

  /** The corrected cd and the one as written differ exactly in when they report. */
  lemma CdFixReportsFailure(args: seq<string>, ok: bool)
    requires |args| >= 2
    ensures (OsError in Cd(args, ok).effects) != (OsError in CdAsWritten(args, ok).effects)
  {
  }

  /** lsh_mkdir: like cd, with mkdir(args[1], 0755). */
  function Mkdir(args: seq<string>, ok: bool): (o: Outcome)
    ensures o.status == Continue
    ensures NoOsCall(o.effects) <==> |args| < 2
    ensures |args| < 2 ==> o.effects == [Stderr(Usage("mkdir"))]
    ensures |args| >= 2 ==> o.effects[0] == MakeDir(args[1], DirMode) && (OsError in o.effects <==> !ok)
    ensures |args| >= 2 ==> |o.effects| == (if ok then 1 else 2)
  {
    if |args| < 2 then Outcome(Continue, [Stderr(Usage("mkdir"))])
    else
      var e := [MakeDir(args[1], DirMode)] + (if ok then [] else [OsError]);
      assert IsOsCall(e[0]);
      Outcome(Continue, e)
  }

  /**
    lsh_touch: an exclusive create with mode 0644, an error when it fails,
    and a close of the descriptor in either case.
   */
  function Touch(args: seq<string>, ok: bool): (o: Outcome)
    ensures o.status == Continue
    ensures NoOsCall(o.effects) <==> |args| < 2
    ensures |args| < 2 ==> o.effects == [Stderr(Usage("touch"))]
    ensures |args| >= 2 ==>
              o.effects[0] == CreateExclusive(args[1], FileMode) && o.effects[|o.effects| - 1] == CloseFile
              && (OsError in o.effects <==> !ok) && |o.effects| == (if ok then 2 else 3)
  {
    if |args| < 2 then Outcome(Continue, [Stderr(Usage("touch"))])
    else
      var e := [CreateExclusive(args[1], FileMode)] + (if ok then [] else [OsError]) + [CloseFile];
      assert IsOsCall(e[0]);
      Outcome(Continue, e)
  }

  /** lsh_exit: stop the loop, whatever the arguments. */
  function Exit(args: seq<string>): Outcome {
    Outcome(Terminate, [])
  }

  /** lsh_launch: run the program and wait; the child's status is never looked at. */
  function Launch(args: seq<string>): Outcome {
    Outcome(Continue, [Spawn(args)])
  }

  // ---------------------------------------------------------------------
  // help: a header, one line per table entry in table order, a footer
  // ---------------------------------------------------------------------

  const HelpHeader: seq<string> := [
    "Charlie Conley's LSH\n",
    "Type program names and arguments, and hit enter.\n",
    "The following are built in:\n"]
  const HelpFooter: string := "Use the man command for information on other programs.\n"

  function HelpLine(name: string): string {
    " " + name + "\n"
  }

  function HelpText(): seq<string> {
    HelpHeader + seq(NumBuiltins(), i requires 0 <= i < NumBuiltins() => HelpLine(BuiltinNames[i])) + [HelpFooter]
  }

  function Stdouts(lines: seq<string>): seq<Effect> {
    seq(|lines|, i requires 0 <= i < |lines| => Stdout(lines[i]))
  }

  /** The help text names every builtin, in table order, between header and footer. */
  lemma HelpListsBuiltins()
    ensures |HelpText()| == |HelpHeader| + NumBuiltins() + 1
    ensures forall i :: 0 <= i < NumBuiltins() ==> HelpText()[|HelpHeader| + i] == HelpLine(BuiltinNames[i])
    ensures HelpText()[..|HelpHeader|] == HelpHeader && HelpText()[|HelpText()| - 1] == HelpFooter
  {
  }

  /** lsh_help: prints the help text, one printf at a time, and continues. */
  method Help(args: seq<string>) returns (o: Outcome)
    ensures o.status == Continue
    ensures |o.effects| == |HelpText()|
    ensures forall k :: 0 <= k < |o.effects| ==> o.effects[k] == Stdout(HelpText()[k])
  {
    var out := [Stdout(HelpHeader[0]), Stdout(HelpHeader[1]), Stdout(HelpHeader[2])];
    for i := 0 to NumBuiltins()
      invariant |out| == |HelpHeader| + i
      invariant forall k :: 0 <= k < |out| ==> out[k] == Stdout(HelpText()[k])
    {
      out := out + [Stdout(HelpLine(BuiltinNames[i]))];
    }
    out := out + [Stdout(HelpFooter)];
    return Outcome(Continue, out);
  }

  // ---------------------------------------------------------------------
  // Dispatch
  // ---------------------------------------------------------------------

  /** The first index of a table whose entry is name. */
  function IndexIn(names: seq<string>, name: string): (r: Option<nat>)
    ensures r.Some? ==> r.value < |names| && names[r.value] == name
    ensures r.Some? ==> forall j :: 0 <= j < r.value ==> names[j] != name
    ensures r.None? <==> name !in names
  {
    if names == [] then None
    else if names[0] == name then Some(0)
    else match IndexIn(names[1..], name)
      case None => None
      case Some(j) => Some(j + 1)
  }

  /** First exact match in the name table, None when the name is not a builtin. */
  function Lookup(name: string): (r: Option<nat>)
    ensures r.Some? ==> r.value < NumBuiltins() && BuiltinNames[r.value] == name
    ensures r.Some? ==> forall j :: 0 <= j < r.value ==> BuiltinNames[j] != name
    ensures r.None? <==> name !in BuiltinNames
  {
    IndexIn(BuiltinNames, name)
  }

  /** The names in the table are distinct, so each one finds its own entry. */
  lemma LookupTable()
    ensures forall i :: 0 <= i < NumBuiltins() ==> Lookup(BuiltinNames[i]) == Some(i)
  {
    forall i | 0 <= i < NumBuiltins()
      ensures Lookup(BuiltinNames[i]) == Some(i)
    {
      assert forall j :: 0 <= j < i ==> |BuiltinNames[j]| != |BuiltinNames[i]| || BuiltinNames[j][0] != BuiltinNames[i][0];
    }
  }

  /** What calling builtin_func[i] does; exit's handler is the only one that stops the loop. */
  function RunBuiltin(b: Builtin, args: seq<string>, ok: bool): (o: Outcome)
    ensures o.status == (if b == ExitCmd then Terminate else Continue)
  {
    match b
    case CdCmd => CdAsWritten(args, ok)
    case MkdirCmd => Mkdir(args, ok)
    case TouchCmd => Touch(args, ok)
    case HelpCmd => Outcome(Continue, Stdouts(HelpText()))
    case ExitCmd => Exit(args)
  }

  /**
    What lsh_execute does with an argument vector: nothing for an empty one,
    the builtin named by args[0], or else a launch.
   */
  function Dispatch(args: seq<string>, ok: bool): Outcome
  {
    if |args| == 0 then Outcome(Continue, [])
    else match Lookup(args[0])
      case None => Launch(args)
      case Some(i) => RunBuiltin(BuiltinHandlers[i], args, ok)
  }

  /**
    lsh_execute's dispatch, case by case: nothing for an empty line, the
    handler paired with a name in the table, and a launch for anything else.
   */
  lemma DispatchCases(args: seq<string>, ok: bool)
    ensures |args| == 0 ==> Dispatch(args, ok) == Outcome(Continue, [])
    ensures forall i :: 0 <= i < NumBuiltins() && |args| > 0 && args[0] == BuiltinNames[i] ==>
              Dispatch(args, ok) == RunBuiltin(BuiltinHandlers[i], args, ok)
    ensures |args| > 0 && args[0] !in BuiltinNames ==> Dispatch(args, ok) == Launch(args)
  {
    LookupTable();
  }

  /** Only exit stops the loop; everything else, failures included, continues. */
  lemma DispatchStatus(args: seq<string>, ok: bool)
    ensures Dispatch(args, ok).status == Terminate <==> |args| > 0 && args[0] == "exit"
    ensures Dispatch(args, ok).status == Continue || Dispatch(args, ok).status == Terminate
  {
    DispatchCases(args, ok);
    if |args| > 0 && args[0] in BuiltinNames {
      var i := Lookup(args[0]).value;
      var name := BuiltinNames[i];
      assert name[0] == 'e' <==> i == 4;
      assert args[0] == "exit" <==> i == 4 by {
        if args[0] == "exit" { assert name[0] == 'e'; }
      }
    }
  }

  /** Calls the handler; help is the one builtin with a loop. */
  method Invoke(b: Builtin, args: seq<string>, ok: bool) returns (o: Outcome)
    ensures o == RunBuiltin(b, args, ok)
  {
    if b == HelpCmd {
      o := Help(args);
      assert o.effects == Stdouts(HelpText());
    } else {
      o := RunBuiltin(b, args, ok);
    }
  }

  /** lsh_execute: linear search of the name table, first exact match wins. */
  method Execute(args: seq<string>, ok: bool) returns (o: Outcome)
    ensures o == Dispatch(args, ok)
  {
    if |args| == 0 {
      return Outcome(Continue, []);
    }
    for i := 0 to NumBuiltins()
      invariant forall j :: 0 <= j < i ==> BuiltinNames[j] != args[0]
    {
      if args[0] == BuiltinNames[i] {
        o := Invoke(BuiltinHandlers[i], args, ok);
        return;
      }
    }
    o := Launch(args);
  }
}
