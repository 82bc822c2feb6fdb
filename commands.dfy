/** The command numbers of `enum command_entry`, the switch of `exec_command`,
    the range check of `try_get_menu_selection` and the scan of the command
    line for `-m`. Commands are plain `int`s, as in C: a `-m` argument can
    carry any number, not only one the enumeration names. */
module Commands {
  import opened CString

  const IDLE: int := 0
  const ADD_ENTRY: int := 1
  const STATS: int := 2
  const CUSTOMIZE: int := 3
  const SETUP: int := 4
  const VIEW_HOME: int := 5

  /** The command-line flag that selects a command directly. */
  const MENU_ARG: string := "-m"

  /** What the switch of `exec_command` does with a command number. */
  datatype Action =
    | ErrorIdle       // reports that it was asked to run IDLE
    | AddEntry        // prints a time-stamped log line
    | Setup           // runs the first-use setup
    | ViewHome        // prints the main menu with the username
    | NotImplemented  // every other number, STATS and CUSTOMIZE included

  function Dispatch(c: int): (a: Action)
    ensures a == ErrorIdle <==> c == IDLE
    ensures a == AddEntry <==> c == ADD_ENTRY
    ensures a == Setup <==> c == SETUP
    ensures a == ViewHome <==> c == VIEW_HOME
    ensures a == NotImplemented <==> c != IDLE && c != ADD_ENTRY && c != SETUP && c != VIEW_HOME
    ensures c == STATS || c == CUSTOMIZE ==> a == NotImplemented
  {
    match c
    case 0 => ErrorIdle
    case 1 => AddEntry
    case 4 => Setup
    case 5 => ViewHome
    case _ => NotImplemented
  }

  /** A C comparison evaluates to the `int` 1 or 0. */
  function CmpValue(b: bool): bv32 {
    if b then 1 else 0
  }

  /** The range test `menu_item < 4 & menu_item >= 0`: a bitwise and of two
      comparison results, which accepts exactly the numbers 0 to 3. */
  function AcceptsOption(n: int): (ok: bool)
    ensures ok <==> 0 <= n <= 3
  {
    CmpValue(n < 4) & CmpValue(n >= 0) != 0
  }

  /** The value `try_get_menu_selection` returns for a token typed at the prompt. */
  function MenuSelection(token: string): (r: int)
    ensures 0 <= Atoi(token) <= 3 ==> r == Atoi(token)
    ensures !(0 <= Atoi(token) <= 3) ==> r == IDLE
    ensures 0 <= r <= 3
  {
    var n := Atoi(token);
    if AcceptsOption(n) then n else IDLE
  }

  /** Typing the number n selects n when it names a menu entry, and IDLE otherwise. */
  lemma MenuSelectionOfShow(n: int)
    ensures MenuSelection(Show(n)) == if 0 <= n <= 3 then n else IDLE
  {
    AtoiShow(n);
  }

  /** What the `for` loop over `argv` in `run_app` finds. */
  datatype ArgScan =
    | NoFlag               // no "-m": the command stays IDLE
    | FlagValue(value: int) // the first "-m" and `atoi` of the argument after it
    | FlagWithoutValue     // the first "-m" is the last argument

  /** The outcome of finding the first "-m" at position `i`. */
  function FlagAt(argv: seq<string>, i: nat): ArgScan
    requires i < |argv|
  {
    if i + 1 < |argv| then FlagValue(Atoi(argv[i + 1])) else FlagWithoutValue
  }

  /** The argument scan: only the first "-m" counts. */
  function ScanArgs(argv: seq<string>): (r: ArgScan)
    ensures r == NoFlag <==> MENU_ARG !in argv
    ensures forall i :: 0 <= i < |argv| && argv[i] == MENU_ARG && MENU_ARG !in argv[..i] ==> r == FlagAt(argv, i)
  {
    if |argv| == 0 then NoFlag
    else if argv[0] == MENU_ARG then FlagAt(argv, 0)
    else
      var r := ScanArgs(argv[1..]);
      assert forall i :: 1 <= i < |argv| ==> argv[1..][i - 1] == argv[i] && argv[1..][..i - 1] == argv[1..i];
      r
  }
}
