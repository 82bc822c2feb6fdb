/** The journal as the C program runs it: the globals `username` and
    `usr_f` (here the profile file itself), standard input and standard output
    are the fields of one object. The C functions that read input or change
    those globals (`set_user_name`, `exec_command`, `try_get_menu_selection`,
    `try_load_saved_data`, the prompt loop, `run_app`) are methods that update
    them in place; the `argv` scan and `main` are methods too. The printing
    helpers are folded into the methods that call them, and `is_first_use` is
    a test on the profile. Every method is proved to leave the object in the
    state its function in `App` describes. */
module Tracker {
  import opened CString
  import opened Commands
  import opened Profile
  import opened App

  class MoodTracker {
    var username: string
    var file: UserFile
    var stdin: seq<string>
    var out: seq<Event>

    function State(): World
      reads this
    {
      World(username, file, stdin, out)
    }

    constructor (file: UserFile, stdin: seq<string>)
      ensures State() == Start(file, stdin)
    {
      username := "";
      this.file := file;
      this.stdin := stdin;
      out := [];
    }

    /** `scanf("%s", buf)` into a buffer of `size` bytes. */
    method ReadToken(size: nat) returns (r: Read)
      modifies this
      ensures (State(), r) == Scan(old(State()), size)
    {
      if |stdin| == 0 {
        r := Eof;
      } else {
        r := if |stdin[0]| < size then Token(stdin[0]) else TooLong;
        stdin := stdin[1..];
      }
    }

    /** `set_user_name`, with its self-call turned into a loop. */
    method SetUserName() returns (st: Status)
      modifies this
      ensures (State(), st) == SetUserNameSpec(old(State()))
    {
      st := Returned;
      var again := true;
      while again
        invariant again ==> st == Returned && SetUserNameSpec(State()) == SetUserNameSpec(old(State()))
        invariant !again ==> (State(), st) == SetUserNameSpec(old(State()))
        decreases |stdin| + (if again then 1 else 0)
      {
        var name := ReadToken(USERNAME_SIZE);
        if !name.Token? {
          st, again := Halted(ReadFailure(name)), false;
        } else {
          username := name.text;
          var answer := ReadToken(OPTION_SIZE);
          if !answer.Token? {
            st, again := Halted(ReadFailure(answer)), false;
          } else if IsYes(answer.text) {
            file := Save(username);
            out := out + [SavedName(username)];
            again := false;
          } else if !IsNo(answer.text) {
            again := false;
          }
        }
      }
    }

    /** `exec_command`; the screen clear it forks for changes nothing here. */
    method ExecCommand(c: int) returns (st: Status)
      modifies this
      ensures (State(), st) == ExecSpec(old(State()), c)
    {
      out := out + [Exec(c)];
      st := Returned;
      match Dispatch(c)
      case ErrorIdle =>
      case AddEntry =>
      case Setup => st := SetUserName();
      case ViewHome => out := out + [Menu(username)];
      case NotImplemented =>
    }

    /** `try_get_menu_selection`: the status and the command it returns. */
    method TryGetMenuSelection() returns (st: Status, c: int)
      modifies this
      ensures (State(), st, c) == SelectSpec(old(State()))
    {
      var option := ReadToken(OPTION_SIZE);
      if !option.Token? {
        return Halted(ReadFailure(option)), IDLE;
      }
      var item := Atoi(option.text);
      if AcceptsOption(item) {
        return Returned, item;
      }
      out := out + [InvalidOption];
      return Returned, IDLE;
    }

    /** `try_load_saved_data`: whether the profile could be read; the username is loaded when it could. */
    method TryLoadSavedData() returns (ok: bool)
      modifies this
      ensures ok <==> TryLoad(old(file), old(username)).Some?
      ensures State() == if ok then old(State()).(username := TryLoad(old(file), old(username)).value) else old(State())
    {
      var loaded := TryLoad(file, username);
      ok := loaded.Some?;
      if ok {
        username := loaded.value;
      }
    }

    /** The loop `while (c_entry == IDLE) c_entry = try_get_menu_selection();`. */
    method PromptUntilChosen() returns (st: Status, c: int)
      modifies this
      ensures (State(), st, c) == PromptSpec(old(State()))
    {
      st, c := Returned, IDLE;
      while c == IDLE && st == Returned
        invariant c == IDLE && st == Returned ==> PromptSpec(State()) == PromptSpec(old(State()))
        invariant !(c == IDLE && st == Returned) ==> (State(), st, c) == PromptSpec(old(State()))
        decreases |stdin| + (if c == IDLE && st == Returned then 1 else 0)
      {
        st, c := TryGetMenuSelection();
      }
    }

    /** `run_app`. */
    method RunApp(argv: seq<string>) returns (st: Status)
      modifies this
      ensures (State(), st) == RunSpec(old(State()), argv)
    {
      var c: int;
      if IsFirstUse(file) {
        c := SETUP;
        st := ExecCommand(c);
        if st != Returned {
          return;
        }
      } else {
        var loaded := TryLoadSavedData();
        if !loaded {
          out := out + [LoadFailed];
          return Halted(Abort);
        }
      }

      c := IDLE;
      var scan := ScanMenuArg(argv);
      match scan {
        case FlagWithoutValue =>
          return Halted(MissingValue);
        case FlagValue(n) =>
          if !InIntRange(n) {
            return Halted(IntOverflow);
          }
          c := n;
          out := out + [Selected(c)];
        case NoFlag =>
      }

      if c == IDLE {
        c := VIEW_HOME;
        st := ExecCommand(c);
        st, c := PromptUntilChosen();
        if st != Returned {
          return;
        }
      }
      st := ExecCommand(c);
    }
  }

  /** The `for` loop of `run_app` over `argv`: it stops at the first "-m". */
  method ScanMenuArg(argv: seq<string>) returns (r: ArgScan)
    ensures r == ScanArgs(argv)
  {
    r := NoFlag;
    var i := 0;
    while i < |argv|
      invariant 0 <= i <= |argv|
      invariant MENU_ARG !in argv[..i]
    {
      if argv[i] == MENU_ARG {
        assert MENU_ARG !in argv[..i];
        return FlagAt(argv, i);
      }
      i := i + 1;
      assert argv[..i] == argv[..i - 1] + [argv[i - 1]];
    }
    assert argv[..i] == argv;
  }

  /** `main`: a fresh process runs `run_app` once. */
  method Launch(file: UserFile, stdin: seq<string>, argv: seq<string>) returns (w: World, st: Status)
    ensures (w, st) == Program(file, stdin, argv)
  {
    var app := new MoodTracker(file, stdin);
    st := app.RunApp(argv);
    w := app.State();
  }
}
