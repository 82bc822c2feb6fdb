/** The journal's control flow as functions on the process state: one
    function per step of the control flow (`set_user_name`, `exec_command`,
    `try_get_menu_selection`, the prompt loop, the command resolution,
    `run_app`, `main`). The printing helpers have no function of their own:
    `put_main_menu`, `add_log_entry`, `put_warning` and the banner of
    `run_user_setup` are events of the trace. Standard input is the
    sequence of tokens `scanf("%s")` would read, standard output a trace of
    events. Where the C program has undefined behaviour (reading past the end
    of input, a token that with its terminating NUL does not fit its buffer, `atoi(NULL)`, an `atoi` result
    that does not fit an `int`), or calls `exit`, the model stops with a
    `Halted` status instead. */
module App {
  import opened CString
  import opened Commands
  import opened Profile

  /** `char option[3]` and `char confirm[3]`: two characters and the terminator. */
  const OPTION_SIZE: nat := 3

  datatype Event =
    | Exec(command: int)      // `exec_command` entered with this command (its screen clear is a no-op here)
    | Menu(name: string)      // the main menu, greeting the current username
    | Selected(command: int)  // the acknowledgement of a `-m` value
    | InvalidOption           // the rejection message of `try_get_menu_selection`
    | SavedName(name: string) // the username written to the profile file
    | LoadFailed              // the warning printed before giving up on an unreadable profile

  datatype Halt =
    | Abort          // `exit(0)` after the profile could not be read
    | OutOfInput     // a read found no more input
    | BufferOverflow // a token longer than the buffer it is read into
    | MissingValue   // "-m" was the last argument, so `argv[argc]` would be parsed
    | IntOverflow    // the `-m` value does not fit an `int`

  datatype Status = Returned | Halted(halt: Halt)

  /** The global `username`, the profile file, the unread input and the output so far. */
  datatype World = World(username: string, file: UserFile, stdin: seq<string>, out: seq<Event>)

  /** The state at process start: the global username buffer is zeroed and nothing is printed. */
  function Start(file: UserFile, stdin: seq<string>): World {
    World("", file, stdin, [])
  }

  datatype Read = Token(text: string) | Eof | TooLong

  /** `scanf("%s", buf)` into a buffer of `size` bytes. */
  function Scan(w: World, size: nat): (World, Read) {
    if |w.stdin| == 0 then (w, Eof)
    else (w.(stdin := w.stdin[1..]), if |w.stdin[0]| < size then Token(w.stdin[0]) else TooLong)
  }

  function ReadFailure(r: Read): Halt {
    if r.Eof? then OutOfInput else BufferOverflow
  }

  predicate IsYes(a: string) { a == "Y" || a == "y" }

  predicate IsNo(a: string) { a == "N" || a == "n" }

  /** `s` is what is left of `t` after reading some tokens from its front. */
  predicate Suffix(s: seq<string>, t: seq<string>) {
    |s| <= |t| && s == t[|t| - |s|..]
  }

  lemma SuffixTransitive(a: seq<string>, b: seq<string>, c: seq<string>)
    requires Suffix(a, b) && Suffix(b, c)
    ensures Suffix(a, c)
  {
    assert c[|c| - |b|..][|b| - |a|..] == c[|c| - |a|..];
  }

  /** The profile file is `f0` unchanged, or holds a username that fits its
      buffer and was typed as one of the tokens of `stdin`. */
  predicate FileFrom(f: UserFile, f0: UserFile, stdin: seq<string>) {
    f == f0 || (f.Present? && f.readable && f.content in stdin && |f.content| < USERNAME_SIZE)
  }

  /** A read failure of a prompt, or normal return. */
  predicate PromptStatus(st: Status) {
    st == Returned || st == Halted(OutOfInput) || st == Halted(BufferOverflow)
  }

  /** `set_user_name`: read a name and a confirmation; "y"/"Y" saves the name,
      "n"/"N" asks again, anything else returns without saving. */
  function SetUserNameSpec(w: World): (r: (World, Status))
    decreases |w.stdin|
    ensures Suffix(r.0.stdin, w.stdin) && PromptStatus(r.1)
    ensures FileFrom(r.0.file, w.file, w.stdin)
    ensures (r.0.file == w.file && r.0.out == w.out)
         || (r.1 == Returned && r.0.file == Save(r.0.username) && r.0.out == w.out + [SavedName(r.0.username)])
  {
    var (w1, name) := Scan(w, USERNAME_SIZE);
    if !name.Token? then (w1, Halted(ReadFailure(name)))
    else
      var w2 := w1.(username := name.text);
      var (w3, answer) := Scan(w2, OPTION_SIZE);
      if !answer.Token? then (w3, Halted(ReadFailure(answer)))
      else if IsYes(answer.text) then
        (w3.(file := Save(w3.username), out := w3.out + [SavedName(w3.username)]), Returned)
      else if IsNo(answer.text) then
        var r := SetUserNameSpec(w3);
        assert forall t :: t in w3.stdin ==> t in w.stdin;
        r
      else (w3, Returned)
  }

  /** `exec_command`: record the dispatch, then act as the switch says. */
  function ExecSpec(w: World, c: int): (r: (World, Status))
    ensures |w.out| < |r.0.out| && r.0.out[..|w.out| + 1] == w.out + [Exec(c)]
    ensures Dispatch(c) != Setup ==> r.1 == Returned && r.0.stdin == w.stdin && r.0.file == w.file && r.0.username == w.username
    ensures Suffix(r.0.stdin, w.stdin) && PromptStatus(r.1)
    ensures FileFrom(r.0.file, w.file, w.stdin)
  {
    var w1 := w.(out := w.out + [Exec(c)]);
    match Dispatch(c)
    case Setup => SetUserNameSpec(w1)
    case ViewHome => (w1.(out := w1.out + [Menu(w1.username)]), Returned)
    case _ => (w1, Returned)
  }

  /** What each branch of the switch in `exec_command` does after recording
      the command: VIEW_HOME prints the menu greeting the current username,
      SETUP runs `set_user_name`, every other command prints its one message
      and changes nothing else. */
  lemma ExecActions(w: World, c: int)
    ensures Dispatch(c) == ViewHome ==> ExecSpec(w, c) == (w.(out := w.out + [Exec(c), Menu(w.username)]), Returned)
    ensures Dispatch(c) == Setup ==> ExecSpec(w, c) == SetUserNameSpec(w.(out := w.out + [Exec(c)]))
    ensures Dispatch(c) != ViewHome && Dispatch(c) != Setup ==> ExecSpec(w, c) == (w.(out := w.out + [Exec(c)]), Returned)
  {
    if Dispatch(c) == ViewHome {
      assert w.out + [Exec(c)] + [Menu(w.username)] == w.out + [Exec(c), Menu(w.username)];
    }
  }

  /** `try_get_menu_selection`: read one token; print the rejection message
      when its value is outside 0..3. */
  function SelectSpec(w: World): (r: (World, Status, int))
    ensures r.0.username == w.username && r.0.file == w.file
    ensures Suffix(r.0.stdin, w.stdin)
    ensures r.1 == Returned ==> 0 < |w.stdin| && r.0.stdin == w.stdin[1..] && r.2 == MenuSelection(w.stdin[0])
    ensures r.1 != Returned ==> r.2 == IDLE && PromptStatus(r.1)
    ensures r.0.out == w.out || r.0.out == w.out + [InvalidOption]
    ensures r.0.out != w.out <==> r.1 == Returned && !(0 <= Atoi(w.stdin[0]) <= 3)
  {
    var (w1, t) := Scan(w, OPTION_SIZE);
    if !t.Token? then (w1, Halted(ReadFailure(t)), IDLE)
    else
      var w2 := if AcceptsOption(Atoi(t.text)) then w1 else w1.(out := w1.out + [InvalidOption]);
      (w2, Returned, MenuSelection(t.text))
  }

  /** The loop `while (c_entry == IDLE) c_entry = try_get_menu_selection();`:
      it ends only with a command from 1 to 3, and prints nothing but
      rejection messages. */
  function PromptSpec(w: World): (r: (World, Status, int))
    decreases |w.stdin|
    ensures r.1 == Returned ==> 1 <= r.2 <= 3
    ensures r.1 != Returned ==> r.2 == IDLE && PromptStatus(r.1)
    ensures r.0.username == w.username && r.0.file == w.file && Suffix(r.0.stdin, w.stdin)
    ensures |w.out| <= |r.0.out| && r.0.out[..|w.out|] == w.out
    ensures forall i :: |w.out| <= i < |r.0.out| ==> r.0.out[i] == InvalidOption
  {
    var s := SelectSpec(w);
    if s.1 == Returned && s.2 == IDLE then
      var r := PromptSpec(s.0);
      RejectionsExtend(w.out, s.0.out, r.0.out);
      SuffixTransitive(r.0.stdin, s.0.stdin, w.stdin);
      r
    else s
  }

  /** Output that only gains rejection messages, twice over, only gains rejection messages. */
  lemma RejectionsExtend(a: seq<Event>, b: seq<Event>, c: seq<Event>)
    requires b == a || b == a + [InvalidOption]
    requires |b| <= |c| && c[..|b|] == b
    requires forall i :: |b| <= i < |c| ==> c[i] == InvalidOption
    ensures |a| <= |c| && c[..|a|] == a
    ensures forall i :: |a| <= i < |c| ==> c[i] == InvalidOption
  {
    assert c[..|a|] == c[..|b|][..|a|];
  }

  /** `run_app` from line 238 on, when no command was chosen: show the home
      view, prompt until a command is chosen, dispatch it. */
  function InteractiveSpec(w: World): (r: (World, Status))
    ensures Suffix(r.0.stdin, w.stdin) && PromptStatus(r.1)
    ensures FileFrom(r.0.file, w.file, w.stdin)
    ensures |w.out| + 2 <= |r.0.out| && r.0.out[..|w.out| + 2] == w.out + [Exec(VIEW_HOME), Menu(w.username)]
  {
    var home := ExecSpec(w, VIEW_HOME).0;
    assert home.out == w.out + [Exec(VIEW_HOME), Menu(w.username)] by {
      assert Dispatch(VIEW_HOME) == ViewHome;
    }
    var p := PromptSpec(home);
    if p.1 != Returned then (p.0, p.1)
    else
      var r := ExecSpec(p.0, p.2);
      PrefixThroughExec(home.out, p.0.out, p.2, r.0.out);
      r
  }

  /** Output that extends `b` by a dispatch, where `b` extends `a`, extends `a`. */
  lemma PrefixThroughExec(a: seq<Event>, b: seq<Event>, c: int, o: seq<Event>)
    requires |a| <= |b| && b[..|a|] == a
    requires |b| < |o| && o[..|b| + 1] == b + [Exec(c)]
    ensures |a| <= |o| && o[..|a|] == a
  {
    assert o[..|a|] == o[..|b| + 1][..|a|];
  }

  /** `run_app` from line 222 on: scan `argv` for "-m"; a non-zero value is
      dispatched at once, otherwise the interactive path runs. */
  function ResolveSpec(w: World, argv: seq<string>): (r: (World, Status))
    ensures Suffix(r.0.stdin, w.stdin)
    ensures FileFrom(r.0.file, w.file, w.stdin)
  {
    match ScanArgs(argv)
    case NoFlag => InteractiveSpec(w)
    case FlagWithoutValue => (w, Halted(MissingValue))
    case FlagValue(n) =>
      if !InIntRange(n) then (w, Halted(IntOverflow))
      else
        var w1 := w.(out := w.out + [Selected(n)]);
        if n == IDLE then InteractiveSpec(w1) else ExecSpec(w1, n)
  }

  /** `run_app`: first use runs the setup, a returning user's profile is
      loaded (or the run aborts), then the command is resolved and dispatched. */
  function RunSpec(w: World, argv: seq<string>): (r: (World, Status))
    ensures Suffix(r.0.stdin, w.stdin)
    ensures FileFrom(r.0.file, w.file, w.stdin)
  {
    if IsFirstUse(w.file) then
      var s := ExecSpec(w, SETUP);
      if s.1 != Returned then s else ResolveSpec(s.0, argv)
    else
      match TryLoad(w.file, w.username)
      case None => (w.(out := w.out + [LoadFailed]), Halted(Abort))
      case Some(name) => ResolveSpec(w.(username := name), argv)
  }

  /** A whole run of the program from its start state. `argv` is the whole
      argument vector, the program name `argv[0]` included, as the scan of
      `run_app` starts at index 0. */
  function Program(file: UserFile, stdin: seq<string>, argv: seq<string>): (World, Status) {
    RunSpec(Start(file, stdin), argv)
  }

  /** The commands `exec_command` was called with, in order. */
  function Dispatched(events: seq<Event>): seq<int> {
    if |events| == 0 then []
    else
      var e := events[|events| - 1];
      Dispatched(events[..|events| - 1]) + (if e.Exec? then [e.command] else [])
  }
}
