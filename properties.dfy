/** What a run of the journal does, stated over the functions of `App`:
    which commands reach `exec_command` and in what order, when the profile
    is written, and what the next run reads back. */
module Properties {
  import opened CString
  import opened Commands
  import opened Profile
  import opened App

  lemma {:induction false} DispatchedAppend(a: seq<Event>, b: seq<Event>)
    ensures Dispatched(a + b) == Dispatched(a) + Dispatched(b)
    decreases |b|
  {
    if |b| == 0 {
      assert a + b == a;
    } else {
      var ab := a + b;
      assert ab[..|ab| - 1] == a + b[..|b| - 1];
      DispatchedAppend(a, b[..|b| - 1]);
    }
  }

  lemma {:induction false} DispatchedNone(s: seq<Event>)
    requires forall i :: 0 <= i < |s| ==> !s[i].Exec?
    ensures Dispatched(s) == []
  {
    if |s| > 0 {
      DispatchedNone(s[..|s| - 1]);
    }
  }

  /** `set_user_name` dispatches nothing. */
  lemma SetUserNameDispatchesNothing(w: World)
    ensures Dispatched(SetUserNameSpec(w).0.out) == Dispatched(w.out)
  {
    var r := SetUserNameSpec(w);
    if r.0.out != w.out {
      DispatchedAppend(w.out, [SavedName(r.0.username)]);
    }
  }

  /** Each call of `exec_command` adds exactly its own command to the dispatches, SETUP included. */
  lemma ExecDispatchesOnce(w: World, c: int)
    ensures Dispatched(ExecSpec(w, c).0.out) == Dispatched(w.out) + [c]
  {
    var w1 := w.(out := w.out + [Exec(c)]);
    DispatchedAppend(w.out, [Exec(c)]);
    match Dispatch(c)
    case Setup => SetUserNameDispatchesNothing(w1);
    case ViewHome => DispatchedAppend(w1.out, [Menu(w1.username)]);
    case _ =>
  }

  /** Output that grows only by rejection messages adds no dispatch. */
  lemma RejectionsDispatchNothing(a: seq<Event>, o: seq<Event>)
    requires |a| <= |o| && o[..|a|] == a
    requires forall i :: |a| <= i < |o| ==> o[i] == InvalidOption
    ensures Dispatched(o) == Dispatched(a)
  {
    var tail := o[|a|..];
    DispatchedNone(tail);
    assert o == a + tail;
    DispatchedAppend(a, tail);
  }

  /** The prompt loop itself dispatches nothing. */
  lemma PromptDispatchesNothing(w: World)
    ensures Dispatched(PromptSpec(w).0.out) == Dispatched(w.out)
  {
    RejectionsDispatchNothing(w.out, PromptSpec(w).0.out);
  }

  /** The dispatches `e` are `d` followed by VIEW_HOME and, when the prompt
      loop returned, by one command from 1 to 3. */
  predicate HomeThenChoice(d: seq<int>, e: seq<int>, returned: bool) {
    if returned then |e| == |d| + 2 && e[..|d| + 1] == d + [VIEW_HOME] && 1 <= e[|d| + 1] <= 3
    else e == d + [VIEW_HOME]
  }

  /** The interactive path dispatches VIEW_HOME once before the first read,
      then, once the loop ends, exactly one command from 1 to 3: never IDLE,
      SETUP or VIEW_HOME. */
  lemma InteractiveDispatches(w: World)
    ensures var r := InteractiveSpec(w); HomeThenChoice(Dispatched(w.out), Dispatched(r.0.out), r.1 == Returned)
  {
    var w1 := ExecSpec(w, VIEW_HOME).0;
    ExecDispatchesOnce(w, VIEW_HOME);
    var p := PromptSpec(w1);
    PromptDispatchesNothing(w1);
    if p.1 == Returned {
      ExecDispatchesOnce(p.0, p.2);
      var e := Dispatched(w.out) + [VIEW_HOME] + [p.2];
      assert e[..|Dispatched(w.out)| + 1] == Dispatched(w.out) + [VIEW_HOME];
    }
  }

  /** The interactive path prints the home view, greeting the current
      username, before the prompt loop reads anything: the loop starts on the
      whole of the input, after the menu. */
  lemma HomeBeforePrompt(w: World)
    ensures var home := w.(out := w.out + [Exec(VIEW_HOME), Menu(w.username)]); var p := PromptSpec(home);
      InteractiveSpec(w) == if p.1 == Returned then ExecSpec(p.0, p.2) else (p.0, p.1)
  {
    ExecActions(w, VIEW_HOME);
  }

  /** A `-m` value other than 0 skips the home view and the prompt: it is
      acknowledged and dispatched once, whatever its value. Unless it is
      SETUP, no input is read. */
  lemma DirectCommand(w: World, argv: seq<string>, n: int)
    requires ScanArgs(argv) == FlagValue(n) && n != IDLE && InIntRange(n)
    ensures var r := ResolveSpec(w, argv);
      && |w.out| + 2 <= |r.0.out| && r.0.out[..|w.out| + 2] == w.out + [Selected(n), Exec(n)]
      && Dispatched(r.0.out) == Dispatched(w.out) + [n]
      && (n != SETUP ==> r.1 == Returned && r.0.stdin == w.stdin && r.0.file == w.file)
    ensures ResolveSpec(w, argv) == ExecSpec(w.(out := w.out + [Selected(n)]), n)
  {
    var w1 := w.(out := w.out + [Selected(n)]);
    var r := ExecSpec(w1, n);
    ExecDispatchesOnce(w1, n);
    DispatchedAppend(w.out, [Selected(n)]);
    assert r.0.out[..|w.out| + 2] == w.out + [Selected(n), Exec(n)] by {
      assert r.0.out[..|w1.out| + 1] == w1.out + [Exec(n)];
    }
  }

  /** With no `-m`, or a `-m` value of 0, the interactive path runs. */
  lemma NoCommandIsInteractive(w: World, argv: seq<string>)
    requires ScanArgs(argv) == NoFlag || ScanArgs(argv) == FlagValue(IDLE)
    ensures var r := ResolveSpec(w, argv); HomeThenChoice(Dispatched(w.out), Dispatched(r.0.out), r.1 == Returned)
  {
    if ScanArgs(argv) == NoFlag {
      assert ResolveSpec(w, argv) == InteractiveSpec(w);
      InteractiveDispatches(w);
    } else {
      var w1 := w.(out := w.out + [Selected(IDLE)]);
      assert ResolveSpec(w, argv) == InteractiveSpec(w1);
      DispatchedAppend(w.out, [Selected(IDLE)]);
      assert Dispatched(w1.out) == Dispatched(w.out);
      InteractiveDispatches(w1);
    }
  }

  /** The dispatches `e` are `d` followed by commands other than IDLE. */
  predicate AddsNoIdle(d: seq<int>, e: seq<int>) {
    |d| <= |e| && e[..|d|] == d && IDLE !in e[|d|..]
  }

  lemma HomeThenChoiceAddsNoIdle(d: seq<int>, e: seq<int>, returned: bool)
    requires HomeThenChoice(d, e, returned)
    ensures AddsNoIdle(d, e)
  {
    if returned {
      assert e[|d|..] == [VIEW_HOME, e[|d| + 1]];
    } else {
      assert e[|d|..] == [VIEW_HOME];
    }
  }

  /** Resolving the command adds dispatches, none of them IDLE. */
  lemma ResolveNeverDispatchesIdle(w: World, argv: seq<string>)
    ensures AddsNoIdle(Dispatched(w.out), Dispatched(ResolveSpec(w, argv).0.out))
  {
    var d := Dispatched(w.out);
    var r := ResolveSpec(w, argv);
    var scan := ScanArgs(argv);
    if scan == FlagWithoutValue || (scan.FlagValue? && !InIntRange(scan.value)) {
      assert r.0 == w;
      assert d[|d|..] == [];
    } else if scan == NoFlag || scan == FlagValue(IDLE) {
      NoCommandIsInteractive(w, argv);
      HomeThenChoiceAddsNoIdle(d, Dispatched(r.0.out), r.1 == Returned);
    } else {
      DirectCommand(w, argv, scan.value);
      assert (d + [scan.value])[|d|..] == [scan.value];
    }
  }

  /** A first use dispatches SETUP, then only commands other than IDLE. */
  lemma FirstUseRun(w: World, argv: seq<string>)
    requires IsFirstUse(w.file)
    ensures AddsNoIdle(Dispatched(w.out) + [SETUP], Dispatched(RunSpec(w, argv).0.out))
  {
    var s := ExecSpec(w, SETUP);
    ExecDispatchesOnce(w, SETUP);
    if s.1 == Returned {
      assert RunSpec(w, argv) == ResolveSpec(s.0, argv);
      ResolveNeverDispatchesIdle(s.0, argv);
    } else {
      assert RunSpec(w, argv) == s;
      var d := Dispatched(s.0.out);
      assert d[|d|..] == [];
    }
  }

  lemma AddsNoIdleHead(d: seq<int>, c: int, e: seq<int>)
    requires AddsNoIdle(d + [c], e)
    ensures |d| < |e| && e[|d|] == c
  {
    assert e[..|d| + 1][|d|] == c;
  }

  /** Startup on a first use: SETUP is dispatched before anything else. */
  lemma FirstUseSetsUpFirst(stdin: seq<string>, argv: seq<string>)
    ensures var e := Dispatched(Program(Absent, stdin, argv).0.out); 0 < |e| && e[0] == SETUP
  {
    var w := Start(Absent, stdin);
    FirstUseRun(w, argv);
    AddsNoIdleHead(Dispatched(w.out), SETUP, Dispatched(RunSpec(w, argv).0.out));
    assert Dispatched(w.out) == [];
  }

  /** Startup of a returning user whose profile can be read: nothing is
      dispatched or printed before the command resolution, which starts with
      the loaded name. */
  lemma ReadableProfileResolves(content: string, stdin: seq<string>, argv: seq<string>)
    ensures var file := Present(content, true);
      Program(file, stdin, argv) == ResolveSpec(World(Fgets(content, USERNAME_SIZE), file, stdin, []), argv)
  {
    var file := Present(content, true);
    assert TryLoad(file, "") == Some(Fgets(content, USERNAME_SIZE));
  }

  /** Startup of a returning user whose profile cannot be read: the warning
      is printed and the run stops with no dispatch and no input read. */
  lemma UnreadableProfileAborts(content: string, stdin: seq<string>, argv: seq<string>)
    ensures var file := Present(content, false); var r := Program(file, stdin, argv);
      r == (World("", file, stdin, [LoadFailed]), Halted(Abort)) && Dispatched(r.0.out) == []
  {
    var w := Start(Present(content, false), stdin);
    assert !IsFirstUse(w.file) && TryLoad(w.file, w.username) == None;
    assert w.out + [LoadFailed] == [LoadFailed];
    assert RunSpec(w, argv) == (w.(out := [LoadFailed]), Halted(Abort));
    DispatchedNone([LoadFailed]);
  }

  /** No run ever dispatches IDLE, so the switch never reports its internal error. */
  lemma NeverDispatchesIdle(file: UserFile, stdin: seq<string>, argv: seq<string>)
    ensures IDLE !in Dispatched(Program(file, stdin, argv).0.out)
  {
    var w := Start(file, stdin);
    var e := Dispatched(Program(file, stdin, argv).0.out);
    if file.Absent? {
      FirstUseRun(w, argv);
      assert e == e[..1] + e[1..];
    } else if file.readable {
      ReadableProfileResolves(file.content, stdin, argv);
      ResolveNeverDispatchesIdle(w.(username := Fgets(file.content, USERNAME_SIZE)), argv);
      assert e[0..] == e;
    } else {
      UnreadableProfileAborts(file.content, stdin, argv);
    }
  }

  /** Names and answers typed in turn at the setup prompts. */
  function Interleave(names: seq<string>, answers: seq<string>): (s: seq<string>)
    requires |names| == |answers|
    ensures |s| == 2 * |names|
  {
    if |names| == 0 then [] else [names[0], answers[0]] + Interleave(names[1..], answers[1..])
  }

  /** One round of `set_user_name`: a name and an answer that fit their buffers. */
  lemma ConfirmRound(w: World, name: string, answer: string, rest: seq<string>)
    requires w.stdin == [name, answer] + rest
    requires |name| < USERNAME_SIZE && |answer| < OPTION_SIZE
    ensures var w3 := w.(username := name, stdin := rest);
      SetUserNameSpec(w) ==
        if IsYes(answer) then (w3.(file := Save(name), out := w.out + [SavedName(name)]), Returned)
        else if IsNo(answer) then SetUserNameSpec(w3)
        else (w3, Returned)
  {
    assert w.stdin[0] == name && w.stdin[1] == answer && w.stdin[2..] == rest;
  }

  /** `set_user_name` over a run of (name, answer) pairs: every "n"/"N" asks
      again; the last answer decides: "y"/"Y" saves the last name typed, any
      other answer returns without saving. In both cases the username global
      holds the last name typed. */
  lemma {:induction false} ConfirmLastAnswer(w: World, names: seq<string>, answers: seq<string>, rest: seq<string>)
    requires 0 < |names| == |answers|
    requires w.stdin == Interleave(names, answers) + rest
    requires forall k :: 0 <= k < |names| ==> |names[k]| < USERNAME_SIZE && |answers[k]| < OPTION_SIZE
    requires forall k :: 0 <= k < |answers| - 1 ==> IsNo(answers[k])
    requires !IsNo(answers[|answers| - 1])
    decreases |names|
    ensures var name := names[|names| - 1];
      SetUserNameSpec(w) ==
        if IsYes(answers[|answers| - 1])
        then (w.(username := name, file := Save(name), stdin := rest, out := w.out + [SavedName(name)]), Returned)
        else (w.(username := name, stdin := rest), Returned)
  {
    var tail := Interleave(names[1..], answers[1..]) + rest;
    assert w.stdin == [names[0], answers[0]] + tail;
    ConfirmRound(w, names[0], answers[0], tail);
    if |names| > 1 {
      var w3 := w.(username := names[0], stdin := tail);
      ConfirmLastAnswer(w3, names[1..], answers[1..], rest);
    }
  }

  /** A prompt token that fits the buffer and selects IDLE: out of range, non-numeric or 0. */
  predicate SelectsIdle(t: string) {
    |t| < OPTION_SIZE && MenuSelection(t) == IDLE
  }

  /** A prompt token that fits the buffer and selects a command. */
  predicate SelectsCommand(t: string) {
    |t| < OPTION_SIZE && MenuSelection(t) != IDLE
  }

  /** Every token of `tokens` fits the buffer and selects IDLE. */
  predicate AllIdle(tokens: seq<string>) {
    |tokens| == 0 || (SelectsIdle(tokens[0]) && AllIdle(tokens[1..]))
  }

  /** The prompt loop returns the command selected by the token at position `k`
      and leaves the input after it unread. */
  predicate PromptStopsAt(w: World, k: nat) {
    var r := PromptSpec(w);
    k < |w.stdin| && r.1 == Returned && r.2 == MenuSelection(w.stdin[k]) && r.0.stdin == w.stdin[k + 1..]
  }

  /** A token that selects a command ends the prompt loop at once. */
  lemma PromptStopsAtChoice(w: World)
    requires 0 < |w.stdin| && SelectsCommand(w.stdin[0])
    ensures PromptStopsAt(w, 0)
  {
    var s := SelectSpec(w);
    assert s.1 == Returned && s.2 == MenuSelection(w.stdin[0]);
    assert PromptSpec(w) == s;
  }

  /** A token that selects IDLE is consumed and the loop reads the next one. */
  lemma PromptSkipsIdle(w: World)
    requires 0 < |w.stdin| && SelectsIdle(w.stdin[0])
    ensures var s := SelectSpec(w); s.0.stdin == w.stdin[1..] && PromptSpec(w) == PromptSpec(s.0)
  {
    var s := SelectSpec(w);
    assert s.1 == Returned;
  }

  /** Dropping the first token moves every later position one place earlier. */
  lemma DropFirst(s: seq<string>, t: seq<string>, k: nat)
    requires 0 < k < |s| && t == s[1..]
    ensures k - 1 < |t| && t[..k - 1] == s[..k][1..] && t[k - 1] == s[k] && t[k..] == s[k + 1..]
  {
  }

  /** One rejected token consumed: the rest of the input lines up one place earlier. */
  lemma IdleStep(w: World, k: nat)
    requires 0 < k < |w.stdin|
    requires AllIdle(w.stdin[..k])
    ensures var w1 := SelectSpec(w).0;
      && k - 1 < |w1.stdin| && AllIdle(w1.stdin[..k - 1]) && w1.stdin[k - 1] == w.stdin[k]
      && w1.stdin[k..] == w.stdin[k + 1..] && PromptSpec(w) == PromptSpec(w1)
      && (PromptStopsAt(w1, k - 1) ==> PromptStopsAt(w, k))
  {
    var w1 := SelectSpec(w).0;
    assert w.stdin[..k][0] == w.stdin[0];
    PromptSkipsIdle(w);
    DropFirst(w.stdin, w1.stdin, k);
  }

  /** The prompt loop skips the tokens that select IDLE and stops at the
      first one that selects a command. */
  lemma {:induction false} PromptSkipsRejected(w: World, k: nat)
    requires k < |w.stdin|
    requires AllIdle(w.stdin[..k])
    requires SelectsCommand(w.stdin[k])
    ensures PromptStopsAt(w, k)
    decreases k
  {
    if k == 0 {
      PromptStopsAtChoice(w);
    } else {
      IdleStep(w, k);
      PromptSkipsRejected(SelectSpec(w).0, k - 1);
    }
  }

  /** A profile a run writes holds one of the typed names and is loaded back
      verbatim: the next run is not a first use and starts from that name. */
  lemma SavedProfileLoadsNextRun(file: UserFile, stdin: seq<string>, argv: seq<string>, stdin2: seq<string>, argv2: seq<string>)
    requires forall k :: 0 <= k < |stdin| ==> '\n' !in stdin[k]
    ensures var f := Program(file, stdin, argv).0.file;
      f != file ==>
        && f.Present? && f.content in stdin
        && !IsFirstUse(f) && TryLoad(f, "") == Some(f.content)
        && Program(f, stdin2, argv2) == ResolveSpec(World(f.content, f, stdin2, []), argv2)
  {
    var f := Program(file, stdin, argv).0.file;
    if f != file {
      LoadAfterSave(f.content, "");
    }
  }
}
