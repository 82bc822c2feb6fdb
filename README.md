# Mood-Tracker control flow in Dafny

Mood-Tracker is a small interactive journal written in C (`moodtracker.c`). It
keeps one username in the profile file `usr.conf`. On its first run it asks
for that name and a confirmation. Each later run loads the name back. Then it
dispatches commands through one switch:

- IDLE (0)
- ADD_ENTRY (1): a time-stamped log line
- STATS (2) and CUSTOMIZE (3): "not implemented yet"
- SETUP (4): the first-use setup
- VIEW_HOME (5): the main menu

A command comes either from a `-m <number>` argument or from the `> ` prompt.
The prompt repeats until a number from 1 to 3 is typed.

This project models that control flow and proves what it does:

- `CString` models `atoi` and `printf("%d")`.
- `Commands` holds the command numbers, the `exec_command` switch, the menu
  range check and the scan of `argv` for `-m`.
- `Profile` treats `usr.conf` as a value, with `fgets` and the save performed
  by `set_user_name`.
- `App` has one function for each step of the control flow:
  `set_user_name`, `exec_command`, `try_get_menu_selection`, the prompt
  loop, the two ways of resolving the command, `run_app` and `main`
  (`try_load_saved_data` and `is_first_use` are in `Profile`). The helpers
  `put_main_menu`, `add_log_entry`, `get_current_time`, `put_warning` and
  `run_user_setup` have no function of their own. Each of the first two and
  `put_warning` becomes the event it prints; `get_current_time` belongs to
  the clock, which is left out; `run_user_setup` becomes the `Exec(SETUP)`
  event, standing for its banner, followed by `set_user_name`. The functions
  work on a `World`, which holds:
  - the global `username`;
  - the profile file;
  - the tokens still to be read by `scanf("%s")`;
  - a trace of output events.
- `Tracker` has the class `MoodTracker`. Its fields are the globals of the C
  program. The C functions that read input or change the globals become
  methods that update those fields in place, and each method is proved to
  end in the state its `App` function describes:
  - the self-call of `set_user_name` is a loop;
  - the prompt loop and the `argv` loop are loops.
- `Properties` holds the lemmas about which commands reach the switch, in what
  order, and what the next run reads back.

Some situations have no defined result in C. The model stops those runs with a
`Halted` status:

| situation | status |
|---|---|
| a read at end of input | `OutOfInput` |
| a token that, with its terminating NUL, does not fit its buffer (32 bytes for the name, 3 for an option or an answer) | `BufferOverflow` |
| `-m` as the last argument, so `atoi(argv[argc])` would parse a null pointer | `MissingValue` |
| a `-m` value outside the `int` range | `IntOverflow` |

The `exit(0)` after an unreadable profile becomes `Halted(Abort)`.

Three points of the code's control flow shape the model:

- **After the first-use setup.** When the setup returns, `run_app` goes on to
  the `argv` scan and then either to the direct dispatch of a `-m` command or
  to the home view and the prompt loop (`moodtracker.c:208-249`).
- **An unrecognised confirmation answer.** An answer other than "y", "Y", "n"
  or "N" makes `set_user_name` return without saving and without asking again
  (`moodtracker.c:106-123`).
- **The guard on the `-m` value.** `i + 1 <= argc` at `moodtracker.c:228` always
  holds inside the loop. So a trailing `-m` reaches `atoi(NULL)`, which the
  model reports as `MissingValue`.

## Model

| member | source | states |
|---|---|---|
| CString.SkipSpace | moodtracker.c:64 | the white space `atoi` skips: every dropped character is a C-locale space, and what is left does not start with one |
| CString.SkipSpaceSuffix | moodtracker.c:64 | what is left after the white space is the tail of the original text |
| CString.DigitRun | moodtracker.c:64 | the run of digits `atoi` reads is all digits and is followed by a non-digit or the end |
| CString.DecimalValue | moodtracker.c:64 | the value of k decimal digits is below 10^k |
| CString.Atoi | moodtracker.c:64 | `atoi` is 0 when no digit follows the optional sign; its magnitude is below 10^(number of digits read); it is negative only after a minus sign |
| CString.Decimal | moodtracker.c:231 | `%d` of a natural number is a non-empty string of digits |
| CString.Show | moodtracker.c:231 | `%d` of an integer starts with '-' exactly when it is negative |
| CString.DecimalValueOfDecimal | moodtracker.c:231 | the digits `%d` writes have the value printed |
| CString.SkipSpacePrefix | moodtracker.c:64 | `atoi` skips exactly the white space before the first other character |
| CString.DigitRunPrefix | moodtracker.c:64 | the digits `atoi` reads are exactly the leading digits, whatever text follows them |
| CString.AfterSignOf | moodtracker.c:64 | after the white space an optional '+' or '-' is consumed, and the result is negative only after '-' |
| CString.AtoiReadsPrefix | moodtracker.c:64 | on any text made of white space, an optional sign, digits and a rest that does not start with a digit, `atoi` is the value of the digits, negated after '-', and the rest is ignored |
| CString.DigitsReadWhole | moodtracker.c:64 | on a string of digits `atoi` reads all of them |
| CString.AtoiShow | moodtracker.c:64 | `atoi` reads back every integer that `%d` prints |
| Commands.Dispatch | moodtracker.c:155-175 | the switch: IDLE is the error case; ADD_ENTRY, SETUP and VIEW_HOME have their actions; every other number is "not implemented", STATS and CUSTOMIZE included (each as an if-and-only-if) |
| Commands.AcceptsOption | moodtracker.c:66 | the bitwise `&` of the two comparisons accepts exactly the numbers 0 to 3 |
| Commands.MenuSelection | moodtracker.c:58-72 | a prompt token yields its `atoi` value when that is in 0..3, and IDLE otherwise |
| Commands.MenuSelectionOfShow | moodtracker.c:64-71 | typing the number n selects n when 0 <= n <= 3, and IDLE otherwise |
| Commands.ScanArgs | moodtracker.c:224-236 | no flag is found exactly when "-m" is absent; otherwise the result is what the FIRST "-m" gives: atoi of the next argument, or a missing value when it is last |
| Profile.Fgets | moodtracker.c:195 | `fgets` gives a prefix of the file of at most size-1 characters, with a newline only as its last character, and stops early only at a newline |
| Profile.TryLoad | moodtracker.c:190-199 | a result is given exactly when the profile exists and is readable; an empty file leaves the username buffer as it was, as `fgets` returns NULL without writing; otherwise the new name is non-empty, fits the 32-byte buffer and is a prefix of the file |
| Profile.Save | moodtracker.c:112-114 | after the save the profile exists and holds exactly the name |
| Profile.FgetsWhole | moodtracker.c:195 | a line without a newline that fits the buffer is read whole |
| Profile.LoadAfterSave | moodtracker.c:190-199 | a saved name that fits the buffer and has no newline is loaded back unchanged; an empty saved name leaves the buffer as it was |
| App.SetUserNameSpec | moodtracker.c:98-124 | `set_user_name` reads only from the front of the input and stops only by returning or on a failed read; the profile is untouched, or it holds the current username, which is one of the typed tokens, and exactly one save event was added |
| App.ExecSpec | moodtracker.c:140-177 | `exec_command` records its command first; any command but SETUP returns at once without reading input or touching the profile or the username; SETUP can only save a typed name |
| App.ExecActions | moodtracker.c:155-175 | the action of each branch: VIEW_HOME adds the menu greeting the current username, SETUP is `set_user_name` after the record, every other command adds nothing more and returns |
| App.SelectSpec | moodtracker.c:58-72 | `try_get_menu_selection` consumes one token and returns its selection, keeping the username and the profile; the rejection message is printed exactly when the value is outside 0..3; a failed read selects IDLE |
| App.PromptSpec | moodtracker.c:244-247 | the prompt loop returns normally only with a command from 1 to 3; it keeps the username and the profile, and prints nothing but rejection messages |
| App.InteractiveSpec | moodtracker.c:238-249 | the home view, the prompt and the dispatch read only from the front of the input and can only save a typed name; the output starts with the VIEW_HOME dispatch and the menu greeting the current username |
| App.ResolveSpec | moodtracker.c:222-249 | resolving the command reads only from the front of the input and can only save a typed name |
| App.RunSpec | moodtracker.c:204-250 | a run of `run_app` reads only from the front of the input and leaves the profile unchanged or holding a typed name |
| Tracker.MoodTracker.constructor | moodtracker.c:25-26 | the globals start with an empty username and nothing printed |
| Tracker.MoodTracker.ReadToken | moodtracker.c:62 | `scanf("%s")` into a buffer takes the next token, fails at end of input, and reports a token too long for the buffer |
| Tracker.MoodTracker.SetUserName | moodtracker.c:98-124 | the loop form of `set_user_name` ends in the state and status `SetUserNameSpec` gives |
| Tracker.MoodTracker.ExecCommand | moodtracker.c:140-177 | `exec_command` updates the globals as `ExecSpec` gives |
| Tracker.MoodTracker.TryGetMenuSelection | moodtracker.c:58-72 | `try_get_menu_selection` returns the command and leaves the state `SelectSpec` gives |
| Tracker.MoodTracker.TryLoadSavedData | moodtracker.c:190-199 | the method succeeds exactly when the profile is readable; only then the username is replaced by the loaded line, and nothing else changes |
| Tracker.MoodTracker.PromptUntilChosen | moodtracker.c:244-247 | the `while` loop ends in the state, status and command `PromptSpec` gives |
| Tracker.MoodTracker.RunApp | moodtracker.c:204-250 | `run_app` ends in the state and status `RunSpec` gives |
| Tracker.ScanMenuArg | moodtracker.c:224-236 | the `for` loop over `argv` stops at the first "-m" and finds what `ScanArgs` gives |
| Tracker.Launch | moodtracker.c:270-274 | `main` on a fresh process does exactly what `Program` describes |
| Properties.SetUserNameDispatchesNothing | moodtracker.c:98-124 | the setup dispatches no command |
| Properties.ExecDispatchesOnce | moodtracker.c:140-177 | each `exec_command` adds exactly its own command to the dispatches |
| Properties.PromptDispatchesNothing | moodtracker.c:244-247 | the prompt loop dispatches no command |
| Properties.InteractiveDispatches | moodtracker.c:238-249 | the interactive path dispatches VIEW_HOME exactly once, before the first prompt, then one command from 1 to 3 when the loop returns |
| Properties.HomeBeforePrompt | moodtracker.c:238-249 | the prompt loop starts on the whole input, after the VIEW_HOME dispatch and the menu, and a command it returns is dispatched by `exec_command` |
| Properties.DirectCommand | moodtracker.c:228-249 | a `-m` value other than 0 is acknowledged and then handed to `exec_command` exactly as `ExecSpec` runs it, with no home view and no prompt; it is dispatched once; unless it is SETUP, no input is read |
| Properties.NoCommandIsInteractive | moodtracker.c:238-248 | with no "-m", or with "-m 0", the home view and the prompt run |
| Properties.ResolveNeverDispatchesIdle | moodtracker.c:222-249 | resolving the command never dispatches IDLE |
| Properties.FirstUseRun | moodtracker.c:208-212 | a first use dispatches SETUP, then only commands other than IDLE |
| Properties.FirstUseSetsUpFirst | moodtracker.c:208-212 | on a first use SETUP is the first command dispatched |
| Properties.ReadableProfileResolves | moodtracker.c:213-220 | with a readable profile nothing is dispatched or printed at startup, and the command resolution starts with the loaded name |
| Properties.UnreadableProfileAborts | moodtracker.c:215-219 | with an unreadable profile the warning is printed and the run stops, with no input read and no command dispatched |
| Properties.NeverDispatchesIdle | moodtracker.c:155-159 | no run reaches the IDLE error case of the switch |
| Properties.ConfirmRound | moodtracker.c:98-124 | one round of the setup: "y"/"Y" saves the typed name, "n"/"N" asks again, any other answer returns without saving |
| Properties.ConfirmLastAnswer | moodtracker.c:98-124 | over any run of "n"/"N" answers, the last answer decides: "y"/"Y" saves the last name typed, anything else returns without saving, and the username is the last name typed |
| Properties.PromptStopsAtChoice | moodtracker.c:244-247 | a token that selects a command ends the prompt loop with that command |
| Properties.PromptSkipsIdle | moodtracker.c:244-247 | a token that selects IDLE is consumed and the loop prompts again |
| Properties.PromptSkipsRejected | moodtracker.c:244-247 | after any number of tokens that select IDLE, the first token that selects a command ends the loop with that command, and nothing after it is read |
| Properties.SavedProfileLoadsNextRun | moodtracker.c:190-199 | a profile written by a run holds one of the typed names; the next run is not a first use and starts the command resolution with that name |

## Left out

- The `fork`/`execlp("clear")`/`wait` screen clear in `exec_command`. The
  model assumes `clear` runs, so the child process ends there. If `execlp`
  failed, the child would return from `exec_command` and run the rest of
  `run_app` itself (`moodtracker.c:148-154`); that second process is not
  modelled. A failed `fork` prints "Error" and carries on with the switch;
  the model does not record that line.
- The clock. `add_log_entry` prints `asctime(localtime(time(NULL)))`, which
  the `Exec(ADD_ENTRY)` event stands for.
- The exact text of every `printf`. Each message that reports something is an
  event of the trace. The prompts are not events: the "> " of
  `try_get_menu_selection` (`moodtracker.c:61`), "- Enter a username: "
  (`moodtracker.c:101`) and the confirmation question (`moodtracker.c:103`).
  Nor is the first-use banner (`moodtracker.c:131-133`); the `Exec(SETUP)`
  event stands for it.
- Bytes as opposed to characters. The tokens, the arguments and the profile
  are taken as one byte per character, as in ASCII text. So the 32-byte name
  buffer and the 3-byte option and answer buffers are bounds on the number
  of characters; a name in a multi-byte encoding would overflow sooner than
  the model says.
- NUL bytes inside the text. A C string ends at its first NUL byte, but the
  model's strings do not: the tokens and the profile are taken to contain no
  NUL. A name read with a NUL inside it would be printed, and saved by
  `fprintf("%s")` (`moodtracker.c:113`), only up to that byte; the model
  keeps the whole token, so `Profile.Fgets`, `Profile.Save` and
  `SavedProfileLoadsNextRun` hold for NUL-free names only.
- A failed `fopen` when the profile is saved (`moodtracker.c:112`). The model
  assumes the save succeeds.
- The handle `usr_f` that `try_load_saved_data` opens and never closes. It has
  no effect within one run.
- The C behaviour after an undefined step. The model stops with a `Halted`
  status: after a read past end of input, a buffer overflow, `atoi(NULL)`, or
  an `int` overflow of `atoi`. The `int` range is modelled only for the `-m`
  value. A prompt token has at most two characters, so it always fits.
- The profile as a real file system. It is modelled as absent, or present with
  its content and a readability flag. Access rights other than reading are
  not modelled.
- The `Pointers` comment block at `moodtracker.c:253-269`. It is a note, not
  code.
- App.RunSpec: its own contract states only what input it reads and what it
  can save. What it dispatches, and in what order, is stated by the lemmas in
  `Properties` about it.
