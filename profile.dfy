/** The profile file `usr.conf`, which holds the username between runs. The
    file system is a value: the file is absent, or present with a content and
    a flag saying whether the process may read it. */
module Profile {

  datatype Option<T> = None | Some(value: T)

  /** `char username[32]`: the buffer the username is read into. */
  const USERNAME_SIZE: nat := 32

  datatype UserFile = Absent | Present(content: string, readable: bool)

  /** `is_first_use`: the profile file does not exist. */
  predicate IsFirstUse(f: UserFile) {
    f.Absent?
  }

  /** `fgets(buf, size, f)` on a file holding `content`: at most `size - 1`
      characters, up to and including the first newline. */
  function Fgets(content: string, size: nat): (r: string)
    requires size >= 1
    ensures |r| <= size - 1 && r <= content
    ensures forall i :: 0 <= i < |r| - 1 ==> r[i] != '\n'
    ensures |r| < size - 1 && |r| < |content| ==> 0 < |r| && r[|r| - 1] == '\n'
  {
    if size == 1 || |content| == 0 then []
    else if content[0] == '\n' then ['\n']
    else [content[0]] + Fgets(content[1..], size - 1)
  }

  /** `try_load_saved_data`: the contents of the username buffer afterwards,
      or nothing when the file cannot be read. `buffer` is the username before
      the call. On an empty file `fgets` returns NULL and leaves the buffer as
      it was. */
  function TryLoad(f: UserFile, buffer: string): (r: Option<string>)
    ensures r.Some? <==> f.Present? && f.readable
    ensures r.Some? && |f.content| == 0 ==> r.value == buffer
    ensures r.Some? && 0 < |f.content| ==> 0 < |r.value| < USERNAME_SIZE && r.value <= f.content
  {
    if f.Present? && f.readable then
      Some(if |f.content| == 0 then buffer else Fgets(f.content, USERNAME_SIZE))
    else None
  }

  /** The file after `fopen(USR_FILE, "w+")`, `fprintf("%s", name)` and `fclose`. */
  function Save(name: string): (f: UserFile)
    ensures !IsFirstUse(f) && f.content == name
  {
    Present(name, true)
  }

  /** `fgets` returns a line without a newline whole when it fits the buffer. */
  lemma {:induction false} FgetsWhole(s: string, size: nat)
    requires |s| < size && '\n' !in s
    ensures Fgets(s, size) == s
  {
    if |s| > 0 {
      FgetsWhole(s[1..], size - 1);
    }
  }

  /** A username that fits the buffer is loaded exactly as it was saved; an
      empty one leaves the buffer as it was. */
  lemma LoadAfterSave(name: string, buffer: string)
    requires |name| < USERNAME_SIZE && '\n' !in name
    ensures TryLoad(Save(name), buffer) == Some(if |name| == 0 then buffer else name)
  {
    FgetsWhole(name, USERNAME_SIZE);
  }
}
