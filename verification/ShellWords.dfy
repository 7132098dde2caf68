/** Splitting a command into words and finding the program that a launcher starts. */
module ShellWords {
  import opened CommandSpans
  import opened Wrappers

  // ---------------------------------------------------------------- words

  predicate Blank(c: char) {
    c == ' ' || c == '\t' || c == '\r' || c == '\n'
  }

  function So(word: Option<string>): string {
    if word.None? then "" else word.value
  }

  function Flush(word: Option<string>): seq<string> {
    if word.None? then [] else [word.value]
  }

  function Prepend(words: seq<string>, rest: Option<seq<string>>): Option<seq<string>> {
    if rest.None? then None else Some(words + rest.value)
  }

  /** The words of `t` in POSIX mode, from inside quote `q` and with `word` begun. An open quote or a
      dangling escape is an error. */
  function WordsFrom(t: string, q: Quote, word: Option<string>): Option<seq<string>>
    decreases |t|
  {
    if t == "" then if q == Unquoted then Some(Flush(word)) else None
    else
      var c := t[0];
      if c == '\\' && q != Single then
        if |t| == 1 then None
        else
          var kept := if q == Double && t[1] != '\\' && t[1] != '"' then "\\" + [t[1]] else [t[1]];
          WordsFrom(t[2..], q, Some(So(word) + kept))
      else match q
      case Single => WordsFrom(t[1..], if c == '\'' then Unquoted else Single, Some(if c == '\'' then So(word) else So(word) + [c]))
      case Double => WordsFrom(t[1..], if c == '"' then Unquoted else Double, Some(if c == '"' then So(word) else So(word) + [c]))
      case Unquoted =>
        if Blank(c) then Prepend(Flush(word), WordsFrom(t[1..], Unquoted, None))
        else if c == '"' then WordsFrom(t[1..], Double, Some(So(word)))
        else if c == '\'' then WordsFrom(t[1..], Single, Some(So(word)))
        else WordsFrom(t[1..], Unquoted, Some(So(word) + [c]))
  }

  /** `shlex.split` */
  function Words(t: string): Option<seq<string>> {
    WordsFrom(t, Unquoted, None)
  }

  predicate PlainText(t: string) {
    forall i :: 0 <= i < |t| ==> !Blank(t[i]) && t[i] != '\\' && t[i] != '"' && t[i] != '\''
  }

  lemma {:induction false} PlainWord(t: string, word: Option<string>)
    requires PlainText(t) && (t == "" ==> word.Some?)
    ensures WordsFrom(t, Unquoted, word) == Some([So(word) + t])
  {
    if t == "" {
      assert So(word) + t == So(word);
    } else {
      PlainWord(t[1..], Some(So(word) + [t[0]]));
      assert So(word) + [t[0]] + t[1..] == So(word) + t;
    }
  }

  /** A plain word put after a command becomes its last word. */
  lemma {:induction false} WordsAppend(t: string, q: Quote, word: Option<string>, extra: string)
    requires WordsFrom(t, q, word).Some? && PlainText(extra) && extra != ""
    ensures WordsFrom(t + " " + extra, q, word) == Some(WordsFrom(t, q, word).value + [extra])
    decreases |t|
  {
    var u := t + " " + extra;
    if t == "" {
      assert u == " " + extra && u[1..] == extra;
      PlainWord(extra, None);
      assert "" + extra == extra;
    } else {
      var c := t[0];
      assert u[0] == c && u[1..] == t[1..] + " " + extra;
      if c == '\\' && q != Single {
        assert u[1] == t[1] && u[2..] == t[2..] + " " + extra;
        var kept := if q == Double && t[1] != '\\' && t[1] != '"' then "\\" + [t[1]] else [t[1]];
        WordsAppend(t[2..], q, Some(So(word) + kept), extra);
      } else if q == Single {
        WordsAppend(t[1..], if c == '\'' then Unquoted else Single, Some(if c == '\'' then So(word) else So(word) + [c]), extra);
      } else if q == Double {
        WordsAppend(t[1..], if c == '"' then Unquoted else Double, Some(if c == '"' then So(word) else So(word) + [c]), extra);
      } else if Blank(c) {
        WordsAppend(t[1..], Unquoted, None, extra);
        var rest := WordsFrom(t[1..], Unquoted, None).value;
        assert Flush(word) + (rest + [extra]) == Flush(word) + rest + [extra];
      } else if c == '"' {
        WordsAppend(t[1..], Double, Some(So(word)), extra);
      } else if c == '\'' {
        WordsAppend(t[1..], Single, Some(So(word)), extra);
      } else {
        WordsAppend(t[1..], Unquoted, Some(So(word) + [c]), extra);
      }
    }
  }

  // ---------------------------------------------------------------- launchers

  /** The last component of a path, without `.` components. */
  function Name(path: string): string
    decreases |path|
  {
    var i := LastSlash(path, |path|);
    var last := path[i..];
    if last != "" && last != "." then last else if i == 0 then "" else Name(path[..i - 1])
  }

  /** The index after the last slash before `n`. */
  function LastSlash(path: string, n: nat): (i: nat)
    requires n <= |path|
    ensures i <= n && (i > 0 ==> path[i - 1] == '/')
  {
    if n == 0 || path[n - 1] == '/' then n else LastSlash(path, n - 1)
  }

  predicate Letter(c: char) {
    'a' <= c <= 'z' || 'A' <= c <= 'Z' || c == '_'
  }

  predicate AssignmentRest(w: string) {
    w != "" && (w[0] == '=' || ((Letter(w[0]) || '0' <= w[0] <= '9') && AssignmentRest(w[1..])))
  }

  predicate Assignment(w: string) {
    w != "" && Letter(w[0]) && AssignmentRest(w[1..])
  }

  const CONDA_VALUES := {"-p", "--prefix", "-n", "--name", "--cwd"}

  function Drop(ts: seq<string>): seq<string> {
    if ts == [] then [] else ts[1..]
  }

  /** What follows the options of `conda run`. */
  function AfterConda(ts: seq<string>): (r: seq<string>)
    ensures |r| <= |ts|
  {
    if ts == [] || !("-" <= ts[0]) then ts
    else if ts[0] == "--" then ts[1..]
    else if ts[0] in CONDA_VALUES then AfterConda(Drop(ts[1..]))
    else AfterConda(ts[1..])
  }

  /** Assignments, `exec`, `env` and `conda run` peeled off. */
  function Peeled(ts: seq<string>): seq<string>
    decreases |ts|
  {
    if ts == [] then []
    else if Assignment(ts[0]) || ts[0] == "exec" || ts[0] == "env" then Peeled(ts[1..])
    else if Name(ts[0]) == "conda" && |ts| > 1 && ts[1] == "run" then Peeled(AfterConda(ts[2..]))
    else ts
  }

  /** `executable_tokens`, after the split. */
  method ExecutableTokens(words: seq<string>) returns (tokens: seq<string>)
    ensures tokens == Peeled(words)
  {
    hide Assignment, Name;
    tokens := words;
    while tokens != []
      invariant Peeled(words) == Peeled(tokens)
      decreases |tokens|
    {
      if Assignment(tokens[0]) || tokens[0] == "exec" || tokens[0] == "env" {
        tokens := tokens[1..];
      } else if Name(tokens[0]) == "conda" && |tokens| > 1 && tokens[1] == "run" {
        ghost var start := tokens;
        tokens := tokens[2..];
        ghost var bound := |tokens|;
        while tokens != [] && "-" <= tokens[0]
          invariant AfterConda(start[2..]) == AfterConda(tokens) && |tokens| <= bound
          decreases |tokens|
        {
          var option := tokens[0];
          tokens := tokens[1..];
          if option == "--" {
            assert AfterConda(start[2..]) == tokens;
            break;
          }
          if option in CONDA_VALUES { tokens := Drop(tokens); }
        }
        assert AfterConda(start[2..]) == tokens;
      } else {
        break;
      }
    }
  }

  predicate NpxOption(w: string) {
    w == "--yes" || w == "-y" || w == "--no-install" || w == "--"
  }

  function AfterNpx(ts: seq<string>): seq<string> {
    if ts != [] && NpxOption(ts[0]) then AfterNpx(ts[1..]) else ts
  }

  /** The program a package runner starts. */
  function Program(args: seq<string>): seq<string> {
    if args == [] then []
    else
      var runner := Name(args[0]);
      if (runner == "npm" || runner == "pnpm" || runner == "yarn") && |args| > 1 && (args[1] == "exec" || args[1] == "dlx") then
        if |args| > 2 && args[2] == "--" then args[3..] else args[2..]
      else if runner == "npx" then AfterNpx(args[1..])
      else if runner == "pnpm" || runner == "yarn" then args[1..]
      else args
  }

  const FLAG := "--no-cache"

  predicate CacheOption(w: string) {
    w == "--cache" || w == FLAG || "--cache=" <= w
  }

  predicate RunsVitest(words: seq<string>) {
    var args := Program(Peeled(words));
    args != [] && Name(args[0]) == "vitest"
  }

  predicate SaysCache(words: seq<string>) {
    exists i | 1 <= i < |Program(Peeled(words))| :: CacheOption(Program(Peeled(words))[i])
  }

  /** A Vitest run that leaves its cache alone. */
  predicate NeedsFlag(words: seq<string>) {
    RunsVitest(words) && !SaysCache(words)
  }

  lemma {:induction false} AfterCondaAppend(ts: seq<string>)
    requires AfterConda(ts) != []
    ensures AfterConda(ts + [FLAG]) == AfterConda(ts) + [FLAG]
    decreases |ts|
  {
    var u := ts + [FLAG];
    if ts != [] && "-" <= ts[0] {
      assert u[0] == ts[0] && u[1..] == ts[1..] + [FLAG];
      if ts[0] == "--" {
      } else if ts[0] in CONDA_VALUES {
        if |ts| > 1 { assert u[1..][1..] == ts[1..][1..] + [FLAG]; }
        AfterCondaAppend(Drop(ts[1..]));
      } else {
        AfterCondaAppend(ts[1..]);
      }
    }
  }

  lemma {:induction false} PeeledAppend(ts: seq<string>)
    requires Peeled(ts) != []
    ensures Peeled(ts + [FLAG]) == Peeled(ts) + [FLAG]
    decreases |ts|
  {
    hide Assignment, Name;
    var u := ts + [FLAG];
    assert u[0] == ts[0] && u[1..] == ts[1..] + [FLAG];
    if Assignment(ts[0]) || ts[0] == "exec" || ts[0] == "env" {
      PeeledAppend(ts[1..]);
    } else if Name(ts[0]) == "conda" && |ts| > 1 && ts[1] == "run" {
      assert u[2..] == ts[2..] + [FLAG];
      AfterCondaAppend(ts[2..]);
      PeeledAppend(AfterConda(ts[2..]));
    }
  }

  lemma {:induction false} AfterNpxAppend(ts: seq<string>)
    requires AfterNpx(ts) != []
    ensures AfterNpx(ts + [FLAG]) == AfterNpx(ts) + [FLAG]
  {
    if ts != [] && NpxOption(ts[0]) {
      assert (ts + [FLAG])[1..] == ts[1..] + [FLAG];
      AfterNpxAppend(ts[1..]);
    }
  }

  lemma ProgramAppend(args: seq<string>)
    requires Program(args) != []
    ensures Program(args + [FLAG]) == Program(args) + [FLAG]
  {
    hide Name;
    var u := args + [FLAG];
    assert u[0] == args[0] && u[1..] == args[1..] + [FLAG];
    if |args| > 1 { assert u[2..] == args[2..] + [FLAG]; }
    if |args| > 2 { assert u[3..] == args[3..] + [FLAG]; }
    if Name(args[0]) == "npx" { AfterNpxAppend(args[1..]); }
  }

  /** The flag is seen: it stays a Vitest run, and now says what it does with its cache. */
  lemma FlagIsSeen(words: seq<string>)
    requires RunsVitest(words)
    ensures RunsVitest(words + [FLAG]) && SaysCache(words + [FLAG])
  {
    var args := Program(Peeled(words));
    PeeledAppend(words);
    ProgramAppend(Peeled(words));
    var more := Program(Peeled(words + [FLAG]));
    assert more == args + [FLAG] && CacheOption(more[|args|]);
  }
}
