/** What counts as a launcher of a program and what as a run of Vitest, told by how such command lines are
    written rather than by how they are taken apart. */
module Launchers {
  import opened ShellWords

  /** The letters and the underscore, by their ASCII codes. */
  predicate Initial(c: char) {
    65 <= c as int <= 90 || 97 <= c as int <= 122 || c as int == 95
  }

  /** These and the digits. */
  predicate Further(c: char) {
    Initial(c) || 48 <= c as int <= 57
  }

  // ---------------------------------------------------------------- names of programs

  lemma {:induction false} LastSlashIs(path: string, n: nat, k: nat)
    requires n <= |path| && k <= n && (k > 0 ==> path[k - 1] == '/') && '/' !in path[k..n]
    ensures LastSlash(path, n) == k
  {
    if n > k {
      assert path[k..n][n - 1 - k] == path[n - 1];
      assert path[k..n - 1] == path[k..n][..n - 1 - k];
      LastSlashIs(path, n - 1, k);
    }
  }

  /** The last component names a program, wherever it lies and however many slashes and dots follow. */
  lemma NameMeans(directory: string, last: string)
    requires '/' !in last
    ensures last != "" && last != "." ==> Name(last) == last && Name(directory + "/" + last) == last
    ensures last == "" || last == "." ==> Name(last) == "" && Name(directory + "/" + last) == Name(directory)
  {
    var path := directory + "/" + last;
    assert path[|directory| + 1..|path|] == last && last[0..|last|] == last;
    LastSlashIs(path, |path|, |directory| + 1);
    LastSlashIs(last, |last|, 0);
    assert path[..|directory|] == directory && path[|directory| + 1..] == last && last[0..] == last;
  }

  // ---------------------------------------------------------------- launchers

  datatype CondaOption = Flag(word: string) | Valued(option: string, value: string)

  /** An assignment, `exec`, `env`, or a `conda run` with its options, ended by `--` or not. */
  datatype Launcher =
    | Sets(name: string, value: string)
    | Execs
    | Envs
    | Conda(program: string, options: seq<CondaOption>, ended: bool)

  ghost predicate IsName(name: string) {
    name != "" && Initial(name[0]) && forall i :: 0 <= i < |name| ==> Further(name[i])
  }

  ghost predicate ValidOption(o: CondaOption) {
    match o
    case Flag(word) => "-" <= word && word !in {"--", "-p", "--prefix", "-n", "--name", "--cwd"}
    case Valued(option, _) => option in {"-p", "--prefix", "-n", "--name", "--cwd"}
  }

  ghost predicate Valid(l: Launcher) {
    match l
    case Sets(name, _) => IsName(name)
    case Conda(program, options, _) =>
      && Name(program) == "conda" && (forall name, value :: IsName(name) ==> program != name + "=" + value)
      && forall o :: o in options ==> ValidOption(o)
    case _ => true
  }

  function OptionWords(options: seq<CondaOption>): seq<string> {
    if options == [] then [] else OptionWord(options[0]) + OptionWords(options[1..])
  }

  function OptionWord(o: CondaOption): seq<string> {
    match o
    case Flag(word) => [word]
    case Valued(option, value) => [option, value]
  }

  function Spelled(l: Launcher): seq<string> {
    match l
    case Sets(name, value) => [name + "=" + value]
    case Execs => ["exec"]
    case Envs => ["env"]
    case Conda(program, options, ended) => [program, "run"] + OptionWords(options) + if ended then ["--"] else []
  }

  lemma {:induction false} RestMeans(w: string)
    ensures AssignmentRest(w) <==> exists k: nat :: k < |w| && w[k] == '=' && forall i :: 0 <= i < k ==> Further(w[i])
  {
    if w != "" {
      RestMeans(w[1..]);
      assert !Further('=');
      assert Further(w[0]) <==> Letter(w[0]) || '0' <= w[0] <= '9';
      hide Letter, Further;
      if k: nat :| k < |w[1..]| && w[1..][k] == '=' && forall i :: 0 <= i < k ==> Further(w[1..][i]) {
        assert forall i :: 1 <= i < k + 1 ==> w[i] == w[1..][i - 1];
        assert w[0] != '=' ==> w[k + 1] == '=';
      }
      if k: nat :| k < |w| && w[k] == '=' && forall i :: 0 <= i < k ==> Further(w[i]) {
        assert forall i :: 0 <= i < k - 1 ==> w[1..][i] == w[i + 1];
        assert k > 0 ==> w[1..][k - 1] == '=';
      }
    }
  }

  /** An assignment is a name, an equals sign and anything. */
  lemma AssignmentMeans(w: string)
    ensures Assignment(w) <==> exists name, value :: IsName(name) && w == name + "=" + value
  {
    if w != "" {
      RestMeans(w[1..]);
      assert Initial(w[0]) <==> Letter(w[0]);
      assert Initial(w[0]) ==> Further(w[0]);
      hide Letter, Further, Initial, AssignmentRest;
      if Assignment(w) { AssignmentSplits(w); }
      if name, value :| IsName(name) && w == name + "=" + value { SplitIsAssignment(w, name, value); }
    }
  }

  lemma AssignmentSplits(w: string)
    requires w != "" && Further(w[0]) && Initial(w[0])
    requires exists k: nat :: k < |w[1..]| && w[1..][k] == '=' && forall i :: 0 <= i < k ==> Further(w[1..][i])
    ensures exists name, value :: IsName(name) && w == name + "=" + value
  {
    hide Further, Initial;
    var k: nat :| k < |w[1..]| && w[1..][k] == '=' && forall i :: 0 <= i < k ==> Further(w[1..][i]);
    var name := w[..k + 1];
    forall i | 0 <= i < |name| ensures Further(name[i]) { assert i > 0 ==> w[1..][i - 1] == name[i]; }
    assert w == name + "=" + w[k + 2..];
    assert IsName(name);
  }

  lemma SplitIsAssignment(w: string, name: string, value: string)
    requires IsName(name) && w == name + "=" + value
    ensures w != "" && Initial(w[0])
    ensures exists k: nat :: k < |w[1..]| && w[1..][k] == '=' && forall i :: 0 <= i < k ==> Further(w[1..][i])
  {
    hide Further, Initial;
    var k := |name| - 1;
    assert w[0] == name[0];
    assert w[1..][k] == '=' && forall i :: 0 <= i < k ==> w[1..][i] == name[i + 1];
  }

  lemma {:induction false} OptionsPeel(options: seq<CondaOption>, ended: bool, rest: seq<string>)
    requires forall o :: o in options ==> ValidOption(o)
    requires !ended && rest != [] ==> !("-" <= rest[0])
    ensures AfterConda(OptionWords(options) + (if ended then ["--"] else []) + rest) == rest
  {
    var end := if ended then ["--"] else [];
    OptionsEnd(ended, rest);
    hide ValidOption, AfterConda, OptionWord;
    if options == [] {
      assert OptionWords(options) + end + rest == end + rest;
    } else {
      OptionsPeel(options[1..], ended, rest);
      assert options[0] in options;
      var more := OptionWords(options[1..]) + end + rest;
      OptionPeels(options[0], more);
      Regroup(OptionWord(options[0]), OptionWords(options[1..]), end, rest);
    }
  }

  lemma Regroup(a: seq<string>, b: seq<string>, c: seq<string>, d: seq<string>)
    ensures a + b + c + d == a + (b + c + d)
  {
  }

  lemma OptionsEnd(ended: bool, rest: seq<string>)
    requires !ended && rest != [] ==> !("-" <= rest[0])
    ensures AfterConda((if ended then ["--"] else []) + rest) == rest
  {
    if ended { assert "-" <= "--" && (["--"] + rest)[1..] == rest; } else { assert [] + rest == rest; }
  }

  lemma OptionPeels(o: CondaOption, rest: seq<string>)
    requires ValidOption(o)
    ensures AfterConda(OptionWord(o) + rest) == AfterConda(rest)
  {
    var all := OptionWord(o) + rest;
    match o
    case Flag(word) => assert all[0] == word && all[1..] == rest;
    case Valued(option, value) =>
      assert all[0] == option && "-" <= option && all[1..] == [value] + rest && ([value] + rest)[1..] == rest;
  }

  /** A launcher in front is taken off, as long as nothing that follows looks like one more of its options. */
  lemma LauncherPeels(l: Launcher, rest: seq<string>)
    requires Valid(l) && (l.Conda? && !l.ended && rest != [] ==> !("-" <= rest[0]))
    ensures Peeled(Spelled(l) + rest) == Peeled(rest)
  {
    var words := Spelled(l) + rest;
    match l
    case Sets(name, value) =>
      AssignmentMeans(words[0]);
      hide Assignment, IsName;
      assert words[1..] == rest;
    case Conda(_, _, _) => CondaPeels(l, rest);
    case Execs => assert words[1..] == rest;
    case Envs => assert words[1..] == rest;
  }

  lemma CondaPeels(l: Launcher, rest: seq<string>)
    requires l.Conda? && Valid(l) && (!l.ended && rest != [] ==> !("-" <= rest[0]))
    ensures Peeled(Spelled(l) + rest) == Peeled(rest)
  {
    var words, tail := Spelled(l) + rest, OptionWords(l.options) + (if l.ended then ["--"] else []) + rest;
    OptionsPeel(l.options, l.ended, rest);
    AssignmentMeans(l.program);
    NameMeans("", "exec");
    NameMeans("", "env");
    CondaSpelled(l, rest, tail);
    hide Assignment, AfterConda, Name, IsName, ValidOption, OptionWords, Spelled, Peeled;
    CondaUnfolds(words);
  }

  lemma CondaSpelled(l: Launcher, rest: seq<string>, tail: seq<string>)
    requires l.Conda? && tail == OptionWords(l.options) + (if l.ended then ["--"] else []) + rest
    ensures var words := Spelled(l) + rest; |words| > 1 && words[0] == l.program && words[1] == "run" && words[2..] == tail
  {
    hide OptionWords;
  }

  lemma CondaUnfolds(words: seq<string>)
    requires |words| > 1 && Name(words[0]) == "conda" && words[1] == "run"
    requires !Assignment(words[0]) && words[0] != "exec" && words[0] != "env"
    ensures Peeled(words) == Peeled(AfterConda(words[2..]))
  {
    hide Assignment, AfterConda, Name;
  }

  /** No launcher starts the words. */
  ghost predicate Bare(words: seq<string>) {
    words != [] ==>
      && words[0] != "exec" && words[0] != "env" && (forall name, value :: IsName(name) ==> words[0] != name + "=" + value)
      && !(Name(words[0]) == "conda" && |words| > 1 && words[1] == "run")
  }

  lemma NothingToPeel(words: seq<string>)
    requires Bare(words)
    ensures Peeled(words) == words
  {
    if words != [] { AssignmentMeans(words[0]); }
    hide Assignment, IsName, Name;
  }

  function AllSpelled(ls: seq<Launcher>): seq<string> {
    if ls == [] then [] else Spelled(ls[0]) + AllSpelled(ls[1..])
  }

  /** Nothing after an open-ended `conda run` looks like one more of its options. */
  ghost predicate Apart(ls: seq<Launcher>, rest: seq<string>) {
    forall i :: 0 <= i < |ls| && ls[i].Conda? && !ls[i].ended ==>
      var after := AllSpelled(ls[i + 1..]) + rest; after != [] ==> !("-" <= after[0])
  }

  /** Any launchers are taken off, in any order and number. */
  lemma {:induction false} LaunchersPeel(ls: seq<Launcher>, rest: seq<string>)
    requires (forall l :: l in ls ==> Valid(l)) && Apart(ls, rest)
    ensures Peeled(AllSpelled(ls) + rest) == Peeled(rest)
  {
    if ls == [] {
      assert AllSpelled(ls) + rest == rest;
    } else {
      var more := AllSpelled(ls[1..]) + rest;
      assert AllSpelled(ls) + rest == Spelled(ls[0]) + more;
      assert ls[0] in ls;
      forall i | 0 <= i < |ls| - 1 ensures ls[1..][i + 1..] == ls[i + 2..] && ls[1..][i] == ls[i + 1] { }
      assert ls[0].Conda? && !ls[0].ended && more != [] ==> !("-" <= more[0]) by { assert ls[0..][1..] == ls[1..]; }
      hide Valid, Spelled, Peeled, AllSpelled;
      LauncherPeels(ls[0], more);
      LaunchersPeel(ls[1..], rest);
    }
  }

  // ---------------------------------------------------------------- package runners

  /** Without one, or a package manager with `exec` or `dlx`, or one that runs programs by name, or npx. */
  datatype Runner =
    | Directly
    | Executes(program: string, verb: string, ended: bool)
    | Runs(program: string)
    | Npx(program: string, options: seq<string>)

  function RunnerWords(r: Runner): seq<string> {
    match r
    case Directly => []
    case Executes(program, verb, ended) => [program, verb] + if ended then ["--"] else []
    case Runs(program) => [program]
    case Npx(program, options) => [program] + options
  }

  ghost predicate NpxWord(w: string) {
    w in {"--yes", "-y", "--no-install", "--"}
  }

  ghost predicate ValidRunner(r: Runner) {
    match r
    case Directly => true
    case Executes(program, verb, _) => Name(program) in {"npm", "pnpm", "yarn"} && verb in {"exec", "dlx"}
    case Runs(program) => Name(program) in {"pnpm", "yarn"}
    case Npx(program, options) => Name(program) == "npx" && forall o :: o in options ==> NpxWord(o)
  }

  /** The program is not itself read as part of its runner. */
  ghost predicate Clear(r: Runner, program: string) {
    match r
    case Directly => Name(program) !in {"npm", "npx", "pnpm", "yarn"}
    case Executes(_, _, ended) => ended || program != "--"
    case Runs(_) => program !in {"exec", "dlx"}
    case Npx(_, _) => !NpxWord(program)
  }

  lemma {:induction false} NpxPeels(options: seq<string>, rest: seq<string>)
    requires forall o :: o in options ==> NpxWord(o)
    requires rest != [] ==> !NpxWord(rest[0])
    ensures AfterNpx(options + rest) == rest
  {
    if options == [] {
      assert options + rest == rest;
    } else {
      assert options[0] in options && (options + rest)[1..] == options[1..] + rest;
      NpxPeels(options[1..], rest);
    }
  }

  lemma ExecutesFound(words: seq<string>, rest: seq<string>, ended: bool)
    requires |words| > 1 && Name(words[0]) in {"npm", "pnpm", "yarn"} && words[1] in {"exec", "dlx"}
    requires words[2..] == (if ended then ["--"] else []) + rest && (!ended && rest != [] ==> rest[0] != "--")
    ensures Program(words) == rest
  {
    hide Name;
    if ended { assert words[2] == words[2..][0] && words[3..] == words[2..][1..]; } else { assert words[2..] == rest; }
    assert |words| > 2 ==> words[2] == words[2..][0];
  }

  lemma RunsFound(words: seq<string>)
    requires words != [] && Name(words[0]) in {"pnpm", "yarn"} && (|words| > 1 ==> words[1] !in {"exec", "dlx"})
    ensures Program(words) == words[1..]
  {
    hide Name;
  }

  lemma NpxFound(words: seq<string>)
    requires words != [] && Name(words[0]) == "npx"
    ensures Program(words) == AfterNpx(words[1..])
  {
    hide Name;
  }

  lemma DirectlyFound(words: seq<string>)
    requires words != [] && Name(words[0]) !in {"npm", "npx", "pnpm", "yarn"}
    ensures Program(words) == words
  {
    hide Name;
  }

  /** Whichever package runner starts it, the program is found with its arguments. */
  lemma RunnerFound(r: Runner, program: string, arguments: seq<string>)
    requires ValidRunner(r) && Clear(r, program)
    ensures Program(RunnerWords(r) + ([program] + arguments)) == [program] + arguments
  {
    var call := [program] + arguments;
    var words := RunnerWords(r) + call;
    hide Program, Name, AfterNpx;
    assert call[0] == program;
    match r
    case Directly =>
      assert words == call;
      DirectlyFound(words);
    case Executes(_, _, ended) =>
      assert words[2..] == (if ended then ["--"] else []) + call;
      ExecutesFound(words, call, ended);
    case Runs(_) =>
      assert words[1..] == call;
      RunsFound(words);
    case Npx(_, options) =>
      assert words[1..] == options + call;
      NpxFound(words);
      NpxPeels(options, call);
  }

  ghost predicate SpeaksOfCache(argument: string) {
    argument == "--cache" || argument == "--no-cache" || exists value :: argument == "--cache=" + value
  }

  /** However it is launched, a program is given the flag exactly when it is Vitest and no argument of it
      speaks of the cache. */
  lemma LaunchedNeedsFlag(ls: seq<Launcher>, r: Runner, program: string, arguments: seq<string>)
    requires (forall l :: l in ls ==> Valid(l)) && ValidRunner(r) && Clear(r, program)
    requires var call := RunnerWords(r) + ([program] + arguments); Apart(ls, call) && Bare(call)
    ensures NeedsFlag(AllSpelled(ls) + (RunnerWords(r) + ([program] + arguments))) <==>
      Name(program) == "vitest" && forall a :: a in arguments ==> !SpeaksOfCache(a)
  {
    var call := RunnerWords(r) + ([program] + arguments);
    var words := AllSpelled(ls) + call;
    LaunchersPeel(ls, call);
    NothingToPeel(call);
    RunnerFound(r, program, arguments);
    hide *;
    assert ([program] + arguments)[1..] == arguments;
    FoundSays(words, [program] + arguments);
  }

  lemma FoundSays(words: seq<string>, call: seq<string>)
    requires call != [] && Program(Peeled(words)) == call
    ensures NeedsFlag(words) <==> Name(call[0]) == "vitest" && forall a :: a in call[1..] ==> !SpeaksOfCache(a)
  {
    hide Peeled, Program, Name;
    forall a ensures CacheOption(a) <==> SpeaksOfCache(a) {
      if "--cache=" <= a { assert a == "--cache=" + a[8..]; }
    }
    hide CacheOption, SpeaksOfCache;
    if SaysCache(words) {
      var i :| 1 <= i < |call| && CacheOption(call[i]);
      assert call[1..][i - 1] in call[1..];
    }
    if a :| a in call[1..] && SpeaksOfCache(a) {
      var i :| 0 <= i < |call[1..]| && call[1..][i] == a;
      assert call[i + 1] == a;
    }
  }
}
