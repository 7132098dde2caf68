/** Rewriting the simple commands of a shell line: the splice, and the Vitest cache flag. */
module ShellRewriting {
  import opened Text
  import opened CommandSpans
  import opened Wrappers

  // ---------------------------------------------------------------- splicing

  /** A rewriting of one command, or a refusal. */
  type Transform = string -> Option<string>

  /** A piece with its command rewritten: the blanks after it and the gap stay. */
  function Rewrite(p: Piece, f: Transform): Option<Piece> {
    var core := TrimRight(p.simple);
    if f(core).None? then None else Some(Piece(f(core).value + p.simple[|core|..], p.gap))
  }

  /** Every piece rewritten, from left to right, unless some command is refused. */
  function RewriteAll(pieces: seq<Piece>, f: Transform): Option<seq<Piece>> {
    if pieces == [] then Some([])
    else
      var (first, rest) := (Rewrite(pieces[0], f), RewriteAll(pieces[1..], f));
      if first.None? || rest.None? then None else Some([first.value] + rest.value)
  }

  /** Left-to-right rebuilding of a command line. */
  function Rebuild(pieces: seq<Piece>, f: Transform): Option<string> {
    var all := RewriteAll(pieces, f);
    if all.None? then None else Some(Join(all.value))
  }

  lemma {:induction false} RefusedAnywhere(pieces: seq<Piece>, f: Transform, k: nat)
    requires k < |pieces| && Rewrite(pieces[k], f).None?
    ensures RewriteAll(pieces, f).None?
  {
    hide Rewrite;
    if k > 0 { RefusedAnywhere(pieces[1..], f, k - 1); }
  }

  lemma RebuildStep(pieces: seq<Piece>, f: Transform, k: nat)
    requires k < |pieces| && Rewrite(pieces[k], f).Some? && RewriteAll(pieces[k + 1..], f).Some?
    ensures RewriteAll(pieces[k..], f).Some?
    ensures var p := Rewrite(pieces[k], f).value;
      Rebuild(pieces[k..], f) == Some(p.simple + p.gap + Rebuild(pieces[k + 1..], f).value)
  {
    hide Rewrite;
    assert pieces[k..][1..] == pieces[k + 1..];
    var p, rest := Rewrite(pieces[k], f).value, RewriteAll(pieces[k + 1..], f).value;
    assert RewriteAll(pieces[k..], f) == Some([p] + rest);
    assert ([p] + rest)[1..] == rest;
    JoinHead([p] + rest);
  }

  /** `rewrite_simple_commands`: splicing from right to left is rebuilding from left to right. */
  method RewriteSimpleCommands(command: string, f: Transform) returns (result: Option<string>)
    ensures PiecesOf(command).None? ==> result.None?
    ensures PiecesOf(command).Some? ==> result == Rebuild(PiecesOf(command).value, f)
  {
    hide PiecesOf, Join, RewriteAll, Rebuild, SpansOf, TrimRight;
    var found := FindSpans(command);
    if found.None? { return None; }
    var spans := found.value;
    ghost var pieces := PiecesOf(command).value;
    Whole(command, f);
    assert |spans| == |pieces| by { Lengths(spans, pieces); }
    var line := command;
    for k := |spans| downto 0
      invariant RewriteAll(pieces[k..], f).Some? && Rebuild(pieces[k..], f).Some?
      invariant line == Join(pieces[..k]) + Rebuild(pieces[k..], f).value
    {
      Spliced(spans, pieces, f, k);
      var (start, end) := spans[k];
      var raw := line[start..end];
      var stripped := TrimRight(raw);
      if f(stripped).None? {
        RefusedAnywhere(pieces, f, k);
        assert Rebuild(pieces, f).None? by { RefusedBuild(pieces, f); }
        return None;
      }
      RebuildStep(pieces, f, k);
      line := line[..start] + f(stripped).value + raw[|stripped|..] + line[end..];
    }
    assert pieces[0..] == pieces && pieces[..0] == [];
    NothingBefore();
    assert line == Rebuild(pieces, f).value;
    result := Some(line);
  }

  lemma Lengths(spans: seq<(nat, nat)>, pieces: seq<Piece>)
    requires SpansOf(spans, pieces)
    ensures |spans| == |pieces|
  {
  }

  lemma NothingBefore()
    ensures Join([]) == ""
  {
  }

  lemma RefusedBuild(pieces: seq<Piece>, f: Transform)
    ensures RewriteAll(pieces, f).None? ==> Rebuild(pieces, f).None?
  {
  }

  lemma Whole(command: string, f: Transform)
    requires PiecesOf(command).Some?
    ensures var p := PiecesOf(command).value;
      && p[|p|..] == [] && RewriteAll([], f) == Some([]) && Rebuild([], f) == Some("")
      && p[..|p|] == p && Join(p) == command
  {
    SplitJoins('\n', command);
  }

  /** What the splice at the `k`th span finds: the command itself, with the rebuilt rest after it. */
  lemma Spliced(spans: seq<(nat, nat)>, pieces: seq<Piece>, f: Transform, k: nat)
    requires SpansOf(spans, pieces) && k < |pieces| && Rebuild(pieces[k + 1..], f).Some?
    ensures var (start, end) := spans[k];
      var before, rest := Join(pieces[..k]), Rebuild(pieces[k + 1..], f).value;
      var line := Join(pieces[..k + 1]) + rest;
      && start <= end <= |line| && line[..start] == before && line[start..end] == pieces[k].simple
      && line[end..] == pieces[k].gap + rest
  {
    hide Rebuild;
    assert SpanAt(spans[k], pieces, k);
    assert pieces[..k + 1] == pieces[..k] + [pieces[k]];
    JoinAppend(pieces[..k], [pieces[k]]);
    assert Join([pieces[k]]) == pieces[k].simple + pieces[k].gap + Join([]);
  }

  /** Rewriting nothing gives the command line back. */
  lemma {:induction false} IdentityKeeps(pieces: seq<Piece>)
    ensures Rebuild(pieces, x => Some(x)) == Some(Join(pieces))
  {
    if pieces != [] {
      IdentityKeeps(pieces[1..]);
      var p := pieces[0];
      assert TrimRight(p.simple) + p.simple[|TrimRight(p.simple)|..] == p.simple;
      assert Rewrite(p, x => Some(x)) == Some(p);
    }
  }
}
