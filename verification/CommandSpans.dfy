/** Locating the simple commands of a shell line and rewriting them in place. */
module CommandSpans {
  import opened Text
  import opened Wrappers

  datatype Quote = Unquoted | Single | Double

  // ---------------------------------------------------------------- lexing

  /** What the next characters of a command line do, after character `prev`, inside quote `q`. */
  datatype Step = Passes(length: nat, quote: Quote) | Stops | Refused

  predicate OpensExpansion(t: string) {
    t != "" && (t[0] == '`' || (|t| > 1 && t[0] == '$' && t[1] == '('))
  }

  /** An unquoted character that ends a simple command: a separator (but not the `&` of a redirection)
      or the start of a comment. */
  predicate Ends(prev: char, c: char) {
    || (c == '#' && IsSpace(prev))
    || c == ';' || c == '|' || c == '\n'
    || (c == '&' && prev != '<' && prev != '>')
  }

  function Read(prev: char, t: string, q: Quote): Step
    requires t != ""
  {
    var c := t[0];
    if c == '\\' && q != Single then Passes(2, q)
    else match q
    case Single => Passes(1, if c == '\'' then Unquoted else Single)
    case Double => if c == '"' then Passes(1, Unquoted) else if OpensExpansion(t) then Refused else Passes(1, Double)
    case Unquoted =>
      if c == '"' then Passes(1, Double)
      else if c == '\'' then Passes(1, Single)
      else if c == '(' || c == ')' || c == '`' then Refused
      else if Ends(prev, c) then Stops
      else Passes(1, Unquoted)
  }

  /** The length of the simple command at the front of `t`. An escape may reach past the end. */
  function Simple(prev: char, t: string, q: Quote): (n: Option<nat>)
    ensures n.Some? ==> n.value <= |t|
    decreases |t|
  {
    if t == "" then if q == Unquoted then Some(0) else None
    else
      match Read(prev, t, q)
      case Stops => Some(0)
      case Refused => None
      case Passes(k, r) =>
        if k > |t| then if r == Unquoted then Some(|t|) else None
        else
          var rest := Simple(t[k - 1], t[k..], r);
          if rest.Some? then Some(k + rest.value) else None
  }

  /** How far a run of `c` reaches. */
  function RunLength(t: string, c: char): (n: nat)
    ensures n <= |t| && (forall i :: 0 <= i < n ==> t[i] == c) && (n < |t| ==> t[n] != c)
  {
    if t == "" || t[0] != c then 0 else 1 + RunLength(t[1..], c)
  }

  /** How far a comment reaches, with the line end that closes it. */
  function CommentLength(t: string): (n: nat)
    ensures n <= |t| && (t != "" ==> n > 0)
  {
    if t == "" then 0 else if t[0] == '\n' then 1 else 1 + CommentLength(t[1..])
  }

  predicate Closed(comment: string) {
    comment != "" && comment[|comment| - 1] == '\n'
  }

  /** A simple command and what separates it from the next one. */
  datatype Piece = Piece(simple: string, gap: string)

  /** A command line as simple commands and gaps, none if it holds nested shell syntax. A comment that
      runs to the end of the line is not followed by another command. */
  function Split(prev: char, t: string): Option<seq<Piece>>
    decreases |t|, 1
  {
    var n := Simple(prev, t, Unquoted);
    if n.None? then None else Cut(t, n.value)
  }

  function GapLength(t: string): (g: nat)
    requires t != ""
    ensures 0 < g <= |t|
  {
    if t[0] == '#' then CommentLength(t) else RunLength(t, t[0])
  }

  /** The pieces of `t`, the first of which has a simple command of length `n`. */
  function Cut(t: string, n: nat): Option<seq<Piece>>
    requires n <= |t|
    decreases |t|, 0
  {
    if n == |t| then Some([Piece(t, "")])
    else
      var g := GapLength(t[n..]);
      var piece := Piece(t[..n], t[n..n + g]);
      if t[n] == '#' && !Closed(piece.gap) then Some([piece])
      else
        var more := Split(t[n + g - 1], t[n + g..]);
        if more.None? then None else Some([piece] + more.value)
  }

  /** `command_spans` as a function: a line starts as if after a line end. */
  function PiecesOf(command: string): Option<seq<Piece>> {
    Split('\n', command)
  }

  function Join(pieces: seq<Piece>): string {
    if pieces == [] then "" else pieces[0].simple + pieces[0].gap + Join(pieces[1..])
  }

  /** Nothing of a command line is lost. */
  lemma {:induction false} SplitJoins(prev: char, t: string)
    ensures Split(prev, t).Some? ==> Join(Split(prev, t).value) == t
    decreases |t|
  {
    hide Simple, Closed, GapLength;
    var n := Simple(prev, t, Unquoted);
    if n.Some? && n.value < |t| {
      var g := GapLength(t[n.value..]);
      var piece := Piece(t[..n.value], t[n.value..n.value + g]);
      assert t == piece.simple + piece.gap + t[n.value + g..];
      if t[n.value] == '#' && !Closed(piece.gap) {
        assert t[n.value..][..g] == piece.gap;
        GapToEnd(t[n.value..]);
      } else {
        SplitJoins(t[n.value + g - 1], t[n.value + g..]);
      }
    }
  }

  lemma GapToEnd(t: string)
    requires t != "" && t[0] == '#' && !Closed(t[..GapLength(t)])
    ensures GapLength(t) == |t|
  {
    CommentToEnd(t);
  }

  lemma {:induction false} CommentToEnd(t: string)
    requires t != "" && !Closed(t[..CommentLength(t)])
    ensures CommentLength(t) == |t|
  {
    if t[0] != '\n' && |t| > 1 {
      var n := CommentLength(t[1..]);
      assert t[..1 + n][n] == t[1..][..n][n - 1];
      CommentToEnd(t[1..]);
    }
  }

  // ---------------------------------------------------------------- spans

  predicate SpansOf(spans: seq<(nat, nat)>, pieces: seq<Piece>) {
    |spans| == |pieces| && forall k | 0 <= k < |spans| :: SpanAt(spans[k], pieces, k)
  }

  /** The `k`th simple command starts where the pieces before it end. */
  predicate SpanAt(span: (nat, nat), pieces: seq<Piece>, k: nat)
    requires k < |pieces|
  {
    span.0 == |Join(pieces[..k])| && span.1 == span.0 + |pieces[k].simple|
  }

  function Prev(t: string, i: nat): char
    requires i <= |t|
  {
    if i == 0 then '\n' else t[i - 1]
  }

  /** Where the simple command ends that the lexer is in at `index`, inside quote `q`. */
  function EndOf(t: string, index: nat, q: Quote): Option<nat> {
    if index > |t| then if q == Unquoted then Some(|t|) else None
    else
      var n := Simple(Prev(t, index), t[index..], q);
      if n.Some? then Some(index + n.value) else None
  }

  /** What is left to find from there. */
  function Rest(t: string, start: nat, index: nat, q: Quote): Option<seq<Piece>>
    requires start <= index && start <= |t|
  {
    var e := EndOf(t, index, q);
    if e.None? then None else Cut(t[start..], e.value - start)
  }

  function Append(done: seq<Piece>, rest: Option<seq<Piece>>): Option<seq<Piece>> {
    if rest.None? then None else Some(done + rest.value)
  }

  lemma PassStep(t: string, index: nat, q: Quote)
    requires index < |t|
    ensures var step := Read(Prev(t, index), t[index..], q);
      && (step.Passes? ==> EndOf(t, index, q) == EndOf(t, index + step.length, step.quote))
      && (step.Stops? ==> EndOf(t, index, q) == Some(index))
      && (step.Refused? ==> EndOf(t, index, q) == None)
  {
    var step := Read(Prev(t, index), t[index..], q);
    if step.Passes? && index + step.length <= |t| {
      assert t[index..][step.length..] == t[index + step.length..];
      assert t[index..][step.length - 1] == t[index + step.length - 1];
    }
  }

  lemma {:induction false} JoinAppend(a: seq<Piece>, b: seq<Piece>)
    ensures Join(a + b) == Join(a) + Join(b)
  {
    if a == [] {
      assert a + b == b;
    } else {
      assert (a + b)[1..] == a[1..] + b;
      JoinAppend(a[1..], b);
    }
  }

  lemma SpansGrow(spans: seq<(nat, nat)>, done: seq<Piece>, piece: Piece)
    requires SpansOf(spans, done)
    ensures var start := |Join(done)|; SpansOf(spans + [(start, start + |piece.simple|)], done + [piece])
    ensures Join(done + [piece]) == Join(done) + piece.simple + piece.gap
  {
    JoinAppend(done, [piece]);
    assert Join([piece]) == piece.simple + piece.gap + Join([]);
    hide Join;
    var all := done + [piece];
    assert all[..|done|] == done;
    forall k | 0 <= k < |done| ensures SpanAt(spans[k], all, k) {
      assert SpanAt(spans[k], done, k) && all[..k] == done[..k];
    }
  }

  /** `command_spans`: the pieces of the command line, by position. */
  method FindSpans(command: string) returns (found: Option<seq<(nat, nat)>>)
    ensures PiecesOf(command).None? <==> found.None?
    ensures found.Some? ==> SpansOf(found.value, PiecesOf(command).value)
  {
    hide Split, Cut, Simple, Join, SpansOf, EndOf, CommentLength, RunLength;
    var spans: seq<(nat, nat)> := [];
    ghost var done: seq<Piece> := [];
    var start, index, quote := 0, 0, Unquoted;
    Beginning(command);
    while index < |command|
      invariant start <= index && start <= |command|
      invariant SpansOf(spans, done) && |Join(done)| == start
      invariant PiecesOf(command) == Append(done, Rest(command, start, index, quote))
      decreases |command| - index
    {
      var c := command[index];
      PassStep(command, index, quote);
      if c == '\\' && quote != Single {
        index := index + 2;
        continue;
      }
      if quote != Unquoted {
        if (c == '"' && quote == Double) || (c == '\'' && quote == Single) {
          quote := Unquoted;
        } else if quote == Double && OpensExpansion(command[index..]) {
          return None;
        }
      } else if c == '"' {
        quote := Double;
      } else if c == '\'' {
        quote := Single;
      } else if c == '(' || c == ')' || c == '`' {
        return None;
      } else if Ends(Prev(command, index), c) {
        CutHere(command, start, index, quote, done);
        SpansGrow(spans, done, PieceAt(command, start, index));
        spans := spans + [(start, index)];
        done := done + [PieceAt(command, start, index)];
        if c == '#' {
          var length := CommentLength(command[index..]);
          if !Closed(command[index..index + length]) { return Some(spans); }
          start := index + length;
          index := start;
          continue;
        }
        var from := index;
        while index + 1 < |command| && command[index + 1] == c
          invariant from <= index < |command| && forall i :: from <= i <= index ==> command[i] == c
          decreases |command| - index
        {
          index := index + 1;
        }
        RunEnds(command, from, index);
        start := index + 1;
      }
      index := index + 1;
    }
    Ending(command, start, index, quote);
    if quote != Unquoted { return None; }
    SpansGrow(spans, done, Piece(command[start..], ""));
    found := Some(spans + [(start, |command|)]);
  }

  lemma Beginning(t: string)
    ensures PiecesOf(t) == Append([], Rest(t, 0, 0, Unquoted))
    ensures SpansOf([], []) && Join([]) == ""
  {
    assert t[0..] == t;
    RestIsSplit(t, 0);
    if PiecesOf(t).Some? { assert [] + PiecesOf(t).value == PiecesOf(t).value; }
  }

  lemma CutAll(t: string)
    ensures Cut(t, |t|) == Some([Piece(t, "")])
  {
    assert t[..|t|] == t;
  }

  lemma Ending(t: string, start: nat, index: nat, q: Quote)
    requires start <= |t| <= index && start <= index
    ensures Rest(t, start, index, q) == if q == Unquoted then Some([Piece(t[start..], "")]) else None
  {
    hide Split;
    if index == |t| { assert t[index..] == ""; }
    assert EndOf(t, index, q) == if q == Unquoted then Some(|t|) else None;
    CutAll(t[start..]);
  }

  /** The piece that starts at `start` and whose simple command ends at `index`. */
  function PieceAt(t: string, start: nat, index: nat): Piece
    requires start <= index < |t|
  {
    Piece(t[start..index], t[index..index + GapLength(t[index..])])
  }

  lemma CutHere(t: string, start: nat, index: nat, q: Quote, done: seq<Piece>)
    requires start <= index < |t| && EndOf(t, index, q) == Some(index)
    ensures var g, piece := GapLength(t[index..]), PieceAt(t, start, index);
      Append(done, Rest(t, start, index, q)) ==
      if t[index] == '#' && !Closed(piece.gap) then Some(done + [piece])
      else Append(done + [piece], Rest(t, index + g, index + g, Unquoted))
  {
    hide Simple, Closed, GapLength, Split, Cut;
    var g, u, n := GapLength(t[index..]), t[start..], index - start;
    assert u[n..] == t[index..] && u[..n] == t[start..index] && u[n..n + g] == t[index..index + g];
    assert u[n + g..] == t[index + g..] && u[n + g - 1] == t[index + g - 1];
    CutUnfolds(u, n);
    RestIsSplit(t, index + g);
    AppendTwice(done, PieceAt(t, start, index), Split(t[index + g - 1], t[index + g..]));
  }

  lemma CutUnfolds(u: string, n: nat)
    requires n < |u|
    ensures var g := GapLength(u[n..]);
      var piece := Piece(u[..n], u[n..n + g]);
      Cut(u, n) == if u[n] == '#' && !Closed(piece.gap) then Some([piece]) else Append([piece], Split(u[n + g - 1], u[n + g..]))
  {
    hide Split, GapLength, Closed;
  }

  lemma RestIsSplit(t: string, i: nat)
    requires i <= |t|
    ensures Rest(t, i, i, Unquoted) == Split(Prev(t, i), t[i..])
  {
    hide Simple, Cut;
  }

  lemma AppendTwice(done: seq<Piece>, piece: Piece, more: Option<seq<Piece>>)
    ensures Append(done, Append([piece], more)) == Append(done + [piece], more)
  {
    if more.Some? { assert done + ([piece] + more.value) == done + [piece] + more.value; }
  }

  lemma RunEnds(t: string, from: nat, last: nat)
    requires from <= last < |t| && t[from] != '#' && (forall i :: from <= i <= last ==> t[i] == t[from])
    requires last + 1 < |t| ==> t[last + 1] != t[from]
    ensures GapLength(t[from..]) == last + 1 - from
  {
    var u := t[from..];
    assert forall i :: 0 <= i <= last - from ==> u[i] == t[from + i];
    assert last + 1 < |t| ==> u[last + 1 - from] == t[last + 1];
  }

  lemma {:induction false} GapsSeparate(prev: char, t: string)
    requires Split(prev, t).Some?
    ensures var p := Split(prev, t).value; p != [] && forall k :: 0 <= k < |p| - 1 ==> p[k].gap != ""
    decreases |t|
  {
    hide Simple, Closed, GapLength;
    var n := Simple(prev, t, Unquoted).value;
    if n < |t| {
      var g := GapLength(t[n..]);
      var piece := Piece(t[..n], t[n..n + g]);
      if !(t[n] == '#' && !Closed(piece.gap)) {
        GapsSeparate(t[n + g - 1], t[n + g..]);
        var more := Split(t[n + g - 1], t[n + g..]).value;
        assert forall k :: 0 < k < |more| ==> ([piece] + more)[k] == more[k - 1];
      }
    }
  }

  /** The spans lie within the command line, in order and apart, and each holds its simple command. */
  lemma SpansOrdered(command: string, spans: seq<(nat, nat)>)
    requires PiecesOf(command).Some? && SpansOf(spans, PiecesOf(command).value)
    ensures forall k :: 0 <= k < |spans| ==> spans[k].0 <= spans[k].1 <= |command|
    ensures forall k :: 0 <= k < |spans| ==> command[spans[k].0..spans[k].1] == PiecesOf(command).value[k].simple
    ensures forall j, k :: 0 <= j < k < |spans| ==> spans[j].1 < spans[k].0
  {
    hide Split;
    var p := PiecesOf(command).value;
    SplitJoins('\n', command);
    GapsSeparate('\n', command);
    forall k | 0 <= k < |spans| ensures spans[k].0 <= spans[k].1 <= |command|
      && command[spans[k].0..spans[k].1] == p[k].simple
    {
      assert SpanAt(spans[k], p, k);
      JoinAround(p, k);
    }
    forall j, k | 0 <= j < k < |spans| ensures spans[j].1 < spans[k].0 {
      assert SpanAt(spans[j], p, j) && SpanAt(spans[k], p, k);
      JoinAround(p[..k], j);
      assert p[..k][..j] == p[..j];
    }
  }

  lemma JoinAround(p: seq<Piece>, k: nat)
    requires k < |p|
    ensures Join(p) == Join(p[..k]) + p[k].simple + p[k].gap + Join(p[k + 1..])
    ensures Join(p[k..]) == p[k].simple + p[k].gap + Join(p[k + 1..])
  {
    hide Join;
    var rest := p[k..];
    JoinHead(rest);
    assert rest[1..] == p[k + 1..] && rest[0] == p[k];
    assert p == p[..k] + rest;
    JoinAppend(p[..k], rest);
    Regroup(Join(p[..k]), p[k].simple, p[k].gap, Join(p[k + 1..]));
  }

  lemma Regroup(a: string, b: string, c: string, d: string)
    ensures a + (b + c + d) == a + b + c + d
  {
  }

  lemma JoinHead(p: seq<Piece>)
    requires p != []
    ensures Join(p) == p[0].simple + p[0].gap + Join(p[1..])
  {
  }
}
