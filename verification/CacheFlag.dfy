/** Disabling the Vitest cache: the flag lands in every Vitest command and nowhere else, and a second
    pass finds nothing to do. */
module CacheFlag {
  import opened Text
  import opened CommandSpans
  import opened Wrappers
  import opened ShellRewriting
  import opened ShellWords

  /** The rewriting of one command: refused if its words cannot be told. */
  function WithoutCache(command: string): Option<string> {
    var words := Words(command);
    if words.None? then None
    else if NeedsFlag(words.value) then Some(command + " " + FLAG) else Some(command)
  }

  function Disabled(command: string): string {
    var pieces := PiecesOf(command);
    if pieces.None? || Rebuild(pieces.value, WithoutCache).None? then command
    else Rebuild(pieces.value, WithoutCache).value
  }

  /** `disable_vitest_cache`: a command line that cannot be parsed stays as it is. */
  method DisableVitestCache(command: string) returns (result: string)
    ensures result == Disabled(command)
  {
    var rewritten := RewriteSimpleCommands(command, WithoutCache);
    result := if rewritten.None? then command else rewritten.value;
  }

  // ---------------------------------------------------------------- reading a text through

  /** Where reading all of `t` leads: on to a quote, past its end, or not through. */
  datatype Reading = At(quote: Quote) | Beyond | Stuck

  function Through(prev: char, t: string, q: Quote): Reading
    decreases |t|
  {
    if t == "" then At(q)
    else
      match Read(prev, t, q)
      case Passes(k, r) => if k > |t| then Beyond else Through(t[k - 1], t[k..], r)
      case _ => Stuck
  }

  function LastOf(prev: char, t: string): char {
    if t == "" then prev else t[|t| - 1]
  }

  lemma {:induction false} ThroughAppend(prev: char, a: string, b: string, q: Quote)
    requires Through(prev, a, q) == At(Unquoted)
    ensures Through(prev, a + b, q) == Through(LastOf(prev, a), b, Unquoted)
    decreases |a|
  {
    if a == "" {
      assert a + b == b;
    } else {
      assert Read(prev, a, q).Passes?;
      SameRead(prev, a, b, q);
      var k := Read(prev, a, q).length;
      assert (a + b)[k..] == a[k..] + b;
      ThroughAppend(a[k - 1], a[k..], b, Read(prev, a, q).quote);
    }
  }

  /** Characters that follow do not matter, once the text itself is read through. */
  lemma SameRead(prev: char, a: string, b: string, q: Quote)
    requires a != "" && Through(prev, a, q) == At(Unquoted)
    ensures Read(prev, a + b, q) == Read(prev, a, q)
  {
    assert a[1..] == "" ==> Through(a[0], a[1..], Double) == At(Double);
  }

  /** The simple command at the front of a text is what is read through, up to a character that ends it. */
  lemma {:induction false} SimpleFront(prev: char, a: string, b: string, q: Quote)
    requires Through(prev, a, q) == At(Unquoted) && (b == "" || Read(LastOf(prev, a), b, Unquoted).Stops?)
    ensures Simple(prev, a + b, q) == Some(|a|)
    decreases |a|
  {
    hide Read, Through, Simple;
    if a == "" {
      NothingSimple(prev, b, q);
      assert a + b == b;
    } else {
      var k, r := SimpleStep(prev, a, b, q);
      SimpleFront(a[k - 1], a[k..], b, r);
    }
  }

  lemma NothingSimple(prev: char, b: string, q: Quote)
    requires Through(prev, "", q) == At(Unquoted) && (b == "" || Read(prev, b, Unquoted).Stops?)
    ensures Simple(prev, b, q) == Some(0)
  {
  }

  lemma ThroughCase(prev: char, a: string, q: Quote)
    requires a != "" && Through(prev, a, q) == At(Unquoted)
    ensures var step := Read(prev, a, q);
      step.Passes? && 0 < step.length <= |a| && Through(a[step.length - 1], a[step.length..], step.quote) == At(Unquoted)
  {
  }

  lemma SimpleStep(prev: char, a: string, b: string, q: Quote) returns (k: nat, r: Quote)
    requires a != "" && Through(prev, a, q) == At(Unquoted)
    ensures 0 < k <= |a| && Through(a[k - 1], a[k..], r) == At(Unquoted)
    ensures var rest := Simple(a[k - 1], a[k..] + b, r);
      rest.Some? ==> Simple(prev, a + b, q) == Some(k + rest.value)
  {
    hide Read, Through, Simple;
    SameRead(prev, a, b, q);
    ThroughCase(prev, a, q);
    k, r := Read(prev, a, q).length, Read(prev, a, q).quote;
    assert (a + b)[k..] == a[k..] + b && (a + b)[k - 1] == a[k - 1];
    SimpleUnfolds(prev, a + b, q, k, r);
  }

  lemma SimpleUnfolds(prev: char, t: string, q: Quote, k: nat, r: Quote)
    requires t != "" && Read(prev, t, q) == Passes(k, r) && 0 < k <= |t|
    ensures Simple(prev, t, q).Some? <==> Simple(t[k - 1], t[k..], r).Some?
    ensures Simple(prev, t, q).Some? ==> Simple(prev, t, q).value == k + Simple(t[k - 1], t[k..], r).value
  {
    hide Read;
  }

  /** ... and conversely; only an escape at the very end reaches past it. */
  lemma {:induction false} SimpleReads(prev: char, t: string, q: Quote)
    requires Simple(prev, t, q).Some?
    ensures ReadsTo(prev, t, q, Simple(prev, t, q).value)
    decreases |t|
  {
    hide Read, Simple, Through, ReadsTo;
    SimpleCases(prev, t, q);
    if t != "" && Read(prev, t, q).Passes? && Read(prev, t, q).length <= |t| {
      var k, r := Read(prev, t, q).length, Read(prev, t, q).quote;
      SimpleReads(t[k - 1], t[k..], r);
      ReadsFurther(prev, t, q, Simple(t[k - 1], t[k..], r).value);
    }
  }

  /** The simple command that starts `t` has length `n`. */
  predicate ReadsTo(prev: char, t: string, q: Quote, n: nat) {
    && n <= |t|
    && (n == |t| ==> Through(prev, t, q) == At(Unquoted) || Through(prev, t, q) == Beyond)
    && (n < |t| ==> Through(prev, t[..n], q) == At(Unquoted) && Read(LastOf(prev, t[..n]), t[n..], Unquoted).Stops?)
  }

  lemma SimpleCases(prev: char, t: string, q: Quote)
    requires Simple(prev, t, q).Some?
    ensures var n := Simple(prev, t, q).value;
      if t != "" && Read(prev, t, q).Passes? && Read(prev, t, q).length <= |t| then
        var (k, r) := (Read(prev, t, q).length, Read(prev, t, q).quote);
        0 < k && Simple(t[k - 1], t[k..], r).Some? && n == k + Simple(t[k - 1], t[k..], r).value
      else ReadsTo(prev, t, q, n)
  {
    if t != "" && Read(prev, t, q).Stops? { assert q == Unquoted && t[..0] == "" && t[0..] == t; }
  }

  lemma ReadsFurther(prev: char, t: string, q: Quote, m: nat)
    requires t != "" && Read(prev, t, q).Passes? && 0 < Read(prev, t, q).length <= |t|
    requires var k := Read(prev, t, q).length; ReadsTo(t[k - 1], t[k..], Read(prev, t, q).quote, m)
    ensures ReadsTo(prev, t, q, Read(prev, t, q).length + m)
  {
    var k, r := Read(prev, t, q).length, Read(prev, t, q).quote;
    if m < |t| - k {
      assert t[..k + m][k..] == t[k..][..m] && t[k..][m..] == t[k + m..];
      FrontRead(prev, t, k + m, q);
      hide Read;
      assert t[..k + m][k + m - 1] == t[k + m - 1];
      assert m > 0 ==> t[k..][..m][m - 1] == t[k + m - 1];
      assert LastOf(prev, t[..k + m]) == LastOf(t[k - 1], t[k..][..m]);
    }
  }

  lemma FrontRead(prev: char, t: string, n: nat, q: Quote)
    requires 0 < n <= |t| && Read(prev, t, q).Passes? && Read(prev, t, q).length <= n
    ensures Read(prev, t[..n], q) == Read(prev, t, q)
  {
  }

  // ---------------------------------------------------------------- the flag within a command

  /** A text whose words can be told is read through without an open quote or a dangling escape. */
  lemma {:induction false} WordsReadThrough(prev: char, t: string, q: Quote, word: Option<string>)
    requires WordsFrom(t, q, word).Some? && Through(prev, t, q) != Stuck
    ensures Through(prev, t, q) == At(Unquoted)
    decreases |t|
  {
    if t != "" {
      var step := Read(prev, t, q);
      assert step.Passes?;
      WordsStep(prev, t, q, word);
      var next :| WordsFrom(t[step.length..], step.quote, next).Some?;
      WordsReadThrough(t[step.length - 1], t[step.length..], step.quote, next);
    }
  }

  /** Both readers take the same characters together and keep the same quote. */
  lemma WordsStep(prev: char, t: string, q: Quote, word: Option<string>)
    requires t != "" && WordsFrom(t, q, word).Some? && Read(prev, t, q).Passes?
    ensures var step := Read(prev, t, q);
      0 < step.length <= |t| && exists next :: WordsFrom(t[step.length..], step.quote, next).Some?
  {
    var c := t[0];
    if c == '\\' && q != Single {
      var kept := if q == Double && t[1] != '\\' && t[1] != '"' then "\\" + [t[1]] else [t[1]];
      assert WordsFrom(t[2..], q, Some(So(word) + kept)).Some?;
    } else if q == Single {
      assert WordsFrom(t[1..], if c == '\'' then Unquoted else Single, Some(if c == '\'' then So(word) else So(word) + [c])).Some?;
    } else if q == Double {
      assert WordsFrom(t[1..], if c == '"' then Unquoted else Double, Some(if c == '"' then So(word) else So(word) + [c])).Some?;
    } else if Blank(c) {
      assert WordsFrom(t[1..], Unquoted, None).Some?;
    } else if c == '"' {
      assert WordsFrom(t[1..], Double, Some(So(word))).Some?;
    } else if c == '\'' {
      assert WordsFrom(t[1..], Single, Some(So(word))).Some?;
    } else {
      assert WordsFrom(t[1..], Unquoted, Some(So(word) + [c])).Some?;
    }
  }

  /** What is read through can be read up to any point, short of an escape cut in two. */
  lemma {:induction false} FrontNotStuck(prev: char, a: string, b: string, q: Quote)
    requires Through(prev, a + b, q) != Stuck
    ensures Through(prev, a, q) != Stuck
    decreases |a|
  {
    if a != "" {
      FrontReads(prev, a, b, q);
      var k := Read(prev, a, q).length;
      if k <= |a| {
        assert (a + b)[k..] == a[k..] + b;
        FrontNotStuck(a[k - 1], a[k..], b, Read(prev, a, q).quote);
      }
    }
  }

  lemma FrontReads(prev: char, a: string, b: string, q: Quote)
    requires a != "" && Through(prev, a + b, q) != Stuck
    ensures Read(prev, a, q).Passes? && Read(prev, a + b, q) == Read(prev, a, q)
  {
  }

  lemma {:induction false} BlanksRead(prev: char, b: string)
    requires AllSpace(b)
    ensures Through(prev, b, Unquoted) == if '\n' in b then Stuck else At(Unquoted)
    decreases |b|
  {
    hide Read, IsSpace;
    if b != "" {
      BlankReads(prev, b);
      assert forall i :: 0 <= i < |b| - 1 ==> b[1..][i] == b[i + 1];
      BlanksRead(b[0], b[1..]);
      assert b == [b[0]] + b[1..];
    }
  }

  lemma BlankReads(prev: char, b: string)
    requires b != "" && IsSpace(b[0])
    ensures Read(prev, b, Unquoted) == if b[0] == '\n' then Stops else Passes(1, Unquoted)
  {
  }

  lemma FlagReads(prev: char)
    ensures Through(prev, " " + FLAG, Unquoted) == At(Unquoted) && LastOf(prev, " " + FLAG) == 'e'
  {
    PlainReads(prev, " " + FLAG);
  }

  /** Characters that mean nothing to the lexer. */
  predicate Harmless(t: string) {
    forall i :: 0 <= i < |t| ==> t[i] == ' ' || t[i] == '-' || 'a' <= t[i] <= 'z'
  }

  lemma {:induction false} PlainReads(prev: char, t: string)
    requires Harmless(t)
    ensures Through(prev, t, Unquoted) == At(Unquoted)
    decreases |t|
  {
    if t != "" {
      assert forall i :: 0 <= i < |t| - 1 ==> t[1..][i] == t[i + 1];
      PlainReads(t[0], t[1..]);
    }
  }

  // ---------------------------------------------------------------- lexing the rewritten line

  function Core(p: Piece): string {
    TrimRight(p.simple)
  }

  function Blanks(p: Piece): string {
    p.simple[|Core(p)|..]
  }

  predicate Flagged(p: Piece) {
    Words(Core(p)).Some? && NeedsFlag(Words(Core(p)).value)
  }

  /** What the rewriting makes of a piece. */
  lemma RewrittenPiece(p: Piece)
    requires Rewrite(p, WithoutCache).Some?
    ensures var q := Rewrite(p, WithoutCache).value;
      && q.gap == p.gap && Words(Core(p)).Some? && p.simple == Core(p) + Blanks(p) && AllSpace(Blanks(p))
      && (Flagged(p) ==> q.simple == Core(p) + " " + FLAG + Blanks(p) && Core(p) != "" && !IsSpace(Core(p)[|Core(p)| - 1]))
      && (!Flagged(p) ==> q == p)
  {
    hide NeedsFlag, IsSpace;
    if Core(p) == "" {
      assert Words("") == Some([]);
      NothingNeeded();
    }
  }

  lemma NothingNeeded()
    ensures !NeedsFlag([])
  {
  }

  /** Two texts that begin alike. */
  predicate SameStart(a: string, b: string) {
    (a == "" <==> b == "") && (a != "" ==> a[0] == b[0])
  }

  lemma StopsAlike(prev: char, a: string, after: char, b: string)
    requires a != "" && SameStart(a, b) && Read(prev, a, Unquoted).Stops?
    requires after == prev || (after == 'e' && !IsSpace(prev))
    ensures Read(after, b, Unquoted).Stops?
  {
  }

  /** A flagged command is still read through, and still ends where it did. */
  lemma FlaggedReads(prev: char, p: Piece, t: string)
    requires Rewrite(p, WithoutCache).Some? && Flagged(p) && ReadsTo(prev, t, Unquoted, |p.simple|) && p.simple <= t
    ensures var q := Rewrite(p, WithoutCache).value;
      Through(prev, q.simple, Unquoted) == At(Unquoted)
      && (LastOf(prev, q.simple) == LastOf(prev, p.simple)
          || (LastOf(prev, q.simple) == 'e' && !IsSpace(LastOf(prev, p.simple))))
  {
    hide Read, Through, NeedsFlag, IsSpace, WordsFrom;
    RewrittenPiece(p);
    var core, blanks, flag := Core(p), Blanks(p), " " + FLAG;
    assert t[..|p.simple|] == p.simple == core + blanks;
    if |p.simple| == |t| { assert t == p.simple; }
    FrontNotStuck(prev, core, blanks, Unquoted);
    WordsReadThrough(prev, core, Unquoted, None);
    ThroughAppend(prev, core, blanks, Unquoted);
    BlanksRead(LastOf(prev, core), blanks);
    FlagReads(LastOf(prev, core));
    ThroughAppend(prev, core, flag, Unquoted);
    ThroughAppend(prev, core + flag, blanks, Unquoted);
    BlanksRead(LastOf(prev, core + flag), blanks);
    assert core + flag + blanks == Rewrite(p, WithoutCache).value.simple;
  }

  /** The lexer finds the rewritten command where the original one was. */
  lemma SimpleKept(prev: char, p: Piece, t: string, b: string)
    requires Rewrite(p, WithoutCache).Some? && p.simple <= t && Simple(prev, t, Unquoted) == Some(|p.simple|)
    requires SameStart(t[|p.simple|..], b)
    ensures var q := Rewrite(p, WithoutCache).value; Simple(prev, q.simple + b, Unquoted) == Some(|q.simple|)
  {
    hide Read, Through, NeedsFlag, IsSpace, Simple, Words;
    SimpleReads(prev, t, Unquoted);
    RewrittenPiece(p);
    var q, n := Rewrite(p, WithoutCache).value, |p.simple|;
    assert t[..n] == p.simple;
    if Flagged(p) {
      FlaggedReads(prev, p, t);
      if b != "" { StopsAlike(LastOf(prev, p.simple), t[n..], LastOf(prev, q.simple), b); }
      SimpleFront(prev, q.simple, b, Unquoted);
    } else if b == "" {
      assert q.simple + b == t;
    } else {
      StopsAlike(LastOf(prev, p.simple), t[n..], LastOf(prev, p.simple), b);
      SimpleFront(prev, p.simple, b, Unquoted);
    }
  }

  lemma {:induction false} RunKept(gap: string, c: char, a: string, b: string)
    requires RunLength(gap + a, c) == |gap| && SameStart(a, b)
    ensures RunLength(gap + b, c) == |gap|
  {
    if gap == "" {
      assert gap + a == a && gap + b == b;
    } else {
      assert (gap + a)[1..] == gap[1..] + a && (gap + b)[1..] == gap[1..] + b;
      RunKept(gap[1..], c, a, b);
    }
  }

  lemma {:induction false} CommentKept(gap: string, a: string, b: string)
    requires CommentLength(gap + a) == |gap| && Closed(gap)
    ensures CommentLength(gap + b) == |gap|
  {
    assert (gap + a)[1..] == gap[1..] + a && (gap + b)[1..] == gap[1..] + b;
    if gap[0] != '\n' {
      assert gap[1..] != "" && gap[1..][|gap| - 2] == gap[|gap| - 1];
      CommentKept(gap[1..], a, b);
    }
  }

  lemma GapKept(gap: string, a: string, b: string)
    requires gap != "" && GapLength(gap + a) == |gap| && SameStart(a, b)
    requires gap[0] == '#' && !Closed(gap) ==> a == ""
    ensures GapLength(gap + b) == |gap|
  {
    if gap[0] != '#' {
      RunKept(gap, gap[0], a, b);
    } else if Closed(gap) {
      CommentKept(gap, a, b);
    } else {
      assert a == b;
    }
  }

  /** How a line splits: its first piece, and either nothing more or the rest after the gap. */
  lemma SplitCases(prev: char, t: string)
    requires Split(prev, t).Some?
    ensures var ps := Split(prev, t).value;
      && ps != [] && Simple(prev, t, Unquoted) == Some(|ps[0].simple|)
      && t == ps[0].simple + ps[0].gap + Join(ps[1..])
      && (ps[0].gap != "" ==> GapLength(ps[0].gap + Join(ps[1..])) == |ps[0].gap|)
      && (if ps[0].gap == "" || (ps[0].gap[0] == '#' && !Closed(ps[0].gap)) then ps[1..] == []
          else Split(ps[0].gap[|ps[0].gap| - 1], Join(ps[1..])) == Some(ps[1..]))
  {
    hide Simple, GapLength, Closed, Cut, Join;
    SplitJoins(prev, t);
    var ps, n := Split(prev, t).value, Simple(prev, t, Unquoted).value;
    assert Split(prev, t) == Cut(t, n);
    hide Split;
    if n == |t| {
      CutAll(t);
      NothingBefore();
      assert ps == [Piece(t, "")] && ps[1..] == [];
    } else {
      CutUnfolds(t, n);
      var g := GapLength(t[n..]);
      var u, after := t[n + g..], t[n + g - 1];
      assert ps[0] == Piece(t[..n], t[n..n + g]);
      JoinHead(ps);
      if t[n] == '#' && !Closed(ps[0].gap) {
        assert ps[1..] == [];
      } else {
        SplitJoins(after, u);
        assert ps[1..] == Split(after, u).value;
      }
      assert t[n..] == ps[0].gap + Join(ps[1..]);
    }
  }

  /** ... and the other way round. */
  lemma SplitBuilds(prev: char, p: Piece, rest: string, more: seq<Piece>)
    requires Simple(prev, p.simple + (p.gap + rest), Unquoted) == Some(|p.simple|)
    requires p.gap != "" ==> GapLength(p.gap + rest) == |p.gap|
    requires if p.gap == "" || (p.gap[0] == '#' && !Closed(p.gap)) then rest == "" && more == []
             else Split(p.gap[|p.gap| - 1], rest) == Some(more)
    ensures Split(prev, p.simple + (p.gap + rest)) == Some([p] + more)
  {
    hide Simple, GapLength, Closed, Cut;
    var t, n := p.simple + (p.gap + rest), |p.simple|;
    assert t[..n] == p.simple && t[n..] == p.gap + rest;
    if p.gap == "" {
      assert t == p.simple && [p] + more == [p];
      CutAll(t);
    } else {
      var g := |p.gap|;
      assert t[n..n + g] == p.gap && t[n + g..] == rest && t[n + g - 1] == p.gap[g - 1] && t[n] == p.gap[0];
      CutUnfolds(t, n);
      assert more == [] ==> [p] + more == [p];
    }
  }

  /** Is this the last piece, whatever follows? */
  predicate LastGap(gap: string) {
    gap == "" || (gap[0] == '#' && !Closed(gap))
  }

  lemma GapStays(p: Piece)
    requires Rewrite(p, WithoutCache).Some?
    ensures Rewrite(p, WithoutCache).value.gap == p.gap
  {
    hide TrimRight, WithoutCache;
  }

  lemma RelexesFirst(prev: char, p: Piece, q: Piece, rest: string, after: string, more: seq<Piece>)
    requires Rewrite(p, WithoutCache) == Some(q) && SameStart(rest, after)
    requires Simple(prev, p.simple + p.gap + rest, Unquoted) == Some(|p.simple|)
    requires p.gap != "" ==> GapLength(p.gap + rest) == |p.gap|
    requires if LastGap(p.gap) then rest == "" && after == "" && more == [] else Split(p.gap[|p.gap| - 1], after) == Some(more)
    ensures Split(prev, q.simple + (q.gap + after)) == Some([q] + more)
    ensures SameStart(p.simple + p.gap + rest, q.simple + (q.gap + after))
  {
    hide Simple, GapLength, Closed, Split, Rewrite, SameStart, WithoutCache;
    GapStays(p);
    PieceStarts(p, q, rest, after);
    var t := p.simple + p.gap + rest;
    assert t[|p.simple|..] == p.gap + rest;
    SimpleKept(prev, p, t, p.gap + after);
    if p.gap != "" { GapKept(p.gap, rest, after); }
    SplitBuilds(prev, q, after, more);
  }

  /** Lexing the rewritten line finds just the rewritten pieces. */
  lemma {:induction false} Relexes(prev: char, t: string)
    requires Split(prev, t).Some? && RewriteAll(Split(prev, t).value, WithoutCache).Some?
    ensures var qs := RewriteAll(Split(prev, t).value, WithoutCache).value;
      Split(prev, Join(qs)) == Some(qs) && SameStart(t, Join(qs))
    decreases |t|
  {
    hide Simple, GapLength, Closed, Split, Join, Rewrite, SameStart, WithoutCache;
    var ps := Split(prev, t).value;
    SplitCases(prev, t);
    var p, q := ps[0], Rewrite(ps[0], WithoutCache).value;
    var rest, more := Join(ps[1..]), RewriteAll(ps[1..], WithoutCache).value;
    assert RewriteAll(ps, WithoutCache).value == [q] + more;
    if LastGap(p.gap) {
      NothingBefore();
      StartsAlike("");
    } else {
      Relexes(p.gap[|p.gap| - 1], rest);
    }
    RelexesFirst(prev, p, q, rest, Join(more), more);
    JoinHead([q] + more);
    assert ([q] + more)[1..] == more;
    assert Join([q] + more) == q.simple + (q.gap + Join(more));
  }

  lemma StartsAlike(a: string)
    ensures SameStart(a, a)
  {
  }

  lemma PieceStarts(p: Piece, q: Piece, a: string, b: string)
    requires Rewrite(p, WithoutCache) == Some(q) && SameStart(a, b)
    ensures SameStart(p.gap + a, p.gap + b)
    ensures SameStart(p.simple + p.gap + a, q.simple + (q.gap + b))
  {
    hide Rewrite, Words, NeedsFlag, IsSpace;
    RewrittenPiece(p);
  }

  // ---------------------------------------------------------------- what the rewriting achieves

  /** The words of a piece's command, which the rewriting could tell. */
  function WordsOf(p: Piece): seq<string>
    requires Words(Core(p)).Some?
  {
    Words(Core(p)).value
  }

  /** A rewritten piece: the flag is its command's last word where it was needed, and nothing else is
      different. */
  lemma PieceAchieves(p: Piece)
    requires Rewrite(p, WithoutCache).Some?
    ensures var q := Rewrite(p, WithoutCache).value;
      && Words(Core(p)).Some? && Words(Core(q)).Some?
      && WordsOf(q) == (if NeedsFlag(WordsOf(p)) then WordsOf(p) + [FLAG] else WordsOf(p))
      && !NeedsFlag(WordsOf(q))
      && Rewrite(q, WithoutCache) == Some(q)
  {
    hide NeedsFlag, WordsFrom, IsSpace;
    RewrittenPiece(p);
    var q, core := Rewrite(p, WithoutCache).value, Core(p);
    if Flagged(p) {
      WordsAppend(core, Unquoted, None, FLAG);
      NeededMeans(WordsOf(p));
      FlagIsSeen(WordsOf(p));
      NeededMeans(WordsOf(p) + [FLAG]);
      var flagged := core + " " + FLAG;
      NotBlank('e');
      TrimRightKeeps(flagged);
      TrimRightAppend(flagged, Blanks(p));
      assert Core(q) == flagged;
    }
    assert Core(q) + Blanks(q) == q.simple;
  }

  lemma NotBlank(c: char)
    requires 'a' <= c <= 'z'
    ensures !IsSpace(c)
  {
  }

  lemma NeededMeans(words: seq<string>)
    ensures NeedsFlag(words) <==> RunsVitest(words) && !SaysCache(words)
  {
  }

  lemma {:induction false} RewritingAgain(ps: seq<Piece>)
    requires RewriteAll(ps, WithoutCache).Some?
    ensures var qs := RewriteAll(ps, WithoutCache).value; RewriteAll(qs, WithoutCache) == Some(qs)
  {
    hide Rewrite, WithoutCache;
    if ps != [] {
      PieceAchieves(ps[0]);
      RewritingAgain(ps[1..]);
      var q, more := Rewrite(ps[0], WithoutCache).value, RewriteAll(ps[1..], WithoutCache).value;
      assert ([q] + more)[1..] == more;
    }
  }

  lemma {:induction false} RewrittenAt(ps: seq<Piece>, k: nat)
    requires RewriteAll(ps, WithoutCache).Some? && k < |ps|
    ensures var qs := RewriteAll(ps, WithoutCache).value;
      |qs| == |ps| && Rewrite(ps[k], WithoutCache) == Some(qs[k])
  {
    hide Rewrite, WithoutCache;
    if k > 0 { RewrittenAt(ps[1..], k - 1); }
    else if |ps| > 1 { RewrittenAt(ps[1..], 0); }
  }

  /** For every command line: a second pass changes nothing. */
  lemma CacheFlagIdempotent(command: string)
    ensures Disabled(Disabled(command)) == Disabled(command)
  {
    hide Split, Join, RewriteAll, WithoutCache;
    if PiecesOf(command).Some? && RewriteAll(PiecesOf(command).value, WithoutCache).Some? {
      Relexes('\n', command);
      RewritingAgain(PiecesOf(command).value);
    }
  }

  /** A line that parses keeps its commands, its gaps and its words, except that every Vitest command
      that said nothing about its cache ends with the flag. */
  lemma FlagExactlyWhereNeeded(command: string, k: nat)
    requires PiecesOf(command).Some? && RewriteAll(PiecesOf(command).value, WithoutCache).Some?
    requires k < |PiecesOf(command).value|
    ensures var ps, now := PiecesOf(command).value, PiecesOf(Disabled(command));
      && now.Some? && |now.value| == |ps| && now.value[k].gap == ps[k].gap
      && Words(Core(ps[k])).Some? && Words(Core(now.value[k])).Some?
      && WordsOf(now.value[k]) == (if NeedsFlag(WordsOf(ps[k])) then WordsOf(ps[k]) + [FLAG] else WordsOf(ps[k]))
      && (RunsVitest(WordsOf(now.value[k])) ==> SaysCache(WordsOf(now.value[k])))
  {
    hide Split, Join, RewriteAll, WithoutCache, Words, NeedsFlag, RunsVitest, SaysCache;
    var ps := PiecesOf(command).value;
    Relexes('\n', command);
    RewrittenAt(ps, k);
    PieceAchieves(ps[k]);
    RewrittenPiece(ps[k]);
    var qs := RewriteAll(ps, WithoutCache).value;
    NeededMeans(WordsOf(qs[k]));
  }

  /** A line is left alone exactly when it cannot be parsed or no command in it needs the flag. */
  lemma UnchangedWhen(command: string)
    requires PiecesOf(command).Some? && RewriteAll(PiecesOf(command).value, WithoutCache).Some?
    ensures Disabled(command) == command <==>
            forall k :: 0 <= k < |PiecesOf(command).value| ==> !Flagged(PiecesOf(command).value[k])
  {
    hide Split, Join, WithoutCache, Flagged, Rewrite;
    var ps := PiecesOf(command).value;
    SplitJoins('\n', command);
    Relexes('\n', command);
    var qs := RewriteAll(ps, WithoutCache).value;
    forall k | 0 <= k < |ps| ensures |qs| == |ps| && (qs[k] == ps[k] <==> !Flagged(ps[k])) {
      RewrittenAt(ps, k);
      RewrittenPiece(ps[k]);
    }
    SameCount(ps);
    assert Disabled(command) == Join(qs);
    if Join(qs) == command { assert qs == ps; }
    if forall k :: 0 <= k < |ps| ==> !Flagged(ps[k]) { assert qs == ps; }
  }

  lemma {:induction false} SameCount(ps: seq<Piece>)
    requires RewriteAll(ps, WithoutCache).Some?
    ensures |RewriteAll(ps, WithoutCache).value| == |ps|
  {
    hide Rewrite;
    if ps != [] { SameCount(ps[1..]); }
  }
}
