/** Keeping a generated block inside a file that also has an author. */
module ManagedBlocks {
  import opened Text
  import opened Wrappers

  const BEGIN_MARK := "<!-- auto_agents:instructions:start -->"
  const END_MARK := "<!-- auto_agents:instructions:end -->"

  datatype Merge = Merged(text: string) | Ambiguous | WrongOrder

  // ---------------------------------------------------------------- finding text

  predicate OccursAt(s: string, m: string, i: nat) {
    i + |m| <= |s| && s[i..i + |m|] == m
  }

  ghost predicate Occurs(s: string, m: string) {
    exists i: nat :: OccursAt(s, m, i)
  }

  lemma ShiftOne(s: string, n: nat, m: string, j: nat)
    requires n <= j && n <= |s|
    ensures OccursAt(s, m, j) <==> OccursAt(s[n..], m, j - n)
  {
    if j + |m| <= |s| {
      var a, b := s[j..j + |m|], s[n..][j - n..j - n + |m|];
      assert forall k :: 0 <= k < |m| ==> a[k] == b[k];
      assert a == b;
    }
  }

  lemma Shift(s: string, n: nat, m: string)
    requires n <= |s|
    ensures forall j: nat :: j >= n ==> (OccursAt(s, m, j) <==> OccursAt(s[n..], m, j - n))
  {
    forall j: nat | j >= n ensures OccursAt(s, m, j) <==> OccursAt(s[n..], m, j - n) { ShiftOne(s, n, m, j); }
  }

  /** `str.find`: the first occurrence. */
  function Find(s: string, m: string): (r: Option<nat>)
    ensures r.Some? ==> OccursAt(s, m, r.value) && forall i: nat :: i < r.value ==> !OccursAt(s, m, i)
    ensures r.None? ==> !Occurs(s, m)
  {
    if OccursAt(s, m, 0) then Some(0)
    else if s == "" then None
    else
      var rest := Find(s[1..], m);
      assert forall i: nat :: i >= 1 ==> (OccursAt(s, m, i) <==> OccursAt(s[1..], m, i - 1)) by { Shift(s, 1, m); }
      if rest.None? then None else Some(rest.value + 1)
  }

  /** `str.count`: occurrences that do not overlap. */
  function Count(s: string, m: string): nat
    requires m != ""
  {
    var i := Find(s, m);
    if i.None? then 0 else 1 + Count(s[i.value + |m|..], m)
  }

  /** A text that begins with `<`, has no other and no line end: it overlaps neither itself nor a line. */
  ghost predicate Marker(m: string) {
    m != "" && m[0] == '<' && forall k :: 1 <= k < |m| ==> m[k] != '<' && m[k] != '\n'
  }

  ghost predicate OnlyAt(s: string, m: string, i: nat) {
    OccursAt(s, m, i) && forall j: nat :: OccursAt(s, m, j) ==> j == i
  }

  lemma NoOverlap(s: string, m: string, i: nat)
    requires Marker(m) && OccursAt(s, m, i)
    ensures forall j: nat :: i < j < i + |m| ==> !OccursAt(s, m, j)
  {
    forall j: nat | i < j < i + |m| ensures !OccursAt(s, m, j) {
      assert s[i..i + |m|][j - i] == s[j];
      assert j + |m| <= |s| ==> s[j..j + |m|][0] == s[j];
    }
  }

  /** A marker counts once exactly when it is in one place. */
  lemma CountOnce(s: string, m: string)
    requires Marker(m)
    ensures Count(s, m) == 1 <==> Find(s, m).Some? && OnlyAt(s, m, Find(s, m).value)
  {
    hide OccursAt, Find;
    var f := Find(s, m);
    if f.Some? {
      InBounds(s, m, f.value);
      var i, n := f.value, f.value + |m|;
      var rest := s[n..];
      Shift(s, n, m);
      NoOverlap(s, m, i);
      hide Marker;
      assert Count(s, m) == 1 + Count(rest, m);
      if Find(rest, m).Some? {
        assert OccursAt(s, m, Find(rest, m).value + n);
      } else {
        forall j: nat ensures j != i ==> !OccursAt(s, m, j) {
          if j >= n { assert !OccursAt(rest, m, j - n); }
        }
      }
    }
  }

  lemma InBounds(s: string, m: string, i: nat)
    requires OccursAt(s, m, i)
    ensures i + |m| <= |s|
  {
  }

  // ---------------------------------------------------------------- merging

  function Block(generated: string): string {
    BEGIN_MARK + "\n" + Trim(generated) + "\n" + END_MARK + "\n"
  }

  /** The author's text before and after the place of the block, which is all that `existing` decides.
      `generatedBefore` is the text the last generation is known to have left, if any. */
  function Frame(existing: string, generatedBefore: Option<string>): Option<(string, string)> {
    var first, last := Find(existing, BEGIN_MARK), Find(existing, END_MARK);
    if existing == "" || (generatedBefore == Some(existing) && first.None?) then Some(("", ""))
    else if first.Some? || last.Some? then
      if Count(existing, BEGIN_MARK) != 1 || Count(existing, END_MARK) != 1 || first.None? || last.None? then None
      else if last.value < first.value then None
      else
        var end := last.value + |END_MARK|;
        Some((existing[..first.value], existing[if end < |existing| && existing[end] == '\n' then end + 1 else end..]))
    else Some((TrimRight(existing) + "\n\n", ""))
  }

  /** `_merge_managed_content` */
  method MergeManagedContent(existing: string, generated: string, generatedBefore: Option<string>) returns (r: Merge)
    ensures r.Merged? <==> Frame(existing, generatedBefore).Some?
    ensures r.Merged? ==> var (before, after) := Frame(existing, generatedBefore).value; r.text == before + Block(generated) + after
    ensures r == MergeOf(existing, generated, generatedBefore)
  {
    hide Count, Find, Block, Trim, TrimRight, OccursAt, Occurs;
    InBoundsOf(existing, END_MARK);
    var block := Block(generated);
    var first, last := Find(existing, BEGIN_MARK), Find(existing, END_MARK);
    if existing == "" || (generatedBefore == Some(existing) && first.None?) {
      assert "" + block + "" == block;
      return Merged(block);
    }
    if first.Some? || last.Some? {
      FoundCounts(existing, BEGIN_MARK);
      FoundCounts(existing, END_MARK);
      if Count(existing, BEGIN_MARK) != 1 || Count(existing, END_MARK) != 1 { return Ambiguous; }
      var start, end := first.value, last.value;
      if end < start { return WrongOrder; }
      end := end + |END_MARK|;
      if end < |existing| && existing[end] == '\n' { end := end + 1; }
      return Merged(existing[..start] + block + existing[end..]);
    }
    assert TrimRight(existing) + "\n\n" + block + "" == TrimRight(existing) + "\n\n" + block;
    r := Merged(TrimRight(existing) + "\n\n" + block);
  }

  lemma InBoundsOf(s: string, m: string)
    ensures Find(s, m).Some? ==> Find(s, m).value + |m| <= |s|
  {
  }

  lemma FoundCounts(s: string, m: string)
    requires m != ""
    ensures Find(s, m).Some? <==> Count(s, m) > 0
  {
  }

  /** The merge as a function, with its two refusals. */
  function MergeOf(existing: string, generated: string, generatedBefore: Option<string>): Merge {
    var frame := Frame(existing, generatedBefore);
    if frame.Some? then Merged(frame.value.0 + Block(generated) + frame.value.1)
    else if Count(existing, BEGIN_MARK) != 1 || Count(existing, END_MARK) != 1 then Ambiguous else WrongOrder
  }

  ghost predicate Free(s: string) {
    !Occurs(s, BEGIN_MARK) && !Occurs(s, END_MARK)
  }

  lemma Markers()
    ensures Marker(BEGIN_MARK) && Marker(END_MARK)
    ensures !Occurs(BEGIN_MARK, END_MARK) && !Occurs(END_MARK, BEGIN_MARK)
    ensures OnlyAt(BEGIN_MARK, BEGIN_MARK, 0) && OnlyAt(END_MARK, END_MARK, 0)
  {
    assert |BEGIN_MARK| == 39 && |END_MARK| == 37;
    forall i: nat ensures !OccursAt(BEGIN_MARK, END_MARK, i) {
      if i == 0 { assert BEGIN_MARK[0..37][30] == 's'; assert END_MARK[30] == 'e'; }
      else if i <= 2 { assert BEGIN_MARK[i..i + 37][0] == BEGIN_MARK[i]; }
    }
    assert BEGIN_MARK[0..39] == BEGIN_MARK && END_MARK[0..37] == END_MARK;
  }

  /** Where two texts meet at a line end or at `<`, no marker lies across. */
  lemma Meet(a: string, b: string, m: string, i: nat)
    requires Marker(m) && (b == "" || b[0] == '<' || b[0] == '\n' || a == "" || a[|a| - 1] == '\n')
    ensures OccursAt(a + b, m, i) <==> OccursAt(a, m, i) || (i >= |a| && OccursAt(b, m, i - |a|))
  {
    var s := a + b;
    if i + |m| <= |s| {
      var piece := s[i..i + |m|];
      forall k | 0 <= k < |m| ensures piece[k] == s[i + k] {}
      if i >= |a| {
        assert piece == b[i - |a|..i - |a| + |m|];
      } else if i + |m| <= |a| {
        assert piece == a[i..i + |m|];
      } else {
        var k := |a| - i;
        assert piece[k] == b[0] && piece[k - 1] == a[|a| - 1];
      }
    }
  }

  // ---------------------------------------------------------------- what a merged file holds

  /** A merged file, part by part. */
  function Assembled(before: string, body: string, after: string): string {
    before + (BEGIN_MARK + ("\n" + (body + ("\n" + (END_MARK + ("\n" + after))))))
  }

  lemma AssembledIs(before: string, generated: string, after: string)
    ensures before + Block(generated) + after == Assembled(before, Trim(generated), after)
  {
    hide Trim;
  }

  /** Texts without markers on either side of a block leave its two markers the only ones, and a body with
      a marker does not. */
  lemma WhereMarkersAre(before: string, body: string, after: string, m: string, i: nat)
    requires Marker(m) && (m == BEGIN_MARK || m == END_MARK)
    requires Free(before) && Free(after)
    ensures var t := Assembled(before, body, after);
      var inside, last := |before| + |BEGIN_MARK| + 1, |before| + |BEGIN_MARK| + 1 + |body| + 1;
      OccursAt(t, m, i) <==>
        || (m == BEGIN_MARK && i == |before|)
        || (m == END_MARK && i == last)
        || (i >= inside && OccursAt(body, m, i - inside))
  {
    hide OccursAt;
    Markers();
    var p5 := "\n" + after;
    var p4 := END_MARK + p5;
    var p3 := "\n" + p4;
    var p2 := body + p3;
    var p1 := "\n" + p2;
    var p0 := BEGIN_MARK + p1;
    LineEndHolds(m);
    var n := |before|;
    Meet(before, p0, m, i);
    if i >= n { Meet(BEGIN_MARK, p1, m, i - n); }
    n := n + |BEGIN_MARK|;
    if i >= n { Meet("\n", p2, m, i - n); }
    n := n + 1;
    if i >= n { Meet(body, p3, m, i - n); }
    n := n + |body|;
    if i >= n { Meet("\n", p4, m, i - n); }
    n := n + 1;
    if i >= n { Meet(END_MARK, p5, m, i - n); }
    n := n + |END_MARK|;
    if i >= n { Meet("\n", after, m, i - n); }
  }

  lemma LineEndHolds(m: string)
    requires Marker(m)
    ensures forall i: nat :: !OccursAt("\n", m, i)
  {
    forall i: nat ensures !OccursAt("\n", m, i) {
      assert i + |m| <= 1 ==> "\n"[i..i + |m|][0] == '\n';
    }
  }

  lemma FrontOccurs(s: string, n: nat, m: string, i: nat)
    requires n <= |s|
    ensures OccursAt(s[..n], m, i) ==> OccursAt(s, m, i) && i + |m| <= n
  {
    if i + |m| <= n { assert s[..n][i..i + |m|] == s[i..i + |m|]; }
  }

  /** The frame of a file holds no marker. */
  lemma FrameIsFree(existing: string, generatedBefore: Option<string>)
    requires Frame(existing, generatedBefore).Some?
    ensures var (before, after) := Frame(existing, generatedBefore).value; Free(before) && Free(after)
  {
    Markers();
    CountOnce(existing, BEGIN_MARK);
    CountOnce(existing, END_MARK);
    var (before, after) := Frame(existing, generatedBefore).value;
    forall m | m == BEGIN_MARK || m == END_MARK ensures !Occurs(before, m) && !Occurs(after, m) {
      SideIsFree(existing, generatedBefore, m);
    }
  }

  lemma SideIsFree(existing: string, generatedBefore: Option<string>, m: string)
    requires Frame(existing, generatedBefore).Some? && (m == BEGIN_MARK || m == END_MARK)
    ensures var (before, after) := Frame(existing, generatedBefore).value; !Occurs(before, m) && !Occurs(after, m)
  {
    hide OccursAt, Count, TrimRight;
    Markers();
    CountOnce(existing, BEGIN_MARK);
    CountOnce(existing, END_MARK);
    InBoundsOf(existing, END_MARK);
    InBoundsOf(existing, BEGIN_MARK);
    var first, last := Find(existing, BEGIN_MARK), Find(existing, END_MARK);
    var (before, after) := Frame(existing, generatedBefore).value;
    if before == "" && after == "" {
      NothingOccurs(m);
    } else if first.Some? && last.Some? {
      var end, place := |existing| - |after|, if m == BEGIN_MARK then first.value else last.value;
      assert existing[end..] == after && existing[..first.value] == before;
      hide Frame, Find, Marker;
      SidesOfOnly(existing, m, place, first.value, end);
    } else {
      TrimmedIsFree(existing, m);
      NothingOccurs(m);
    }
  }

  /** Around the one place of a marker there is none. */
  lemma SidesOfOnly(s: string, m: string, place: nat, n: nat, end: nat)
    requires OnlyAt(s, m, place) && m != "" && n <= place < end <= |s|
    ensures !Occurs(s[..n], m) && !Occurs(s[end..], m)
  {
    forall i: nat ensures !OccursAt(s[..n], m, i) { FrontOccurs(s, n, m, i); }
    hide OccursAt;
    Shift(s, end, m);
    forall i: nat ensures !OccursAt(s[end..], m, i) { assert OccursAt(s[end..], m, i) <==> OccursAt(s, m, i + end); }
  }

  lemma SmallMarker(s: string, m: string, i: nat)
    ensures OccursAt(s, m, i) ==> i + |m| <= |s|
  {
  }

  lemma NothingOccurs(m: string)
    requires m == BEGIN_MARK || m == END_MARK
    ensures !Occurs("", m)
  {
  }

  lemma TrimmedIsFree(s: string, m: string)
    requires Marker(m) && !Occurs(s, m)
    ensures !Occurs(TrimRight(s) + "\n\n", m)
  {
    hide OccursAt, TrimRight;
    var core := TrimRight(s);
    LineEndHolds(m);
    forall i: nat ensures !OccursAt(core + "\n\n", m, i) {
      Meet(core, "\n\n", m, i);
      if i >= |core| { Meet("\n", "\n", m, i - |core|); }
      FrontOccurs(s, |core|, m, i);
      assert s[..|core|] == core && "\n" + "\n" == "\n\n";
    }
  }

  lemma FindIs(s: string, m: string, i: nat)
    requires OnlyAt(s, m, i)
    ensures Find(s, m) == Some(i)
  {
  }

  /** A merged file with a marker-free body has the frame it was made from, whatever was known of it. */
  lemma Reframes(before: string, body: string, after: string, known: Option<string>)
    requires Free(before) && Free(body) && Free(after)
    ensures Frame(Assembled(before, body, after), known) == Some((before, after))
  {
    hide OccursAt, Count;
    Markers();
    var t, last := Assembled(before, body, after), |before| + |BEGIN_MARK| + 1 + |body| + 1;
    forall i: nat ensures OccursAt(t, BEGIN_MARK, i) <==> i == |before| { WhereMarkersAre(before, body, after, BEGIN_MARK, i); }
    forall i: nat ensures OccursAt(t, END_MARK, i) <==> i == last { WhereMarkersAre(before, body, after, END_MARK, i); }
    FindIs(t, BEGIN_MARK, |before|);
    FindIs(t, END_MARK, last);
    CountOnce(t, BEGIN_MARK);
    CountOnce(t, END_MARK);
    var end := last + |END_MARK|;
    assert t[end] == '\n' && t[..|before|] == before && t[end + 1..] == after;
  }

  /** A merged file whose body brought a marker of its own is refused from then on. */
  lemma MarkedBodyRefused(before: string, body: string, after: string, known: Option<string>, g: string)
    requires Free(before) && !Free(body) && Free(after)
    ensures MergeOf(Assembled(before, body, after), g, known) == Ambiguous
  {
    hide OccursAt, Count;
    Markers();
    var t, inside := Assembled(before, body, after), |before| + |BEGIN_MARK| + 1;
    var m := if Occurs(body, BEGIN_MARK) then BEGIN_MARK else END_MARK;
    var k: nat :| OccursAt(body, m, k);
    SmallMarker(body, m, k);
    var own := if m == BEGIN_MARK then |before| else inside + |body| + 1;
    WhereMarkersAre(before, body, after, m, own);
    WhereMarkersAre(before, body, after, m, inside + k);
    WhereMarkersAre(before, body, after, BEGIN_MARK, |before|);
    CountOnce(t, m);
    assert Find(t, BEGIN_MARK).Some?;
  }

  /** A lawful put: after a merge that succeeded, another one gives what it would have given at once,
      exactly when the first body was free of markers; otherwise the file is refused. */
  lemma MergeTwice(existing: string, g1: string, g2: string, known: Option<string>, later: Option<string>)
    requires MergeOf(existing, g1, known).Merged?
    ensures var t := MergeOf(existing, g1, known).text;
      && (Free(Trim(g1)) <==> MergeOf(t, g2, later) == MergeOf(existing, g2, known))
      && (!Free(Trim(g1)) ==> MergeOf(t, g2, later) == Ambiguous)
  {
    hide Frame, Trim, Free, Assembled, Block;
    var (before, after) := Frame(existing, known).value;
    FrameIsFree(existing, known);
    AssembledIs(before, g1, after);
    if Free(Trim(g1)) {
      Reframes(before, Trim(g1), after, later);
    } else {
      MarkedBodyRefused(before, Trim(g1), after, later, g2);
    }
  }

  /** Merging the same text again changes nothing. */
  lemma MergeIdempotent(existing: string, g: string, known: Option<string>, later: Option<string>)
    requires MergeOf(existing, g, known).Merged? && Free(Trim(g))
    ensures MergeOf(MergeOf(existing, g, known).text, g, later) == MergeOf(existing, g, known)
  {
    hide Frame, Trim, Free;
    MergeTwice(existing, g, g, known, later);
  }

  /** A file replaced as a whole: an empty one, or one known to be generated that has no block. */
  ghost predicate Replaced(existing: string, known: Option<string>) {
    existing == "" || (known == Some(existing) && !Occurs(existing, BEGIN_MARK))
  }

  /** The file is `before`, a block from one marker to the other, and `after`. */
  ghost predicate HadBlock(existing: string, before: string, after: string) {
    && |before| + |after| <= |existing| && before <= existing && existing[|existing| - |after|..] == after
    && OnlyAt(existing, BEGIN_MARK, |before|)
    && exists last: nat :: OnlyAt(existing, END_MARK, last) && |before| <= last && BlockEnds(existing, last, |existing| - |after|)
  }

  /** The block reaches to `n`: just past its end marker, or past the line end that follows. */
  predicate BlockEnds(existing: string, last: nat, n: int) {
    || n == last + |END_MARK|
    || (n == last + |END_MARK| + 1 && n <= |existing| && existing[n - 1] == '\n')
  }

  /** The file had no marker and all of it is kept but for trailing blanks. */
  ghost predicate Appended(existing: string, before: string, after: string) {
    && !Occurs(existing, BEGIN_MARK) && !Occurs(existing, END_MARK)
    && before == TrimRight(existing) + "\n\n" && after == "" && AllSpace(existing[|TrimRight(existing)|..])
  }

  lemma FrameOfBlock(existing: string, known: Option<string>)
    requires Frame(existing, known).Some? && !Replaced(existing, known)
    requires Find(existing, BEGIN_MARK).Some? || Find(existing, END_MARK).Some?
    ensures var (before, after) := Frame(existing, known).value; HadBlock(existing, before, after)
  {
    hide Block, OccursAt;
    Markers();
    CountOnce(existing, BEGIN_MARK);
    CountOnce(existing, END_MARK);
    InBoundsOf(existing, END_MARK);
    InBoundsOf(existing, BEGIN_MARK);
    hide Count, Marker;
    var (before, after) := Frame(existing, known).value;
    var n := |existing| - |after|;
    var last := Find(existing, END_MARK).value;
    assert existing[n..] == after && existing[..|before|] == before;
    assert OnlyAt(existing, END_MARK, last) && BlockEnds(existing, last, n);
  }

  /** Author text stays byte for byte: either the file had exactly one block, in order, and all outside it
      is kept, or it had no marker and is kept but for trailing blanks, or it was empty or is known to be
      generated as a whole. */
  lemma AuthorTextKept(existing: string, generated: string, known: Option<string>)
    requires MergeOf(existing, generated, known).Merged?
    ensures var (before, after) := Frame(existing, known).value;
      && MergeOf(existing, generated, known).text == before + Block(generated) + after
      && (Replaced(existing, known) || HadBlock(existing, before, after) || Appended(existing, before, after))
  {
    hide Block, OccursAt, Count, HadBlock;
    if !Replaced(existing, known) && (Find(existing, BEGIN_MARK).Some? || Find(existing, END_MARK).Some?) {
      FrameOfBlock(existing, known);
    }
  }

  /** The refusals: a file that is not replaced as a whole must have each marker once and in order, or none. */
  lemma RefusedWhen(existing: string, generated: string, known: Option<string>)
    ensures MergeOf(existing, generated, known) == Ambiguous <==>
            !Replaced(existing, known) && (Occurs(existing, BEGIN_MARK) || Occurs(existing, END_MARK))
            && !(exists i: nat, j: nat :: OnlyAt(existing, BEGIN_MARK, i) && OnlyAt(existing, END_MARK, j))
    ensures MergeOf(existing, generated, known) == WrongOrder <==>
            !Replaced(existing, known)
            && exists i: nat, j: nat :: OnlyAt(existing, BEGIN_MARK, i) && OnlyAt(existing, END_MARK, j) && j < i
  {
    hide Block, OccursAt;
    Markers();
    CountOnce(existing, BEGIN_MARK);
    CountOnce(existing, END_MARK);
    FoundCounts(existing, BEGIN_MARK);
    FoundCounts(existing, END_MARK);
    hide Count, Marker;
    forall i: nat | OnlyAt(existing, BEGIN_MARK, i) ensures Find(existing, BEGIN_MARK) == Some(i) { FindIs(existing, BEGIN_MARK, i); }
    forall j: nat | OnlyAt(existing, END_MARK, j) ensures Find(existing, END_MARK) == Some(j) { FindIs(existing, END_MARK, j); }
  }
}
