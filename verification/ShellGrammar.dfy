/** How command lines are written: a grammar of quoted and unquoted text, of separators and comments, and
    that the lexer and the word splitter read just what it writes. */
module ShellGrammar {
  import opened Text
  import opened CommandSpans
  import opened ShellWords
  import opened ShellRewriting
  import opened CacheFlag
  import opened Wrappers

  /** A character between double quotes. */
  datatype Item = Plain(c: char) | Escape(c: char)

  datatype Lexeme = Bare(c: char) | Escaped(c: char) | Singly(body: string) | Doubly(items: seq<Item>)

  function ItemText(i: Item): string {
    match i
    case Plain(c) => [c]
    case Escape(c) => ['\\', c]
  }

  function ItemsText(items: seq<Item>): string {
    if items == [] then "" else ItemText(items[0]) + ItemsText(items[1..])
  }

  function LexemeText(l: Lexeme): string {
    match l
    case Bare(c) => [c]
    case Escaped(c) => ['\\', c]
    case Singly(body) => "'" + body + "'"
    case Doubly(items) => "\"" + ItemsText(items) + "\""
  }

  function Written(ls: seq<Lexeme>): string {
    if ls == [] then "" else LexemeText(ls[0]) + Written(ls[1..])
  }

  // ---------------------------------------------------------------- simple commands

  /** Nothing between the double quotes closes them or opens an expansion. */
  ghost predicate GoodItems(items: seq<Item>) {
    items == [] ||
    (GoodItems(items[1..]) &&
     (items[0].Plain? ==>
        && items[0].c != '"' && items[0].c != '\\' && items[0].c != '`'
        && !(items[0].c == '$' && |items| > 1 && items[1] == Plain('('))))
  }

  /** An unquoted character stands for itself; `&` only does as part of a redirection, `#` inside a word. */
  ghost predicate Good(prev: char, l: Lexeme) {
    match l
    case Bare(c) =>
      && c != '\\' && c != '"' && c != '\'' && c != '(' && c != ')' && c != '`'
      && c != ';' && c != '|' && c != '\n' && (c == '#' ==> !IsSpace(prev)) && (c == '&' ==> prev == '<' || prev == '>')
    case Escaped(_) => true
    case Singly(body) => '\'' !in body
    case Doubly(items) => GoodItems(items)
  }

  ghost predicate AllGood(prev: char, ls: seq<Lexeme>)
    decreases |ls|
  {
    ls == [] || (Good(prev, ls[0]) && AllGood(LastOf(prev, LexemeText(ls[0])), ls[1..]))
  }

  function Plus(k: nat, n: Option<nat>): Option<nat> {
    if n.None? then None else Some(k + n.value)
  }

  /** One more character, or an escape. */
  lemma OneReads(prev: char, c: char, rest: string, q: Quote)
    requires Read(prev, [c] + rest, q).Passes? && Read(prev, [c] + rest, q).length == 1
    ensures Simple(prev, [c] + rest, q) == Plus(1, Simple(c, rest, Read(prev, [c] + rest, q).quote))
  {
    assert ([c] + rest)[1..] == rest;
    hide Read;
  }

  lemma EscapeReads(prev: char, c: char, rest: string, q: Quote)
    requires q != Single
    ensures Simple(prev, ['\\', c] + rest, q) == Plus(2, Simple(c, rest, q))
  {
    var t := ['\\', c] + rest;
    assert t[2..] == rest && Read(prev, t, q) == Passes(2, q);
    hide Read;
  }

  lemma SingleRead(prev: char, c: char, rest: string)
    ensures Read(prev, [c] + rest, Single) == Passes(1, if c == '\'' then Unquoted else Single)
  {
  }

  lemma {:induction false} SinglyReads(prev: char, body: string, rest: string)
    requires '\'' !in body
    ensures Simple(prev, body + ("'" + rest), Single) == Plus(|body| + 1, Simple('\'', rest, Unquoted))
    decreases |body|
  {
    hide Read, Simple;
    if body == "" {
      assert body + ("'" + rest) == ['\''] + rest;
      SingleRead(prev, '\'', rest);
      OneReads(prev, '\'', rest, Single);
    } else {
      var more := body[1..] + ("'" + rest);
      assert body + ("'" + rest) == [body[0]] + more && body[0] in body;
      SingleRead(prev, body[0], more);
      OneReads(prev, body[0], more, Single);
      SinglyReads(body[0], body[1..], rest);
    }
  }

  /** The first of the items, with what comes after it. */
  lemma ItemReads(prev: char, items: seq<Item>, rest: string)
    requires items != [] && GoodItems(items)
    ensures var more := ItemsText(items[1..]) + ("\"" + rest);
      Simple(prev, ItemText(items[0]) + more, Double) == Plus(|ItemText(items[0])|, Simple(items[0].c, more, Double))
  {
    var more := ItemsText(items[1..]) + ("\"" + rest);
    NextItem(items[1..], rest);
    hide Simple, ItemsText;
    match items[0]
    case Plain(c) =>
      assert Read(prev, [c] + more, Double) == Passes(1, Double);
      OneReads(prev, c, more, Double);
    case Escape(c) => EscapeReads(prev, c, more, Double);
  }

  lemma {:induction false} DoublyReads(prev: char, items: seq<Item>, rest: string)
    requires GoodItems(items)
    ensures Simple(prev, ItemsText(items) + ("\"" + rest), Double) == Plus(|ItemsText(items)| + 1, Simple('"', rest, Unquoted))
    decreases |items|
  {
    if items == [] {
      DoublyEnds(prev, rest);
    } else {
      ItemReads(prev, items, rest);
      assert GoodItems(items[1..]);
      hide Simple, ItemText, Read, GoodItems;
      DoublyReads(items[0].c, items[1..], rest);
      ItemsUnfold(items, "\"" + rest);
      hide ItemsText;
    }
  }

  lemma DoublyEnds(prev: char, rest: string)
    ensures Simple(prev, ItemsText([]) + ("\"" + rest), Double) == Plus(1, Simple('"', rest, Unquoted))
  {
    assert ItemsText([]) + ("\"" + rest) == ['"'] + rest;
    assert Read(prev, ['"'] + rest, Double) == Passes(1, Unquoted);
    hide Read, Simple;
    OneReads(prev, '"', rest, Double);
  }

  lemma ItemsUnfold(items: seq<Item>, tail: string)
    requires items != []
    ensures ItemsText(items) + tail == ItemText(items[0]) + (ItemsText(items[1..]) + tail)
    ensures |ItemsText(items)| == |ItemText(items[0])| + |ItemsText(items[1..])|
  {
    hide ItemText;
    Regroup(ItemText(items[0]), ItemsText(items[1..]), tail);
  }

  lemma Regroup(a: string, b: string, c: string)
    ensures a + b + c == a + (b + c)
  {
  }

  lemma NextItem(items: seq<Item>, rest: string)
    ensures var t := ItemsText(items) + ("\"" + rest); t != "" && (t[0] == '(' ==> items != [] && items[0] == Plain('('))
  {
    if items != [] { assert (ItemsText(items) + ("\"" + rest))[0] == ItemText(items[0])[0]; }
  }

  lemma BareReads(prev: char, c: char, rest: string)
    requires Good(prev, Bare(c))
    ensures Simple(prev, [c] + rest, Unquoted) == Plus(1, Simple(c, rest, Unquoted))
  {
    assert Read(prev, [c] + rest, Unquoted) == Passes(1, Unquoted);
    hide Read, Simple;
    OneReads(prev, c, rest, Unquoted);
  }

  lemma QuoteReads(prev: char, c: char, rest: string)
    requires c == '"' || c == '\''
    ensures Simple(prev, [c] + rest, Unquoted) == Plus(1, Simple(c, rest, if c == '"' then Double else Single))
  {
    assert Read(prev, [c] + rest, Unquoted) == Passes(1, if c == '"' then Double else Single);
    hide Read, Simple;
    OneReads(prev, c, rest, Unquoted);
  }

  /** A lexeme is passed over as a whole. */
  lemma LexemeReads(prev: char, l: Lexeme, rest: string)
    requires Good(prev, l)
    ensures Simple(prev, LexemeText(l) + rest, Unquoted) ==
      Plus(|LexemeText(l)|, Simple(LastOf(prev, LexemeText(l)), rest, Unquoted))
  {
    hide Read, Simple, ItemsText;
    match l
    case Bare(c) => BareReads(prev, c, rest);
    case Escaped(c) => EscapeReads(prev, c, rest, Unquoted);
    case Singly(body) =>
      QuoteRegroup("'", body, rest);
      QuoteReads(prev, '\'', body + ("'" + rest));
      SinglyReads('\'', body, rest);
    case Doubly(items) =>
      QuoteRegroup("\"", ItemsText(items), rest);
      QuoteReads(prev, '"', ItemsText(items) + ("\"" + rest));
      DoublyReads('"', items, rest);
  }

  lemma QuoteRegroup(quote: string, body: string, rest: string)
    requires |quote| == 1
    ensures quote + body + quote + rest == [quote[0]] + (body + (quote + rest))
    ensures LastOf(' ', quote + body + quote) == quote[0] && |quote + body + quote| == |body| + 2
  {
    assert quote == [quote[0]];
  }

  lemma {:induction false} LexemesRead(prev: char, ls: seq<Lexeme>, rest: string)
    requires AllGood(prev, ls)
    ensures Simple(prev, Written(ls) + rest, Unquoted) == Plus(|Written(ls)|, Simple(LastOf(prev, Written(ls)), rest, Unquoted))
    decreases |ls|
  {
    hide Simple, Good, LexemeText;
    if ls == [] {
      assert Written(ls) + rest == rest;
    } else {
      var first, more := LexemeText(ls[0]), Written(ls[1..]) + rest;
      assert Written(ls) + rest == first + more;
      LexemeReads(prev, ls[0], more);
      LexemesRead(LastOf(prev, first), ls[1..], rest);
    }
  }

  // ---------------------------------------------------------------- what was read was written

  lemma {:induction false} SinglyWritten(prev: char, t: string) returns (body: string, rest: string)
    requires Simple(prev, t, Single).Some?
    ensures t == body + "'" + rest && '\'' !in body
    decreases |t|
  {
    if t[0] == '\'' {
      body, rest := "", t[1..];
    } else {
      body, rest := SinglyWritten(t[0], t[1..]);
      body := [t[0]] + body;
    }
  }

  lemma {:induction false} DoublyWritten(prev: char, t: string) returns (items: seq<Item>, rest: string)
    requires Simple(prev, t, Double).Some?
    ensures t == ItemsText(items) + ("\"" + rest) && GoodItems(items)
    decreases |t|
  {
    if t[0] == '"' {
      items, rest := [], t[1..];
    } else if t[0] == '\\' {
      items, rest := DoublyWritten(t[1], t[2..]);
      hide Simple;
      PutItem(Escape(t[1]), items, rest, t);
      items := [Escape(t[1])] + items;
    } else {
      items, rest := DoublyWritten(t[0], t[1..]);
      assert items != [] && items[0] == Plain('(') ==> t[1] == '(' by { assert items != [] ==> t[1] == ItemText(items[0])[0]; }
      hide Simple;
      PutItem(Plain(t[0]), items, rest, t);
      items := [Plain(t[0])] + items;
    }
  }

  lemma PutItem(i: Item, items: seq<Item>, rest: string, t: string)
    requires |ItemText(i)| <= |t| && t[..|ItemText(i)|] == ItemText(i) && t[|ItemText(i)|..] == ItemsText(items) + ("\"" + rest)
    ensures t == ItemsText([i] + items) + ("\"" + rest) && ([i] + items)[1..] == items
  {
    assert ([i] + items)[1..] == items;
    hide ItemText;
    Regroup(ItemText(i), ItemsText(items), "\"" + rest);
    assert t == ItemText(i) + t[|ItemText(i)|..];
  }

  /** The front of a text is such lexemes; only at the very end of the line an escape may dangle. */
  ghost predicate Command(prev: char, s: string, last: bool) {
    exists ls :: AllGood(prev, ls) && (s == Written(ls) || (last && s == Written(ls) + "\\"))
  }

  lemma {:induction false} SimpleWritten(prev: char, t: string)
    requires Simple(prev, t, Unquoted).Some?
    ensures var n := Simple(prev, t, Unquoted).value;
      Command(prev, t[..n], n == |t|) && (n < |t| ==> Read(LastOf(prev, t[..n]), t[n..], Unquoted).Stops?)
    decreases |t|
  {
    var n := Simple(prev, t, Unquoted).value;
    if t == "" || Read(prev, t, Unquoted).Stops? {
      assert t[..n] == Written([]) && t[0..] == t;
    } else if t == "\\" {
      assert t[..n] == Written([]) + "\\";
    } else {
      var l, rest := FirstLexeme(prev, t);
      LexemeReads(prev, l, rest);
      var first := LexemeText(l);
      SimpleWritten(LastOf(prev, first), rest);
      FirstBefore(prev, t, l, rest, n);
    }
  }

  lemma FirstLexeme(prev: char, t: string) returns (l: Lexeme, rest: string)
    requires Simple(prev, t, Unquoted).Some? && t != "" && t != "\\" && !Read(prev, t, Unquoted).Stops?
    ensures Good(prev, l) && t == LexemeText(l) + rest && LexemeText(l) != ""
  {
    if t[0] == '\\' {
      l, rest := Escaped(t[1]), t[2..];
    } else if t[0] == '\'' {
      var body;
      body, rest := SinglyWritten(t[0], t[1..]);
      l := Singly(body);
    } else if t[0] == '"' {
      var items;
      items, rest := DoublyWritten(t[0], t[1..]);
      l := Doubly(items);
    } else {
      l, rest := Bare(t[0]), t[1..];
    }
  }

  lemma FirstBefore(prev: char, t: string, l: Lexeme, rest: string, n: nat)
    requires Good(prev, l) && t == LexemeText(l) + rest && LexemeText(l) != ""
    requires var k := |LexemeText(l)|; k <= n <= |t| && Command(LastOf(prev, LexemeText(l)), rest[..n - k], n == |t|)
    requires var k := |LexemeText(l)|;
      n < |t| ==> Read(LastOf(LastOf(prev, LexemeText(l)), rest[..n - k]), rest[n - k..], Unquoted).Stops?
    ensures Command(prev, t[..n], n == |t|) && (n < |t| ==> Read(LastOf(prev, t[..n]), t[n..], Unquoted).Stops?)
  {
    hide Good, Read, LexemeText;
    var first := LexemeText(l);
    var k := |first|;
    assert t[..n] == first + rest[..n - k];
    assert n < |t| ==> t[n..] == rest[n - k..];
    var ls :| AllGood(LastOf(prev, first), ls) && (rest[..n - k] == Written(ls) || (n == |t| && rest[..n - k] == Written(ls) + "\\"));
    var all := [l] + ls;
    assert all[1..] == ls;
    assert Written(all) == first + Written(ls);
    assert t[..n] == Written(all) || (n == |t| && t[..n] == Written(all) + "\\");
  }

  // ---------------------------------------------------------------- lines

  /** A separator: a run of semicolons, bars, ampersands or line ends that the next command does not go on. */
  ghost predicate Separator(before: char, gap: string, rest: string) {
    && gap != "" && gap[0] in {';', '|', '\n', '&'} && (gap[0] == '&' ==> before != '<' && before != '>')
    && (forall i :: 0 <= i < |gap| ==> gap[i] == gap[0]) && (rest != "" ==> rest[0] != gap[0])
  }

  /** A comment up to the end of its line, after white space. */
  ghost predicate Comment(before: char, gap: string) {
    gap != "" && gap[0] == '#' && IsSpace(before) && '\n' !in gap[..|gap| - 1]
  }

  /** Nothing comes after this. */
  ghost predicate AtEnd(before: char, gap: string) {
    gap == "" || (Comment(before, gap) && gap[|gap| - 1] != '\n')
  }

  /** A command with what comes after it, which is its end, a comment or a separator. */
  ghost predicate First(prev: char, p: Piece, more: seq<Piece>) {
    var before := LastOf(prev, p.simple);
    && Command(prev, p.simple, p.gap == "")
    && if AtEnd(before, p.gap) then more == [] else Comment(before, p.gap) || Separator(before, p.gap, Join(more))
  }

  /** A line of commands, each but the last with a separator or a comment after it. */
  ghost predicate Line(prev: char, ps: seq<Piece>)
    decreases |ps|
  {
    && ps != [] && First(prev, ps[0], ps[1..])
    && (!AtEnd(LastOf(prev, ps[0].simple), ps[0].gap) ==> Line(ps[0].gap[|ps[0].gap| - 1], ps[1..]))
  }

  lemma {:induction false} RunIs(gap: string, c: char, rest: string)
    requires (forall i :: 0 <= i < |gap| ==> gap[i] == c) && (rest != "" ==> rest[0] != c)
    ensures RunLength(gap + rest, c) == |gap|
  {
    if gap == "" {
      assert gap + rest == rest;
    } else {
      assert (gap + rest)[1..] == gap[1..] + rest;
      RunIs(gap[1..], c, rest);
    }
  }

  lemma {:induction false} CommentIs(gap: string, rest: string)
    requires gap != "" && '\n' !in gap[..|gap| - 1] && (gap[|gap| - 1] == '\n' || rest == "")
    ensures CommentLength(gap + rest) == |gap|
  {
    assert (gap + rest)[1..] == gap[1..] + rest;
    if |gap| > 1 {
      assert gap[0] == gap[..|gap| - 1][0] && gap[1..][..|gap| - 2] == gap[..|gap| - 1][1..];
      CommentIs(gap[1..], rest);
    } else if gap[0] != '\n' {
      assert (gap + rest)[1..] == "";
    }
  }

  lemma {:induction false} CommentWas(t: string)
    requires t != ""
    ensures var n := CommentLength(t); n > 0 && '\n' !in t[..n - 1] && (t[n - 1] == '\n' || n == |t|)
  {
    if t[0] != '\n' && |t| > 1 {
      CommentWas(t[1..]);
      var n := CommentLength(t);
      assert t[..n - 1] == [t[0]] + t[1..][..n - 2];
    }
  }

  lemma CommandReads(prev: char, s: string, b: string, last: bool)
    requires Command(prev, s, last) && (last ==> b == "") && (b == "" || Read(LastOf(prev, s), b, Unquoted).Stops?)
    ensures Simple(prev, s + b, Unquoted) == Some(|s|)
  {
    var ls :| AllGood(prev, ls) && (s == Written(ls) || (last && s == Written(ls) + "\\"));
    hide AllGood, Written, Read, Simple;
    if s == Written(ls) {
      LexemesRead(prev, ls, b);
      NothingLeft(LastOf(prev, s), b);
    } else {
      LexemesRead(prev, ls, "\\");
      Dangles(LastOf(prev, Written(ls)));
      assert s + b == Written(ls) + "\\";
    }
  }

  lemma NothingLeft(prev: char, b: string)
    requires b == "" || Read(prev, b, Unquoted).Stops?
    ensures Simple(prev, b, Unquoted) == Some(0)
  {
  }

  lemma Dangles(prev: char)
    ensures Simple(prev, "\\", Unquoted) == Some(1)
  {
  }

  lemma GapStops(before: char, gap: string, rest: string)
    requires Comment(before, gap) || Separator(before, gap, rest)
    ensures Read(before, gap + rest, Unquoted).Stops?
  {
  }

  lemma GapIs(before: char, gap: string, rest: string)
    requires Comment(before, gap) || Separator(before, gap, rest)
    requires Comment(before, gap) && gap[|gap| - 1] != '\n' ==> rest == ""
    ensures GapLength(gap + rest) == |gap|
  {
    if Comment(before, gap) { CommentIs(gap, rest); } else { RunIs(gap, gap[0], rest); }
  }

  lemma FirstReads(prev: char, p: Piece, more: seq<Piece>)
    requires First(prev, p, more)
    ensures var rest := Join(more);
      && Simple(prev, p.simple + (p.gap + rest), Unquoted) == Some(|p.simple|)
      && (p.gap != "" ==> GapLength(p.gap + rest) == |p.gap|)
      && (LastGap(p.gap) <==> AtEnd(LastOf(prev, p.simple), p.gap))
      && (LastGap(p.gap) ==> more == [] && rest == "")
  {
    var rest, before := Join(more), LastOf(prev, p.simple);
    NothingBefore();
    hide Simple, GapLength, Command, Join, Read, IsSpace;
    if p.gap != "" {
      GapStops(before, p.gap, rest);
      GapIs(before, p.gap, rest);
    } else {
      assert p.gap + rest == "";
    }
    hide Comment, Separator;
    CommandReads(prev, p.simple, p.gap + rest, p.gap == "");
  }

  /** What is written so is found again, piece by piece. */
  lemma {:induction false} LineSplits(prev: char, ps: seq<Piece>)
    requires Line(prev, ps)
    ensures Split(prev, Join(ps)) == Some(ps)
    decreases |ps|
  {
    var p, more := ps[0], ps[1..];
    JoinHead(ps);
    hide Simple, GapLength, Split, Join, First, AtEnd;
    FirstReads(prev, p, more);
    assert ps == [p] + more;
    Regroup(p.simple, p.gap, Join(more));
    if !LastGap(p.gap) { LineSplits(p.gap[|p.gap| - 1], more); }
    SplitBuilds(prev, p, Join(more), more);
  }

  lemma GapWas(before: char, gap: string, rest: string)
    requires gap != "" && Read(before, gap + rest, Unquoted).Stops? && GapLength(gap + rest) == |gap|
    ensures Comment(before, gap) || Separator(before, gap, rest)
    ensures LastGap(gap) <==> Comment(before, gap) && gap[|gap| - 1] != '\n'
  {
    var t := gap + rest;
    if gap[0] == '#' {
      CommentWas(t);
      assert t[..|gap| - 1] == gap[..|gap| - 1];
    } else {
      var n := RunLength(t, t[0]);
      assert gap[0] in {';', '|', '\n', '&'};
      assert forall i :: 0 <= i < n ==> t[i] == gap[i];
      assert rest != "" ==> t[n] == rest[0];
    }
  }

  lemma FirstWritten(prev: char, t: string)
    requires Split(prev, t).Some?
    ensures var ps := Split(prev, t).value;
      && ps != [] && First(prev, ps[0], ps[1..]) && (LastGap(ps[0].gap) <==> AtEnd(LastOf(prev, ps[0].simple), ps[0].gap))
      && (!LastGap(ps[0].gap) ==>
            |Join(ps[1..])| < |t| && Split(ps[0].gap[|ps[0].gap| - 1], Join(ps[1..])) == Some(ps[1..]))
  {
    var ps := Split(prev, t).value;
    SplitCases(prev, t);
    SimpleWritten(prev, t);
    var p := ps[0];
    var rest, before := Join(ps[1..]), LastOf(prev, p.simple);
    hide Simple, GapLength, Split, Join, Read, Command, Comment, Separator, Closed, IsSpace;
    Regroup(p.simple, p.gap, rest);
    assert t[..|p.simple|] == p.simple && t[|p.simple|..] == p.gap + rest;
    if p.gap != "" {
      GapWas(before, p.gap, rest);
    } else {
      NothingBefore();
    }
  }

  /** And whatever is found was written so. */
  lemma {:induction false} SplitIsLine(prev: char, t: string)
    requires Split(prev, t).Some?
    ensures Line(prev, Split(prev, t).value)
    decreases |t|
  {
    FirstWritten(prev, t);
    hide Split, Closed, First, AtEnd, LastGap, Join;
    var ps := Split(prev, t).value;
    var p := ps[0];
    if !LastGap(p.gap) { SplitIsLine(p.gap[|p.gap| - 1], Join(ps[1..])); }
  }

  /** The lexer accepts exactly the lines of the grammar, and finds in them the commands that were written. */
  lemma LinesAreRead(command: string, ps: seq<Piece>)
    ensures PiecesOf(command) == Some(ps) <==> Line('\n', ps) && Join(ps) == command
  {
    if PiecesOf(command) == Some(ps) {
      SplitIsLine('\n', command);
      SplitJoins('\n', command);
    }
    if Line('\n', ps) && Join(ps) == command { LineSplits('\n', ps); }
  }

  // ---------------------------------------------------------------- words

  /** What the word splitter minds: quotes that close, and no others. */
  ghost predicate WordLexeme(l: Lexeme) {
    match l
    case Bare(c) => c != '\\' && c != '"' && c != '\''
    case Escaped(_) => true
    case Singly(body) => '\'' !in body
    case Doubly(items) => forall i :: 0 <= i < |items| && items[i].Plain? ==> items[i].c != '"' && items[i].c != '\\'
  }

  ghost predicate AllWordLexemes(ls: seq<Lexeme>) {
    ls == [] || (WordLexeme(ls[0]) && AllWordLexemes(ls[1..]))
  }

  /** Between double quotes an escape means its character only before a quote or a backslash. */
  function ItemMeaning(i: Item): string {
    match i
    case Plain(c) => [c]
    case Escape(c) => if c == '"' || c == '\\' then [c] else ['\\', c]
  }

  function ItemsMeaning(items: seq<Item>): string {
    if items == [] then "" else ItemMeaning(items[0]) + ItemsMeaning(items[1..])
  }

  function LexemeMeaning(l: Lexeme): string {
    match l
    case Bare(c) => [c]
    case Escaped(c) => [c]
    case Singly(body) => body
    case Doubly(items) => ItemsMeaning(items)
  }

  /** The words meant: bare white space separates them, and quotes may make an empty one. */
  function Meaning(ls: seq<Lexeme>, word: Option<string>): seq<string>
    decreases |ls|
  {
    var begun := if word.None? then "" else word.value;
    if ls == [] then if word.None? then [] else [begun]
    else if ls[0].Bare? && (ls[0].c == ' ' || ls[0].c == '\t' || ls[0].c == '\r' || ls[0].c == '\n') then
      (if word.None? then [] else [begun]) + Meaning(ls[1..], None)
    else Meaning(ls[1..], Some(begun + LexemeMeaning(ls[0])))
  }

  lemma SingleMeans(c: char, rest: string, word: Option<string>)
    ensures WordsFrom([c] + rest, Single, word) ==
      if c == '\'' then WordsFrom(rest, Unquoted, Some(So(word))) else WordsFrom(rest, Single, Some(So(word) + [c]))
  {
    assert ([c] + rest)[1..] == rest;
  }

  lemma {:induction false} SinglyMeans(body: string, rest: string, word: Option<string>)
    requires '\'' !in body
    ensures WordsFrom(body + ("'" + rest), Single, word) == WordsFrom(rest, Unquoted, Some(So(word) + body))
    decreases |body|
  {
    hide WordsFrom;
    if body == "" {
      assert body + ("'" + rest) == ['\''] + rest && So(word) + "" == So(word);
      SingleMeans('\'', rest, word);
    } else {
      var more := body[1..] + ("'" + rest);
      assert body + ("'" + rest) == [body[0]] + more && body[0] in body;
      SingleMeans(body[0], more, word);
      SinglyMeans(body[1..], rest, Some(So(word) + [body[0]]));
      assert So(word) + [body[0]] + body[1..] == So(word) + body;
    }
  }

  lemma EscapeMeans(c: char, rest: string, q: Quote, word: Option<string>)
    requires q != Single
    ensures WordsFrom(['\\', c] + rest, q, word) ==
      WordsFrom(rest, q, Some(So(word) + if q == Double then ItemMeaning(Escape(c)) else [c]))
  {
    var t := ['\\', c] + rest;
    assert t[2..] == rest && "\\" + [c] == ['\\', c];
  }

  /** A double quote closes, anything but it and a backslash stands for itself. */
  lemma DoubleMeans(c: char, rest: string, word: Option<string>)
    requires c != '\\'
    ensures WordsFrom([c] + rest, Double, word) ==
      if c == '"' then WordsFrom(rest, Unquoted, Some(So(word))) else WordsFrom(rest, Double, Some(So(word) + [c]))
  {
    assert ([c] + rest)[1..] == rest;
  }

  lemma ItemMeans(i: Item, rest: string, word: Option<string>)
    requires i.Plain? ==> i.c != '"' && i.c != '\\'
    ensures WordsFrom(ItemText(i) + rest, Double, word) == WordsFrom(rest, Double, Some(So(word) + ItemMeaning(i)))
  {
    hide WordsFrom;
    if i.Plain? { DoubleMeans(i.c, rest, word); } else { EscapeMeans(i.c, rest, Double, word); }
  }

  lemma {:induction false} DoublyMeans(items: seq<Item>, rest: string, word: Option<string>)
    requires WordLexeme(Doubly(items))
    ensures WordsFrom(ItemsText(items) + ("\"" + rest), Double, word) == WordsFrom(rest, Unquoted, Some(So(word) + ItemsMeaning(items)))
    decreases |items|
  {
    hide WordsFrom, ItemText, ItemMeaning;
    if items == [] {
      assert ItemsText(items) + ("\"" + rest) == ['"'] + rest && So(word) + "" == So(word);
      DoubleMeans('"', rest, word);
    } else {
      var more := ItemsText(items[1..]) + ("\"" + rest);
      forall i | 0 <= i < |items| - 1 ensures items[1..][i] == items[i + 1] {}
      ItemMeans(items[0], more, word);
      DoublyMeans(items[1..], rest, Some(So(word) + ItemMeaning(items[0])));
      Regroup(ItemText(items[0]), ItemsText(items[1..]), "\"" + rest);
      Regroup(So(word), ItemMeaning(items[0]), ItemsMeaning(items[1..]));
    }
  }

  lemma BareMeans(c: char, rest: string, word: Option<string>)
    requires c != '\\' && !Blank(c)
    ensures WordsFrom([c] + rest, Unquoted, word) ==
      if c == '"' then WordsFrom(rest, Double, Some(So(word)))
      else if c == '\'' then WordsFrom(rest, Single, Some(So(word)))
      else WordsFrom(rest, Unquoted, Some(So(word) + [c]))
  {
    assert ([c] + rest)[1..] == rest;
  }

  lemma LexemeMeans(l: Lexeme, rest: string, word: Option<string>)
    requires WordLexeme(l) && !(l.Bare? && Blank(l.c))
    ensures WordsFrom(LexemeText(l) + rest, Unquoted, word) == WordsFrom(rest, Unquoted, Some(So(word) + LexemeMeaning(l)))
  {
    hide WordsFrom, ItemsText, ItemsMeaning;
    match l
    case Bare(c) => BareMeans(c, rest, word);
    case Escaped(c) => EscapeMeans(c, rest, Unquoted, word);
    case Singly(body) =>
      var more := body + ("'" + rest);
      assert LexemeText(l) + rest == ['\''] + more;
      BareMeans('\'', more, word);
      SinglyMeans(body, rest, Some(So(word)));
    case Doubly(items) =>
      var more := ItemsText(items) + ("\"" + rest);
      assert LexemeText(l) + rest == ['"'] + more;
      BareMeans('"', more, word);
      DoublyMeans(items, rest, Some(So(word)));
  }

  lemma BlankMeans(c: char, rest: string, word: Option<string>)
    requires Blank(c)
    ensures WordsFrom([c] + rest, Unquoted, word) == Prepend(Flush(word), WordsFrom(rest, Unquoted, None))
  {
    assert ([c] + rest)[1..] == rest;
  }

  lemma {:induction false} WordsMean(ls: seq<Lexeme>, word: Option<string>)
    requires AllWordLexemes(ls)
    ensures WordsFrom(Written(ls), Unquoted, word) == Some(Meaning(ls, word))
    decreases |ls|
  {
    hide WordsFrom, LexemeText, LexemeMeaning, WordLexeme;
    if ls == [] {
      NoWords(word);
    } else {
      var rest := Written(ls[1..]);
      if ls[0].Bare? && Blank(ls[0].c) {
        BareText(ls[0].c);
        BlankMeans(ls[0].c, rest, word);
        WordsMean(ls[1..], None);
      } else {
        LexemeMeans(ls[0], rest, word);
        WordsMean(ls[1..], Some(So(word) + LexemeMeaning(ls[0])));
      }
    }
  }

  lemma NoWords(word: Option<string>)
    ensures WordsFrom("", Unquoted, word) == Some(Flush(word))
  {
  }

  lemma BareText(c: char)
    ensures LexemeText(Bare(c)) == [c]
  {
  }

  lemma {:induction false} SinglyWas(t: string, word: Option<string>) returns (body: string, rest: string)
    requires WordsFrom(t, Single, word).Some?
    ensures t == body + "'" + rest && '\'' !in body
    decreases |t|
  {
    if t[0] == '\'' {
      body, rest := "", t[1..];
    } else {
      body, rest := SinglyWas(t[1..], Some(So(word) + [t[0]]));
      body := [t[0]] + body;
    }
  }

  lemma {:induction false} DoublyWas(t: string, word: Option<string>) returns (items: seq<Item>, rest: string)
    requires WordsFrom(t, Double, word).Some?
    ensures t == ItemsText(items) + ("\"" + rest) && WordLexeme(Doubly(items))
    decreases |t|
  {
    if t[0] == '"' {
      items, rest := [], t[1..];
    } else if t[0] == '\\' {
      items, rest := DoublyWas(t[2..], Some(So(word) + if t[1] != '\\' && t[1] != '"' then "\\" + [t[1]] else [t[1]]));
      hide WordsFrom;
      PutItem(Escape(t[1]), items, rest, t);
      items := [Escape(t[1])] + items;
    } else {
      items, rest := DoublyWas(t[1..], Some(So(word) + [t[0]]));
      hide WordsFrom;
      PutItem(Plain(t[0]), items, rest, t);
      items := [Plain(t[0])] + items;
    }
  }

  lemma FirstWas(t: string, word: Option<string>) returns (l: Lexeme, rest: string)
    requires t != "" && WordsFrom(t, Unquoted, word).Some?
    ensures WordLexeme(l) && t == LexemeText(l) + rest && |rest| < |t|
  {
    if t[0] == '\\' {
      l, rest := Escaped(t[1]), t[2..];
    } else if t[0] == '\'' {
      var body;
      body, rest := SinglyWas(t[1..], Some(So(word)));
      l := Singly(body);
    } else if t[0] == '"' {
      var items;
      items, rest := DoublyWas(t[1..], Some(So(word)));
      l := Doubly(items);
    } else {
      l, rest := Bare(t[0]), t[1..];
    }
  }

  lemma {:induction false} WordsWritten(t: string, word: Option<string>) returns (ls: seq<Lexeme>)
    requires WordsFrom(t, Unquoted, word).Some?
    ensures AllWordLexemes(ls) && Written(ls) == t
    decreases |t|
  {
    if t == "" {
      ls := [];
    } else {
      var l, rest := FirstWas(t, word);
      hide WordsFrom, LexemeText, WordLexeme;
      if l.Bare? && Blank(l.c) {
        BareText(l.c);
        BlankMeans(l.c, rest, word);
        ls := WordsWritten(rest, None);
      } else {
        LexemeMeans(l, rest, word);
        ls := WordsWritten(rest, Some(So(word) + LexemeMeaning(l)));
      }
      ls := [l] + ls;
    }
  }

  /** The word splitter accepts exactly texts whose quotes close, and finds in them the words that are meant. */
  lemma WordsAreRead(t: string, words: seq<string>)
    ensures Words(t) == Some(words) <==> exists ls :: AllWordLexemes(ls) && Written(ls) == t && Meaning(ls, None) == words
  {
    if Words(t) == Some(words) {
      var ls := WordsWritten(t, None);
      WordsMean(ls, None);
    }
    if ls :| AllWordLexemes(ls) && Written(ls) == t && Meaning(ls, None) == words { WordsMean(ls, None); }
  }
}
