/**
 Every line that the shell's grammar allows (sh.c): tokens with any white space before each,
 and redirections anywhere among the words of a command.  The parser reads such a line as
 the command it was written for.
 */
module Layout {
  import opened Shell

  // ----- tokens ------------------------------------------------------------

  /** A token and the white space before it. */
  datatype Tok = Tok(gap: string, text: string)

  predicate IsBlank(c: char) {
    c == ' ' || c == '\t' || c == '\r' || c == '\n' || c == '\U{000b}'
  }

  predicate IsMark(c: char) {
    c == '<' || c == '|' || c == '>' || c == '&' || c == ';' || c == '(' || c == ')'
  }

  predicate IsGap(g: string) {
    forall i :: 0 <= i < |g| ==> IsBlank(g[i])
  }

  predicate IsPlain(w: string) {
    w != "" && forall i :: 0 <= i < |w| ==> !IsBlank(w[i]) && !IsMark(w[i])
  }

  predicate IsOp(x: string) {
    x == "<" || x == "|" || x == ">" || x == "&" || x == ";" || x == "(" || x == ")" || x == ">>"
  }

  /** A token that does not run into the one before. */
  predicate Apart(a: Tok, b: Tok) {
    b.gap == "" ==> !(IsPlain(a.text) && IsPlain(b.text)) && !(a.text == ">" && (b.text == ">" || b.text == ">>"))
  }

  predicate TokOk(k: Tok) {
    IsGap(k.gap) && (IsPlain(k.text) || IsOp(k.text))
  }

  predicate Fits(ts: seq<Tok>) {
    && (forall i :: 0 <= i < |ts| ==> TokOk(ts[i]))
    && (forall i :: 0 < i < |ts| ==> Apart(ts[i - 1], ts[i]))
  }

  /** The line, which ends in white space. */
  function Spell(ts: seq<Tok>, tail: string): string {
    if ts == [] then tail else ts[0].gap + (ts[0].text + Spell(ts[1..], tail))
  }

  lemma SpaceIs(c: char)
    ensures IsSpace(c) == IsBlank(c) && IsSymbol(c) == IsMark(c)
  {
  }

  lemma {:induction false} SkipGap(g: string, s: string)
    requires IsGap(g)
    ensures Skip(g + s) == Skip(s)
  {
    if g == "" {
      assert g + s == s;
    } else {
      SpaceIs(g[0]);
      assert (g + s)[0] == g[0] && (g + s)[1..] == g[1..] + s;
      SkipGap(g[1..], s);
    }
  }

  lemma PlainToken(w: string)
    ensures IsPlain(w) == IsToken(w)
  {
    forall i | 0 <= i < |w| ensures IsWord(w[i]) == (!IsBlank(w[i]) && !IsMark(w[i])) {
      SpaceIs(w[i]);
    }
  }

  function Kind(x: string): char
    requires x != ""
  {
    if IsPlain(x) then 'a' else if x == ">>" then '+' else x[0]
  }

  /** What may come after a token. */
  predicate Follows(x: string, s: string) {
    s == "" || ((IsPlain(x) ==> IsBlank(s[0]) || IsMark(s[0])) && (x == ">" ==> s[0] != '>'))
  }

  lemma RestFollows(ts: seq<Tok>, tail: string)
    requires ts != [] && Fits(ts) && IsGap(tail)
    ensures Fits(ts[1..]) && Follows(ts[0].text, Spell(ts[1..], tail))
  {
    var more := ts[1..];
    assert forall i :: 0 <= i < |more| ==> more[i] == ts[i + 1];
    forall i | 0 < i < |more| ensures Apart(more[i - 1], more[i]) {
      assert Apart(ts[i], ts[i + 1]);
    }
    if more != [] {
      assert Apart(ts[0], ts[1]) && more[0] == ts[1] && TokOk(ts[1]);
      var s := Spell(more, tail);
      if ts[1].gap == "" {
        assert s == ts[1].text + Spell(more[1..], tail);
        assert s[0] == ts[1].text[0];
      } else {
        assert s[0] == ts[1].gap[0];
      }
    }
  }

  lemma ReadOp(x: string, s: string)
    requires IsOp(x) && Follows(x, s)
    ensures NextToken(x + s) == Token(Kind(x), x, Skip(s)) && Skip(x + s) == x + s
  {
    SpaceIs(x[0]);
    assert IsMark(x[0]) && !IsPlain(x);
    if x == ">>" {
      ReadAppend(s);
      assert (x + s)[0] == '>';
    } else {
      assert x == [x[0]];
      ReadSymbol(x[0], s);
    }
  }

  lemma ReadPlain(x: string, s: string)
    requires IsPlain(x) && Follows(x, s)
    ensures NextToken(x + s) == Token('a', x, Skip(s)) && Skip(x + s) == x + s
  {
    PlainToken(x);
    if s != "" {
      SpaceIs(s[0]);
    }
    ReadWord(x, s);
  }

  /** The first token of a line, and the rest. */
  lemma Lex(ts: seq<Tok>, tail: string)
    requires ts != [] && Fits(ts) && IsGap(tail)
    ensures Fits(ts[1..]) && ts[0].text != ""
    ensures NextToken(Spell(ts, tail)) == Token(Kind(ts[0].text), ts[0].text, Skip(Spell(ts[1..], tail)))
    ensures Skip(Spell(ts, tail)) != "" && Skip(Spell(ts, tail))[0] == ts[0].text[0]
  {
    var x, s := ts[0].text, Spell(ts[1..], tail);
    assert TokOk(ts[0]);
    RestFollows(ts, tail);
    if IsPlain(x) {
      ReadPlain(x, s);
    } else {
      ReadOp(x, s);
    }
    SkipGap(ts[0].gap, x + s);
    SkipSkip(ts[0].gap + (x + s));
    SkipSkip(x + s);
  }

  lemma LexEnd(tail: string)
    requires IsGap(tail)
    ensures Skip(tail) == "" && NextToken(tail) == Token('\0', "", "")
  {
    SkipGap(tail, "");
    assert tail + "" == tail;
  }

  // ----- concrete syntax ---------------------------------------------------

  /** A word, or a redirection and the file's name. */
  datatype Item = Arg(w: Tok) | Re(op: Tok, file: Tok)

  datatype ExecDoc = Simple(items: seq<Item>) | Block(open: Tok, body: LineDoc, close: Tok, redirs: seq<Item>)
  datatype PipeDoc = Only(cmd: ExecDoc) | Piped(left: ExecDoc, bar: Tok, right: PipeDoc)
  datatype LineDoc = Last(cmd: PipeDoc, amps: seq<Tok>) | Then(cmd: PipeDoc, amps: seq<Tok>, semi: Tok, rest: LineDoc)

  predicate ItemOk(x: Item) {
    match x
    case Arg(w) => IsPlain(w.text)
    case Re(op, file) => (op.text == "<" || op.text == ">" || op.text == ">>") && IsPlain(file.text)
  }

  predicate ItemsOk(xs: seq<Item>) {
    forall i :: 0 <= i < |xs| ==> ItemOk(xs[i])
  }

  predicate AmpsOk(amps: seq<Tok>) {
    forall i :: 0 <= i < |amps| ==> amps[i].text == "&"
  }

  function WordsOf(xs: seq<Item>): seq<string> {
    if xs == [] then [] else (if xs[0].Arg? then [xs[0].w.text] else []) + WordsOf(xs[1..])
  }

  predicate ExecOk(d: ExecDoc) {
    match d
    case Simple(items) => ItemsOk(items) && |WordsOf(items)| < MAXARGS
    case Block(open, body, close, redirs) =>
      open.text == "(" && LineOk(body) && close.text == ")" && ItemsOk(redirs) && WordsOf(redirs) == []
  }

  predicate PipeOk(d: PipeDoc) {
    match d
    case Only(c) => ExecOk(c)
    case Piped(l, bar, r) => ExecOk(l) && bar.text == "|" && PipeOk(r)
  }

  predicate LineOk(d: LineDoc) {
    match d
    case Last(c, amps) => PipeOk(c) && AmpsOk(amps)
    case Then(c, amps, semi, rest) => PipeOk(c) && AmpsOk(amps) && semi.text == ";" && LineOk(rest)
  }

  function ItemToks(xs: seq<Item>): seq<Tok> {
    if xs == [] then []
    else (match xs[0] case Arg(w) => [w] case Re(op, file) => [op, file]) + ItemToks(xs[1..])
  }

  function ExecToks(d: ExecDoc): seq<Tok> {
    match d
    case Simple(items) => ItemToks(items)
    case Block(open, body, close, redirs) => [open] + LineToks(body) + [close] + ItemToks(redirs)
  }

  function PipeToks(d: PipeDoc): seq<Tok> {
    match d
    case Only(c) => ExecToks(c)
    case Piped(l, bar, r) => ExecToks(l) + [bar] + PipeToks(r)
  }

  function LineToks(d: LineDoc): seq<Tok> {
    match d
    case Last(c, amps) => PipeToks(c) + amps
    case Then(c, amps, semi, rest) => PipeToks(c) + amps + [semi] + LineToks(rest)
  }

  /** Redirections go around, the first innermost. */
  function Wrapped(t: Tree, xs: seq<Item>): Tree
    decreases |xs|
  {
    if xs == [] then t
    else Wrapped(if xs[0].Re? then Redir(t, xs[0].file.text, xs[0].op.text != "<") else t, xs[1..])
  }

  function Backed(t: Tree, n: nat): Tree
    decreases n
  {
    if n == 0 then t else Backed(Back(t), n - 1)
  }

  /** The command that is written. */
  function ExecTree(d: ExecDoc): Tree {
    match d
    case Simple(items) => Wrapped(Exec(WordsOf(items)), items)
    case Block(_, body, _, redirs) => Wrapped(LineTree(body), redirs)
  }

  function PipeTree(d: PipeDoc): Tree {
    match d
    case Only(c) => ExecTree(c)
    case Piped(l, _, r) => Pipe(ExecTree(l), PipeTree(r))
  }

  function LineTree(d: LineDoc): Tree {
    match d
    case Last(c, amps) => Backed(PipeTree(c), |amps|)
    case Then(c, amps, _, rest) => List(Backed(PipeTree(c), |amps|), LineTree(rest))
  }

  // ----- reading it --------------------------------------------------------

  /** Where a part of a line ends. */
  predicate Stop(more: seq<Tok>, marks: string) {
    more == [] || (more[0].text != "" && more[0].text[0] in marks)
  }

  lemma Look(ts: seq<Tok>, tail: string, marks: string)
    requires Fits(ts) && IsGap(tail)
    ensures Peek(Spell(ts, tail), marks) <==> ts != [] && ts[0].text != "" && ts[0].text[0] in marks
  {
    if ts == [] {
      LexEnd(tail);
    } else {
      Lex(ts, tail);
    }
  }

  lemma FitsTail(a: seq<Tok>, b: seq<Tok>)
    requires Fits(a + b)
    ensures Fits(b)
  {
    forall i | 0 <= i < |b| ensures TokOk(b[i]) && (i > 0 ==> Apart(b[i - 1], b[i])) {
      assert (a + b)[|a| + i] == b[i];
      if i > 0 {
        assert Apart((a + b)[|a| + i - 1], (a + b)[|a| + i]);
      }
    }
  }

  lemma First(k: Tok, more: seq<Tok>)
    ensures ([k] + more)[0] == k && ([k] + more)[1..] == more
  {
  }

  /** One redirection. */
  lemma RedirDoc(t: Tree, x: Item, more: seq<Tok>, tail: string)
    requires x.Re? && ItemOk(x) && Fits([x.op] + ([x.file] + more)) && IsGap(tail)
    ensures Fits(more)
    ensures Redirs(t, Spell([x.op] + ([x.file] + more), tail)) ==
            Redirs(Redir(t, x.file.text, x.op.text != "<"), Spell(more, tail))
  {
    var ts := [x.op] + ([x.file] + more);
    First(x.op, [x.file] + more);
    First(x.file, more);
    Lex(ts, tail);
    Lex([x.file] + more, tail);
    SkipSkip(Spell([x.file] + more, tail));
    Look(ts, tail, "<>");
    RedirsStep(t, Spell(ts, tail));
    RedirsSkip(Redir(t, x.file.text, x.op.text != "<"), Spell(more, tail));
  }

  lemma ItemParts(xs: seq<Item>, more: seq<Tok>)
    requires xs != []
    ensures xs[0].Arg? ==> ItemToks(xs) + more == [xs[0].w] + (ItemToks(xs[1..]) + more)
    ensures xs[0].Re? ==> ItemToks(xs) + more == [xs[0].op] + ([xs[0].file] + (ItemToks(xs[1..]) + more))
  {
    match xs[0]
    case Arg(w) => Regroup([w], ItemToks(xs[1..]), more);
    case Re(op, file) => RegroupTwo(op, file, ItemToks(xs[1..]), more);
  }

  lemma Regroup(a: seq<Tok>, b: seq<Tok>, c: seq<Tok>)
    ensures a + b + c == a + (b + c)
  {
  }

  lemma RegroupTwo(x: Tok, y: Tok, b: seq<Tok>, c: seq<Tok>)
    ensures [x, y] + b + c == [x] + ([y] + (b + c))
  {
  }

  lemma NoWord(t: Tree, xs: seq<Item>)
    requires xs != [] && ItemsOk(xs) && WordsOf(xs) == []
    ensures xs[0].Re? && ItemOk(xs[0]) && ItemsOk(xs[1..]) && WordsOf(xs[1..]) == []
    ensures Wrapped(t, xs) == Wrapped(Redir(t, xs[0].file.text, xs[0].op.text != "<"), xs[1..])
  {
    ItemWords([], xs);
  }

  lemma {:induction false} RedirsDoc(t: Tree, xs: seq<Item>, more: seq<Tok>, tail: string)
    requires ItemsOk(xs) && WordsOf(xs) == [] && Fits(ItemToks(xs) + more) && IsGap(tail) && Stop(more, "|)&;")
    ensures Fits(more) && Redirs(t, Spell(ItemToks(xs) + more, tail)) == Ok(Wrapped(t, xs), Skip(Spell(more, tail)))
    decreases |xs|
  {
    if xs == [] {
      assert ItemToks(xs) + more == more;
      Look(more, tail, "<>");
      RedirsStop(t, Spell(more, tail));
    } else {
      ItemParts(xs, more);
      NoWord(t, xs);
      RedirDoc(t, xs[0], ItemToks(xs[1..]) + more, tail);
      RedirsDoc(Redir(t, xs[0].file.text, xs[0].op.text != "<"), xs[1..], more, tail);
    }
  }

  /** parseexec from the middle of a simple command on: redirections, then words. */
  function Onward(t: Tree, args: seq<string>, s: string): Res {
    var r := Redirs(t, s);
    if r.Err? then Err else Args(r.t, args, r.rest)
  }

  lemma OnwardEnd(t: Tree, args: seq<string>, more: seq<Tok>, tail: string)
    requires Fits(more) && IsGap(tail) && Stop(more, "|)&;")
    ensures Onward(t, args, Spell(more, tail)) == Ok(WithArgs(t, args), Skip(Spell(more, tail)))
  {
    var s := Spell(more, tail);
    Look(more, tail, "<>");
    Look(more, tail, "|)&;");
    RedirsStop(t, s);
    SkipSkip(s);
    if more == [] {
      LexEnd(tail);
    }
    ArgsSkip(t, args, s);
  }

  lemma OnwardWord(t: Tree, args: seq<string>, w: Tok, more: seq<Tok>, tail: string)
    requires IsPlain(w.text) && |args| + 1 < MAXARGS && Fits([w] + more) && IsGap(tail)
    ensures Fits(more) && Onward(t, args, Spell([w] + more, tail)) == Onward(t, args + [w.text], Spell(more, tail))
  {
    var s := Spell([w] + more, tail);
    First(w, more);
    Lex([w] + more, tail);
    Look([w] + more, tail, "<>");
    Look([w] + more, tail, "|)&;");
    assert !IsMark(w.text[0]);
    RedirsStop(t, s);
    ArgsSkip(t, args, s);
    ArgsStep(t, args, s);
    RedirsSkip(t, Spell(more, tail));
  }

  lemma {:induction false} ItemsDoc(t: Tree, args: seq<string>, xs: seq<Item>, more: seq<Tok>, tail: string)
    requires ItemsOk(xs) && |args| + |WordsOf(xs)| < MAXARGS && Fits(ItemToks(xs) + more) && IsGap(tail) && Stop(more, "|)&;")
    ensures Onward(t, args, Spell(ItemToks(xs) + more, tail)) ==
            Ok(WithArgs(Wrapped(t, xs), args + WordsOf(xs)), Skip(Spell(more, tail)))
    decreases |xs|
  {
    if xs == [] {
      assert ItemToks(xs) + more == more && args + [] == args;
      OnwardEnd(t, args, more, tail);
    } else {
      var ys := xs[1..];
      ItemParts(xs, more);
      ItemWords(args, xs);
      assert ItemOk(xs[0]);
      if xs[0].Arg? {
        OnwardWord(t, args, xs[0].w, ItemToks(ys) + more, tail);
        ItemsDoc(t, args + [xs[0].w.text], ys, more, tail);
      } else {
        RedirDoc(t, xs[0], ItemToks(ys) + more, tail);
        ItemsDoc(Redir(t, xs[0].file.text, xs[0].op.text != "<"), args, ys, more, tail);
      }
    }
  }

  lemma ItemWords(args: seq<string>, xs: seq<Item>)
    requires xs != []
    ensures xs[0].Arg? ==> |WordsOf(xs)| == 1 + |WordsOf(xs[1..])| && args + WordsOf(xs) == args + [xs[0].w.text] + WordsOf(xs[1..])
    ensures xs[0].Re? ==> WordsOf(xs) == WordsOf(xs[1..])
  {
  }

  lemma {:induction false} ArgsIn(t: Tree, xs: seq<Item>, args: seq<string>)
    ensures WithArgs(Wrapped(t, xs), args) == Wrapped(WithArgs(t, args), xs)
    decreases |xs|
  {
    if xs != [] {
      ArgsIn(if xs[0].Re? then Redir(t, xs[0].file.text, xs[0].op.text != "<") else t, xs[1..], args);
    }
  }

  /** A simple command. */
  lemma SimpleDoc(items: seq<Item>, more: seq<Tok>, tail: string)
    requires ExecOk(Simple(items)) && Fits(ItemToks(items) + more) && IsGap(tail) && Stop(more, "|)&;")
    ensures ExecF(Spell(ItemToks(items) + more, tail)) == Ok(ExecTree(Simple(items)), Skip(Spell(more, tail)))
  {
    var ts := ItemToks(items) + more;
    ItemsDoc(Exec([]), [], items, more, tail);
    assert [] + WordsOf(items) == WordsOf(items);
    ArgsIn(Exec([]), items, WordsOf(items));
    NoParen(items, more);
    Look(ts, tail, "(");
  }

  lemma NoParen(items: seq<Item>, more: seq<Tok>)
    requires ItemsOk(items) && Stop(more, "|)&;")
    ensures
      var ts := ItemToks(items) + more;
      ts == [] || ts[0].text == "" || ts[0].text[0] != '('
  {
    if items != [] {
      ItemParts(items, more);
      assert ItemOk(items[0]);
    } else {
      assert ItemToks(items) + more == more;
    }
  }

  lemma BlockToks(d: ExecDoc, more: seq<Tok>)
    requires d.Block?
    ensures ExecToks(d) + more == [d.open] + (LineToks(d.body) + ([d.close] + (ItemToks(d.redirs) + more)))
  {
  }

  /** A command in parentheses, given that what is inside reads back. */
  lemma BlockDoc(d: ExecDoc, more: seq<Tok>, tail: string)
    requires d.Block? && ExecOk(d) && Fits(ExecToks(d) + more) && IsGap(tail) && Stop(more, "|)&;")
    requires
      var close := [d.close] + (ItemToks(d.redirs) + more);
      LineF(Spell(LineToks(d.body) + close, tail)) == Ok(LineTree(d.body), Skip(Spell(close, tail)))
    ensures ExecF(Spell(ExecToks(d) + more, tail)) == Ok(ExecTree(d), Skip(Spell(more, tail)))
  {
    var after := ItemToks(d.redirs) + more;
    var close := [d.close] + after;
    var inside := LineToks(d.body) + close;
    var s := Spell([d.open] + inside, tail);
    BlockToks(d, more);
    First(d.open, inside);
    First(d.close, after);
    Lex([d.open] + inside, tail);
    Look([d.open] + inside, tail, "(");
    FitsTail(LineToks(d.body), close);
    Lex(close, tail);
    Look(close, tail, ")");
    BlockTail(Spell(close, tail));
    LineSkip(Spell(inside, tail));
    RedirsSkip(LineTree(d.body), Spell(after, tail));
    RedirsDoc(LineTree(d.body), d.redirs, more, tail);
    assert BlockF(s) == Ok(ExecTree(d), Skip(Spell(more, tail)));
  }

  lemma {:induction false} ExecRead(d: ExecDoc, more: seq<Tok>, tail: string)
    requires ExecOk(d) && Fits(ExecToks(d) + more) && IsGap(tail) && Stop(more, "|)&;")
    ensures ExecF(Spell(ExecToks(d) + more, tail)) == Ok(ExecTree(d), Skip(Spell(more, tail)))
    decreases d
  {
    if d.Simple? {
      SimpleDoc(d.items, more, tail);
    } else {
      var close := [d.close] + (ItemToks(d.redirs) + more);
      BlockToks(d, more);
      FitsTail([d.open], LineToks(d.body) + close);
      LineRead(d.body, close, tail);
      BlockDoc(d, more, tail);
    }
  }

  lemma {:induction false} PipeRead(d: PipeDoc, more: seq<Tok>, tail: string)
    requires PipeOk(d) && Fits(PipeToks(d) + more) && IsGap(tail) && Stop(more, ")&;")
    ensures PipeF(Spell(PipeToks(d) + more, tail)) == Ok(PipeTree(d), Skip(Spell(more, tail)))
    decreases d
  {
    if d.Only? {
      ExecRead(d.cmd, more, tail);
      FitsTail(PipeToks(d), more);
      Look(more, tail, "|");
      SkipSkip(Spell(more, tail));
    } else {
      var right := PipeToks(d.right) + more;
      assert PipeToks(d) + more == ExecToks(d.left) + ([d.bar] + right);
      ExecRead(d.left, [d.bar] + right, tail);
      FitsTail(ExecToks(d.left), [d.bar] + right);
      First(d.bar, right);
      Lex([d.bar] + right, tail);
      Look([d.bar] + right, tail, "|");
      SkipSkip(Spell([d.bar] + right, tail));
      LineSkip(Spell(right, tail));
      PipeRead(d.right, more, tail);
    }
  }

  lemma {:induction false} AmpsDoc(t: Tree, amps: seq<Tok>, more: seq<Tok>, tail: string)
    requires AmpsOk(amps) && Fits(amps + more) && IsGap(tail) && Stop(more, ");")
    ensures Backs(t, Spell(amps + more, tail)) == Ok(Backed(t, |amps|), Skip(Spell(more, tail)))
    decreases |amps|
  {
    if amps == [] {
      assert amps + more == more;
      Look(more, tail, "&");
    } else {
      var rest := amps[1..] + more;
      assert amps + more == [amps[0]] + rest;
      First(amps[0], rest);
      Lex([amps[0]] + rest, tail);
      Look([amps[0]] + rest, tail, "&");
      AmpsDoc(Back(t), amps[1..], more, tail);
      BacksSkip(Back(t), Spell(rest, tail));
    }
  }

  lemma BacksSkip(t: Tree, s: string)
    ensures Backs(t, Skip(s)) == Backs(t, s)
  {
    SkipSkip(s);
  }

  /** A pipeline and its &s. */
  lemma BackRead(c: PipeDoc, amps: seq<Tok>, more: seq<Tok>, tail: string)
    requires AmpsOk(amps) && Fits(PipeToks(c) + (amps + more)) && IsGap(tail) && Stop(more, ");")
    requires PipeF(Spell(PipeToks(c) + (amps + more), tail)) == Ok(PipeTree(c), Skip(Spell(amps + more, tail)))
    ensures
      var r := PipeF(Spell(PipeToks(c) + (amps + more), tail));
      Backs(r.t, r.rest) == Ok(Backed(PipeTree(c), |amps|), Skip(Spell(more, tail)))
  {
    FitsTail(PipeToks(c), amps + more);
    AmpsDoc(PipeTree(c), amps, more, tail);
    BacksSkip(PipeTree(c), Spell(amps + more, tail));
  }

  lemma AmpsStop(amps: seq<Tok>, more: seq<Tok>)
    requires AmpsOk(amps) && Stop(more, ");")
    ensures Stop(amps + more, ")&;")
  {
    if amps == [] {
      assert amps + more == more;
    }
  }

  lemma {:induction false} LineRead(d: LineDoc, more: seq<Tok>, tail: string)
    requires LineOk(d) && Fits(LineToks(d) + more) && IsGap(tail) && Stop(more, ")")
    ensures LineF(Spell(LineToks(d) + more, tail)) == Ok(LineTree(d), Skip(Spell(more, tail)))
    decreases d
  {
    var after := if d.Then? then [d.semi] + (LineToks(d.rest) + more) else more;
    assert LineToks(d) + more == PipeToks(d.cmd) + (d.amps + after);
    AmpsStop(d.amps, after);
    PipeRead(d.cmd, d.amps + after, tail);
    BackRead(d.cmd, d.amps, after, tail);
    FitsTail(PipeToks(d.cmd), d.amps + after);
    FitsTail(d.amps, after);
    SkipSkip(Spell(after, tail));
    Look(after, tail, ";");
    if d.Then? {
      First(d.semi, LineToks(d.rest) + more);
      Lex(after, tail);
      LineSkip(Spell(LineToks(d.rest) + more, tail));
      LineRead(d.rest, more, tail);
    }
  }

  /** However a command is laid out, the line is parsed to it. */
  lemma EveryLayout(d: LineDoc, tail: string)
    requires LineOk(d) && Fits(LineToks(d)) && IsGap(tail)
    ensures Parsecmd(Spell(LineToks(d), tail)) == Ok(LineTree(d), "")
  {
    assert LineToks(d) + [] == LineToks(d);
    LineRead(d, [], tail);
    LexEnd(tail);
  }

  // ----- and every line that is accepted is so written ----------------------

  lemma {:induction false} GapOf(s: string) returns (g: string)
    ensures IsGap(g) && s == g + Skip(s)
  {
    if s != "" && IsSpace(s[0]) {
      SpaceIs(s[0]);
      var h := GapOf(s[1..]);
      g := [s[0]] + h;
      assert s == [s[0]] + s[1..];
      Regroup3([s[0]], h, Skip(s[1..]));
    } else {
      g := "";
    }
  }

  /** The token at the start of a string without white space before it. */
  lemma OneToken(s: string) returns (x: string, rest: string)
    requires s != "" && !IsSpace(s[0])
    ensures s == x + rest && (IsPlain(x) || IsOp(x)) && Follows(x, rest)
  {
    SpaceIs(s[0]);
    if IsSymbol(s[0]) {
      if s[0] == '>' && |s| > 1 && s[1] == '>' {
        x, rest := ">>", s[2..];
      } else {
        x, rest := s[..1], s[1..];
        assert x == [s[0]] && IsOp(x) && !IsPlain(x);
      }
    } else {
      var n := WordLen(s);
      x, rest := s[..n], s[n..];
      WordLenToken(s);
      WordLenEnds(s);
      PlainToken(x);
      if rest != "" {
        SpaceIs(rest[0]);
      }
    }
  }

  lemma {:induction false} WordLenEnds(s: string)
    ensures WordLen(s) < |s| ==> !IsWord(s[WordLen(s)])
  {
    if s != "" && IsWord(s[0]) {
      WordLenEnds(s[1..]);
    }
  }

  /** Every string is tokens with white space between them. */
  lemma {:induction false} LexAll(s: string) returns (ts: seq<Tok>, tail: string)
    ensures Fits(ts) && IsGap(tail) && Spell(ts, tail) == s
    decreases |s|
  {
    var g := GapOf(s);
    if Skip(s) == "" {
      ts, tail := [], g;
    } else {
      var x, rest := OneToken(Skip(s));
      var more;
      more, tail := LexAll(rest);
      ts := [Tok(g, x)] + more;
      First(Tok(g, x), more);
      Joined(Tok(g, x), more, tail);
    }
  }

  lemma Joined(k: Tok, more: seq<Tok>, tail: string)
    requires TokOk(k) && Fits(more) && Follows(k.text, Spell(more, tail))
    ensures Fits([k] + more)
  {
    var ts := [k] + more;
    if more != [] {
      assert TokOk(more[0]);
      if more[0].gap == "" {
        assert Spell(more, tail) == more[0].text + Spell(more[1..], tail);
        assert Spell(more, tail)[0] == more[0].text[0];
      }
      assert Apart(k, more[0]);
    }
    forall i | 0 < i < |ts| ensures Apart(ts[i - 1], ts[i]) {
      if i > 1 {
        assert Apart(more[i - 2], more[i - 1]);
      }
    }
  }

  lemma KindPlain(k: Tok)
    requires TokOk(k)
    ensures k.text != "" && (Kind(k.text) == 'a' <==> IsPlain(k.text)) && (IsMark(k.text[0]) <==> !IsPlain(k.text))
  {
  }

  /** A redirection that is accepted has a file's name. */
  lemma RedirTaken(t: Tree, ts: seq<Tok>, tail: string) returns (x: Item, more: seq<Tok>)
    requires Fits(ts) && IsGap(tail) && ts != [] && ts[0].text != "" && ts[0].text[0] in "<>" && Redirs(t, Spell(ts, tail)).Ok?
    ensures x.Re? && ItemOk(x) && ts == [x.op] + ([x.file] + more) && Fits(more)
    ensures Redirs(t, Spell(ts, tail)) == Redirs(Redir(t, x.file.text, x.op.text != "<"), Spell(more, tail))
  {
    Lex(ts, tail);
    Look(ts, tail, "<>");
    RedirsStep(t, Spell(ts, tail));
    SkipSkip(Spell(ts[1..], tail));
    assert TokOk(ts[0]);
    KindPlain(ts[0]);
    if ts[1..] == [] {
      LexEnd(tail);
      assert false;
    }
    Lex(ts[1..], tail);
    assert TokOk(ts[1]);
    KindPlain(ts[1]);
    x, more := Re(ts[0], ts[1]), ts[2..];
    assert ts == [x.op] + ([x.file] + more);
    RedirDoc(t, x, more, tail);
  }

  lemma {:induction false} RedirsTaken(t: Tree, ts: seq<Tok>, tail: string) returns (xs: seq<Item>, more: seq<Tok>)
    requires Fits(ts) && IsGap(tail) && Redirs(t, Spell(ts, tail)).Ok?
    ensures ItemsOk(xs) && WordsOf(xs) == [] && ts == ItemToks(xs) + more && Fits(more)
    ensures Redirs(t, Spell(ts, tail)) == Ok(Wrapped(t, xs), Skip(Spell(more, tail)))
    decreases |ts|
  {
    Look(ts, tail, "<>");
    if Peek(Spell(ts, tail), "<>") {
      var x, after := RedirTaken(t, ts, tail);
      var ys;
      ys, more := RedirsTaken(Redir(t, x.file.text, x.op.text != "<"), after, tail);
      xs := [x] + ys;
      FirstItem(x, ys, more);
    } else {
      RedirsStop(t, Spell(ts, tail));
      xs, more := [], ts;
    }
  }

  lemma FirstItem(x: Item, ys: seq<Item>, more: seq<Tok>)
    requires ItemOk(x) && ItemsOk(ys)
    ensures
      var xs := [x] + ys;
      && xs[0] == x && xs[1..] == ys && ItemsOk(xs)
      && ItemToks(xs) + more == (if x.Arg? then [x.w] else [x.op, x.file]) + (ItemToks(ys) + more)
      && WordsOf(xs) == (if x.Arg? then [x.w.text] else []) + WordsOf(ys)
  {
    var xs := [x] + ys;
    assert xs[0] == x && xs[1..] == ys;
  }

  lemma {:induction false} ItemsTaken(t: Tree, args: seq<string>, ts: seq<Tok>, tail: string) returns (xs: seq<Item>, more: seq<Tok>)
    requires Fits(ts) && IsGap(tail) && |args| < MAXARGS && Onward(t, args, Spell(ts, tail)).Ok?
    ensures ItemsOk(xs) && |args| + |WordsOf(xs)| < MAXARGS && ts == ItemToks(xs) + more && Fits(more)
    ensures Onward(t, args, Spell(ts, tail)) == Ok(WithArgs(Wrapped(t, xs), args + WordsOf(xs)), Skip(Spell(more, tail)))
    decreases |ts|
  {
    if ts == [] || ts[0].text[0] in "|)&;" {
      OnwardEnd(t, args, ts, tail);
      xs, more := [], ts;
      assert args + WordsOf(xs) == args && Wrapped(t, xs) == t;
    } else {
      var ys, x, after;
      if ts[0].text[0] in "<>" {
        x, after := RedirTaken(t, ts, tail);
        ys, more := ItemsTaken(Redir(t, x.file.text, x.op.text != "<"), args, after, tail);
      } else {
        WordTaken(t, args, ts, tail);
        x, after := Arg(ts[0]), ts[1..];
        assert ts == [ts[0]] + after;
        OnwardWord(t, args, ts[0], after, tail);
        ys, more := ItemsTaken(t, args + [ts[0].text], after, tail);
      }
      xs := [x] + ys;
      FirstItem(x, ys, more);
      ItemWords(args, xs);
    }
  }

  lemma WordTaken(t: Tree, args: seq<string>, ts: seq<Tok>, tail: string)
    requires Fits(ts) && IsGap(tail) && ts != [] && ts[0].text != "" && Onward(t, args, Spell(ts, tail)).Ok?
    requires ts[0].text[0] !in "<>" && ts[0].text[0] !in "|)&;"
    ensures IsPlain(ts[0].text) && |args| + 1 < MAXARGS
  {
    var s := Spell(ts, tail);
    Lex(ts, tail);
    Look(ts, tail, "<>");
    Look(ts, tail, "|)&;");
    RedirsStop(t, s);
    ArgsSkip(t, args, s);
    ArgsStep(t, args, s);
    assert TokOk(ts[0]);
    KindPlain(ts[0]);
  }

  lemma {:induction false} ExecTaken(ts: seq<Tok>, tail: string) returns (d: ExecDoc, more: seq<Tok>)
    requires Fits(ts) && IsGap(tail) && ExecF(Spell(ts, tail)).Ok?
    ensures ExecOk(d) && ts == ExecToks(d) + more && Fits(more)
    ensures ExecF(Spell(ts, tail)) == Ok(ExecTree(d), Skip(Spell(more, tail)))
    decreases |ts|, 1
  {
    Look(ts, tail, "(");
    if Peek(Spell(ts, tail), "(") {
      d, more := BlockTaken(ts, tail);
    } else {
      var items;
      items, more := ItemsTaken(Exec([]), [], ts, tail);
      assert [] + WordsOf(items) == WordsOf(items);
      ArgsIn(Exec([]), items, WordsOf(items));
      d := Simple(items);
    }
  }

  lemma {:induction false} BlockTaken(ts: seq<Tok>, tail: string) returns (d: ExecDoc, more: seq<Tok>)
    requires Fits(ts) && IsGap(tail) && Peek(Spell(ts, tail), "(") && BlockF(Spell(ts, tail)).Ok?
    ensures ExecOk(d) && ts == ExecToks(d) + more && Fits(more)
    ensures BlockF(Spell(ts, tail)) == Ok(ExecTree(d), Skip(Spell(more, tail)))
    decreases |ts|, 0
  {
    MarkTaken(ts, tail, "(");
    LineSkip(Spell(ts[1..], tail));
    var body, rest := LineTaken(ts[1..], tail);
    BlockTail(Spell(rest, tail));
    MarkTaken(rest, tail, ")");
    RedirsSkip(LineTree(body), Spell(rest[1..], tail));
    var redirs;
    redirs, more := RedirsTaken(LineTree(body), rest[1..], tail);
    d := Block(ts[0], body, rest[0], redirs);
    BlockToks(d, more);
  }

  /** A mark that the parser sees is the next token. */
  lemma MarkTaken(ts: seq<Tok>, tail: string, mark: string)
    requires Fits(ts) && IsGap(tail) && Peek(Spell(ts, tail), mark) && |mark| == 1 && mark[0] in "|&;()"
    ensures ts != [] && ts[0].text == mark && ts == [ts[0]] + ts[1..] && Fits(ts[1..])
    ensures NextToken(Spell(ts, tail)).rest == Skip(Spell(ts[1..], tail))
  {
    Look(ts, tail, mark);
    Lex(ts, tail);
    OneMark(ts[0], mark);
    Split(ts);
  }

  lemma Split(ts: seq<Tok>)
    requires ts != []
    ensures ts == [ts[0]] + ts[1..]
  {
  }

  lemma Between(a: seq<Tok>, b: seq<Tok>, c: seq<Tok>, d: seq<Tok>)
    ensures a + (b + (c + d)) == a + b + c + d
  {
  }

  lemma OneMark(k: Tok, mark: string)
    requires TokOk(k) && |mark| == 1 && mark[0] in "|&;()" && k.text != "" && k.text[0] in mark
    ensures k.text == mark
  {
  }

  lemma {:induction false} PipeTaken(ts: seq<Tok>, tail: string) returns (d: PipeDoc, more: seq<Tok>)
    requires Fits(ts) && IsGap(tail) && PipeF(Spell(ts, tail)).Ok?
    ensures PipeOk(d) && ts == PipeToks(d) + more && Fits(more)
    ensures PipeF(Spell(ts, tail)) == Ok(PipeTree(d), Skip(Spell(more, tail)))
    decreases |ts|, 2
  {
    var c, rest := ExecTaken(ts, tail);
    SkipSkip(Spell(rest, tail));
    if Peek(Spell(rest, tail), "|") {
      MarkTaken(rest, tail, "|");
      LineSkip(Spell(rest[1..], tail));
      var right;
      right, more := PipeTaken(rest[1..], tail);
      d := Piped(c, rest[0], right);
      Between(ExecToks(c), [rest[0]], PipeToks(right), more);
    } else {
      d, more := Only(c), rest;
    }
  }

  /** One & taken. */
  lemma AmpTaken(t: Tree, ts: seq<Tok>, tail: string)
    requires Fits(ts) && IsGap(tail) && Peek(Spell(ts, tail), "&")
    ensures ts != [] && ts[0].text == "&" && Fits(ts[1..])
    ensures Backs(t, Spell(ts, tail)) == Backs(Back(t), Spell(ts[1..], tail))
  {
    MarkTaken(ts, tail, "&");
    BacksSkip(Back(t), Spell(ts[1..], tail));
  }

  lemma AmpAdded(t: Tree, ts: seq<Tok>, others: seq<Tok>, more: seq<Tok>)
    requires ts != [] && ts[0].text == "&" && ts[1..] == others + more && AmpsOk(others)
    ensures ts == [ts[0]] + others + more && AmpsOk([ts[0]] + others)
    ensures Backed(t, |[ts[0]] + others|) == Backed(Back(t), |others|)
  {
  }

  lemma {:induction false} AmpsTaken(t: Tree, ts: seq<Tok>, tail: string) returns (amps: seq<Tok>, more: seq<Tok>)
    requires Fits(ts) && IsGap(tail)
    ensures AmpsOk(amps) && ts == amps + more && Fits(more)
    ensures Backs(t, Spell(ts, tail)) == Ok(Backed(t, |amps|), Skip(Spell(more, tail)))
    decreases |ts|
  {
    if Peek(Spell(ts, tail), "&") {
      AmpTaken(t, ts, tail);
      var others;
      others, more := AmpsTaken(Back(t), ts[1..], tail);
      amps := [ts[0]] + others;
      AmpAdded(t, ts, others, more);
    } else {
      amps, more := [], ts;
    }
  }

  lemma ThenToks(c: PipeDoc, amps: seq<Tok>, semi: Tok, rest: LineDoc, more: seq<Tok>)
    ensures PipeToks(c) + (amps + ([semi] + (LineToks(rest) + more))) == LineToks(Then(c, amps, semi, rest)) + more
  {
  }

  lemma LastToks(c: PipeDoc, amps: seq<Tok>, more: seq<Tok>)
    ensures PipeToks(c) + (amps + more) == LineToks(Last(c, amps)) + more
  {
  }

  lemma {:induction false} LineTaken(ts: seq<Tok>, tail: string) returns (d: LineDoc, more: seq<Tok>)
    requires Fits(ts) && IsGap(tail) && LineF(Spell(ts, tail)).Ok?
    ensures LineOk(d) && ts == LineToks(d) + more && Fits(more)
    ensures LineF(Spell(ts, tail)) == Ok(LineTree(d), Skip(Spell(more, tail)))
    decreases |ts|, 3
  {
    var c, after := PipeTaken(ts, tail);
    var amps, rest := AmpsTaken(PipeTree(c), after, tail);
    BacksSkip(PipeTree(c), Spell(after, tail));
    SkipSkip(Spell(rest, tail));
    if Peek(Spell(rest, tail), ";") {
      MarkTaken(rest, tail, ";");
      LineSkip(Spell(rest[1..], tail));
      var right;
      right, more := LineTaken(rest[1..], tail);
      d := Then(c, amps, rest[0], right);
      ThenToks(c, amps, rest[0], right, more);
    } else {
      d, more := Last(c, amps), rest;
      LastToks(c, amps, more);
    }
  }

  /** The line s is d laid out. */
  ghost predicate Writes(d: LineDoc, s: string) {
    LineOk(d) && Fits(LineToks(d)) && exists tail :: IsGap(tail) && Spell(LineToks(d), tail) == s
  }

  /** The parser makes command t of a line if and only if the line is a layout of t. */
  lemma ParsedIff(s: string, t: Tree)
    ensures Parsecmd(s) == Ok(t, "") <==> exists d :: Writes(d, s) && LineTree(d) == t
  {
    if Parsecmd(s) == Ok(t, "") {
      var ts, tail := LexAll(s);
      var d, more := LineTaken(ts, tail);
      SkipSkip(Spell(more, tail));
      if more != [] {
        Lex(more, tail);
        assert false;
      }
      assert LineToks(d) + [] == LineToks(d);
      assert Writes(d, s);
    }
    if d :| Writes(d, s) && LineTree(d) == t {
      var tail :| IsGap(tail) && Spell(LineToks(d), tail) == s;
      EveryLayout(d, tail);
    }
  }

  // ----- white space does not matter ---------------------------------------

  predicate SameTexts(a: seq<Tok>, b: seq<Tok>) {
    |a| == |b| && forall i :: 0 <= i < |a| ==> a[i].text == b[i].text
  }

  lemma SameParts(a: seq<Tok>, c: seq<Tok>, b: seq<Tok>) returns (x: seq<Tok>, y: seq<Tok>)
    requires SameTexts(a + c, b)
    ensures b == x + y && SameTexts(a, x) && SameTexts(c, y)
  {
    x, y := b[..|a|], b[|a|..];
    forall i | 0 <= i < |a| ensures a[i].text == x[i].text {
      assert (a + c)[i] == a[i];
    }
    forall i | 0 <= i < |c| ensures c[i].text == y[i].text {
      assert (a + c)[|a| + i] == c[i];
    }
  }

  lemma {:induction false} RespacedItems(t: Tree, xs: seq<Item>, b: seq<Tok>) returns (ys: seq<Item>)
    requires ItemsOk(xs) && SameTexts(ItemToks(xs), b)
    ensures ItemsOk(ys) && ItemToks(ys) == b && WordsOf(ys) == WordsOf(xs) && Wrapped(t, ys) == Wrapped(t, xs)
    decreases |xs|
  {
    if xs == [] {
      ys := [];
    } else {
      var mine := if xs[0].Arg? then [xs[0].w] else [xs[0].op, xs[0].file];
      var x, y := SameParts(mine, ItemToks(xs[1..]), b);
      var k := if xs[0].Arg? then Arg(x[0]) else Re(x[0], x[1]);
      var more := RespacedItems(if xs[0].Re? then Redir(t, xs[0].file.text, xs[0].op.text != "<") else t, xs[1..], y);
      assert ItemOk(xs[0]);
      ys := [k] + more;
      FirstItem(k, more, []);
      assert ItemToks(ys) + [] == ItemToks(ys) && ItemToks(more) + [] == ItemToks(more);
    }
  }

  lemma {:induction false} RespacedExec(d: ExecDoc, b: seq<Tok>) returns (e: ExecDoc)
    requires ExecOk(d) && SameTexts(ExecToks(d), b)
    ensures ExecOk(e) && ExecToks(e) == b && ExecTree(e) == ExecTree(d)
    decreases d
  {
    if d.Simple? {
      var items := RespacedItems(Exec(WordsOf(d.items)), d.items, b);
      e := Simple(items);
    } else {
      var x, r := SameParts([d.open] + LineToks(d.body) + [d.close], ItemToks(d.redirs), b);
      var y, c := SameParts([d.open] + LineToks(d.body), [d.close], x);
      var o, l := SameParts([d.open], LineToks(d.body), y);
      var body := RespacedLine(d.body, l);
      var redirs := RespacedItems(LineTree(d.body), d.redirs, r);
      assert o == [o[0]] && c == [c[0]];
      e := Block(o[0], body, c[0], redirs);
    }
  }

  lemma {:induction false} RespacedPipe(d: PipeDoc, b: seq<Tok>) returns (e: PipeDoc)
    requires PipeOk(d) && SameTexts(PipeToks(d), b)
    ensures PipeOk(e) && PipeToks(e) == b && PipeTree(e) == PipeTree(d)
    decreases d
  {
    if d.Only? {
      var c := RespacedExec(d.cmd, b);
      e := Only(c);
    } else {
      var l, r := SameParts(ExecToks(d.left) + [d.bar], PipeToks(d.right), b);
      var c, bar := SameParts(ExecToks(d.left), [d.bar], l);
      var left := RespacedExec(d.left, c);
      var right := RespacedPipe(d.right, r);
      e := Piped(left, bar[0], right);
      assert bar == [bar[0]];
    }
  }

  lemma {:induction false} RespacedLine(d: LineDoc, b: seq<Tok>) returns (e: LineDoc)
    requires LineOk(d) && SameTexts(LineToks(d), b)
    ensures LineOk(e) && LineToks(e) == b && LineTree(e) == LineTree(d)
    decreases d
  {
    var first, rest := SameParts(PipeToks(d.cmd) + d.amps, if d.Then? then [d.semi] + LineToks(d.rest) else [], b) by {
      LineParts(d);
    }
    var c, amps := SameParts(PipeToks(d.cmd), d.amps, first);
    var cmd := RespacedPipe(d.cmd, c);
    if d.Then? {
      var semi, r := SameParts([d.semi], LineToks(d.rest), rest);
      var after := RespacedLine(d.rest, r);
      e := Then(cmd, amps, semi[0], after);
      assert semi == [semi[0]];
    } else {
      e := Last(cmd, amps);
    }
    LineParts(e);
  }

  lemma LineParts(d: LineDoc)
    ensures LineToks(d) == PipeToks(d.cmd) + d.amps + (if d.Then? then [d.semi] + LineToks(d.rest) else [])
  {
  }

  lemma RespacedParses(a: seq<Tok>, tail: string, b: seq<Tok>, tail': string)
    requires Fits(a) && IsGap(tail) && Fits(b) && IsGap(tail') && SameTexts(a, b) && Parsecmd(Spell(a, tail)).Ok?
    ensures Parsecmd(Spell(b, tail')) == Parsecmd(Spell(a, tail))
  {
    var d, more := LineTaken(a, tail);
    SkipSkip(Spell(more, tail));
    if more != [] {
      Lex(more, tail);
      assert false;
    }
    assert LineToks(d) + [] == LineToks(d);
    var e := RespacedLine(d, b);
    EveryLayout(e, tail');
  }

  /** Two lines of the same tokens are parsed to the same command, or neither is. */
  lemma SpacesDoNotMatter(a: seq<Tok>, tail: string, b: seq<Tok>, tail': string)
    requires Fits(a) && IsGap(tail) && Fits(b) && IsGap(tail') && SameTexts(a, b)
    ensures Parsecmd(Spell(a, tail)) == Parsecmd(Spell(b, tail'))
  {
    if Parsecmd(Spell(a, tail)).Ok? {
      RespacedParses(a, tail, b, tail');
    } else if Parsecmd(Spell(b, tail')).Ok? {
      RespacedParses(b, tail', a, tail);
    }
  }

  /** With any white space around the tokens of its print a command is read back. */
  lemma PrintRespaced(t: Tree, a: seq<Tok>, tail: string, b: seq<Tok>, tail': string)
    requires Valid(t) && Fits(a) && IsGap(tail) && Spell(a, tail) == PrintLine(t)
    requires Fits(b) && IsGap(tail') && SameTexts(a, b)
    ensures Parsecmd(Spell(b, tail')) == Ok(t, "")
  {
    RoundTrip(t);
    SpacesDoNotMatter(a, tail, b, tail');
  }
}
