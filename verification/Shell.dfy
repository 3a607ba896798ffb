/**
 The shell's parser (sh.c): what it makes of a line, and that printing a command and parsing
 it gives the command back.

 A line is a string without NULs.  Functions on the rest of a line say what each part of the
 grammar does; the parser itself, with its cursor and its spans of the line, is proved to do
 that.  A panic is an Err.
 */
module Shell {

  const MAXARGS := 10

  datatype Tree =
    | Exec(args: seq<string>)
    | Redir(cmd: Tree, file: string, out: bool)   // out: opened for writing as descriptor 1, else for reading as 0
    | Pipe(left: Tree, right: Tree)
    | List(left: Tree, right: Tree)
    | Back(cmd: Tree)

  datatype Res = Err | Ok(t: Tree, rest: string)

  // ----- tokens ------------------------------------------------------------

  predicate IsSpace(c: char) {
    c in " \t\r\n\U{000b}"
  }

  predicate IsSymbol(c: char) {
    c in "<|>&;()"
  }

  predicate IsWord(c: char) {
    !IsSpace(c) && !IsSymbol(c)
  }

  function Skip(s: string): (r: string)
    ensures |r| <= |s| && (r != "" ==> !IsSpace(r[0]))
  {
    if s != "" && IsSpace(s[0]) then Skip(s[1..]) else s
  }

  function WordLen(s: string): (n: nat)
    ensures n <= |s| && (s != "" && IsWord(s[0]) ==> n > 0)
  {
    if s != "" && IsWord(s[0]) then 1 + WordLen(s[1..]) else 0
  }

  /** A token: its kind is the symbol, 'a' for a word, '+' for >>, or NUL at the end. */
  datatype Token = Token(kind: char, text: string, rest: string)

  function NextToken(s: string): (k: Token)
    ensures |k.rest| <= |s| && (k.kind != '\0' ==> |k.rest| < |s|)
  {
    var t := Skip(s);
    if t == "" then Token('\0', "", "")
    else if IsSymbol(t[0]) then
      if t[0] == '>' && |t| > 1 && t[1] == '>' then Token('+', ">>", Skip(t[2..]))
      else Token(t[0], t[..1], Skip(t[1..]))
    else
      var n := WordLen(t);
      Token('a', t[..n], Skip(t[n..]))
  }

  predicate Peek(s: string, toks: string) {
    Skip(s) != "" && Skip(s)[0] in toks
  }

  // ----- the grammar -------------------------------------------------------

  /** Redirections, each wrapped around what was there. */
  function Redirs(t: Tree, s: string): (r: Res)
    ensures r.Ok? ==> |r.rest| <= |s|
    decreases |s|
  {
    if !Peek(s, "<>") then Ok(t, Skip(s))
    else
      var k := NextToken(s);
      var f := NextToken(k.rest);
      if k.kind == '\0' || f.kind != 'a' then Err else Redirs(Redir(t, f.text, k.kind != '<'), f.rest)
  }

  /** The command with its words set: a chain of redirections leads to it. */
  function WithArgs(t: Tree, args: seq<string>): Tree {
    match t
    case Redir(c, f, o) => Redir(WithArgs(c, args), f, o)
    case _ => Exec(args)
  }

  /** The words of a command, after args. */
  function Args(t: Tree, args: seq<string>, s: string): (r: Res)
    ensures r.Ok? ==> |r.rest| <= |s|
    decreases |s|
  {
    if Peek(s, "|)&;") then Ok(WithArgs(t, args), Skip(s))
    else
      var k := NextToken(s);
      if k.kind == '\0' then Ok(WithArgs(t, args), k.rest)
      else if k.kind != 'a' then Err
      else if |args| + 1 >= MAXARGS then Err
      else
        var r := Redirs(t, k.rest);
        if r.Err? then Err else Args(r.t, args + [k.text], r.rest)
  }

  function ExecF(s: string): (r: Res)
    ensures r.Ok? ==> |r.rest| <= |s|
    decreases |s|, 1
  {
    if Peek(s, "(") then BlockF(s)
    else
      var r := Redirs(Exec([]), s);
      if r.Err? then Err else Args(r.t, [], r.rest)
  }

  function BlockF(s: string): (r: Res)
    requires Peek(s, "(")
    ensures r.Ok? ==> |r.rest| <= |s|
    decreases |s|, 0
  {
    var r := LineF(NextToken(s).rest);
    if r.Err? || !Peek(r.rest, ")") then Err else Redirs(r.t, NextToken(r.rest).rest)
  }

  function PipeF(s: string): (r: Res)
    ensures r.Ok? ==> |r.rest| <= |s|
    decreases |s|, 2
  {
    var r := ExecF(s);
    if r.Err? then Err
    else if !Peek(r.rest, "|") then Ok(r.t, Skip(r.rest))
    else
      var q := PipeF(NextToken(r.rest).rest);
      if q.Err? then Err else Ok(Pipe(r.t, q.t), q.rest)
  }

  function Backs(t: Tree, s: string): (r: Res)
    ensures r.Ok? && |r.rest| <= |s|
    decreases |s|
  {
    if Peek(s, "&") then Backs(Back(t), NextToken(s).rest) else Ok(t, Skip(s))
  }

  function LineF(s: string): (r: Res)
    ensures r.Ok? ==> |r.rest| <= |s|
    decreases |s|, 3
  {
    var r := PipeF(s);
    if r.Err? then Err
    else
      var b := Backs(r.t, r.rest);
      if !Peek(b.rest, ";") then Ok(b.t, Skip(b.rest))
      else
        var q := LineF(NextToken(b.rest).rest);
        if q.Err? then Err else Ok(List(b.t, q.t), q.rest)
  }

  /** parsecmd: a whole line, or an error if something is left over. */
  function Parsecmd(s: string): Res {
    var r := LineF(s);
    if r.Err? || Skip(r.rest) != "" then Err else Ok(r.t, "")
  }

  // ----- a printer ---------------------------------------------------------

  function Size(t: Tree): nat {
    match t
    case Exec(_) => 1
    case Redir(c, _, _) => 1 + Size(c)
    case Pipe(l, r) => 1 + Size(l) + Size(r)
    case List(l, r) => 1 + Size(l) + Size(r)
    case Back(c) => 1 + Size(c)
  }

  /** What the redirections are around, and what they look like. */
  function Base(t: Tree): (b: Tree)
    ensures Size(b) <= Size(t) && !b.Redir? && (t.Redir? ==> Size(b) < Size(t)) && (!t.Redir? ==> b == t)
  {
    if t.Redir? then Base(t.cmd) else t
  }

  function RedirText(t: Tree): string {
    if t.Redir? then RedirText(t.cmd) + (if t.out then ">" else "<") + t.file else ""
  }

  /** The same for &. */
  function Core(t: Tree): (b: Tree)
    ensures Size(b) <= Size(t) && !b.Back? && (t.Back? ==> Size(b) < Size(t)) && (!t.Back? ==> b == t)
  {
    if t.Back? then Core(t.cmd) else t
  }

  function Amps(t: Tree): string {
    if t.Back? then Amps(t.cmd) + "&" else ""
  }

  function Words(args: seq<string>): string {
    if args == [] then "" else if |args| == 1 then args[0] else args[0] + " " + Words(args[1..])
  }

  function PrintExec(t: Tree): string
    decreases Size(t), if t.Exec? || t.Redir? then 0 else if t.Pipe? then 2 else 1
  {
    var b := Base(t);
    (if b.Exec? then Words(b.args) else "(" + PrintLine(b) + ")") + RedirText(t)
  }

  function PrintPipe(t: Tree): string
    decreases Size(t), if t.Exec? || t.Redir? then 1 else if t.Pipe? then 0 else 2
  {
    if t.Pipe? then PrintExec(t.left) + "|" + PrintPipe(t.right) else PrintExec(t)
  }

  /** A line that parses to t, with parentheses only where the grammar needs them. */
  function PrintLine(t: Tree): string
    decreases Size(t), if t.Exec? || t.Redir? then 2 else if t.Pipe? then 1 else 0
  {
    if t.List? then PrintPipe(Core(t.left)) + Amps(t.left) + ";" + PrintLine(t.right) else PrintPipe(Core(t)) + Amps(t)
  }

  predicate IsToken(w: string) {
    w != "" && forall i :: 0 <= i < |w| ==> IsWord(w[i])
  }

  /** Words and file names are tokens, and no command has more than nine words. */
  predicate Valid(t: Tree) {
    match t
    case Exec(args) => |args| < MAXARGS && forall i :: 0 <= i < |args| ==> IsToken(args[i])
    case Redir(c, f, _) => Valid(c) && IsToken(f)
    case Pipe(l, r) => Valid(l) && Valid(r)
    case List(l, r) => Valid(l) && Valid(r)
    case Back(c) => Valid(c)
  }

  // ----- reading tokens back -----------------------------------------------

  predicate Stops(s: string, toks: string) {
    s == "" || s[0] in toks
  }

  lemma {:induction false} WordLenIs(w: string, s: string)
    requires (forall i :: 0 <= i < |w| ==> IsWord(w[i])) && (s == "" || !IsWord(s[0]))
    ensures WordLen(w + s) == |w|
  {
    if w == "" {
      assert w + s == s;
    } else {
      assert (w + s)[1..] == w[1..] + s;
      WordLenIs(w[1..], s);
    }
  }

  lemma ReadWord(w: string, s: string)
    requires IsToken(w) && (s == "" || !IsWord(s[0]))
    ensures NextToken(w + s) == Token('a', w, Skip(s)) && Skip(w + s) == w + s
  {
    WordLenIs(w, s);
    assert (w + s)[0] == w[0] && IsWord(w[0]);
    assert (w + s)[..|w|] == w && (w + s)[|w|..] == s;
  }

  lemma ReadSymbol(c: char, s: string)
    requires IsSymbol(c) && (c == '>' ==> s == "" || s[0] != '>')
    ensures NextToken([c] + s) == Token(c, [c], Skip(s)) && Skip([c] + s) == [c] + s
  {
    var t := [c] + s;
    assert t[0] == c && t[1..] == s && t[..1] == [c] && !IsSpace(c);
  }

  lemma SkipSkip(s: string)
    ensures Skip(Skip(s)) == Skip(s) && NextToken(Skip(s)) == NextToken(s)
  {
  }

  lemma RedirsSkip(t: Tree, s: string)
    ensures Redirs(t, Skip(s)) == Redirs(t, s)
  {
    SkipSkip(s);
  }

  lemma ArgsSkip(t: Tree, args: seq<string>, s: string)
    ensures Args(t, args, Skip(s)) == Args(t, args, s)
  {
    SkipSkip(s);
  }

  lemma LineSkip(s: string)
    ensures PipeF(Skip(s)) == PipeF(s) && LineF(Skip(s)) == LineF(s)
  {
    SkipSkip(s);
    RedirsSkip(Exec([]), s);
    assert ExecF(Skip(s)) == ExecF(s);
    assert PipeF(Skip(s)) == PipeF(s);
  }

  // ----- the round trip ----------------------------------------------------

  /** One redirection read back. */
  lemma RedirRead(c: Tree, f: string, out: bool, s: string)
    requires IsToken(f) && (s == "" || !IsWord(s[0]))
    ensures Redirs(c, (if out then ">" else "<") + f + s) == Redirs(Redir(c, f, out), s)
  {
    var op := if out then '>' else '<';
    var x := (if out then ">" else "<") + f + s;
    assert x == [op] + (f + s);
    assert (f + s)[0] == f[0] && IsWord(f[0]);
    ReadSymbol(op, f + s);
    ReadWord(f, s);
    RedirsSkip(Redir(c, f, out), s);
  }

  lemma ReadAppend(s: string)
    ensures NextToken(">>" + s) == Token('+', ">>", Skip(s)) && Peek(">>" + s, "<>")
  {
    var x := ">>" + s;
    assert x[0] == '>' && x[1] == '>' && x[2..] == s && Skip(x) == x;
  }

  /** >> reads as > does. */
  lemma AppendRead(c: Tree, f: string, s: string)
    requires IsToken(f) && (s == "" || !IsWord(s[0]))
    ensures Redirs(c, ">>" + (f + s)) == Redirs(c, ">" + f + s)
  {
    ReadAppend(f + s);
    ReadWord(f, s);
    RedirRead(c, f, true, s);
    RedirsSkip(Redir(c, f, true), s);
    RedirsStep(c, ">>" + (f + s));
  }

  lemma {:induction false} RedirsRead(t: Tree, s: string)
    requires Valid(t) && (s == "" || !IsWord(s[0]))
    ensures Redirs(Base(t), RedirText(t) + s) == Redirs(t, s)
    decreases t
  {
    if t.Redir? {
      var op := if t.out then ">" else "<";
      var s' := op + t.file + s;
      assert RedirText(t) + s == RedirText(t.cmd) + s';
      RedirsRead(t.cmd, s');
      RedirRead(t.cmd, t.file, t.out, s);
    } else {
      assert RedirText(t) + s == s;
    }
  }

  lemma {:induction false} AmpsRead(t: Tree, s: string)
    ensures Backs(Core(t), Amps(t) + s) == Backs(t, s)
    decreases t
  {
    if t.Back? {
      assert Amps(t) + s == Amps(t.cmd) + ("&" + s);
      AmpsRead(t.cmd, "&" + s);
      ReadSymbol('&', s);
      assert Backs(t.cmd, "&" + s) == Backs(t, Skip(s));
      SkipSkip(s);
    } else {
      assert Amps(t) + s == s;
    }
  }

  /** The chain of redirections of t around an empty command. */
  lemma {:induction false} WithArgsIs(t: Tree, args: seq<string>)
    requires Base(t).Exec?
    ensures Base(WithArgs(t, args)) == Exec(args) && RedirText(WithArgs(t, args)) == RedirText(t)
    ensures WithArgs(WithArgs(t, []), args) == WithArgs(t, args) && (Base(t).args == args ==> WithArgs(t, args) == t)
    ensures Valid(t) ==> Valid(WithArgs(t, []))
    decreases t
  {
    if t.Redir? {
      WithArgsIs(t.cmd, args);
    }
  }

  lemma {:induction false} ValidBase(t: Tree)
    requires Valid(t)
    ensures Valid(Base(t)) && Valid(Core(t))
    decreases t
  {
    if t.Redir? || t.Back? {
      ValidBase(t.cmd);
    }
  }

  /** Nothing but the end of a command follows. */
  lemma ArgsEnd(t: Tree, args: seq<string>, s: string)
    requires Stops(s, "|)&;")
    ensures Args(t, args, s) == Ok(WithArgs(t, args), s) && Redirs(t, s) == Ok(t, s)
  {
    if s != "" {
      assert IsSymbol(s[0]) && !IsSpace(s[0]) && Skip(s) == s;
    }
  }

  /** The last word, then the redirections, then s ... */
  lemma ArgsLast(t: Tree, done: seq<string>, w: string, s: string)
    requires Valid(t) && Base(t).Exec? && |done| + 1 < MAXARGS && Stops(s, "|)&;") && IsToken(w)
    ensures Args(Exec([]), done, w + (RedirText(t) + s)) == Ok(WithArgs(t, done + [w]), s)
  {
    var e, more := WithArgs(t, []), RedirText(t) + s;
    WithArgsIs(t, []);
    WithArgsIs(t, done + [w]);
    RedirTextStart(t, s);
    ReadWord(w, more);
    RedirsSkip(Exec([]), more);
    RedirsRead(e, s);
    ArgsEnd(e, done + [w], s);
    ArgsWord(Exec([]), done, w + more);
  }

  /** ... and any other word, with a space and a word after it. */
  lemma ArgsMore(done: seq<string>, w: string, tail: string)
    requires |done| + 1 < MAXARGS && IsToken(w) && tail != "" && IsWord(tail[0])
    ensures Args(Exec([]), done, w + (" " + tail)) == Args(Exec([]), done + [w], tail)
  {
    ReadWord(w, " " + tail);
    assert (" " + tail)[1..] == tail && Skip(" " + tail) == tail;
    assert Redirs(Exec([]), tail) == Ok(Exec([]), tail);
    ArgsWord(Exec([]), done, w + (" " + tail));
  }

  /** The words of t after `done`, then its redirections, then s. */
  lemma {:induction false} ArgsRead(t: Tree, done: seq<string>, ws: seq<string>, s: string)
    requires Valid(t) && Base(t).Exec? && ws != [] && |done| + |ws| < MAXARGS && Stops(s, "|)&;")
    requires forall i :: 0 <= i < |ws| ==> IsToken(ws[i])
    ensures Args(Exec([]), done, Words(ws) + (RedirText(t) + s)) == Ok(WithArgs(t, done + ws), s)
    decreases |ws|
  {
    var w, more := ws[0], RedirText(t) + s;
    Regroup(done, ws);
    WordsParts(ws, more);
    if |ws| == 1 {
      ArgsLast(t, done, w, s);
    } else {
      var tail := Words(ws[1..]) + more;
      WordsStart(ws[1..], more);
      ArgsMore(done, w, tail);
      ArgsRead(t, done + [w], ws[1..], s);
    }
  }

  lemma Regroup(done: seq<string>, ws: seq<string>)
    requires ws != []
    ensures done + [ws[0]] + ws[1..] == done + ws && (|ws| == 1 ==> done + ws == done + [ws[0]])
  {
    assert ws == [ws[0]] + ws[1..];
  }

  lemma WordsParts(ws: seq<string>, more: string)
    requires ws != []
    ensures |ws| == 1 ==> Words(ws) == ws[0]
    ensures |ws| > 1 ==> Words(ws) + more == ws[0] + (" " + (Words(ws[1..]) + more))
  {
    if |ws| > 1 {
      assert Words(ws) == ws[0] + " " + Words(ws[1..]);
      Associate(ws[0], " ", Words(ws[1..]), more);
    }
  }

  lemma Regroup3(a: string, b: string, c: string)
    ensures a + b + c == a + (b + c)
  {
  }

  lemma Associate(a: string, b: string, c: string, d: string)
    ensures a + b + c + d == a + (b + (c + d))
  {
  }

  /** One word read. */
  lemma ArgsWord(t: Tree, done: seq<string>, s: string)
    requires !Peek(s, "|)&;") && NextToken(s).kind == 'a' && |done| + 1 < MAXARGS
    ensures
      var k := NextToken(s);
      var r := Redirs(t, k.rest);
      Args(t, done, s) == if r.Err? then Err else Args(r.t, done + [k.text], r.rest)
  {
  }

  /** What follows the words starts no word. */
  lemma {:induction false} RedirTextHead(t: Tree)
    ensures RedirText(t) == "" || RedirText(t)[0] in "<>"
    decreases t
  {
    if t.Redir? {
      RedirTextHead(t.cmd);
    }
  }

  lemma RedirTextStart(t: Tree, s: string)
    requires Stops(s, "|)&;")
    ensures RedirText(t) + s == "" || IsSymbol((RedirText(t) + s)[0])
  {
    RedirTextHead(t);
    if RedirText(t) == "" {
      assert RedirText(t) + s == s;
    }
  }

  lemma WordsStart(ws: seq<string>, s: string)
    requires ws != [] && IsToken(ws[0])
    ensures Words(ws) + s != "" && IsWord((Words(ws) + s)[0]) && Skip(Words(ws) + s) == Words(ws) + s
  {
    assert (Words(ws) + s)[0] == ws[0][0];
  }

  /** A simple command with its redirections. */
  lemma ExecRead(t: Tree, s: string)
    requires Valid(t) && Base(t).Exec? && Stops(s, "|)&;")
    ensures ExecF(PrintExec(t) + s) == Ok(t, s)
  {
    var args, more := Base(t).args, RedirText(t) + s;
    ValidBase(t);
    WithArgsIs(t, args);
    assert PrintExec(t) + s == Words(args) + more;
    if args == [] {
      assert Words(args) + more == more;
      NoWords(t, s);
    } else {
      WordsStart(args, more);
      ArgsRead(t, [], args, s);
      assert [] + args == args;
      SomeWords(Words(args) + more);
    }
  }

  lemma NoWords(t: Tree, s: string)
    requires Valid(t) && Base(t) == Exec([]) && Stops(s, "|)&;") && WithArgs(t, []) == t
    ensures ExecF(RedirText(t) + s) == Ok(t, s)
  {
    RedirTextStart(t, s);
    RedirTextHead(t);
    PlainStart(RedirText(t) + s);
    RedirsRead(t, s);
    ArgsEnd(t, [], s);
  }

  lemma SomeWords(x: string)
    requires x != "" && IsWord(x[0])
    ensures ExecF(x) == Args(Exec([]), [], x)
  {
    assert Skip(x) == x;
    assert Redirs(Exec([]), x) == Ok(Exec([]), x);
  }

  lemma PlainStart(x: string)
    requires x == "" || (IsSymbol(x[0]) && x[0] != '(')
    ensures !Peek(x, "(")
  {
  }

  lemma BlockParts(t: Tree, s: string)
    requires !Base(t).Exec?
    ensures PrintExec(t) + s == "(" + (PrintLine(Base(t)) + (")" + (RedirText(t) + s)))
  {
    Associate("(" + PrintLine(Base(t)), ")", RedirText(t), s);
  }

  /** A command in parentheses with its redirections, given that its line reads back. */
  lemma BlockRead(t: Tree, s: string)
    requires Valid(t) && !Base(t).Exec? && Stops(s, "|)&;")
    requires LineF(PrintLine(Base(t)) + (")" + (RedirText(t) + s))) == Ok(Base(t), ")" + (RedirText(t) + s))
    ensures ExecF(PrintExec(t) + s) == Ok(t, s)
  {
    var b, more := Base(t), RedirText(t) + s;
    var x := PrintExec(t) + s;
    var y := PrintLine(b) + (")" + more);
    BlockParts(t, s);
    ReadSymbol('(', y);
    LineSkip(y);
    ReadSymbol(')', more);
    RedirsSkip(b, more);
    RedirsRead(t, s);
    ArgsEnd(t, [], s);
    assert BlockF(x) == Ok(t, s);
  }

  lemma {:induction false} ReadExec(t: Tree, s: string)
    requires Valid(t) && Stops(s, "|)&;")
    ensures ExecF(PrintExec(t) + s) == Ok(t, s)
    decreases Size(t), if t.Exec? || t.Redir? then 0 else if t.Pipe? then 2 else 1
  {
    if Base(t).Exec? {
      ExecRead(t, s);
    } else {
      ValidBase(t);
      ReadLine(Base(t), ")" + (RedirText(t) + s));
      BlockRead(t, s);
    }
  }

  lemma {:induction false} ReadPipe(t: Tree, s: string)
    requires Valid(t) && Stops(s, ")&;")
    ensures PipeF(PrintPipe(t) + s) == Ok(t, s)
    decreases Size(t), if t.Exec? || t.Redir? then 1 else if t.Pipe? then 0 else 2
  {
    if t.Pipe? {
      var x := PrintPipe(t.right) + s;
      assert PrintPipe(t) + s == PrintExec(t.left) + ("|" + x);
      ReadExec(t.left, "|" + x);
      ReadSymbol('|', x);
      LineSkip(x);
      ReadPipe(t.right, s);
    } else {
      ReadExec(t, s);
      StopsSkip(s);
    }
  }

  lemma StopsSkip(s: string)
    requires Stops(s, ")&;")
    ensures Skip(s) == s && !Peek(s, "|")
  {
  }

  /** A pipeline with its &s, up to the end of the line or of the block, or a ;. */
  lemma BackRead(t: Tree, s: string)
    requires Stops(s, ");")
    requires PipeF(PrintPipe(Core(t)) + (Amps(t) + s)) == Ok(Core(t), Amps(t) + s)
    ensures
      var r := PipeF(PrintPipe(Core(t)) + Amps(t) + s);
      r.Ok? && Backs(r.t, r.rest) == Ok(t, s)
  {
    Regroup3(PrintPipe(Core(t)), Amps(t), s);
    AmpsRead(t, s);
    assert !Peek(s, "&") && Skip(s) == s;
  }

  lemma {:induction false} AmpsStops(t: Tree, s: string)
    requires Stops(s, ");")
    ensures Stops(Amps(t) + s, ")&;")
    decreases t
  {
    AmpsHead(t);
    if Amps(t) == "" {
      assert Amps(t) + s == s;
    }
  }

  lemma {:induction false} AmpsHead(t: Tree)
    ensures Amps(t) == "" || Amps(t)[0] == '&'
    decreases t
  {
    if t.Back? {
      AmpsHead(t.cmd);
    }
  }

  lemma LineStop(x: string, t: Tree, s: string)
    requires PipeF(x).Ok? && Backs(PipeF(x).t, PipeF(x).rest) == Ok(t, s) && Stops(s, ")")
    ensures LineF(x) == Ok(t, s)
  {
    assert !Peek(s, ";") && Skip(s) == s;
  }

  lemma LineMore(x: string, l: Tree, y: string, r: Tree, s: string)
    requires PipeF(x).Ok? && Backs(PipeF(x).t, PipeF(x).rest) == Ok(l, ";" + y) && LineF(y) == Ok(r, s)
    ensures LineF(x) == Ok(List(l, r), s)
  {
    ReadSymbol(';', y);
    LineSkip(y);
  }

  lemma LineParts(t: Tree, s: string)
    ensures t.List? ==>
              PrintLine(t) + s == PrintPipe(Core(t.left)) + Amps(t.left) + (";" + (PrintLine(t.right) + s))
    ensures !t.List? ==> PrintLine(t) + s == PrintPipe(Core(t)) + Amps(t) + s
  {
    if t.List? {
      Associate(PrintPipe(Core(t.left)) + Amps(t.left), ";", PrintLine(t.right), s);
    }
  }

  lemma {:induction false} ReadLine(t: Tree, s: string)
    requires Valid(t) && Stops(s, ")")
    ensures LineF(PrintLine(t) + s) == Ok(t, s)
    decreases Size(t), if t.Exec? || t.Redir? then 2 else if t.Pipe? then 1 else 0
  {
    var c := if t.List? then t.left else t;
    var more := if t.List? then ";" + (PrintLine(t.right) + s) else s;
    var x := PrintPipe(Core(c)) + Amps(c) + more;
    ValidBase(c);
    AmpsStops(c, more);
    ReadPipe(Core(c), Amps(c) + more);
    BackRead(c, more);
    LineParts(t, s);
    if t.List? {
      ReadLine(t.right, s);
      LineMore(x, t.left, PrintLine(t.right) + s, t.right, s);
    } else {
      LineStop(x, t, s);
    }
  }

  /** Printing a command and parsing the line gives the command back. */
  lemma RoundTrip(t: Tree)
    requires Valid(t)
    ensures Parsecmd(PrintLine(t)) == Ok(t, "")
  {
    ReadLine(t, "");
    assert PrintLine(t) + "" == PrintLine(t);
  }

  // ----- what is accepted --------------------------------------------------

  lemma {:induction false} WordLenToken(s: string)
    ensures forall i :: 0 <= i < WordLen(s) ==> IsWord(s[i])
  {
    if s != "" && IsWord(s[0]) {
      WordLenToken(s[1..]);
      forall i | 0 <= i < WordLen(s) ensures IsWord(s[i]) {
        assert i > 0 ==> s[i] == s[1..][i - 1];
      }
    }
  }

  /** A word that is read is a token. */
  lemma TokenIs(s: string)
    ensures NextToken(s).kind == 'a' ==> IsToken(NextToken(s).text)
  {
    WordLenToken(Skip(s));
  }

  lemma {:induction false} RedirsValid(t: Tree, s: string)
    requires Valid(t)
    ensures Redirs(t, s).Ok? ==> Valid(Redirs(t, s).t) && Base(Redirs(t, s).t) == Base(t)
    decreases |s|
  {
    if Redirs(t, s).Ok? && Peek(s, "<>") {
      var k := NextToken(s);
      var f := NextToken(k.rest);
      TokenIs(k.rest);
      RedirsValid(Redir(t, f.text, k.kind != '<'), f.rest);
    }
  }

  lemma {:induction false} WithArgsValid(t: Tree, args: seq<string>)
    requires Valid(t) && Valid(Exec(args))
    ensures Valid(WithArgs(t, args))
    decreases t
  {
    if t.Redir? {
      WithArgsValid(t.cmd, args);
    }
  }

  lemma {:induction false} ArgsValid(t: Tree, args: seq<string>, s: string)
    requires Valid(t) && Valid(Exec(args))
    ensures Args(t, args, s).Ok? ==> Valid(Args(t, args, s).t)
    decreases |s|
  {
    WithArgsValid(t, args);
    var k := NextToken(s);
    if !Peek(s, "|)&;") && k.kind == 'a' && |args| + 1 < MAXARGS {
      TokenIs(s);
      var r := Redirs(t, k.rest);
      RedirsValid(t, k.rest);
      if r.Ok? {
        ArgsValid(r.t, args + [k.text], r.rest);
      }
    }
  }

  lemma {:induction false} ExecValid(s: string)
    ensures ExecF(s).Ok? ==> Valid(ExecF(s).t)
    decreases |s|, 1
  {
    if Peek(s, "(") {
      var r := LineF(NextToken(s).rest);
      LineValid(NextToken(s).rest);
      if r.Ok? {
        RedirsValid(r.t, NextToken(r.rest).rest);
      }
    } else {
      var r := Redirs(Exec([]), s);
      RedirsValid(Exec([]), s);
      if r.Ok? {
        ArgsValid(r.t, [], r.rest);
      }
    }
  }

  lemma {:induction false} PipeValid(s: string)
    ensures PipeF(s).Ok? ==> Valid(PipeF(s).t)
    decreases |s|, 2
  {
    var r := ExecF(s);
    ExecValid(s);
    if r.Ok? && Peek(r.rest, "|") {
      PipeValid(NextToken(r.rest).rest);
    }
  }

  lemma {:induction false} BacksValid(t: Tree, s: string)
    requires Valid(t)
    ensures Valid(Backs(t, s).t)
    decreases |s|
  {
    if Peek(s, "&") {
      BacksValid(Back(t), NextToken(s).rest);
    }
  }

  lemma {:induction false} LineValid(s: string)
    ensures LineF(s).Ok? ==> Valid(LineF(s).t)
    decreases |s|, 3
  {
    var r := PipeF(s);
    PipeValid(s);
    if r.Ok? {
      var b := Backs(r.t, r.rest);
      BacksValid(r.t, r.rest);
      if Peek(b.rest, ";") {
        LineValid(NextToken(b.rest).rest);
      }
    }
  }

  /** The commands that some line is parsed to are the valid ones. */
  lemma AcceptedIff(t: Tree)
    ensures Valid(t) <==> exists s :: Parsecmd(s) == Ok(t, "")
  {
    if Valid(t) {
      RoundTrip(t);
    }
    if s :| Parsecmd(s) == Ok(t, "") {
      LineValid(s);
    }
  }

  /** Printing what a line is parsed to gives a line that is parsed to the same. */
  lemma PrintNormalises(s: string)
    requires Parsecmd(s).Ok?
    ensures Parsecmd(PrintLine(Parsecmd(s).t)) == Parsecmd(s)
  {
    LineValid(s);
    RoundTrip(Parsecmd(s).t);
  }

  // ----- the parser --------------------------------------------------------

  /** A word in the line: from q to eq. */
  datatype Span = Span(q: nat, eq: nat)

  datatype Cmd =
    | ExecC(argv: seq<Span>)
    | RedirC(cmd: Cmd, file: Span, out: bool)
    | PipeC(left: Cmd, right: Cmd)
    | ListC(left: Cmd, right: Cmd)
    | BackC(cmd: Cmd)

  function Slice(buf: string, x: Span): string {
    if x.q <= x.eq <= |buf| then buf[x.q..x.eq] else ""
  }

  function Slices(buf: string, xs: seq<Span>): seq<string> {
    if xs == [] then [] else Slices(buf, xs[..|xs| - 1]) + [Slice(buf, xs[|xs| - 1])]
  }

  /** The command that the spans stand for. */
  function Text(buf: string, c: Cmd): Tree {
    match c
    case ExecC(argv) => Exec(Slices(buf, argv))
    case RedirC(d, f, o) => Redir(Text(buf, d), Slice(buf, f), o)
    case PipeC(l, r) => Pipe(Text(buf, l), Text(buf, r))
    case ListC(l, r) => List(Text(buf, l), Text(buf, r))
    case BackC(d) => Back(Text(buf, d))
  }

  function Spans(c: Cmd): set<Span> {
    match c
    case ExecC(argv) => set x | x in argv
    case RedirC(d, f, _) => Spans(d) + {f}
    case PipeC(l, r) => Spans(l) + Spans(r)
    case ListC(l, r) => Spans(l) + Spans(r)
    case BackC(d) => Spans(d)
  }

  /** A whole word of the line. */
  ghost predicate SpanOk(buf: string, x: Span) {
    && x.q < x.eq <= |buf| && (forall i :: x.q <= i < x.eq ==> IsWord(buf[i]))
    && (x.eq < |buf| ==> !IsWord(buf[x.eq]))
  }

  ghost predicate CmdOk(buf: string, c: Cmd) {
    forall x :: x in Spans(c) ==> SpanOk(buf, x)
  }

  /** What a parsing method has done: the command and the cursor are what the grammar says. */
  ghost predicate Parsed(buf: string, r: Res, ok: bool, c: Cmd, pos: nat) {
    && (ok <==> r.Ok?)
    && (ok ==> pos <= |buf| && CmdOk(buf, c) && Text(buf, c) == r.t && buf[pos..] == r.rest)
  }

  class Parser {
    const buf: string
    var pos: nat

    ghost predicate Valid()
      reads this
    {
      pos <= |buf|
    }

    constructor (line: string)
      ensures buf == line && pos == 0 && Valid()
    {
      buf := line;
      pos := 0;
    }

    ghost function Rest(): string
      reads this
      requires Valid()
    {
      buf[pos..]
    }

    method SkipSpace()
      requires Valid()
      modifies this
      ensures Valid() && pos >= old(pos) && Rest() == Skip(old(Rest()))
    {
      while pos < |buf| && IsSpace(buf[pos])
        invariant Valid() && pos >= old(pos) && Skip(Rest()) == Skip(old(Rest()))
        decreases |buf| - pos
      {
        assert Rest()[1..] == buf[pos + 1..];
        pos := pos + 1;
      }
    }

    method SkipWord()
      requires Valid() && pos < |buf| && IsWord(buf[pos])
      modifies this
      ensures Valid() && SpanOk(buf, Span(old(pos), pos)) && pos == old(pos) + WordLen(old(Rest()))
    {
      while pos < |buf| && IsWord(buf[pos])
        invariant Valid() && pos >= old(pos) && (forall i :: old(pos) <= i < pos ==> IsWord(buf[i]))
        invariant pos + WordLen(Rest()) == old(pos) + WordLen(old(Rest()))
        invariant pos == old(pos) ==> pos < |buf| && IsWord(buf[pos])
        decreases |buf| - pos
      {
        assert Rest()[1..] == buf[pos + 1..];
        pos := pos + 1;
      }
    }

    method Gettoken() returns (kind: char, x: Span)
      requires Valid()
      modifies this
      ensures Valid() && pos >= old(pos)
      ensures kind == NextToken(old(Rest())).kind && Rest() == NextToken(old(Rest())).rest
      ensures kind == 'a' ==> SpanOk(buf, x) && Slice(buf, x) == NextToken(old(Rest())).text
      ensures kind != '\0' ==> pos > old(pos)
    {
      SkipSpace();
      ghost var t := Rest();
      var q := pos;
      if pos == |buf| {
        kind := '\0';
      } else if IsSymbol(buf[pos]) {
        kind := buf[pos];
        pos := pos + 1;
        assert t[1..] == buf[pos..];
        if kind == '>' && pos < |buf| && buf[pos] == '>' {
          kind := '+';
          pos := pos + 1;
          assert t[2..] == buf[pos..];
        }
      } else {
        kind := 'a';
        SkipWord();
        assert t[..WordLen(t)] == buf[q..pos] && t[WordLen(t)..] == buf[pos..];
      }
      x := Span(q, pos);
      SkipSpace();
    }

    method PeekAt(toks: string) returns (b: bool)
      requires Valid()
      modifies this
      ensures Valid() && pos >= old(pos) && Rest() == Skip(old(Rest())) && b == Peek(old(Rest()), toks)
    {
      SkipSpace();
      b := pos < |buf| && buf[pos] in toks;
    }

    method RedirOne(cmd: Cmd) returns (ok: bool, ret: Cmd)
      requires Valid() && CmdOk(buf, cmd) && Peek(Rest(), "<>")
      modifies this
      ensures Valid() && pos > old(pos) && CmdOk(buf, ret) && (Chain(cmd) ==> Chain(ret))
      ensures Redirs(Text(buf, cmd), old(Rest())) == if ok then Redirs(Text(buf, ret), Rest()) else Err
    {
      RedirsStep(Text(buf, cmd), Rest());
      var tok, x := Gettoken();
      var kind;
      kind, x := Gettoken();
      ok := kind == 'a';
      ret := if ok then RedirC(cmd, x, tok != '<') else cmd;
    }

    method ParseRedirs(cmd: Cmd) returns (ok: bool, ret: Cmd)
      requires Valid() && CmdOk(buf, cmd)
      modifies this
      ensures Valid() && pos >= old(pos) && Parsed(buf, Redirs(Text(buf, cmd), old(Rest())), ok, ret, pos)
      ensures ok && Chain(cmd) ==> Chain(ret)
    {
      ret := cmd;
      ghost var goal := Redirs(Text(buf, cmd), Rest());
      while true
        invariant Valid() && pos >= old(pos) && CmdOk(buf, ret) && (Chain(cmd) ==> Chain(ret))
        invariant Redirs(Text(buf, ret), Rest()) == goal
        decreases |buf| - pos
      {
        RedirsSkip(Text(buf, ret), Rest());
        RedirsStop(Text(buf, ret), Rest());
        SkipSkip(Rest());
        var more := PeekAt("<>");
        if !more {
          return true, ret;
        }
        ok, ret := RedirOne(ret);
        if !ok {
          return;
        }
      }
    }

    /** The command at the end of a chain of redirections. */
    static function SetArgv(c: Cmd, argv: seq<Span>): Cmd {
      match c
      case RedirC(d, f, o) => RedirC(SetArgv(d, argv), f, o)
      case _ => ExecC(argv)
    }

    /** A word and the redirections after it; or the end of the line. */
    method ArgOne(chain: Cmd, argv: seq<Span>) returns (ok: bool, more: bool, chain': Cmd, argv': seq<Span>)
      requires Valid() && Chain(chain) && CmdOk(buf, chain) && SpansOk(buf, argv) && !Peek(Rest(), "|)&;")
      modifies this
      ensures Valid() && pos >= old(pos) && (more ==> pos > old(pos))
      ensures ok ==> Chain(chain') && CmdOk(buf, chain') && SpansOk(buf, argv')
      ensures ok && !more ==> chain' == chain && argv' == argv
      ensures Args(Text(buf, chain), Slices(buf, argv), old(Rest())) ==
              if !ok then Err
              else if !more then Ok(WithArgs(Text(buf, chain), Slices(buf, argv)), Rest())
              else Args(Text(buf, chain'), Slices(buf, argv'), Rest())
    {
      ArgsStep(Text(buf, chain), Slices(buf, argv), Rest());
      ok, more, chain', argv' := true, true, chain, argv;
      var kind, x := Gettoken();
      SlicesAdd(buf, argv, x);
      if kind == '\0' {
        more := false;
      } else if kind != 'a' || |argv| + 1 >= MAXARGS {
        ok := false;
      } else {
        argv' := argv + [x];
        ok, chain' := ParseRedirs(chain);
      }
    }

    method ParseArgs(cmd: Cmd) returns (ok: bool, ret: Cmd)
      requires Valid() && Chain(cmd) && CmdOk(buf, cmd)
      modifies this
      ensures Valid() && pos >= old(pos) && Parsed(buf, Args(Text(buf, cmd), [], old(Rest())), ok, ret, pos)
    {
      var chain := cmd;
      var argv: seq<Span> := [];
      ghost var goal := Args(Text(buf, cmd), [], Rest());
      while true
        invariant Valid() && pos >= old(pos) && CmdOk(buf, chain) && Chain(chain) && SpansOk(buf, argv)
        invariant Args(Text(buf, chain), Slices(buf, argv), Rest()) == goal
        decreases |buf| - pos
      {
        ArgsSkip(Text(buf, chain), Slices(buf, argv), Rest());
        SkipSkip(Rest());
        SetArgvText(buf, chain, argv);
        var stop := PeekAt("|)&;");
        if stop {
          return true, SetArgv(chain, argv);
        }
        var more;
        ok, more, chain, argv := ArgOne(chain, argv);
        if !ok {
          return false, cmd;
        }
        if !more {
          return true, SetArgv(chain, argv);
        }
      }
    }

    method ParseExec() returns (ok: bool, cmd: Cmd)
      requires Valid()
      modifies this
      ensures Valid() && pos >= old(pos) && Parsed(buf, ExecF(old(Rest())), ok, cmd, pos)
      decreases |buf| - pos, 1
    {
      ghost var s := Rest();
      SkipSkip(s);
      var block := PeekAt("(");
      ExecSkip(s);
      if block {
        ok, cmd := ParseBlock();
        return;
      }
      ok, cmd := ParseRedirs(ExecC([]));
      if ok {
        ok, cmd := ParseArgs(cmd);
      }
    }

    method ParseBlock() returns (ok: bool, cmd: Cmd)
      requires Valid() && Peek(Rest(), "(")
      modifies this
      ensures Valid() && pos >= old(pos) && Parsed(buf, BlockF(old(Rest())), ok, cmd, pos)
      decreases |buf| - pos, 0
    {
      var k, x := Gettoken();
      ok, cmd := ParseLine();
      if !ok {
        return;
      }
      BlockTail(Rest());
      var close := PeekAt(")");
      if !close {
        return false, cmd;
      }
      k, x := Gettoken();
      ok, cmd := ParseRedirs(cmd);
    }

    method ParsePipe() returns (ok: bool, cmd: Cmd)
      requires Valid()
      modifies this
      ensures Valid() && pos >= old(pos) && Parsed(buf, PipeF(old(Rest())), ok, cmd, pos)
      decreases |buf| - pos, 2
    {
      ok, cmd := ParseExec();
      if !ok {
        return;
      }
      SkipSkip(Rest());
      var more := PeekAt("|");
      if more {
        var k, x := Gettoken();
        var right;
        ok, right := ParsePipe();
        cmd := PipeC(cmd, right);
      }
    }

    method ParseBacks(cmd: Cmd) returns (ret: Cmd)
      requires Valid() && CmdOk(buf, cmd)
      modifies this
      ensures Valid() && pos >= old(pos) && Parsed(buf, Backs(Text(buf, cmd), old(Rest())), true, ret, pos)
    {
      ret := cmd;
      ghost var goal := Backs(Text(buf, cmd), Rest());
      while true
        invariant Valid() && pos >= old(pos) && CmdOk(buf, ret) && Backs(Text(buf, ret), Rest()) == goal
        decreases |buf| - pos
      {
        SkipSkip(Rest());
        var more := PeekAt("&");
        if !more {
          return;
        }
        var k, x := Gettoken();
        ret := BackC(ret);
      }
    }

    method ParseLine() returns (ok: bool, cmd: Cmd)
      requires Valid()
      modifies this
      ensures Valid() && pos >= old(pos) && Parsed(buf, LineF(old(Rest())), ok, cmd, pos)
      decreases |buf| - pos, 3
    {
      ok, cmd := ParsePipe();
      if !ok {
        return;
      }
      cmd := ParseBacks(cmd);
      SkipSkip(Rest());
      var more := PeekAt(";");
      if more {
        var k, x := Gettoken();
        var right;
        ok, right := ParseLine();
        cmd := ListC(cmd, right);
      }
    }

    /** parsecmd up to nulterminate. */
    method ParseCommand() returns (ok: bool, cmd: Cmd)
      requires Valid() && pos == 0
      modifies this
      ensures ok <==> Parsecmd(buf).Ok?
      ensures ok ==> CmdOk(buf, cmd) && Text(buf, cmd) == Parsecmd(buf).t
    {
      assert Rest() == buf;
      ok, cmd := ParseLine();
      if ok {
        var b := PeekAt("");
        ok := pos == |buf|;
      }
    }
  }

  lemma ExecSkip(s: string)
    ensures ExecF(Skip(s)) == ExecF(s) && (Peek(s, "(") ==> Peek(Skip(s), "(") && BlockF(Skip(s)) == BlockF(s))
    ensures !Peek(s, "(") ==>
              ExecF(s) == var r := Redirs(Exec([]), Skip(s)); if r.Err? then Err else Args(r.t, [], r.rest)
  {
    SkipSkip(s);
    RedirsSkip(Exec([]), s);
  }

  lemma BlockTail(s: string)
    ensures Peek(Skip(s), ")") == Peek(s, ")") && NextToken(Skip(s)) == NextToken(s)
  {
    SkipSkip(s);
  }

  // ----- nulterminate ------------------------------------------------------

  function Ends(c: Cmd): set<nat> {
    set x | x in Spans(c) :: x.eq
  }

  /** The C string at q. */
  function CString(b: string, q: nat): string
    requires q <= |b|
    decreases |b| - q
  {
    if q == |b| || b[q] == '\0' then "" else [b[q]] + CString(b, q + 1)
  }

  ghost predicate Nulled(b: string, b': string, ends: set<nat>) {
    |b'| == |b| && forall i :: 0 <= i < |b| ==> b'[i] == if i in ends then '\0' else b[i]
  }

  /** nulterminate, in the line's buffer. */
  method Nulterminate(a: array<char>, c: Cmd)
    requires forall x :: x in Spans(c) ==> x.eq < a.Length
    modifies a
    ensures Nulled(old(a[..]), a[..], Ends(c))
    decreases c
  {
    match c
    case ExecC(argv) =>
      var i := 0;
      while i < |argv|
        invariant i <= |argv| && forall k :: 0 <= k < a.Length ==>
                    a[k] == if (exists n :: 0 <= n < i && argv[n].eq == k) then '\0' else old(a[k])
      {
        assert argv[i] in Spans(c);
        a[argv[i].eq] := '\0';
        i := i + 1;
      }
      assert forall k :: k in Ends(c) <==> exists n :: 0 <= n < |argv| && argv[n].eq == k;
    case RedirC(d, f, _) =>
      Nulterminate(a, d);
      assert f in Spans(c);
      a[f.eq] := '\0';
      assert Ends(c) == Ends(d) + {f.eq};
    case PipeC(l, r) =>
      Nulterminate(a, l);
      Nulterminate(a, r);
      assert Ends(c) == Ends(l) + Ends(r);
    case ListC(l, r) =>
      Nulterminate(a, l);
      Nulterminate(a, r);
      assert Ends(c) == Ends(l) + Ends(r);
    case BackC(d) =>
      Nulterminate(a, d);
      assert Ends(c) == Ends(d);
  }

  /** No NUL lands in a word: afterwards every word of the command, read as a C string from
      its start, is the word that was parsed. */
  lemma NulsBetweenWords(buf: string, c: Cmd, b: string, x: Span)
    requires CmdOk(buf, c) && x in Spans(c) && '\0' !in buf && Nulled(buf + "\0", b, Ends(c))
    ensures forall i :: x.q <= i < x.eq ==> i !in Ends(c)
    ensures x.q <= |b| && CString(b, x.q) == Slice(buf, x)
  {
    forall y | y in Spans(c) ensures !(x.q <= y.eq < x.eq) {
      WordsApart(buf, x, y);
    }
    assert SpanOk(buf, x) && x.eq in Ends(c);
    CStringIs(buf, b, x.q, x.eq);
  }

  /** A word does not end inside another. */
  lemma WordsApart(buf: string, x: Span, y: Span)
    requires SpanOk(buf, x) && SpanOk(buf, y)
    ensures !(x.q <= y.eq < x.eq)
  {
  }

  lemma {:induction false} CStringIs(buf: string, b: string, q: nat, e: nat)
    requires q <= e < |b| && e <= |buf| && b[e] == '\0' && forall i :: q <= i < e ==> b[i] == buf[i] && b[i] != '\0'
    ensures CString(b, q) == buf[q..e]
    decreases e - q
  {
    if q < e {
      CStringIs(buf, b, q + 1, e);
    }
  }

  ghost predicate SpansOk(buf: string, xs: seq<Span>) {
    forall i :: 0 <= i < |xs| ==> SpanOk(buf, xs[i])
  }

  lemma RedirsStep(t: Tree, s: string)
    requires Peek(s, "<>")
    ensures
      var k := NextToken(s);
      var f := NextToken(k.rest);
      Redirs(t, s) == if f.kind != 'a' then Err else Redirs(Redir(t, f.text, k.kind != '<'), f.rest)
  {
  }

  lemma RedirsStop(t: Tree, s: string)
    ensures !Peek(s, "<>") ==> Redirs(t, s) == Ok(t, Skip(s))
  {
  }

  lemma ArgsStep(t: Tree, args: seq<string>, s: string)
    requires !Peek(s, "|)&;")
    ensures
      var k := NextToken(s);
      var r := Redirs(t, k.rest);
      Args(t, args, s) ==
        if k.kind == '\0' then Ok(WithArgs(t, args), k.rest)
        else if k.kind != 'a' || |args| + 1 >= MAXARGS then Err
        else if r.Err? then Err else Args(r.t, args + [k.text], r.rest)
  {
  }

  /** Redirections around a simple command. */
  ghost predicate Chain(c: Cmd) {
    c.ExecC? || (c.RedirC? && Chain(c.cmd))
  }

  lemma SlicesAdd(buf: string, xs: seq<Span>, x: Span)
    ensures Slices(buf, xs + [x]) == Slices(buf, xs) + [Slice(buf, x)] && |Slices(buf, xs)| == |xs|
  {
    assert (xs + [x])[..|xs|] == xs;
    SlicesLen(buf, xs);
  }

  lemma {:induction false} SlicesLen(buf: string, xs: seq<Span>)
    ensures |Slices(buf, xs)| == |xs|
  {
    if xs != [] { SlicesLen(buf, xs[..|xs| - 1]); }
  }

  lemma {:induction false} SetArgvText(buf: string, c: Cmd, argv: seq<Span>)
    requires CmdOk(buf, c) && Chain(c) && SpansOk(buf, argv)
    ensures Text(buf, Parser.SetArgv(c, argv)) == WithArgs(Text(buf, c), Slices(buf, argv))
    ensures CmdOk(buf, Parser.SetArgv(c, argv))
    decreases c
  {
    if c.RedirC? {
      assert c.file in Spans(c);
      assert forall x :: x in Spans(c.cmd) ==> x in Spans(c);
      SetArgvText(buf, c.cmd, argv);
    }
  }
}
