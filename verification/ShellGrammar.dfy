/** The shell's command language, read from the front of a string. */
module ShellGrammar {
  import opened Wrappers

  const WHITESPACE := " \t\r\n\U{000B}"
  const SYMBOLS := "<|>&;()"
  const MAX_ARGS := 10

  datatype Mode = Input | Output | Append

  datatype Redirection = Redirection(file: string, mode: Mode)

  datatype Command =
    | Exec(argv: seq<string>)
    | Redir(cmd: Command, to: Redirection)
    | Pipe(left: Command, right: Command)
    | List(left: Command, right: Command)
    | Back(cmd: Command)

  predicate IsWordChar(c: char) {
    c != '\0' && c !in WHITESPACE && c !in SYMBOLS
  }

  predicate IsWord(w: string) {
    w != "" && forall i | 0 <= i < |w| :: IsWordChar(w[i])
  }

  // ---------- tokens ----------

  /** The rest after leading white space. */
  function Skip(t: string): (r: string)
    ensures |r| <= |t| && (r != "" ==> r[0] !in WHITESPACE)
  {
    if t != "" && t[0] in WHITESPACE then Skip(t[1..]) else t
  }

  /** Length of the longest word at the front. */
  function WordLength(t: string): (n: nat)
    ensures n <= |t| && (n < |t| ==> !IsWordChar(t[n]))
    ensures forall i | 0 <= i < n :: IsWordChar(t[i])
  {
    if t != "" && IsWordChar(t[0]) then 1 + WordLength(t[1..]) else 0
  }

  datatype Token = End | Symbol(c: char) | Twice | Word(w: string)

  /** The token at the front, and the rest after it. */
  function Next(t: string): (r: (Token, string))
    ensures |r.1| <= |t| && (r.0 != End ==> |r.1| < |t|)
    ensures r.0.Word? ==> IsWord(r.0.w)
  {
    var u := Skip(t);
    if u == "" || u[0] == '\0' then (End, Skip(u))
    else if u[0] == '>' && |u| > 1 && u[1] == '>' then (Twice, Skip(u[2..]))
    else if u[0] in SYMBOLS then (Symbol(u[0]), Skip(u[1..]))
    else (Word(u[..WordLength(u)]), Skip(u[WordLength(u)..]))
  }

  predicate Peek(t: string, tokens: string) {
    var u := Skip(t);
    u != "" && u[0] != '\0' && u[0] in tokens
  }

  // ---------- the parser ----------

  /** Redirections at the front; each must name a file. */
  function Redirections(t: string): (r: Option<(seq<Redirection>, string)>)
    ensures r.Some? ==> |r.value.1| <= |t|
    decreases |t|
  {
    if !Peek(t, "<>") then Some(([], Skip(t)))
    else
      var (op, u) := Next(t);
      var (file, v) := Next(u);
      if !file.Word? then None
      else
        match Redirections(v)
        case None => None
        case Some((rest, w)) =>
          var mode := if op == Symbol('<') then Input else if op == Symbol('>') then Output else Append;
          Some(([Redirection(file.w, mode)] + rest, w))
  }

  /** The first redirection read is the innermost. */
  function Wrap(c: Command, rs: seq<Redirection>): Command
    decreases rs
  {
    if rs == [] then c else Wrap(Redir(c, rs[0]), rs[1..])
  }

  lemma {:induction false} WrapOneMore(c: Command, rs: seq<Redirection>, r: Redirection)
    ensures Wrap(c, rs + [r]) == Redir(Wrap(c, rs), r)
    decreases |rs|
  {
    if rs == [] {
      assert rs + [r] == [r];
    } else {
      assert (rs + [r])[1..] == rs[1..] + [r];
      WrapOneMore(Redir(c, rs[0]), rs[1..], r);
    }
  }

  lemma {:induction false} WrapAll(c: Command, rs: seq<Redirection>, more: seq<Redirection>)
    ensures Wrap(c, rs + more) == Wrap(Wrap(c, rs), more)
    decreases |rs|
  {
    if rs == [] {
      assert rs + more == more;
    } else {
      assert (rs + more)[1..] == rs[1..] + more;
      WrapAll(Redir(c, rs[0]), rs[1..], more);
    }
  }

  /** Words and redirections up to the end of a simple command, after those in `argv` and `rs`. */
  function Arguments(argv: seq<string>, rs: seq<Redirection>, t: string): (r: Option<(Command, string)>)
    ensures r.Some? ==> |r.value.1| <= |t|
    decreases |t|
  {
    if Peek(t, "|)&;") then Some((Wrap(Exec(argv), rs), Skip(t)))
    else
      var (word, u) := Next(t);
      if word == End then Some((Wrap(Exec(argv), rs), u))
      else if !word.Word? || |argv| + 1 >= MAX_ARGS then None
      else
        match Redirections(u)
        case None => None
        case Some((more, v)) => Arguments(argv + [word.w], rs + more, v)
  }

  function ParseExec(t: string): (r: Option<(Command, string)>)
    ensures r.Some? ==> |r.value.1| <= |t|
    decreases |t|, 1
  {
    if Peek(t, "(") then ParseBlock(t)
    else
      match Redirections(t)
      case None => None
      case Some((rs, u)) => Arguments([], rs, u)
  }

  function ParseBlock(t: string): (r: Option<(Command, string)>)
    ensures r.Some? ==> |r.value.1| <= |t|
    decreases |t|, 0
  {
    if !Peek(t, "(") then None
    else
      match ParseLine(Next(t).1)
      case None => None
      case Some((c, u)) =>
        if !Peek(u, ")") then None
        else
          match Redirections(Next(u).1)
          case None => None
          case Some((rs, v)) => Some((Wrap(c, rs), v))
  }

  function ParsePipe(t: string): (r: Option<(Command, string)>)
    ensures r.Some? ==> |r.value.1| <= |t|
    decreases |t|, 2
  {
    match ParseExec(t)
    case None => None
    case Some((c, u)) =>
      if !Peek(u, "|") then Some((c, Skip(u)))
      else
        match ParsePipe(Next(u).1)
        case None => None
        case Some((d, v)) => Some((Pipe(c, d), v))
  }

  function Backs(c: Command, t: string): (r: (Command, string))
    ensures |r.1| <= |t|
    decreases |t|
  {
    if Peek(t, "&") then Backs(Back(c), Next(t).1) else (c, Skip(t))
  }

  function ParseLine(t: string): (r: Option<(Command, string)>)
    ensures r.Some? ==> |r.value.1| <= |t|
    decreases |t|, 3
  {
    match ParsePipe(t)
    case None => None
    case Some((c, u)) =>
      var (d, v) := Backs(c, u);
      if !Peek(v, ";") then Some((d, Skip(v)))
      else
        match ParseLine(Next(v).1)
        case None => None
        case Some((e, w)) => Some((List(d, e), w))
  }

  /** A whole command: nothing may be left over. */
  function Parse(t: string): Option<Command> {
    match ParseLine(t)
    case None => None
    case Some((c, rest)) => if Skip(rest) == "" then Some(c) else None
  }

  // ---------- tokens at the front ----------

  lemma Unspaced(t: string)
    requires t == "" || t[0] !in WHITESPACE
    ensures Skip(t) == t
  {
  }

  lemma {:induction false} WordInFront(w: string, post: string)
    requires (forall i | 0 <= i < |w| :: IsWordChar(w[i])) && (post == "" || !IsWordChar(post[0]))
    ensures WordLength(w + post) == |w|
  {
    if w == "" {
      assert w + post == post;
    } else {
      assert (w + post)[1..] == w[1..] + post;
      WordInFront(w[1..], post);
    }
  }

  lemma NextWord(w: string, post: string)
    requires IsWord(w) && (post == "" || !IsWordChar(post[0]))
    ensures Next(w + post) == (Word(w), Skip(post))
    ensures !Peek(w + post, "|)&;") && !Peek(w + post, "<>") && !Peek(w + post, "(") && Skip(w + post) == w + post
  {
    assert IsWordChar((w + post)[0]);
    Unspaced(w + post);
    WordInFront(w, post);
    assert (w + post)[..|w|] == w && (w + post)[|w|..] == post;
  }

  lemma NextSymbol(c: char, post: string)
    requires c in SYMBOLS && (c == '>' ==> post == "" || post[0] != '>')
    ensures Next([c] + post) == (Symbol(c), Skip(post))
    ensures forall tokens :: Peek([c] + post, tokens) <==> c in tokens
    ensures Skip([c] + post) == [c] + post
  {
    Unspaced([c] + post);
    assert ([c] + post)[1..] == post;
  }

  lemma NextTwice(post: string)
    ensures Next(">>" + post) == (Twice, Skip(post)) && Peek(">>" + post, "<>")
  {
    Unspaced(">>" + post);
    assert (">>" + post)[2..] == post;
  }
}
