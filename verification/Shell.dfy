/** The shell's parser: a cursor moving over the line, and end marks written into it afterwards. */
module Shell {
  import opened Wrappers
  import opened G = ShellGrammar

  /** A token left in the line, from `q` up to `eq`. */
  datatype Span = Span(q: nat, eq: nat)

  datatype Node =
    | ExecNode(argv: seq<Span>)
    | RedirNode(cmd: Node, file: Span, mode: Mode)
    | PipeNode(left: Node, right: Node)
    | ListNode(left: Node, right: Node)
    | BackNode(cmd: Node)

  /** The span holds a whole word of the line. */
  predicate Holds(text: string, x: Span) {
    && x.q < x.eq <= |text| && IsWord(text[x.q..x.eq])
    && (x.eq < |text| ==> !IsWordChar(text[x.eq]))
  }

  predicate Spanned(text: string, n: Node) {
    match n
    case ExecNode(argv) => forall i | 0 <= i < |argv| :: Holds(text, argv[i])
    case RedirNode(c, file, _) => Spanned(text, c) && Holds(text, file)
    case PipeNode(l, r) => Spanned(text, l) && Spanned(text, r)
    case ListNode(l, r) => Spanned(text, l) && Spanned(text, r)
    case BackNode(c) => Spanned(text, c)
  }

  function Words(text: string, argv: seq<Span>): seq<string>
    requires forall i | 0 <= i < |argv| :: Holds(text, argv[i])
  {
    if argv == [] then []
    else
      var x := argv[|argv| - 1];
      assert Holds(text, x);
      Words(text, argv[..|argv| - 1]) + [text[x.q..x.eq]]
  }

  /** The command a tree of spans stands for. */
  function Text(text: string, n: Node): Command
    requires Spanned(text, n)
  {
    match n
    case ExecNode(argv) => Exec(Words(text, argv))
    case RedirNode(c, file, mode) => Redir(Text(text, c), Redirection(text[file.q..file.eq], mode))
    case PipeNode(l, r) => Pipe(Text(text, l), Text(text, r))
    case ListNode(l, r) => List(Text(text, l), Text(text, r))
    case BackNode(c) => Back(Text(text, c))
  }

  /** A tree that stands for `c`. */
  ghost predicate Stands(text: string, n: Node, c: Command) {
    Spanned(text, n) && Text(text, n) == c
  }

  /** An argument more in the exec node that `n` wraps in redirections. */
  function AddArgument(n: Node, x: Span): Node {
    match n
    case ExecNode(argv) => ExecNode(argv + [x])
    case RedirNode(c, file, mode) => RedirNode(AddArgument(c, x), file, mode)
    case _ => n
  }

  /** Adding the argument below the redirections is adding it before them. */
  lemma {:induction false} ArgumentBelow(text: string, n: Node, x: Span, argv: seq<string>, rs: seq<Redirection>)
    requires Stands(text, n, Wrap(Exec(argv), rs)) && Holds(text, x)
    ensures Stands(text, AddArgument(n, x), Wrap(Exec(argv + [text[x.q..x.eq]]), rs))
    decreases |rs|
  {
    if rs == [] {
      assert (n.argv + [x])[..|n.argv|] == n.argv;
    } else {
      var front, last := rs[..|rs| - 1], rs[|rs| - 1];
      assert rs == front + [last];
      WrapOneMore(Exec(argv), front, last);
      WrapOneMore(Exec(argv + [text[x.q..x.eq]]), front, last);
      ArgumentBelow(text, n.cmd, x, argv, front);
    }
  }

  /** The kind gettoken returns, as a token. */
  function TokenOf(kind: char, w: string): Token {
    if kind == '\0' then End
    else if kind == '+' then Twice
    else if kind == 'a' then Word(w)
    else Symbol(kind)
  }

  lemma SkipStep(text: string, i: nat)
    requires i <= |text|
    ensures i < |text| && text[i] in WHITESPACE ==> Skip(text[i..]) == Skip(text[i + 1..])
    ensures i == |text| || text[i] !in WHITESPACE ==> Skip(text[i..]) == text[i..]
  {
    if i < |text| {
      assert text[i..][1..] == text[i + 1..];
    }
  }

  lemma WordStep(text: string, i: nat)
    requires i <= |text|
    ensures i < |text| && IsWordChar(text[i]) ==> WordLength(text[i..]) == 1 + WordLength(text[i + 1..])
    ensures i == |text| || !IsWordChar(text[i]) ==> WordLength(text[i..]) == 0
  {
    if i < |text| {
      assert text[i..][1..] == text[i + 1..];
    }
  }

  class Parser {
    const line: array<char>
    const es: nat                 // where the line ends, with a NUL
    ghost const text: string      // the line before anything was marked in it
    var s: nat                    // the cursor

    ghost predicate Valid()
      reads this, line
    {
      && s <= es == |text| && es < line.Length && line[..es] == text && line[es] == '\0'
      && forall i | 0 <= i < es :: text[i] != '\0'
    }

    ghost function Rest(): string
      reads this
      requires s <= |text|
    {
      text[s..]
    }

    constructor (line: array<char>, es: nat)
      requires es < line.Length && line[es] == '\0' && forall i | 0 <= i < es :: line[i] != '\0'
      ensures Valid() && this.line == line && this.es == es && text == line[..es] && s == 0
    {
      this.line, this.es, this.text, this.s := line, es, line[..es], 0;
    }

    method SkipSpace()
      requires Valid()
      modifies this`s
      ensures Valid() && old(s) <= s && Rest() == Skip(old(Rest()))
    {
      hide Skip;
      SkipStep(text, s);
      while s < es && line[s] in WHITESPACE
        invariant Valid() && old(s) <= s && Skip(Rest()) == Skip(old(Rest()))
        decreases es - s
      {
        assert line[s] == line[..es][s];
        SkipStep(text, s);
        s := s + 1;
      }
      assert s < es ==> line[s] == line[..es][s];
      SkipStep(text, s);
    }

    /** To the end of the word the cursor is on. */
    method SkipWord()
      requires Valid()
      modifies this`s
      ensures Valid() && s == old(s) + WordLength(old(Rest()))
    {
      hide WordLength;
      WordStep(text, s);
      while s < es && line[s] !in WHITESPACE && line[s] !in SYMBOLS
        invariant Valid() && old(s) <= s && s + WordLength(Rest()) == old(s) + WordLength(old(Rest()))
        decreases es - s
      {
        assert line[s] == line[..es][s];
        WordStep(text, s);
        s := s + 1;
      }
      assert s < es ==> line[s] == line[..es][s];
      WordStep(text, s);
    }

    /** The cursor past a symbol, `>>` being one, and the kind of the token. */
    method ReadSymbol() returns (kind: char)
      requires Valid() && s < es && line[s] in SYMBOLS
      modifies this`s
      ensures Valid() && old(s) < s <= es
      ensures var u := old(Rest());
              if u[0] == '>' && |u| > 1 && u[1] == '>' then kind == '+' && s == old(s) + 2
              else kind == u[0] && s == old(s) + 1
    {
      ghost var u := Rest();
      assert line[s] == line[..es][s] == u[0];
      kind := line[s];
      s := s + 1;
      assert s < es ==> line[s] == line[..es][s] == u[1];
      if kind == '>' && line[s] == '>' {
        kind := '+';
        s := s + 1;
      }
    }

    method ReadWord() returns (x: Span)
      requires Valid() && s < es && line[s] !in SYMBOLS && line[s] !in WHITESPACE
      modifies this`s
      ensures Valid() && x == Span(old(s), s) && Holds(text, x)
      ensures s == old(s) + WordLength(old(Rest())) && text[x.q..x.eq] == old(Rest())[..WordLength(old(Rest()))]
    {
      ghost var u := Rest();
      var q := s;
      assert line[s] == line[..es][s] == u[0];
      SkipWord();
      x := Span(q, s);
      assert text[q..s] == u[..s - q];
      assert s < es ==> text[s] == u[s - q];
    }

    method GetToken() returns (kind: char, x: Span)
      requires Valid()
      modifies this`s
      ensures Valid() && old(s) <= s && x.q <= x.eq <= es
      ensures Next(old(Rest())) == (TokenOf(kind, text[x.q..x.eq]), Rest())
      ensures kind == 'a' ==> Holds(text, x)
    {
      hide Skip, WordLength;
      SkipSpace();
      var q := s;
      ghost var u := Rest();
      assert s < es ==> line[s] == line[..es][s] == u[0];
      kind := line[s];
      x := Span(q, q);
      if kind == '\0' {
      } else if kind in SYMBOLS {
        kind := ReadSymbol();
        x := Span(q, s);
      } else {
        kind := 'a';
        x := ReadWord();
      }
      assert Rest() == u[s - q..];
      SkipSpace();
    }

    method Peek(tokens: string) returns (found: bool)
      requires Valid()
      modifies this`s
      ensures Valid() && old(s) <= s && Rest() == Skip(old(Rest())) && found == G.Peek(old(Rest()), tokens)
    {
      hide Skip;
      SkipSpace();
      assert s < es ==> line[s] == line[..es][s] == Rest()[0];
      found := line[s] != '\0' && line[s] in tokens;
    }

    /** Redirections after a command; the first is wrapped around it first. */
    method ParseRedirs(cmd: Node, ghost c: Command) returns (r: Option<Node>)
      requires Valid() && Stands(text, cmd, c)
      modifies this`s
      ensures Valid() && old(s) <= s
      ensures r.None? <==> Redirections(old(Rest())) == None
      ensures r.Some? ==>
                var (rs, rest) := Redirections(old(Rest())).value;
                Stands(text, r.value, Wrap(c, rs)) && Rest() == rest
    {
      hide Skip, Next, Holds, G.Peek, SoFar, Stands, Redirections, Wrap, IsWord;
      ghost var t, rs: seq<Redirection> := Rest(), [];
      var node := cmd;
      NothingWrapped(c);
      var more := Peek("<>");
      RedirectionsSkip(t);
      while more
        invariant Valid() && old(s) <= s && more == G.Peek(Rest(), "<>")
        invariant Stands(text, node, Wrap(c, rs))
        invariant SoFar(rs, Redirections(Rest())) == Redirections(t) && Skip(Rest()) == Rest()
        decreases es - s
      {
        ghost var t1 := Rest();
        var kind, op := GetToken();
        ghost var t2 := Rest();
        var word, file := GetToken();
        RedirectionStep(t1, t2, Rest(), kind, text[op.q..op.eq], word, text[file.q..file.eq], rs);
        if word != 'a' {
          return None;
        }
        var mode := if kind == '<' then Input else if kind == '>' then Output else Append;
        ghost var to := Redirection(text[file.q..file.eq], mode);
        Redirected(text, node, file, mode, c, rs);
        node, rs := RedirNode(node, file, mode), rs + [to];
        RedirectionsSkip(Rest());
        more := Peek("<>");
      }
      RedirectionsEnd(Rest(), rs);
      r := Some(node);
    }

    /** Words and redirections up to the end of a simple command. `argv` and `rs` are those read. */
    method ParseArguments(cmd: Node, ghost rs0: seq<Redirection>) returns (r: Option<Node>)
      requires Valid() && Stands(text, cmd, Wrap(Exec([]), rs0))
      modifies this`s
      ensures Valid() && old(s) <= s
      ensures Agrees(r, Arguments([], rs0, old(Rest())))
    {
      hide Skip, Next, Holds, G.Peek, Stands, Redirections, Wrap, IsWord, Arguments;
      ghost var t, argv: seq<string>, rs := Rest(), [], rs0;
      var node, argc := cmd, 0;
      var done := Peek("|)&;");
      PeekThenArguments(t, argv, rs);
      while !done
        invariant Valid() && old(s) <= s && done == G.Peek(Rest(), "|)&;") && Skip(Rest()) == Rest()
        invariant argc == |argv| && Stands(text, node, Wrap(Exec(argv), rs))
        invariant Arguments(argv, rs, Rest()) == Arguments([], rs0, t)
        decreases es - s
      {
        ghost var t1 := Rest();
        var kind, x := GetToken();
        ArgumentStep(t1, Rest(), kind, text[x.q..x.eq], argv, rs);
        if kind == '\0' {
          StandsFor(text, node, Wrap(Exec(argv), rs));
          return Some(node);
        }
        if kind != 'a' {
          return None;
        }
        ArgumentBelow(text, node, x, argv, rs);
        node := AddArgument(node, x);
        argc := argc + 1;
        if argc >= MAX_ARGS {
          return None;
        }
        ghost var w, t2 := text[x.q..x.eq], Rest();
        argv := argv + [w];
        var more := ParseRedirs(node, Wrap(Exec(argv), rs));
        if more.None? {
          return None;
        }
        ghost var read := Redirections(t2).value.0;
        WrapAll(Exec(argv), rs, read);
        node, rs := more.value, rs + read;
        PeekThenArguments(Rest(), argv, rs);
        done := Peek("|)&;");
      }
      ArgumentsEnd(Rest(), argv, rs);
      StandsFor(text, node, Wrap(Exec(argv), rs));
      r := Some(node);
    }

    method ParseExec() returns (r: Option<Node>)
      requires Valid()
      modifies this`s
      ensures Valid() && old(s) <= s && Agrees(r, G.ParseExec(old(Rest())))
      decreases es - s, 1
    {
      hide Skip, Next, Holds, G.Peek, Stands, Redirections, Wrap, Arguments, G.ParseBlock;
      ghost var t := Rest();
      ExecSkip(t);
      TokenRead(t, "(");
      var block := Peek("(");
      if block {
        r := ParseBlock();
        return;
      }
      ghost var t1 := Rest();
      NothingRead(text);
      ExecIs(t1);
      var ret := ParseRedirs(ExecNode([]), Exec([]));
      if ret.None? {
        return None;
      }
      r := ParseArguments(ret.value, Redirections(t1).value.0);
    }

    method ParseBlock() returns (r: Option<Node>)
      requires Valid()
      modifies this`s
      ensures Valid() && old(s) <= s && Agrees(r, G.ParseBlock(old(Rest())))
      decreases es - s, 0
    {
      hide Skip, Next, Holds, G.Peek, Stands, Redirections, Wrap, G.ParseLine, G.ParseBlock;
      ghost var t := Rest();
      BlockIs(t);
      TokenRead(t, "(");
      var open := Peek("(");
      if !open {
        return None;
      }
      var _, _ := GetToken();
      ghost var t1 := Rest();
      var cmd := ParseLine();
      if cmd.None? {
        return None;
      }
      ghost var c, u := G.ParseLine(t1).value.0, Rest();
      TokenRead(u, ")");
      var close := Peek(")");
      if !close {
        return None;
      }
      var _, _ := GetToken();
      r := ParseRedirs(cmd.value, c);
    }

    method ParsePipe() returns (r: Option<Node>)
      requires Valid()
      modifies this`s
      ensures Valid() && old(s) <= s && Agrees(r, G.ParsePipe(old(Rest())))
      decreases es - s, 2
    {
      hide Skip, Next, Holds, G.Peek, Stands, G.ParseExec;
      ghost var t := Rest();
      var left := ParseExec();
      if left.None? {
        return None;
      }
      TokenRead(Rest(), "|");
      var bar := Peek("|");
      if !bar {
        return left;
      }
      TokenRead(Rest(), "|");
      var _, _ := GetToken();
      ghost var t1 := Rest();
      var right := ParsePipe();
      if right.None? {
        return None;
      }
      StandsPair(text, left.value, G.ParseExec(t).value.0, right.value, G.ParsePipe(t1).value.0);
      r := Some(PipeNode(left.value, right.value));
    }

    method ParseLine() returns (r: Option<Node>)
      requires Valid()
      modifies this`s
      ensures Valid() && old(s) <= s && Agrees(r, G.ParseLine(old(Rest())))
      decreases es - s, 3
    {
      hide Skip, Next, Holds, G.Peek, Stands, G.ParsePipe;
      ghost var t := Rest();
      var left := ParsePipe();
      if left.None? {
        return None;
      }
      ghost var c0, u := G.ParsePipe(t).value.0, Rest();
      var cmd := ParseBacks(left.value, c0);
      ghost var c := Backs(c0, u).0;
      TokenRead(Rest(), ";");
      var more := Peek(";");
      if !more {
        return Some(cmd);
      }
      TokenRead(Rest(), ";");
      var _, _ := GetToken();
      ghost var t1 := Rest();
      var right := ParseLine();
      if right.None? {
        return None;
      }
      StandsPair(text, cmd, c, right.value, G.ParseLine(t1).value.0);
      r := Some(ListNode(cmd, right.value));
    }

    method ParseBacks(cmd: Node, ghost c: Command) returns (r: Node)
      requires Valid() && Stands(text, cmd, c)
      modifies this`s
      ensures Valid() && old(s) <= s
      ensures Stands(text, r, Backs(c, old(Rest())).0) && Rest() == Backs(c, old(Rest())).1
    {
      hide Skip, Next, Holds, G.Peek, Stands;
      ghost var t, d := Rest(), c;
      r := cmd;
      BacksSkip(d, t);
      var more := Peek("&");
      while more
        invariant Valid() && old(s) <= s && more == G.Peek(Rest(), "&") && Skip(Rest()) == Rest()
        invariant Stands(text, r, d) && Backs(d, Rest()) == Backs(c, t)
        decreases es - s
      {
        TokenRead(Rest(), "&");
        var _, _ := GetToken();
        StandsBack(text, r, d);
        r, d := BackNode(r), Back(d);
        BacksSkip(d, Rest());
        more := Peek("&");
      }
    }

    /** Marks the end of every word of the command with a NUL. */
    method NulTerminate(cmd: Node)
      requires Spanned(text, cmd) && es == |text| && es < line.Length
      modifies line
      ensures forall i | 0 <= i < line.Length :: line[i] == if Marks(cmd, i) then '\0' else old(line[i])
      decreases cmd
    {
      match cmd
      case ExecNode(argv) =>
        var i := 0;
        while i < |argv|
          invariant 0 <= i <= |argv|
          invariant forall k | 0 <= k < line.Length ::
                      line[k] == if MarksIn(argv[..i], k) then '\0' else old(line[k])
        {
          assert Holds(text, argv[i]);
          assert argv[..i + 1] == argv[..i] + [argv[i]];
          line[argv[i].eq] := '\0';
          i := i + 1;
        }
        assert argv[..|argv|] == argv;
      case RedirNode(c, file, _) =>
        NulTerminate(c);
        line[file.eq] := '\0';
      case PipeNode(l, r) =>
        NulTerminate(l);
        NulTerminate(r);
      case ListNode(l, r) =>
        NulTerminate(l);
        NulTerminate(r);
      case BackNode(c) =>
        NulTerminate(c);
    }

    /** The whole line. What runcmd finds in memory afterwards, reading strings up to their NUL, is the
        command the grammar reads from the line. */
    method ParseCmd() returns (r: Option<Node>)
      requires Valid() && s == 0
      modifies this`s, line
      ensures r.None? <==> Parse(text) == None
      ensures r.Some? ==> InMemory(line[..], r.value) == Parse(text)
    {
      hide Skip, Next, Holds, G.Peek, Stands, G.ParseLine;
      assert Rest() == text;
      var cmd := ParseLine();
      if cmd.None? {
        return None;
      }
      ghost var c, rest := G.ParseLine(text).value.0, Rest();
      var _ := Peek("");
      if s != es {
        return None;
      }
      StandsFor(text, cmd.value, c);
      NulTerminate(cmd.value);
      MarkedStrings(text, line[..], cmd.value);
      r := cmd;
    }

    /** The method and the grammar agree on what was read and what is left. */
    ghost predicate Agrees(r: Option<Node>, spec: Option<(Command, string)>)
      reads this
      requires s <= |text|
    {
      && (r.None? <==> spec.None?)
      && (r.Some? ==> Stands(text, r.value, spec.value.0) && Rest() == spec.value.1)
    }
  }

  lemma StandsFor(text: string, n: Node, c: Command)
    requires Stands(text, n, c)
    ensures Spanned(text, n) && Text(text, n) == c
  {
  }

  lemma PeekThenArguments(t: string, argv: seq<string>, rs: seq<Redirection>)
    ensures Arguments(argv, rs, Skip(t)) == Arguments(argv, rs, t) && Skip(Skip(t)) == Skip(t)
    ensures G.Peek(Skip(t), "|)&;") == G.Peek(t, "|)&;")
  {
    RedirectionsSkip(t);
  }

  lemma ArgumentsEnd(t: string, argv: seq<string>, rs: seq<Redirection>)
    requires G.Peek(t, "|)&;")
    ensures Arguments(argv, rs, t) == Some((Wrap(Exec(argv), rs), Skip(t)))
  {
  }

  lemma ArgumentStep(t: string, u: string, kind: char, w: string, argv: seq<string>, rs: seq<Redirection>)
    requires !G.Peek(t, "|)&;") && Next(t) == (TokenOf(kind, w), u)
    ensures kind == '\0' ==> Arguments(argv, rs, t) == Some((Wrap(Exec(argv), rs), u))
    ensures kind != '\0' && (kind != 'a' || |argv| + 1 >= MAX_ARGS || Redirections(u).None?) ==> Arguments(argv, rs, t) == None
    ensures kind == 'a' && |argv| + 1 < MAX_ARGS && Redirections(u).Some? ==>
              Arguments(argv, rs, t) == Arguments(argv + [w], rs + Redirections(u).value.0, Redirections(u).value.1)
  {
  }

  lemma NothingWrapped(c: Command)
    ensures Wrap(c, []) == c
  {
  }

  lemma Redirected(text: string, n: Node, file: Span, mode: Mode, c: Command, rs: seq<Redirection>)
    requires Stands(text, n, Wrap(c, rs)) && Holds(text, file)
    ensures Stands(text, RedirNode(n, file, mode), Wrap(c, rs + [Redirection(text[file.q..file.eq], mode)]))
  {
    WrapOneMore(c, rs, Redirection(text[file.q..file.eq], mode));
  }

  /** The redirections still to come, after those in `rs`. */
  function SoFar(rs: seq<Redirection>, r: Option<(seq<Redirection>, string)>): Option<(seq<Redirection>, string)> {
    if r.None? then None else Some((rs + r.value.0, r.value.1))
  }

  lemma RedirectionsSkip(t: string)
    ensures Redirections(Skip(t)) == Redirections(t)
    ensures forall tokens :: G.Peek(Skip(t), tokens) == G.Peek(t, tokens)
    ensures SoFar([], Redirections(t)) == Redirections(t) && Skip(Skip(t)) == Skip(t) && Next(Skip(t)) == Next(t)
  {
    Unspaced(Skip(t));
    if Redirections(t).Some? {
      assert [] + Redirections(t).value.0 == Redirections(t).value.0;
    }
  }

  lemma RedirectionsEnd(t: string, rs: seq<Redirection>)
    requires !G.Peek(t, "<>")
    ensures SoFar(rs, Redirections(t)) == Some((rs, Skip(t)))
  {
    assert rs + [] == rs;
  }

  lemma RedirectionUnfold(t1: string, t2: string, t3: string, op: Token, file: Token)
    requires G.Peek(t1, "<>") && Next(t1) == (op, t2) && Next(t2) == (file, t3)
    ensures !file.Word? ==> Redirections(t1) == None
    ensures file.Word? && Redirections(t3).None? ==> Redirections(t1) == None
    ensures file.Word? && Redirections(t3).Some? ==>
              var mode := if op == Symbol('<') then Input else if op == Symbol('>') then Output else Append;
              Redirections(t1)
              == Some(([Redirection(file.w, mode)] + Redirections(t3).value.0, Redirections(t3).value.1))
  {
    hide Skip, G.Peek, Next;
  }

  /** One redirection read with two calls of gettoken. */
  lemma RedirectionStep(t1: string, t2: string, t3: string, kind: char, op: string, word: char, w: string, rs: seq<Redirection>)
    requires G.Peek(t1, "<>") && Next(t1) == (TokenOf(kind, op), t2) && Next(t2) == (TokenOf(word, w), t3)
    ensures word != 'a' ==> SoFar(rs, Redirections(t1)) == None
    ensures word == 'a' ==>
              var mode := if kind == '<' then Input else if kind == '>' then Output else Append;
              SoFar(rs, Redirections(t1)) == SoFar(rs + [Redirection(w, mode)], Redirections(t3))
  {
    hide Skip, G.Peek, Next, Redirections;
    RedirectionUnfold(t1, t2, t3, TokenOf(kind, op), TokenOf(word, w));
    if word == 'a' && Redirections(t3).Some? {
      var mode := if kind == '<' then Input else if kind == '>' then Output else Append;
      var x, more := Redirection(w, mode), Redirections(t3).value.0;
      assert rs + ([x] + more) == rs + [x] + more;
    }
  }

  lemma NothingRead(text: string)
    ensures Stands(text, ExecNode([]), Exec([]))
  {
  }

  lemma ExecIs(t: string)
    requires !G.Peek(t, "(")
    ensures Redirections(t).None? ==> G.ParseExec(t) == None
    ensures Redirections(t).Some? ==>
              var (rs, u) := Redirections(t).value;
              G.ParseExec(t) == Arguments([], rs, u)
  {
    hide Arguments, Redirections, G.Peek;
  }

  lemma ExecSkip(t: string)
    ensures G.ParseExec(Skip(t)) == G.ParseExec(t) && G.ParseBlock(Skip(t)) == G.ParseBlock(t)
  {
    RedirectionsSkip(t);
  }

  lemma BlockIs(t: string)
    ensures !G.Peek(t, "(") ==> G.ParseBlock(t) == None
    ensures G.Peek(t, "(") ==>
              var line := G.ParseLine(Next(t).1);
              if line.None? || !G.Peek(line.value.1, ")") || Redirections(Next(line.value.1).1).None? then
                G.ParseBlock(t) == None
              else
                var (rs, v) := Redirections(Next(line.value.1).1).value;
                G.ParseBlock(t) == Some((Wrap(line.value.0, rs), v))
  {
    hide Skip, Next, G.Peek, Redirections, Wrap, G.ParseLine;
  }

  lemma BacksSkip(c: Command, t: string)
    ensures Backs(c, Skip(t)) == Backs(c, t) && Skip(Skip(t)) == Skip(t) && G.Peek(Skip(t), "&") == G.Peek(t, "&")
    ensures !G.Peek(t, "&") ==> Backs(c, t) == (c, Skip(t))
    ensures G.Peek(t, "&") ==> Backs(c, t) == Backs(Back(c), Next(t).1)
  {
    RedirectionsSkip(t);
  }

  /** Reading the token that was seen makes progress, and white space before it does not matter. */
  lemma TokenRead(t: string, tokens: string)
    ensures G.Peek(Skip(t), tokens) == G.Peek(t, tokens) && Next(Skip(t)) == Next(t) && Skip(Skip(t)) == Skip(t)
    ensures G.Peek(t, tokens) ==> |Next(t).1| < |t|
  {
    RedirectionsSkip(t);
  }

  lemma StandsPair(text: string, l: Node, c: Command, r: Node, d: Command)
    requires Stands(text, l, c) && Stands(text, r, d)
    ensures Stands(text, PipeNode(l, r), Pipe(c, d)) && Stands(text, ListNode(l, r), List(c, d))
  {
  }

  lemma StandsBack(text: string, n: Node, c: Command)
    requires Stands(text, n, c)
    ensures Stands(text, BackNode(n), Back(c))
  {
  }

  // ---------- end marks ----------

  ghost predicate MarksIn(argv: seq<Span>, k: nat) {
    exists i :: 0 <= i < |argv| && argv[i].eq == k
  }

  /** The positions the marks of a command go to. */
  ghost predicate Marks(n: Node, k: nat) {
    match n
    case ExecNode(argv) => MarksIn(argv, k)
    case RedirNode(c, file, _) => Marks(c, k) || file.eq == k
    case PipeNode(l, r) => Marks(l, k) || Marks(r, k)
    case ListNode(l, r) => Marks(l, k) || Marks(r, k)
    case BackNode(c) => Marks(c, k)
  }

  /** The C string at `q`. */
  function StringAt(memory: string, q: nat): string
    requires q <= |memory|
    decreases |memory| - q
  {
    if q == |memory| || memory[q] == '\0' then "" else [memory[q]] + StringAt(memory, q + 1)
  }

  function StringsAt(memory: string, argv: seq<Span>): Option<seq<string>> {
    if argv == [] then Some([])
    else
      var x := argv[|argv| - 1];
      var front := StringsAt(memory, argv[..|argv| - 1]);
      if front.None? || x.q > |memory| then None else Some(front.value + [StringAt(memory, x.q)])
  }

  /** The command as runcmd sees it, every argument and file name a C string in memory. */
  function InMemory(memory: string, n: Node): Option<Command> {
    match n
    case ExecNode(argv) =>
      var strings := StringsAt(memory, argv);
      if strings.None? then None else Some(Exec(strings.value))
    case RedirNode(c, file, mode) =>
      var inner := InMemory(memory, c);
      if inner.None? || file.q > |memory| then None
      else Some(Redir(inner.value, Redirection(StringAt(memory, file.q), mode)))
    case PipeNode(l, r) =>
      var left, right := InMemory(memory, l), InMemory(memory, r);
      if left.None? || right.None? then None else Some(Pipe(left.value, right.value))
    case ListNode(l, r) =>
      var left, right := InMemory(memory, l), InMemory(memory, r);
      if left.None? || right.None? then None else Some(List(left.value, right.value))
    case BackNode(c) =>
      var inner := InMemory(memory, c);
      if inner.None? then None else Some(Back(inner.value))
  }

  /** An end mark is never inside a word: it stands where a word ended. */
  lemma {:induction false} MarksOutside(text: string, n: Node, k: nat)
    requires Spanned(text, n) && Marks(n, k)
    ensures k <= |text| && (k < |text| ==> !IsWordChar(text[k]))
  {
    match n
    case ExecNode(argv) =>
      var i :| 0 <= i < |argv| && argv[i].eq == k;
      assert Holds(text, argv[i]);
    case RedirNode(c, file, _) =>
      if Marks(c, k) {
        MarksOutside(text, c, k);
      }
    case PipeNode(l, r) =>
      if Marks(l, k) {
        MarksOutside(text, l, k);
      } else {
        MarksOutside(text, r, k);
      }
    case ListNode(l, r) =>
      if Marks(l, k) {
        MarksOutside(text, l, k);
      } else {
        MarksOutside(text, r, k);
      }
    case BackNode(c) => MarksOutside(text, c, k);
  }

  /** Memory where every word of the line is intact. */
  ghost predicate Intact(text: string, memory: string) {
    |text| < |memory| && forall i | 0 <= i < |text| && IsWordChar(text[i]) :: memory[i] == text[i]
  }

  lemma {:induction false} WordReadBack(text: string, memory: string, q: nat, eq: nat)
    requires Intact(text, memory) && q <= eq <= |text| && memory[eq] == '\0'
    requires forall i | q <= i < eq :: IsWordChar(text[i])
    ensures StringAt(memory, q) == text[q..eq]
    decreases eq - q
  {
    if q < eq {
      WordReadBack(text, memory, q + 1, eq);
      assert text[q..eq] == [text[q]] + text[q + 1..eq];
    }
  }

  lemma SpanReadBack(text: string, memory: string, x: Span)
    requires Intact(text, memory) && Holds(text, x) && memory[x.eq] == '\0'
    ensures StringAt(memory, x.q) == text[x.q..x.eq]
  {
    forall i | x.q <= i < x.eq ensures IsWordChar(text[i]) {
      assert text[x.q..x.eq][i - x.q] == text[i];
    }
    WordReadBack(text, memory, x.q, x.eq);
  }

  lemma {:induction false} ArgumentsReadBack(text: string, memory: string, argv: seq<Span>)
    requires Intact(text, memory) && (forall i | 0 <= i < |argv| :: Holds(text, argv[i]))
    requires forall k: nat | k < |memory| && MarksIn(argv, k) :: memory[k] == '\0'
    ensures StringsAt(memory, argv) == Some(Words(text, argv))
    decreases |argv|
  {
    if argv != [] {
      var front, x := argv[..|argv| - 1], argv[|argv| - 1];
      assert Holds(text, x);
      assert MarksIn(argv, x.eq);
      forall k: nat | k < |memory| && MarksIn(front, k) ensures memory[k] == '\0' {
        var i :| 0 <= i < |front| && front[i].eq == k;
        assert argv[i].eq == k;
      }
      ArgumentsReadBack(text, memory, front);
      SpanReadBack(text, memory, x);
    }
  }

  lemma {:induction false} CommandReadBack(text: string, memory: string, n: Node)
    requires Intact(text, memory) && Spanned(text, n)
    requires forall k: nat | k < |memory| && Marks(n, k) :: memory[k] == '\0'
    ensures InMemory(memory, n) == Some(Text(text, n))
  {
    match n
    case ExecNode(argv) => ArgumentsReadBack(text, memory, argv);
    case RedirNode(c, file, _) =>
      CommandReadBack(text, memory, c);
      assert Marks(n, file.eq);
      SpanReadBack(text, memory, file);
    case PipeNode(l, r) =>
      CommandReadBack(text, memory, l);
      CommandReadBack(text, memory, r);
    case ListNode(l, r) =>
      CommandReadBack(text, memory, l);
      CommandReadBack(text, memory, r);
    case BackNode(c) => CommandReadBack(text, memory, c);
  }

  /** With its end marks written, a command reads in memory as it read in the line. */
  lemma MarkedStrings(text: string, memory: string, n: Node)
    requires |text| < |memory| && Spanned(text, n)
    requires forall i: nat | i < |memory| && Marks(n, i) :: memory[i] == '\0'
    requires forall i: nat | i < |text| && !Marks(n, i) :: memory[i] == text[i]
    ensures InMemory(memory, n) == Some(Text(text, n))
  {
    forall i: nat | i < |text| && IsWordChar(text[i]) ensures memory[i] == text[i] {
      if Marks(n, i) {
        MarksOutside(text, n, i);
      }
    }
    CommandReadBack(text, memory, n);
  }
}
