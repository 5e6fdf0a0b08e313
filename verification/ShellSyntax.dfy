/** The command language as it is written, white space and all, and that the parser reads exactly this. */
module ShellSyntax {
  import opened Wrappers
  import opened ShellGrammar

  /** A redirection: white space, an operator, white space, a file. */
  datatype Sign = Sign(space: string, mode: Mode, gap: string, file: string)

  datatype Item = Argument(space: string, word: string) | Target(sign: Sign)

  /** A simple command, or a line in parentheses. */
  datatype Unit = Plain(items: seq<Item>) | Block(open: string, line: Line, close: string, signs: seq<Sign>)

  datatype Pipeline = Single(unit: Unit) | Bar(unit: Unit, space: string, rest: Pipeline)

  /** A pipeline, any number of "&", and perhaps ";" and another line. */
  datatype Line = Line(pipeline: Pipeline, amps: seq<string>, rest: Rest)

  datatype Rest = Nothing | Then(space: string, line: Line)

  // ---------- the text ----------

  predicate BlankChar(c: char) {
    c == ' ' || c == '\t' || c == '\r' || c == '\n' || c == '\U{000B}'
  }

  predicate Blank(s: string) {
    forall i | 0 <= i < |s| :: BlankChar(s[i])
  }

  /** Some characters, none of which is white space, the end of the string, or means something. */
  predicate WordText(w: string) {
    w != "" && forall i | 0 <= i < |w| :: !BlankChar(w[i]) && w[i] != '\0' && w[i] !in "<|>&;()"
  }

  function Operator(mode: Mode): string {
    match mode
    case Input => "<"
    case Output => ">"
    case Append => ">>"
  }

  function SignText(x: Sign): string {
    x.space + (Operator(x.mode) + (x.gap + x.file))
  }

  function SignsText(xs: seq<Sign>): string {
    if xs == [] then "" else SignText(xs[0]) + SignsText(xs[1..])
  }

  function ItemText(x: Item): string {
    match x
    case Argument(space, word) => space + word
    case Target(sign) => SignText(sign)
  }

  function ItemsText(xs: seq<Item>): string {
    if xs == [] then "" else ItemText(xs[0]) + ItemsText(xs[1..])
  }

  function UnitText(u: Unit): string {
    match u
    case Plain(items) => ItemsText(items)
    case Block(open, line, close, signs) => open + ("(" + (LineText(line) + (close + (")" + SignsText(signs)))))
  }

  function PipelineText(p: Pipeline): string {
    match p
    case Single(u) => UnitText(u)
    case Bar(u, space, rest) => UnitText(u) + (space + ("|" + PipelineText(rest)))
  }

  function AmpsText(amps: seq<string>): string {
    if amps == [] then "" else amps[0] + ("&" + AmpsText(amps[1..]))
  }

  function RestText(r: Rest): string {
    match r
    case Nothing => ""
    case Then(space, line) => space + (";" + LineText(line))
  }

  function LineText(l: Line): string {
    PipelineText(l.pipeline) + (AmpsText(l.amps) + RestText(l.rest))
  }

  // ---------- what may be written ----------

  predicate SignOk(x: Sign) {
    Blank(x.space) && Blank(x.gap) && WordText(x.file)
  }

  function Count(xs: seq<Item>): nat {
    if xs == [] then 0 else (if xs[0].Argument? then 1 else 0) + Count(xs[1..])
  }

  predicate ItemOk(x: Item) {
    match x
    case Argument(space, word) => Blank(space) && WordText(word)
    case Target(sign) => SignOk(sign)
  }

  /** Words are kept apart by white space, unless something else stands between them; nine are the most. */
  predicate ItemsOk(xs: seq<Item>) {
    && (forall i | 0 <= i < |xs| :: ItemOk(xs[i]))
    && (forall i | 0 < i < |xs| :: xs[i].Argument? ==> xs[i].space != "")
    && Count(xs) < 10
  }

  predicate UnitOk(u: Unit) {
    match u
    case Plain(items) => ItemsOk(items)
    case Block(open, line, close, signs) =>
      Blank(open) && LineOk(line) && Blank(close) && forall i | 0 <= i < |signs| :: SignOk(signs[i])
  }

  predicate PipelineOk(p: Pipeline) {
    match p
    case Single(u) => UnitOk(u)
    case Bar(u, space, rest) => UnitOk(u) && Blank(space) && PipelineOk(rest)
  }

  predicate LineOk(l: Line) {
    && PipelineOk(l.pipeline) && (forall i | 0 <= i < |l.amps| :: Blank(l.amps[i]))
    && match l.rest case Nothing => true case Then(space, line) => Blank(space) && LineOk(line)
  }

  // ---------- what it means ----------

  /** The last redirection is the outermost. */
  function Around(c: Command, xs: seq<Sign>): Command {
    if xs == [] then c else Redir(Around(c, xs[..|xs| - 1]), Redirection(xs[|xs| - 1].file, xs[|xs| - 1].mode))
  }

  function WordsIn(xs: seq<Item>): seq<string> {
    if xs == [] then []
    else (match xs[0] case Argument(_, word) => [word] case Target(_) => []) + WordsIn(xs[1..])
  }

  function SignsIn(xs: seq<Item>): seq<Sign> {
    if xs == [] then []
    else (match xs[0] case Argument(_, _) => [] case Target(sign) => [sign]) + SignsIn(xs[1..])
  }

  function UnitTree(u: Unit): Command {
    match u
    case Plain(items) => Around(Exec(WordsIn(items)), SignsIn(items))
    case Block(_, line, _, signs) => Around(LineTree(line), signs)
  }

  /** A pipeline feeds its first command into the rest. */
  function PipelineTree(p: Pipeline): Command {
    match p
    case Single(u) => UnitTree(u)
    case Bar(u, _, rest) => Pipe(UnitTree(u), PipelineTree(rest))
  }

  function Background(c: Command, n: nat): Command {
    if n == 0 then c else Back(Background(c, n - 1))
  }

  /** "&" is for the pipeline before it, not for the lines before that. */
  function LineTree(l: Line): Command {
    var c := Background(PipelineTree(l.pipeline), |l.amps|);
    match l.rest
    case Nothing => c
    case Then(_, line) => List(c, LineTree(line))
  }

  // ---------- white space in front ----------

  lemma SameBlanks(c: char)
    ensures BlankChar(c) <==> c in WHITESPACE
  {
  }

  lemma SameWords(w: string)
    ensures WordText(w) <==> IsWord(w)
  {
    forall c: char ensures (!BlankChar(c) && c != '\0' && c !in "<|>&;()") <==> IsWordChar(c) {
      SameBlanks(c);
    }
  }

  lemma {:induction false} SkipBlank(s: string, t: string)
    requires Blank(s)
    ensures Skip(s + t) == Skip(t)
  {
    if s == "" {
      assert s + t == t;
    } else {
      SameBlanks(s[0]);
      assert (s + t)[1..] == s[1..] + t;
      SkipBlank(s[1..], t);
    }
  }

  lemma {:induction false} SkipTwice(t: string)
    ensures Skip(Skip(t)) == Skip(t)
  {
    if t != "" && t[0] in WHITESPACE {
      SkipTwice(t[1..]);
    }
  }

  /** What was skipped. */
  lemma {:induction false} Skipped(t: string) returns (s: string)
    ensures Blank(s) && t == s + Skip(t)
  {
    if t != "" && t[0] in WHITESPACE {
      SameBlanks(t[0]);
      var rest := Skipped(t[1..]);
      s := [t[0]] + rest;
    } else {
      s := "";
    }
  }

  /** No part of the parser sees white space in front. */
  lemma SameAfterSkip(t: string, u: string)
    requires Skip(t) == Skip(u)
    ensures Next(t) == Next(u) && forall tokens: string :: Peek(t, tokens) == Peek(u, tokens)
    ensures Redirections(t) == Redirections(u) && ParseBlock(t) == ParseBlock(u) && ParseExec(t) == ParseExec(u)
    ensures ParsePipe(t) == ParsePipe(u) && ParseLine(t) == ParseLine(u)
    ensures forall c: Command :: Backs(c, t) == Backs(c, u)
    ensures forall argv: seq<string>, rs: seq<Redirection> :: Arguments(argv, rs, t) == Arguments(argv, rs, u)
  {
    hide ParseBlock, ParseExec, ParsePipe, ParseLine, Arguments, Backs, Redirections;
    SameTokens(t, u);
    SameSimple(t, u);
    SameParts(t, u);
  }

  lemma SameTokens(t: string, u: string)
    requires Skip(t) == Skip(u)
    ensures Next(t) == Next(u) && forall tokens: string :: Peek(t, tokens) == Peek(u, tokens)
  {
    hide Skip;
  }

  lemma SameSimple(t: string, u: string)
    requires Skip(t) == Skip(u) && Next(t) == Next(u) && forall tokens: string :: Peek(t, tokens) == Peek(u, tokens)
    ensures Redirections(t) == Redirections(u) && forall c: Command :: Backs(c, t) == Backs(c, u)
    ensures forall argv: seq<string>, rs: seq<Redirection> :: Arguments(argv, rs, t) == Arguments(argv, rs, u)
  {
    hide Skip, Next, Peek, Wrap;
  }

  lemma SameParts(t: string, u: string)
    requires Skip(t) == Skip(u) && Next(t) == Next(u) && forall tokens: string :: Peek(t, tokens) == Peek(u, tokens)
    requires Redirections(t) == Redirections(u) && forall c: Command :: Backs(c, t) == Backs(c, u)
    ensures ParseBlock(t) == ParseBlock(u) && ParseExec(t) == ParseExec(u)
    ensures ParsePipe(t) == ParsePipe(u) && ParseLine(t) == ParseLine(u)
  {
    hide Skip, Next, Peek, Redirections, Wrap, Backs, Arguments;
    assert ParseBlock(t) == ParseBlock(u);
    assert ParseExec(t) == ParseExec(u);
    assert ParsePipe(t) == ParsePipe(u);
  }

  // ---------- reading what is written: tokens ----------

  /** After white space `t` ends or goes on with one of these marks. */
  predicate Follows(t: string, marks: string) {
    Skip(t) == "" || Skip(t)[0] in marks
  }

  /** No word goes on here. */
  predicate Apart(t: string) {
    t == "" || !IsWordChar(t[0])
  }

  lemma FollowsApart(t: string, marks: string)
    requires Follows(t, marks) && forall c | c in marks :: c in SYMBOLS
    ensures Apart(t)
  {
  }

  lemma BlankApart(space: string, t: string)
    requires Blank(space) && (space != "" || Apart(t))
    ensures Apart(space + t)
  {
    if space == "" {
      assert space + t == t;
    } else {
      SameBlanks(space[0]);
    }
  }

  lemma SymbolRead(space: string, c: char, t: string)
    requires Blank(space) && c in SYMBOLS && (c == '>' ==> t == "" || t[0] != '>')
    ensures var all := space + ([c] + t);
            && Next(all) == (Symbol(c), Skip(t)) && (forall tokens :: Peek(all, tokens) <==> c in tokens)
            && Skip(all) == [c] + t && Apart(all)
  {
    hide Next, Peek, Skip;
    NextSymbol(c, t);
    SkipBlank(space, [c] + t);
    SameAfterSkip(space + ([c] + t), [c] + t);
    BlankApart(space, [c] + t);
  }

  lemma WordRead(space: string, w: string, t: string)
    requires Blank(space) && WordText(w) && Apart(t)
    ensures var all := space + (w + t);
            && Next(all) == (Word(w), Skip(t)) && Skip(all) == w + t
            && !Peek(all, "|)&;") && !Peek(all, "<>") && !Peek(all, "(")
  {
    hide Next, Peek, Skip;
    SameWords(w);
    NextWord(w, t);
    SkipBlank(space, w + t);
    SameAfterSkip(space + (w + t), w + t);
  }

  lemma OperatorRead(space: string, mode: Mode, t: string)
    requires Blank(space) && (t == "" || t[0] != '>')
    ensures var all := space + (Operator(mode) + t);
            && Next(all) == (match mode case Input => Symbol('<') case Output => Symbol('>') case Append => Twice, Skip(t))
            && Peek(all, "<>") && !Peek(all, "(") && Apart(all)
  {
    hide Next, Peek, Skip;
    match mode
    case Input => SymbolRead(space, '<', t);
    case Output => SymbolRead(space, '>', t);
    case Append =>
      NextTwice(t);
      SkipBlank(space, ">>" + t);
      SameAfterSkip(space + (">>" + t), ">>" + t);
      BlankApart(space, ">>" + t);
      TwicePeek(t);
  }

  lemma TwicePeek(t: string)
    ensures !Peek(">>" + t, "(")
  {
    Unspaced(">>" + t);
  }

  // ---------- redirections ----------

  function Redirects(xs: seq<Sign>): (r: seq<Redirection>)
    ensures |r| == |xs| && forall i | 0 <= i < |xs| :: r[i] == Redirection(xs[i].file, xs[i].mode)
  {
    seq(|xs|, i requires 0 <= i < |xs| => Redirection(xs[i].file, xs[i].mode))
  }

  lemma {:induction false} AroundIsWrap(c: Command, xs: seq<Sign>)
    ensures Around(c, xs) == Wrap(c, Redirects(xs))
    decreases |xs|
  {
    if xs != [] {
      var front, last := xs[..|xs| - 1], xs[|xs| - 1];
      AroundIsWrap(c, front);
      assert Redirects(xs) == Redirects(front) + [Redirection(last.file, last.mode)];
      WrapOneMore(c, Redirects(front), Redirection(last.file, last.mode));
    }
  }

  lemma SignRead(x: Sign, t: string)
    requires SignOk(x) && Apart(t)
    ensures Redirections(SignText(x) + t)
         == match Redirections(t)
            case None => None
            case Some((rest, w)) => Some(([Redirection(x.file, x.mode)] + rest, w))
    ensures Apart(SignText(x) + t) && !Peek(SignText(x) + t, "(")
  {
    hide Next, Peek, Skip;
    var all, after := SignText(x) + t, x.gap + (x.file + t);
    assert all == x.space + (Operator(x.mode) + after);
    FileStart(x, t);
    OperatorRead(x.space, x.mode, after);
    WordRead(x.gap, x.file, t);
    SkipTwice(after);
    SameAfterSkip(Skip(after), after);
    SkipTwice(t);
    SameAfterSkip(Skip(t), t);
    OneSign(x, all, after, t);
  }

  lemma FileStart(x: Sign, t: string)
    requires SignOk(x)
    ensures var after := x.gap + (x.file + t); after != "" && after[0] != '>'
  {
    if x.gap != "" {
      SameBlanks(x.gap[0]);
    } else {
      assert x.gap + (x.file + t) == x.file + t;
    }
  }

  lemma OneSign(x: Sign, all: string, after: string, t: string)
    requires Peek(all, "<>") && Next(Next(all).1) == (Word(x.file), Skip(t)) && Redirections(Skip(t)) == Redirections(t)
    requires Next(all).0 == match x.mode case Input => Symbol('<') case Output => Symbol('>') case Append => Twice
    ensures Redirections(all)
         == match Redirections(t)
            case None => None
            case Some((rest, w)) => Some(([Redirection(x.file, x.mode)] + rest, w))
  {
    hide Next, Peek, Skip;
  }

  lemma NoSign(post: string)
    requires Follows(post, "|)&;")
    ensures Redirections(post) == Some(([], Skip(post))) && Apart(post) && !Peek(post, "(")
    ensures forall tokens: string :: Peek(post, tokens) ==> Skip(post) != "" && Skip(post)[0] in tokens
  {
    FollowsApart(post, "|)&;");
  }

  lemma SignsTextIs(xs: seq<Sign>, post: string)
    requires xs != []
    ensures SignsText(xs) + post == SignText(xs[0]) + (SignsText(xs[1..]) + post)
  {
    hide SignText;
    assert SignsText(xs) == SignText(xs[0]) + SignsText(xs[1..]);
  }

  lemma {:induction false} SignsRead(xs: seq<Sign>, post: string)
    requires (forall i | 0 <= i < |xs| :: SignOk(xs[i])) && Follows(post, "|)&;")
    ensures Redirections(SignsText(xs) + post) == Some((Redirects(xs), Skip(post))) && Apart(SignsText(xs) + post)
  {
    hide Redirections, Skip, Follows, SignText, SignOk, Apart;
    NoSign(post);
    if xs == [] {
      assert SignsText(xs) + post == post && Redirects(xs) == [];
    } else {
      SignsRead(xs[1..], post);
      SignsTextIs(xs, post);
      SignRead(xs[0], SignsText(xs[1..]) + post);
      assert Redirects(xs) == [Redirection(xs[0].file, xs[0].mode)] + Redirects(xs[1..]);
    }
  }

  // ---------- simple commands ----------

  /** Redirections, and then arguments. */
  function Onward(argv: seq<string>, rs: seq<Redirection>, t: string): Option<(Command, string)> {
    match Redirections(t)
    case None => None
    case Some((more, v)) => Arguments(argv, rs + more, v)
  }

  lemma NothingMore(argv: seq<string>, rs: seq<Redirection>, post: string)
    requires Follows(post, "|)&;")
    ensures Onward(argv, rs, post) == Some((Wrap(Exec(argv), rs), Skip(post)))
  {
    NoSign(post);
    SkipTwice(post);
    var none: seq<Redirection> := [];
    assert rs + none == rs;
  }

  lemma OneTarget(argv: seq<string>, rs: seq<Redirection>, x: Sign, t: string)
    requires SignOk(x) && Apart(t)
    ensures Onward(argv, rs, SignText(x) + t) == Onward(argv, rs + [Redirection(x.file, x.mode)], t)
  {
    hide Redirections, Arguments, Apart, SignText;
    SignRead(x, t);
    var r := Redirection(x.file, x.mode);
    if Redirections(t).Some? {
      var more := Redirections(t).value.0;
      assert rs + ([r] + more) == (rs + [r]) + more;
    }
  }

  lemma OneWord(argv: seq<string>, rs: seq<Redirection>, space: string, w: string, t: string)
    requires Blank(space) && WordText(w) && Apart(t) && |argv| + 1 < 10
    ensures Onward(argv, rs, space + (w + t)) == Onward(argv + [w], rs, t)
  {
    hide Next, Peek, Skip, Apart;
    var all := space + (w + t);
    WordRead(space, w, t);
    SkipTwice(t);
    SameAfterSkip(Skip(t), t);
    SkipTwice(all);
    SameAfterSkip(Skip(all), all);
    var none: seq<Redirection> := [];
    assert rs + none == rs;
  }

  /** What reading `xs` and then `post` gives. */
  function ReadItems(argv: seq<string>, rs: seq<Redirection>, xs: seq<Item>, post: string): Option<(Command, string)> {
    Some((Wrap(Exec(argv + WordsIn(xs)), rs + Redirects(SignsIn(xs))), Skip(post)))
  }

  lemma Joined(a: string, b: string, c: string, d: string)
    ensures ((a + b) + c) + d == a + (b + (c + d))
  {
  }

  lemma ItemsTextIs(xs: seq<Item>)
    requires xs != []
    ensures ItemsText(xs) == ItemText(xs[0]) + ItemsText(xs[1..])
  {
  }

  lemma ArgumentText(space: string, w: string, xs: seq<Item>, post: string)
    requires xs != [] && xs[0] == Argument(space, w)
    ensures ItemsText(xs) + post == space + (w + (ItemsText(xs[1..]) + post))
  {
    hide ItemsText;
    ItemsTextIs(xs);
    Joined(space, w, ItemsText(xs[1..]), post);
  }

  lemma ArgumentTree(argv: seq<string>, space: string, w: string, xs: seq<Item>)
    requires xs != [] && xs[0] == Argument(space, w)
    ensures (argv + [w]) + WordsIn(xs[1..]) == argv + WordsIn(xs) && SignsIn(xs) == SignsIn(xs[1..])
  {
    var none: seq<Sign> := [];
    assert none + SignsIn(xs[1..]) == SignsIn(xs[1..]);
  }

  lemma ArgumentFirst(argv: seq<string>, rs: seq<Redirection>, space: string, w: string, xs: seq<Item>, post: string)
    requires xs != [] && xs[0] == Argument(space, w) && Blank(space) && WordText(w) && |argv| + 1 < 10
    requires Apart(ItemsText(xs[1..]) + post)
    requires Onward(argv + [w], rs, ItemsText(xs[1..]) + post) == ReadItems(argv + [w], rs, xs[1..], post)
    ensures Onward(argv, rs, ItemsText(xs) + post) == ReadItems(argv, rs, xs, post)
    ensures space != "" ==> Apart(ItemsText(xs) + post)
    ensures !Peek(ItemsText(xs) + post, "(")
  {
    hide Skip, Onward, Apart, Wrap, Peek, Redirects, Blank, WordText, ItemsText, WordsIn, SignsIn;
    var t := ItemsText(xs[1..]) + post;
    ArgumentText(space, w, xs, post);
    ArgumentTree(argv, space, w, xs);
    OneWord(argv, rs, space, w, t);
    WordRead(space, w, t);
    if space != "" {
      BlankApart(space, w + t);
    }
  }

  lemma TargetText(x: Sign, xs: seq<Item>, post: string)
    requires xs != [] && xs[0] == Target(x)
    ensures ItemsText(xs) + post == SignText(x) + (ItemsText(xs[1..]) + post)
  {
    hide SignText, ItemsText;
    ItemsTextIs(xs);
  }

  lemma TargetTree(rs: seq<Redirection>, x: Sign, xs: seq<Item>)
    requires xs != [] && xs[0] == Target(x)
    ensures WordsIn(xs) == WordsIn(xs[1..])
    ensures (rs + [Redirection(x.file, x.mode)]) + Redirects(SignsIn(xs[1..])) == rs + Redirects(SignsIn(xs))
  {
    var none: seq<string> := [];
    assert none + WordsIn(xs[1..]) == WordsIn(xs[1..]);
    assert SignsIn(xs) == [x] + SignsIn(xs[1..]);
    assert Redirects(SignsIn(xs)) == [Redirection(x.file, x.mode)] + Redirects(SignsIn(xs[1..]));
  }

  lemma TargetFirst(argv: seq<string>, rs: seq<Redirection>, x: Sign, xs: seq<Item>, post: string)
    requires xs != [] && xs[0] == Target(x) && SignOk(x) && Apart(ItemsText(xs[1..]) + post)
    requires var r := Redirection(x.file, x.mode);
             Onward(argv, rs + [r], ItemsText(xs[1..]) + post) == ReadItems(argv, rs + [r], xs[1..], post)
    ensures Onward(argv, rs, ItemsText(xs) + post) == ReadItems(argv, rs, xs, post)
    ensures Apart(ItemsText(xs) + post) && !Peek(ItemsText(xs) + post, "(")
  {
    hide Skip, Onward, Apart, Wrap, Peek, SignText, SignOk, ItemsText, WordsIn, SignsIn, Redirects;
    var t := ItemsText(xs[1..]) + post;
    TargetText(x, xs, post);
    TargetTree(rs, x, xs);
    OneTarget(argv, rs, x, t);
    SignRead(x, t);
  }

  lemma NoItems(argv: seq<string>, rs: seq<Redirection>, post: string)
    requires Follows(post, "|)&;")
    ensures Onward(argv, rs, ItemsText([]) + post) == ReadItems(argv, rs, [], post)
    ensures Apart(ItemsText([]) + post) && !Peek(ItemsText([]) + post, "(")
  {
    hide Skip, Onward, Apart, Wrap, Peek, Follows;
    assert ItemsText([]) + post == post && argv + WordsIn([]) == argv && rs + Redirects(SignsIn([])) == rs;
    NoSign(post);
    NothingMore(argv, rs, post);
    NoBracket(post);
  }

  lemma NoBracket(post: string)
    requires Follows(post, "|)&;")
    ensures !Peek(post, "(")
  {
  }

  lemma {:induction false} ItemsRead(argv: seq<string>, rs: seq<Redirection>, xs: seq<Item>, post: string)
    requires (forall i | 0 <= i < |xs| :: ItemOk(xs[i])) && |argv| + Count(xs) < 10 && Follows(post, "|)&;")
    requires forall i | 0 < i < |xs| :: xs[i].Argument? ==> xs[i].space != ""
    ensures Onward(argv, rs, ItemsText(xs) + post) == ReadItems(argv, rs, xs, post)
    ensures !(xs != [] && xs[0].Argument? && xs[0].space == "") ==> Apart(ItemsText(xs) + post)
    ensures !Peek(ItemsText(xs) + post, "(")
    decreases |xs|
  {
    hide Follows, Onward, Apart, Peek, ReadItems, ItemsText, Blank, WordText, SignOk;
    if xs == [] {
      NoItems(argv, rs, post);
    } else {
      var rest := xs[1..];
      forall i | 0 < i < |rest| ensures rest[i].Argument? ==> rest[i].space != "" {
        assert rest[i] == xs[i + 1];
      }
      assert ItemOk(xs[0]);
      match xs[0]
      case Argument(space, w) =>
        ItemsRead(argv + [w], rs, rest, post);
        ArgumentFirst(argv, rs, space, w, xs, post);
      case Target(x) =>
        ItemsRead(argv, rs + [Redirection(x.file, x.mode)], rest, post);
        TargetFirst(argv, rs, x, xs, post);
    }
  }

  // ---------- whole lines ----------

  lemma BlankFollows(space: string, c: char, t: string, marks: string)
    requires Blank(space) && c in SYMBOLS && c in marks && (c == '>' ==> t == "" || t[0] != '>')
    ensures Follows(space + ([c] + t), marks)
  {
    SymbolRead(space, c, t);
  }

  lemma WiderFollows(t: string, few: string, many: string)
    requires Follows(t, few) && forall c | c in few :: c in many
    ensures Follows(t, many)
  {
  }

  lemma BlockIs(open: string, z: string, c: Command, close: string, y: string, rs: seq<Redirection>, w: string)
    requires Blank(open) && Blank(close)
    requires ParseLine(z) == Some((c, Skip(close + (")" + y)))) && Redirections(y) == Some((rs, w))
    ensures ParseExec(open + ("(" + z)) == Some((Wrap(c, rs), w))
  {
    hide Next, Peek, Skip, Redirections, ParseLine;
    SymbolRead(open, '(', z);
    SkipTwice(z);
    SameAfterSkip(Skip(z), z);
    SymbolRead(close, ')', y);
    SymbolRead("", ')', y);
    assert "" + ([')'] + y) == ")" + y;
    SkipTwice(y);
    SameAfterSkip(Skip(y), y);
  }

  lemma PlainIs(t: string)
    requires !Peek(t, "(")
    ensures ParseExec(t) == Onward([], [], t)
  {
    hide Peek, Redirections, Arguments;
    if Redirections(t).Some? {
      var none: seq<Redirection>, more := [], Redirections(t).value.0;
      assert none + more == more;
    }
  }

  lemma UnitRead(u: Unit, post: string)
    requires UnitOk(u) && Follows(post, "|)&;")
    ensures ParseExec(UnitText(u) + post) == Some((UnitTree(u), Skip(post)))
    decreases u
  {
    hide Next, Peek, Skip, Redirections, ParseLine, ParseBlock, Follows, Wrap, Around, LineText, LineTree, Blank;
    match u
    case Plain(items) =>
      ItemsRead([], [], items, post);
      PlainIs(ItemsText(items) + post);
      AroundIsWrap(Exec(WordsIn(items)), SignsIn(items));
      var none, nothing: seq<Redirection> := [], [];
      assert none + WordsIn(items) == WordsIn(items) && nothing + Redirects(SignsIn(items)) == Redirects(SignsIn(items));
    case Block(open, line, close, signs) =>
      var y := SignsText(signs) + post;
      SignsRead(signs, post);
      BlankFollows(close, ')', y, ")");
      LineRead(line, close + (")" + y));
      AroundIsWrap(LineTree(line), signs);
      BlockIs(open, LineText(line) + (close + (")" + y)), LineTree(line), close, y, Redirects(signs), Skip(post));
      assert UnitText(u) + post == open + ("(" + (LineText(line) + (close + (")" + y))));
  }

  lemma PipelineRead(p: Pipeline, post: string)
    requires PipelineOk(p) && Follows(post, ")&;")
    ensures ParsePipe(PipelineText(p) + post) == Some((PipelineTree(p), Skip(post)))
    decreases p
  {
    hide Skip, ParseExec, Follows, UnitText, UnitTree, Blank;
    WiderFollows(post, ")&;", "|)&;");
    match p
    case Single(u) =>
      UnitRead(u, post);
      EndOfPipe(UnitText(u) + post, UnitTree(u), post);
    case Bar(u, space, rest) =>
      var z := PipelineText(rest) + post;
      BlankFollows(space, '|', z, "|)&;");
      UnitRead(u, space + ("|" + z));
      PipelineRead(rest, post);
      MoreOfPipe(UnitText(u) + (space + ("|" + z)), UnitTree(u), space, z, PipelineTree(rest), Skip(post));
      assert PipelineText(p) + post == UnitText(u) + (space + ("|" + z));
  }

  lemma EndOfPipe(t: string, c: Command, post: string)
    requires ParseExec(t) == Some((c, Skip(post))) && Follows(post, ")&;")
    ensures ParsePipe(t) == Some((c, Skip(post)))
  {
    hide ParseExec;
    SkipTwice(post);
  }

  lemma MoreOfPipe(t: string, c: Command, space: string, z: string, d: Command, w: string)
    requires ParseExec(t) == Some((c, Skip(space + ("|" + z)))) && Blank(space) && ParsePipe(z) == Some((d, w))
    ensures ParsePipe(t) == Some((Pipe(c, d), w))
  {
    hide Next, Peek, Skip, ParseExec;
    SymbolRead(space, '|', z);
    SymbolRead("", '|', z);
    assert "" + (['|'] + z) == "|" + z;
    SkipTwice(z);
    SameAfterSkip(Skip(z), z);
  }

  lemma {:induction false} BackgroundMore(c: Command, n: nat)
    ensures Background(Back(c), n) == Back(Background(c, n))
  {
    if n > 0 {
      BackgroundMore(c, n - 1);
    }
  }

  lemma {:induction false} AmpsRead(c: Command, amps: seq<string>, post: string)
    requires (forall i | 0 <= i < |amps| :: Blank(amps[i])) && Follows(post, ");")
    ensures Backs(c, AmpsText(amps) + post) == (Background(c, |amps|), Skip(post))
    decreases |amps|
  {
    if amps == [] {
      assert AmpsText(amps) + post == post;
    } else {
      hide Next, Peek, Skip, Follows;
      var z := AmpsText(amps[1..]) + post;
      assert AmpsText(amps) + post == amps[0] + ("&" + z);
      SymbolRead(amps[0], '&', z);
      AmpsRead(Back(c), amps[1..], post);
      BackgroundMore(c, |amps| - 1);
      SkipTwice(z);
      SameAfterSkip(Skip(z), z);
    }
  }

  lemma {:induction false} AmpsFollow(amps: seq<string>, post: string)
    requires (forall i | 0 <= i < |amps| :: Blank(amps[i])) && Follows(post, ");")
    ensures Follows(AmpsText(amps) + post, ")&;")
  {
    if amps == [] {
      assert AmpsText(amps) + post == post;
    } else {
      hide Skip, Follows;
      var z := AmpsText(amps[1..]) + post;
      assert AmpsText(amps) + post == amps[0] + ("&" + z);
      BlankFollows(amps[0], '&', z, ")&;");
    }
  }

  /** Everything the language allows to be written is read, as what it means. */
  lemma LineRead(l: Line, post: string)
    requires LineOk(l) && Follows(post, ")")
    ensures ParseLine(LineText(l) + post) == Some((LineTree(l), Skip(post)))
    decreases l
  {
    hide Skip, ParsePipe, Backs, Follows, PipelineText, PipelineTree, AmpsText, Background, Blank;
    var c := PipelineTree(l.pipeline);
    WiderFollows(post, ")", ");");
    match l.rest
    case Nothing =>
      AmpsFollow(l.amps, post);
      PipelineRead(l.pipeline, AmpsText(l.amps) + post);
      AmpsRead(c, l.amps, post);
      assert LineText(l) + post == PipelineText(l.pipeline) + (AmpsText(l.amps) + post);
      EndOfLine(LineText(l) + post, c, AmpsText(l.amps) + post, Background(c, |l.amps|), post);
    case Then(space, line) =>
      var z := LineText(line) + post;
      var y := space + (";" + z);
      BlankFollows(space, ';', z, ");");
      AmpsFollow(l.amps, y);
      PipelineRead(l.pipeline, AmpsText(l.amps) + y);
      AmpsRead(c, l.amps, y);
      LineRead(line, post);
      assert LineText(l) + post == PipelineText(l.pipeline) + (AmpsText(l.amps) + y);
      MoreOfLine(LineText(l) + post, c, AmpsText(l.amps) + y, Background(c, |l.amps|), space, z, LineTree(line), Skip(post));
  }

  lemma EndOfLine(t: string, c: Command, u: string, d: Command, post: string)
    requires ParsePipe(t) == Some((c, Skip(u))) && Backs(c, u) == (d, Skip(post)) && Follows(post, ")")
    ensures ParseLine(t) == Some((d, Skip(post)))
  {
    hide ParsePipe;
    SkipTwice(u);
    SameAfterSkip(Skip(u), u);
    SkipTwice(post);
  }

  lemma MoreOfLine(t: string, c: Command, u: string, d: Command, space: string, z: string, e: Command, w: string)
    requires ParsePipe(t) == Some((c, Skip(u))) && Backs(c, u) == (d, Skip(space + (";" + z))) && Blank(space)
    requires ParseLine(z) == Some((e, w))
    ensures ParseLine(t) == Some((List(d, e), w))
  {
    hide Next, Peek, Skip, ParsePipe, Backs;
    SkipTwice(u);
    SameAfterSkip(Skip(u), u);
    SymbolRead(space, ';', z);
    SymbolRead("", ';', z);
    assert "" + ([';'] + z) == ";" + z;
    SkipTwice(z);
    SameAfterSkip(Skip(z), z);
  }

  /** The parser takes every line of the language, with any white space, for what it means. */
  lemma WrittenIsParsed(l: Line, end: string)
    requires LineOk(l) && Blank(end)
    ensures Parse(LineText(l) + end) == Some(LineTree(l))
  {
    hide ParseLine;
    SkipBlank(end, "");
    assert end + "" == end;
    LineRead(l, end);
    SkipTwice(end);
  }

  // ---------- nothing else is read ----------

  lemma SymbolBack(t: string, tokens: string) returns (space: string, c: char, z: string)
    requires Peek(t, tokens) && forall x | x in tokens :: x in "|&;()"
    ensures Blank(space) && t == space + ([c] + z) && c in tokens && Next(t) == (Symbol(c), Skip(z))
  {
    space := Skipped(t);
    c, z := Skip(t)[0], Skip(t)[1..];
  }

  lemma WordBack(t: string) returns (space: string, w: string, z: string)
    requires Next(t).0.Word?
    ensures Blank(space) && WordText(w) && Apart(z) && t == space + (w + z) && Next(t) == (Word(w), Skip(z))
  {
    space := Skipped(t);
    var u := Skip(t);
    w, z := u[..WordLength(u)], u[WordLength(u)..];
    assert u == w + z;
    SameWords(w);
  }

  lemma OperatorBack(t: string) returns (space: string, mode: Mode, z: string)
    requires Peek(t, "<>")
    ensures Blank(space) && t == space + (Operator(mode) + z) && Next(t).1 == Skip(z)
  {
    space := Skipped(t);
    var u := Skip(t);
    if u[0] == '<' {
      mode, z := Input, u[1..];
    } else if |u| > 1 && u[1] == '>' {
      mode, z := Append, u[2..];
      assert u == ">>" + z;
    } else {
      mode, z := Output, u[1..];
    }
  }

  lemma SignBack(t: string) returns (x: Sign, z: string)
    requires Peek(t, "<>") && Redirections(t).Some?
    ensures SignOk(x) && t == SignText(x) + z && Apart(z)
  {
    hide Next, Peek, Skip, Blank, WordText, Apart;
    var space, mode, after := OperatorBack(t);
    FileNamed(t);
    SkipTwice(after);
    SameAfterSkip(Skip(after), after);
    var gap, file, rest := WordBack(after);
    x, z := Sign(space, mode, gap, file), rest;
    Joined(space, Operator(mode), gap + file, z);
    Joined(Operator(mode), gap, file, z);
  }

  lemma FileNamed(t: string)
    requires Peek(t, "<>") && Redirections(t).Some?
    ensures Next(Next(t).1).0.Word?
  {
    hide Next, Peek, Skip;
  }

  lemma {:induction false} SignsBack(t: string) returns (xs: seq<Sign>, space: string)
    requires Redirections(t).Some?
    ensures (forall i | 0 <= i < |xs| :: SignOk(xs[i])) && Blank(space)
    ensures var (rs, w) := Redirections(t).value;
            Redirects(xs) == rs && t == SignsText(xs) + (space + w) && Skip(w) == w
    decreases |t|
  {
    hide Peek, Next, Skip, SignText, SignsText, SignOk, Apart, Blank, Redirections, Redirects;
    if !Peek(t, "<>") {
      space := Skipped(t);
      NoSignThere(t);
      xs := [];
    } else {
      var x, z := SignBack(t);
      SignRead(x, z);
      SignLong(x);
      var ys;
      ys, space := SignsBack(z);
      xs := [x] + ys;
      OneMoreSign(x, ys, space + Redirections(z).value.1);
    }
  }

  lemma OneMoreSign(x: Sign, xs: seq<Sign>, t: string)
    ensures SignsText([x] + xs) + t == SignText(x) + (SignsText(xs) + t)
    ensures Redirects([x] + xs) == [Redirection(x.file, x.mode)] + Redirects(xs)
  {
    hide SignText, SignsText;
    assert ([x] + xs)[1..] == xs;
    SignsTextIs([x] + xs, t);
  }

  lemma NoSignThere(t: string)
    requires !Peek(t, "<>")
    ensures Redirections(t) == Some(([], Skip(t))) && Skip(Skip(t)) == Skip(t) && Redirects([]) == []
    ensures forall s: string :: SignsText([]) + s == s
  {
    SkipTwice(t);
  }

  lemma SignLong(x: Sign)
    ensures |SignText(x)| > 0
  {
  }

  lemma {:induction false} OnwardBack(argv: seq<string>, rs: seq<Redirection>, t: string) returns (xs: seq<Item>, space: string)
    requires Onward(argv, rs, t).Some? && |argv| < 10
    ensures (forall i | 0 <= i < |xs| :: ItemOk(xs[i])) && |argv| + Count(xs) < 10 && Blank(space)
    ensures forall i | 0 < i < |xs| :: xs[i].Argument? ==> xs[i].space != ""
    ensures Apart(t) && xs != [] && xs[0].Argument? ==> xs[0].space != ""
    ensures var (c, w) := Onward(argv, rs, t).value;
            && c == Wrap(Exec(argv + WordsIn(xs)), rs + Redirects(SignsIn(xs)))
            && t == ItemsText(xs) + (space + w) && Skip(w) == w
    decreases |t|
  {
    hide Onward, Skip, Peek, SignText, SignOk, WordText, Blank, Redirects, Wrap, ItemsText, WordsIn, SignsIn, Next;
    if Peek(t, "<>") {
      TargetThere(argv, rs, t);
      var x, z := SignBack(t);
      SignLong(x);
      OneTarget(argv, rs, x, z);
      var ys;
      ys, space := OnwardBack(argv, rs + [Redirection(x.file, x.mode)], z);
      xs := [Target(x)] + ys;
      assert xs[1..] == ys;
      TargetText(x, xs, space + Onward(argv, rs, t).value.1);
      TargetTree(rs, x, xs);
      OneItem(xs, ys);
    } else if Peek(t, "|)&;") || Next(t).0 == End {
      NoneThere(argv, rs, t);
      space := Skipped(t);
      SkipTwice(t);
      xs := [];
      NoItemsIs(argv, rs, space + Skip(t));
    } else {
      ArgumentThere(argv, rs, t);
      var sp, w, z := WordBack(t);
      WordLong(w);
      OneWord(argv, rs, sp, w, z);
      var ys;
      ys, space := OnwardBack(argv + [w], rs, z);
      xs := [Argument(sp, w)] + ys;
      assert xs[1..] == ys;
      ArgumentText(sp, w, xs, space + Onward(argv, rs, t).value.1);
      ArgumentTree(argv, sp, w, xs);
      OneItem(xs, ys);
      if sp == "" { NotApart(sp, w, z); }
    }
  }

  lemma NotApart(space: string, w: string, z: string)
    requires WordText(w) && space == ""
    ensures !Apart(space + (w + z))
  {
    SameWords(w);
    assert IsWordChar(w[0]);
  }

  lemma WordLong(w: string)
    requires WordText(w)
    ensures |w| > 0
  {
  }

  lemma OneItem(xs: seq<Item>, ys: seq<Item>)
    requires xs != [] && xs[1..] == ys && ItemOk(xs[0]) && forall i | 0 <= i < |ys| :: ItemOk(ys[i])
    requires (forall i | 0 < i < |ys| :: ys[i].Argument? ==> ys[i].space != "") && (ys != [] && ys[0].Argument? ==> ys[0].space != "")
    ensures forall i | 0 <= i < |xs| :: ItemOk(xs[i])
    ensures forall i | 0 < i < |xs| :: xs[i].Argument? ==> xs[i].space != ""
    ensures Count(xs) == (if xs[0].Argument? then 1 else 0) + Count(ys)
  {
    hide ItemOk;
    forall i | 0 < i < |xs| ensures ItemOk(xs[i]) && (xs[i].Argument? ==> xs[i].space != "") {
      assert xs[i] == ys[i - 1];
    }
  }

  lemma TargetThere(argv: seq<string>, rs: seq<Redirection>, t: string)
    requires Onward(argv, rs, t).Some?
    ensures Redirections(t).Some?
  {
  }

  lemma NoneThere(argv: seq<string>, rs: seq<Redirection>, t: string)
    requires !Peek(t, "<>") && (Peek(t, "|)&;") || Next(t).0 == End)
    ensures Onward(argv, rs, t) == Some((Wrap(Exec(argv), rs), Skip(t)))
  {
    SkipTwice(t);
    SkipTwice(Skip(t));
    SameTokens(Skip(t), t);
    var none: seq<Redirection> := [];
    assert rs + none == rs;
  }

  lemma NoItemsIs(argv: seq<string>, rs: seq<Redirection>, t: string)
    ensures argv + WordsIn([]) == argv && rs + Redirects(SignsIn([])) == rs && ItemsText([]) + t == t && Count([]) == 0
  {
  }

  lemma ArgumentThere(argv: seq<string>, rs: seq<Redirection>, t: string)
    requires Onward(argv, rs, t).Some? && !Peek(t, "<>") && !Peek(t, "|)&;") && Next(t).0 != End
    ensures Next(t).0.Word? && |argv| + 1 < 10
  {
    hide Skip, Next;
    SkipTwice(t);
    SameTokens(Skip(t), t);
  }

  lemma UnitBack(t: string) returns (u: Unit, space: string)
    requires ParseExec(t).Some?
    ensures var (c, w) := ParseExec(t).value;
            UnitOk(u) && UnitTree(u) == c && Blank(space) && t == UnitText(u) + (space + w) && Skip(w) == w
    decreases |t|, 1
  {
    hide Peek, Skip, Next, ParseExec, Onward, Blank, Around, Wrap, Redirects, ItemOk;
    if Peek(t, "(") {
      u, space := BlockBack(t);
    } else {
      PlainIs(t);
      var xs;
      xs, space := OnwardBack([], [], t);
      u := Plain(xs);
      AroundIsWrap(Exec(WordsIn(xs)), SignsIn(xs));
      var none, nothing: seq<Redirection> := [], [];
      assert none + WordsIn(xs) == WordsIn(xs) && nothing + Redirects(SignsIn(xs)) == Redirects(SignsIn(xs));
    }
  }

  /** A mark after white space, of which some may have been skipped. */
  lemma MarkBack(space: string, w: string, tokens: string) returns (front: string, c: char, z: string)
    requires Blank(space) && Peek(w, tokens) && forall x | x in tokens :: x in "|&;()"
    ensures Blank(front) && space + w == front + ([c] + z) && c in tokens && Next(w) == (Symbol(c), Skip(z))
    ensures Skip(front + ([c] + z)) == Skip(w)
  {
    hide Peek, Next, Skip;
    var more;
    more, c, z := SymbolBack(w, tokens);
    front := space + more;
    SkipBlank(space, w);
    assert space + w == front + ([c] + z);
  }

  lemma BlockThere(t: string, z: string)
    requires Peek(t, "(") && ParseExec(t).Some? && Next(t).1 == Skip(z) && ParseLine(Skip(z)) == ParseLine(z)
    ensures ParseLine(z).Some? && Peek(ParseLine(z).value.1, ")") && Redirections(Next(ParseLine(z).value.1).1).Some?
  {
    hide Peek, Skip, Next, ParseLine, Redirections;
  }

  lemma BlockText(open: string, line: string, close: string, signs: string, rest: string)
    ensures open + ("(" + (line + (close + (")" + (signs + rest)))))
         == (open + ("(" + (line + (close + (")" + signs))))) + rest
  {
    Joined(open, "(", line + (close + (")" + signs)), rest);
    Joined("(", line, close + (")" + signs), rest);
    Joined(line, close, ")" + signs, rest);
    assert ")" + (signs + rest) == (")" + signs) + rest;
  }

  lemma BlockBack(t: string) returns (u: Unit, space: string)
    requires Peek(t, "(") && ParseExec(t).Some?
    ensures var (c, w) := ParseExec(t).value;
            UnitOk(u) && UnitTree(u) == c && Blank(space) && t == UnitText(u) + (space + w) && Skip(w) == w
    decreases |t|, 0
  {
    hide Peek, Skip, Next, ParseExec, ParseLine, Redirections, Blank, Around, Wrap, Redirects, SignOk, LineText, LineTree;
    hide LineOk, SignsText;
    var open, p, z := SymbolBack(t, "(");
    SkipTwice(z);
    SameAfterSkip(Skip(z), z);
    BlockThere(t, z);
    var line, before := LineBack(z);
    var (c, v) := ParseLine(z).value;
    var close, q, y := MarkBack(before, v, ")");
    SkipTwice(y);
    SameAfterSkip(Skip(y), y);
    var signs;
    signs, space := SignsBack(y);
    var w := Redirections(y).value.1;
    AroundIsWrap(c, signs);
    BlockIs(open, z, c, close, y, Redirects(signs), w);
    u := Block(open, line, close, signs);
    BlockText(open, LineText(line), close, SignsText(signs), space + w);
  }

  lemma PipelineBack(t: string) returns (p: Pipeline, space: string)
    requires ParsePipe(t).Some?
    ensures var (c, w) := ParsePipe(t).value;
            PipelineOk(p) && PipelineTree(p) == c && Blank(space) && t == PipelineText(p) + (space + w) && Skip(w) == w
    decreases |t|, 2
  {
    hide Peek, Skip, Next, ParseExec, Blank, UnitText, UnitTree, UnitOk;
    var u;
    u, space := UnitBack(t);
    var (c, v) := ParseExec(t).value;
    p := Single(u);
    if Peek(v, "|") {
      var front, mark, z := MarkBack(space, v, "|");
      SkipTwice(z);
      SameAfterSkip(Skip(z), z);
      var rest;
      rest, space := PipelineBack(z);
      p := Bar(u, front, rest);
      var w := ParsePipe(z).value.1;
      Joined(UnitText(u), front, "|" + PipelineText(rest), space + w);
      Joined(front, "|", PipelineText(rest), space + w);
    }
  }

  lemma {:induction false} AmpsBack(c: Command, t: string) returns (amps: seq<string>, space: string)
    ensures var (d, w) := Backs(c, t);
            && (forall i | 0 <= i < |amps| :: Blank(amps[i])) && Blank(space) && Background(c, |amps|) == d
            && t == AmpsText(amps) + (space + w) && Skip(w) == w
    decreases |t|
  {
    hide Peek, Skip, Next, Blank, Background;
    if Peek(t, "&") {
      var front, mark, z := SymbolBack(t, "&");
      SkipTwice(z);
      SameAfterSkip(Skip(z), z);
      var more;
      more, space := AmpsBack(Back(c), z);
      amps := [front] + more;
      assert amps[1..] == more;
      BackgroundMore(c, |more|);
      BackgroundIs(c, |amps|);
      var w := Backs(Back(c), z).1;
      Joined(front, "&", AmpsText(more), space + w);
    } else {
      amps := [];
      space := Skipped(t);
      SkipTwice(t);
      BackgroundIs(c, 0);
    }
  }

  lemma BackgroundIs(c: Command, n: nat)
    ensures Background(c, n) == if n == 0 then c else Back(Background(c, n - 1))
  {
  }

  lemma LineBack(t: string) returns (l: Line, space: string)
    requires ParseLine(t).Some?
    ensures var (c, w) := ParseLine(t).value;
            LineOk(l) && LineTree(l) == c && Blank(space) && t == LineText(l) + (space + w) && Skip(w) == w
    decreases |t|, 3
  {
    hide Peek, Skip, Next, ParsePipe, Backs, Blank, PipelineText, PipelineTree, PipelineOk, AmpsText, Background;
    var p, after := PipelineBack(t);
    var (c, u) := ParsePipe(t).value;
    SkipBlank(after, u);
    SameAfterSkip(after + u, u);
    var amps;
    amps, space := AmpsBack(c, after + u);
    var (d, v) := Backs(c, u);
    l := Line(p, amps, Nothing);
    if Peek(v, ";") {
      var front, mark, z := MarkBack(space, v, ";");
      SkipTwice(z);
      SameAfterSkip(Skip(z), z);
      var rest;
      rest, space := LineBack(z);
      l := Line(p, amps, Then(front, rest));
      var w := ParseLine(z).value.1;
      Joined(PipelineText(p), AmpsText(amps), front + (";" + LineText(rest)), space + w);
      Joined(AmpsText(amps), front, ";" + LineText(rest), space + w);
      Joined(front, ";", LineText(rest), space + w);
    } else {
      var w := v;
      Joined(PipelineText(p), AmpsText(amps), "", space + w);
    }
  }

  /** Whatever the parser takes is a line of the language, read for what it means. */
  lemma NothingElse(t: string)
    requires Parse(t).Some?
    ensures exists l: Line, end: string ::
              LineOk(l) && Blank(end) && t == LineText(l) + end && Parse(t) == Some(LineTree(l))
  {
    hide ParseLine, LineOk, LineText, LineTree;
    var l, end := LineBack(t);
    var w := ParseLine(t).value.1;
    assert w == "";
    assert t == LineText(l) + end;
  }

  // ---------- which trees there are ----------

  /** Words are words, and no command has more than nine. */
  predicate WellFormed(c: Command) {
    match c
    case Exec(argv) => |argv| < 10 && forall i | 0 <= i < |argv| :: WordText(argv[i])
    case Redir(d, to) => WellFormed(d) && WordText(to.file)
    case Pipe(l, r) => WellFormed(l) && WellFormed(r)
    case List(l, r) => WellFormed(l) && WellFormed(r)
    case Back(d) => WellFormed(d)
  }

  function Bracketed(c: Command, signs: seq<Sign>): Unit
    decreases c, 1
  {
    Block("", Written(c), "", signs)
  }

  /** The canonical line of a tree: everything but a simple command stands in parentheses. */
  function Written(c: Command): Line
    decreases c, 0
  {
    match c
    case Exec(argv) => Line(Single(Plain(seq(|argv|, i requires 0 <= i < |argv| => Argument(" ", argv[i])))), [], Nothing)
    case Redir(d, to) => Line(Single(Bracketed(d, [Sign("", to.mode, "", to.file)])), [], Nothing)
    case Pipe(l, r) => Line(Bar(Bracketed(l, []), "", Single(Bracketed(r, []))), [], Nothing)
    case List(l, r) => Line(Single(Bracketed(l, [])), [], Then("", Written(r)))
    case Back(d) => Line(Single(Bracketed(d, [])), [""], Nothing)
  }

  lemma {:induction false} OnlyWords(xs: seq<Item>)
    requires forall i | 0 <= i < |xs| :: xs[i].Argument?
    ensures Count(xs) == |xs| == |WordsIn(xs)| && SignsIn(xs) == []
    ensures forall i | 0 <= i < |xs| :: WordsIn(xs)[i] == xs[i].word
  {
    if xs != [] {
      OnlyWords(xs[1..]);
    }
  }

  lemma BracketedMeans(c: Command, signs: seq<Sign>)
    requires LineOk(Written(c)) && LineTree(Written(c)) == c && forall i | 0 <= i < |signs| :: SignOk(signs[i])
    ensures UnitOk(Bracketed(c, signs)) && UnitTree(Bracketed(c, signs)) == Around(c, signs)
  {
    hide Written, LineOk, LineTree;
  }

  lemma OneUnit(u: Unit)
    ensures (PipelineOk(Single(u)) <==> UnitOk(u)) && PipelineTree(Single(u)) == UnitTree(u)
    ensures Background(UnitTree(u), 0) == UnitTree(u) && Background(UnitTree(u), 1) == Back(UnitTree(u))
  {
    BackgroundMore(UnitTree(u), 0);
    assert Background(Back(UnitTree(u)), 0) == Back(UnitTree(u));
  }

  lemma {:induction false} WrittenMeans(c: Command)
    requires WellFormed(c)
    ensures LineOk(Written(c)) && LineTree(Written(c)) == c
  {
    hide UnitOk, UnitTree, Around, Background, Bracketed;
    match c
    case Exec(argv) => WrittenWords(argv);
    case Redir(d, to) =>
      var signs := [Sign("", to.mode, "", to.file)];
      WrittenMeans(d);
      BracketedMeans(d, signs);
      OneUnit(Bracketed(d, signs));
      AroundOne(d, signs[0]);
    case Pipe(l, r) =>
      WrittenMeans(l);
      WrittenMeans(r);
      BracketedMeans(l, []);
      BracketedMeans(r, []);
      OneUnit(Bracketed(r, []));
      AroundNone(l);
      AroundNone(r);
      BackgroundIs(c, 0);
    case List(l, r) =>
      WrittenMeans(l);
      WrittenMeans(r);
      BracketedMeans(l, []);
      OneUnit(Bracketed(l, []));
      AroundNone(l);
    case Back(d) =>
      WrittenMeans(d);
      BracketedMeans(d, []);
      OneUnit(Bracketed(d, []));
      AroundNone(d);
  }

  lemma AroundNone(c: Command)
    ensures Around(c, []) == c
  {
  }

  lemma AroundOne(c: Command, x: Sign)
    ensures Around(c, [x]) == Redir(c, Redirection(x.file, x.mode))
  {
    AroundNone(c);
    assert [x][..0] == [];
  }

  lemma WrittenWords(argv: seq<string>)
    requires WellFormed(Exec(argv))
    ensures LineOk(Written(Exec(argv))) && LineTree(Written(Exec(argv))) == Exec(argv)
  {
    var items := Written(Exec(argv)).pipeline.unit.items;
    OnlyWords(items);
    assert WordsIn(items) == argv;
    OneUnit(Plain(items));
  }

  lemma {:induction false} AroundWell(c: Command, xs: seq<Sign>)
    requires WellFormed(c) && forall i | 0 <= i < |xs| :: SignOk(xs[i])
    ensures WellFormed(Around(c, xs))
  {
    if xs != [] {
      AroundWell(c, xs[..|xs| - 1]);
    }
  }

  lemma {:induction false} ItemsWell(xs: seq<Item>)
    requires forall i | 0 <= i < |xs| :: ItemOk(xs[i])
    ensures |WordsIn(xs)| == Count(xs) && forall i | 0 <= i < |WordsIn(xs)| :: WordText(WordsIn(xs)[i])
    ensures forall i | 0 <= i < |SignsIn(xs)| :: SignOk(SignsIn(xs)[i])
  {
    if xs != [] {
      ItemsWell(xs[1..]);
    }
  }

  lemma {:induction false} BackgroundWell(c: Command, n: nat)
    requires WellFormed(c)
    ensures WellFormed(Background(c, n))
  {
    if n > 0 {
      BackgroundWell(c, n - 1);
    }
  }

  lemma UnitWell(u: Unit)
    requires UnitOk(u)
    ensures WellFormed(UnitTree(u))
    decreases u
  {
    match u
    case Plain(items) =>
      ItemsWell(items);
      AroundWell(Exec(WordsIn(items)), SignsIn(items));
    case Block(_, line, _, signs) =>
      LineWell(line);
      AroundWell(LineTree(line), signs);
  }

  lemma PipelineWell(p: Pipeline)
    requires PipelineOk(p)
    ensures WellFormed(PipelineTree(p))
    decreases p
  {
    match p
    case Single(u) => UnitWell(u);
    case Bar(u, _, rest) =>
      UnitWell(u);
      PipelineWell(rest);
  }

  lemma LineWell(l: Line)
    requires LineOk(l)
    ensures WellFormed(LineTree(l))
    decreases l
  {
    PipelineWell(l.pipeline);
    BackgroundWell(PipelineTree(l.pipeline), |l.amps|);
    if l.rest.Then? {
      LineWell(l.rest.line);
    }
  }

  /** Some line is read as this tree exactly if its words are words and no command has more than nine. */
  lemma TreesParsed(c: Command)
    ensures (exists t :: Parse(t) == Some(c)) <==> WellFormed(c)
  {
    hide Parse, LineText, LineOk, LineTree;
    if WellFormed(c) {
      WrittenMeans(c);
      WrittenIsParsed(Written(c), "");
      assert Parse(LineText(Written(c)) + "") == Some(c);
    }
    forall t | Parse(t) == Some(c) ensures WellFormed(c) {
      NothingElse(t);
      var l: Line, end: string :| LineOk(l) && Blank(end) && t == LineText(l) + end && Parse(t) == Some(LineTree(l));
      LineWell(l);
    }
  }
}
