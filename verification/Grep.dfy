/** grep over a stream that arrives in pieces. */
module Grep {
  import opened Wrappers
  import opened Patterns

  const SIZE := 1024

  /** Where strchr(t, newline) stops: at a newline, at a NUL, or at the end. */
  function Stop(t: string): (k: nat)
    ensures k <= |t|
    ensures forall i | 0 <= i < k :: t[i] != '\n' && t[i] != '\0'
    ensures k < |t| ==> t[k] == '\n' || t[k] == '\0'
  {
    if t == "" || t[0] == '\n' || t[0] == '\0' then 0 else 1 + Stop(t[1..])
  }

  /** The first line can be found in the buffer. */
  predicate Findable(t: string) {
    Stop(t) < |t| && t[Stop(t)] == '\n' && Stop(t) + 1 < SIZE
  }

  ghost function Hit(re: string, line: string): string {
    if Matches(re, line) then line + "\n" else ""
  }

  /** What grep prints of `t`: the matching lines in order, as far as the lines can be found. */
  ghost function Printed(re: string, t: string): string
    decreases |t|
  {
    if Findable(t) then Hit(re, t[..Stop(t)]) + Printed(re, t[Stop(t) + 1..]) else ""
  }

  // ---------- what should be printed ----------

  /** The newline at or after the front, or the length. */
  function LineEnd(t: string): (k: nat)
    ensures k <= |t| && (forall i | 0 <= i < k :: t[i] != '\n') && (k < |t| ==> t[k] == '\n')
  {
    if t == "" || t[0] == '\n' then 0 else 1 + LineEnd(t[1..])
  }

  /** All matching lines that end in a newline. */
  ghost function MatchingLines(re: string, t: string): string
    decreases |t|
  {
    if LineEnd(t) == |t| then "" else Hit(re, t[..LineEnd(t)]) + MatchingLines(re, t[LineEnd(t) + 1..])
  }

  /** What grep never gets to see: from the first line that holds a NUL or does not fit. */
  function Unseen(t: string): (r: string)
    ensures r == "" || !Findable(r)
    decreases |t|
  {
    if Findable(t) then Unseen(t[Stop(t) + 1..]) else t
  }

  /** The first line's share of what is printed, what matches, and what is not seen. */
  lemma FirstLine(re: string, t: string)
    ensures Findable(t) ==>
              && Printed(re, t) == Hit(re, t[..Stop(t)]) + Printed(re, t[Stop(t) + 1..])
              && MatchingLines(re, t) == Hit(re, t[..Stop(t)]) + MatchingLines(re, t[Stop(t) + 1..])
              && Unseen(t) == Unseen(t[Stop(t) + 1..])
    ensures !Findable(t) ==> Printed(re, t) == "" && Unseen(t) == t
  {
    hide Matches, Hit, LineEnd, Stop;
    if Findable(t) {
      SameEnd(t);
    }
  }

  /** grep prints the matching lines, but for those from the first line on that it cannot find. */
  lemma {:induction false} PrintedAndUnseen(re: string, t: string)
    ensures MatchingLines(re, t) == Printed(re, t) + MatchingLines(re, Unseen(t))
    decreases |t|
  {
    hide Matches, Hit, LineEnd, Stop, Printed, MatchingLines, Unseen;
    FirstLine(re, t);
    if Findable(t) {
      PrintedAndUnseen(re, t[Stop(t) + 1..]);
      var a, b, c := Hit(re, t[..Stop(t)]), Printed(re, t[Stop(t) + 1..]), MatchingLines(re, Unseen(t));
      assert a + (b + c) == a + b + c;
    } else {
      assert "" + MatchingLines(re, t) == MatchingLines(re, t);
    }
  }

  lemma SameEnd(t: string)
    requires Findable(t)
    ensures LineEnd(t) == Stop(t) < |t|
  {
  }

  /** Every line is free of NULs and has, with its newline, at most 1023 bytes. */
  predicate Manageable(t: string)
    decreases |t|
  {
    var k := LineEnd(t);
    k == |t| || ((forall i | 0 <= i < k :: t[i] != '\0') && k + 1 < SIZE && Manageable(t[k + 1..]))
  }

  lemma {:induction false} ManageableIsPrinted(re: string, t: string)
    requires Manageable(t)
    ensures Printed(re, t) == MatchingLines(re, t)
    decreases |t|
  {
    if LineEnd(t) < |t| {
      assert Stop(t) == LineEnd(t);
      ManageableIsPrinted(re, t[LineEnd(t) + 1..]);
    } else {
      assert !Findable(t);
    }
  }

  /** grep prints all it should exactly when, from the first line it cannot find on, no line matches. */
  lemma PrintsAll(re: string, t: string)
    ensures Printed(re, t) == MatchingLines(re, t) <==> MatchingLines(re, Unseen(t)) == ""
  {
    PrintedAndUnseen(re, t);
  }

  lemma LetterMatches(line: string)
    requires line != "" && line[0] == 'a'
    ensures Matches("a", line)
  {
    var none: seq<Element> := [];
    assert Elements("a") == [One('a')] + none;
    NothingMatches(line[1..]);
    OneMatches('a', none, line);
    assert line[0..] == line;
    assert MatchesHere(Elements("a"), line[0..]);
  }

  lemma FirstLineHits(t: string, k: nat)
    requires 0 < k < |t| && (forall i | 0 <= i < k :: t[i] == 'a') && t[k] == '\n'
    ensures MatchingLines("a", t) == t[..k + 1] + MatchingLines("a", t[k + 1..])
  {
    hide Matches, MatchesHere, Elements;
    assert LineEnd(t) == k;
    LetterMatches(t[..k]);
    assert t[..k] + "\n" == t[..k + 1];
  }

  /** Where it does not: a line of 1023 characters before its newline is lost, and a matching line after it. */
  lemma LongLineLost(t: string)
    requires |t| == 1023 && forall i | 0 <= i < |t| :: t[i] == 'a'
    ensures Printed("a", t + "\na\n") == "" && MatchingLines("a", t + "\na\n") == t + "\na\n"
  {
    var whole := t + "\na\n";
    assert forall i | 0 <= i < |t| :: whole[i] == 'a';
    assert whole[|t|] == '\n';
    FirstLineHits(whole, |t|);
    assert whole[|t| + 1..] == "a\n";
    FirstLineHits("a\n", 1);
    assert "a\n"[2..] == "" && "a\n"[..2] == "a\n";
    assert whole[..|t| + 1] + "a\n" == whole;
  }

  // ---------- the program ----------

  lemma StopExtends(t: string, more: string)
    requires Stop(t) < |t|
    ensures Stop(t + more) == Stop(t)
    decreases |t|
  {
    if t[0] != '\n' && t[0] != '\0' {
      assert (t + more)[1..] == t[1..] + more;
      StopExtends(t[1..], more);
    }
  }

  lemma StopBeyond(t: string, more: string)
    requires Stop(t) == |t|
    ensures Stop(t + more) >= |t|
    decreases |t|
  {
    if t != "" {
      assert (t + more)[1..] == t[1..] + more;
      StopBeyond(t[1..], more);
    }
  }

  /** A line found in the buffer is the next to be printed. */
  lemma NextLine(re: string, t: string, more: string)
    requires Stop(t) < |t| < SIZE && t[Stop(t)] == '\n'
    ensures Printed(re, t + more) == Hit(re, t[..Stop(t)]) + Printed(re, t[Stop(t) + 1..] + more)
  {
    hide Matches, Hit, Stop;
    StopExtends(t, more);
    assert (t + more)[..Stop(t)] == t[..Stop(t)];
    assert (t + more)[Stop(t) + 1..] == t[Stop(t) + 1..] + more;
  }

  /** No line is to be found in the buffer. */
  predicate NoLine(t: string) {
    !(Stop(t) < |t| && t[Stop(t)] == '\n')
  }

  /** When nothing more can be read, nothing more is printed. */
  lemma NothingMore(re: string, t: string, more: string)
    requires NoLine(t) && (more == "" || |t| == SIZE - 1)
    ensures Printed(re, t + more) == ""
  {
    hide Matches, Hit, Stop;
    if Stop(t) < |t| {
      StopExtends(t, more);
    } else if more == "" {
      assert t + more == t;
    } else {
      StopBeyond(t, more);
    }
  }

  class Reader {
    const buf: array<char>
    var input: string     // what is still to come from the file
    var output: string    // what has been written

    constructor (input: string)
      ensures this.input == input && output == "" && buf.Length == SIZE && fresh(buf)
    {
      buf := new char[SIZE];
      this.input, output := input, "";
    }

    /** A read returns some of what there is, and nothing only at the end or when asked for nothing. */
    method Read(at: nat, count: nat) returns (n: nat)
      requires at + count <= buf.Length
      modifies buf, this`input
      ensures n <= count && n <= |old(input)| && (n == 0 <==> count == 0 || old(input) == "")
      ensures input == old(input)[n..]
      ensures buf[at..at + n] == old(input)[..n] && buf[..at] == old(buf[..at])
    {
      var some: nat := *;
      var most := if count < |input| then count else |input|;
      n := if most == 0 then 0 else 1 + some % most;
      forall i | 0 <= i < n {
        buf[at + i] := input[i];
      }
      input := input[n..];
    }

    /** strchr for a newline, from `p` on; `m` is where the buffer's own NUL is. */
    method FindNewline(p: nat, m: nat) returns (q: Option<nat>)
      requires p <= m < buf.Length && buf[m] == '\0'
      ensures var t := buf[p..m];
              if Stop(t) < |t| && t[Stop(t)] == '\n' then q == Some(p + Stop(t)) else q == None
    {
      ghost var t := buf[p..m];
      var i := p;
      while buf[i] != '\0'
        invariant p <= i <= m && forall k | p <= k < i :: buf[k] != '\n' && buf[k] != '\0'
        decreases m - i
      {
        if buf[i] == '\n' {
          StopAt(t, i - p);
          return Some(i);
        }
        i := i + 1;
      }
      StopAt(t, i - p);
      q := None;
    }

    /** The C string at `p`: up to the first NUL. */
    method StringFrom(p: nat, q: nat) returns (t: string)
      requires p <= q < buf.Length && buf[q] == '\0' && forall k | p <= k < q :: buf[k] != '\0'
      ensures t == buf[p..q]
    {
      t := "";
      var i := p;
      while buf[i] != '\0'
        invariant p <= i <= q && t == buf[p..i]
        decreases q - i
      {
        t := t + [buf[i]];
        i := i + 1;
      }
    }

    /** Prints the matching lines that are in the buffer; what is left starts at `p`. */
    method PrintLines(pattern: string, m: nat) returns (p: nat)
      requires m < buf.Length == SIZE && buf[m] == '\0'
      modifies buf, this`output
      ensures p <= m && NoLine(buf[p..m])
      ensures output + Printed(pattern, buf[p..m] + input) == old(output + Printed(pattern, buf[..m] + input))
    {
      hide Printed, Stop, Matches, Hit;
      ghost var all := output + Printed(pattern, buf[..m] + input);
      assert buf[0..m] == buf[..m];
      p := 0;
      var q := FindNewline(p, m);
      while q.Some?
        invariant 0 <= p <= m < SIZE && buf[m] == '\0'
        invariant output + Printed(pattern, buf[p..m] + input) == all
        invariant if NoLine(buf[p..m]) then q == None else q == Some(p + Stop(buf[p..m]))
        decreases m - p
      {
        p := OneLine(pattern, p, q.value, m);
        q := FindNewline(p, m);
      }
    }

    /** read at the end of the buffer's first `m` characters. */
    method ReadMore(m: nat) returns (n: nat)
      requires m < buf.Length == SIZE
      modifies buf, this`input
      ensures m + n < SIZE && |input| + n == |old(input)|
      ensures n == 0 <==> old(input) == "" || m == SIZE - 1
      ensures n == 0 ==> buf[..m] == old(buf[..m]) && input == old(input)
      ensures buf[..m + n] + input == old(buf[..m] + input)
    {
      n := Read(m, SIZE - m - 1);
      assert buf[..m + n] == buf[..m] + buf[m..m + n];
    }

    /** One pass of the loop over what is in the buffer; what is left moves to its front. */
    method Pass(pattern: string, m: nat) returns (left: nat)
      requires m < buf.Length == SIZE
      modifies buf, this`output
      ensures left <= m && NoLine(buf[..left])
      ensures output + Printed(pattern, buf[..left] + input) == old(output + Printed(pattern, buf[..m] + input))
    {
      hide Printed, NoLine;
      ghost var held := buf[..m];
      buf[m] := '\0';
      assert buf[..m] == held;
      var p := PrintLines(pattern, m);
      left := m - p;
      MoveToFront(p, left);
    }

    method Grep(pattern: string)
      requires buf.Length == SIZE
      modifies this, buf
      ensures output == old(output) + Printed(pattern, old(input))
    {
      hide Printed, NoLine;
      ghost var all := old(output) + Printed(pattern, old(input));
      var m: nat := 0;
      NothingBuffered();
      assert buf[..0] + input == input;
      var n: nat := ReadMore(m);
      while n > 0
        invariant m + n < SIZE
        invariant output + Printed(pattern, buf[..m + n] + input) == all
        invariant n == 0 ==> NoLine(buf[..m]) && (input == "" || m == SIZE - 1)
        decreases |input| + n
      {
        m := Pass(pattern, m + n);
        n := ReadMore(m);
      }
      NothingMore(pattern, buf[..m], input);
    }

    /** Puts a NUL at the end of a line and matches it. */
    method MatchLine(pattern: string, p: nat, q: nat, ghost m: nat) returns (hit: bool)
      requires p <= q < m < buf.Length && forall k | p <= k < q :: buf[k] != '\0'
      modifies buf
      ensures hit <==> Matches(pattern, old(buf[p..q]))
      ensures buf[p..q] == old(buf[p..q]) && buf[q + 1..m] == old(buf[q + 1..m]) && buf[m] == old(buf[m])
    {
      hide Matches;
      ghost var line := buf[p..q];
      buf[q] := '\0';
      var text := StringFrom(p, q);
      assert text == line;
      hit := Match(pattern, text);
    }

    method PutNewline(p: nat, q: nat, ghost m: nat)
      requires p <= q < m < buf.Length
      modifies buf
      ensures buf[p..q + 1] == old(buf[p..q]) + "\n" && buf[q + 1..m] == old(buf[q + 1..m]) && buf[m] == old(buf[m])
    {
      buf[q] := '\n';
    }

    /** One line, from `p` to its newline at `q`: printed if it matches, and passed over. */
    method OneLine(pattern: string, p: nat, q: nat, m: nat) returns (p': nat)
      requires p <= q < m < buf.Length == SIZE && buf[m] == '\0'
      requires q == p + Stop(buf[p..m]) && buf[q] == '\n'
      modifies buf, this`output
      ensures p' == q + 1 && buf[m] == '\0'
      ensures output + Printed(pattern, buf[p'..m] + input) == old(output + Printed(pattern, buf[p..m] + input))
    {
      hide Printed, Stop, Matches;
      ghost var t := buf[p..m];
      ghost var line, rest := buf[p..q], buf[q + 1..m];
      LineIs(t, q - p);
      assert line == t[..q - p] && rest == t[q - p + 1..];
      LineDone(pattern, output, t, input);
      var hit := MatchLine(pattern, p, q, m);
      if hit {
        PutNewline(p, q, m);
        output := output + buf[p..q + 1];
      }
      p' := q + 1;
    }

    /** memmove to the front of the buffer. */
    method MoveToFront(p: nat, m: nat)
      requires p + m < buf.Length
      modifies buf
      ensures buf[..m] == old(buf[p..p + m])
    {
      var i := 0;
      while i < m
        invariant 0 <= i <= m && buf[..i] == old(buf[p..p + i])
        invariant forall k | p + i <= k < p + m :: buf[k] == old(buf[k])
      {
        buf[i] := buf[p + i];
        i := i + 1;
      }
    }

    lemma NothingBuffered()
      requires buf.Length == SIZE
      ensures NoLine(buf[..0])
    {
    }
  }

  lemma StopAt(t: string, k: nat)
    requires k <= |t| && (forall i | 0 <= i < k :: t[i] != '\n' && t[i] != '\0')
    requires k < |t| ==> t[k] == '\n' || t[k] == '\0'
    ensures Stop(t) == k
    decreases k
  {
    if k > 0 {
      StopAt(t[1..], k - 1);
    }
  }

  lemma LineIs(t: string, k: nat)
    requires k < |t| && k == Stop(t)
    ensures forall i | 0 <= i < k :: t[i] != '\0'
  {
  }

  /** Whether the line is printed or not, what is out and what is to come add up to the same. */
  lemma LineDone(re: string, out: string, t: string, more: string)
    requires Stop(t) < |t| < SIZE && t[Stop(t)] == '\n'
    ensures (if Matches(re, t[..Stop(t)]) then out + (t[..Stop(t)] + "\n") else out) + Printed(re, t[Stop(t) + 1..] + more)
         == out + Printed(re, t + more)
  {
    hide Matches, Stop, Printed;
    NextLine(re, t, more);
    var hit, after := Hit(re, t[..Stop(t)]), Printed(re, t[Stop(t) + 1..] + more);
    assert out + (hit + after) == (out + hit) + after;
    assert out + "" == out;
  }
}

