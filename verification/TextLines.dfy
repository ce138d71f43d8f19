/** Text files as the C library reads and writes them: fgets into a buffer of 256 bytes, fputs. */
module TextLines {

  const BUFFER := 256

  /** How much one fgets takes: up to and with a newline, and at most 255 characters. */
  function Cut(text: string): (n: nat)
    ensures n <= |text| && n <= BUFFER - 1
    ensures text != "" ==> n > 0
    ensures forall i :: 0 <= i < n - 1 ==> text[i] != '\n'
    ensures n < |text| && n < BUFFER - 1 ==> text[n - 1] == '\n'
  {
    CutFrom(text, 0)
  }

  function CutFrom(text: string, i: nat): (n: nat)
    requires i <= |text| && i <= BUFFER - 1 && forall j :: 0 <= j < i ==> text[j] != '\n'
    ensures i <= n <= |text| && n <= BUFFER - 1
    ensures i < |text| && i < BUFFER - 1 ==> i < n
    ensures forall j :: 0 <= j < n - 1 ==> text[j] != '\n'
    ensures n < |text| && n < BUFFER - 1 ==> n > 0 && text[n - 1] == '\n'
    decreases |text| - i
  {
    if i == |text| || i == BUFFER - 1 then i
    else if text[i] == '\n' then i + 1
    else CutFrom(text, i + 1)
  }

  function Lines(text: string): seq<string>
    decreases |text|
  {
    if text == "" then [] else [text[..Cut(text)]] + Lines(text[Cut(text)..])
  }

  function Concat(lines: seq<string>): string {
    if lines == [] then "" else lines[0] + Concat(lines[1..])
  }

  /** What one fgets can take: no newline before its last character. */
  predicate Piece(line: string) {
    0 < |line| < BUFFER && forall i :: 0 <= i < |line| - 1 ==> line[i] != '\n'
  }

  /** A line that reads back as itself wherever it stands: it ends in a newline, or fills the
      buffer. */
  predicate Whole(line: string) {
    Piece(line) && (line[|line| - 1] == '\n' || |line| == BUFFER - 1)
  }

  predicate AllWhole(lines: seq<string>) {
    forall i :: 0 <= i < |lines| ==> Whole(lines[i])
  }

  /** Whole lines, the last one perhaps without its end. */
  predicate CutUp(lines: seq<string>) {
    AllWhole(lines) || (lines != [] && AllWhole(lines[..|lines| - 1]) && Piece(lines[|lines| - 1]))
  }

  lemma {:induction false} ConcatLines(text: string)
    ensures Concat(Lines(text)) == text
    decreases |text|
  {
    if text != "" {
      var n := Cut(text);
      ConcatLines(text[n..]);
      assert Lines(text)[1..] == Lines(text[n..]);
    }
  }

  lemma CutWhole(line: string, rest: string)
    requires Whole(line) || (Piece(line) && rest == "")
    ensures Cut(line + rest) == |line|
  {
    var t := line + rest;
    assert t[|line| - 1] == line[|line| - 1];
    assert forall i :: 0 <= i < |line| - 1 ==> t[i] == line[i];
  }

  /** Writing lines and reading the file back gives those lines. */
  lemma {:induction false} LinesConcat(lines: seq<string>)
    requires CutUp(lines)
    ensures Lines(Concat(lines)) == lines
  {
    if lines != [] {
      var rest := lines[1..];
      CutUpRest(lines);
      assert rest == [] ==> Concat(rest) == "";
      CutWhole(lines[0], Concat(rest));
      LinesConcat(rest);
      hide Cut;
    }
  }

  lemma CutUpRest(lines: seq<string>)
    requires CutUp(lines) && lines != []
    ensures CutUp(lines[1..])
    ensures Whole(lines[0]) || (Piece(lines[0]) && lines[1..] == [])
  {
    hide Whole, Piece;
    var rest, front := lines[1..], lines[..|lines| - 1];
    if !AllWhole(lines) && rest != [] {
      assert lines[0] == front[0] && rest[|rest| - 1] == lines[|lines| - 1];
      assert rest[..|rest| - 1] == front[1..];
    }
  }

  /** Whatever a file holds, only its last line can be without its end. */
  lemma {:induction false} LinesAreCutUp(text: string)
    ensures CutUp(Lines(text))
    decreases |text|
  {
    if text != "" {
      var n := Cut(text);
      LinesAreCutUp(text[n..]);
      FirstLine(text);
      CutUpMore(text[..n], Lines(text[n..]));
    }
  }

  lemma FirstLine(text: string)
    requires text != ""
    ensures var n := Cut(text);
      Whole(text[..n]) || (Piece(text[..n]) && text[n..] == "")
  {}

  lemma CutUpMore(line: string, rest: seq<string>)
    requires Whole(line) || (Piece(line) && rest == [])
    requires CutUp(rest)
    ensures CutUp([line] + rest)
  {
    hide Whole, Piece;
    var lines := [line] + rest;
    assert lines[1..] == rest;
    if !AllWhole(rest) {
      assert lines[..|lines| - 1] == [line] + rest[..|rest| - 1];
    }
  }

  lemma Associative(a: string, b: string, c: string)
    ensures a + b + c == a + (b + c)
  {}

  lemma {:induction false} ConcatJoin(a: seq<string>, b: seq<string>)
    ensures Concat(a + b) == Concat(a) + Concat(b)
  {
    if a == [] {
      assert a + b == b;
    } else {
      ConcatJoin(a[1..], b);
      assert (a + b)[1..] == a[1..] + b;
      Associative(a[0], Concat(a[1..]), Concat(b));
      hide *;
    }
  }

  lemma ConcatNone()
    ensures Concat([]) == ""
  {}

  lemma ConcatMore(lines: seq<string>, i: nat)
    requires i < |lines|
    ensures Concat(lines[..i + 1]) == Concat(lines[..i]) + lines[i]
  {
    assert lines[..i + 1] == lines[..i] + [lines[i]];
    ConcatJoin(lines[..i], [lines[i]]);
    assert Concat([lines[i]]) == lines[i];
  }
}
