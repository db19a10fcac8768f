/** Text as lines: splitting at newlines, trimming and joining, and what a
    buffered line scanner of a given size reads, as strings and bufio of the Go
    standard library define them. */
module TextLines {

  /** The pieces between newlines; never empty. */
  function Pieces(s: string): (r: seq<string>)
    ensures |r| > 0
  {
    if s == [] then [[]]
    else
      var rest := Pieces(s[1..]);
      if s[0] == '\n' then [[]] + rest else [[s[0]] + rest[0]] + rest[1..]
  }

  function TrimRight(s: string): string {
    if s != [] && s[|s| - 1] == '\n' then TrimRight(s[..|s| - 1]) else s
  }

  function JoinLines(lines: seq<string>): string {
    if lines == [] then [] else lines[0] + "\n" + JoinLines(lines[1..])
  }

  predicate EndsWith(s: string, c: char) {
    s != [] && s[|s| - 1] == c
  }

  /** One trailing carriage return is dropped. */
  function DropCR(s: string): (r: string)
    ensures r == s <==> !EndsWith(s, '\r')
    ensures |r| <= |s| && (r != s ==> |r| < |s| && s == r + "\r") && (forall c :: c in r ==> c in s)
  {
    if EndsWith(s, '\r') then s[..|s| - 1] else s
  }

  function DropCRs(lines: seq<string>): (r: seq<string>)
    ensures |r| == |lines| && forall i :: 0 <= i < |r| ==> r[i] == DropCR(lines[i])
  {
    seq(|lines|, i requires 0 <= i < |lines| => DropCR(lines[i]))
  }

  /** The raw lines of a file: what follows its last newline counts only if
      there is something. */
  function RawLines(s: string): seq<string> {
    var p := Pieces(s);
    if p[|p| - 1] == [] then p[..|p| - 1] else p
  }

  /** The lines before the first one that does not fit in max bytes together
      with what ends it. */
  function Fitting(lines: seq<string>, max: nat): (r: seq<string>)
    ensures |r| <= |lines| && r == lines[..|r|] && forall i :: 0 <= i < |r| ==> |r[i]| < max
    ensures |r| == |lines| <==> forall i :: 0 <= i < |lines| ==> |lines[i]| < max
    ensures |r| < |lines| ==> |lines[|r|]| >= max
  {
    if lines == [] || |lines[0]| >= max then []
    else
      assert lines == [lines[0]] + lines[1..];
      [lines[0]] + Fitting(lines[1..], max)
  }

  /** Exactly one carriage return goes, and only from the end. */
  lemma DropOneCR(s: string)
    ensures DropCR(s + "\r") == s
    ensures !EndsWith(s, '\r') ==> DropCR(s) == s
  {
    assert (s + "\r")[|s|] == '\r' && (s + "\r")[..|s|] == s;
  }

  datatype Scanned = Scanned(tokens: seq<string>, tooLong: bool)

  /** A line scanner with a buffer of max bytes: it stops for good at the first
      line that is too long. */
  function Scan(s: string, max: nat): Scanned {
    var raw := RawLines(s);
    var fit := Fitting(raw, max);
    Scanned(DropCRs(fit), |fit| < |raw|)
  }

  predicate OneLine(s: string) {
    '\n' !in s
  }

  lemma {:induction false} PiecesOneLine(s: string)
    ensures forall i :: 0 <= i < |Pieces(s)| ==> OneLine(Pieces(s)[i])
  {
    if s != [] {
      PiecesOneLine(s[1..]);
    }
  }

  lemma {:induction false} PiecesFirst(a: string, rest: string)
    requires OneLine(a)
    ensures Pieces(a + "\n" + rest) == [a] + Pieces(rest)
  {
    if a == [] {
      assert (a + "\n" + rest)[1..] == rest;
    } else {
      PiecesFirst(a[1..], rest);
      assert (a + "\n" + rest)[1..] == a[1..] + "\n" + rest;
      assert a == [a[0]] + a[1..];
    }
  }

  /** A file of whole lines reads back as those lines. */
  lemma {:induction false} JoinedLines(lines: seq<string>)
    requires forall i :: 0 <= i < |lines| ==> OneLine(lines[i])
    ensures Pieces(JoinLines(lines)) == lines + [[]] && RawLines(JoinLines(lines)) == lines
  {
    if lines != [] {
      JoinedLines(lines[1..]);
      PiecesFirst(lines[0], JoinLines(lines[1..]));
      assert lines == [lines[0]] + lines[1..];
    }
  }

  /** Splitting loses nothing: the pieces, none with a newline, joined again
      are the text. */
  lemma {:induction false} PiecesJoined(s: string)
    ensures JoinLines(Pieces(s)) == s + "\n"
    ensures forall i :: 0 <= i < |Pieces(s)| ==> OneLine(Pieces(s)[i])
  {
    PiecesOneLine(s);
    if s != [] {
      PiecesJoined(s[1..]);
      var p := Pieces(s);
      assert s == [s[0]] + s[1..];
      if s[0] == '\n' {
        assert p[1..] == Pieces(s[1..]);
      } else {
        assert p[0] == [s[0]] + Pieces(s[1..])[0] && p[1..] == Pieces(s[1..])[1..];
        assert JoinLines(p) == [s[0]] + JoinLines(Pieces(s[1..]));
      }
    }
  }

  /** Trimming removes newlines from the end, and all of them. */
  lemma {:induction false} TrimmedEnd(s: string)
    ensures var t := TrimRight(s);
            && |t| <= |s| && t == s[..|t|] && (t == [] || t[|t| - 1] != '\n')
            && forall i :: |t| <= i < |s| ==> s[i] == '\n'
  {
    if EndsWith(s, '\n') {
      TrimmedEnd(s[..|s| - 1]);
    }
  }

  lemma {:induction false} PiecesNewline(s: string)
    ensures Pieces(s + "\n") == Pieces(s) + [[]]
  {
    if s == [] {
      assert s + "\n" == "\n";
    } else {
      PiecesNewline(s[1..]);
      assert (s + "\n")[1..] == s[1..] + "\n";
    }
  }

  /** The last piece of a text that does not end in a newline is not empty. */
  lemma {:induction false} LastPiece(s: string)
    ensures Pieces(s)[|Pieces(s)| - 1] == [] <==> s == [] || EndsWith(s, '\n')
  {
    if |s| > 1 {
      LastPiece(s[1..]);
    }
  }

  /** Trailing newlines make trailing empty pieces, and nothing else. */
  lemma {:induction false} TrimmedPieces(s: string)
    ensures |Pieces(TrimRight(s))| <= |Pieces(s)| && Pieces(TrimRight(s)) == Pieces(s)[..|Pieces(TrimRight(s))|]
    ensures forall i :: |Pieces(TrimRight(s))| <= i < |Pieces(s)| ==> Pieces(s)[i] == []
  {
    if EndsWith(s, '\n') {
      var d := s[..|s| - 1];
      TrimmedPieces(d);
      PiecesNewline(d);
      assert s == d + "\n";
    }
  }

  predicate BlankTail(s: string) {
    |s| >= 2 && s[|s| - 1] == '\n' && s[|s| - 2] == '\n'
  }

  lemma NewlineAfter(d: string)
    ensures RawLines(d + "\n") == Pieces(d) && TrimRight(d + "\n") == TrimRight(d)
  {
    PiecesNewline(d);
    assert (d + "\n")[..|d|] == d;
  }

  /** Scanning and splitting see the same lines, except in an empty file and
      after trailing blank lines. */
  lemma RawAgainstTrimmed(s: string)
    ensures s == [] ==> |RawLines(s)| < |Pieces(TrimRight(s))|
    ensures BlankTail(s) ==> |RawLines(s)| > |Pieces(TrimRight(s))|
    ensures s != [] && !BlankTail(s) ==> RawLines(s) == Pieces(TrimRight(s))
  {
    LastPiece(s);
    hide Pieces, TrimRight;
    if EndsWith(s, '\n') {
      var d := s[..|s| - 1];
      assert s == d + "\n";
      NewlineAfter(d);
      if BlankTail(s) {
        var e := d[..|d| - 1];
        assert d == e + "\n";
        PiecesNewline(e);
        NewlineAfter(e);
        TrimmedPieces(e);
      } else {
        Untrimmed(d);
      }
    } else {
      Untrimmed(s);
    }
  }

  lemma Untrimmed(s: string)
    ensures !EndsWith(s, '\n') ==> TrimRight(s) == s
  {
  }
}
