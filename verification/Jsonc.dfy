/** Turning a commented configuration into plain JSON. */
module Jsonc {

  type Byte = b: int | 0 <= b < 0x100

  const NEWLINE: Byte := 10
  const SPACE: Byte := 32
  const QUOTE: Byte := 34
  const STAR: Byte := 42
  const SLASH: Byte := 47
  const BACKSLASH: Byte := 92
  const UTF8_BOM: seq<Byte> := [0xEF, 0xBB, 0xBF]

  // ----- what every position of the source is -----

  /** Plain text; a string literal after its opening quote, and after a
      backslash in it; a line comment; a block comment's second opening byte,
      its inside, and its last byte. */
  datatype Mode = Code | Str | Esc | Line | Open | Block | Close

  function At(s: seq<Byte>, i: nat): int {
    if i < |s| then s[i] else -1
  }

  /** The mode after a byte, given the mode before it and the byte behind it. */
  function Step(m: Mode, c: Byte, next: int): Mode {
    match m
    case Code =>
      if c == QUOTE then Str
      else if c == SLASH && next == SLASH then Line
      else if c == SLASH && next == STAR then Open
      else Code
    case Str => if c == BACKSLASH then Esc else if c == QUOTE then Code else Str
    case Esc => Str
    case Line => if c == NEWLINE then Code else Line
    case Open => Block
    case Block => if c == STAR && next == SLASH then Close else Block
    case Close => Code
  }

  function ModeAt(s: seq<Byte>, i: nat): Mode
    requires i <= |s|
  {
    if i == 0 then Code else Step(ModeAt(s, i - 1), s[i - 1], At(s, i))
  }

  /** What a byte leaves behind: itself outside comments, a newline of a
      comment, and a space for a closed block comment. */
  function Kept(m: Mode, c: Byte, next: int): seq<Byte> {
    match m
    case Code => if c == SLASH && (next == SLASH || next == STAR) then [] else [c]
    case Str => [c]
    case Esc => [c]
    case Line => if c == NEWLINE then [c] else []
    case Open => []
    case Block => if c == NEWLINE then [c] else []
    case Close => [SPACE]
  }

  function KeptAt(s: seq<Byte>, i: nat): (r: seq<Byte>)
    requires i < |s|
    ensures |r| <= 1
  {
    Kept(ModeAt(s, i), s[i], At(s, i + 1))
  }

  /** What the first i bytes leave behind. */
  function Output(s: seq<Byte>, i: nat): seq<Byte>
    requires i <= |s|
  {
    if i == 0 then [] else Output(s, i - 1) + KeptAt(s, i - 1)
  }

  datatype Cleaned = Clean(out: seq<Byte>) | UnterminatedComment

  function Cleaning(s: seq<Byte>): Cleaned {
    if ModeAt(s, |s|) == Block then UnterminatedComment else Clean(Output(s, |s|))
  }

  function TrimBOM(s: seq<Byte>): seq<Byte> {
    if UTF8_BOM <= s then s[3..] else s
  }

  lemma Begin(s: seq<Byte>)
    ensures ModeAt(s, 0) == Code && Output(s, 0) == []
  {
  }

  lemma Advance(s: seq<Byte>, i: nat)
    requires i < |s|
    ensures ModeAt(s, i + 1) == Step(ModeAt(s, i), s[i], At(s, i + 1))
    ensures KeptAt(s, i) == Kept(ModeAt(s, i), s[i], At(s, i + 1))
    ensures Output(s, i + 1) == Output(s, i) + KeptAt(s, i)
  {
  }

  // ----- the program -----

  method CleanJSONC(input: seq<Byte>) returns (r: Cleaned)
    ensures r == Cleaning(TrimBOM(input))
  {
    hide ModeAt, Output, KeptAt;
    var src := if UTF8_BOM <= input then input[3..] else input;
    var out: seq<Byte> := [];
    var inString := false;
    var i := 0;
    Begin(src);
    while i < |src|
      invariant i <= |src| && out == Output(src, i)
      invariant i < |src| ==> ModeAt(src, i) == if inString then Str else Code
      invariant i == |src| ==> ModeAt(src, i) != Block
    {
      var c := src[i];
      Advance(src, i);
      if inString {
        out := out + [c];
        if c == BACKSLASH {
          if i + 1 < |src| {
            i := i + 1;
            Advance(src, i);
            out := out + [src[i]];
          }
        } else if c == QUOTE {
          inString := false;
        }
        i := i + 1;
      } else if c == QUOTE {
        inString := true;
        out := out + [c];
        i := i + 1;
      } else if c == SLASH && i + 1 < |src| && src[i + 1] == SLASH {
        i, out := SkipLine(src, i, out);
      } else if c == SLASH && i + 1 < |src| && src[i + 1] == STAR {
        var closed;
        i, out, closed := SkipBlock(src, i, out);
        if !closed {
          return UnterminatedComment;
        }
      } else {
        out := out + [c];
        i := i + 1;
      }
    }
    return Clean(out);
  }

  method SkipLine(src: seq<Byte>, start: nat, before: seq<Byte>) returns (i: nat, out: seq<Byte>)
    requires start + 1 < |src| && src[start] == SLASH == src[start + 1] && ModeAt(src, start) == Code
    requires before == Output(src, start)
    ensures start < i <= |src| && out == Output(src, i)
    ensures ModeAt(src, i) == Code || (i == |src| && ModeAt(src, i) == Line)
  {
    hide ModeAt, Output, KeptAt;
    i, out := start, before;
    while i < |src| && src[i] != NEWLINE
      invariant start <= i <= |src| && out == Output(src, i)
      invariant ModeAt(src, i) == if i == start then Code else Line
    {
      Advance(src, i);
      i := i + 1;
    }
    if i < |src| {
      Advance(src, i);
      out := out + [NEWLINE];
      i := i + 1;
    }
  }

  method SkipBlock(src: seq<Byte>, start: nat, before: seq<Byte>) returns (i: nat, out: seq<Byte>, closed: bool)
    requires start + 1 < |src| && src[start] == SLASH && src[start + 1] == STAR && ModeAt(src, start) == Code
    requires before == Output(src, start)
    ensures closed ==> start < i <= |src| && out == Output(src, i) && ModeAt(src, i) == Code
    ensures !closed ==> ModeAt(src, |src|) == Block
  {
    hide ModeAt, Output, KeptAt;
    i, out, closed := start + 2, before, false;
    Advance(src, start);
    Advance(src, start + 1);
    while i + 1 < |src| && (src[i] != STAR || src[i + 1] != SLASH)
      invariant start < i <= |src| && out == Output(src, i) && ModeAt(src, i) == Block
    {
      Advance(src, i);
      if src[i] == NEWLINE {
        out := out + [NEWLINE];
      }
      i := i + 1;
    }
    if i < |src| {
      Advance(src, i);
    }
    if i + 1 < |src| {
      i := i + 1;
      Advance(src, i);
      out := out + [SPACE];
      i := i + 1;
      closed := true;
    }
  }

  // ----- line numbers -----

  function Newlines(s: seq<Byte>): nat {
    if s == [] then 0 else Newlines(s[..|s| - 1]) + (if s[|s| - 1] == NEWLINE then 1 else 0)
  }

  lemma NewlinesMore(s: seq<Byte>, k: seq<Byte>)
    requires |k| <= 1
    ensures Newlines(s + k) == Newlines(s) + if k == [NEWLINE] then 1 else 0
  {
    if k == [] {
      assert s + k == s;
    } else {
      assert (s + k)[..|s|] == s && k == [k[0]];
    }
  }

  /** The bytes that open and close a block comment are no newlines. */
  lemma CommentEdges(s: seq<Byte>, i: nat)
    requires i < |s|
    ensures ModeAt(s, i) == Open ==> s[i] == STAR
    ensures ModeAt(s, i) == Close ==> s[i] == SLASH
  {
  }

  /** Whatever the byte at i leaves behind is preceded by exactly as many
      newlines as the byte itself: none is lost, none is added. */
  lemma {:induction false} SameLineNumber(s: seq<Byte>, i: nat)
    requires i <= |s|
    ensures Newlines(Output(s, i)) == Newlines(s[..i])
  {
    hide ModeAt, KeptAt, Newlines, Output;
    if i == 0 {
      Begin(s);
      assert s[..0] == Output(s, 0);
    } else {
      SameLineNumber(s, i - 1);
      Advance(s, i - 1);
      CommentEdges(s, i - 1);
      NewlinesMore(Output(s, i - 1), KeptAt(s, i - 1));
      NewlinesMore(s[..i - 1], [s[i - 1]]);
      assert s[..i] == s[..i - 1] + [s[i - 1]];
    }
  }

  // ----- comments -----

  lemma NewlinesAppend(s: seq<Byte>, c: Byte)
    ensures Newlines(s + [c]) == Newlines(s) + if c == NEWLINE then 1 else 0
  {
    assert (s + [c])[..|s|] == s;
  }

  /** The inside of a block comment leaves its newlines. */
  lemma {:induction false} InsideBlock(s: seq<Byte>, i: nat, j: nat)
    requires i + 2 <= j < |s| && ModeAt(s, i) == Code && s[i] == SLASH && s[i + 1] == STAR
    requires forall k :: i + 2 <= k < j ==> !(s[k] == STAR && s[k + 1] == SLASH)
    ensures ModeAt(s, j) == Block
    ensures Output(s, j) == Output(s, i) + seq(Newlines(s[i..j]), _ => NEWLINE)
    decreases j
  {
    hide ModeAt, Output, KeptAt, Newlines;
    Advance(s, j - 1);
    if j == i + 2 {
      Advance(s, i);
      assert s[i..j] == [] + [s[i]] + [s[i + 1]];
      NewlinesAppend([], s[i]);
      NewlinesAppend([] + [s[i]], s[i + 1]);
      NoNewlines();
    } else {
      InsideBlock(s, i, j - 1);
      assert s[i..j] == s[i..j - 1] + [s[j - 1]];
      NewlinesAppend(s[i..j - 1], s[j - 1]);
    }
  }

  lemma NoNewlines()
    ensures Newlines([]) == 0
  {
  }

  /** Where a block comment stood there are as many newlines as it had, then
      one space; it ends at the first closing bytes behind its opening. */
  lemma BlockLeavesSpace(s: seq<Byte>, i: nat, j: nat)
    requires i + 2 <= j && j + 1 < |s| && ModeAt(s, i) == Code && s[i] == SLASH && s[i + 1] == STAR
    requires s[j] == STAR && s[j + 1] == SLASH
    requires forall k :: i + 2 <= k < j ==> !(s[k] == STAR && s[k + 1] == SLASH)
    ensures ModeAt(s, j + 2) == Code
    ensures Output(s, j + 2) == Output(s, i) + seq(Newlines(s[i..j]), _ => 10) + [32]
  {
    InsideBlock(s, i, j);
    hide ModeAt, Output, KeptAt, Newlines;
    Advance(s, j);
    Advance(s, j + 1);
  }

  /** A line comment leaves nothing, and ends before its newline, which stays. */
  lemma {:induction false} LineLeavesNothing(s: seq<Byte>, i: nat, j: nat)
    requires i + 1 < |s| && ModeAt(s, i) == Code && s[i] == SLASH && s[i + 1] == SLASH
    requires i < j <= |s| && forall k :: i <= k < j ==> s[k] != NEWLINE
    ensures ModeAt(s, j) == Line && Output(s, j) == Output(s, i)
    ensures j < |s| && s[j] == NEWLINE ==> ModeAt(s, j + 1) == Code && Output(s, j + 1) == Output(s, i) + [10]
    decreases j
  {
    hide ModeAt, Output, KeptAt;
    Advance(s, j - 1);
    if i + 1 < j {
      LineLeavesNothing(s, i, j - 1);
    }
    if j < |s| {
      Advance(s, j);
    }
  }

  // ----- literals -----

  /** A stretch outside comments, string literals above all, is copied as it
      stands, comment markers and escaped quotes included. */
  lemma {:induction false} LiteralVerbatim(s: seq<Byte>, i: nat, j: nat)
    requires i <= j <= |s| && forall k :: i <= k < j ==> ModeAt(s, k).Str? || ModeAt(s, k).Esc?
    ensures Output(s, j) == Output(s, i) + s[i..j]
  {
    if i < j {
      LiteralVerbatim(s, i, j - 1);
      assert s[i..j] == s[i..j - 1] + [s[j - 1]];
    }
  }

  /** How many backslashes stand right before j, from the given place on. */
  function Slashes(s: seq<Byte>, from: nat, j: nat): nat
    requires from <= j <= |s|
  {
    if from < j && s[j - 1] == BACKSLASH then 1 + Slashes(s, from, j - 1) else 0
  }

  /** A quote behind an even number of backslashes. */
  predicate Unescaped(s: seq<Byte>, from: nat, j: nat)
    requires from <= j < |s|
  {
    s[j] == QUOTE && Slashes(s, from, j) % 2 == 0
  }

  ghost predicate InLiteral(s: seq<Byte>, i: nat, j: nat)
    requires j <= |s|
  {
    forall k :: i < k <= j ==> ModeAt(s, k).Str? || ModeAt(s, k).Esc?
  }

  ghost predicate NoneUnescaped(s: seq<Byte>, from: nat, j: nat)
    requires j <= |s|
  {
    forall k :: from <= k < j ==> !Unescaped(s, from, k)
  }

  lemma {:induction false} LiteralSoFar(s: seq<Byte>, i: nat, j: nat)
    requires i < j <= |s| && ModeAt(s, i) == Code && s[i] == QUOTE
    ensures InLiteral(s, i, j) <==> NoneUnescaped(s, i + 1, j)
    ensures InLiteral(s, i, j) ==> (ModeAt(s, j) == Esc <==> Slashes(s, i + 1, j) % 2 == 1)
  {
    Advance(s, j - 1);
    if j > i + 1 {
      LiteralSoFar(s, i, j - 1);
      hide ModeAt;
      assert InLiteral(s, i, j) <==> InLiteral(s, i, j - 1) && (ModeAt(s, j).Str? || ModeAt(s, j).Esc?);
      assert NoneUnescaped(s, i + 1, j) <==> NoneUnescaped(s, i + 1, j - 1) && !Unescaped(s, i + 1, j - 1);
    }
  }

  /** From its opening quote a literal ends exactly at the first quote that
      stands behind an even number of backslashes. */
  lemma LiteralEndsAtQuote(s: seq<Byte>, i: nat, j: nat)
    requires i < j < |s| && ModeAt(s, i) == Code && s[i] == QUOTE
    ensures InLiteral(s, i, j) && ModeAt(s, j + 1) == Code <==> NoneUnescaped(s, i + 1, j) && Unescaped(s, i + 1, j)
  {
    LiteralSoFar(s, i, j);
    Advance(s, j);
    hide ModeAt, NoneUnescaped;
    if InLiteral(s, i, j) {
      assert ModeAt(s, j).Str? || ModeAt(s, j).Esc?;
    }
  }

  // ----- cleaning again -----

  /** Without its comments, text is just text. */
  function Flat(m: Mode): Mode {
    if m.Str? || m.Esc? then m else Code
  }

  ghost predicate CommentFree(s: seq<Byte>) {
    forall i :: 0 <= i <= |s| ==> ModeAt(s, i) == Flat(ModeAt(s, i))
  }

  lemma {:induction false} OutputGrows(s: seq<Byte>, i: nat, j: nat)
    requires i <= j <= |s|
    ensures Output(s, i) <= Output(s, j)
  {
    if i < j {
      OutputGrows(s, i, j - 1);
    }
  }

  /** A slash that is kept is not followed by what would open a comment. */
  lemma NoNewComment(s: seq<Byte>, i: nat, o: seq<Byte>)
    requires i < |s| && o == Output(s, |s|) && ModeAt(s, i) == Code && s[i] == SLASH && KeptAt(s, i) == [SLASH]
    ensures At(o, |Output(s, i + 1)|) != SLASH && At(o, |Output(s, i + 1)|) != STAR
  {
    hide ModeAt, Output, KeptAt;
    Advance(s, i);
    if i + 1 < |s| {
      Advance(s, i + 1);
      assert Output(s, i + 2) == Output(s, i + 1) + [s[i + 1]];
      OutputGrows(s, i + 2, |s|);
    }
  }

  /** A byte that leaves nothing behind stays inside its comment. */
  lemma DroppedStaysFlat(m: Mode, c: Byte, next: int)
    ensures Kept(m, c, next) == [] ==> Flat(Step(m, c, next)) == Flat(m)
  {
  }

  lemma OneMoreByte(s: seq<Byte>, i: nat, o: seq<Byte>)
    requires i < |s| && o == Output(s, |s|)
    ensures |Output(s, i)| <= |Output(s, i + 1)| <= |o| && Output(s, i + 1) <= o
    ensures KeptAt(s, i) != [] ==>
              |Output(s, i + 1)| == |Output(s, i)| + 1 && [o[|Output(s, i)|]] == KeptAt(s, i)
    ensures KeptAt(s, i) == [] ==> Output(s, i + 1) == Output(s, i) && Flat(ModeAt(s, i + 1)) == Flat(ModeAt(s, i))
  {
    hide ModeAt, Output, KeptAt;
    Advance(s, i);
    DroppedStaysFlat(ModeAt(s, i), s[i], At(s, i + 1));
    hide Kept, Step, Flat;
    OutputGrows(s, i + 1, |s|);
  }

  ghost predicate FlatTo(s: seq<Byte>, n: nat)
    requires n <= |s|
  {
    forall i :: 0 <= i <= n ==> ModeAt(s, i) == Flat(ModeAt(s, i))
  }

  lemma FlatMore(s: seq<Byte>, n: nat, m: Mode)
    requires n < |s| && FlatTo(s, n) && ModeAt(s, n + 1) == Flat(m)
    ensures FlatTo(s, n + 1)
  {
    hide ModeAt;
  }

  /** Read again, the output is in the input's mode, comments flattened. */
  lemma {:induction false} ReadAgain(s: seq<Byte>, i: nat, o: seq<Byte>)
    requires i <= |s| && o == Output(s, |s|)
    ensures var k := |Output(s, i)|;
            k <= |o| && ModeAt(o, k) == Flat(ModeAt(s, i)) && Output(o, k) == Output(s, i) && FlatTo(o, k)
  {
    hide ModeAt, Output, KeptAt, FlatTo, Flat;
    if i == 0 {
      ReadNothing(s, o);
    } else {
      ReadAgain(s, i - 1, o);
      OneMoreByte(s, i - 1, o);
      Advance(s, i - 1);
      if KeptAt(s, i - 1) != [] {
        var k := |Output(s, i - 1)|;
        StepAgain(s, i - 1, o);
        FlatMore(o, k, ModeAt(s, i));
        Advance(o, k);
      }
    }
  }

  lemma ReadNothing(s: seq<Byte>, o: seq<Byte>)
    ensures Output(s, 0) == [] == Output(o, 0) && ModeAt(o, 0) == Flat(ModeAt(s, 0)) && FlatTo(o, 0)
  {
  }

  /** One byte of the output, read in the flattened mode. */
  lemma FlatStep(m: Mode, c: Byte, next: int, next2: int)
    requires Kept(m, c, next) != [] && (m == Code && c == SLASH ==> next2 != SLASH && next2 != STAR)
    ensures var e := Kept(m, c, next)[0];
            Step(Flat(m), e, next2) == Flat(Step(m, c, next)) && Kept(Flat(m), e, next2) == Kept(m, c, next)
  {
  }

  lemma StepAgain(s: seq<Byte>, i: nat, o: seq<Byte>)
    requires i < |s| && o == Output(s, |s|) && KeptAt(s, i) != [] && |Output(s, i)| < |o|
    requires ModeAt(o, |Output(s, i)|) == Flat(ModeAt(s, i))
    ensures ModeAt(o, |Output(s, i)| + 1) == Flat(ModeAt(s, i + 1))
    ensures KeptAt(o, |Output(s, i)|) == KeptAt(s, i)
  {
    hide ModeAt, Output, KeptAt;
    var k := |Output(s, i)|;
    OneMoreByte(s, i, o);
    Advance(s, i);
    Advance(o, k);
    if ModeAt(s, i) == Code && s[i] == SLASH {
      NoNewComment(s, i, o);
    }
    assert o[k] == KeptAt(s, i)[0];
    hide Step, Kept, Flat;
    FlatStep(ModeAt(s, i), s[i], At(s, i + 1), At(o, k + 1));
  }

  /** What cleaning returns holds no comments. */
  lemma OutputCommentFree(s: seq<Byte>)
    requires Cleaning(s).Clean?
    ensures CommentFree(Cleaning(s).out)
  {
    ReadAgain(s, |s|, Output(s, |s|));
  }

  lemma {:induction false} CommentFreeCopied(s: seq<Byte>, i: nat)
    requires CommentFree(s) && i <= |s|
    ensures Output(s, i) == s[..i]
  {
    if i > 0 {
      CommentFreeCopied(s, i - 1);
      assert ModeAt(s, i) == Flat(ModeAt(s, i));
      assert s[..i] == s[..i - 1] + [s[i - 1]];
    }
  }

  /** Text without comments is left alone. */
  lemma CommentFreeUnchanged(s: seq<Byte>)
    requires CommentFree(s)
    ensures Cleaning(s) == Clean(s)
  {
    CommentFreeCopied(s, |s|);
    assert ModeAt(s, |s|) == Flat(ModeAt(s, |s|));
    assert s[..|s|] == s;
  }

  /** In particular any text in which no slash is followed by a slash or a
      star. */
  lemma NoOpeningUnchanged(s: seq<Byte>)
    requires forall i :: 0 <= i && i + 1 < |s| && s[i] == 47 ==> s[i + 1] != 47 && s[i + 1] != 42
    ensures Cleaning(s) == Clean(s)
  {
    forall i | 0 <= i <= |s| ensures ModeAt(s, i) == Flat(ModeAt(s, i)) {
      NothingOpens(s, i);
    }
    CommentFreeUnchanged(s);
  }

  lemma {:induction false} NothingOpens(s: seq<Byte>, i: nat)
    requires i <= |s|
    requires forall k :: 0 <= k && k + 1 < |s| && s[k] == 47 ==> s[k + 1] != 47 && s[k + 1] != 42
    ensures ModeAt(s, i) == Flat(ModeAt(s, i))
  {
    if i > 0 {
      NothingOpens(s, i - 1);
    }
  }

  /** Cleaning again changes nothing exactly when the cleaned text does not
      begin with a second byte-order mark. */
  lemma CleaningAgain(input: seq<Byte>)
    requires Cleaning(TrimBOM(input)).Clean?
    ensures var out := Cleaning(TrimBOM(input)).out;
            Cleaning(TrimBOM(out)) == Clean(out) <==> !(UTF8_BOM <= out)
  {
    var out := Cleaning(TrimBOM(input)).out;
    OutputCommentFree(TrimBOM(input));
    CommentFreeUnchanged(out);
    OutputShorter(TrimBOM(out), |TrimBOM(out)|);
  }

  /** Two marks are such an input: one is left by the first cleaning, none by
      the second. */
  lemma SecondMarkDropped()
    ensures Cleaning(TrimBOM(UTF8_BOM + UTF8_BOM)) == Clean(UTF8_BOM)
    ensures Cleaning(TrimBOM(UTF8_BOM)) == Clean([])
  {
    var mark := UTF8_BOM;
    assert TrimBOM(mark + mark) == mark && TrimBOM(mark) == [];
    assert ModeAt(mark, 1) == Step(ModeAt(mark, 0), mark[0], At(mark, 1)) == Code;
    assert ModeAt(mark, 2) == Step(ModeAt(mark, 1), mark[1], At(mark, 2)) == Code;
    assert ModeAt(mark, 3) == Step(ModeAt(mark, 2), mark[2], At(mark, 3)) == Code;
    CommentFreeUnchanged(mark);
  }

  lemma {:induction false} OutputShorter(s: seq<Byte>, i: nat)
    requires i <= |s|
    ensures |Output(s, i)| <= i
  {
    if i > 0 {
      OutputShorter(s, i - 1);
    }
  }

  /** Cleaning fails exactly when some block comment opens and nothing after
      its opening closes it. */
  lemma FailsIffUnterminated(s: seq<Byte>)
    ensures Cleaning(s).UnterminatedComment? <==>
            exists i :: 0 <= i && i + 1 < |s| && ModeAt(s, i) == Code && s[i] == SLASH && s[i + 1] == STAR &&
                        NeverClosed(s, i + 2)
  {
    if ModeAt(s, |s|) == Block {
      var i := Opening(s, |s|);
    } else {
      forall i | 0 <= i && i + 1 < |s| && ModeAt(s, i) == Code && s[i] == SLASH && s[i + 1] == STAR &&
                 NeverClosed(s, i + 2)
        ensures false
      {
        assert ModeAt(s, i + 1) == Open;
        assert ModeAt(s, i + 2) == Block;
        StaysBlock(s, i + 2, |s|);
      }
    }
  }

  ghost predicate NeverClosed(s: seq<Byte>, i: nat) {
    forall k :: i <= k && k + 1 < |s| ==> !(s[k] == STAR && At(s, k + 1) == SLASH)
  }

  lemma {:induction false} StaysBlock(s: seq<Byte>, i: nat, j: nat)
    requires i <= j <= |s| && ModeAt(s, i) == Block && NeverClosed(s, i)
    ensures ModeAt(s, j) == Block
  {
    if i < j {
      StaysBlock(s, i, j - 1);
    }
  }

  /** Where the comment that is open at j began. */
  lemma {:induction false} Opening(s: seq<Byte>, j: nat) returns (i: nat)
    requires j <= |s| && ModeAt(s, j) == Block
    ensures i + 2 <= j && ModeAt(s, i) == Code && s[i] == SLASH && s[i + 1] == STAR
    ensures forall k :: i + 2 <= k < j && k + 1 < |s| ==> !(s[k] == STAR && At(s, k + 1) == SLASH)
    decreases j
  {
    if ModeAt(s, j - 1) == Open {
      i := j - 2;
    } else {
      assert ModeAt(s, j - 1) == Block;
      i := Opening(s, j - 1);
    }
  }
}
