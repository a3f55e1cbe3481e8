/** The comments of an RBS member: byte ranges into the source for every line of a comment block. */
module Comments {

  newtype byte = x: int | 0 <= x < 256

  const LF: byte := 10
  const CR: byte := 13

  datatype Comment = Comment(start: nat, end: nat, text: seq<byte>)

  // ---- lines ----

  /** `split('\n')` */
  function Lines(block: seq<byte>): (lines: seq<seq<byte>>)
    ensures lines != []
  {
    if block == [] then [[]]
    else if block[0] == LF then [[]] + Lines(block[1..])
    else
      var rest := Lines(block[1..]);
      [[block[0]] + rest[0]] + rest[1..]
  }

  function Join(lines: seq<seq<byte>>): seq<byte> {
    if lines == [] then []
    else if |lines| == 1 then lines[0]
    else lines[0] + [LF] + Join(lines[1..])
  }

  lemma {:induction false} LinesJoin(block: seq<byte>)
    ensures Join(Lines(block)) == block
    ensures forall i | 0 <= i < |Lines(block)| :: LF !in Lines(block)[i]
    decreases |block|
  {
    if block != [] {
      LinesJoin(block[1..]);
      var rest := Lines(block[1..]);
      assert block == [block[0]] + block[1..];
      if block[0] == LF {
        assert ([[]] + rest)[1..] == rest;
      } else {
        var lines := [[block[0]] + rest[0]] + rest[1..];
        assert lines[1..] == rest[1..];
        if |rest| == 1 {
          assert Join(lines) == [block[0]] + rest[0];
        } else {
          assert [block[0]] + (rest[0] + [LF] + Join(rest[1..])) == [block[0]] + rest[0] + [LF] + Join(rest[1..]);
        }
      }
    }
  }

  /** How many carriage returns end a line; `trim_end_matches` drops them all. */
  function TrailingCRs(line: seq<byte>): (n: nat)
    ensures n <= |line|
  {
    if line != [] && line[|line| - 1] == CR then TrailingCRs(line[..|line| - 1]) + 1 else 0
  }

  function Body(line: seq<byte>): seq<byte> {
    line[..|line| - TrailingCRs(line)]
  }

  /** The bytes of the white-space character a text starts with, in UTF-8; 0 if it starts with none. */
  function SpaceAt(t: seq<byte>): (n: nat)
    ensures n <= |t|
  {
    if |t| >= 1 && (9 <= t[0] <= 13 || t[0] == 32) then 1
    else if |t| >= 2 && t[0] == 0xC2 && (t[1] == 0x85 || t[1] == 0xA0) then 2
    else if |t| >= 3 && t[0] == 0xE1 && t[1] == 0x9A && t[2] == 0x80 then 3
    else if |t| >= 3 && t[0] == 0xE2 && t[1] == 0x80
            && (0x80 <= t[2] <= 0x8A || t[2] == 0xA8 || t[2] == 0xA9 || t[2] == 0xAF) then 3
    else if |t| >= 3 && t[0] == 0xE2 && t[1] == 0x81 && t[2] == 0x9F then 3
    else if |t| >= 3 && t[0] == 0xE3 && t[1] == 0x80 && t[2] == 0x80 then 3
    else 0
  }

  /** What `trim_start` drops. */
  function Indent(t: seq<byte>): (n: nat)
    ensures n <= |t|
    decreases |t|
  {
    if SpaceAt(t) == 0 then 0 else SpaceAt(t) + Indent(t[SpaceAt(t)..])
  }

  // ---- the comments of a block ----

  function LineIndent(line: seq<byte>, first: bool): (n: nat)
    ensures n <= |Body(line)|
  {
    if first then 0 else Indent(Body(line))
  }

  function CommentAt(line: seq<byte>, first: bool, at: nat): Comment {
    Comment(at + LineIndent(line, first), at + |Body(line)|, Body(line)[LineIndent(line, first)..])
  }

  /** The offset moves over the line, one CR if there was any, and the line feed. */
  function Advance(line: seq<byte>, at: nat): nat {
    at + |Body(line)| + if TrailingCRs(line) > 0 then 2 else 1
  }

  function CommentsOf(lines: seq<seq<byte>>, first: bool, at: nat): (cs: seq<Comment>)
    ensures |cs| == |lines|
  {
    if lines == [] then []
    else [CommentAt(lines[0], first, at)] + CommentsOf(lines[1..], false, Advance(lines[0], at))
  }

  /** `collect_comments` */
  method CollectComments(source: seq<byte>, start: nat, end: nat) returns (comments: seq<Comment>)
    requires start <= end <= |source|
    ensures comments == CommentsOf(Lines(source[start..end]), true, start)
  {
    var lines := Lines(source[start..end]);
    hide Lines, TrailingCRs, Indent, CommentsOf, Body, Advance, CommentAt;
    comments := [];
    var currentOffset: nat := start;
    assert lines[0..] == lines;
    for i := 0 to |lines|
      invariant comments + CommentsOf(lines[i..], i == 0, currentOffset) == CommentsOf(lines, true, start)
    {
      NextComment(lines, i, currentOffset);
      var comment, next := LineComment(lines[i], i == 0, currentOffset);
      Appended(comments, comment, CommentsOf(lines[i + 1..], false, next));
      comments := comments + [comment];
      if i < |lines| - 1 {
        currentOffset := next;
      } else {
        NoMoreComments(lines, currentOffset);
        NoMoreComments(lines, next);
      }
    }
    NoMoreComments(lines, currentOffset);
  }

  /** One line of the loop */
  method LineComment(line: seq<byte>, first: bool, at: nat) returns (comment: Comment, next: nat)
    ensures comment == CommentAt(line, first, at) && next == Advance(line, at)
  {
    EndsInCR(line);
    var size, body := 1, line;
    if line != [] && line[|line| - 1] == CR {
      body := Body(line);
      size := size + 1;
    }
    var indent: nat := if first then 0 else Indent(body);
    CommentStep(line, first, at, body, indent, size);
    var text := body[indent..];
    comment := Comment(at + indent, at + indent + |text|, text);
    next := at + indent + |text| + size;
  }

  lemma CommentStep(line: seq<byte>, first: bool, at: nat, body: seq<byte>, indent: nat, size: nat)
    requires body == Body(line) && indent == (if first then 0 else Indent(body))
    requires size == if TrailingCRs(line) > 0 then 2 else 1
    ensures indent <= |body|
    ensures CommentAt(line, first, at) == Comment(at + indent, at + indent + |body[indent..]|, body[indent..])
    ensures Advance(line, at) == at + indent + |body[indent..]| + size
  {
  }

  lemma Appended<T>(xs: seq<T>, x: T, rest: seq<T>)
    ensures xs + [x] + rest == xs + ([x] + rest)
  {
  }

  lemma NextComment(lines: seq<seq<byte>>, i: nat, at: nat)
    requires i < |lines|
    ensures CommentsOf(lines[i..], i == 0, at)
         == [CommentAt(lines[i], i == 0, at)] + CommentsOf(lines[i + 1..], false, Advance(lines[i], at))
  {
    assert lines[i..][1..] == lines[i + 1..];
  }

  lemma NoMoreComments(lines: seq<seq<byte>>, at: nat)
    ensures CommentsOf(lines[|lines|..], |lines| == 0, at) == []
  {
  }

  lemma EndsInCR(line: seq<byte>)
    ensures TrailingCRs(line) > 0 <==> line != [] && line[|line| - 1] == CR
    ensures TrailingCRs(line) == 0 ==> Body(line) == line
  {
  }

  // ---- the ranges ----

  /** Where line `k` really starts, counted from the start of the block. */
  function LineStart(lines: seq<seq<byte>>, k: nat): nat
    requires k <= |lines|
  {
    if k == 0 then 0 else LineStart(lines, k - 1) + |lines[k - 1]| + 1
  }

  /** How far the offsets have fallen behind at line `k`: each extra CR at the end of a line before it. */
  function Drift(lines: seq<seq<byte>>, k: nat): nat
    requires k <= |lines|
  {
    if k == 0 then 0
    else Drift(lines, k - 1) + if TrailingCRs(lines[k - 1]) > 1 then TrailingCRs(lines[k - 1]) - 1 else 0
  }

  lemma {:induction false} TailShifts(lines: seq<seq<byte>>, k: nat)
    requires 0 < k <= |lines|
    ensures LineStart(lines, k) == |lines[0]| + 1 + LineStart(lines[1..], k - 1)
    ensures Drift(lines, k) == Drift(lines, 1) + Drift(lines[1..], k - 1)
    decreases k
  {
    if k > 1 { TailShifts(lines, k - 1); }
  }

  /** The recorded start of every comment lies exactly the drift before its true place. */
  lemma {:induction false} StartsDrift(lines: seq<seq<byte>>, first: bool, at: nat, k: nat)
    requires k < |lines|
    ensures CommentsOf(lines, first, at)[k].start + Drift(lines, k)
         == at + LineStart(lines, k) + LineIndent(lines[k], first && k == 0)
    ensures CommentsOf(lines, first, at)[k].text == Body(lines[k])[LineIndent(lines[k], first && k == 0)..]
    decreases |lines|
  {
    if k > 0 {
      StartsDrift(lines[1..], false, Advance(lines[0], at), k - 1);
      TailShifts(lines, k);
    }
  }

  lemma {:induction false} JoinSlice(lines: seq<seq<byte>>, k: nat)
    requires k < |lines|
    ensures LineStart(lines, k) + |lines[k]| <= |Join(lines)|
    ensures Join(lines)[LineStart(lines, k)..LineStart(lines, k) + |lines[k]|] == lines[k]
    decreases |lines|
  {
    if k > 0 {
      JoinSlice(lines[1..], k - 1);
      TailShifts(lines, k);
      var head, rest := lines[0] + [LF], Join(lines[1..]);
      var from, to := LineStart(lines[1..], k - 1), LineStart(lines[1..], k - 1) + |lines[k]|;
      assert (head + rest)[|head| + from..|head| + to] == rest[from..to];
    } else if |lines| > 1 {
      assert (lines[0] + [LF] + Join(lines[1..]))[..|lines[0]|] == lines[0];
    }
  }

  ghost predicate AtMostOneCR(lines: seq<seq<byte>>, k: nat)
    requires k <= |lines|
  {
    forall j | 0 <= j < k :: TrailingCRs(lines[j]) <= 1
  }

  /** The range of comment `k` starts where its text does exactly if no line before it ends in more than one
      carriage return; then it slices the source back to the text, whatever the indentation and line ends. */
  lemma RangesSliceBack(source: seq<byte>, start: nat, end: nat, k: nat)
    requires start <= end <= |source| && k < |Lines(source[start..end])|
    ensures var lines := Lines(source[start..end]);
      var c := CommentsOf(lines, true, start)[k];
      && (c.start == start + LineStart(lines, k) + LineIndent(lines[k], k == 0) <==> AtMostOneCR(lines, k))
      && (AtMostOneCR(lines, k) ==> c.start <= c.end <= end && source[c.start..c.end] == c.text)
  {
    var lines := Lines(source[start..end]);
    hide CommentsOf, Lines, LineStart, AtMostOneCR, LineIndent;
    RangeStart(lines, start, k);
    if AtMostOneCR(lines, k) { RangeSlices(source, start, end, lines, k); }
  }

  lemma RangeStart(lines: seq<seq<byte>>, start: nat, k: nat)
    requires k < |lines|
    ensures CommentsOf(lines, true, start)[k].start == start + LineStart(lines, k) + LineIndent(lines[k], k == 0)
      <==> AtMostOneCR(lines, k)
  {
    hide CommentsOf, LineStart, Drift, AtMostOneCR, LineIndent, Body;
    StartsDrift(lines, true, start, k);
    NoDrift(lines, k);
  }

  lemma RangeSlices(source: seq<byte>, start: nat, end: nat, lines: seq<seq<byte>>, k: nat)
    requires start <= end <= |source| && lines == Lines(source[start..end]) && k < |lines| && AtMostOneCR(lines, k)
    ensures var c := CommentsOf(lines, true, start)[k];
      c.start <= c.end <= end && source[c.start..c.end] == c.text
  {
    hide CommentsOf, Lines, Join, LineStart, Drift, AtMostOneCR, LineIndent, Body;
    LinesJoin(source[start..end]);
    JoinSlice(lines, k);
    BodyLength(lines[k]);
    RangeStart(lines, start, k);
    EndsFit(lines, true, start, k);
    StartsDrift(lines, true, start, k);
    SliceOfSlice(source, start, end, LineStart(lines, k), lines[k], LineIndent(lines[k], k == 0), |Body(lines[k])|);
  }

  lemma BodyLength(line: seq<byte>)
    ensures |Body(line)| <= |line| && Body(line) == line[..|Body(line)|]
  {
  }

  lemma SliceOfSlice(source: seq<byte>, start: nat, end: nat, from: nat, line: seq<byte>, a: nat, b: nat)
    requires start <= end <= |source| && from + |line| <= end - start && a <= b <= |line|
    requires source[start..end][from..from + |line|] == line
    ensures source[start + from + a..start + from + b] == line[..b][a..]
  {
    DoubleSlice(source, start, end, from, from + |line|);
    DoubleSlice(source, start + from, start + from + |line|, a, b);
  }

  lemma DoubleSlice<T>(s: seq<T>, a: nat, b: nat, c: nat, d: nat)
    requires a <= b <= |s| && c <= d <= b - a
    ensures s[a..b][c..d] == s[a + c..a + d]
  {
    var inner, outer := s[a..b][c..d], s[a + c..a + d];
    assert |inner| == |outer| && forall i | 0 <= i < |inner| :: inner[i] == outer[i];
  }

  lemma {:induction false} NoDrift(lines: seq<seq<byte>>, k: nat)
    requires k <= |lines|
    ensures Drift(lines, k) == 0 <==> AtMostOneCR(lines, k)
    decreases k
  {
    if k > 0 { NoDrift(lines, k - 1); }
  }

  lemma {:induction false} EndsFit(lines: seq<seq<byte>>, first: bool, at: nat, k: nat)
    requires k < |lines|
    ensures var c := CommentsOf(lines, first, at)[k];
      c.end == c.start + |Body(lines[k])| - LineIndent(lines[k], first && k == 0)
    decreases |lines|
  {
    if k > 0 { EndsFit(lines[1..], false, Advance(lines[0], at), k - 1); }
  }

  /** Two carriage returns before the line feed make the next range miss its text. */
  lemma TwoCRsMiss()
    ensures var source := [35, CR, CR, LF, 35, 98];
      var cs := CommentsOf(Lines(source[0..6]), true, 0);
      |cs| == 2 && cs[1].text == [35, 98] && cs[1].start <= cs[1].end <= 6 && source[cs[1].start..cs[1].end] == [LF, 35]
  {
    var source: seq<byte> := [35, CR, CR, LF, 35, 98];
    assert source[0..6] == source;
    LinesOfLines([35, CR, CR], [35, 98]);
    assert source == [35, CR, CR] + [LF] + [35, 98];
    var lines: seq<seq<byte>> := [[35, CR, CR], [35, 98]];
    assert lines[1..] == [[35, 98]] && lines[1..][1..] == [];
    FirstLine();
    SecondLine();
    hide CommentAt, Advance;
    assert CommentsOf(lines, true, 0)[1] == CommentAt([35, 98], false, 3);
  }

  lemma FirstLine()
    ensures Advance([35, CR, CR], 0) == 3
  {
    assert [35, CR, CR][..2] == [35, CR] && [35, CR][..1] == [35];
    assert TrailingCRs([35]) == 0 && TrailingCRs([35, CR]) == 1 && TrailingCRs([35, CR, CR]) == 2;
  }

  lemma SecondLine()
    ensures CommentAt([35, 98], false, 3) == Comment(3, 5, [35, 98])
  {
    assert TrailingCRs([35, 98]) == 0 && Body([35, 98]) == [35, 98] && Indent([35, 98]) == 0;
  }

  lemma {:induction false} OneLine(b: seq<byte>)
    requires LF !in b
    ensures Lines(b) == [b]
    decreases |b|
  {
    if b != [] {
      OneLine(b[1..]);
      assert b == [b[0]] + b[1..];
    }
  }

  lemma {:induction false} LinesOfLines(a: seq<byte>, b: seq<byte>)
    requires LF !in a && LF !in b
    ensures Lines(a + [LF] + b) == [a, b]
    decreases |a|
  {
    if a == [] {
      OneLine(b);
      assert (a + [LF] + b)[1..] == b;
    } else {
      LinesOfLines(a[1..], b);
      LinesOfMore(a[0], a[1..] + [LF] + b);
      hide Lines;
      assert a + [LF] + b == [a[0]] + (a[1..] + [LF] + b);
      assert a == [a[0]] + a[1..];
    }
  }

  lemma LinesOfMore(x: byte, block: seq<byte>)
    requires x != LF
    ensures Lines([x] + block) == [[x] + Lines(block)[0]] + Lines(block)[1..]
  {
    assert ([x] + block)[1..] == block;
  }

  // ---- what is trimmed ----

  /** The first `n` bytes of a text are white space. */
  ghost predicate White(t: seq<byte>, n: nat) {
    n <= |t| && (n == 0 || (0 < SpaceAt(t) <= n && White(t[SpaceAt(t)..], n - SpaceAt(t))))
  }

  lemma {:induction false} IndentIsWhite(t: seq<byte>)
    ensures White(t, Indent(t)) && SpaceAt(t[Indent(t)..]) == 0
    decreases |t|
  {
    hide SpaceAt;
    if SpaceAt(t) > 0 {
      IndentIsWhite(t[SpaceAt(t)..]);
      assert t[SpaceAt(t)..][Indent(t[SpaceAt(t)..])..] == t[Indent(t)..];
    }
  }

  lemma {:induction false} TrailingAreCRs(line: seq<byte>)
    ensures forall i | |line| - TrailingCRs(line) <= i < |line| :: line[i] == CR
    ensures Body(line) != [] ==> Body(line)[|Body(line)| - 1] != CR
    decreases |line|
  {
    if line != [] && line[|line| - 1] == CR {
      TrailingAreCRs(line[..|line| - 1]);
      assert Body(line) == Body(line[..|line| - 1]);
    }
  }

  /** `text` is what is left of a line without the carriage returns at its end and, unless it is the first, without the
      white space at its start. */
  ghost predicate Trimmed(line: seq<byte>, first: bool, text: seq<byte>) {
    exists indent: nat, end: nat :: indent <= end <= |line| && TrimmedTo(line, first, text, indent, end)
  }

  ghost predicate TrimmedTo(line: seq<byte>, first: bool, text: seq<byte>, indent: nat, end: nat)
    requires indent <= end <= |line|
  {
    && text == line[indent..end]
    && (forall i | end <= i < |line| :: line[i] == CR) && (end > 0 ==> line[end - 1] != CR)
    && (if first then indent == 0 else White(line[..end], indent) && SpaceAt(text) == 0)
  }

  /** The text of every comment is its line, trimmed; the first line of a block keeps the white space it starts with. */
  lemma {:induction false} TextsAreTrimmed(lines: seq<seq<byte>>, first: bool, at: nat, i: nat)
    requires i < |lines|
    ensures Trimmed(lines[i], first && i == 0, CommentsOf(lines, first, at)[i].text)
    decreases i
  {
    if i > 0 {
      TextsAreTrimmed(lines[1..], false, Advance(lines[0], at), i - 1);
    } else {
      var line := lines[0];
      TrailingAreCRs(line);
      IndentIsWhite(Body(line));
      var indent, end := LineIndent(line, first), |Body(line)|;
      assert Body(line) == line[..end];
      assert CommentsOf(lines, first, at)[0].text == line[indent..end];
      hide SpaceAt, White, TrailingCRs, Indent, CommentsOf;
      assert TrimmedTo(line, first, line[indent..end], indent, end);
    }
  }
}
