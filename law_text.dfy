/**
 Notions shared by the law-text segmenters: the preamble sentinel, the default
 chapter, the article-marker pattern `第[一二三四五六七八九十百千万零\d]+条` of both
 data_processing.py files, and the grouping of a run of lines into the lines
 before the first article marker and the blocks that each marker opens.
 */
module LawText {
  import opened Text

  /** The line that separates a law file's metadata preamble from its body. */
  const Sentinel: string := "<!-- INFO END -->"

  /** The chapter in force before the first `## ` heading. */
  const DefaultChapter: string := "第一章 总则"

  /** The chapter heading prefix. */
  const ChapterPrefix: string := "## "

  /** One character of the class `[一二三四五六七八九十百千万零\d]`, with `\d` read as
      the ASCII digits. */
  predicate IsNumeral(c: char)
  {
    c in "一二三四五六七八九十百千万零" || '0' <= c <= '9'
  }

  /** The whole of `w` is `第`, one or more numerals, then `条`. */
  predicate IsArticleWord(w: string)
  {
    |w| >= 3 && w[0] == '第' && w[|w| - 1] == '条'
    && forall k :: 1 <= k < |w| - 1 ==> IsNumeral(w[k])
  }

  /** The length of the run of numerals that `s` starts with. */
  function NumeralRun(s: string): (n: nat)
    ensures n <= |s|
    ensures forall k :: 0 <= k < n ==> IsNumeral(s[k])
    ensures n == |s| || !IsNumeral(s[n])
  {
    if s != [] && IsNumeral(s[0]) then 1 + NumeralRun(s[1..]) else 0
  }

  /** `re.match(r'^(第[一二三四五六七八九十百千万零\d]+条)', line)`: the marker the line
      starts with, if any. */
  function ArticleTitle(line: string): (t: Option<string>)
    ensures t.Some? ==> t.value <= line && IsArticleWord(t.value)
  {
    if line != [] && line[0] == '第' then
      var n := NumeralRun(line[1..]);
      if 1 <= n && n + 1 < |line| && line[n + 1] == '条' then
        assert forall k :: 1 <= k < n + 1 ==> line[k] == line[1..][k - 1];
        Some(line[..n + 2])
      else None
    else None
  }

  /** Since `条` is not a numeral, at most one prefix of a line is a marker, and when
      there is one it is the title found. */
  lemma {:induction false} ArticleTitleExact(line: string, m: nat)
    requires m <= |line| && IsArticleWord(line[..m])
    ensures ArticleTitle(line) == Some(line[..m])
  {
    var s := line[1..];
    var n := NumeralRun(s);
    assert forall k :: 0 <= k < m - 2 ==> IsNumeral(s[k]) by {
      forall k | 0 <= k < m - 2 ensures IsNumeral(s[k]) {
        assert s[k] == line[..m][k + 1];
      }
    }
    assert s[m - 2] == line[..m][m - 1] == '条';
    assert !IsNumeral('条');
    if n < m - 2 {
      assert false;
    }
    assert n == m - 2;
    assert line[n + 1] == '条';
  }

  /** The line opens an article. */
  predicate IsArticleLine(line: string)
  {
    ArticleTitle(line).Some?
  }

  /** A heading line is not an article line, and neither is the sentinel. */
  lemma {:induction false} HeadingIsNotArticle(line: string)
    ensures ChapterPrefix <= line ==> !IsArticleLine(line)
    ensures !IsArticleLine(Sentinel)
  {
    if ChapterPrefix <= line {
      assert line[0] == '#';
    }
    assert Sentinel[0] == '<';
  }

  /** The number of input lines that, stripped, open an article. */
  function ArticleLineCount(lines: seq<string>): nat
  {
    if lines == [] then 0
    else ArticleLineCount(lines[..|lines| - 1]) + (if IsArticleLine(Strip(lines[|lines| - 1])) then 1 else 0)
  }

  /** The number of lines `isStart` accepts. */
  function CountStarts(xs: seq<string>, isStart: string -> bool): nat
  {
    if xs == [] then 0
    else CountStarts(xs[..|xs| - 1], isStart) + (if isStart(xs[|xs| - 1]) then 1 else 0)
  }

  /** The lines before the first line that `isStart` accepts. */
  function Leading(xs: seq<string>, isStart: string -> bool): (r: seq<string>)
    ensures r <= xs
    ensures forall k :: 0 <= k < |r| ==> !isStart(r[k])
    ensures |r| < |xs| ==> isStart(xs[|r|])
  {
    if xs == [] || isStart(xs[0]) then [] else [xs[0]] + Leading(xs[1..], isStart)
  }

  /** The blocks of `xs`: each accepted line opens a block that takes the following
      lines up to the next accepted line. Lines before the first accepted line belong
      to no block. */
  function Blocks(xs: seq<string>, isStart: string -> bool): seq<seq<string>>
  {
    if xs == [] then []
    else
      var bs := Blocks(xs[..|xs| - 1], isStart);
      var x := xs[|xs| - 1];
      if isStart(x) then bs + [[x]]
      else if bs == [] then []
      else bs[..|bs| - 1] + [bs[|bs| - 1] + [x]]
  }

  lemma {:induction false} CountStartsSnoc(xs: seq<string>, x: string, isStart: string -> bool)
    ensures CountStarts(xs + [x], isStart) == CountStarts(xs, isStart) + (if isStart(x) then 1 else 0)
  {
    assert (xs + [x])[..|xs|] == xs;
  }

  /** How one more line changes the blocks: an accepted line opens a new block, any
      other line extends the last block, if there is one. */
  lemma {:induction false} BlocksSnoc(xs: seq<string>, x: string, isStart: string -> bool)
    ensures var bs := Blocks(xs, isStart);
      Blocks(xs + [x], isStart)
        == if isStart(x) then bs + [[x]]
           else if bs == [] then []
           else bs[..|bs| - 1] + [bs[|bs| - 1] + [x]]
  {
    assert (xs + [x])[..|xs|] == xs;
  }

  /** There are no blocks exactly when no line is accepted; otherwise there is one
      block per accepted line, each opened by its accepted line and holding no other. */
  lemma {:induction false} BlocksShape(xs: seq<string>, isStart: string -> bool)
    ensures Blocks(xs, isStart) == [] <==> forall k :: 0 <= k < |xs| ==> !isStart(xs[k])
    ensures forall i :: 0 <= i < |Blocks(xs, isStart)| ==>
              Blocks(xs, isStart)[i] != [] && isStart(Blocks(xs, isStart)[i][0])
    ensures forall i, j :: 0 <= i < |Blocks(xs, isStart)| && 1 <= j < |Blocks(xs, isStart)[i]| ==>
              !isStart(Blocks(xs, isStart)[i][j])
    ensures |Blocks(xs, isStart)| == CountStarts(xs, isStart)
    decreases |xs|
  {
    if xs != [] {
      var init, x := xs[..|xs| - 1], xs[|xs| - 1];
      BlocksShape(init, isStart);
      var bs := Blocks(init, isStart);
      assert forall k :: 0 <= k < |init| ==> xs[k] == init[k];
      if isStart(x) {
        var bs' := bs + [[x]];
        assert Blocks(xs, isStart) == bs';
        forall i | 0 <= i < |bs'| ensures bs'[i] != [] && isStart(bs'[i][0]) {
          if i < |bs| { assert bs'[i] == bs[i]; }
        }
      } else if bs == [] {
        assert Blocks(xs, isStart) == [];
      } else {
        var bs' := bs[..|bs| - 1] + [bs[|bs| - 1] + [x]];
        assert Blocks(xs, isStart) == bs';
        forall i | 0 <= i < |bs'| ensures bs'[i] != [] && isStart(bs'[i][0]) {
          if i < |bs| - 1 { assert bs'[i] == bs[i]; } else { assert bs'[i][0] == bs[i][0]; }
        }
        forall i, j | 0 <= i < |bs'| && 1 <= j < |bs'[i]| ensures !isStart(bs'[i][j]) {
          if i < |bs| - 1 { assert bs'[i] == bs[i]; }
          else if j < |bs[i]| { assert bs'[i][j] == bs[i][j]; }
        }
      }
    }
  }

  /** All the lines of a sequence of blocks, in order. */
  function Concat(bs: seq<seq<string>>): seq<string>
  {
    if bs == [] then [] else Concat(bs[..|bs| - 1]) + bs[|bs| - 1]
  }

  lemma {:induction false} ConcatAppend(front: seq<seq<string>>, back: seq<seq<string>>)
    ensures Concat(front + back) == Concat(front) + Concat(back)
    decreases |back|
  {
    if back == [] {
      assert front + back == front;
    } else {
      assert (front + back)[..|front + back| - 1] == front + back[..|back| - 1];
      ConcatAppend(front, back[..|back| - 1]);
    }
  }

  /** Without an accepted line, every line is leading. */
  lemma {:induction false} LeadingAll(xs: seq<string>, isStart: string -> bool)
    requires forall k :: 0 <= k < |xs| ==> !isStart(xs[k])
    ensures Leading(xs, isStart) == xs
  {
    var r := Leading(xs, isStart);
    if |r| < |xs| {
      assert false;
    }
  }

  /** How one more line changes the leading lines. */
  lemma {:induction false} LeadingSnoc(xs: seq<string>, x: string, isStart: string -> bool)
    ensures Leading(xs + [x], isStart)
         == if Blocks(xs, isStart) == [] && !isStart(x) then xs + [x] else Leading(xs, isStart)
  {
    var ys := xs + [x];
    var r := Leading(ys, isStart);
    var l := Leading(xs, isStart);
    BlocksShape(xs, isStart);
    assert forall k :: 0 <= k < |xs| ==> ys[k] == xs[k];
    assert ys[|xs|] == x;
    assert forall k :: 0 <= k < |r| ==> !isStart(ys[k]);
    if Blocks(xs, isStart) == [] {
      LeadingAll(xs, isStart);
      if !isStart(x) {
        LeadingAll(ys, isStart);
      } else {
        assert |r| <= |xs|;
        assert |r| >= |xs|;
      }
    } else {
      assert |l| < |xs|;
      assert isStart(xs[|l|]);
      assert |r| <= |l|;
      assert forall k :: 0 <= k < |l| ==> !isStart(ys[k]);
      assert |r| >= |l|;
      assert r == ys[..|r|] && l == xs[..|l|];
    }
  }

  /** The leading lines and the blocks together are the input, in order: no line is
      lost, duplicated or moved. */
  lemma {:induction false} LeadingThenBlocks(xs: seq<string>, isStart: string -> bool)
    ensures Leading(xs, isStart) + Concat(Blocks(xs, isStart)) == xs
    decreases |xs|
  {
    if xs != [] {
      var init, x := xs[..|xs| - 1], xs[|xs| - 1];
      assert xs == init + [x];
      LeadingThenBlocks(init, isStart);
      LeadingSnoc(init, x, isStart);
      var bs := Blocks(init, isStart);
      if isStart(x) {
        assert Blocks(xs, isStart) == bs + [[x]];
        assert (bs + [[x]])[..|bs|] == bs;
      } else if bs != [] {
        var bs' := bs[..|bs| - 1] + [bs[|bs| - 1] + [x]];
        assert Blocks(xs, isStart) == bs';
        assert bs'[..|bs'| - 1] == bs[..|bs| - 1];
        assert Concat(bs) == Concat(bs[..|bs| - 1]) + bs[|bs| - 1];
      }
    }
  }

  /** The leading lines, when there are any, as a group of their own, followed by the
      blocks. */
  function Groups(xs: seq<string>, isStart: string -> bool): seq<seq<string>>
  {
    (if Leading(xs, isStart) == [] then [] else [Leading(xs, isStart)]) + Blocks(xs, isStart)
  }

  /** Together the groups are the input, so there are none exactly when the input is
      empty. */
  lemma {:induction false} GroupsConcat(xs: seq<string>, isStart: string -> bool)
    ensures Concat(Groups(xs, isStart)) == xs
    ensures Groups(xs, isStart) == [] <==> xs == []
  {
    var l := Leading(xs, isStart);
    var bs := Blocks(xs, isStart);
    var lg := if l == [] then [] else [l];
    assert Groups(xs, isStart) == lg + bs;
    LeadingThenBlocks(xs, isStart);
    ConcatAppend(lg, bs);
    if l != [] {
      assert lg[..0] == [];
      assert Concat(lg) == l;
    }
    if xs != [] && l == [] {
      BlocksShape(xs, isStart);
      assert isStart(xs[0]);
    }
  }

  /** The groups are non-empty, and only the first can lack an accepted first line. */
  lemma {:induction false} GroupsShape(xs: seq<string>, isStart: string -> bool)
    ensures forall i :: 0 <= i < |Groups(xs, isStart)| ==> Groups(xs, isStart)[i] != []
    ensures forall i :: 1 <= i < |Groups(xs, isStart)| ==> isStart(Groups(xs, isStart)[i][0])
  {
    var l := Leading(xs, isStart);
    var bs := Blocks(xs, isStart);
    var lg := if l == [] then [] else [l];
    var g := Groups(xs, isStart);
    assert g == lg + bs;
    BlocksShape(xs, isStart);
    forall i | 0 <= i < |g| ensures g[i] != [] && (i >= |lg| ==> isStart(g[i][0])) {
      if i >= |lg| {
        assert g[i] == bs[i - |lg|];
      }
    }
  }

  /** How one more line changes the groups: an accepted line opens a new group, any
      other line joins the last group (or opens the first). */
  lemma {:induction false} GroupsSnoc(xs: seq<string>, x: string, isStart: string -> bool)
    ensures var g := Groups(xs, isStart);
      Groups(xs + [x], isStart)
        == if isStart(x) then g + [[x]]
           else if g == [] then [[x]]
           else g[..|g| - 1] + [g[|g| - 1] + [x]]
  {
    var ys := xs + [x];
    assert ys[..|ys| - 1] == xs;
    LeadingSnoc(xs, x, isStart);
    var l := Leading(xs, isStart);
    var bs := Blocks(xs, isStart);
    var lg := if l == [] then [] else [l];
    var g := Groups(xs, isStart);
    assert g == lg + bs;
    if isStart(x) {
      assert Blocks(ys, isStart) == bs + [[x]];
      assert Leading(ys, isStart) == l;
      assert Groups(ys, isStart) == lg + (bs + [[x]]);
      assert lg + (bs + [[x]]) == g + [[x]];
    } else if bs == [] {
      LeadingAll(xs, isStart);
      assert Blocks(ys, isStart) == [];
      assert Leading(ys, isStart) == xs + [x];
      assert g == lg;
    } else {
      var init, last := bs[..|bs| - 1], bs[|bs| - 1];
      var bs' := init + [last + [x]];
      assert Blocks(ys, isStart) == bs';
      assert Leading(ys, isStart) == l;
      assert Groups(ys, isStart) == lg + bs';
      assert g == (lg + init) + [last];
      assert g[..|g| - 1] == lg + init;
      assert lg + bs' == (lg + init) + [last + [x]];
    }
  }
}
