/**
 The segmenter of src/data_processing.py. `parse_law_content` makes one pass over
 the stripped lines of a law body and emits three kinds of records: a record per
 `## ` chapter heading, a numbered record per article (the marker line and the
 plain lines after it), and a record per plain line met before the first article.

 As the code is written, a heading does not close the open article, and the open
 article is never cleared once the first marker has been seen: every plain line
 after the first marker joins an article, and an article is emitted at the next
 marker (or at the end) under the chapter in force at that moment.
 */
module DataProcessing {
  import opened Text
  import opened LawText

  /** One record of `parse_law_content`'s result. A chapter-title record has no
      `article_title` key; the other fields are spelled out by the constructors. */
  datatype Record =
    | ChapterTitle(chapter: string, content: string)
    | Article(chapter: string, title: string, content: string, number: nat)
    | FreeText(chapter: string, content: string)
  {
    /** The `is_chapter_title` field. */
    predicate IsChapterTitle()
    {
      ChapterTitle?
    }

    /** The `article_number` field: 0 except on article records. */
    function ArticleNumber(): nat
    {
      if Article? then number else 0
    }
  }

  /** The loop's variables: `current_chapter`, `current_article`, `current_content`,
      `article_number` and `results`. */
  datatype Scan = Scan(chapter: string, article: string, lines: seq<string>, count: nat, out: seq<Record>)

  const Start: Scan := Scan(DefaultChapter, "", [], 0, [])

  /** Saving the open article: numbered with the next number, under the current chapter.
      The article is not cleared afterwards. */
  function Flush(st: Scan): Scan
  {
    if st.article != "" && st.lines != [] then
      var saved := Article(st.chapter, st.article, Strip(Join(st.lines, "\n")), st.count + 1);
      Scan(st.chapter, st.article, st.lines, st.count + 1, st.out + [saved])
    else st
  }

  /** One iteration of the loop, on one raw line. */
  function Step(st: Scan, raw: string): Scan
  {
    var line := Strip(raw);
    if line == "" || line == Sentinel then st
    else if ChapterPrefix <= line then
      var chapter := Strip(line[3..]);
      Scan(chapter, st.article, st.lines, st.count, st.out + [ChapterTitle(chapter, line)])
    else match ArticleTitle(line)
      case Some(title) =>
        var saved := Flush(st);
        Scan(saved.chapter, title, [line], saved.count, saved.out)
      case None =>
        if st.lines != [] && line != "" then
          Scan(st.chapter, st.article, st.lines + [line], st.count, st.out)
        else if line != "" && st.article == "" then
          Scan(st.chapter, st.article, st.lines, st.count, st.out + [FreeText(st.chapter, line)])
        else st
  }

  /** The state after the loop has run over `lines`. */
  function ScanLines(lines: seq<string>): Scan
  {
    if lines == [] then Start
    else Step(ScanLines(lines[..|lines| - 1]), lines[|lines| - 1])
  }

  /** The records `parse_law_content` returns for these lines: the loop, then the
      final save of the open article. */
  function ParseLines(lines: seq<string>): seq<Record>
  {
    Flush(ScanLines(lines)).out
  }

  /** `parse_law_content(content)` */
  method ParseLawContent(content: string) returns (results: seq<Record>)
    ensures results == ParseLines(Split(content, "\n"))
  {
    var lines := Split(content, "\n");
    var currentChapter := DefaultChapter;
    var currentArticle := "";
    var currentContent: seq<string> := [];
    var articleNumber: nat := 0;
    results := [];
    for i := 0 to |lines|
      invariant ScanLines(lines[..i])
             == Scan(currentChapter, currentArticle, currentContent, articleNumber, results)
    {
      assert lines[..i + 1][..i] == lines[..i];
      currentChapter, currentArticle, currentContent, articleNumber, results :=
        ReadLine(currentChapter, currentArticle, currentContent, articleNumber, results, lines[i]);
    }
    assert lines[..|lines|] == lines;
    articleNumber, results := SaveArticle(currentChapter, currentArticle, currentContent, articleNumber, results);
  }

  /** The body of the loop, on one raw line. */
  method ReadLine(chapter: string, article: string, content: seq<string>, number: nat,
                  results: seq<Record>, raw: string)
    returns (chapter': string, article': string, content': seq<string>, number': nat, results': seq<Record>)
    ensures Step(Scan(chapter, article, content, number, results), raw)
         == Scan(chapter', article', content', number', results')
  {
    chapter', article', content', number', results' := chapter, article, content, number, results;
    var line := Strip(raw);
    if line == "" || line == Sentinel {
      // blank lines and the sentinel are skipped
    } else if ChapterPrefix <= line {
      chapter' := Strip(line[3..]);
      results' := results + [ChapterTitle(chapter', line)];
    } else {
      var title := ArticleTitle(line);
      if title.Some? {
        number', results' := SaveArticle(chapter, article, content, number, results);
        article' := title.value;
        content' := [line];
      } else if content != [] && line != "" {
        content' := content + [line];
      } else if line != "" && article == "" {
        results' := results + [FreeText(chapter, line)];
      }
    }
  }

  /** Saving the open article, the block the loop runs at each marker line and once
      more after the last line. */
  method SaveArticle(chapter: string, article: string, lines: seq<string>, count: nat, out: seq<Record>)
    returns (count': nat, out': seq<Record>)
    ensures Flush(Scan(chapter, article, lines, count, out)) == Scan(chapter, article, lines, count', out')
  {
    count', out' := count, out;
    if article != "" && lines != [] {
      count' := count + 1;
      var fullContent := Strip(Join(lines, "\n"));
      out' := out + [Article(chapter, article, fullContent, count')];
    }
  }

  // ---------------------------------------------------------------------------
  // What the records are, in terms of the input lines

  /** A stripped line that is neither blank, the sentinel nor a heading: an article
      marker line or a plain line. */
  predicate IsBodyLine(line: string)
  {
    line != "" && line != Sentinel && !(ChapterPrefix <= line)
  }

  /** A non-empty line without surrounding whitespace. */
  predicate IsClean(line: string)
  {
    line != "" && IsStripped(line)
  }

  /** The stripped body lines of the input, in order. */
  function Body(lines: seq<string>): (xs: seq<string>)
    ensures forall k :: 0 <= k < |xs| ==> IsClean(xs[k]) && IsBodyLine(xs[k])
  {
    if lines == [] then []
    else
      var line := Strip(lines[|lines| - 1]);
      Body(lines[..|lines| - 1]) + (if IsBodyLine(line) then [line] else [])
  }

  /** The record a heading line yields. */
  function HeadingRecords(lines: seq<string>): seq<Record>
  {
    if lines == [] then []
    else
      var line := Strip(lines[|lines| - 1]);
      HeadingRecords(lines[..|lines| - 1])
        + (if ChapterPrefix <= line then [ChapterTitle(Strip(line[3..]), line)] else [])
  }

  /** The chapter-title records, in order. */
  function ChapterTitles(rs: seq<Record>): seq<Record>
  {
    if rs == [] then []
    else ChapterTitles(rs[..|rs| - 1]) + (if rs[|rs| - 1].ChapterTitle? then [rs[|rs| - 1]] else [])
  }

  /** The contents of the free-standing records, in order. */
  function FreeTexts(rs: seq<Record>): seq<string>
  {
    if rs == [] then []
    else FreeTexts(rs[..|rs| - 1]) + (if rs[|rs| - 1].FreeText? then [rs[|rs| - 1].content] else [])
  }

  /** The article records, in order. */
  function Articles(rs: seq<Record>): seq<Record>
  {
    if rs == [] then []
    else Articles(rs[..|rs| - 1]) + (if rs[|rs| - 1].Article? then [rs[|rs| - 1]] else [])
  }

  /** The i-th article record is the i-th block of body lines: its title is the marker
      the block starts with, its content the block's lines joined by newlines, and
      its number i + 1. */
  ghost predicate ArticlesAre(arts: seq<Record>, bs: seq<seq<string>>)
  {
    |arts| == |bs|
    && forall i :: 0 <= i < |arts| ==>
         && bs[i] != []
         && arts[i].Article?
         && ArticleTitle(bs[i][0]) == Some(arts[i].title)
         && arts[i].content == Join(bs[i], "\n")
         && arts[i].number == i + 1
  }

  /** The heading records emitted so far are those of the lines read so far. */
  ghost predicate HeadingsTracked(out: seq<Record>, lines: seq<string>)
  {
    ChapterTitles(out) == HeadingRecords(lines)
  }

  /** The free-standing records emitted so far are the body lines before the first
      marker read so far. */
  ghost predicate FreeTracked(out: seq<Record>, xs: seq<string>)
  {
    FreeTexts(out) == Leading(xs, IsArticleLine)
  }

  /** The open article is the last block of the body lines read so far, if any. */
  ghost predicate OpenTracked(st: Scan, bs: seq<seq<string>>)
  {
    && (st.lines == [] <==> bs == [])
    && (st.article == "" <==> bs == [])
    && (bs != [] ==> st.lines == bs[|bs| - 1] && ArticleTitle(st.lines[0]) == Some(st.article))
    && (forall k :: 0 <= k < |st.lines| ==> IsClean(st.lines[k]))
  }

  /** The articles emitted so far are the closed blocks: all but the last. */
  ghost predicate ClosedTracked(st: Scan, bs: seq<seq<string>>)
  {
    && st.count == |Articles(st.out)|
    && ArticlesAre(Articles(st.out), if bs == [] then [] else bs[..|bs| - 1])
  }

  /** What the loop state means after a prefix of the input. */
  ghost predicate Tracks(st: Scan, lines: seq<string>)
  {
    var xs := Body(lines);
    var bs := Blocks(xs, IsArticleLine);
    HeadingsTracked(st.out, lines) && FreeTracked(st.out, xs) && OpenTracked(st, bs) && ClosedTracked(st, bs)
  }

  lemma {:induction false} TracksIntro(st: Scan, lines: seq<string>, xs: seq<string>, bs: seq<seq<string>>)
    requires xs == Body(lines) && bs == Blocks(xs, IsArticleLine)
    requires HeadingsTracked(st.out, lines) && FreeTracked(st.out, xs)
    requires OpenTracked(st, bs) && ClosedTracked(st, bs)
    ensures Tracks(st, lines)
  {
  }

  /** Saving an open article of clean lines appends it, its lines joined by newlines. */
  lemma {:induction false} FlushOpen(st: Scan)
    requires st.article != "" && st.lines != []
    requires forall k :: 0 <= k < |st.lines| ==> IsClean(st.lines[k])
    ensures Flush(st).out == st.out + [Article(st.chapter, st.article, Join(st.lines, "\n"), st.count + 1)]
  {
    FlushSaves(st);
  }

  lemma {:induction false} FlushSaves(st: Scan)
    requires st.lines != [] && forall k :: 0 <= k < |st.lines| ==> IsClean(st.lines[k])
    ensures Strip(Join(st.lines, "\n")) == Join(st.lines, "\n")
  {
    JoinStripped(st.lines, "\n");
    StripStripped(Join(st.lines, "\n"));
  }

  /** How one more record changes the three filters. */
  lemma {:induction false} RecordsSnoc(out: seq<Record>, r: Record)
    ensures ChapterTitles(out + [r]) == if r.ChapterTitle? then ChapterTitles(out) + [r] else ChapterTitles(out)
    ensures FreeTexts(out + [r]) == if r.FreeText? then FreeTexts(out) + [r.content] else FreeTexts(out)
    ensures Articles(out + [r]) == if r.Article? then Articles(out) + [r] else Articles(out)
  {
    assert (out + [r])[..|out|] == out;
    assert ChapterTitles(out) + [] == ChapterTitles(out);
    assert FreeTexts(out) + [] == FreeTexts(out);
    assert Articles(out) + [] == Articles(out);
  }

  /** How one more body line changes the body and the heading records. */
  lemma {:induction false} LinesSnoc(lines: seq<string>, raw: string)
    ensures Body(lines + [raw]) == if IsBodyLine(Strip(raw)) then Body(lines) + [Strip(raw)] else Body(lines)
    ensures !(ChapterPrefix <= Strip(raw)) ==> HeadingRecords(lines + [raw]) == HeadingRecords(lines)
  {
    assert (lines + [raw])[..|lines|] == lines;
  }

  /** One more closed block, matched by one more article record. */
  lemma {:induction false} ArticlesAreSnoc(arts: seq<Record>, bs: seq<seq<string>>, a: Record)
    requires bs != [] && ArticlesAre(arts, bs[..|bs| - 1])
    requires bs[|bs| - 1] != []
    requires a.Article? && ArticleTitle(bs[|bs| - 1][0]) == Some(a.title)
    requires a.content == Join(bs[|bs| - 1], "\n") && a.number == |bs|
    ensures ArticlesAre(arts + [a], bs)
  {
    var arts' := arts + [a];
    forall i | 0 <= i < |arts'|
      ensures bs[i] != [] && arts'[i].Article? && ArticleTitle(bs[i][0]) == Some(arts'[i].title)
      ensures arts'[i].content == Join(bs[i], "\n") && arts'[i].number == i + 1
    {
      if i < |arts| {
        assert arts'[i] == arts[i] && bs[i] == bs[..|bs| - 1][i];
      }
    }
  }

  /** Saving the open article closes the last block. */
  lemma {:induction false} FlushCloses(st: Scan, bs: seq<seq<string>>)
    requires OpenTracked(st, bs) && ClosedTracked(st, bs)
    ensures var fl := Flush(st);
      && fl.chapter == st.chapter
      && ChapterTitles(fl.out) == ChapterTitles(st.out)
      && FreeTexts(fl.out) == FreeTexts(st.out)
      && fl.count == |Articles(fl.out)|
      && ArticlesAre(Articles(fl.out), bs)
  {
    if bs == [] {
      assert Flush(st) == st;
    } else {
      FlushSaves(st);
      var a := Article(st.chapter, st.article, Join(st.lines, "\n"), st.count + 1);
      assert Flush(st).out == st.out + [a];
      RecordsSnoc(st.out, a);
      var last := bs[|bs| - 1];
      assert ArticlesAre(Articles(st.out), bs[..|bs| - 1]);
      assert last == st.lines;
      assert ArticleTitle(last[0]) == Some(a.title);
      assert a.content == Join(last, "\n");
      assert a.number == |bs|;
      ArticlesAreSnoc(Articles(st.out), bs, a);
    }
  }

  /** A blank line, the sentinel or a heading leaves the articles and free text alone. */
  lemma {:induction false} StepOutsideBody(st: Scan, lines: seq<string>, raw: string)
    requires Tracks(st, lines)
    requires !IsBodyLine(Strip(raw))
    ensures Tracks(Step(st, raw), lines + [raw])
  {
    var lines' := lines + [raw];
    var line := Strip(raw);
    var xs := Body(lines);
    var bs := Blocks(xs, IsArticleLine);
    LinesSnoc(lines, raw);
    assert Body(lines') == xs;
    var st' := Step(st, raw);
    if line == "" || line == Sentinel {
      assert st' == st;
    } else {
      var h := ChapterTitle(Strip(line[3..]), line);
      assert st' == Scan(h.chapter, st.article, st.lines, st.count, st.out + [h]);
      assert lines'[..|lines'| - 1] == lines;
      assert HeadingRecords(lines') == HeadingRecords(lines) + [h];
      RecordsSnoc(st.out, h);
      assert HeadingsTracked(st'.out, lines');
      assert FreeTracked(st'.out, xs);
      assert OpenTracked(st', bs);
      assert ClosedTracked(st', bs);
    }
  }

  /** Once the open article is saved, a marker line opens the next one. */
  lemma {:induction false} MarkerOpens(fl: Scan, bs: seq<seq<string>>, line: string)
    requires fl.count == |Articles(fl.out)| && ArticlesAre(Articles(fl.out), bs)
    requires IsClean(line) && IsArticleLine(line)
    ensures var st' := Scan(fl.chapter, ArticleTitle(line).value, [line], fl.count, fl.out);
      OpenTracked(st', bs + [[line]]) && ClosedTracked(st', bs + [[line]])
  {
    var title := ArticleTitle(line).value;
    assert |title| >= 3;
    var bs' := bs + [[line]];
    assert bs'[|bs'| - 1] == [line];
    assert bs'[..|bs'| - 1] == bs;
  }

  /** A plain line after a marker extends the open article. */
  lemma {:induction false} PlainExtends(st: Scan, bs: seq<seq<string>>, line: string)
    requires OpenTracked(st, bs) && ClosedTracked(st, bs)
    requires bs != [] && IsClean(line)
    ensures var st' := Scan(st.chapter, st.article, st.lines + [line], st.count, st.out);
      var bs' := bs[..|bs| - 1] + [bs[|bs| - 1] + [line]];
      OpenTracked(st', bs') && ClosedTracked(st', bs')
  {
    var bs' := bs[..|bs| - 1] + [bs[|bs| - 1] + [line]];
    assert bs'[..|bs'| - 1] == bs[..|bs| - 1];
  }

  /** A marker line saves the open article, if any, and opens a new one. */
  lemma {:induction false} StepMarker(st: Scan, lines: seq<string>, raw: string)
    requires Tracks(st, lines)
    requires IsBodyLine(Strip(raw)) && IsArticleLine(Strip(raw))
    ensures Tracks(Step(st, raw), lines + [raw])
  {
    var line := Strip(raw);
    var xs := Body(lines);
    var bs := Blocks(xs, IsArticleLine);
    LinesSnoc(lines, raw);
    BlocksSnoc(xs, line, IsArticleLine);
    LeadingSnoc(xs, line, IsArticleLine);
    FlushCloses(st, bs);
    var fl := Flush(st);
    MarkerOpens(fl, bs, line);
    var st' := Scan(fl.chapter, ArticleTitle(line).value, [line], fl.count, fl.out);
    assert Step(st, raw) == st';
    TracksIntro(st', lines + [raw], xs + [line], bs + [[line]]);
  }

  /** A plain line after the first marker joins the open article. */
  lemma {:induction false} StepPlainInArticle(st: Scan, lines: seq<string>, raw: string)
    requires Tracks(st, lines)
    requires IsBodyLine(Strip(raw)) && !IsArticleLine(Strip(raw))
    requires Blocks(Body(lines), IsArticleLine) != []
    ensures Tracks(Step(st, raw), lines + [raw])
  {
    var line := Strip(raw);
    var xs := Body(lines);
    var bs := Blocks(xs, IsArticleLine);
    LinesSnoc(lines, raw);
    BlocksSnoc(xs, line, IsArticleLine);
    LeadingSnoc(xs, line, IsArticleLine);
    PlainExtends(st, bs, line);
    var st' := Scan(st.chapter, st.article, st.lines + [line], st.count, st.out);
    assert Step(st, raw) == st';
    TracksIntro(st', lines + [raw], xs + [line], bs[..|bs| - 1] + [bs[|bs| - 1] + [line]]);
  }

  /** A plain line before the first marker becomes a free-standing record. */
  lemma {:induction false} StepPlainBeforeArticles(st: Scan, lines: seq<string>, raw: string)
    requires Tracks(st, lines)
    requires IsBodyLine(Strip(raw)) && !IsArticleLine(Strip(raw))
    requires Blocks(Body(lines), IsArticleLine) == []
    ensures Tracks(Step(st, raw), lines + [raw])
  {
    var line := Strip(raw);
    var xs := Body(lines);
    LinesSnoc(lines, raw);
    BlocksSnoc(xs, line, IsArticleLine);
    LeadingSnoc(xs, line, IsArticleLine);
    BlocksShape(xs, IsArticleLine);
    LeadingAll(xs, IsArticleLine);
    var f := FreeText(st.chapter, line);
    RecordsSnoc(st.out, f);
    var st' := Scan(st.chapter, st.article, st.lines, st.count, st.out + [f]);
    assert Step(st, raw) == st';
    TracksIntro(st', lines + [raw], xs + [line], []);
  }

  lemma {:induction false} StepTracks(st: Scan, lines: seq<string>, raw: string)
    requires Tracks(st, lines)
    ensures Tracks(Step(st, raw), lines + [raw])
  {
    var line := Strip(raw);
    if !IsBodyLine(line) {
      StepOutsideBody(st, lines, raw);
    } else if IsArticleLine(line) {
      StepMarker(st, lines, raw);
    } else if Blocks(Body(lines), IsArticleLine) != [] {
      StepPlainInArticle(st, lines, raw);
    } else {
      StepPlainBeforeArticles(st, lines, raw);
    }
  }

  lemma {:induction false} ScanTracks(lines: seq<string>)
    ensures Tracks(ScanLines(lines), lines)
    decreases |lines|
  {
    if lines != [] {
      var init, raw := lines[..|lines| - 1], lines[|lines| - 1];
      assert lines == init + [raw];
      var st := ScanLines(init);
      assert ScanLines(lines) == Step(st, raw);
      ScanTracks(init);
      StepTracks(st, init, raw);
    }
  }

  /** After the final save, the article records are exactly the blocks of body lines
      that the article markers open: one record per marker line, numbered 1, 2, ...
      in order, each holding its marker line and the plain lines after it, joined
      by newlines, and titled with the marker. */
  lemma {:induction false} ArticlesMatchBlocks(lines: seq<string>)
    ensures ArticlesAre(Articles(ParseLines(lines)), Blocks(Body(lines), IsArticleLine))
  {
    ScanTracks(lines);
    FlushCloses(ScanLines(lines), Blocks(Body(lines), IsArticleLine));
  }

  /** An article line is neither blank, the sentinel nor a heading. */
  lemma {:induction false} ArticleLineIsBody(line: string)
    ensures IsArticleLine(line) ==> IsBodyLine(line)
  {
    if IsArticleLine(line) {
      assert line[0] == '第';
      assert Sentinel[0] == '<' && ChapterPrefix[0] == '#';
    }
  }

  lemma {:induction false} BodyArticleCount(lines: seq<string>)
    ensures CountStarts(Body(lines), IsArticleLine) == ArticleLineCount(lines)
    decreases |lines|
  {
    if lines != [] {
      var init := lines[..|lines| - 1];
      var raw := lines[|lines| - 1];
      SplitLast(lines);
      BodyArticleCount(init);
      var line := Strip(raw);
      LinesSnoc(init, raw);
      ArticleLineIsBody(line);
      assert ArticleLineCount(lines) == ArticleLineCount(init) + (if IsArticleLine(line) then 1 else 0);
      if IsBodyLine(line) {
        CountStartsSnoc(Body(init), line, IsArticleLine);
      }
    }
  }

  /** There are as many article records as input lines that open an article, and their
      `article_number` values are 1, 2, ..., k in output order. */
  lemma {:induction false} ArticleNumbering(lines: seq<string>)
    ensures |Articles(ParseLines(lines))| == ArticleLineCount(lines)
    ensures forall i :: 0 <= i < |Articles(ParseLines(lines))| ==>
              Articles(ParseLines(lines))[i].ArticleNumber() == i + 1
  {
    ArticlesMatchBlocks(lines);
    BlocksShape(Body(lines), IsArticleLine);
    BodyArticleCount(lines);
  }

  /** Every heading line yields exactly one chapter-title record, in line order, whose
      chapter is the heading text after `## ` and whose content is the stripped line. */
  lemma {:induction false} ChapterTitlesMatchHeadings(lines: seq<string>)
    ensures ChapterTitles(ParseLines(lines)) == HeadingRecords(lines)
  {
    ScanTracks(lines);
    FlushCloses(ScanLines(lines), Blocks(Body(lines), IsArticleLine));
  }

  /** The free-standing records are exactly the plain lines before the first article
      marker, in order; every later plain line joins an article. */
  lemma {:induction false} FreeTextsBeforeFirstArticle(lines: seq<string>)
    ensures FreeTexts(ParseLines(lines)) == Leading(Body(lines), IsArticleLine)
  {
    ScanTracks(lines);
    FlushCloses(ScanLines(lines), Blocks(Body(lines), IsArticleLine));
  }

  // ---------------------------------------------------------------------------
  // Blank lines, the sentinel and the chapter in force

  /** A line the loop skips: blank once stripped, or the sentinel. */
  predicate IsSkipped(raw: string)
  {
    Strip(raw) == "" || Strip(raw) == Sentinel
  }

  /** The input without the skipped lines. */
  function Kept(lines: seq<string>): (ks: seq<string>)
    ensures forall k :: 0 <= k < |ks| ==> !IsSkipped(ks[k])
  {
    if lines == [] then []
    else Kept(lines[..|lines| - 1]) + (if IsSkipped(lines[|lines| - 1]) then [] else [lines[|lines| - 1]])
  }

  lemma {:induction false} ScanKept(lines: seq<string>)
    ensures ScanLines(Kept(lines)) == ScanLines(lines)
    decreases |lines|
  {
    if lines != [] {
      var init, raw := lines[..|lines| - 1], lines[|lines| - 1];
      ScanKept(init);
      assert ScanLines(lines) == Step(ScanLines(init), raw);
      if IsSkipped(raw) {
        assert Kept(lines) == Kept(init);
        StepSkipped(ScanLines(init), raw);
      } else {
        var ks := Kept(init) + [raw];
        assert Kept(lines) == ks;
        assert ks[..|ks| - 1] == Kept(init);
        assert ScanLines(ks) == Step(ScanLines(Kept(init)), raw);
      }
    }
  }

  lemma {:induction false} StepSkipped(st: Scan, raw: string)
    requires IsSkipped(raw)
    ensures Step(st, raw) == st
  {
  }

  /** Blank lines and the sentinel line make no difference anywhere in the result:
      they neither add a record nor close or extend the open article. */
  lemma {:induction false} SkippedLinesIgnored(lines: seq<string>)
    ensures ParseLines(Kept(lines)) == ParseLines(lines)
  {
    ScanKept(lines);
  }

  /** The chapter in force after `lines`: the text of the last heading, or the default
      chapter when there is none. */
  function ChapterAfter(lines: seq<string>): string
  {
    if lines == [] then DefaultChapter
    else
      var line := Strip(lines[|lines| - 1]);
      if ChapterPrefix <= line then Strip(line[3..]) else ChapterAfter(lines[..|lines| - 1])
  }

  lemma {:induction false} ScanChapter(lines: seq<string>)
    ensures ScanLines(lines).chapter == ChapterAfter(lines)
    decreases |lines|
  {
    if lines != [] {
      var init := lines[..|lines| - 1];
      ScanChapter(init);
      FlushKeepsChapter(ScanLines(init));
    }
  }

  lemma {:induction false} FlushKeepsChapter(st: Scan)
    ensures Flush(st).chapter == st.chapter
  {
  }

  /** The last article is saved only at the end of the input, under the chapter in
      force at that moment: a heading read after its marker line labels it, and the
      article record comes last, after that heading's record. */
  lemma {:induction false} FinalArticleChapter(lines: seq<string>)
    requires ArticleLineCount(lines) > 0
    ensures var rs := ParseLines(lines);
      && rs != []
      && rs[|rs| - 1].Article?
      && rs[|rs| - 1].chapter == ChapterAfter(lines)
      && rs[|rs| - 1].number == ArticleLineCount(lines)
  {
    ArticleOpen(lines);
    ScanChapter(lines);
    FlushLast(ScanLines(lines));
  }

  /** Saving an open article appends it last, numbered after the ones already saved. */
  lemma {:induction false} FlushLast(st: Scan)
    requires st.article != "" && st.lines != []
    ensures var out := Flush(st).out;
      out != [] && out[|out| - 1].Article?
      && out[|out| - 1].chapter == st.chapter && out[|out| - 1].number == st.count + 1
  {
  }

  /** Once a marker line has been read, an article is open: the loop never clears it. */
  lemma {:induction false} ArticleOpen(lines: seq<string>)
    requires ArticleLineCount(lines) > 0
    ensures ScanLines(lines).article != "" && ScanLines(lines).lines != []
    ensures ScanLines(lines).count + 1 == ArticleLineCount(lines)
  {
    var st := ScanLines(lines);
    var bs := Blocks(Body(lines), IsArticleLine);
    ScanTracks(lines);
    BodyArticleCount(lines);
    BlocksShape(Body(lines), IsArticleLine);
    assert bs != [];
  }

  lemma {:induction false} StepOnMarker(st: Scan, line: string)
    requires IsClean(line) && IsArticleLine(line)
    ensures var fl := Flush(st);
      Step(st, line) == Scan(fl.chapter, ArticleTitle(line).value, [line], fl.count, fl.out)
  {
    StripStripped(line);
    ArticleLineIsBody(line);
  }

  lemma {:induction false} StepOnHeading(st: Scan, line: string)
    requires IsClean(line) && ChapterPrefix <= line
    ensures var chapter := Strip(line[3..]);
      Step(st, line) == Scan(chapter, st.article, st.lines, st.count, st.out + [ChapterTitle(chapter, line)])
  {
    StripStripped(line);
    assert line[0] == '#' && Sentinel[0] == '<';
  }

  lemma {:induction false} StepOnPlain(st: Scan, line: string)
    requires IsClean(line) && IsBodyLine(line) && !IsArticleLine(line) && st.lines != []
    ensures Step(st, line) == Scan(st.chapter, st.article, st.lines + [line], st.count, st.out)
  {
    StripStripped(line);
  }

  /** One more line is one more step of the loop. */
  lemma {:induction false} ScanSnoc(init: seq<string>, x: string)
    ensures ScanLines(init + [x]) == Step(ScanLines(init), x)
  {
    assert (init + [x])[..|init|] == init;
  }

  /** A heading does not close the open article: after any input that has opened an
      article, a `## ` line records its heading and moves to the new chapter, and the
      plain line after it still joins the same article, which stays unsaved. */
  lemma {:induction false} HeadingKeepsArticleOpen(lines: seq<string>, h: string, p: string)
    requires ArticleLineCount(lines) > 0
    requires IsClean(h) && ChapterPrefix <= h
    requires IsClean(p) && IsBodyLine(p) && !IsArticleLine(p)
    ensures var st := ScanLines(lines);
      var after := ScanLines(lines + [h, p]);
      && after.chapter == Strip(h[3..])
      && after.article == st.article
      && after.lines == st.lines + [p]
      && after.count == st.count
      && after.out == st.out + [ChapterTitle(Strip(h[3..]), h)]
  {
    var st := ScanLines(lines);
    ArticleOpen(lines);
    ScanHeading(lines, h);
    ScanPlain(lines + [h], p);
    AppendTwo(lines, h, p);
  }

  lemma {:induction false} AppendTwo(xs: seq<string>, x: string, y: string)
    ensures xs + [x] + [y] == xs + [x, y]
  {
  }

  lemma {:induction false} ScanHeading(lines: seq<string>, h: string)
    requires IsClean(h) && ChapterPrefix <= h
    ensures var st := ScanLines(lines);
      ScanLines(lines + [h])
        == Scan(Strip(h[3..]), st.article, st.lines, st.count, st.out + [ChapterTitle(Strip(h[3..]), h)])
  {
    ScanSnoc(lines, h);
    StepOnHeading(ScanLines(lines), h);
  }

  lemma {:induction false} ScanPlain(lines: seq<string>, p: string)
    requires IsClean(p) && IsBodyLine(p) && !IsArticleLine(p)
    requires ScanLines(lines).lines != []
    ensures var st := ScanLines(lines);
      ScanLines(lines + [p]) == Scan(st.chapter, st.article, st.lines + [p], st.count, st.out)
  {
    ScanSnoc(lines, p);
    StepOnPlain(ScanLines(lines), p);
  }

  // ---------------------------------------------------------------------------
  // The chapter each record carries

  /** The chapter in force when each marker line is read, in input order. An article
      is saved when the next marker line is read, so article i (counting from 0)
      carries the (i + 1)-th entry; the last one is saved at the end of the input. */
  function MarkerChapters(lines: seq<string>): (cs: seq<string>)
    ensures |cs| == ArticleLineCount(lines)
  {
    if lines == [] then []
    else
      var init := lines[..|lines| - 1];
      MarkerChapters(init) + (if IsArticleLine(Strip(lines[|lines| - 1])) then [ChapterAfter(init)] else [])
  }

  /** The chapter in force at each plain line read before the first marker line. */
  function FreeLineChapters(lines: seq<string>): seq<string>
  {
    if lines == [] then []
    else
      var init := lines[..|lines| - 1];
      var line := Strip(lines[|lines| - 1]);
      FreeLineChapters(init)
        + (if IsBodyLine(line) && !IsArticleLine(line) && ArticleLineCount(init) == 0
           then [ChapterAfter(init)] else [])
  }

  /** The chapters of the free-standing records, in order. */
  function FreeTextChapters(rs: seq<Record>): seq<string>
  {
    if rs == [] then []
    else FreeTextChapters(rs[..|rs| - 1]) + (if rs[|rs| - 1].FreeText? then [rs[|rs| - 1].chapter] else [])
  }

  /** What the loop state says about chapters, in terms of the chapter in force,
      the number of marker lines read, the chapter in force at each of them and the
      chapter in force at each free-standing line: an article is open exactly once a
      marker line has been read, every marker line but the last has closed an
      article, and each saved record carries the chapter in force when it was saved. */
  predicate ChapterState(st: Scan, chapter: string, n: nat, markers: seq<string>, frees: seq<string>)
  {
    && st.chapter == chapter
    && (st.article == "" <==> n == 0)
    && (st.lines == [] <==> n == 0)
    && |markers| == n
    && |Articles(st.out)| == (if n == 0 then 0 else n - 1)
    && SavedUnder(Articles(st.out), markers)
    && FreeTextChapters(st.out) == frees
  }

  /** The state after a prefix of the input, against the functions of that prefix. */
  predicate ChaptersTracked(st: Scan, lines: seq<string>)
  {
    ChapterState(st, ChapterAfter(lines), ArticleLineCount(lines), MarkerChapters(lines), FreeLineChapters(lines))
  }

  /** Article i carries the (i + 1)-th chapter. */
  predicate SavedUnder(arts: seq<Record>, chapters: seq<string>)
  {
    forall i :: 0 <= i < |arts| && i + 1 < |chapters| ==> arts[i].chapter == chapters[i + 1]
  }

  /** One more article, saved under the chapter the next marker line adds. */
  lemma {:induction false} SavedUnderSnoc(arts: seq<Record>, a: Record, chapters: seq<string>)
    requires |chapters| == |arts| + 1 && SavedUnder(arts, chapters)
    ensures SavedUnder(arts + [a], chapters + [a.chapter])
  {
    var arts', chapters' := arts + [a], chapters + [a.chapter];
    forall i | 0 <= i < |arts'| && i + 1 < |chapters'|
      ensures arts'[i].chapter == chapters'[i + 1]
    {
      if i < |arts| {
        assert arts'[i] == arts[i] && chapters'[i + 1] == chapters[i + 1];
      }
    }
  }

  /** Saving an open article appends it under the current chapter. */
  lemma {:induction false} FlushAppends(st: Scan)
    requires st.article != "" && st.lines != []
    ensures Flush(st).out == st.out + [Article(st.chapter, st.article, Strip(Join(st.lines, "\n")), st.count + 1)]
  {
  }

  lemma {:induction false} FlushNothing(st: Scan)
    requires st.article == ""
    ensures Flush(st) == st
  {
  }

  /** One more line, as the four functions of the input see it. */
  lemma {:induction false} ChaptersSnoc(lines: seq<string>, raw: string)
    ensures var line := Strip(raw);
      && ChapterAfter(lines + [raw]) == (if ChapterPrefix <= line then Strip(line[3..]) else ChapterAfter(lines))
      && ArticleLineCount(lines + [raw]) == ArticleLineCount(lines) + (if IsArticleLine(line) then 1 else 0)
      && MarkerChapters(lines + [raw])
           == MarkerChapters(lines) + (if IsArticleLine(line) then [ChapterAfter(lines)] else [])
      && FreeLineChapters(lines + [raw])
           == FreeLineChapters(lines)
              + (if IsBodyLine(line) && !IsArticleLine(line) && ArticleLineCount(lines) == 0
                 then [ChapterAfter(lines)] else [])
  {
    assert (lines + [raw])[..|lines|] == lines;
  }

  lemma {:induction false} FreeTextChaptersSnoc(out: seq<Record>, r: Record)
    ensures FreeTextChapters(out + [r])
         == if r.FreeText? then FreeTextChapters(out) + [r.chapter] else FreeTextChapters(out)
  {
    assert (out + [r])[..|out|] == out;
    assert FreeTextChapters(out) + [] == FreeTextChapters(out);
  }

  /** A record that is neither an article nor free-standing text changes neither list. */
  lemma {:induction false} OtherRecord(out: seq<Record>, r: Record)
    requires r.ChapterTitle?
    ensures Articles(out + [r]) == Articles(out)
    ensures FreeTextChapters(out + [r]) == FreeTextChapters(out)
  {
    RecordsSnoc(out, r);
    FreeTextChaptersSnoc(out, r);
  }

  /** An article record appended after the articles so far. */
  lemma {:induction false} ArticleRecord(out: seq<Record>, r: Record)
    requires r.Article?
    ensures Articles(out + [r]) == Articles(out) + [r]
    ensures FreeTextChapters(out + [r]) == FreeTextChapters(out)
  {
    RecordsSnoc(out, r);
    FreeTextChaptersSnoc(out, r);
  }

  /** A heading changes the chapter in force and nothing else the state tracks. */
  lemma {:induction false} HeadingState(st: Scan, chapter: string, n: nat, markers: seq<string>,
                                        frees: seq<string>, raw: string)
    requires ChapterState(st, chapter, n, markers, frees)
    requires var line := Strip(raw); line != "" && line != Sentinel && ChapterPrefix <= line
    ensures var line := Strip(raw);
      ChapterState(Step(st, raw), Strip(line[3..]), n, markers, frees)
  {
    var line := Strip(raw);
    var h := ChapterTitle(Strip(line[3..]), line);
    assert Step(st, raw) == Scan(h.chapter, st.article, st.lines, st.count, st.out + [h]);
    OtherRecord(st.out, h);
  }

  /** A marker line saves the open article, if any, under the chapter in force, then
      opens the next one. */
  lemma {:induction false} MarkerState(st: Scan, chapter: string, n: nat, markers: seq<string>,
                                       frees: seq<string>, raw: string)
    requires ChapterState(st, chapter, n, markers, frees)
    requires IsBodyLine(Strip(raw)) && IsArticleLine(Strip(raw))
    ensures ChapterState(Step(st, raw), chapter, n + 1, markers + [chapter], frees)
  {
    var line := Strip(raw);
    var fl := Flush(st);
    assert Step(st, raw) == Scan(fl.chapter, ArticleTitle(line).value, [line], fl.count, fl.out);
    assert |ArticleTitle(line).value| >= 3;
    FlushState(st, chapter, n, markers, frees);
  }

  /** What the save at a marker line leaves: every article read so far is saved, each
      under the chapter that follows it in `markers + [chapter]`. */
  lemma {:induction false} FlushState(st: Scan, chapter: string, n: nat, markers: seq<string>, frees: seq<string>)
    requires ChapterState(st, chapter, n, markers, frees)
    ensures Flush(st).chapter == chapter
    ensures |Articles(Flush(st).out)| == n
    ensures SavedUnder(Articles(Flush(st).out), markers + [chapter])
    ensures FreeTextChapters(Flush(st).out) == frees
  {
    if st.article != "" {
      var a := Article(st.chapter, st.article, Strip(Join(st.lines, "\n")), st.count + 1);
      FlushAppends(st);
      ArticleRecord(st.out, a);
      SavedUnderSnoc(Articles(st.out), a, markers);
    } else {
      FlushNothing(st);
    }
  }

  /** A plain line joins the open article, or is saved as free-standing text under the
      chapter in force when no marker line has been read yet. */
  lemma {:induction false} PlainState(st: Scan, chapter: string, n: nat, markers: seq<string>,
                                      frees: seq<string>, raw: string)
    requires ChapterState(st, chapter, n, markers, frees)
    requires IsBodyLine(Strip(raw)) && !IsArticleLine(Strip(raw))
    ensures ChapterState(Step(st, raw), chapter, n, markers, frees + (if n == 0 then [chapter] else []))
  {
    var line := Strip(raw);
    if st.lines != [] {
      assert Step(st, raw) == Scan(st.chapter, st.article, st.lines + [line], st.count, st.out);
      assert frees + [] == frees;
    } else {
      var f := FreeText(st.chapter, line);
      assert Step(st, raw) == Scan(st.chapter, st.article, st.lines, st.count, st.out + [f]);
      RecordsSnoc(st.out, f);
      FreeTextChaptersSnoc(st.out, f);
    }
  }

  lemma {:induction false} ChaptersStep(st: Scan, lines: seq<string>, raw: string)
    requires ChaptersTracked(st, lines)
    ensures ChaptersTracked(Step(st, raw), lines + [raw])
  {
    var line := Strip(raw);
    var chapter, n, markers, frees := ChapterAfter(lines), ArticleLineCount(lines), MarkerChapters(lines), FreeLineChapters(lines);
    ChaptersSnoc(lines, raw);
    HeadingIsNotArticle(line);
    ArticleLineIsBody(line);
    if line == "" || line == Sentinel {
      assert Step(st, raw) == st;
      assert markers + [] == markers && frees + [] == frees;
    } else if ChapterPrefix <= line {
      HeadingState(st, chapter, n, markers, frees, raw);
      assert markers + [] == markers && frees + [] == frees;
    } else if IsArticleLine(line) {
      MarkerState(st, chapter, n, markers, frees, raw);
      assert frees + [] == frees;
    } else {
      PlainState(st, chapter, n, markers, frees, raw);
      assert markers + [] == markers;
    }
  }

  lemma {:induction false} ChaptersScan(lines: seq<string>)
    ensures ChaptersTracked(ScanLines(lines), lines)
    decreases |lines|
  {
    if lines == [] {
      assert Articles([]) == [] && FreeTextChapters([]) == [];
    } else {
      var init, raw := lines[..|lines| - 1], lines[|lines| - 1];
      ChaptersScan(init);
      SplitLast(lines);
      ScanSnoc(init, raw);
      ChaptersStep(ScanLines(init), init, raw);
    }
  }

  /** Each article record carries the chapter in force when it was saved: the
      chapter in force at the next marker line or, for the last article, at the end
      of the input. An article followed by a heading is therefore labelled with the
      later chapter. */
  lemma {:induction false} ArticleChapters(lines: seq<string>)
    ensures |Articles(ParseLines(lines))| == |MarkerChapters(lines)|
    ensures var arts := Articles(ParseLines(lines));
      forall i :: 0 <= i < |arts| ==>
        arts[i].chapter == (if i + 1 < |MarkerChapters(lines)| then MarkerChapters(lines)[i + 1] else ChapterAfter(lines))
  {
    ChaptersScan(lines);
    ChaptersAtEnd(ScanLines(lines), ChapterAfter(lines), ArticleLineCount(lines), MarkerChapters(lines),
                  FreeLineChapters(lines));
  }

  /** Each free-standing record carries the chapter in force at its line. */
  lemma {:induction false} FreeTextChaptersMatch(lines: seq<string>)
    ensures FreeTextChapters(ParseLines(lines)) == FreeLineChapters(lines)
  {
    ChaptersScan(lines);
    ChaptersAtEnd(ScanLines(lines), ChapterAfter(lines), ArticleLineCount(lines), MarkerChapters(lines),
                  FreeLineChapters(lines));
  }

  /** The final save, on any state the chapters are tracked in. */
  lemma {:induction false} ChaptersAtEnd(st: Scan, chapter: string, n: nat, markers: seq<string>,
                                         frees: seq<string>)
    requires ChapterState(st, chapter, n, markers, frees)
    ensures |Articles(Flush(st).out)| == |markers|
    ensures var arts := Articles(Flush(st).out);
      forall i :: 0 <= i < |arts| ==>
        arts[i].chapter == (if i + 1 < |markers| then markers[i + 1] else chapter)
    ensures FreeTextChapters(Flush(st).out) == frees
  {
    if st.article != "" {
      var a := Article(st.chapter, st.article, Strip(Join(st.lines, "\n")), st.count + 1);
      FlushAppends(st);
      ArticleRecord(st.out, a);
      LastSavedAtEnd(Articles(st.out), a, markers);
    } else {
      FlushNothing(st);
    }
  }

  /** The articles saved at marker lines, then the last one, saved at the end. */
  lemma {:induction false} LastSavedAtEnd(arts: seq<Record>, a: Record, chapters: seq<string>)
    requires |chapters| == |arts| + 1 && SavedUnder(arts, chapters)
    ensures var arts' := arts + [a];
      forall i :: 0 <= i < |arts'| ==>
        arts'[i].chapter == (if i + 1 < |chapters| then chapters[i + 1] else a.chapter)
  {
    var arts' := arts + [a];
    forall i | 0 <= i < |arts'|
      ensures arts'[i].chapter == (if i + 1 < |chapters| then chapters[i + 1] else a.chapter)
    {
      if i < |arts| {
        assert arts'[i] == arts[i];
      }
    }
  }

  /** With an article open, a marker line saves it under the chapter in force now,
      whatever chapter was in force at its own marker line. */
  lemma {:induction false} MarkerSavesUnderCurrentChapter(lines: seq<string>, raw: string)
    requires ArticleLineCount(lines) > 0
    requires IsClean(raw) && IsArticleLine(raw)
    ensures var st := ScanLines(lines);
      ScanLines(lines + [raw]).out
        == st.out + [Article(ChapterAfter(lines), st.article, Join(st.lines, "\n"), st.count + 1)]
  {
    var st := ScanLines(lines);
    ArticleOpen(lines);
    ScanChapter(lines);
    ScanTracks(lines);
    ScanSnoc(lines, raw);
    StepOnMarker(st, raw);
    FlushOpen(st);
  }

  // ---------------------------------------------------------------------------
  // analyze_article_distribution: the record kinds and the length buckets

  /** The record-kind counts: chapter titles, records with a positive article number,
      and what remains. */
  datatype KindCounts = KindCounts(total: nat, chapterTitles: nat, articles: nat, other: int)

  function CountChapterTitles(data: seq<Record>): nat
  {
    if data == [] then 0
    else CountChapterTitles(data[..|data| - 1]) + (if data[|data| - 1].IsChapterTitle() then 1 else 0)
  }

  function CountNumbered(data: seq<Record>): nat
  {
    if data == [] then 0
    else CountNumbered(data[..|data| - 1]) + (if data[|data| - 1].ArticleNumber() > 0 then 1 else 0)
  }

  /** The counts of `analyze_article_distribution`: the chapter titles are counted
      exactly, a record counts as an article when its number is positive, and the
      remainder is never negative, because no chapter title has a positive number.
      When every article record has a positive number, the articles and the rest are
      exactly the article and free-standing records. */
  function Kinds(data: seq<Record>): (c: KindCounts)
    ensures c.total == |data| && c.chapterTitles + c.articles + c.other == c.total
    ensures c.chapterTitles == |ChapterTitles(data)|
    ensures 0 <= c.other && c.articles <= |Articles(data)|
    ensures (forall j :: 0 <= j < |Articles(data)| ==> Articles(data)[j].ArticleNumber() > 0) ==>
      c.articles == |Articles(data)| && c.other == |FreeTexts(data)|
  {
    KindsPartition(data);
    NumberedBound(data);
    NumberedAreArticles(data);
    var titles := CountChapterTitles(data);
    var numbered := CountNumbered(data);
    KindCounts(|data|, titles, numbered, |data| - titles - numbered)
  }

  /** The contents' lengths, as `len(article["content"])` gives them. */
  function Lengths(data: seq<Record>): (ls: seq<nat>)
    ensures |ls| == |data|
    ensures forall i :: 0 <= i < |data| ==> ls[i] == |data[i].content|
  {
    if data == [] then [] else Lengths(data[..|data| - 1]) + [|data[|data| - 1].content|]
  }

  /** The number of lengths `l` with `lo <= l < hi`. */
  function CountIn(ls: seq<nat>, lo: nat, hi: nat): nat
  {
    if ls == [] then 0
    else CountIn(ls[..|ls| - 1], lo, hi) + (if lo <= ls[|ls| - 1] < hi then 1 else 0)
  }

  /** The number of lengths `l` with `l >= lo`. */
  function CountAtLeast(ls: seq<nat>, lo: nat): nat
  {
    if ls == [] then 0
    else CountAtLeast(ls[..|ls| - 1], lo) + (if ls[|ls| - 1] >= lo then 1 else 0)
  }

  /** The four length buckets of the distribution: under 100, 100 to 300, 300 to 500,
      and 500 or more. */
  datatype Buckets = Buckets(under100: nat, from100: nat, from300: nat, from500: nat)

  function LengthBuckets(data: seq<Record>): Buckets
  {
    var ls := Lengths(data);
    Buckets(CountIn(ls, 0, 100), CountIn(ls, 100, 300), CountIn(ls, 300, 500), CountAtLeast(ls, 500))
  }

  /** Every length falls in exactly one bucket, so the buckets add up to the number
      of records. */
  lemma {:induction false} BucketsPartition(data: seq<Record>)
    ensures var b := LengthBuckets(data);
      b.under100 + b.from100 + b.from300 + b.from500 == |data|
  {
    BucketsAddUp(Lengths(data));
  }

  lemma {:induction false} BucketsAddUp(ls: seq<nat>)
    ensures CountIn(ls, 0, 100) + CountIn(ls, 100, 300) + CountIn(ls, 300, 500) + CountAtLeast(ls, 500) == |ls|
    decreases |ls|
  {
    if ls != [] {
      BucketsAddUp(ls[..|ls| - 1]);
    }
  }

  /** The three kinds partition the records. */
  lemma {:induction false} KindsPartition(rs: seq<Record>)
    ensures |ChapterTitles(rs)| + |Articles(rs)| + |FreeTexts(rs)| == |rs|
    ensures CountChapterTitles(rs) == |ChapterTitles(rs)|
    decreases |rs|
  {
    if rs != [] {
      KindsPartition(rs[..|rs| - 1]);
    }
  }

  /** Numbered records are exactly the article records when every article number is
      positive. */
  lemma {:induction false} NumberedAreArticles(rs: seq<Record>)
    ensures (forall j :: 0 <= j < |Articles(rs)| ==> Articles(rs)[j].ArticleNumber() > 0) ==>
      CountNumbered(rs) == |Articles(rs)|
    decreases |rs|
  {
    if rs != [] && forall j :: 0 <= j < |Articles(rs)| ==> Articles(rs)[j].ArticleNumber() > 0 {
      var init := rs[..|rs| - 1];
      assert Articles(init) <= Articles(rs);
      assert forall j :: 0 <= j < |Articles(init)| ==> Articles(init)[j] == Articles(rs)[j];
      NumberedAreArticles(init);
      if rs[|rs| - 1].Article? {
        assert Articles(rs)[|Articles(init)|] == rs[|rs| - 1];
      }
    }
  }

  /** Only article records have a positive number. */
  lemma {:induction false} NumberedBound(rs: seq<Record>)
    ensures CountNumbered(rs) <= |Articles(rs)|
    decreases |rs|
  {
    if rs != [] {
      NumberedBound(rs[..|rs| - 1]);
    }
  }

  /** On the parser's own output the counts are those of the input: one chapter title
      per heading line, one numbered record per marker line, and the rest are the
      plain lines before the first marker. */
  lemma {:induction false} KindsOfParse(lines: seq<string>)
    ensures var c := Kinds(ParseLines(lines));
      && c.chapterTitles == |HeadingRecords(lines)|
      && c.articles == ArticleLineCount(lines)
      && c.other == |Leading(Body(lines), IsArticleLine)|
  {
    var rs := ParseLines(lines);
    KindsPartition(rs);
    ChapterTitlesMatchHeadings(lines);
    FreeTextsBeforeFirstArticle(lines);
    ArticleNumbering(lines);
  }
}
