/**
 The segmenter of src/project_lawsrag/utils/data_processing.py. Its
 `parse_law_content` keeps only articles: a `## ` heading saves the open article
 under the chapter it belongs to, then starts a new chapter with no article open;
 lines outside an article are dropped, and the preamble sentinel is an ordinary line.
 Records carry the chapter and the content only.
 */
module LawsragDataProcessing {
  import opened Text
  import opened LawText
  import FileNames

  /** One record of `parse_law_content`'s result. */
  datatype Chunk = Chunk(chapter: string, content: string)

  /** The loop's variables: `current_chapter`, `current_article`, `current_content` and
      `results`. */
  datatype State = State(chapter: string, article: string, content: seq<string>, out: seq<Chunk>)

  const Start: State := State(DefaultChapter, "", [], [])

  /** The records after saving the open article, if there is one. */
  function Save(st: State): seq<Chunk>
  {
    if st.article != "" && st.content != [] then
      st.out + [Chunk(st.chapter, Strip(Join(st.content, "\n")))]
    else st.out
  }

  /** One iteration of the loop, on one raw line. */
  function Step(st: State, raw: string): State
  {
    var line := Strip(raw);
    if ChapterPrefix <= line then State(Strip(line[3..]), "", [], Save(st))
    else if IsArticleLine(line) then State(st.chapter, line, [line], Save(st))
    else if st.article != "" && line != "" then State(st.chapter, st.article, st.content + [line], st.out)
    else st
  }

  /** The state after the loop has run over `lines`. */
  function Run(lines: seq<string>): State
  {
    if lines == [] then Start else Step(Run(lines[..|lines| - 1]), lines[|lines| - 1])
  }

  /** The records `parse_law_content` returns for these lines: the loop, then the final
      save. */
  function ParseLines(lines: seq<string>): seq<Chunk>
  {
    Save(Run(lines))
  }

  /** `parse_law_content(content)` */
  method ParseLawContent(content: string) returns (results: seq<Chunk>)
    ensures results == ParseLines(Split(content, "\n"))
  {
    var lines := Split(content, "\n");
    var currentChapter := DefaultChapter;
    var currentArticle := "";
    var currentContent: seq<string> := [];
    results := [];
    for i := 0 to |lines|
      invariant Run(lines[..i]) == State(currentChapter, currentArticle, currentContent, results)
    {
      assert lines[..i + 1][..i] == lines[..i];
      currentChapter, currentArticle, currentContent, results :=
        ReadLine(currentChapter, currentArticle, currentContent, results, lines[i]);
    }
    assert lines[..|lines|] == lines;
    results := SaveArticle(currentChapter, currentArticle, currentContent, results);
  }

  /** The body of the loop, on one raw line. */
  method ReadLine(chapter: string, article: string, content: seq<string>, results: seq<Chunk>, raw: string)
    returns (chapter': string, article': string, content': seq<string>, results': seq<Chunk>)
    ensures Step(State(chapter, article, content, results), raw) == State(chapter', article', content', results')
  {
    chapter', article', content', results' := chapter, article, content, results;
    var line := Strip(raw);
    if ChapterPrefix <= line {
      results' := SaveArticle(chapter, article, content, results);
      chapter' := Strip(line[3..]);
      article' := "";
      content' := [];
    } else if ArticleTitle(line).Some? {
      results' := SaveArticle(chapter, article, content, results);
      article' := line;
      content' := [line];
    } else if article != "" && line != "" {
      content' := content + [line];
    }
  }

  /** The save block, written out three times in the loop and after it. */
  method SaveArticle(chapter: string, article: string, content: seq<string>, results: seq<Chunk>)
    returns (results': seq<Chunk>)
    ensures results' == Save(State(chapter, article, content, results))
  {
    results' := results;
    if article != "" && content != [] {
      results' := results + [Chunk(chapter, Strip(Join(content, "\n")))];
    }
  }

  // ---------------------------------------------------------------------------
  // The records in terms of the input: chapters, and the articles in each

  /** A chapter's part of the input: its name and its non-blank stripped lines. */
  datatype Segment = Segment(chapter: string, lines: seq<string>)

  /** The input cut at its heading lines: the default chapter for what comes before the
      first heading, then one chapter per heading. Blank lines belong to no chapter. */
  function Segments(lines: seq<string>): (segs: seq<Segment>)
    ensures segs != [] && segs[0].chapter == DefaultChapter
  {
    if lines == [] then [Segment(DefaultChapter, [])]
    else NextSegments(Segments(lines[..|lines| - 1]), lines[|lines| - 1])
  }

  /** One more raw line: a heading starts a new chapter, a blank line changes nothing,
      any other line joins the last chapter. */
  function NextSegments(segs: seq<Segment>, raw: string): (segs': seq<Segment>)
    requires segs != []
    ensures segs' != [] && segs'[0].chapter == segs[0].chapter
  {
    var line := Strip(raw);
    var last := segs[|segs| - 1];
    if ChapterPrefix <= line then segs + [Segment(Strip(line[3..]), [])]
    else if line == "" then segs
    else segs[..|segs| - 1] + [Segment(last.chapter, last.lines + [line])]
  }

  /** One record per block, under the given chapter, with the block's lines joined by
      newlines. */
  function ChunksOf(chapter: string, bs: seq<seq<string>>): (cs: seq<Chunk>)
    ensures |cs| == |bs|
    ensures forall k :: 0 <= k < |cs| ==> cs[k] == Chunk(chapter, Join(bs[k], "\n"))
  {
    if bs == [] then [] else ChunksOf(chapter, bs[..|bs| - 1]) + [Chunk(chapter, Join(bs[|bs| - 1], "\n"))]
  }

  /** The records of a chapter: one per article block; lines before the chapter's first
      marker are in no block. */
  function SegmentChunks(seg: Segment): seq<Chunk>
  {
    ChunksOf(seg.chapter, Blocks(seg.lines, IsArticleLine))
  }

  function AllChunks(segs: seq<Segment>): seq<Chunk>
  {
    if segs == [] then [] else AllChunks(segs[..|segs| - 1]) + SegmentChunks(segs[|segs| - 1])
  }

  /** The closed blocks: all but the last. */
  function Closed(bs: seq<seq<string>>): seq<seq<string>>
  {
    if bs == [] then [] else bs[..|bs| - 1]
  }

  /** What the loop state means once the input read so far has been cut into `segs`:
      the chapter is the last chapter's, the open article is the last chapter's last
      block, and the records so far are those of the earlier chapters and of the
      closed blocks of the last. */
  ghost predicate Tracks(st: State, segs: seq<Segment>)
  {
    && segs != []
    && var last := segs[|segs| - 1];
    var bs := Blocks(last.lines, IsArticleLine);
    && st.chapter == last.chapter
    && OpenIs(st, bs)
    && st.out == AllChunks(segs[..|segs| - 1]) + ChunksOf(last.chapter, Closed(bs))
  }

  /** The open article is the last block, its lines are clean, and an article is
      open exactly when it has lines. */
  ghost predicate OpenIs(st: State, bs: seq<seq<string>>)
  {
    && st.content == (if bs == [] then [] else bs[|bs| - 1])
    && (st.content == [] <==> bs == [])
    && (st.article == "" <==> st.content == [])
    && forall k :: 0 <= k < |st.content| ==> st.content[k] != "" && IsStripped(st.content[k])
  }

  lemma {:induction false} SegmentsSnoc(lines: seq<string>, raw: string)
    ensures Segments(lines + [raw]) == NextSegments(Segments(lines), raw)
  {
    assert (lines + [raw])[..|lines|] == lines;
  }

  lemma {:induction false} RunSnoc(lines: seq<string>, raw: string)
    ensures Run(lines + [raw]) == Step(Run(lines), raw)
  {
    assert (lines + [raw])[..|lines|] == lines;
  }

  lemma {:induction false} AllChunksSnoc(segs: seq<Segment>, seg: Segment)
    ensures AllChunks(segs + [seg]) == AllChunks(segs) + SegmentChunks(seg)
  {
    assert (segs + [seg])[..|segs|] == segs;
  }

  lemma {:induction false} ChunksOfSnoc(chapter: string, bs: seq<seq<string>>, b: seq<string>)
    ensures ChunksOf(chapter, bs + [b]) == ChunksOf(chapter, bs) + [Chunk(chapter, Join(b, "\n"))]
  {
    assert (bs + [b])[..|bs|] == bs;
  }

  /** The content of a saved article is its lines joined by newlines: they are stripped
      and not blank, so the final `strip()` changes nothing. */
  lemma {:induction false} SavedContent(content: seq<string>)
    requires content != []
    requires forall k :: 0 <= k < |content| ==> content[k] != "" && IsStripped(content[k])
    ensures Strip(Join(content, "\n")) == Join(content, "\n")
  {
    JoinStripped(content, "\n");
    StripStripped(Join(content, "\n"));
  }

  /** Saving the open article closes every block of the last chapter. */
  lemma {:induction false} SaveCloses(st: State, segs: seq<Segment>)
    requires Tracks(st, segs)
    ensures var last := segs[|segs| - 1];
      Save(st) == AllChunks(segs[..|segs| - 1]) + ChunksOf(last.chapter, Blocks(last.lines, IsArticleLine))
  {
    var last := segs[|segs| - 1];
    SaveBlocks(st, AllChunks(segs[..|segs| - 1]), Blocks(last.lines, IsArticleLine));
  }

  lemma {:induction false} SaveBlocks(st: State, front: seq<Chunk>, bs: seq<seq<string>>)
    requires OpenIs(st, bs) && st.out == front + ChunksOf(st.chapter, Closed(bs))
    ensures Save(st) == front + ChunksOf(st.chapter, bs)
  {
    if bs != [] {
      SplitLast(bs);
      ChunksOfSnoc(st.chapter, bs[..|bs| - 1], bs[|bs| - 1]);
      SavedContent(st.content);
    }
  }

  /** Saving the open article completes the records of every chapter so far. */
  lemma {:induction false} SaveCompletes(st: State, segs: seq<Segment>)
    requires Tracks(st, segs)
    ensures Save(st) == AllChunks(segs)
  {
    SaveCloses(st, segs);
    SplitLast(segs);
    AllChunksSnoc(segs[..|segs| - 1], segs[|segs| - 1]);
  }

  lemma {:induction false} StepOnHeading(st: State, raw: string)
    requires ChapterPrefix <= Strip(raw)
    ensures Step(st, raw) == State(Strip(Strip(raw)[3..]), "", [], Save(st))
  {
  }

  lemma {:induction false} StepOnMarker(st: State, raw: string)
    requires !(ChapterPrefix <= Strip(raw)) && IsArticleLine(Strip(raw))
    ensures Step(st, raw) == State(st.chapter, Strip(raw), [Strip(raw)], Save(st))
  {
  }

  lemma {:induction false} StepOnPlain(st: State, raw: string)
    requires !(ChapterPrefix <= Strip(raw)) && !IsArticleLine(Strip(raw)) && Strip(raw) != ""
    ensures Step(st, raw) == if st.article != "" then State(st.chapter, st.article, st.content + [Strip(raw)], st.out) else st
  {
  }

  lemma {:induction false} StepOnBlank(st: State, raw: string)
    requires Strip(raw) == ""
    ensures Step(st, raw) == st
  {
  }

  /** A heading saves the open article and starts an empty chapter. */
  lemma {:induction false} HeadingTracks(st: State, segs: seq<Segment>, chapter: string)
    requires Tracks(st, segs)
    ensures Tracks(State(chapter, "", [], Save(st)), segs + [Segment(chapter, [])])
  {
    SaveCompletes(st, segs);
    var segs' := segs + [Segment(chapter, [])];
    assert segs'[..|segs'| - 1] == segs;
    assert Blocks([], IsArticleLine) == [];
  }

  /** A marker line saves the open article and opens a new one in the same chapter. */
  lemma {:induction false} MarkerTracks(st: State, segs: seq<Segment>, line: string)
    requires Tracks(st, segs)
    requires line != "" && IsStripped(line) && IsArticleLine(line)
    ensures var last := segs[|segs| - 1];
      Tracks(State(st.chapter, line, [line], Save(st)),
             segs[..|segs| - 1] + [Segment(last.chapter, last.lines + [line])])
  {
    var last := segs[|segs| - 1];
    var bs := Blocks(last.lines, IsArticleLine);
    SaveCloses(st, segs);
    var last' := Segment(last.chapter, last.lines + [line]);
    var segs' := segs[..|segs| - 1] + [last'];
    BlocksSnoc(last.lines, line, IsArticleLine);
    ClosedOpen(bs, line);
    OpenMarker(State(st.chapter, line, [line], Save(st)), bs);
    TracksIntro(State(st.chapter, line, [line], Save(st)), segs[..|segs| - 1], last');
  }

  lemma {:induction false} ClosedOpen(bs: seq<seq<string>>, line: string)
    ensures Closed(bs + [[line]]) == bs
  {
    assert (bs + [[line]])[..|bs|] == bs;
  }

  lemma {:induction false} OpenMarker(st: State, bs: seq<seq<string>>)
    requires st.article != "" && IsStripped(st.article) && st.content == [st.article]
    ensures OpenIs(st, bs + [[st.article]])
  {
  }

  /** `Tracks` from its parts, for the input cut into `front` and a last chapter. */
  lemma {:induction false} TracksIntro(st: State, front: seq<Segment>, last: Segment)
    requires st.chapter == last.chapter
    requires OpenIs(st, Blocks(last.lines, IsArticleLine))
    requires st.out == AllChunks(front) + ChunksOf(last.chapter, Closed(Blocks(last.lines, IsArticleLine)))
    ensures Tracks(st, front + [last])
  {
    var segs := front + [last];
    assert segs[..|segs| - 1] == front;
  }

  /** A plain line extends the open article. */
  lemma {:induction false} PlainTracks(st: State, segs: seq<Segment>, line: string)
    requires Tracks(st, segs) && st.article != ""
    requires line != "" && IsStripped(line) && !IsArticleLine(line)
    ensures var last := segs[|segs| - 1];
      Tracks(State(st.chapter, st.article, st.content + [line], st.out),
             segs[..|segs| - 1] + [Segment(last.chapter, last.lines + [line])])
  {
    var last := segs[|segs| - 1];
    var bs := Blocks(last.lines, IsArticleLine);
    var last' := Segment(last.chapter, last.lines + [line]);
    BlocksSnoc(last.lines, line, IsArticleLine);
    ClosedExtend(bs, line);
    OpenExtends(st, bs, line);
    TracksIntro(State(st.chapter, st.article, st.content + [line], st.out), segs[..|segs| - 1], last');
  }

  lemma {:induction false} ClosedExtend(bs: seq<seq<string>>, line: string)
    requires bs != []
    ensures Closed(bs[..|bs| - 1] + [bs[|bs| - 1] + [line]]) == Closed(bs)
  {
    var bs' := bs[..|bs| - 1] + [bs[|bs| - 1] + [line]];
    assert bs'[..|bs'| - 1] == bs[..|bs| - 1];
  }

  lemma {:induction false} OpenExtends(st: State, bs: seq<seq<string>>, line: string)
    requires OpenIs(st, bs) && st.article != ""
    requires line != "" && IsStripped(line)
    ensures OpenIs(State(st.chapter, st.article, st.content + [line], st.out), bs[..|bs| - 1] + [bs[|bs| - 1] + [line]])
  {
  }

  /** A plain line outside any article is dropped. */
  lemma {:induction false} PlainDropped(st: State, segs: seq<Segment>, line: string)
    requires Tracks(st, segs) && st.article == ""
    requires !IsArticleLine(line)
    ensures var last := segs[|segs| - 1];
      Tracks(st, segs[..|segs| - 1] + [Segment(last.chapter, last.lines + [line])])
  {
    var last := segs[|segs| - 1];
    var segs' := segs[..|segs| - 1] + [Segment(last.chapter, last.lines + [line])];
    assert segs'[..|segs'| - 1] == segs[..|segs| - 1];
    BlocksSnoc(last.lines, line, IsArticleLine);
  }

  /** One more line keeps the loop state in step with the chapters. */
  lemma {:induction false} StepTracks(st: State, segs: seq<Segment>, raw: string)
    requires Tracks(st, segs)
    ensures Tracks(Step(st, raw), NextSegments(segs, raw))
  {
    var line := Strip(raw);
    if ChapterPrefix <= line {
      StepOnHeading(st, raw);
      HeadingTracks(st, segs, Strip(line[3..]));
    } else if IsArticleLine(line) {
      StepOnMarker(st, raw);
      MarkerTracks(st, segs, line);
    } else if line != "" {
      StepOnPlain(st, raw);
      if st.article != "" {
        PlainTracks(st, segs, line);
      } else {
        PlainDropped(st, segs, line);
      }
    } else {
      StepOnBlank(st, raw);
    }
  }

  lemma {:induction false} RunTracks(lines: seq<string>)
    ensures Tracks(Run(lines), Segments(lines))
    decreases |lines|
  {
    if lines == [] {
      assert Blocks([], IsArticleLine) == [];
    } else {
      var init, raw := lines[..|lines| - 1], lines[|lines| - 1];
      RunTracks(init);
      StepTracks(Run(init), Segments(init), raw);
    }
  }

  /** The records are, chapter by chapter, one per article block: a marker line and the
      non-blank lines after it up to the next marker or heading, joined by newlines and
      labelled with the chapter they sit in. Lines before a chapter's first marker are
      dropped. */
  lemma {:induction false} ParseMatchesChapters(lines: seq<string>)
    ensures ParseLines(lines) == AllChunks(Segments(lines))
  {
    RunTracks(lines);
    SaveCompletes(Run(lines), Segments(lines));
  }

  // ---------------------------------------------------------------------------
  // Consequences

  /** The marker lines of each chapter, added up. */
  function SegmentStarts(segs: seq<Segment>): nat
  {
    if segs == [] then 0
    else SegmentStarts(segs[..|segs| - 1]) + CountStarts(segs[|segs| - 1].lines, IsArticleLine)
  }

  lemma {:induction false} SegmentStartsSnoc(segs: seq<Segment>, seg: Segment)
    ensures SegmentStarts(segs + [seg]) == SegmentStarts(segs) + CountStarts(seg.lines, IsArticleLine)
  {
    assert (segs + [seg])[..|segs|] == segs;
  }

  /** One record per block, so one per marker line of each chapter. */
  lemma {:induction false} AllChunksCount(segs: seq<Segment>)
    ensures |AllChunks(segs)| == SegmentStarts(segs)
    decreases |segs|
  {
    if segs != [] {
      AllChunksCount(segs[..|segs| - 1]);
      BlocksShape(segs[|segs| - 1].lines, IsArticleLine);
    }
  }

  lemma {:induction false} NextSegmentsStarts(segs: seq<Segment>, raw: string)
    requires segs != []
    ensures SegmentStarts(NextSegments(segs, raw))
         == SegmentStarts(segs) + (if IsArticleLine(Strip(raw)) then 1 else 0)
  {
    var line := Strip(raw);
    var last := segs[|segs| - 1];
    HeadingIsNotArticle(line);
    if ChapterPrefix <= line {
      SegmentStartsSnoc(segs, Segment(Strip(line[3..]), []));
    } else if line != "" {
      SplitLast(segs);
      SegmentStartsSnoc(segs[..|segs| - 1], last);
      SegmentStartsSnoc(segs[..|segs| - 1], Segment(last.chapter, last.lines + [line]));
      CountStartsSnoc(last.lines, line, IsArticleLine);
    }
  }

  lemma {:induction false} SegmentsStarts(lines: seq<string>)
    ensures SegmentStarts(Segments(lines)) == ArticleLineCount(lines)
    decreases |lines|
  {
    if lines != [] {
      SegmentsStarts(lines[..|lines| - 1]);
      NextSegmentsStarts(Segments(lines[..|lines| - 1]), lines[|lines| - 1]);
    } else {
      assert SegmentStarts([Segment(DefaultChapter, [])]) == SegmentStarts([]) + 0;
    }
  }

  /** There is exactly one record per marker line: every article opened is saved once,
      at the next heading, the next marker or the end. */
  lemma {:induction false} OneRecordPerMarker(lines: seq<string>)
    ensures |ParseLines(lines)| == ArticleLineCount(lines)
  {
    ParseMatchesChapters(lines);
    AllChunksCount(Segments(lines));
    SegmentsStarts(lines);
  }

  /** Without a heading line the whole input is one chapter. */
  lemma {:induction false} NoHeadingOneSegment(lines: seq<string>)
    requires forall k :: 0 <= k < |lines| ==> !(ChapterPrefix <= Strip(lines[k]))
    ensures |Segments(lines)| == 1
    decreases |lines|
  {
    if lines != [] {
      NoHeadingOneSegment(lines[..|lines| - 1]);
    }
  }

  /** Before any heading every record carries the default chapter `第一章 总则`. */
  lemma {:induction false} DefaultChapterWithoutHeadings(lines: seq<string>)
    requires forall k :: 0 <= k < |lines| ==> !(ChapterPrefix <= Strip(lines[k]))
    ensures forall k :: 0 <= k < |ParseLines(lines)| ==> ParseLines(lines)[k].chapter == DefaultChapter
  {
    ParseMatchesChapters(lines);
    NoHeadingOneSegment(lines);
    var segs := Segments(lines);
    assert segs == [] + [segs[0]];
    AllChunksSnoc([], segs[0]);
  }

  /** A heading saves the open article at once, under the chapter it was read in, and
      leaves no article open: the records so far are those the input before it would
      give on its own, and nothing more is saved at the end. */
  lemma {:induction false} HeadingSavesArticle(lines: seq<string>, raw: string)
    requires ChapterPrefix <= Strip(raw)
    ensures var line := Strip(raw);
      Run(lines + [raw]) == State(Strip(line[3..]), "", [], ParseLines(lines))
    ensures ParseLines(lines + [raw]) == ParseLines(lines)
  {
    RunSnoc(lines, raw);
    StepOnHeading(Run(lines), raw);
  }

  /** The sentinel is an ordinary line here: inside an article it is appended to the
      article's lines. */
  lemma {:induction false} SentinelIsContent(st: State)
    requires st.article != ""
    ensures Step(st, Sentinel) == State(st.chapter, st.article, st.content + [Sentinel], st.out)
  {
    assert Sentinel[0] == '<' && Sentinel[|Sentinel| - 1] == '>';
    StripStripped(Sentinel);
    HeadingIsNotArticle(Sentinel);
    StepOnPlain(st, Sentinel);
  }

  // ---------------------------------------------------------------------------
  // process_single_file, on the file's text

  /** A record with the law type and law name `process_single_file` adds. */
  datatype Item = Item(chapter: string, content: string, lawType: string, law: string)

  /** What follows the first sentinel of a file's text, as the `split(sentinel, 1)` of
      `process_single_file` finds it; `None` when the text has no sentinel. */
  function SentinelBody(text: string): (r: Option<string>)
    ensures r.None? <==> !Contains(text, Sentinel)
    ensures r.Some? ==> exists i: nat :: FirstSentinelAt(text, i) && r.value == text[i + |Sentinel|..]
  {
    match IndexOf(text, Sentinel)
    case None => None
    case Some(i) =>
      assert FirstSentinelAt(text, i);
      Some(text[i + |Sentinel|..])
  }

  /** The first sentinel of `text` starts at `i`. */
  predicate FirstSentinelAt(text: string, i: nat)
  {
    i + |Sentinel| <= |text| && text[i..i + |Sentinel|] == Sentinel
    && forall j :: 0 <= j < i ==> !(Sentinel <= text[j..])
  }

  /** `parse_law_content(body)` as a function of the text. */
  function ParseText(body: string): seq<Chunk>
  {
    ParseLines(Split(body, "\n"))
  }

  /** The records of a file's text: none when the text has no sentinel, otherwise the
      records of what follows the first sentinel, each labelled with the law type of the
      folder and the law name of the file. */
  function FileItems(folder: string, fileName: string, text: string): seq<Item>
  {
    match SentinelBody(text)
    case None => []
    case Some(body) =>
      Label(ParseText(body), FileNames.ExtractTypeFromFolder(folder), FileNames.ExtractLawNameFromFile(fileName))
  }

  function Label(chunks: seq<Chunk>, lawType: string, law: string): (items: seq<Item>)
    ensures |items| == |chunks|
    ensures forall k :: 0 <= k < |items| ==>
      items[k] == Item(chunks[k].chapter, chunks[k].content, lawType, law)
  {
    if chunks == [] then []
    else
      var c := chunks[|chunks| - 1];
      Label(chunks[..|chunks| - 1], lawType, law) + [Item(c.chapter, c.content, lawType, law)]
  }

  /** `process_single_file(path)`, given the file's text, its folder's name and its own
      name. */
  method ProcessSingleFile(folder: string, fileName: string, text: string) returns (items: seq<Item>)
    ensures items == FileItems(folder, fileName, text)
  {
    var found := IndexOf(text, Sentinel);
    if found.None? {
      return [];
    }
    var body := text[found.value + |Sentinel|..];
    assert SentinelBody(text) == Some(body);
    var parsed := ParseLawContent(body);
    assert parsed == ParseText(body);
    var lawType := FileNames.ExtractTypeFromFolder(folder);
    var lawName := FileNames.ExtractLawNameFromFile(fileName);
    items := LabelItems(parsed, lawType, lawName);
  }

  /** The loop that sets `type` and `law` on every parsed record. */
  method LabelItems(parsed: seq<Chunk>, lawType: string, law: string) returns (items: seq<Item>)
    ensures items == Label(parsed, lawType, law)
  {
    items := [];
    for k := 0 to |parsed|
      invariant items == Label(parsed[..k], lawType, law)
    {
      assert parsed[..k + 1][..k] == parsed[..k];
      items := items + [Item(parsed[k].chapter, parsed[k].content, lawType, law)];
    }
    assert parsed[..|parsed|] == parsed;
  }

  /** Only the text after the sentinel is parsed, and the preamble before it is ignored
      (here for a preamble without `<`, so that the first sentinel is the one shown). */
  lemma {:induction false} BodyAfterSentinel(preamble: string, body: string)
    requires forall k :: 0 <= k < |preamble| ==> preamble[k] != '<'
    ensures SentinelBody(preamble + Sentinel + body) == Some(body)
  {
    var text := preamble + Sentinel + body;
    var n := |preamble|;
    assert text[n..n + |Sentinel|] == Sentinel;
    assert Sentinel <= text[n..];
    ContainsAt(text, Sentinel, n);
    var i := IndexOf(text, Sentinel).value;
    assert text[i..i + |Sentinel|][0] == text[i];
    assert Sentinel[0] == '<';
    assert i == n;
    assert text[n + |Sentinel|..] == body;
  }

  /** Each file yields one record per marker line after its sentinel. */
  lemma {:induction false} ItemsPerMarker(folder: string, fileName: string, text: string)
    requires SentinelBody(text).Some?
    ensures |FileItems(folder, fileName, text)| == ArticleLineCount(Split(SentinelBody(text).value, "\n"))
  {
    OneRecordPerMarker(Split(SentinelBody(text).value, "\n"));
  }
}
