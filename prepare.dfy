/**
 The paragraph segmenter of src/prepare.py. `parse_text` cuts the text at blank
 lines, drops the first paragraph (the law's name), follows the chapter (`## `) and
 the section (`### `) in force, and emits one `(metadata, content)` pair per article:
 a paragraph that starts like `第…条` opens an article, any other paragraph is added
 to the open one after a space, and text before the first article of a section is an
 article of its own.
 */
module Prepare {
  import opened Text
  import opened LawText

  const ChapterMark: string := "## "
  const SectionMark: string := "### "

  /** One pair of `parse_text`'s result. */
  datatype Chunk = Chunk(metadata: string, content: string)

  // ---------------------------------------------------------------------------
  // Paragraphs, article lines, metadata

  /** `[p.strip() for p in content.split('\n\n') if p.strip()]` */
  function Paragraphs(content: string): (ps: seq<string>)
    ensures forall k :: 0 <= k < |ps| ==> ps[k] != "" && IsStripped(ps[k])
  {
    NonBlankStripped(Split(content, "\n\n"))
  }

  /** The stripped parts that are not blank, in order. */
  function NonBlankStripped(parts: seq<string>): (ps: seq<string>)
    ensures |ps| <= |parts|
    ensures forall k :: 0 <= k < |ps| ==> ps[k] != "" && IsStripped(ps[k])
  {
    if parts == [] then []
    else (if Strip(parts[0]) != "" then [Strip(parts[0])] else []) + NonBlankStripped(parts[1..])
  }

  /** `[\u4e00-\u9fa5\d]`, with `\d` read as the ASCII digits. */
  predicate IsIdeographOrDigit(c: char)
  {
    ('\U{4E00}' <= c <= '\U{9FA5}') || ('0' <= c <= '9')
  }

  /** `re.match(r'^第[\u4e00-\u9fa5\d]+条', line)`: `第`, at least one ideograph or
      digit, then a `条`, at the start of the line. */
  predicate IsIdeographArticleLine(line: string)
  {
    line != [] && line[0] == '第'
    && exists n :: 2 <= n < |line| && line[n] == '条' && forall k :: 1 <= k < n ==> IsIdeographOrDigit(line[k])
  }

  /** The numerals of the other segmenters are ideographs, so each of their article
      lines is one here too. */
  lemma {:induction false} NumeralMarkerIsIdeographMarker(line: string)
    requires IsArticleLine(line)
    ensures IsIdeographArticleLine(line)
  {
    var w := ArticleTitle(line).value;
    assert w[|w| - 1] == line[|w| - 1];
    assert forall k :: 1 <= k < |w| - 1 ==> w[k] == line[k] && IsIdeographOrDigit(w[k]);
  }

  /** The class is wider than the numerals: any ideograph may stand between `第` and
      `条`. */
  lemma {:induction false} AnyIdeographMarks()
    ensures IsIdeographArticleLine("第甲条") && !IsArticleLine("第甲条")
  {
    var line := "第甲条";
    assert line[2] == '条' && IsIdeographOrDigit(line[1]);
    assert !IsNumeral(line[1]);
    assert NumeralRun(line[1..]) == 0;
  }

  /** `filter(None, parts)`: the non-empty parts, in order. */
  function NonEmpty(parts: seq<string>): (r: seq<string>)
    ensures forall k :: 0 <= k < |r| ==> r[k] != ""
  {
    if parts == [] then []
    else (if parts[0] != "" then [parts[0]] else []) + NonEmpty(parts[1..])
  }

  /** `", ".join(filter(None, [current_chapter, current_section]))` */
  function Metadata(chapter: string, section: string): (m: string)
    ensures chapter == "" ==> m == section
    ensures section == "" ==> m == chapter
    ensures chapter != "" && section != "" ==> m == chapter + ", " + section
  {
    NonEmptyPair(chapter, section);
    JoinSnoc([chapter], section, ", ");
    assert [chapter] + [section] == [chapter, section];
    Join(NonEmpty([chapter, section]), ", ")
  }

  lemma {:induction false} NonEmptyPair(a: string, b: string)
    ensures a != "" && b != "" ==> NonEmpty([a, b]) == [a, b]
    ensures a == "" ==> NonEmpty([a, b]) == (if b != "" then [b] else [])
    ensures b == "" ==> NonEmpty([a, b]) == (if a != "" then [a] else [])
  {
    assert [a, b][1..] == [b];
    assert [b][1..] == [];
    var x: seq<string> := if a != "" then [a] else [];
    var y: seq<string> := if b != "" then [b] else [];
    assert NonEmpty([b]) == y + [] == y;
    assert NonEmpty([a, b]) == x + y;
    assert [a] + [b] == [a, b];
  }

  /** `create_chunk_with_context(metadata, content)` */
  function CreateChunkWithContext(metadata: string, content: string): (r: string)
    ensures metadata == "" ==> r == content
    ensures metadata != "" ==> |r| == |metadata| + 3 + |content|
    ensures metadata != "" ==>
      r[..|metadata|] == metadata && r[|metadata|..|metadata| + 3] == " | " && r[|metadata| + 3..] == content
  {
    if metadata != "" then metadata + " | " + content else content
  }

  // ---------------------------------------------------------------------------
  // The loop

  /** The loop's variables: `current_chapter`, `current_section`, `current_article`
      and `results`. */
  datatype State = State(chapter: string, section: string, article: string, out: seq<Chunk>)

  const Start: State := State("", "", "", [])

  /** `flush_article()`: an article that is not blank is emitted, stripped, under the
      current metadata, and cleared. */
  function Flush(st: State): State
  {
    if Strip(st.article) != "" then
      State(st.chapter, st.section, "", st.out + [Chunk(Metadata(st.chapter, st.section), Strip(st.article))])
    else st
  }

  /** One iteration of the loop, on one paragraph. */
  function Step(st: State, para: string): State
  {
    var line := Strip(para);
    if line == "" then st
    else if ChapterMark <= line then
      var f := Flush(st);
      State(Strip(line[3..]), "", f.article, f.out)
    else if SectionMark <= line then
      var f := Flush(st);
      State(f.chapter, Strip(line[4..]), f.article, f.out)
    else if IsIdeographArticleLine(line) then
      var f := Flush(st);
      State(f.chapter, f.section, line, f.out)
    else State(st.chapter, st.section, st.article + " " + line, st.out)
  }

  /** The state after the loop has run over `ps`. */
  function Run(ps: seq<string>): State
  {
    if ps == [] then Start else Step(Run(ps[..|ps| - 1]), ps[|ps| - 1])
  }

  /** The pairs for the paragraphs after the law's name: the loop, then the final
      flush. */
  function ParseParagraphs(ps: seq<string>): seq<Chunk>
  {
    Flush(Run(ps)).out
  }

  /** The pairs `parse_text` returns for a file's text. */
  function Parse(content: string): seq<Chunk>
  {
    var ps := Paragraphs(content);
    if ps == [] then [] else ParseParagraphs(ps[1..])
  }

  /** `parse_text(file_path)`, given the file's text. */
  method ParseText(content: string) returns (results: seq<Chunk>)
    ensures results == Parse(content)
    ensures Paragraphs(content) == [] ==> results == []
  {
    var paragraphs := Paragraphs(content);
    if paragraphs == [] {
      return [];
    }
    var lawName := paragraphs[0];
    paragraphs := paragraphs[1..];
    var currentChapter, currentSection, currentArticle;
    currentChapter, currentSection, currentArticle, results := ReadParagraphs(paragraphs);
    currentArticle, results := FlushArticle(currentChapter, currentSection, currentArticle, results);
  }

  /** The loop over the paragraphs after the law's name. */
  method ReadParagraphs(paragraphs: seq<string>)
    returns (currentChapter: string, currentSection: string, currentArticle: string, results: seq<Chunk>)
    ensures Run(paragraphs) == State(currentChapter, currentSection, currentArticle, results)
  {
    results := [];
    currentChapter, currentSection, currentArticle := "", "", "";
    for i := 0 to |paragraphs|
      invariant Run(paragraphs[..i]) == State(currentChapter, currentSection, currentArticle, results)
    {
      assert paragraphs[..i + 1][..i] == paragraphs[..i];
      currentChapter, currentSection, currentArticle, results :=
        ReadParagraph(currentChapter, currentSection, currentArticle, results, paragraphs[i]);
    }
    assert paragraphs[..|paragraphs|] == paragraphs;
  }

  /** The body of the loop, on one paragraph. */
  method ReadParagraph(chapter: string, section: string, article: string, results: seq<Chunk>, para: string)
    returns (chapter': string, section': string, article': string, results': seq<Chunk>)
    ensures Step(State(chapter, section, article, results), para) == State(chapter', section', article', results')
  {
    chapter', section', article', results' := chapter, section, article, results;
    var line := Strip(para);
    if line == "" {
      return;
    }
    if ChapterMark <= line {
      article', results' := FlushArticle(chapter, section, article, results);
      chapter' := Strip(line[3..]);
      section' := "";
    } else if SectionMark <= line {
      article', results' := FlushArticle(chapter, section, article, results);
      section' := Strip(line[4..]);
    } else if IsIdeographArticleLine(line) {
      article', results' := FlushArticle(chapter, section, article, results);
      article' := line;
    } else {
      article' := article + " " + line;
    }
  }

  /** The closure `flush_article`, which reads the chapter and section and updates the
      article and the results. */
  method FlushArticle(chapter: string, section: string, article: string, results: seq<Chunk>)
    returns (article': string, results': seq<Chunk>)
    ensures Flush(State(chapter, section, article, results)) == State(chapter, section, article', results')
  {
    article', results' := article, results;
    if Strip(article) != "" {
      var metadata := Metadata(chapter, section);
      results' := results + [Chunk(metadata, Strip(article))];
      article' := "";
    }
  }

  // ---------------------------------------------------------------------------
  // What is emitted

  /** Every content is stripped and not blank. */
  predicate CleanContents(cs: seq<Chunk>)
  {
    forall k :: 0 <= k < |cs| ==> cs[k].content != "" && IsStripped(cs[k].content)
  }

  lemma {:induction false} RunClean(ps: seq<string>)
    ensures CleanContents(Run(ps).out)
    decreases |ps|
  {
    if ps != [] {
      RunClean(ps[..|ps| - 1]);
      StepClean(Run(ps[..|ps| - 1]), ps[|ps| - 1]);
    }
  }

  lemma {:induction false} StepClean(st: State, para: string)
    requires CleanContents(st.out)
    ensures CleanContents(Step(st, para).out)
  {
    var line := Strip(para);
    FlushClean(st);
    if line == "" {
      StepOnBlank(st, para);
    } else if ChapterMark <= line {
      StepOnChapter(st, para);
    } else if SectionMark <= line {
      StepOnSection(st, para);
    } else if IsIdeographArticleLine(line) {
      StepOnMarker(st, para);
    } else {
      StepOnPlain(st, para);
    }
  }

  lemma {:induction false} FlushClean(st: State)
    requires CleanContents(st.out)
    ensures CleanContents(Flush(st).out)
  {
  }

  /** Every pair's content is stripped and not blank. */
  lemma {:induction false} ContentsClean(content: string)
    ensures CleanContents(Parse(content))
  {
    var ps := Paragraphs(content);
    if ps != [] {
      RunClean(ps[1..]);
      FlushClean(Run(ps[1..]));
    }
  }

  /** The first paragraph is the law's name and is in no pair: a text that starts with
      a one-line name and a blank line gives the pairs of what follows. */
  lemma {:induction false} LawNameDropped(name: string, body: string)
    requires Strip(name) != ""
    requires forall k :: 0 <= k < |name| ==> name[k] != '\n'
    ensures Parse(name + "\n\n" + body) == ParseParagraphs(Paragraphs(body))
  {
    var parts := Split(body, "\n\n");
    SplitFirst(name, "\n\n", body);
    assert ([name] + parts)[1..] == parts;
    assert Paragraphs(name + "\n\n" + body) == [Strip(name)] + NonBlankStripped(parts);
  }

  // ---------------------------------------------------------------------------
  // The pairs in terms of the input: sections, and the articles in each

  /** A stretch of paragraphs under one chapter and section. */
  datatype Segment = Segment(chapter: string, section: string, paras: seq<string>)

  /** The paragraphs cut at their headings: a `## ` paragraph starts a new chapter with
      no section, a `### ` paragraph a new section of the chapter, and any other
      paragraph that is not blank joins the last stretch. */
  function Segments(ps: seq<string>): (segs: seq<Segment>)
    ensures segs != []
  {
    if ps == [] then [Segment("", "", [])]
    else NextSegments(Segments(ps[..|ps| - 1]), ps[|ps| - 1])
  }

  function NextSegments(segs: seq<Segment>, para: string): (segs': seq<Segment>)
    requires segs != []
    ensures segs' != []
  {
    var line := Strip(para);
    var last := segs[|segs| - 1];
    if line == "" then segs
    else if IsHeading(line) then segs + [Opened(last, line)]
    else segs[..|segs| - 1] + [Segment(last.chapter, last.section, last.paras + [line])]
  }

  /** The empty stretch a heading opens after `last`. */
  function Opened(last: Segment, line: string): (seg: Segment)
    requires IsHeading(line)
    ensures seg.paras == []
  {
    if ChapterMark <= line then Segment(Strip(line[3..]), "", [])
    else Segment(last.chapter, Strip(line[4..]), [])
  }

  /** One pair per group of paragraphs, under the given metadata, with the group's
      paragraphs joined by spaces. */
  function ChunksOf(metadata: string, gs: seq<seq<string>>): (cs: seq<Chunk>)
    ensures |cs| == |gs|
    ensures forall k :: 0 <= k < |cs| ==> cs[k] == Chunk(metadata, Join(gs[k], " "))
  {
    if gs == [] then [] else ChunksOf(metadata, gs[..|gs| - 1]) + [Chunk(metadata, Join(gs[|gs| - 1], " "))]
  }

  /** The pairs of a stretch: the paragraphs before its first article, if any, then one
      per article. */
  function SegmentChunks(seg: Segment): seq<Chunk>
  {
    ChunksOf(Metadata(seg.chapter, seg.section), Groups(seg.paras, IsIdeographArticleLine))
  }

  function AllChunks(segs: seq<Segment>): seq<Chunk>
  {
    if segs == [] then [] else AllChunks(segs[..|segs| - 1]) + SegmentChunks(segs[|segs| - 1])
  }

  /** The closed groups: all but the last. */
  function Closed(gs: seq<seq<string>>): seq<seq<string>>
  {
    if gs == [] then [] else gs[..|gs| - 1]
  }

  /** The open article holds the last group, joined by spaces; the paragraphs before a
      stretch's first article carry the space `" " + line` put in front of them. */
  ghost predicate OpenIs(article: string, gs: seq<seq<string>>)
  {
    && (gs == [] ==> article == "")
    && (gs != [] ==>
          var g := gs[|gs| - 1];
          && g != []
          && (forall k :: 0 <= k < |g| ==> g[k] != "" && IsStripped(g[k]))
          && (article == Join(g, " ") || article == " " + Join(g, " ")))
  }

  /** What the loop state means once the paragraphs read so far have been cut into
      `segs`: the chapter and section are the last stretch's, the open article is its
      last group, and the pairs so far are those of the earlier stretches and of the
      closed groups of the last. */
  ghost predicate Tracks(st: State, segs: seq<Segment>)
  {
    && segs != []
    && var last := segs[|segs| - 1];
    var gs := Groups(last.paras, IsIdeographArticleLine);
    && st.chapter == last.chapter
    && st.section == last.section
    && OpenIs(st.article, gs)
    && st.out == AllChunks(segs[..|segs| - 1]) + ChunksOf(Metadata(last.chapter, last.section), Closed(gs))
  }

  /** `Tracks` from its parts, for the input cut into `front` and a last stretch. */
  lemma {:induction false} TracksIntro(st: State, front: seq<Segment>, last: Segment)
    requires st.chapter == last.chapter && st.section == last.section
    requires OpenIs(st.article, Groups(last.paras, IsIdeographArticleLine))
    requires st.out == AllChunks(front)
      + ChunksOf(Metadata(last.chapter, last.section), Closed(Groups(last.paras, IsIdeographArticleLine)))
    ensures Tracks(st, front + [last])
  {
    var segs := front + [last];
    assert segs[..|segs| - 1] == front;
  }

  lemma {:induction false} SegmentsSnoc(ps: seq<string>, para: string)
    ensures Segments(ps + [para]) == NextSegments(Segments(ps), para)
  {
    assert (ps + [para])[..|ps|] == ps;
  }

  lemma {:induction false} RunSnoc(ps: seq<string>, para: string)
    ensures Run(ps + [para]) == Step(Run(ps), para)
  {
    assert (ps + [para])[..|ps|] == ps;
  }

  lemma {:induction false} AllChunksSnoc(segs: seq<Segment>, seg: Segment)
    ensures AllChunks(segs + [seg]) == AllChunks(segs) + SegmentChunks(seg)
  {
    assert (segs + [seg])[..|segs|] == segs;
  }

  lemma {:induction false} ChunksOfSnoc(metadata: string, gs: seq<seq<string>>, g: seq<string>)
    ensures ChunksOf(metadata, gs + [g]) == ChunksOf(metadata, gs) + [Chunk(metadata, Join(g, " "))]
  {
    assert (gs + [g])[..|gs|] == gs;
  }

  /** The stripped open article is its group joined by spaces, and blank exactly when
      there is no group. */
  lemma {:induction false} OpenContent(article: string, gs: seq<seq<string>>)
    requires OpenIs(article, gs)
    ensures gs == [] ==> Strip(article) == ""
    ensures gs != [] ==> Strip(article) == Join(gs[|gs| - 1], " ") && Strip(article) != ""
  {
    if gs != [] {
      var j := Join(gs[|gs| - 1], " ");
      JoinStripped(gs[|gs| - 1], " ");
      StripStripped(j);
      StripSpacePrefix(j);
    }
  }

  /** Flushing emits the open group: the state then holds the pairs of every group. */
  lemma {:induction false} FlushBlocks(st: State, front: seq<Chunk>, gs: seq<seq<string>>)
    requires OpenIs(st.article, gs)
    requires st.out == front + ChunksOf(Metadata(st.chapter, st.section), Closed(gs))
    ensures Flush(st) == State(st.chapter, st.section, "", front + ChunksOf(Metadata(st.chapter, st.section), gs))
  {
    OpenContent(st.article, gs);
    if gs == [] {
      FlushBlank(st);
    } else {
      var meta := Metadata(st.chapter, st.section);
      FlushArticleText(st);
      SplitLast(gs);
      ChunksOfSnoc(meta, gs[..|gs| - 1], gs[|gs| - 1]);
      AppendSnoc(front, ChunksOf(meta, gs[..|gs| - 1]), Chunk(meta, Join(gs[|gs| - 1], " ")));
    }
  }

  lemma {:induction false} FlushBlank(st: State)
    requires Strip(st.article) == ""
    ensures Flush(st) == st
  {
  }

  lemma {:induction false} FlushArticleText(st: State)
    requires Strip(st.article) != ""
    ensures Flush(st) == State(st.chapter, st.section, "",
                              st.out + [Chunk(Metadata(st.chapter, st.section), Strip(st.article))])
  {
  }

  /** Flushing completes the pairs of every stretch so far. */
  lemma {:induction false} FlushCompletes(st: State, segs: seq<Segment>)
    requires Tracks(st, segs)
    ensures Flush(st) == State(st.chapter, st.section, "", AllChunks(segs))
  {
    var last := segs[|segs| - 1];
    FlushBlocks(st, AllChunks(segs[..|segs| - 1]), Groups(last.paras, IsIdeographArticleLine));
    SplitLast(segs);
    AllChunksSnoc(segs[..|segs| - 1], last);
  }

  lemma {:induction false} StepOnChapter(st: State, para: string)
    requires Strip(para) != "" && ChapterMark <= Strip(para)
    ensures Step(st, para) == State(Strip(Strip(para)[3..]), "", Flush(st).article, Flush(st).out)
  {
  }

  lemma {:induction false} StepOnSection(st: State, para: string)
    requires Strip(para) != "" && !(ChapterMark <= Strip(para)) && SectionMark <= Strip(para)
    ensures Step(st, para) == State(Flush(st).chapter, Strip(Strip(para)[4..]), Flush(st).article, Flush(st).out)
  {
  }

  lemma {:induction false} StepOnMarker(st: State, para: string)
    requires Strip(para) != "" && !(ChapterMark <= Strip(para)) && !(SectionMark <= Strip(para))
    requires IsIdeographArticleLine(Strip(para))
    ensures Step(st, para) == State(Flush(st).chapter, Flush(st).section, Strip(para), Flush(st).out)
  {
  }

  /** Flushing leaves the chapter and section as they are. */
  lemma {:induction false} FlushKeeps(st: State)
    ensures Flush(st).chapter == st.chapter && Flush(st).section == st.section
  {
  }

  lemma {:induction false} StepOnPlain(st: State, para: string)
    requires Strip(para) != "" && !(ChapterMark <= Strip(para)) && !(SectionMark <= Strip(para))
    requires !IsIdeographArticleLine(Strip(para))
    ensures Step(st, para) == State(st.chapter, st.section, st.article + " " + Strip(para), st.out)
  {
  }

  lemma {:induction false} StepOnBlank(st: State, para: string)
    requires Strip(para) == ""
    ensures Step(st, para) == st
  {
  }

  lemma {:induction false} GroupsEmpty()
    ensures Groups([], IsIdeographArticleLine) == []
  {
    assert Leading([], IsIdeographArticleLine) == [];
    assert Blocks([], IsIdeographArticleLine) == [];
  }

  /** A heading flushes the open article and starts an empty stretch. */
  lemma {:induction false} HeadingTracks(st: State, segs: seq<Segment>, chapter: string, section: string)
    requires Tracks(st, segs)
    ensures Tracks(State(chapter, section, Flush(st).article, Flush(st).out), segs + [Segment(chapter, section, [])])
  {
    FlushCompletes(st, segs);
    StretchOpened(segs, chapter, section);
  }

  /** Right after a heading: no article is open and the pairs are those of the
      stretches before. */
  lemma {:induction false} StretchOpened(segs: seq<Segment>, chapter: string, section: string)
    ensures Tracks(State(chapter, section, "", AllChunks(segs)), segs + [Segment(chapter, section, [])])
  {
    GroupsEmpty();
    assert ChunksOf(Metadata(chapter, section), Closed([])) == [];
    assert AllChunks(segs) + [] == AllChunks(segs);
    TracksIntro(State(chapter, section, "", AllChunks(segs)), segs, Segment(chapter, section, []));
  }

  /** An article paragraph flushes the open article and opens a new one. */
  lemma {:induction false} MarkerTracks(st: State, segs: seq<Segment>, line: string)
    requires Tracks(st, segs)
    requires line != "" && IsStripped(line) && IsIdeographArticleLine(line)
    ensures var last := segs[|segs| - 1];
      Tracks(State(st.chapter, st.section, line, Flush(st).out),
             segs[..|segs| - 1] + [Segment(last.chapter, last.section, last.paras + [line])])
  {
    var last := segs[|segs| - 1];
    var gs := Groups(last.paras, IsIdeographArticleLine);
    FlushBlocks(st, AllChunks(segs[..|segs| - 1]), gs);
    GroupsOpen(last.paras, line);
    ClosedOpen(gs, line);
    OpenMarker(line, gs);
    TracksIntro(State(st.chapter, st.section, line, Flush(st).out), segs[..|segs| - 1],
                Segment(last.chapter, last.section, last.paras + [line]));
  }

  lemma {:induction false} ClosedOpen(gs: seq<seq<string>>, line: string)
    ensures Closed(gs + [[line]]) == gs
  {
    assert (gs + [[line]])[..|gs|] == gs;
  }

  lemma {:induction false} OpenMarker(line: string, gs: seq<seq<string>>)
    requires line != "" && IsStripped(line)
    ensures OpenIs(line, gs + [[line]])
  {
    assert Join([line], " ") == line;
  }

  /** Any other paragraph is added to the open article after a space; before the
      stretch's first article it starts the leading group. */
  lemma {:induction false} PlainTracks(st: State, segs: seq<Segment>, line: string)
    requires Tracks(st, segs)
    requires line != "" && IsStripped(line) && !IsIdeographArticleLine(line)
    ensures var last := segs[|segs| - 1];
      Tracks(State(st.chapter, st.section, st.article + " " + line, st.out),
             segs[..|segs| - 1] + [Segment(last.chapter, last.section, last.paras + [line])])
  {
    var last := segs[|segs| - 1];
    var gs := Groups(last.paras, IsIdeographArticleLine);
    var gs' := Groups(last.paras + [line], IsIdeographArticleLine);
    if gs == [] {
      GroupsFirst(last.paras, line);
      OpenFirst(line);
      assert Closed([[line]]) == [];
    } else {
      GroupsExtend(last.paras, line);
      OpenExtends(st.article, gs, line);
      ClosedExtend(gs, line);
    }
    TracksIntro(State(st.chapter, st.section, st.article + " " + line, st.out), segs[..|segs| - 1],
                Segment(last.chapter, last.section, last.paras + [line]));
  }

  lemma {:induction false} GroupsFirst(ps: seq<string>, line: string)
    requires Groups(ps, IsIdeographArticleLine) == [] && !IsIdeographArticleLine(line)
    ensures Groups(ps + [line], IsIdeographArticleLine) == [[line]]
  {
    GroupsSnoc(ps, line, IsIdeographArticleLine);
  }

  lemma {:induction false} GroupsExtend(ps: seq<string>, line: string)
    requires Groups(ps, IsIdeographArticleLine) != [] && !IsIdeographArticleLine(line)
    ensures var gs := Groups(ps, IsIdeographArticleLine);
      Groups(ps + [line], IsIdeographArticleLine) == gs[..|gs| - 1] + [gs[|gs| - 1] + [line]]
  {
    GroupsSnoc(ps, line, IsIdeographArticleLine);
  }

  lemma {:induction false} GroupsOpen(ps: seq<string>, line: string)
    requires IsIdeographArticleLine(line)
    ensures Groups(ps + [line], IsIdeographArticleLine) == Groups(ps, IsIdeographArticleLine) + [[line]]
  {
    GroupsSnoc(ps, line, IsIdeographArticleLine);
  }

  lemma {:induction false} OpenFirst(line: string)
    requires line != "" && IsStripped(line)
    ensures OpenIs("" + " " + line, [[line]])
  {
    assert Join([line], " ") == line;
    assert "" + " " + line == " " + line;
  }

  lemma {:induction false} OpenExtends(article: string, gs: seq<seq<string>>, line: string)
    requires OpenIs(article, gs) && gs != []
    requires line != "" && IsStripped(line)
    ensures OpenIs(article + " " + line, gs[..|gs| - 1] + [gs[|gs| - 1] + [line]])
  {
    var g := gs[|gs| - 1];
    JoinSnoc(g, line, " ");
    var gs' := gs[..|gs| - 1] + [g + [line]];
    assert gs'[|gs'| - 1] == g + [line];
    if article == " " + Join(g, " ") {
      assert article + " " + line == " " + (Join(g, " ") + " " + line);
    }
  }

  lemma {:induction false} ClosedExtend(gs: seq<seq<string>>, line: string)
    requires gs != []
    ensures Closed(gs[..|gs| - 1] + [gs[|gs| - 1] + [line]]) == Closed(gs)
  {
    var gs' := gs[..|gs| - 1] + [gs[|gs| - 1] + [line]];
    assert gs'[..|gs'| - 1] == gs[..|gs| - 1];
  }

  /** One more paragraph keeps the loop state in step with the stretches. */
  lemma {:induction false} StepTracks(st: State, segs: seq<Segment>, para: string)
    requires Tracks(st, segs)
    ensures Tracks(Step(st, para), NextSegments(segs, para))
  {
    var line := Strip(para);
    var last := segs[|segs| - 1];
    if line == "" {
      StepOnBlank(st, para);
    } else if ChapterMark <= line {
      StepOnChapter(st, para);
      HeadingTracks(st, segs, Strip(line[3..]), "");
    } else if SectionMark <= line {
      StepOnSection(st, para);
      FlushKeeps(st);
      HeadingTracks(st, segs, last.chapter, Strip(line[4..]));
    } else if IsIdeographArticleLine(line) {
      StepOnMarker(st, para);
      FlushKeeps(st);
      MarkerTracks(st, segs, line);
    } else {
      StepOnPlain(st, para);
      PlainTracks(st, segs, line);
    }
  }

  lemma {:induction false} RunTracks(ps: seq<string>)
    ensures Tracks(Run(ps), Segments(ps))
    decreases |ps|
  {
    if ps == [] {
      GroupsEmpty();
    } else {
      var init, para := ps[..|ps| - 1], ps[|ps| - 1];
      RunTracks(init);
      StepTracks(Run(init), Segments(init), para);
    }
  }

  /** The pairs are, stretch by stretch, one per group: the paragraphs before the
      stretch's first article, if any, then each article paragraph with the paragraphs
      after it up to the next article or heading, joined by spaces and labelled with the
      stretch's chapter and section. */
  lemma {:induction false} ParseMatchesSegments(ps: seq<string>)
    ensures ParseParagraphs(ps) == AllChunks(Segments(ps))
  {
    RunTracks(ps);
    FlushCompletes(Run(ps), Segments(ps));
  }

  // ---------------------------------------------------------------------------
  // Consequences

  predicate IsHeading(line: string)
  {
    ChapterMark <= line || SectionMark <= line
  }

  /** The paragraphs that are neither blank nor headings, stripped, in order. */
  function Body(ps: seq<string>): seq<string>
  {
    if ps == [] then []
    else
      var line := Strip(ps[|ps| - 1]);
      Body(ps[..|ps| - 1]) + (if line != "" && !IsHeading(line) then [line] else [])
  }

  /** The paragraphs of all stretches, in order. */
  function SegmentParas(segs: seq<Segment>): seq<string>
  {
    if segs == [] then [] else SegmentParas(segs[..|segs| - 1]) + segs[|segs| - 1].paras
  }

  lemma {:induction false} SegmentParasSnoc(segs: seq<Segment>, seg: Segment)
    ensures SegmentParas(segs + [seg]) == SegmentParas(segs) + seg.paras
  {
    assert (segs + [seg])[..|segs|] == segs;
  }

  lemma {:induction false} NextSegmentsParas(segs: seq<Segment>, para: string)
    requires segs != []
    ensures var line := Strip(para);
      SegmentParas(NextSegments(segs, para))
        == SegmentParas(segs) + (if line != "" && !IsHeading(line) then [line] else [])
  {
    var line := Strip(para);
    var last := segs[|segs| - 1];
    if line == "" {
    } else if IsHeading(line) {
      SegmentParasSnoc(segs, Opened(last, line));
    } else {
      ExtendParas(segs, line);
    }
  }

  lemma {:induction false} ExtendParas(segs: seq<Segment>, line: string)
    requires segs != []
    ensures var last := segs[|segs| - 1];
      SegmentParas(segs[..|segs| - 1] + [Segment(last.chapter, last.section, last.paras + [line])])
        == SegmentParas(segs) + [line]
  {
    var front, last := segs[..|segs| - 1], segs[|segs| - 1];
    SplitLast(segs);
    SegmentParasSnoc(front, last);
    SegmentParasSnoc(front, Segment(last.chapter, last.section, last.paras + [line]));
  }

  /** Every paragraph after the law's name that is neither blank nor a heading belongs
      to exactly one stretch, in order, and no heading belongs to any: heading text
      never enters a pair's content. */
  lemma {:induction false} SegmentsKeepBody(ps: seq<string>)
    ensures SegmentParas(Segments(ps)) == Body(ps)
    decreases |ps|
  {
    if ps != [] {
      var init, para := ps[..|ps| - 1], ps[|ps| - 1];
      SegmentsKeepBody(init);
      NextSegmentsParas(Segments(init), para);
    }
  }
}
