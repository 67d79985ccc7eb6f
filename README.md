# laws-rag segmenters in Dafny

laws-rag turns Markdown copies of Chinese laws into chunks for a retrieval index.
The text logic behind this lives in four divergent copies of a line-oriented
segmenter, plus a few helpers. This project models them and proves what each one
emits.

- `parse_law_content` in `src/data_processing.py` gives three kinds of records.
  Each `## ` chapter heading gives a chapter-title record. Each article (a
  `第…条` marker line and the plain lines after it) gives a numbered record. A
  plain line before the first article gives a free-standing record.
- `parse_law_content` in `src/project_lawsrag/utils/data_processing.py` gives
  `(chapter, content)` chunks, one per article. Its `process_single_file` cuts
  the file at the `<!-- INFO END -->` sentinel and labels every chunk with the
  law type and law name.
- `parse_text` in `src/prepare.py` works on blank-line-separated paragraphs.
  It tracks a chapter (`## `) and a section (`### `), joins continuation
  paragraphs with a space, and emits `(metadata, content)` pairs.
  `create_chunk_with_context` sits beside it.
- `parse_text` in `src/x.py` works on a list of lines. It emits
  `"{t2}, {t3}, {article}"` strings.
- The helpers are:
  - the folder and file name helpers `extract_type_from_folder` and
    `extract_law_name_from_file`;
  - the integer counts of `analyze_article_distribution`;
  - the keyword classifier `analyze_question_type`;
  - `format_answer_with_wrap`.

Each parse loop is a `method` with its loop, proved equal to a fold over the
input (`Step`/`Run` functions). The fold is then compared with a declarative
reference definition:

- the input is cut into stretches at the headings (`Segments`);
- each stretch is grouped at its article marker lines
  (`LawText.Leading`/`Blocks`/`Groups`);
- each group becomes one record.

The properties about chapters, numbering, content and what is dropped are
proved about that reference.

Modules:

| module | file | models |
|---|---|---|
| `Text` | `text.dfy` | `str.strip`, `str.split`, `str.join`, `in`, `str.find` |
| `LawText` | `law_text.dfy` | the shared constants, the article-marker regex, and grouping lines at markers |
| `FileNames` | `file_names.dfy` | `extract_type_from_folder`, `extract_law_name_from_file` (identical in both data_processing files) |
| `DataProcessing` | `data_processing.dfy` | `src/data_processing.py` |
| `LawsragDataProcessing` | `lawsrag_data_processing.dfy` | `src/project_lawsrag/utils/data_processing.py` |
| `Prepare` | `prepare.dfy` | `src/prepare.py` |
| `X` | `x.dfy` | `src/x.py` |
| `RagSystem` | `rag_system.dfy` | `analyze_question_type`, `format_answer_with_wrap` |

In `src/data_processing.py` a `## ` heading does not close the open article:
lines 43-52 emit the chapter-title record and leave the article open. That
article is saved only at the next marker or at the end, under the chapter in
force then, which is the later one (`DataProcessing.HeadingKeepsArticleOpen`,
`DataProcessing.ArticleChapters`, `DataProcessing.FinalArticleChapter`). The code also never clears
`current_article` after the first marker (lines 70-71). So free-standing
records come only before the first article
(`DataProcessing.FreeTextsBeforeFirstArticle`).

## Model

| member | source | states |
|---|---|---|
| Text.Strip | src/data_processing.py:36 | the stripped line has no whitespace at either end and is no longer than the line |
| Text.StripIdempotent | src/prepare.py:37 | stripping an already stripped paragraph changes nothing |
| Text.StripSurroundingSpace | src/data_processing.py:36 | the stripped line is a slice of the line with only whitespace before and after it: `strip()` removes nothing else |
| Text.SplitPiecesFree | src/data_processing.py:27 | no piece of `content.split('\n')` holds the separator, and the first piece is a prefix of the content |
| Text.JoinSplit | src/data_processing.py:27 | joining the pieces of `content.split('\n')` with `'\n'` gives back the content: splitting loses nothing |
| Text.IndexOf | src/project_lawsrag/utils/data_processing.py:68 | the found index is the first occurrence of the word; none is found exactly when the text does not contain it |
| LawText.ArticleTitle | src/data_processing.py:55 | the match, when there is one, is a prefix of the line of the form 第, then numerals or digits, then 条 |
| LawText.ArticleTitleExact | src/data_processing.py:55 | a line that starts with 第, then numerals or digits, then 条 is matched, and the match is exactly that prefix (the numeral run cannot contain 条) |
| LawText.HeadingIsNotArticle | src/data_processing.py:43-56 | a `## ` line and the sentinel line are never article markers |
| LawText.BlocksShape | src/data_processing.py:55-75 | grouping at markers: every block is non-empty, starts with a marker and holds no other marker; there is one block per marker line |
| LawText.LeadingThenBlocks | src/data_processing.py:73-84 | the lines before the first marker followed by the blocks give back every line, in order |
| LawText.GroupsConcat | src/prepare.py:48-52 | the groups of a paragraph sequence concatenate back to it; there are none exactly when it is empty |
| LawText.GroupsShape | src/prepare.py:48-52 | every group is non-empty and every group after the first starts with a marker |
| FileNames.ExtractTypeFromFolder | src/data_processing.py:9-13 | without a `-` the folder name is returned unchanged; otherwise the text after the first `-` |
| FileNames.TypeAfterFirstDash | src/project_lawsrag/utils/data_processing.py:10-13 | a folder name made of a dash-free prefix, `-` and a type gives that type, whatever dashes the type holds |
| FileNames.Stem | src/data_processing.py:18 | the stem is a prefix of the name; when it differs, the name goes on with a `.`, a non-empty extension free of dots, and the stem is non-empty |
| FileNames.StemOfExtension | src/data_processing.py:18 | the stem of `base.ext` is `base` |
| FileNames.StemWithoutExtension | src/data_processing.py:18 | a name with no dot after its first character is its own stem |
| FileNames.RemoveTrailingGroup | src/data_processing.py:19-20 | a name in which no position starts a match of `\s*\([^)]+\)` running to the end (or to just before a final newline) is returned unchanged; otherwise, for the leftmost such position p, the result is the name cut at p, with the final newline kept |
| FileNames.ExtractLawNameFromFile | src/project_lawsrag/utils/data_processing.py:16-19 | the same two clauses for the stem of the file name, and a stem that does not end with `)` is the law name itself |
| FileNames.NoGroupUnchanged | src/data_processing.py:19-20 | a stem not ending in `)` is returned unchanged |
| FileNames.RemoveGroupAfter | src/data_processing.py:19-20 | `base (x)`, with `x` free of `)` and every parenthesis of `base` closed, loses the group and the whitespace before it |
| FileNames.FinalNewlineKept | src/data_processing.py:19-20 | `$` also matches before a final newline, which survives the substitution |
| FileNames.LawNameOfFile | src/data_processing.py:16-20 | the law name of `base (x).ext` is `base` without its trailing whitespace |
| DataProcessing.ParseLawContent | src/data_processing.py:23-98 | the loop computes the fold `ParseLines` of the split content |
| DataProcessing.ReadLine | src/data_processing.py:35-84 | one iteration changes the loop variables exactly as one step of the fold |
| DataProcessing.SaveArticle | src/data_processing.py:57-67 | saving the open article is the fold's flush |
| DataProcessing.Body | src/data_processing.py:36-40 | the body lines are stripped, non-empty, and neither the sentinel nor a heading |
| DataProcessing.ChapterTitlesMatchHeadings | src/data_processing.py:43-52 | the chapter-title records are exactly one per `## ` line, in line order, each with chapter `line[3:].strip()` and content the stripped line |
| DataProcessing.ArticlesMatchBlocks | src/data_processing.py:55-96 | the i-th article record is the i-th block of body lines: its title is the marker prefix, its content the block joined by `\n`, its number i + 1 (its chapter is stated by `DataProcessing.ArticleChapters`) |
| DataProcessing.ArticleNumbering | src/data_processing.py:58-67 | there are as many article records as marker lines, numbered 1, 2, …, k in output order, including the final flush |
| DataProcessing.FreeTextsBeforeFirstArticle | src/data_processing.py:72-84 | the free-standing records are exactly the body lines before the first marker |
| DataProcessing.SkippedLinesIgnored | src/data_processing.py:38-40 | dropping the blank and sentinel lines from the input changes no record |
| DataProcessing.HeadingKeepsArticleOpen | src/data_processing.py:43-52 | after a heading and a plain line, the open article is unchanged but for that line, its number is not consumed, and only the heading record was added |
| DataProcessing.ArticleChapters | src/data_processing.py:58-67 | article i is labelled with the chapter in force when marker line i + 1 is read, and the last article with the chapter in force at the end of the input (lines 86-96) |
| DataProcessing.FreeTextChaptersMatch | src/data_processing.py:76-84 | each free-standing record carries the chapter in force at its own line |
| DataProcessing.MarkerSavesUnderCurrentChapter | src/data_processing.py:56-71 | with an article open, a marker line appends exactly one record: that article, labelled with the chapter in force now |
| DataProcessing.ChaptersScan | src/data_processing.py:35-84 | after any prefix of the input the loop's chapter is the last heading's, an article is open exactly once a marker line has been read, and the saved records carry the chapters stated above |
| DataProcessing.FinalArticleChapter | src/data_processing.py:86-96 | when there is a marker, the last record is the article numbered k, labelled with the last chapter heading of the whole input |
| DataProcessing.Kinds | src/data_processing.py:139-142 | the chapter-title count is the number of chapter-title records; the other count is never negative and the numbered count is at most the number of article records; when every article number is positive, the numbered count is the number of article records and the other count the number of free-standing records |
| DataProcessing.NumberedBound | src/data_processing.py:141 | only article records have a positive number, so the numbered records are at most the article records |
| DataProcessing.KindsOfParse | src/data_processing.py:137-142 | on a parse result: chapter titles = heading lines, numbered records = marker lines, other = free-standing lines |
| DataProcessing.NumberedAreArticles | src/data_processing.py:141 | when every article number is positive, the records with a positive number are the article records |
| DataProcessing.KindsPartition | src/data_processing.py:140-142 | every record is exactly one of chapter title, article or free-standing text |
| DataProcessing.Lengths | src/data_processing.py:151 | one length per record, each the length of its content |
| DataProcessing.BucketsPartition | src/data_processing.py:157-162 | the four buckets (< 100, 100-300, 300-500, >= 500) add up to the number of records |
| DataProcessing.BucketsAddUp | src/data_processing.py:157-162 | every length falls into exactly one of the four ranges |
| LawsragDataProcessing.ParseLawContent | src/project_lawsrag/utils/data_processing.py:22-61 | the loop computes the fold `ParseLines` of the split content |
| LawsragDataProcessing.ReadLine | src/project_lawsrag/utils/data_processing.py:30-53 | one iteration is one step of the fold |
| LawsragDataProcessing.SaveArticle | src/project_lawsrag/utils/data_processing.py:34-38 | saving is the fold's save |
| LawsragDataProcessing.ParseMatchesChapters | src/project_lawsrag/utils/data_processing.py:22-61 | the chunks are those of the reference: cut the lines at headings, group each stretch at markers, drop what precedes the first marker of a stretch, one chunk per group under the stretch's chapter |
| LawsragDataProcessing.OneRecordPerMarker | src/project_lawsrag/utils/data_processing.py:43-59 | exactly one chunk per marker line: every article is emitted once |
| LawsragDataProcessing.HeadingSavesArticle | src/project_lawsrag/utils/data_processing.py:33-41 | a heading saves the open article under the old chapter, sets the chapter to `line[3:].strip()`, clears the article and emits nothing for itself |
| LawsragDataProcessing.DefaultChapterWithoutHeadings | src/project_lawsrag/utils/data_processing.py:26 | without headings every chunk is under `第一章 总则` |
| LawsragDataProcessing.SentinelIsContent | src/project_lawsrag/utils/data_processing.py:52-53 | the sentinel line is not special: inside an article it is appended as content |
| LawsragDataProcessing.ChunksOf | src/project_lawsrag/utils/data_processing.py:35-38 | one chunk per group, with the chapter and the group joined by `\n` |
| LawsragDataProcessing.SentinelBody | src/project_lawsrag/utils/data_processing.py:68-73 | no body without the sentinel; otherwise the body is the text after its first occurrence |
| LawsragDataProcessing.BodyAfterSentinel | src/project_lawsrag/utils/data_processing.py:68-73 | a preamble free of `<`, the sentinel and a body give that body |
| LawsragDataProcessing.Label | src/project_lawsrag/utils/data_processing.py:80-82 | one item per chunk, with the chunk's chapter and content and the file's type and law name |
| LawsragDataProcessing.ProcessSingleFile | src/project_lawsrag/utils/data_processing.py:64-84 | the items are those of `FileItems`: none without the sentinel, else the labelled chunks of the body |
| LawsragDataProcessing.LabelItems | src/project_lawsrag/utils/data_processing.py:80-82 | the labelling loop gives `Label` |
| LawsragDataProcessing.ItemsPerMarker | src/project_lawsrag/utils/data_processing.py:64-84 | a file with a sentinel yields one item per marker line of its body |
| Prepare.Paragraphs | src/prepare.py:17 | the paragraphs are non-empty and stripped |
| Prepare.NumeralMarkerIsIdeographMarker | src/prepare.py:48 | every line the numeral marker pattern accepts is a marker here too |
| Prepare.AnyIdeographMarks | src/prepare.py:48 | the class is any CJK ideograph: `第甲条` starts an article here but not in the numeral pattern |
| Prepare.Metadata | src/prepare.py:32 | chapter and section joined by `", "`, an empty part omitted |
| Prepare.CreateChunkWithContext | src/prepare.py:58-59 | the content when metadata is empty, otherwise metadata, `" | "`, content |
| Prepare.ParseText | src/prepare.py:17-55 | the loop computes `Parse`; no paragraphs give no result |
| Prepare.ReadParagraphs | src/prepare.py:36-52 | the loop over the paragraphs computes the fold `Run` |
| Prepare.ReadParagraph | src/prepare.py:37-52 | one iteration is one step of the fold |
| Prepare.FlushArticle | src/prepare.py:29-34 | the closure `flush_article` is the fold's flush |
| Prepare.ContentsClean | src/prepare.py:29-34 | every emitted content is non-empty and stripped |
| Prepare.LawNameDropped | src/prepare.py:21-22 | the first paragraph (the law name) is dropped: the result is that of the remaining paragraphs |
| Prepare.ParseMatchesSegments | src/prepare.py:36-54 | the pairs are those of the reference: cut at `## `/`### ` headings, group each stretch at markers (text before the first marker is a group too), one pair per group with its stretch's metadata and the group joined by spaces |
| Prepare.SegmentsKeepBody | src/prepare.py:41-52 | the stretches hold exactly the non-heading paragraphs, in order: heading text enters no content |
| Prepare.ChunksOf | src/prepare.py:32-33 | one pair per group, with the metadata and the group joined by `" "` |
| X.Format | src/x.py:5-6 | `t2, t3, article` when `t3` is non-empty, else `t2, article` |
| X.ParseText | src/x.py:1-27 | the loop, with its flush at the last index, computes `Parse`; an empty list gives `[]` |
| X.ReadLine | src/x.py:9-22 | one iteration is one step of the fold |
| X.FlushArticle | src/x.py:4-6 | `flush_article` appends the formatted item exactly when the article is non-empty |
| X.ParseMatchesSegments | src/x.py:1-27 | the items are those of the reference: cut at `#` lines, group each stretch at `第` lines, one item per group whose concatenated text is non-empty |
| X.SegmentsKeepText | src/x.py:9-22 | the stretches hold exactly the non-heading lines: heading lines never enter article text |
| X.BlankLineIgnored | src/x.py:18-22 | an empty line anywhere changes nothing |
| X.ItemCount | src/x.py:18-22 | one item per `第` line, plus one per stretch that has non-empty text before its first `第` line |
| RagSystem.MentionsAny | src/rag_system.py:91 | the `any(...)` test holds exactly when some keyword of the list occurs in the query |
| RagSystem.AnalyzeQuestionType | src/rag_system.py:87-102 | the result is one of the six labels |
| RagSystem.FirstListDecides | src/rag_system.py:91-102 | each label is given exactly when its list is the first, in the fixed order, that the query mentions; no mention at all gives `一般咨询型问题` |
| RagSystem.ConceptComesFirst | src/rag_system.py:91-92 | a query containing `什么是` is a concept question whatever else it contains |
| RagSystem.ConceptAndDifference | src/rag_system.py:91-100 | every query that contains both `什么是` and `区别` mentions the comparison list and is still labelled a concept question, not a comparison question |
| RagSystem.FormatAnswerWithWrap | src/rag_system.py:104-112 | the loop computes `FormatAnswer`: each line replaced by itself or by its wrapping, joined by `\n` |
| RagSystem.WrapLinesAppend | src/rag_system.py:106-110 | per-line results are concatenated in input order |
| RagSystem.ShortLinesKept | src/rag_system.py:107-108 | lines no longer than the width pass through unchanged |
| RagSystem.ShortTextUnchanged | src/rag_system.py:104-112 | when no line exceeds the width, the answer is the text itself |

## Left out

- File reading and writing, directory walking, printing and the `__main__` blocks are not modelled. The parsers take the text (or the list of lines) as a parameter.
- The `try`/`except` of `process_single_file` in `src/data_processing.py` (lines 101-134) is not modelled. Its sentinel split and labelling are those of the lawsrag copy, which is modelled; it also adds `source_file` and `content_length`. `content_length` is the content length that `DataProcessing.Lengths` uses.
- The LLM, embedding, reranking and vector-store calls are foreign libraries and are not modelled.
- The averages and percentages of `analyze_article_distribution` are floating point and are not modelled. So is the division by zero on empty data (lines 152, 166). Only the integer counts are.
- `LawText.IsArticleLine`, `Prepare.IsIdeographOrDigit`: Python's `\d` also matches non-ASCII decimal digits. The model takes ASCII digits only.
- `RagSystem.AnalyzeQuestionType`: `query.lower()` is not modelled. Every keyword is made of CJK characters, which lower-casing neither makes nor removes, so whether a keyword occurs does not depend on it.
- `RagSystem.FormatAnswerWithWrap`: `textwrap.wrap` is a parameter about which nothing is assumed. The `ValueError` it raises for a width of 0 or less is not modelled.
- `FileNames.Stem`: `Path(file_name).stem` is modelled on a single path component. The folder name is given directly, in place of `path.parent.name`.
- `LawsragDataProcessing.BodyAfterSentinel` requires a preamble without `<`. This is a sufficient condition for the sentinel found to be the one after the preamble. `SentinelBody` itself states the general case.
- `Prepare.LawNameDropped` is stated for a one-line, non-blank law name followed by a blank line.
- Python strings are sequences of code points, as `seq<char>` is. Nothing about encodings is modelled.
