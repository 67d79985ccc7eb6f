/**
 The two pieces of src/rag_system.py that are plain text logic: the keyword
 classifier `analyze_question_type`, which labels a question by the first keyword
 list it meets, and `format_answer_with_wrap`, which re-wraps the lines of an answer
 that are longer than the width. `textwrap.wrap` is a parameter: nothing is assumed
 about it.
 */
module RagSystem {
  import opened Text

  const ConceptWords: seq<string> := ["是什么", "什么是", "定义", "概念", "介绍"]
  const ProcedureWords: seq<string> := ["怎么办", "如何处理", "怎么解决", "步骤", "程序"]
  const DutyWords: seq<string> := ["权利", "义务", "责任", "应当", "必须"]
  const CaseWords: seq<string> := ["案例", "例子", "举例", "实际情况"]
  const ComparisonWords: seq<string> := ["区别", "不同", "对比"]

  const Concept: string := "概念解释型问题"
  const Procedure: string := "操作指导型问题"
  const Duty: string := "权利义务型问题"
  const Case: string := "案例咨询型问题"
  const Comparison: string := "比较分析型问题"
  const General: string := "一般咨询型问题"

  /** The six labels. */
  const Labels: seq<string> := [Concept, Procedure, Duty, Case, Comparison, General]

  /** `any(word in query for word in words)` */
  function MentionsAny(query: string, words: seq<string>): (b: bool)
    ensures b <==> exists k :: 0 <= k < |words| && Contains(query, words[k])
  {
    if words == [] then false
    else Contains(query, words[0]) || MentionsAny(query, words[1..])
  }

  /** `analyze_question_type(query)`: the first keyword list, in a fixed order, that
      the question mentions decides its label; a question that mentions none is a
      general one. */
  function AnalyzeQuestionType(query: string): (r: string)
    ensures r in Labels
  {
    if MentionsAny(query, ConceptWords) then Concept
    else if MentionsAny(query, ProcedureWords) then Procedure
    else if MentionsAny(query, DutyWords) then Duty
    else if MentionsAny(query, CaseWords) then Case
    else if MentionsAny(query, ComparisonWords) then Comparison
    else General
  }

  /** Each label is given exactly when its list is the first one the question
      mentions. */
  lemma {:induction false} FirstListDecides(query: string)
    ensures AnalyzeQuestionType(query) == Concept <==> MentionsAny(query, ConceptWords)
    ensures AnalyzeQuestionType(query) == Procedure <==>
      !MentionsAny(query, ConceptWords) && MentionsAny(query, ProcedureWords)
    ensures AnalyzeQuestionType(query) == Duty <==>
      !MentionsAny(query, ConceptWords) && !MentionsAny(query, ProcedureWords) && MentionsAny(query, DutyWords)
    ensures AnalyzeQuestionType(query) == Case <==>
      !MentionsAny(query, ConceptWords) && !MentionsAny(query, ProcedureWords) && !MentionsAny(query, DutyWords)
      && MentionsAny(query, CaseWords)
    ensures AnalyzeQuestionType(query) == Comparison <==>
      !MentionsAny(query, ConceptWords) && !MentionsAny(query, ProcedureWords) && !MentionsAny(query, DutyWords)
      && !MentionsAny(query, CaseWords) && MentionsAny(query, ComparisonWords)
    ensures AnalyzeQuestionType(query) == General <==>
      !MentionsAny(query, ConceptWords) && !MentionsAny(query, ProcedureWords) && !MentionsAny(query, DutyWords)
      && !MentionsAny(query, CaseWords) && !MentionsAny(query, ComparisonWords)
  {
    LabelsDistinct();
  }

  lemma {:induction false} LabelsDistinct()
    ensures forall i, j :: 0 <= i < j < |Labels| ==> Labels[i] != Labels[j]
  {
    assert Concept[0] == '概' && Procedure[0] == '操' && Duty[0] == '权';
    assert Case[0] == '案' && Comparison[0] == '比' && General[0] == '一';
  }

  /** The concept list is tried first: a question that asks what something is is a
      concept question even when it also asks for a difference. */
  lemma {:induction false} ConceptComesFirst(query: string)
    requires Contains(query, "什么是")
    ensures AnalyzeQuestionType(query) == Concept
  {
    assert ConceptWords[1] == "什么是";
  }

  /** A question that asks both what something is and what the difference is, such as
      `什么是正当防卫和紧急避险的区别`, mentions the comparison list and is still a
      concept question, never a comparison one. */
  lemma {:induction false} ConceptAndDifference(query: string)
    requires Contains(query, "什么是") && Contains(query, "区别")
    ensures MentionsAny(query, ComparisonWords)
    ensures AnalyzeQuestionType(query) == Concept && AnalyzeQuestionType(query) != Comparison
  {
    assert ComparisonWords[0] == "区别";
    ConceptComesFirst(query);
    LabelsDistinct();
    assert Labels[0] == Concept && Labels[4] == Comparison;
  }

  // ---------------------------------------------------------------------------
  // format_answer_with_wrap

  /** What one line becomes: itself when it fits the width, otherwise the lines
      `textwrap.wrap` makes of it. */
  function WrapLine(line: string, width: int, wrap: (string, int) -> seq<string>): seq<string>
  {
    if |line| <= width then [line] else wrap(line, width)
  }

  /** The lines that replace `lines`, in order. */
  function WrapLines(lines: seq<string>, width: int, wrap: (string, int) -> seq<string>): seq<string>
  {
    if lines == [] then []
    else WrapLines(lines[..|lines| - 1], width, wrap) + WrapLine(lines[|lines| - 1], width, wrap)
  }

  /** The answer `format_answer_with_wrap` returns. */
  function FormatAnswer(text: string, width: int, wrap: (string, int) -> seq<string>): string
  {
    Join(WrapLines(Split(text, "\n"), width, wrap), "\n")
  }

  /** `format_answer_with_wrap(text, width)`, with `textwrap.wrap` given as `wrap`. */
  method FormatAnswerWithWrap(text: string, width: int, wrap: (string, int) -> seq<string>) returns (r: string)
    ensures r == FormatAnswer(text, width, wrap)
  {
    var lines := Split(text, "\n");
    var wrappedLines: seq<string> := [];
    for i := 0 to |lines|
      invariant wrappedLines == WrapLines(lines[..i], width, wrap)
    {
      assert lines[..i + 1][..i] == lines[..i];
      if |lines[i]| <= width {
        wrappedLines := wrappedLines + [lines[i]];
      } else {
        wrappedLines := wrappedLines + wrap(lines[i], width);
      }
    }
    assert lines[..|lines|] == lines;
    r := Join(wrappedLines, "\n");
  }

  /** The lines are replaced one by one, in order. */
  lemma {:induction false} WrapLinesAppend(xs: seq<string>, ys: seq<string>, width: int,
                                           wrap: (string, int) -> seq<string>)
    ensures WrapLines(xs + ys, width, wrap) == WrapLines(xs, width, wrap) + WrapLines(ys, width, wrap)
    decreases |ys|
  {
    if ys == [] {
      assert xs + ys == xs;
    } else {
      var init, y := ys[..|ys| - 1], ys[|ys| - 1];
      WrapLinesAppend(xs, init, width, wrap);
      SplitLast(ys);
      AppendSnoc(xs, init, y);
      assert (xs + init + [y])[..|xs + init|] == xs + init;
      AppendAssoc(WrapLines(xs, width, wrap), WrapLines(init, width, wrap), WrapLine(y, width, wrap));
    }
  }

  /** Lines that fit the width pass through unchanged. */
  lemma {:induction false} ShortLinesKept(lines: seq<string>, width: int, wrap: (string, int) -> seq<string>)
    requires forall k :: 0 <= k < |lines| ==> |lines[k]| <= width
    ensures WrapLines(lines, width, wrap) == lines
    decreases |lines|
  {
    if lines != [] {
      ShortLinesKept(lines[..|lines| - 1], width, wrap);
      SplitLast(lines);
    }
  }

  /** When no line is longer than the width, the answer is the text itself. */
  lemma {:induction false} ShortTextUnchanged(text: string, width: int, wrap: (string, int) -> seq<string>)
    requires forall k :: 0 <= k < |Split(text, "\n")| ==> |Split(text, "\n")[k]| <= width
    ensures FormatAnswer(text, width, wrap) == text
  {
    ShortLinesKept(Split(text, "\n"), width, wrap);
    JoinSplit(text, "\n");
  }
}
