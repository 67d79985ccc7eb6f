/**
 The list segmenter of src/x.py. `parse_text(lis)` reads a list of lines: a line
 starting with `#` is a heading (`###` sets the section, any other `#` the chapter
 and clears the section), a line starting with `第` opens an item, and any other line
 is glued to the open item with no separator. Each item is emitted as one string that
 carries the chapter and section in front of the item's text.
 */
module X {
  import opened Text
  import opened LawText

  /** `f'{t2}, {t3}, {now_article}' if t3 else f'{t2}, {now_article}'` */
  function Format(t2: string, t3: string, article: string): (r: string)
    ensures t3 != "" ==> |r| == |t2| + |t3| + |article| + 4
    ensures t3 == "" ==> |r| == |t2| + |article| + 2
    ensures r[..|t2|] == t2 && r[|t2|..|t2| + 2] == ", "
    ensures r[|r| - |article|..] == article
    ensures t3 != "" ==> r[|t2| + 2..|t2| + 2 + |t3|] == t3 && r[|t2| + 2 + |t3|..|t2| + 4 + |t3|] == ", "
  {
    if t3 != "" then t2 + ", " + t3 + ", " + article else t2 + ", " + article
  }

  /** A heading line. */
  predicate IsHeading(line: string)
  {
    "#" <= line
  }

  /** A line that opens an item. */
  predicate StartsItem(line: string)
  {
    "第" <= line
  }

  // ---------------------------------------------------------------------------
  // The loop

  /** The loop's variables `t2`, `t3`, `now_article` and `res`. */
  datatype State = State(t2: string, t3: string, article: string, res: seq<string>)

  const Start: State := State("", "", "", [])

  /** What `flush_article()` leaves in `res`: the open item, if it is not empty, is
      appended under the current chapter and section. */
  function Emit(st: State): seq<string>
  {
    if st.article != "" then st.res + [Format(st.t2, st.t3, st.article)] else st.res
  }

  /** One iteration of the loop, on one line, before the check for the last index. */
  function Step(st: State, line: string): State
  {
    if IsHeading(line) then
      if "###" <= line then State(st.t2, Slice(line, 4), "", Emit(st))
      else State(Slice(line, 2), "", "", Emit(st))
    else if StartsItem(line) then State(st.t2, st.t3, line, Emit(st))
    else State(st.t2, st.t3, st.article + line, st.res)
  }

  function Run(lis: seq<string>): State
  {
    if lis == [] then Start else Step(Run(lis[..|lis| - 1]), lis[|lis| - 1])
  }

  /** The result of `parse_text(lis)`: the loop, whose last iteration flushes the open
      item; an empty list runs no iteration. */
  function Parse(lis: seq<string>): seq<string>
  {
    if lis == [] then [] else Emit(Run(lis))
  }

  /** `parse_text(lis)` */
  method ParseText(lis: seq<string>) returns (res: seq<string>)
    ensures res == Parse(lis)
    ensures lis == [] ==> res == []
  {
    res := [];
    var t2, t3, nowArticle := "", "", "";
    for i := 0 to |lis|
      invariant i < |lis| || i == 0 ==> Run(lis[..i]) == State(t2, t3, nowArticle, res)
      invariant 0 < i == |lis| ==> res == Emit(Run(lis))
    {
      assert lis[..i + 1][..i] == lis[..i];
      t2, t3, nowArticle, res := ReadLine(t2, t3, nowArticle, res, lis[i]);
      if i == |lis| - 1 {
        assert lis[..i + 1] == lis;
        res := FlushArticle(t2, t3, nowArticle, res);
      }
    }
  }

  /** The body of the loop, on one line. */
  method ReadLine(t2: string, t3: string, article: string, res: seq<string>, line: string)
    returns (t2': string, t3': string, article': string, res': seq<string>)
    ensures Step(State(t2, t3, article, res), line) == State(t2', t3', article', res')
  {
    t2', t3', article', res' := t2, t3, article, res;
    if IsHeading(line) {
      res' := FlushArticle(t2, t3, article, res);
      article' := "";
      if "###" <= line {
        t3' := Slice(line, 4);
      } else {
        t2', t3' := Slice(line, 2), "";
      }
    } else if StartsItem(line) {
      res' := FlushArticle(t2, t3, article, res);
      article' := line;
    } else {
      article' := article + line;
    }
  }

  /** The nested `flush_article`, which reads `t2`, `t3` and `now_article` and appends
      to `res`. */
  method FlushArticle(t2: string, t3: string, article: string, res: seq<string>) returns (res': seq<string>)
    ensures res' == Emit(State(t2, t3, article, res))
  {
    res' := res;
    if article != "" {
      res' := res + [Format(t2, t3, article)];
    }
  }

  // ---------------------------------------------------------------------------
  // The items in terms of the input: headings, and the items under each

  /** A stretch of lines under one chapter (`t2`) and section (`t3`). */
  datatype Segment = Segment(t2: string, t3: string, lines: seq<string>)

  /** The lines cut at the headings; the other lines join the last stretch. */
  function Segments(lis: seq<string>): (segs: seq<Segment>)
    ensures segs != []
  {
    if lis == [] then [Segment("", "", [])]
    else NextSegments(Segments(lis[..|lis| - 1]), lis[|lis| - 1])
  }

  function NextSegments(segs: seq<Segment>, line: string): (segs': seq<Segment>)
    requires segs != []
    ensures segs' != []
  {
    var last := segs[|segs| - 1];
    if IsHeading(line) then segs + [Opened(last, line)]
    else segs[..|segs| - 1] + [Segment(last.t2, last.t3, last.lines + [line])]
  }

  /** The empty stretch a heading opens after `last`: `###` keeps the chapter and sets
      the section to what follows its fourth character; any other heading sets the
      chapter to what follows its second character and clears the section. */
  function Opened(last: Segment, line: string): (seg: Segment)
    ensures seg.lines == []
  {
    if "###" <= line then Segment(last.t2, Slice(line, 4), []) else Segment(Slice(line, 2), "", [])
  }

  /** The lines glued together with no separator. */
  function Flat(g: seq<string>): string
  {
    if g == [] then "" else Flat(g[..|g| - 1]) + g[|g| - 1]
  }

  /** One item per group whose text is not empty. */
  function ItemsOf(t2: string, t3: string, gs: seq<seq<string>>): (items: seq<string>)
    ensures |items| <= |gs|
  {
    if gs == [] then [] else ItemsOf(t2, t3, gs[..|gs| - 1]) + ItemOf(t2, t3, gs[|gs| - 1])
  }

  /** The item of one group: none when its text is empty. */
  function ItemOf(t2: string, t3: string, g: seq<string>): (item: seq<string>)
    ensures |item| <= 1
  {
    if Flat(g) != "" then [Format(t2, t3, Flat(g))] else []
  }

  /** The items of a stretch: the lines before its first `第` line, if they are not all
      empty, then one per `第` line with the lines after it. */
  function SegmentItems(seg: Segment): seq<string>
  {
    ItemsOf(seg.t2, seg.t3, Groups(seg.lines, StartsItem))
  }

  function AllItems(segs: seq<Segment>): seq<string>
  {
    if segs == [] then [] else AllItems(segs[..|segs| - 1]) + SegmentItems(segs[|segs| - 1])
  }

  function Closed(gs: seq<seq<string>>): seq<seq<string>>
  {
    if gs == [] then [] else gs[..|gs| - 1]
  }

  /** What the loop state means once the lines read so far have been cut into `segs`. */
  ghost predicate Tracks(st: State, segs: seq<Segment>)
  {
    && segs != []
    && var last := segs[|segs| - 1];
    var gs := Groups(last.lines, StartsItem);
    && st.t2 == last.t2
    && st.t3 == last.t3
    && st.article == (if gs == [] then "" else Flat(gs[|gs| - 1]))
    && st.res == AllItems(segs[..|segs| - 1]) + ItemsOf(last.t2, last.t3, Closed(gs))
  }

  lemma {:induction false} TracksIntro(st: State, front: seq<Segment>, last: Segment)
    requires st.t2 == last.t2 && st.t3 == last.t3
    requires var gs := Groups(last.lines, StartsItem);
      st.article == (if gs == [] then "" else Flat(gs[|gs| - 1]))
    requires st.res == AllItems(front) + ItemsOf(last.t2, last.t3, Closed(Groups(last.lines, StartsItem)))
    ensures Tracks(st, front + [last])
  {
    var segs := front + [last];
    assert segs[..|segs| - 1] == front;
  }

  lemma {:induction false} RunSnoc(lis: seq<string>, line: string)
    ensures Run(lis + [line]) == Step(Run(lis), line)
  {
    assert (lis + [line])[..|lis|] == lis;
  }

  lemma {:induction false} AllItemsSnoc(segs: seq<Segment>, seg: Segment)
    ensures AllItems(segs + [seg]) == AllItems(segs) + SegmentItems(seg)
  {
    assert (segs + [seg])[..|segs|] == segs;
  }

  lemma {:induction false} ItemsOfSnoc(t2: string, t3: string, gs: seq<seq<string>>, g: seq<string>)
    ensures ItemsOf(t2, t3, gs + [g]) == ItemsOf(t2, t3, gs) + ItemOf(t2, t3, g)
  {
    assert (gs + [g])[..|gs|] == gs;
  }

  lemma {:induction false} FlatSnoc(g: seq<string>, line: string)
    ensures Flat(g + [line]) == Flat(g) + line
  {
    assert (g + [line])[..|g|] == g;
  }

  lemma {:induction false} FlatOne(line: string)
    ensures Flat([line]) == line
  {
    assert [line][..0] == [];
  }

  /** Flushing emits the open group, if its text is not empty. */
  lemma {:induction false} EmitCompletes(st: State, segs: seq<Segment>)
    requires Tracks(st, segs)
    ensures Emit(st) == AllItems(segs)
  {
    var front, last := segs[..|segs| - 1], segs[|segs| - 1];
    EmitGroups(st, AllItems(front), Groups(last.lines, StartsItem));
    SplitLast(segs);
    AllItemsSnoc(front, last);
  }

  lemma {:induction false} EmitGroups(st: State, front: seq<string>, gs: seq<seq<string>>)
    requires st.article == (if gs == [] then "" else Flat(gs[|gs| - 1]))
    requires st.res == front + ItemsOf(st.t2, st.t3, Closed(gs))
    ensures Emit(st) == front + ItemsOf(st.t2, st.t3, gs)
  {
    if gs != [] {
      var g := gs[|gs| - 1];
      SplitLast(gs);
      ItemsOfSnoc(st.t2, st.t3, gs[..|gs| - 1], g);
      assert Emit(st) == st.res + ItemOf(st.t2, st.t3, g);
      AppendAssoc(front, ItemsOf(st.t2, st.t3, gs[..|gs| - 1]), ItemOf(st.t2, st.t3, g));
    }
  }

  lemma {:induction false} StepOnHeading(st: State, line: string)
    requires IsHeading(line)
    ensures Step(st, line) == State(Opened(Segment(st.t2, st.t3, []), line).t2,
                                    Opened(Segment(st.t2, st.t3, []), line).t3, "", Emit(st))
  {
  }

  lemma {:induction false} StepOnItem(st: State, line: string)
    requires !IsHeading(line) && StartsItem(line)
    ensures Step(st, line) == State(st.t2, st.t3, line, Emit(st))
  {
  }

  lemma {:induction false} StepOnText(st: State, line: string)
    requires !IsHeading(line) && !StartsItem(line)
    ensures Step(st, line) == State(st.t2, st.t3, st.article + line, st.res)
  {
  }

  lemma {:induction false} GroupsEmpty()
    ensures Groups([], StartsItem) == []
  {
    assert Leading([], StartsItem) == [];
    assert Blocks([], StartsItem) == [];
  }

  /** A heading flushes the open item and starts an empty stretch. */
  lemma {:induction false} HeadingTracks(st: State, segs: seq<Segment>, line: string)
    requires Tracks(st, segs) && IsHeading(line)
    ensures Tracks(Step(st, line), NextSegments(segs, line))
  {
    var last := segs[|segs| - 1];
    var seg := Opened(last, line);
    EmitCompletes(st, segs);
    StepOnHeading(st, line);
    GroupsEmpty();
    TracksIntro(State(seg.t2, seg.t3, "", AllItems(segs)), segs, seg);
  }

  /** A `第` line flushes the open item and opens a new one. */
  lemma {:induction false} ItemTracks(st: State, segs: seq<Segment>, line: string)
    requires Tracks(st, segs) && !IsHeading(line) && StartsItem(line)
    ensures Tracks(Step(st, line), NextSegments(segs, line))
  {
    var front, last := segs[..|segs| - 1], segs[|segs| - 1];
    var gs := Groups(last.lines, StartsItem);
    StepOnItem(st, line);
    EmitCompletes(st, segs);
    SplitLast(segs);
    AllItemsSnoc(front, last);
    GroupsSnoc(last.lines, line, StartsItem);
    ClosedOpen(gs, line);
    FlatOne(line);
    TracksIntro(State(st.t2, st.t3, line, Emit(st)), front, Segment(last.t2, last.t3, last.lines + [line]));
  }

  lemma {:induction false} ClosedOpen(gs: seq<seq<string>>, line: string)
    ensures Closed(gs + [[line]]) == gs
  {
    assert (gs + [[line]])[..|gs|] == gs;
  }

  /** Any other line is glued to the open item; before the stretch's first `第` line
      it starts the leading group. */
  lemma {:induction false} TextTracks(st: State, segs: seq<Segment>, line: string)
    requires Tracks(st, segs) && !IsHeading(line) && !StartsItem(line)
    ensures Tracks(Step(st, line), NextSegments(segs, line))
  {
    var front, last := segs[..|segs| - 1], segs[|segs| - 1];
    var gs := Groups(last.lines, StartsItem);
    StepOnText(st, line);
    GroupsSnoc(last.lines, line, StartsItem);
    if gs == [] {
      FlatOne(line);
      assert Closed([[line]]) == [];
      assert st.article + line == line;
    } else {
      FlatSnoc(gs[|gs| - 1], line);
      ClosedExtend(gs, line);
    }
    TracksIntro(State(st.t2, st.t3, st.article + line, st.res), front, Segment(last.t2, last.t3, last.lines + [line]));
  }

  lemma {:induction false} ClosedExtend(gs: seq<seq<string>>, line: string)
    requires gs != []
    ensures Closed(gs[..|gs| - 1] + [gs[|gs| - 1] + [line]]) == Closed(gs)
  {
    var gs' := gs[..|gs| - 1] + [gs[|gs| - 1] + [line]];
    assert gs'[..|gs'| - 1] == gs[..|gs| - 1];
  }

  lemma {:induction false} StepTracks(st: State, segs: seq<Segment>, line: string)
    requires Tracks(st, segs)
    ensures Tracks(Step(st, line), NextSegments(segs, line))
  {
    if IsHeading(line) {
      HeadingTracks(st, segs, line);
    } else if StartsItem(line) {
      ItemTracks(st, segs, line);
    } else {
      TextTracks(st, segs, line);
    }
  }

  lemma {:induction false} RunTracks(lis: seq<string>)
    ensures Tracks(Run(lis), Segments(lis))
    decreases |lis|
  {
    if lis == [] {
      GroupsEmpty();
    } else {
      var init := lis[..|lis| - 1];
      RunTracks(init);
      StepTracks(Run(init), Segments(init), lis[|lis| - 1]);
    }
  }

  /** The items are, stretch by stretch, one per group whose text is not empty: the
      lines before the stretch's first `第` line, then each `第` line with the lines
      after it up to the next `第` line or heading, glued together and labelled with
      the stretch's chapter and section. */
  lemma {:induction false} ParseMatchesSegments(lis: seq<string>)
    ensures Parse(lis) == AllItems(Segments(lis))
  {
    if lis == [] {
      GroupsEmpty();
      assert Segments([]) == [Segment("", "", [])];
      AllItemsSnoc([], Segment("", "", []));
    } else {
      RunTracks(lis);
      EmitCompletes(Run(lis), Segments(lis));
    }
  }

  // ---------------------------------------------------------------------------
  // Consequences

  lemma {:induction false} RunBlank(xs: seq<string>)
    ensures Run(xs + [""]) == Run(xs)
  {
    RunSnoc(xs, "");
    StepOnText(Run(xs), "");
    assert Run(xs).article + "" == Run(xs).article;
  }

  lemma {:induction false} RunWithoutBlank(xs: seq<string>, ys: seq<string>)
    ensures Run(xs + [""] + ys) == Run(xs + ys)
    decreases |ys|
  {
    if ys == [] {
      assert xs + [""] + ys == xs + [""];
      assert xs + ys == xs;
      RunBlank(xs);
    } else {
      var init, y := ys[..|ys| - 1], ys[|ys| - 1];
      RunWithoutBlank(xs, init);
      SplitLast(ys);
      AppendSnoc(xs + [""], init, y);
      AppendSnoc(xs, init, y);
      RunSnoc(xs + [""] + init, y);
      RunSnoc(xs + init, y);
    }
  }

  /** An empty line changes nothing, wherever it stands: it neither opens an item nor
      adds to one. */
  lemma {:induction false} BlankLineIgnored(xs: seq<string>, ys: seq<string>)
    ensures Parse(xs + [""] + ys) == Parse(xs + ys)
  {
    RunWithoutBlank(xs, ys);
    if xs + ys == [] {
      assert xs + [""] + ys == [""];
      RunBlank([]);
    }
  }

  /** The lines that are not headings, in order. */
  function NonHeadings(lis: seq<string>): seq<string>
  {
    if lis == [] then []
    else NonHeadings(lis[..|lis| - 1]) + (if IsHeading(lis[|lis| - 1]) then [] else [lis[|lis| - 1]])
  }

  /** The lines of all stretches, in order. */
  function SegmentLines(segs: seq<Segment>): seq<string>
  {
    if segs == [] then [] else SegmentLines(segs[..|segs| - 1]) + segs[|segs| - 1].lines
  }

  lemma {:induction false} SegmentLinesSnoc(segs: seq<Segment>, seg: Segment)
    ensures SegmentLines(segs + [seg]) == SegmentLines(segs) + seg.lines
  {
    assert (segs + [seg])[..|segs|] == segs;
  }

  lemma {:induction false} ExtendLines(segs: seq<Segment>, line: string)
    requires segs != []
    ensures var last := segs[|segs| - 1];
      SegmentLines(segs[..|segs| - 1] + [Segment(last.t2, last.t3, last.lines + [line])])
        == SegmentLines(segs) + [line]
  {
    var front, last := segs[..|segs| - 1], segs[|segs| - 1];
    SplitLast(segs);
    SegmentLinesSnoc(front, last);
    SegmentLinesSnoc(front, Segment(last.t2, last.t3, last.lines + [line]));
  }

  /** Every line that is not a heading belongs to exactly one stretch, in order, and no
      heading belongs to any: heading lines never enter an item's text. */
  lemma {:induction false} SegmentsKeepText(lis: seq<string>)
    ensures SegmentLines(Segments(lis)) == NonHeadings(lis)
    decreases |lis|
  {
    if lis != [] {
      var init, line := lis[..|lis| - 1], lis[|lis| - 1];
      SegmentsKeepText(init);
      var segs := Segments(init);
      if IsHeading(line) {
        SegmentLinesSnoc(segs, Opened(segs[|segs| - 1], line));
      } else {
        ExtendLines(segs, line);
      }
    }
  }

  /** A group that starts with a non-empty line has a non-empty text. */
  lemma {:induction false} FlatStarts(g: seq<string>)
    requires g != []
    ensures |Flat(g)| >= |g[0]|
    decreases |g|
  {
    if |g| > 1 {
      FlatStarts(g[..|g| - 1]);
    }
  }

  lemma {:induction false} ItemsOfAppend(t2: string, t3: string, a: seq<seq<string>>, b: seq<seq<string>>)
    ensures ItemsOf(t2, t3, a + b) == ItemsOf(t2, t3, a) + ItemsOf(t2, t3, b)
    decreases |b|
  {
    if b == [] {
      assert a + b == a;
    } else {
      var init, g := b[..|b| - 1], b[|b| - 1];
      ItemsOfAppend(t2, t3, a, init);
      SplitLast(b);
      AppendSnoc(a, init, g);
      ItemsOfSnoc(t2, t3, a + init, g);
      ItemsOfSnoc(t2, t3, init, g);
      AppendAssoc(ItemsOf(t2, t3, a), ItemsOf(t2, t3, init), ItemOf(t2, t3, g));
    }
  }

  /** Every group that starts with a `第` line gives an item. */
  lemma {:induction false} ItemsOfStarted(t2: string, t3: string, bs: seq<seq<string>>)
    requires forall i :: 0 <= i < |bs| ==> bs[i] != [] && StartsItem(bs[i][0])
    ensures |ItemsOf(t2, t3, bs)| == |bs|
    decreases |bs|
  {
    if bs != [] {
      var g := bs[|bs| - 1];
      ItemsOfStarted(t2, t3, bs[..|bs| - 1]);
      FlatStarts(g);
      ItemsOfSnoc(t2, t3, bs[..|bs| - 1], g);
      SplitLast(bs);
    }
  }

  /** Whether the lines before a stretch's first `第` line give an item of their own. */
  predicate HasLeadingText(seg: Segment)
  {
    Flat(Leading(seg.lines, StartsItem)) != ""
  }

  /** A stretch gives one item per `第` line, and one more when the lines before the
      first of them are not all empty. */
  lemma {:induction false} SegmentItemCount(seg: Segment)
    ensures |SegmentItems(seg)| == CountStarts(seg.lines, StartsItem) + (if HasLeadingText(seg) then 1 else 0)
  {
    var l := Leading(seg.lines, StartsItem);
    var bs := Blocks(seg.lines, StartsItem);
    var lg: seq<seq<string>> := if l == [] then [] else [l];
    assert Groups(seg.lines, StartsItem) == lg + bs;
    ItemsOfAppend(seg.t2, seg.t3, lg, bs);
    BlocksShape(seg.lines, StartsItem);
    ItemsOfStarted(seg.t2, seg.t3, bs);
    ItemsOfSnoc(seg.t2, seg.t3, [], l);
    assert [] + [l] == [l];
  }

  function SegmentStarts(segs: seq<Segment>): nat
  {
    if segs == [] then 0 else SegmentStarts(segs[..|segs| - 1]) + CountStarts(segs[|segs| - 1].lines, StartsItem)
  }

  function LeadingTexts(segs: seq<Segment>): nat
  {
    if segs == [] then 0 else LeadingTexts(segs[..|segs| - 1]) + (if HasLeadingText(segs[|segs| - 1]) then 1 else 0)
  }

  lemma {:induction false} AllItemsCount(segs: seq<Segment>)
    ensures |AllItems(segs)| == SegmentStarts(segs) + LeadingTexts(segs)
    decreases |segs|
  {
    if segs != [] {
      AllItemsCount(segs[..|segs| - 1]);
      SegmentItemCount(segs[|segs| - 1]);
    }
  }

  lemma {:induction false} SegmentCountsSnoc(segs: seq<Segment>, seg: Segment)
    ensures SegmentStarts(segs + [seg]) == SegmentStarts(segs) + CountStarts(seg.lines, StartsItem)
  {
    assert (segs + [seg])[..|segs|] == segs;
  }

  lemma {:induction false} NextSegmentsStarts(segs: seq<Segment>, line: string)
    requires segs != []
    ensures SegmentStarts(NextSegments(segs, line)) == SegmentStarts(segs) + (if StartsItem(line) then 1 else 0)
  {
    var front, last := segs[..|segs| - 1], segs[|segs| - 1];
    if IsHeading(line) {
      assert line[0] == '#';
      SegmentCountsSnoc(segs, Opened(last, line));
    } else {
      SplitLast(segs);
      SegmentCountsSnoc(front, last);
      SegmentCountsSnoc(front, Segment(last.t2, last.t3, last.lines + [line]));
      CountStartsSnoc(last.lines, line, StartsItem);
    }
  }

  lemma {:induction false} SegmentsStarts(lis: seq<string>)
    ensures SegmentStarts(Segments(lis)) == CountStarts(lis, StartsItem)
    decreases |lis|
  {
    if lis == [] {
      assert Segments([]) == [] + [Segment("", "", [])];
      SegmentCountsSnoc([], Segment("", "", []));
    } else {
      var init, line := lis[..|lis| - 1], lis[|lis| - 1];
      SegmentsStarts(init);
      NextSegmentsStarts(Segments(init), line);
    }
  }

  /** Every line that starts with `第` starts exactly one item; the only other items
      are the texts of stretches before their first `第` line. */
  lemma {:induction false} ItemCount(lis: seq<string>)
    ensures |Parse(lis)| == CountStarts(lis, StartsItem) + LeadingTexts(Segments(lis))
  {
    ParseMatchesSegments(lis);
    AllItemsCount(Segments(lis));
    SegmentsStarts(lis);
  }
}
