/** Line numbers and visible sections of a document diff. */
module DiffView {
  import opened Wrappers

  datatype Tag = Equal | Delete | Insert

  datatype Line = Line(tag: Tag, content: string)

  datatype NumberedLine = NumberedLine(oldNum: Option<nat>, newNum: Option<nat>, tag: Tag, content: string)

  /** A run of lines that are all shown or all folded away. */
  datatype Section = Section(visible: bool, lines: seq<NumberedLine>)

  // ---------------------------------------------------------------- line numbers

  /** Lines of the old document among some diff lines. */
  function OldLines(lines: seq<Line>): seq<string> {
    if lines == [] then []
    else OldLines(lines[..|lines| - 1]) + if lines[|lines| - 1].tag == Insert then [] else [lines[|lines| - 1].content]
  }

  function NewLines(lines: seq<Line>): seq<string> {
    if lines == [] then []
    else NewLines(lines[..|lines| - 1]) + if lines[|lines| - 1].tag == Delete then [] else [lines[|lines| - 1].content]
  }

  /** A numbered line says where its content stands in each document that has it. */
  ghost predicate NumberedAs(lines: seq<Line>, i: nat, n: NumberedLine)
    requires i < |lines|
  {
    && n.tag == lines[i].tag && n.content == lines[i].content
    && n.oldNum == (if lines[i].tag == Insert then None else Some(|OldLines(lines[..i])| + 1))
    && n.newNum == (if lines[i].tag == Delete then None else Some(|NewLines(lines[..i])| + 1))
  }

  method AssignLineNumbers(lines: seq<Line>) returns (numbered: seq<NumberedLine>)
    ensures |numbered| == |lines| && forall i :: 0 <= i < |lines| ==> NumberedAs(lines, i, numbered[i])
  {
    var oldNum, newNum := 0, 0;
    numbered := [];
    for i := 0 to |lines|
      invariant |numbered| == i && oldNum == |OldLines(lines[..i])| && newNum == |NewLines(lines[..i])|
      invariant forall k :: 0 <= k < i ==> NumberedAs(lines, k, numbered[k])
    {
      assert lines[..i + 1][..i] == lines[..i];
      match lines[i].tag {
        case Equal =>
          oldNum, newNum := oldNum + 1, newNum + 1;
          numbered := numbered + [NumberedLine(Some(oldNum), Some(newNum), lines[i].tag, lines[i].content)];
        case Delete =>
          oldNum := oldNum + 1;
          numbered := numbered + [NumberedLine(Some(oldNum), None, lines[i].tag, lines[i].content)];
        case Insert =>
          newNum := newNum + 1;
          numbered := numbered + [NumberedLine(None, Some(newNum), lines[i].tag, lines[i].content)];
      }
    }
  }

  lemma {:induction false} OldPrefix(lines: seq<Line>, i: nat)
    requires i <= |lines|
    ensures OldLines(lines[..i]) <= OldLines(lines) && NewLines(lines[..i]) <= NewLines(lines)
  {
    if i == |lines| {
      assert lines[..i] == lines;
    } else {
      var n := |lines| - 1;
      OldPrefix(lines[..n], i);
      assert lines[..n][..i] == lines[..i];
    }
  }

  /** A line number points at that very line of its document. */
  lemma NumbersPointAtLines(lines: seq<Line>, i: nat, n: NumberedLine)
    requires i < |lines| && NumberedAs(lines, i, n)
    ensures n.oldNum.Some? ==> 1 <= n.oldNum.value <= |OldLines(lines)| && OldLines(lines)[n.oldNum.value - 1] == n.content
    ensures n.newNum.Some? ==> 1 <= n.newNum.value <= |NewLines(lines)| && NewLines(lines)[n.newNum.value - 1] == n.content
  {
    assert lines[..i + 1][..i] == lines[..i];
    OldPrefix(lines, i + 1);
  }

  function OldNumbers(numbered: seq<NumberedLine>): seq<nat> {
    if numbered == [] then []
    else OldNumbers(numbered[..|numbered| - 1]) + if numbered[|numbered| - 1].oldNum.Some? then [numbered[|numbered| - 1].oldNum.value] else []
  }

  function NewNumbers(numbered: seq<NumberedLine>): seq<nat> {
    if numbered == [] then []
    else NewNumbers(numbered[..|numbered| - 1]) + if numbered[|numbered| - 1].newNum.Some? then [numbered[|numbered| - 1].newNum.value] else []
  }

  /** Each side is numbered 1, 2, 3, ... with no gap and no repetition. */
  lemma {:induction false} NumbersAreConsecutive(lines: seq<Line>, numbered: seq<NumberedLine>)
    requires |numbered| == |lines| && forall i :: 0 <= i < |lines| ==> NumberedAs(lines, i, numbered[i])
    ensures Counting(OldNumbers(numbered), |OldLines(lines)|) && Counting(NewNumbers(numbered), |NewLines(lines)|)
  {
    hide Counting, NumberedAs;
    if lines == [] {
      NothingCounted(lines, numbered);
    } else {
      var n := |lines| - 1;
      forall i | 0 <= i < n ensures NumberedAs(lines[..n], i, numbered[..n][i]) {
        assert NumberedAs(lines, i, numbered[i]);
        NumberedInPrefix(lines, n, i, numbered[i]);
      }
      NumbersAreConsecutive(lines[..n], numbered[..n]);
      assert NumberedAs(lines, n, numbered[n]);
      OneLineMore(lines, numbered);
    }
  }

  /** The numbers 1 to `n` in order. */
  predicate Counting(numbers: seq<nat>, n: nat) {
    |numbers| == n && forall k :: 0 <= k < n ==> numbers[k] == k + 1
  }

  lemma NothingCounted(lines: seq<Line>, numbered: seq<NumberedLine>)
    requires lines == [] && numbered == []
    ensures Counting(OldNumbers(numbered), |OldLines(lines)|) && Counting(NewNumbers(numbered), |NewLines(lines)|)
  {
  }

  lemma NumberedInPrefix(lines: seq<Line>, n: nat, i: nat, numbered: NumberedLine)
    requires i < n <= |lines| && NumberedAs(lines, i, numbered)
    ensures NumberedAs(lines[..n], i, numbered)
  {
    hide OldLines, NewLines;
    assert lines[..n][..i] == lines[..i];
  }

  lemma OneLineMore(lines: seq<Line>, numbered: seq<NumberedLine>)
    requires |numbered| == |lines| > 0
    requires var n := |lines| - 1;
             && NumberedAs(lines, n, numbered[n])
             && Counting(OldNumbers(numbered[..n]), |OldLines(lines[..n])|) && Counting(NewNumbers(numbered[..n]), |NewLines(lines[..n])|)
    ensures Counting(OldNumbers(numbered), |OldLines(lines)|) && Counting(NewNumbers(numbered), |NewLines(lines)|)
  {
    var last := numbered[|lines| - 1];
    var olds, news := OldNumbers(numbered[..|lines| - 1]), NewNumbers(numbered[..|lines| - 1]);
    assert OldNumbers(numbered) == olds + if last.oldNum.Some? then [last.oldNum.value] else [];
    assert NewNumbers(numbered) == news + if last.newNum.Some? then [last.newNum.value] else [];
  }

  // ---------------------------------------------------------------- sections

  /** Some changed line is at most `context` lines away. */
  ghost predicate Near(lines: seq<NumberedLine>, context: nat, i: int) {
    exists j | 0 <= j < |lines| :: lines[j].tag != Equal && j - context <= i <= j + context
  }

  function Concat(sections: seq<Section>): seq<NumberedLine> {
    if sections == [] then [] else Concat(sections[..|sections| - 1]) + sections[|sections| - 1].lines
  }

  /** Sections are not empty and alternate. */
  ghost predicate Alternating(sections: seq<Section>) {
    && (forall s | s in sections :: s.lines != [])
    && forall k :: 0 < k < |sections| ==> sections[k - 1].visible != sections[k].visible
  }

  /** The visibility each line ends up with. */
  function Flags(sections: seq<Section>): seq<bool> {
    if sections == [] then []
    else Flags(sections[..|sections| - 1]) + Repeated(sections[|sections| - 1].visible, |sections[|sections| - 1].lines|)
  }

  /** Marks every line within `context` of a change. */
  method MarkVisible(lines: seq<NumberedLine>, context: nat) returns (visible: array<bool>)
    ensures fresh(visible) && visible.Length == |lines|
    ensures forall i :: 0 <= i < |lines| ==> visible[i] == Near(lines, context, i)
  {
    visible := new bool[|lines|](_ => false);
    for i := 0 to |lines|
      invariant forall k :: 0 <= k < |lines| ==>
                  visible[k] == exists j | 0 <= j < i :: lines[j].tag != Equal && j - context <= k <= j + context
    {
      if lines[i].tag != Equal {
        var start := if i >= context then i - context else 0;
        var end := if i + context + 1 <= |lines| then i + context + 1 else |lines|;
        for v := start to end
          invariant forall k :: 0 <= k < |lines| ==>
                      visible[k] == (start <= k < v || exists j | 0 <= j < i :: lines[j].tag != Equal && j - context <= k <= j + context)
        {
          visible[v] := true;
        }
      }
    }
  }

  lemma FlagsAppend(sections: seq<Section>, s: Section)
    ensures Concat(sections + [s]) == Concat(sections) + s.lines
    ensures Flags(sections + [s]) == Flags(sections) + Repeated(s.visible, |s.lines|)
  {
    assert (sections + [s])[..|sections|] == sections;
  }

  function Repeated(visible: bool, n: nat): seq<bool> {
    seq(n, _ => visible)
  }

  lemma RepeatedMore(visible: bool, n: nat)
    ensures Repeated(visible, n + 1) == Repeated(visible, n) + [visible] && Repeated(visible, 0) == []
  {
  }

  lemma AppendSection(sections: seq<Section>, s: Section)
    requires Alternating(sections) && s.lines != []
    requires sections != [] ==> sections[|sections| - 1].visible != s.visible
    ensures Alternating(sections + [s])
  {
  }

  lemma NoSections()
    ensures Alternating([])
  {
  }

  lemma TakeOneMore<T>(done: seq<T>, more: seq<T>, all: seq<T>, i: nat)
    requires i < |all| && done + more == all[..i]
    ensures done + (more + [all[i]]) == all[..i + 1]
  {
    assert done + (more + [all[i]]) == (done + more) + [all[i]];
  }

  /** Groups lines into runs of equal visibility. */
  method GroupLines(lines: seq<NumberedLine>, visible: seq<bool>) returns (sections: seq<Section>)
    requires |visible| == |lines| > 0
    ensures Concat(sections) == lines && Flags(sections) == visible && Alternating(sections)
  {
    hide Alternating, Repeated, Concat, Flags;
    NoSections();
    GroupedNothing();
    sections := [];
    var currentVisible := visible[0];
    var currentLines: seq<NumberedLine> := [];
    RepeatedMore(currentVisible, 0);
    for i := 0 to |lines|
      invariant Concat(sections) + currentLines == lines[..i]
      invariant Flags(sections) + Repeated(currentVisible, |currentLines|) == visible[..i]
      invariant Alternating(sections)
      invariant sections != [] ==> sections[|sections| - 1].visible != currentVisible
      invariant i > 0 ==> currentLines != []
      invariant i == 0 ==> currentVisible == visible[0]
    {
      if visible[i] != currentVisible && currentLines != [] {
        FlagsAppend(sections, Section(currentVisible, currentLines));
        AppendSection(sections, Section(currentVisible, currentLines));
        sections := sections + [Section(currentVisible, currentLines)];
        currentLines := [];
        currentVisible := visible[i];
        RepeatedMore(currentVisible, 0);
      }
      RepeatedMore(currentVisible, |currentLines|);
      TakeOneMore(Flags(sections), Repeated(currentVisible, |currentLines|), visible, i);
      TakeOneMore(Concat(sections), currentLines, lines, i);
      currentLines := currentLines + [lines[i]];
    }
    FlagsAppend(sections, Section(currentVisible, currentLines));
    AppendSection(sections, Section(currentVisible, currentLines));
    sections := sections + [Section(currentVisible, currentLines)];
    assert visible[..|visible|] == visible && lines[..|lines|] == lines;
  }

  lemma GroupedNothing()
    ensures Concat([]) == [] && Flags([]) == []
  {
  }

  /** The sections concatenate to the input, alternate, are never empty, and show exactly the lines near a change. */
  method ComputeSections(lines: seq<NumberedLine>, context: nat) returns (sections: seq<Section>)
    ensures Concat(sections) == lines && Alternating(sections)
    ensures |Flags(sections)| == |lines| && forall i :: 0 <= i < |lines| ==> Flags(sections)[i] == Near(lines, context, i)
  {
    if lines == [] {
      return [];
    }
    var visible := MarkVisible(lines, context);
    if forall i :: 0 <= i < |lines| ==> visible[i] {
      sections := [Section(true, lines)];
      FlagsAppend([], Section(true, lines));
      return;
    }
    sections := GroupLines(lines, visible[..]);
  }

  lemma {:induction false} LastFlags(sections: seq<Section>)
    requires Alternating(sections) && sections != []
    ensures Flags(sections) != [] && Flags(sections)[|Flags(sections)| - 1] == sections[|sections| - 1].visible
  {
    assert sections[|sections| - 1] in sections;
  }

  lemma {:induction false} SameLengths(sections: seq<Section>)
    ensures |Flags(sections)| == |Concat(sections)|
  {
    if sections != [] { SameLengths(sections[..|sections| - 1]); }
  }

  lemma FrontAlternates(sections: seq<Section>)
    requires sections != [] && Alternating(sections)
    ensures Alternating(sections[..|sections| - 1])
  {
    forall s | s in sections[..|sections| - 1] ensures s.lines != [] { assert s in sections; }
  }

  lemma LastUnfolds(sections: seq<Section>)
    requires sections != []
    ensures var n := |sections| - 1;
            && sections == sections[..n] + [sections[n]]
            && Concat(sections) == Concat(sections[..n]) + sections[n].lines
            && Flags(sections) == Flags(sections[..n]) + Repeated(sections[n].visible, |sections[n].lines|)
  {
  }

  lemma LastAlternates(sections: seq<Section>)
    requires sections != [] && Alternating(sections)
    ensures var n := |sections| - 1;
            sections[n].lines != [] && (n > 0 ==> sections[..n][n - 1].visible != sections[n].visible)
  {
    assert sections[|sections| - 1] in sections;
  }

  /** The last section: its flags are the last run of equal flags. */
  lemma LastSection(sections: seq<Section>)
    requires sections != [] && Alternating(sections)
    ensures var n, flags := |sections| - 1, Flags(sections);
            var i := |Flags(sections[..n])|;
            && i == |Concat(sections[..n])| && i < |flags|
            && (forall k :: i <= k < |flags| ==> flags[k] == flags[|flags| - 1])
            && (i > 0 ==> flags[i - 1] != flags[|flags| - 1])
            && flags[|flags| - 1] == sections[n].visible
  {
    hide Alternating, Concat, Flags;
    var n := |sections| - 1;
    LastUnfolds(sections);
    LastAlternates(sections);
    SameLengths(sections[..n]);
    if n > 0 {
      FrontAlternates(sections);
      LastFlags(sections[..n]);
    } else {
      GroupedNothing();
    }
  }

  /** These properties leave no choice: there is only one such list of sections. */
  lemma {:induction false} SectionsUnique(a: seq<Section>, b: seq<Section>)
    requires Alternating(a) && Alternating(b) && Concat(a) == Concat(b) && Flags(a) == Flags(b)
    ensures a == b
  {
    hide Alternating, Concat, Flags;
    if a == [] || b == [] {
      GroupedNothing();
      if a != [] { LastFlags(a); }
      if b != [] { LastFlags(b); }
    } else {
      var m, n := |a| - 1, |b| - 1;
      LastUnfolds(a);
      LastUnfolds(b);
      LastSection(a);
      LastSection(b);
      FrontAlternates(a);
      FrontAlternates(b);
      SameStart(Flags(a), |Flags(a[..m])|, |Flags(b[..n])|);
      SplitEqual(Concat(a[..m]), a[m].lines, Concat(b[..n]), b[n].lines);
      SplitEqual(Flags(a[..m]), Repeated(a[m].visible, |a[m].lines|), Flags(b[..n]), Repeated(b[n].visible, |b[n].lines|));
      SectionsUnique(a[..m], b[..n]);
    }
  }

  /** Where the last run of equal flags starts is determined by the flags. */
  lemma SameStart(flags: seq<bool>, i: nat, j: nat)
    requires i < |flags| && j < |flags|
    requires forall k :: i <= k < |flags| ==> flags[k] == flags[|flags| - 1]
    requires forall k :: j <= k < |flags| ==> flags[k] == flags[|flags| - 1]
    requires i > 0 ==> flags[i - 1] != flags[|flags| - 1]
    requires j > 0 ==> flags[j - 1] != flags[|flags| - 1]
    ensures i == j
  {
  }

  lemma SplitEqual<T>(a: seq<T>, x: seq<T>, b: seq<T>, y: seq<T>)
    requires a + x == b + y && |x| == |y|
    ensures a == b && x == y
  {
    assert a == (a + x)[..|a|] && b == (b + y)[..|b|];
    assert x == (a + x)[|a|..] && y == (b + y)[|b|..];
  }
}
