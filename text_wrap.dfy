/**
 * `wrapText(text, maxLength)` of js/utils.js (and, character for character,
 * of model-gen.js): a greedy word wrapper that splits on single spaces,
 * accumulates words each followed by a space, starts a new line when the
 * next word would make the line too long, and trims every line.
 */
module TextWrap {
  import opened Strings

  /** The line buffer after `group` was appended word by word: each word followed by one space. */
  function Spaced(group: seq<string>): string
    decreases |group|
  {
    if group == [] then [] else Spaced(group[..|group| - 1]) + group[|group| - 1] + " "
  }

  /** The line a group of words is pushed as. */
  function LineOf(group: seq<string>): string {
    Trim(Spaced(group))
  }

  /** The pushed lines: one trimmed buffer per group. */
  function Lines(groups: seq<seq<string>>): seq<string>
    decreases |groups|
  {
    if groups == [] then [] else Lines(groups[..|groups| - 1]) + [LineOf(groups[|groups| - 1])]
  }

  /** The greedy layout of a word prefix: the lines already pushed and the words on the open line. */
  datatype Layout = Layout(closed: seq<seq<string>>, open: seq<string>)

  /** The greedy rule, word by word: break before `w` when the buffer plus `w` exceeds `maxLength`. */
  function Greedy(words: seq<string>, maxLength: int): Layout
    decreases |words|
  {
    if words == [] then Layout([], [])
    else
      var prev := Greedy(words[..|words| - 1], maxLength);
      var w := words[|words| - 1];
      if |Spaced(prev.open) + w| > maxLength then Layout(prev.closed + [prev.open], [w])
      else Layout(prev.closed, prev.open + [w])
  }

  /** Every line of the greedy layout, the last (open) one included. */
  function Groups(words: seq<string>, maxLength: int): seq<seq<string>> {
    var layout := Greedy(words, maxLength);
    layout.closed + [layout.open]
  }

  /** What `wrapText` returns. */
  function Wrapped(text: string, maxLength: int): string {
    if |text| <= maxLength then text
    else Join(Lines(Groups(Split(text, ' '), maxLength)), "\n")
  }

  function Flatten(groups: seq<seq<string>>): seq<string>
    decreases |groups|
  {
    if groups == [] then [] else Flatten(groups[..|groups| - 1]) + groups[|groups| - 1]
  }

  /** `wrapText(text, maxLength)`. */
  method WrapText(text: string, maxLength: int) returns (r: string)
    ensures r == Wrapped(text, maxLength)
  {
    if |text| <= maxLength {
      return text;
    }
    var words := Split(text, ' ');
    var lines := PushLines(words, maxLength);
    r := Join(lines, "\n");
  }

  /** The `forEach` loop of `wrapText`, with the line buffer and the pushed lines as its variables. */
  method PushLines(words: seq<string>, maxLength: int) returns (lines: seq<string>)
    ensures lines == Lines(Groups(words, maxLength))
  {
    var currentLine := "";
    lines := [];
    for i := 0 to |words|
      invariant currentLine == Spaced(Greedy(words[..i], maxLength).open)
      invariant lines == Lines(Greedy(words[..i], maxLength).closed)
    {
      var word := words[i];
      GreedyExtend(words, i, maxLength);
      ghost var prev := Greedy(words[..i], maxLength);
      if |currentLine + word| > maxLength {
        LinesSnoc(prev.closed, prev.open);
        lines := lines + [Trim(currentLine)];
        currentLine := "";
        SpacedSnoc([], word);
      } else {
        SpacedSnoc(prev.open, word);
      }
      currentLine := currentLine + word + " ";
    }
    assert words[..|words|] == words;
    ghost var layout := Greedy(words, maxLength);
    LinesSnoc(layout.closed, layout.open);
    lines := lines + [Trim(currentLine)];
  }

  /** One step of the greedy rule on a prefix. */
  lemma GreedyExtend(words: seq<string>, i: nat, maxLength: int)
    requires i < |words|
    ensures var prev := Greedy(words[..i], maxLength);
            Greedy(words[..i + 1], maxLength)
              == if |Spaced(prev.open) + words[i]| > maxLength then Layout(prev.closed + [prev.open], [words[i]])
                 else Layout(prev.closed, prev.open + [words[i]])
  {
    assert words[..i + 1][..i] == words[..i];
  }

  lemma SpacedSnoc(group: seq<string>, w: string)
    ensures Spaced(group + [w]) == Spaced(group) + w + " "
  {
    assert (group + [w])[..|group|] == group;
  }

  lemma LinesSnoc(groups: seq<seq<string>>, g: seq<string>)
    ensures Lines(groups + [g]) == Lines(groups) + [LineOf(g)]
  {
    assert (groups + [g])[..|groups|] == groups;
  }

  // ---------------------------------------------------------------- properties

  /** One line per group, each the group's trimmed buffer. */
  lemma {:induction false} LinesPointwise(groups: seq<seq<string>>)
    ensures |Lines(groups)| == |groups|
    ensures forall i :: 0 <= i < |groups| ==> Lines(groups)[i] == LineOf(groups[i])
    decreases |groups|
  {
    if groups != [] {
      var front := groups[..|groups| - 1];
      LinesPointwise(front);
      var ls := Lines(groups);
      assert ls == Lines(front) + [LineOf(groups[|groups| - 1])];
      forall i | 0 <= i < |groups|
        ensures ls[i] == LineOf(groups[i])
      {
        if i < |front| {
          assert groups[i] == front[i];
          assert ls[i] == Lines(front)[i];
        } else {
          assert i == |groups| - 1;
          assert ls[i] == LineOf(groups[|groups| - 1]);
        }
      }
    }
  }

  /** Text that fits is returned unchanged; in particular `''` maps to `''`. */
  lemma ShortTextUnchanged(text: string, maxLength: int)
    requires |text| <= maxLength
    ensures Wrapped(text, maxLength) == text
    ensures maxLength >= 0 ==> Wrapped("", maxLength) == ""
  {
  }

  /** No word is lost, duplicated, reordered or split: the lines hold the words in order. */
  lemma {:induction false} GreedyKeepsWords(words: seq<string>, maxLength: int)
    ensures Flatten(Groups(words, maxLength)) == words
    decreases |words|
  {
    if words == [] {
      assert Flatten([[]]) == Flatten([]) + [];
    } else {
      var front := words[..|words| - 1];
      var w := words[|words| - 1];
      var prev := Greedy(front, maxLength);
      GreedyKeepsWords(front, maxLength);
      assert Flatten(prev.closed + [prev.open]) == Flatten(prev.closed) + prev.open;
      var now := Greedy(words, maxLength);
      if |Spaced(prev.open) + w| > maxLength {
        assert now.closed + [now.open] == (prev.closed + [prev.open]) + [[w]];
      } else {
        assert now.closed + [now.open] == prev.closed + [prev.open + [w]];
        assert (prev.closed + [prev.open + [w]])[..|prev.closed|] == prev.closed;
      }
      assert words == front + [w];
    }
  }

  /**
   * Line lengths: a line of two or more words fits in `maxLength`; only a
   * line holding a single word can be longer, and then only because that
   * word itself is; an empty line is `''`.
   */
  lemma {:induction false} GreedyLineBound(words: seq<string>, maxLength: int)
    ensures forall g :: g in Groups(words, maxLength) && |g| >= 2 ==> |LineOf(g)| <= maxLength
    ensures forall g :: g in Groups(words, maxLength) && |g| == 1 && |LineOf(g)| > maxLength ==> |g[0]| > maxLength
    ensures forall g :: g in Groups(words, maxLength) && g == [] ==> LineOf(g) == ""
    decreases |words|
  {
    if words != [] {
      var front := words[..|words| - 1];
      GreedyKeepsWordsBound(front, maxLength);
    }
    GreedyKeepsWordsBound(words, maxLength);
    forall g | g in Groups(words, maxLength) && |g| >= 2
      ensures |LineOf(g)| <= maxLength
    {
      TrimShortensTrailingSpace(Spaced(g));
    }
    forall g | g in Groups(words, maxLength) && |g| == 1
      ensures |LineOf(g)| <= |g[0]|
    {
      assert Spaced(g) == g[0] + " ";
      TrimShortensTrailingSpace(Spaced(g));
    }
  }

  /** The buffer of every multi-word group, trailing space included, is at most `maxLength + 1` long. */
  lemma {:induction false} GreedyKeepsWordsBound(words: seq<string>, maxLength: int)
    ensures forall g :: g in Groups(words, maxLength) && |g| >= 2 ==> |Spaced(g)| <= maxLength + 1
    decreases |words|
  {
    if words != [] {
      var front := words[..|words| - 1];
      var w := words[|words| - 1];
      var prev := Greedy(front, maxLength);
      GreedyKeepsWordsBound(front, maxLength);
      var now := Greedy(words, maxLength);
      if |Spaced(prev.open) + w| > maxLength {
        assert now.closed + [now.open] == (prev.closed + [prev.open]) + [[w]];
      } else {
        assert now.closed + [now.open] == prev.closed + [prev.open + [w]];
        assert (prev.open + [w])[..|prev.open|] == prev.open;
        assert forall g :: g in now.closed + [now.open] ==> g in prev.closed || g == prev.open + [w];
      }
    }
  }

  /**
   * The layout is greedy: a group ends only because the next word did not
   * fit, only the first group can be empty, and it is empty exactly when the
   * first word alone exceeds `maxLength` (the leading empty line). A later
   * line is empty only when its group holds nothing but empty or whitespace
   * words, as a doubled space produces.
   */
  lemma {:induction false} GreedyBreaksOnlyWhenNeeded(words: seq<string>, maxLength: int)
    ensures var gs := Groups(words, maxLength);
            forall i :: 1 <= i < |gs| ==> gs[i] != [] && |Spaced(gs[i - 1]) + gs[i][0]| > maxLength
    ensures var gs := Groups(words, maxLength);
            words != [] ==> (gs[0] == [] <==> |words[0]| > maxLength)
    decreases |words|
  {
    if words != [] {
      var front := words[..|words| - 1];
      var w := words[|words| - 1];
      var prev := Greedy(front, maxLength);
      GreedyBreaksOnlyWhenNeeded(front, maxLength);
      GreedyKeepsWords(front, maxLength);
      var pgs := prev.closed + [prev.open];
      var gs := Groups(words, maxLength);
      if |Spaced(prev.open) + w| > maxLength {
        assert gs == pgs + [[w]];
        forall i | 1 <= i < |gs|
          ensures gs[i] != [] && |Spaced(gs[i - 1]) + gs[i][0]| > maxLength
        {
          if i < |pgs| {
            assert gs[i - 1] == pgs[i - 1] && gs[i] == pgs[i];
          } else {
            assert gs[i - 1] == prev.open && gs[i] == [w];
          }
        }
      } else {
        assert gs == prev.closed + [prev.open + [w]];
        forall i | 1 <= i < |gs|
          ensures gs[i] != [] && |Spaced(gs[i - 1]) + gs[i][0]| > maxLength
        {
          assert gs[i - 1] == pgs[i - 1];
          if i < |pgs| - 1 {
            assert gs[i] == pgs[i];
          } else {
            assert pgs[i] == prev.open;
            assert (prev.open + [w])[0] == prev.open[0];
          }
        }
      }
      if front == [] {
        assert prev == Layout([], []);
        assert Spaced([]) + w == w;
      } else {
        assert front[0] == words[0];
        if prev.closed == [] {
          assert Flatten(pgs) == Flatten([]) + prev.open;
          assert prev.open != [];
        }
      }
    }
  }

  /** The words of the worked example. */
  lemma SplitExample()
    ensures Split(ExampleText, ' ') == ExampleWords
  {
    ExampleTextIsJoin();
    SplitJoin(ExampleWords, ' ');
  }

  lemma ExampleTextIsJoin()
    ensures ExampleText == Join(ExampleWords, " ")
  {
    var w := ExampleWords;
    ExampleTailIsJoin();
    assert w[1..][1..] == w[2..];
    assert Join(w[1..], " ") == "cat" + " " + Join(w[2..], " ");
    assert Join(w, " ") == "a" + " " + Join(w[1..], " ");
    ExampleTextPieces();
  }

  lemma ExampleTextPieces()
    ensures ExampleText == "a" + " " + ("cat" + " " + "wearing a wizard hat")
  {
  }

  lemma ExampleTailIsJoin()
    ensures Join(ExampleWords[2..], " ") == "wearing a wizard hat"
  {
    var w := ExampleWords;
    assert w[2..][1..] == w[3..] && w[3..][1..] == w[4..];
    assert Join(w[4..], " ") == "wizard hat";
    assert Join(w[2..], " ") == "wearing a " + "wizard hat";
  }

  const ExampleText: string := "a cat wearing a wizard hat"

  const ExampleWords: seq<string> := ["a", "cat", "wearing", "a", "wizard", "hat"]

  /** The greedy rule keeps `w` on the open line when it fits. */
  lemma GreedyKeeps(words: seq<string>, i: nat, maxLength: int, closed: seq<seq<string>>, open: seq<string>)
    requires i < |words| && Greedy(words[..i], maxLength) == Layout(closed, open)
    requires |Spaced(open) + words[i]| <= maxLength
    ensures Greedy(words[..i + 1], maxLength) == Layout(closed, open + [words[i]])
  {
    GreedyExtend(words, i, maxLength);
  }

  /** The greedy rule closes the open line when `w` does not fit. */
  lemma GreedyBreaks(words: seq<string>, i: nat, maxLength: int, closed: seq<seq<string>>, open: seq<string>)
    requires i < |words| && Greedy(words[..i], maxLength) == Layout(closed, open)
    requires |Spaced(open) + words[i]| > maxLength
    ensures Greedy(words[..i + 1], maxLength) == Layout(closed + [open], [words[i]])
  {
    GreedyExtend(words, i, maxLength);
  }

  lemma SpacedOne(a: string)
    ensures Spaced([a]) == a + " "
  {
    SpacedSnoc([], a);
    assert [] + [a] == [a];
  }

  lemma GreedyExample1()
    ensures Greedy(ExampleWords[..1], 10) == Layout([], ["a"])
  {
    assert ExampleWords[..0] == [];
    GreedyKeeps(ExampleWords, 0, 10, [], []);
    assert [] + ["a"] == ["a"];
  }

  lemma GreedyExample2()
    ensures Greedy(ExampleWords[..2], 10) == Layout([], ["a", "cat"])
  {
    GreedyExample1();
    SpacedOne("a");
    GreedyKeeps(ExampleWords, 1, 10, [], ["a"]);
    assert ["a"] + ["cat"] == ["a", "cat"];
  }

  lemma GreedyExample3()
    ensures Greedy(ExampleWords[..3], 10) == Layout([["a", "cat"]], ["wearing"])
  {
    GreedyExample2();
    SpacedOne("a");
    SpacedSnoc(["a"], "cat");
    assert ["a"] + ["cat"] == ["a", "cat"];
    GreedyBreaks(ExampleWords, 2, 10, [], ["a", "cat"]);
    assert [] + [["a", "cat"]] == [["a", "cat"]];
  }

  lemma GreedyExample4()
    ensures Greedy(ExampleWords[..4], 10) == Layout([["a", "cat"]], ["wearing", "a"])
  {
    GreedyExample3();
    SpacedOne("wearing");
    GreedyKeeps(ExampleWords, 3, 10, [["a", "cat"]], ["wearing"]);
    assert ["wearing"] + ["a"] == ["wearing", "a"];
  }

  lemma GreedyExample5()
    ensures Greedy(ExampleWords[..5], 10) == Layout([["a", "cat"], ["wearing", "a"]], ["wizard"])
  {
    GreedyExample4();
    SpacedOne("wearing");
    SpacedSnoc(["wearing"], "a");
    assert ["wearing"] + ["a"] == ["wearing", "a"];
    GreedyBreaks(ExampleWords, 4, 10, [["a", "cat"]], ["wearing", "a"]);
    assert [["a", "cat"]] + [["wearing", "a"]] == [["a", "cat"], ["wearing", "a"]];
  }

  lemma GreedyExample()
    ensures Groups(ExampleWords, 10) == ExampleGroups
  {
    GreedyExample5();
    SpacedOne("wizard");
    GreedyKeeps(ExampleWords, 5, 10, [["a", "cat"], ["wearing", "a"]], ["wizard"]);
    assert ["wizard"] + ["hat"] == ["wizard", "hat"];
    assert ExampleWords[..6] == ExampleWords;
  }

  const ExampleGroups: seq<seq<string>> := [["a", "cat"], ["wearing", "a"], ["wizard", "hat"]]

  const ExampleLines: seq<string> := ["a cat", "wearing a", "wizard hat"]

  const ExampleOutput: string := "a cat\nwearing a\nwizard hat"

  /** The worked example of the test suite: a 26-character prompt wrapped at 10 characters. */
  lemma WrapExample()
    ensures Wrapped(ExampleText, 10) == ExampleOutput
  {
    SplitExample();
    GreedyExample();
    LinesExample();
    JoinExample();
  }

  lemma LinesExample()
    ensures Lines(ExampleGroups) == ExampleLines
  {
    var gs := ExampleGroups;
    LinesPointwise(gs);
    ExampleLine(0);
    ExampleLine(1);
    ExampleLine(2);
  }

  lemma ExampleLine(i: nat)
    requires i < 3
    ensures LineOf(ExampleGroups[i]) == ExampleLines[i]
  {
    var g := ExampleGroups[i];
    LineOfPair(g[0], g[1]);
    assert g == [g[0], g[1]];
    assert g[0] + " " + g[1] == ExampleLines[i];
  }

  /** The line of a two-word group whose words have no surrounding whitespace. */
  lemma LineOfPair(a: string, b: string)
    requires a != [] && b != []
    requires !IsWhitespace(a[0]) && !IsWhitespace(b[|b| - 1])
    ensures LineOf([a, b]) == a + " " + b
  {
    SpacedSnoc([], a);
    assert [] + [a] == [a];
    SpacedSnoc([a], b);
    assert [a] + [b] == [a, b];
    var s := a + " " + b;
    assert Spaced([a, b]) == s + " ";
    assert s[0] == a[0] && s[|s| - 1] == b[|b| - 1];
    TrimEndOnce(s);
  }

  lemma JoinExample()
    ensures Join(ExampleLines, "\n") == ExampleOutput
  {
    var ls := ExampleLines;
    assert ls[1..][1..] == ["wizard hat"];
    assert Join(ls[1..][1..], "\n") == "wizard hat";
    assert Join(ls[1..], "\n") == "wearing a" + "\n" + Join(ls[1..][1..], "\n");
    assert Join(ls, "\n") == "a cat" + "\n" + Join(ls[1..], "\n");
    ExampleOutputPieces();
  }

  lemma ExampleOutputPieces()
    ensures ExampleOutput == "a cat" + "\n" + ("wearing a" + "\n" + "wizard hat")
  {
  }

  /** Trimming `s + " "` for `s` with non-blank ends gives `s`. */
  lemma TrimEndOnce(s: string)
    requires s != [] && !IsWhitespace(s[0]) && !IsWhitespace(s[|s| - 1])
    ensures Trim(s + " ") == s
  {
    var t := s + " ";
    assert TrimStart(t) == t;
    assert t[..|t| - 1] == s;
    assert TrimEnd(t) == TrimEnd(s);
  }
}
