/** Breaking help text into lines: greedy word wrap, and why no other layout of the words is shorter. */
module WordWrap {
  import opened Common

  // ---------- words and lines ----------

  /** How many leading characters are, or are not, spaces. */
  function Run(s: string, spaces: bool): (n: nat)
    ensures n <= |s| && (n < |s| ==> IsSpace(s[n]) != spaces) && forall i | 0 <= i < n :: IsSpace(s[i]) == spaces
  {
    if s == "" || IsSpace(s[0]) != spaces then 0 else 1 + Run(s[1..], spaces)
  }

  /** What repeated `stream >> word` reads. */
  function Words(s: string): seq<string>
    decreases |s|
  {
    var t := s[Run(s, true)..];
    if t == "" then [] else [t[..Run(t, false)]] + Words(t[Run(t, false)..])
  }

  predicate NonEmpty(ws: seq<string>) {
    forall i | 0 <= i < |ws| :: ws[i] != ""
  }

  /** One turn of `stream >> word`. */
  lemma WordsStep(s: string)
    ensures var t := s[Run(s, true)..]; var n := Run(t, false);
            if t == "" then Words(s) == [] else n > 0 && Words(s) == [t[..n]] + Words(t[n..])
  {
  }

  /** The letters of a word. */
  predicate SpaceFree(w: string) {
    forall i | 0 <= i < |w| :: !IsSpace(w[i])
  }

  lemma {:induction false} WordsSpaceFree(s: string, i: nat)
    requires i < |Words(s)|
    ensures SpaceFree(Words(s)[i])
    decreases |s|
  {
    hide Words;
    WordsStep(s);
    var t := s[Run(s, true)..];
    if i > 0 {
      WordsSpaceFree(t[Run(t, false)..], i - 1);
    }
  }

  function NonSpaces(s: string): string {
    if s == "" then "" else (if IsSpace(s[0]) then "" else [s[0]]) + NonSpaces(s[1..])
  }

  function Letters(ws: seq<string>): string {
    if ws == [] then "" else ws[0] + Letters(ws[1..])
  }

  lemma {:induction false} NonSpacesRun(s: string, n: nat, spaces: bool)
    requires n <= |s| && forall i | 0 <= i < n :: IsSpace(s[i]) == spaces
    ensures NonSpaces(s) == (if spaces then "" else s[..n]) + NonSpaces(s[n..])
    decreases n
  {
    hide IsSpace;
    if n == 0 {
      assert s[0..] == s;
    } else {
      NonSpacesRun(s[1..], n - 1, spaces);
      TakeOne(s, n);
      if !spaces {
        assert [s[0]] + (s[1..][..n - 1] + NonSpaces(s[n..])) == [s[0]] + s[1..][..n - 1] + NonSpaces(s[n..]);
      }
    }
  }

  lemma TakeOne(s: string, n: nat)
    requires 0 < n <= |s|
    ensures s[1..][n - 1..] == s[n..] && s[..n] == [s[0]] + s[1..][..n - 1]
  {
  }

  /** Reading words loses nothing but spaces. */
  lemma {:induction false} WordsKeepLetters(s: string)
    ensures Letters(Words(s)) == NonSpaces(s)
    decreases |s|
  {
    hide Words, IsSpace, NonSpaces;
    WordsStep(s);
    NonSpacesRun(s, Run(s, true), true);
    var t := s[Run(s, true)..];
    if t != "" {
      var n := Run(t, false);
      NonSpacesRun(t, n, false);
      WordsKeepLetters(t[n..]);
      LettersFirst(t[..n], Words(t[n..]));
    } else {
      NonSpacesNothing();
    }
  }

  lemma NonSpacesNothing()
    ensures NonSpaces("") == ""
  {
  }

  lemma LettersFirst(w: string, ws: seq<string>)
    ensures Letters([w] + ws) == w + Letters(ws)
  {
    assert ([w] + ws)[1..] == ws;
  }

  /** Words on one line. */
  function Joined(ws: seq<string>): string {
    if ws == [] then "" else if |ws| == 1 then ws[0] else Joined(ws[..|ws| - 1]) + " " + ws[|ws| - 1]
  }

  function Concat(groups: seq<seq<string>>): seq<string> {
    if groups == [] then [] else groups[0] + Concat(groups[1..])
  }

  /** A line holds at least one word, and is no longer than `max` unless it is a single word. */
  predicate Fits(group: seq<string>, max: nat) {
    group != [] && (|group| == 1 || |Joined(group)| <= max)
  }

  predicate Layout(groups: seq<seq<string>>, ws: seq<string>, max: nat) {
    Concat(groups) == ws && forall i | 0 <= i < |groups| :: Fits(groups[i], max)
  }

  // ---------- the greedy layout ----------

  /** The lines still to come, with `current` on the line being filled. */
  function Greedy(current: seq<string>, ws: seq<string>, max: nat): seq<seq<string>>
    decreases |ws|
  {
    if ws == [] then (if current == [] then [] else [current])
    else if current != [] && |Joined(current)| + 1 + |ws[0]| > max then [current] + Greedy([ws[0]], ws[1..], max)
    else Greedy(current + [ws[0]], ws[1..], max)
  }

  /** One word of the greedy layout. */
  lemma GreedyStep(current: seq<string>, word: string, rest: seq<string>, max: nat)
    ensures Greedy(current, [word] + rest, max) ==
            if current != [] && |Joined(current)| + 1 + |word| > max then [current] + Greedy([word], rest, max)
            else Greedy(current + [word], rest, max)
  {
    assert ([word] + rest)[1..] == rest;
  }

  function JoinAll(groups: seq<seq<string>>): seq<string> {
    seq(|groups|, i requires 0 <= i < |groups| => Joined(groups[i]))
  }

  function WrapLine(l: string, max: nat): seq<string> {
    if |l| <= max then [l] else JoinAll(Greedy([], Words(l), max))
  }

  lemma JoinedOne(word: string)
    ensures Joined([]) == "" && Joined([word]) == word
  {
  }

  lemma JoinedSnoc(current: seq<string>, w: string)
    requires current != []
    ensures Joined(current + [w]) == Joined(current) + " " + w
  {
    assert (current + [w])[..|current|] == current;
  }

  lemma {:induction false} JoinedWords(current: seq<string>)
    requires NonEmpty(current)
    ensures Joined(current) == "" <==> current == []
  {
    if |current| > 1 {
      JoinedWords(current[..|current| - 1]);
    }
  }

  lemma ConcatFirst(group: seq<string>, rest: seq<seq<string>>)
    ensures Concat([group] + rest) == group + Concat(rest)
  {
    assert ([group] + rest)[1..] == rest;
  }

  /** The greedy lines hold all the words in order, and each line fits. */
  lemma {:induction false} GreedyIsLayout(current: seq<string>, ws: seq<string>, max: nat)
    requires current == [] || Fits(current, max)
    ensures Layout(Greedy(current, ws, max), current + ws, max)
    decreases |ws|
  {
    hide Joined;
    if ws == [] {
      if current != [] {
        ConcatFirst(current, []);
        assert [current] + [] == [current];
      }
      assert current + [] == current;
    } else {
      var w := ws[0];
      JoinedOne(w);
      assert current + ws == current + [w] + ws[1..] && ([] + [w] == [w]);
      if current != [] && |Joined(current)| + 1 + |w| > max {
        GreedyIsLayout([w], ws[1..], max);
        ConcatFirst(current, Greedy([w], ws[1..], max));
        assert current + [w] + ws[1..] == current + ([w] + ws[1..]);
      } else {
        if current != [] {
          JoinedSnoc(current, w);
        }
        GreedyIsLayout(current + [w], ws[1..], max);
      }
    }
  }

  /** The first greedy line takes `n` more words, and one word more would not fit. */
  lemma {:induction false} FirstLine(current: seq<string>, ws: seq<string>, max: nat) returns (n: nat)
    requires current != []
    ensures n <= |ws| && Greedy(current, ws, max) == [current + ws[..n]] + Greedy([], ws[n..], max)
    ensures n < |ws| ==> |Joined(current + ws[..n + 1])| > max
    decreases |ws|
  {
    if ws == [] {
      n := 0;
      assert current + [] == current;
    } else if |Joined(current)| + 1 + |ws[0]| > max {
      n := 0;
      JoinedSnoc(current, ws[0]);
      assert current + ws[..0] == current && ws[..1] == [ws[0]] && [] + [ws[0]] == [ws[0]];
    } else {
      n := FirstLine(current + [ws[0]], ws[1..], max);
      Shift(current, ws, n);
      if n < |ws| - 1 {
        Shift(current, ws, n + 1);
      }
      n := n + 1;
    }
  }

  lemma Shift(current: seq<string>, ws: seq<string>, n: nat)
    requires n < |ws|
    ensures current + [ws[0]] + ws[1..][..n] == current + ws[..n + 1] && ws[1..][n..] == ws[n + 1..]
  {
  }

  // ---------- no layout is shorter ----------

  /** A line's length only grows with its words, at either end. */
  lemma {:induction false} JoinedGrows(a: seq<string>, b: seq<string>)
    ensures |Joined(a + b)| >= |Joined(a)| && |Joined(a + b)| >= |Joined(b)|
    decreases |b|
  {
    if b == [] {
      assert a + b == a;
    } else {
      var init, w := b[..|b| - 1], b[|b| - 1];
      assert a + b == (a + init) + [w] && b == init + [w];
      JoinedGrows(a, init);
      if a + init != [] {
        JoinedSnoc(a + init, w);
      }
      if init != [] {
        JoinedSnoc(init, w);
      }
    }
  }

  /** The first greedy line of some words, and what is left for the others. */
  lemma FirstOfAll(ws: seq<string>, k: nat, max: nat) returns (end: nat)
    requires k < |ws|
    ensures k < end <= |ws| && |Greedy([], ws[k..], max)| == 1 + |Greedy([], ws[end..], max)|
    ensures end < |ws| ==> |Joined(ws[k..end + 1])| > max
  {
    hide Joined;
    var w, todo := ws[k], ws[k + 1..];
    assert ws[k..] == [w] + todo && [] + [w] == [w];
    GreedyStep([], w, todo, max);
    var n := FirstLine([w], todo, max);
    end := k + 1 + n;
    assert todo[n..] == ws[end..];
    if end < |ws| {
      assert [w] + todo[..n + 1] == ws[k..end + 1];
    }
  }

  /**
   * Greedy stays ahead: what it makes of any tail of the words takes no more lines than any layout of all of
   * them.
   */
  lemma {:induction false} GreedyAhead(groups: seq<seq<string>>, ws: seq<string>, k: nat, max: nat)
    requires Layout(groups, ws, max) && k <= |ws|
    ensures |Greedy([], ws[k..], max)| <= |groups|
    decreases |groups|
  {
    hide Joined, Greedy, Fits;
    if k == |ws| {
      GreedyNothing(max);
      assert ws[k..] == [];
    } else {
      var g, rest := groups[0], groups[1..];
      var tail := Concat(rest);
      assert ws == g + tail;
      if k >= |g| {
        GreedyAhead(rest, tail, k - |g|, max);
        assert tail[k - |g|..] == ws[k..];
      } else {
        var end := FirstOfAll(ws, k, max);
        if end < |g| {
          LineWouldFit(g, ws, k, end + 1, max);
        }
        GreedyAhead(rest, tail, end - |g|, max);
        assert tail[end - |g|..] == ws[end..];
      }
    }
  }

  lemma GreedyNothing(max: nat)
    ensures Greedy([], [], max) == []
  {
  }

  /** Part of a line that fits, if it is more than one word, fits. */
  lemma LineWouldFit(g: seq<string>, ws: seq<string>, k: nat, end: nat, max: nat)
    requires g <= ws && Fits(g, max) && k + 1 < end <= |g|
    ensures |Joined(ws[k..end])| <= max
  {
    hide Joined;
    var line := ws[k..end];
    assert g == g[..k] + (line + g[end..]);
    JoinedGrows(line, g[end..]);
    JoinedGrows(g[..k], line + g[end..]);
  }

  /** The greedy layout keeps the words, fits, and uses the fewest lines that do. */
  lemma WrapOptimal(l: string, groups: seq<seq<string>>, max: nat)
    requires |l| > max && Layout(groups, Words(l), max)
    ensures Layout(Greedy([], Words(l), max), Words(l), max)
    ensures WrapLine(l, max) == JoinAll(Greedy([], Words(l), max)) && |WrapLine(l, max)| <= |groups|
  {
    GreedyIsLayout([], Words(l), max);
    assert [] + Words(l) == Words(l) && Words(l)[0..] == Words(l);
    GreedyAhead(groups, Words(l), 0, max);
  }

  lemma GreedyEnd(current: seq<string>, max: nat)
    ensures JoinAll(Greedy(current, [], max)) == if current == [] then [] else [Joined(current)]
  {
  }

  lemma JoinAllFirst(group: seq<string>, rest: seq<seq<string>>)
    ensures JoinAll([group] + rest) == [Joined(group)] + JoinAll(rest)
  {
  }

  /** The words of one line longer than `max`. */
  method WrapWords(l: string, max: nat) returns (lines: seq<string>)
    ensures lines == JoinAll(Greedy([], Words(l), max))
  {
    hide Run, Words, Joined, Greedy, JoinAll, NonEmpty;
    lines := [];
    var stream, currentLine := l, "";
    ghost var current: seq<string> := [];
    ghost var all := JoinAll(Greedy([], Words(l), max));
    JoinedOne("");
    NonEmptyNothing();
    assert [] + all == all;
    while true
      invariant currentLine == Joined(current) && NonEmpty(current)
      invariant all == lines + JoinAll(Greedy(current, Words(stream), max))
      decreases |stream|
    {
      WordsStep(stream);
      var skipped := stream[Run(stream, true)..];
      if skipped == "" {
        break;
      }
      var word := skipped[..Run(skipped, false)];
      ghost var rest, before := Words(skipped[Run(skipped, false)..]), lines;
      GreedyStep(current, word, rest, max);
      JoinedWords(current);
      JoinedOne(word);
      NonEmptySnoc(current, word);
      if |currentLine| + (if currentLine != "" then 1 else 0) + |word| > max {
        if currentLine != "" {
          JoinAllFirst(current, Greedy([word], rest, max));
          lines := lines + [currentLine];
          assert before + ([currentLine] + JoinAll(Greedy([word], rest, max))) ==
                 lines + JoinAll(Greedy([word], rest, max));
        } else {
          assert current + [word] == [word];
        }
        currentLine := word;
        current := [word];
      } else {
        if current != [] {
          JoinedSnoc(current, word);
        } else {
          assert current + [word] == [word];
        }
        currentLine := currentLine + (if currentLine != "" then " " else "") + word;
        current := current + [word];
      }
      stream := skipped[Run(skipped, false)..];
    }
    GreedyEnd(current, max);
    JoinedWords(current);
    if currentLine != "" {
      lines := lines + [currentLine];
    }
  }

  /** A line disappears exactly when it is too long and holds only spaces. */
  lemma VanishingLine(l: string, max: nat)
    ensures WrapLine(l, max) == [] <==> |l| > max && NonSpaces(l) == ""
  {
    hide Words, Greedy, NonSpaces, Joined;
    var ws := Words(l);
    WordsStep(l);
    WordsKeepLetters(l);
    if ws == [] {
      GreedyNothing(max);
    } else {
      GreedyIsLayout([], ws, max);
      assert [] + ws == ws && Letters(ws) == ws[0] + Letters(ws[1..]);
    }
  }

  lemma NonEmptyNothing()
    ensures NonEmpty([])
  {
  }

  lemma NonEmptySnoc(current: seq<string>, word: string)
    requires NonEmpty(current) && word != ""
    ensures NonEmpty(current + [word]) && NonEmpty([word])
  {
  }

  /** One line of input. */
  method AddLine(l: string, max: nat) returns (lines: seq<string>)
    ensures lines == WrapLine(l, max)
  {
    if |l| <= max {
      lines := [l];
    } else {
      lines := WrapWords(l, max);
    }
  }

  // ---------- lines of input ----------

  function LineEnd(s: string): (n: nat)
    ensures n <= |s| && (n < |s| ==> s[n] == '\n') && forall i | 0 <= i < n :: s[i] != '\n'
  {
    if s == "" || s[0] == '\n' then 0 else 1 + LineEnd(s[1..])
  }

  /** What repeated `getline` reads: nothing follows a final newline. */
  function Lines(s: string): seq<string>
    decreases |s|
  {
    if s == "" then []
    else if LineEnd(s) == |s| then [s]
    else [s[..LineEnd(s)]] + Lines(s[LineEnd(s) + 1..])
  }

  function Wrapper(max: nat): string -> seq<string> {
    l => WrapLine(l, max)
  }

  method BreakIntoLines(input: string, max: nat) returns (result: seq<string>)
    ensures result == FlatMap(Wrapper(max), Lines(input))
  {
    hide FlatMap, LineEnd, WrapLine, Wrapper;
    result := [];
    FlatMapNothing(Wrapper(max));
    var iss := input;
    while iss != ""
      invariant FlatMap(Wrapper(max), Lines(input)) == result + FlatMap(Wrapper(max), Lines(iss))
      decreases |iss|
    {
      var n := LineEnd(iss);
      var line := iss[..n];
      ghost var rest := if n == |iss| then "" else iss[n + 1..];
      LinesFirst(iss);
      FlatMapFirst(Wrapper(max), line, Lines(rest));
      var wrapped := AddLine(line, max);
      WrapperOf(max, line);
      ghost var before := result;
      result := result + wrapped;
      assert before + (wrapped + FlatMap(Wrapper(max), Lines(rest))) == result + FlatMap(Wrapper(max), Lines(rest));
      iss := if n == |iss| then "" else iss[n + 1..];
    }
  }

  lemma FlatMapNothing<A, B>(f: A -> seq<B>)
    ensures FlatMap(f, []) == []
  {
  }

  lemma WrapperOf(max: nat, line: string)
    ensures Wrapper(max)(line) == WrapLine(line, max)
  {
  }

  lemma LinesFirst(s: string)
    requires s != ""
    ensures var n := LineEnd(s); Lines(s) == [s[..n]] + Lines(if n == |s| then "" else s[n + 1..])
  {
    hide LineEnd;
    assert LineEnd(s) == |s| ==> s[..|s|] == s;
  }

  lemma FlatMapFirst<A, B>(f: A -> seq<B>, x: A, rest: seq<A>)
    ensures FlatMap(f, [x] + rest) == f(x) + FlatMap(f, rest)
  {
    assert ([x] + rest)[1..] == rest;
  }

  // ---------- lines that fit ----------

  /** Every line with a newline behind it. */
  function Terminated(ls: seq<string>): string {
    if ls == [] then "" else ls[0] + "\n" + Terminated(ls[1..])
  }

  lemma FirstLineEnd(l: string, rest: string)
    requires '\n' !in l
    ensures LineEnd(l + "\n" + rest) == |l|
    decreases |l|
  {
    if l != "" {
      assert (l + "\n" + rest)[1..] == l[1..] + "\n" + rest;
      FirstLineEnd(l[1..], rest);
    }
  }

  lemma {:induction false} LinesOfTerminated(ls: seq<string>)
    requires forall l | l in ls :: '\n' !in l
    ensures Lines(Terminated(ls)) == ls
    decreases |ls|
  {
    if ls != [] {
      var t := Terminated(ls);
      FirstLineEnd(ls[0], Terminated(ls[1..]));
      assert t[..|ls[0]|] == ls[0] && t[|ls[0]| + 1..] == Terminated(ls[1..]);
      LinesOfTerminated(ls[1..]);
      assert ls == [ls[0]] + ls[1..];
    }
  }

  /** Lines that fit come out as they are, blank ones and inner spaces included. */
  lemma {:induction false} FittingLines(ls: seq<string>, max: nat)
    requires forall l | l in ls :: '\n' !in l && |l| <= max
    ensures FlatMap(Wrapper(max), Lines(Terminated(ls))) == ls
    decreases |ls|
  {
    LinesOfTerminated(ls);
    if ls != [] {
      LinesOfTerminated(ls[1..]);
      FittingLines(ls[1..], max);
      assert ls[0] in ls && Wrapper(max)(ls[0]) == [ls[0]];
      assert ls == [ls[0]] + ls[1..];
    }
  }

  // ---------- which words, and on which line ----------

  /** Words with spaces before each of them and behind the last. */
  function Spaced(ws: seq<string>, gaps: seq<string>, last: string): string
    requires |gaps| == |ws|
    decreases |ws|
  {
    if ws == [] then last else gaps[0] + (ws[0] + Spaced(ws[1..], gaps[1..], last))
  }

  /** Words without spaces in them, and at least one space between two of them. */
  predicate GoodSpacing(ws: seq<string>, gaps: seq<string>, last: string) {
    && |gaps| == |ws| && AllSpaces(last)
    && (forall i | 0 <= i < |ws| :: ws[i] != "" && SpaceFree(ws[i]) && AllSpaces(gaps[i]))
    && (forall i | 0 < i < |gaps| :: gaps[i] != "")
  }

  lemma {:induction false} RunOf(a: string, b: string, spaces: bool)
    requires (forall i | 0 <= i < |a| :: IsSpace(a[i]) == spaces) && (b == "" || IsSpace(b[0]) != spaces)
    ensures Run(a + b, spaces) == |a|
    decreases |a|
  {
    if a == "" {
      assert a + b == b;
    } else {
      assert (a + b)[1..] == a[1..] + b;
      RunOf(a[1..], b, spaces);
    }
  }

  lemma FirstWord(gap: string, w: string, rest: string)
    requires AllSpaces(gap) && w != "" && SpaceFree(w) && (rest == "" || IsSpace(rest[0]))
    ensures Words(gap + (w + rest)) == [w] + Words(rest)
  {
    hide IsSpace, Words;
    var s := gap + (w + rest);
    RunOf(gap, w + rest, true);
    assert s[|gap|..] == w + rest;
    RunOf(w, rest, false);
    assert (w + rest)[..|w|] == w && (w + rest)[|w|..] == rest;
    WordsStep(s);
  }

  lemma NoWords(s: string)
    requires AllSpaces(s)
    ensures Words(s) == []
  {
    assert s + "" == s;
    RunOf(s, "", true);
  }

  /** The words of a line are what stands between its spaces. */
  lemma {:induction false} WordsSpaced(ws: seq<string>, gaps: seq<string>, last: string)
    requires GoodSpacing(ws, gaps, last)
    ensures Words(Spaced(ws, gaps, last)) == ws
    decreases |ws|
  {
    hide Words, IsSpace, SpaceFree, AllSpaces;
    if ws == [] {
      NoWords(last);
    } else {
      var rest := Spaced(ws[1..], gaps[1..], last);
      SpaceNext(ws, gaps, last);
      FirstWord(gaps[0], ws[0], rest);
      WordsSpaced(ws[1..], gaps[1..], last);
    }
  }

  lemma SpaceNext(ws: seq<string>, gaps: seq<string>, last: string)
    requires GoodSpacing(ws, gaps, last) && ws != []
    ensures var rest := Spaced(ws[1..], gaps[1..], last); rest == "" || IsSpace(rest[0])
  {
    hide IsSpace;
    if |ws| > 1 {
      assert gaps[1] != "" && AllSpaces(gaps[1]) && gaps[1..][0] == gaps[1];
    }
  }

  /** A line that the next one's first word no longer fits on. */
  predicate Full(groups: seq<seq<string>>, i: nat, max: nat)
    requires i + 1 < |groups|
  {
    groups[i + 1] != [] && |Joined(groups[i])| + 1 + |groups[i + 1][0]| > max
  }

  /** No line has room for the first word of the next. */
  lemma {:induction false} LinesFull(current: seq<string>, ws: seq<string>, max: nat, i: nat)
    requires i + 1 < |Greedy(current, ws, max)|
    ensures Full(Greedy(current, ws, max), i, max)
    decreases |ws|
  {
    hide Joined;
    if ws != [] {
      if current != [] && |Joined(current)| + 1 + |ws[0]| > max {
        StartsWith([ws[0]], ws[1..], max);
        if i > 0 {
          LinesFull([ws[0]], ws[1..], max, i - 1);
        }
      } else {
        LinesFull(current + [ws[0]], ws[1..], max, i);
      }
    }
  }

  lemma {:induction false} StartsWith(current: seq<string>, ws: seq<string>, max: nat)
    requires current != []
    ensures var g := Greedy(current, ws, max); g != [] && g[0] != [] && g[0][0] == current[0]
    decreases |ws|
  {
    hide Joined;
    if ws != [] && !(|Joined(current)| + 1 + |ws[0]| > max) {
      StartsWith(current + [ws[0]], ws[1..], max);
    }
  }

  /** Nothing before the first word, and one space before each of the others. */
  function SingleGaps(n: nat): (gaps: seq<string>)
    ensures |gaps| == n
  {
    seq(n, i => if i == 0 then "" else " ")
  }

  lemma {:induction false} SpacedEnd(ws: seq<string>, gaps: seq<string>, w: string, gap: string)
    requires |gaps| == |ws|
    ensures Spaced(ws + [w], gaps + [gap], "") == Spaced(ws, gaps, "") + (gap + w)
    decreases |ws|
  {
    if ws == [] {
      assert [w][1..] == [] && [gap][1..] == [];
      assert gap + (w + "") == "" + (gap + w);
    } else {
      assert (ws + [w])[1..] == ws[1..] + [w] && (gaps + [gap])[1..] == gaps[1..] + [gap];
      SpacedEnd(ws[1..], gaps[1..], w, gap);
    }
  }

  /** A printed line is its words with single spaces between them. */
  lemma {:induction false} JoinedSpaced(ws: seq<string>)
    ensures Joined(ws) == Spaced(ws, SingleGaps(|ws|), "")
    decreases |ws|
  {
    if ws != [] {
      var n := |ws| - 1;
      JoinedSpaced(ws[..n]);
      SpacedEnd(ws[..n], SingleGaps(n), ws[n], if n == 0 then "" else " ");
      assert ws == ws[..n] + [ws[n]] && SingleGaps(n + 1) == SingleGaps(n) + [if n == 0 then "" else " "];
      assert "" + ws[n] == ws[n] && Spaced(ws[..n], SingleGaps(n), "") + " " + ws[n] ==
             Spaced(ws[..n], SingleGaps(n), "") + (" " + ws[n]);
    }
  }

  /**
   * A line that is too long comes out as its words, in order, with single spaces between them: every line fits or
   * is a single word, and none has room for the first word of the next.
   */
  lemma LongLine(ws: seq<string>, gaps: seq<string>, last: string, max: nat) returns (groups: seq<seq<string>>)
    requires GoodSpacing(ws, gaps, last) && |Spaced(ws, gaps, last)| > max
    ensures Concat(groups) == ws && |WrapLine(Spaced(ws, gaps, last), max)| == |groups|
    ensures forall i | 0 <= i < |groups| ::
              var line := WrapLine(Spaced(ws, gaps, last), max)[i];
              && line == Spaced(groups[i], SingleGaps(|groups[i]|), "")
              && groups[i] != [] && (|groups[i]| == 1 || |line| <= max)
              && (i + 1 < |groups| ==> groups[i + 1] != [] && |line| + 1 + |groups[i + 1][0]| > max)
  {
    hide Greedy, Joined, Words, Spaced, GoodSpacing, Concat;
    groups := Greedy([], ws, max);
    WordsSpaced(ws, gaps, last);
    GreedyIsLayout([], ws, max);
    assert [] + ws == ws;
    forall i | 0 <= i < |groups|
      ensures Joined(groups[i]) == Spaced(groups[i], SingleGaps(|groups[i]|), "")
      ensures i + 1 < |groups| ==> Full(groups, i, max)
    {
      JoinedSpaced(groups[i]);
      if i + 1 < |groups| {
        LinesFull([], ws, max, i);
      }
    }
  }
}
