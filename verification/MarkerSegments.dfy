/** Splitting template output into markers and the text between them. */
module MarkerSegments {
  import opened Common

  datatype SegmentType = Text | Marker
  datatype Segment = Segment(kind: SegmentType, value: string)

  predicate IsOpener(c: char) {
    c == '<' || c == '['
  }

  predicate Closes(opener: char, c: char) {
    (opener == '<' && c == '>') || (opener == '[' && c == ']')
  }

  /** The first opener at or after `from`, or the length. */
  function NextOpener(s: string, from: nat): (k: nat)
    requires from <= |s|
    ensures from <= k <= |s| && (k < |s| ==> IsOpener(s[k]))
    ensures forall i | from <= i < k :: !IsOpener(s[i])
    decreases |s| - from
  {
    if from == |s| || IsOpener(s[from]) then from else NextOpener(s, from + 1)
  }

  /** The first character at or after `from` that closes `opener`, or the length. */
  function NextCloser(opener: char, s: string, from: nat): (k: nat)
    requires from <= |s|
    ensures from <= k <= |s| && (k < |s| ==> Closes(opener, s[k]))
    ensures forall i | from <= i < k :: !Closes(opener, s[i])
    decreases |s| - from
  {
    if from == |s| || Closes(opener, s[from]) then from else NextCloser(opener, s, from + 1)
  }

  /** The segments of a text. */
  function Segments(t: string): seq<Segment>
    decreases |t|
  {
    if t == "" then []
    else if IsOpener(t[0]) then
      var k := NextCloser(t[0], t, 1);
      if k == |t| then [Segment(Text, t)] else [Segment(Marker, t[..k + 1])] + Segments(t[k + 1..])
    else
      var k := NextOpener(t, 0);
      [Segment(Text, t[..k])] + Segments(t[k..])
  }

  lemma {:induction false} OpenerIs(s: string, from: nat, k: nat)
    requires from <= k <= |s| && (k < |s| ==> IsOpener(s[k])) && forall i | from <= i < k :: !IsOpener(s[i])
    ensures NextOpener(s, from) == k
    decreases k - from
  {
    if from < k {
      OpenerIs(s, from + 1, k);
    }
  }

  lemma {:induction false} CloserIs(opener: char, s: string, from: nat, k: nat)
    requires from <= k <= |s| && (k < |s| ==> Closes(opener, s[k])) && forall i | from <= i < k :: !Closes(opener, s[i])
    ensures NextCloser(opener, s, from) == k
    decreases k - from
  {
    if from < k {
      CloserIs(opener, s, from + 1, k);
    }
  }

  /** A text segment that ends where the next marker starts. */
  lemma SegmentsText(t: string, k: nat)
    requires 0 < k <= |t| && NextOpener(t, 0) == k
    ensures Segments(t) == [Segment(Text, t[..k])] + Segments(t[k..])
  {
  }

  lemma SegmentsMarker(t: string, k: nat)
    requires 0 < k < |t| && IsOpener(t[0]) && NextCloser(t[0], t, 1) == k
    ensures Segments(t) == [Segment(Marker, t[..k + 1])] + Segments(t[k + 1..])
  {
  }

  /** The text from `border` on has no marker before `cur`: cutting there is one step of `Segments`. */
  lemma CutText(text: string, border: nat, cur: nat)
    requires border < cur < |text| && IsOpener(text[cur]) && forall i | border <= i < cur :: !IsOpener(text[i])
    ensures Segments(text[border..]) == [Segment(Text, text[border..cur])] + Segments(text[cur..])
  {
    var t, k := text[border..], cur - border;
    OpenerIs(t, 0, k);
    SegmentsText(t, k);
    assert t[..k] == text[border..cur] && t[k..] == text[cur..];
  }

  lemma CutMarker(text: string, border: nat, cur: nat)
    requires border < cur < |text| && IsOpener(text[border]) && Closes(text[border], text[cur])
    requires forall i | border < i < cur :: !Closes(text[border], text[i])
    ensures Segments(text[border..]) == [Segment(Marker, text[border..cur + 1])] + Segments(text[cur + 1..])
  {
    var t, k := text[border..], cur - border;
    CloserIs(t[0], t, 1, k);
    SegmentsMarker(t, k);
    assert t[..k + 1] == text[border..cur + 1] && t[k + 1..] == text[cur + 1..];
  }

  /** What is left at the end is one text segment. */
  lemma CutLast(text: string, border: nat)
    requires border < |text|
    requires || (IsOpener(text[border]) && forall i | border < i < |text| :: !Closes(text[border], text[i]))
             || forall i | border <= i < |text| :: !IsOpener(text[i])
    ensures Segments(text[border..]) == [Segment(Text, text[border..])]
  {
    var t := text[border..];
    if IsOpener(t[0]) {
      CloserIs(t[0], t, 1, |t|);
    } else {
      OpenerIs(t, 0, |t|);
      SegmentsText(t, |t|);
      assert t[..|t|] == t && t[|t|..] == "";
    }
  }

  /** `done` and the segments of what follows `border` are all segments of the text. */
  ghost predicate Progress(text: string, done: seq<Segment>, border: nat) {
    border <= |text| && Segments(text) == done + Segments(text[border..])
  }

  /** No border lies between `border` and `cur`. */
  ghost predicate Scanned(text: string, border: nat, cur: nat, inMarker: bool) {
    && border <= cur <= |text|
    && (inMarker ==> && border < cur && IsOpener(text[border])
                     && forall i | border < i < cur :: !Closes(text[border], text[i]))
    && (!inMarker ==> forall i | border <= i < cur :: !IsOpener(text[i]))
  }

  lemma StartScan(text: string)
    ensures Progress(text, [], 0) && Scanned(text, 0, 0, false)
  {
    assert text[0..] == text;
    assert [] + Segments(text) == Segments(text);
  }

  lemma StepText(text: string, done: seq<Segment>, border: nat, cur: nat)
    requires Progress(text, done, border) && Scanned(text, border, cur, false)
    requires border < cur < |text| && IsOpener(text[cur])
    ensures Progress(text, done + [Segment(Text, text[border..cur])], cur)
  {
    CutText(text, border, cur);
    assert done + [Segment(Text, text[border..cur])] + Segments(text[cur..]) == done + Segments(text[border..]);
  }

  lemma StepMarker(text: string, done: seq<Segment>, border: nat, cur: nat)
    requires Progress(text, done, border) && Scanned(text, border, cur, true)
    requires cur < |text| && Closes(text[border], text[cur])
    ensures Progress(text, done + [Segment(Marker, text[border..cur + 1])], cur + 1)
  {
    CutMarker(text, border, cur);
    assert done + [Segment(Marker, text[border..cur + 1])] + Segments(text[cur + 1..]) ==
           done + Segments(text[border..]);
  }

  lemma EndScan(text: string, done: seq<Segment>, border: nat, inMarker: bool)
    requires Progress(text, done, border) && Scanned(text, border, |text|, inMarker)
    ensures Segments(text) == if border < |text| then done + [Segment(Text, text[border..])] else done
  {
    if border < |text| {
      CutLast(text, border);
    } else {
      assert text[border..] == "";
    }
  }

  method SegmentizeMarkers(text: string) returns (retval: seq<Segment>)
    ensures retval == Segments(text)
  {
    hide Segments;
    retval := [];
    var inMarker, markerOpener := false, '\0';
    var lastBorder := 0;
    StartScan(text);
    for curPos := 0 to |text|
      invariant Progress(text, retval, lastBorder)
      invariant Scanned(text, lastBorder, curPos, inMarker)
      invariant inMarker ==> markerOpener == text[lastBorder]
    {
      if !inMarker && IsOpener(text[curPos]) {
        if lastBorder < curPos {
          StepText(text, retval, lastBorder, curPos);
          retval := retval + [Segment(Text, text[lastBorder..curPos])];
        }
        lastBorder := curPos;
        inMarker := true;
        markerOpener := text[curPos];
      } else if inMarker && Closes(markerOpener, text[curPos]) {
        StepMarker(text, retval, lastBorder, curPos);
        retval := retval + [Segment(Marker, text[lastBorder..curPos + 1])];
        lastBorder := curPos + 1;
        inMarker := false;
        markerOpener := '\0';
      }
    }
    EndScan(text, retval, lastBorder, inMarker);
    if lastBorder < |text| {
      retval := retval + [Segment(Text, text[lastBorder..])];
    }
  }

  // ---------- the inverse ----------

  function Join(segs: seq<Segment>): string {
    if segs == [] then "" else segs[0].value + Join(segs[1..])
  }

  lemma {:induction false} JoinConcat(a: seq<Segment>, b: seq<Segment>)
    ensures Join(a + b) == Join(a) + Join(b)
  {
    if a == [] {
      assert a + b == b;
    } else {
      assert (a + b)[1..] == a[1..] + b;
      JoinConcat(a[1..], b);
    }
  }

  /** A marker runs from an opener to its first matching closer. */
  predicate IsMarkerText(v: string) {
    |v| >= 2 && IsOpener(v[0]) && NextCloser(v[0], v, 1) == |v| - 1
  }

  /** Text that starts like a marker but is never closed. */
  predicate IsUnclosed(v: string) {
    v != "" && IsOpener(v[0]) && NextCloser(v[0], v, 1) == |v|
  }

  predicate IsPlain(v: string) {
    v != "" && forall i | 0 <= i < |v| :: !IsOpener(v[i])
  }

  /** The lists that segmenting produces. */
  predicate Canonical(segs: seq<Segment>) {
    segs == [] ||
    match segs[0].kind
    case Marker => IsMarkerText(segs[0].value) && Canonical(segs[1..])
    case Text =>
      || (IsUnclosed(segs[0].value) && |segs| == 1)
      || (&& IsPlain(segs[0].value) && Canonical(segs[1..])
          && (|segs| > 1 ==> segs[1].kind == Marker || IsUnclosed(segs[1].value)))
  }

  lemma {:induction false} CanonicalNonEmpty(segs: seq<Segment>, i: nat)
    requires Canonical(segs) && i < |segs|
    ensures segs[i].value != ""
  {
    if i > 0 {
      CanonicalNonEmpty(segs[1..], i - 1);
    }
  }

  lemma JoinOne(s: Segment, rest: seq<Segment>)
    ensures Join([s] + rest) == s.value + Join(rest)
  {
    assert ([s] + rest)[1..] == rest;
  }

  /** What the first segment of a text looks like. */
  predicate FirstOk(t: string, segs: seq<Segment>) {
    t != "" ==> segs != [] && (IsOpener(t[0]) ==> segs[0].kind == Marker || IsUnclosed(segs[0].value))
  }

  lemma CanonicalMarker(v: string, rest: seq<Segment>)
    requires IsMarkerText(v) && Canonical(rest)
    ensures Canonical([Segment(Marker, v)] + rest)
  {
    assert ([Segment(Marker, v)] + rest)[1..] == rest;
  }

  lemma CanonicalText(v: string, rest: seq<Segment>)
    requires IsPlain(v) && Canonical(rest) && (rest != [] ==> rest[0].kind == Marker || IsUnclosed(rest[0].value))
    ensures Canonical([Segment(Text, v)] + rest)
  {
    assert ([Segment(Text, v)] + rest)[1..] == rest;
  }

  /** The claim of `SegmentsSound` for one text. */
  predicate Sound(t: string) {
    Join(Segments(t)) == t && Canonical(Segments(t)) && FirstOk(t, Segments(t))
  }

  lemma SoundUnclosed(t: string)
    requires t != "" && IsOpener(t[0]) && NextCloser(t[0], t, 1) == |t|
    ensures Sound(t)
  {
    hide IsMarkerText, NextCloser;
    assert Segments(t) == [Segment(Text, t)];
    JoinOne(Segment(Text, t), []);
    assert [Segment(Text, t)] + [] == [Segment(Text, t)];
  }

  lemma SoundMarker(t: string, k: nat)
    requires t != "" && IsOpener(t[0]) && k == NextCloser(t[0], t, 1) < |t| && Sound(t[k + 1..])
    ensures Sound(t)
  {
    hide NextCloser, NextOpener, IsMarkerText, Canonical, Join;
    CloserIn(t, k);
    CanonicalMarker(t[..k + 1], Segments(t[k + 1..]));
    JoinOne(Segment(Marker, t[..k + 1]), Segments(t[k + 1..]));
    assert t == t[..k + 1] + t[k + 1..];
  }

  lemma SoundText(t: string, k: nat)
    requires t != "" && !IsOpener(t[0]) && k == NextOpener(t, 0) && Sound(t[k..])
    ensures Sound(t)
  {
    hide NextCloser, Canonical, Join;
    assert t[k..] == "" ==> Segments(t[k..]) == [];
    CanonicalText(t[..k], Segments(t[k..]));
    JoinOne(Segment(Text, t[..k]), Segments(t[k..]));
    assert t == t[..k] + t[k..];
  }

  /** Segments join back to the text and are canonical. */
  lemma {:induction false} SegmentsSound(t: string)
    ensures Join(Segments(t)) == t && Canonical(Segments(t)) && FirstOk(t, Segments(t))
    decreases |t|
  {
    hide Canonical, IsOpener;
    if t == "" {
      NothingSound();
    } else if IsOpener(t[0]) {
      var k := NextCloser(t[0], t, 1);
      if k == |t| {
        SoundUnclosed(t);
      } else {
        SegmentsSound(t[k + 1..]);
        SoundMarker(t, k);
      }
    } else {
      var k := NextOpener(t, 0);
      OpenerLater(t);
      SegmentsSound(t[k..]);
      SoundText(t, k);
    }
  }

  lemma NothingSound()
    ensures Sound("")
  {
  }

  lemma OpenerLater(t: string)
    requires t != "" && !IsOpener(t[0])
    ensures NextOpener(t, 0) > 0
  {
  }

  /** The part up to the first closer is a marker. */
  lemma CloserIn(t: string, k: nat)
    requires t != "" && IsOpener(t[0]) && k == NextCloser(t[0], t, 1) < |t|
    ensures IsMarkerText(t[..k + 1])
  {
    CloserIs(t[0], t[..k + 1], 1, k);
  }

  lemma SegmentsOfMarker(v: string, rest: string)
    requires IsMarkerText(v)
    ensures Segments(v + rest) == [Segment(Marker, v)] + Segments(rest)
  {
    var t := v + rest;
    assert forall i | 0 <= i < |v| :: t[i] == v[i];
    CloserIs(t[0], t, 1, |v| - 1);
    SegmentsMarker(t, |v| - 1);
    assert t[..|v|] == v && t[|v|..] == rest;
  }

  lemma SegmentsOfText(v: string, rest: string)
    requires IsPlain(v) && (rest != "" ==> IsOpener(rest[0]))
    ensures Segments(v + rest) == [Segment(Text, v)] + Segments(rest)
  {
    var t := v + rest;
    assert forall i | 0 <= i < |v| :: t[i] == v[i];
    OpenerIs(t, 0, |v|);
    SegmentsText(t, |v|);
    assert t[..|v|] == v && t[|v|..] == rest;
  }

  lemma SegmentsOfUnclosed(v: string)
    requires IsUnclosed(v)
    ensures Segments(v) == [Segment(Text, v)]
  {
  }

  /** A canonical list is recovered from its text. */
  lemma {:induction false} SegmentsComplete(segs: seq<Segment>)
    requires Canonical(segs)
    ensures Segments(Join(segs)) == segs
  {
    if segs != [] {
      var s, rest := segs[0], segs[1..];
      assert segs == [s] + rest;
      JoinOne(s, rest);
      if s.kind == Marker {
        SegmentsComplete(rest);
        SegmentsOfMarker(s.value, Join(rest));
      } else if IsUnclosed(s.value) && rest == [] {
        assert s.value + Join(rest) == s.value;
        SegmentsOfUnclosed(s.value);
      } else {
        SegmentsComplete(rest);
        if rest != [] {
          OpenerFirst(rest);
        }
        SegmentsOfText(s.value, Join(rest));
      }
    }
  }

  lemma OpenerFirst(segs: seq<Segment>)
    requires Canonical(segs) && segs != [] && (segs[0].kind == Marker || IsUnclosed(segs[0].value))
    ensures Join(segs) != "" && IsOpener(Join(segs)[0])
  {
    assert Join(segs)[0] == segs[0].value[0];
  }

  // ---------- in the caller's own characters ----------

  /** Angle brackets and square brackets make markers, each up to its first own closing bracket. */
  lemma BracketsAreMarkers(w: string, rest: string)
    ensures '>' !in w ==> Segments("<" + w + ">" + rest) == [Segment(Marker, "<" + w + ">")] + Segments(rest)
    ensures ']' !in w ==> Segments("[" + w + "]" + rest) == [Segment(Marker, "[" + w + "]")] + Segments(rest)
  {
    if '>' !in w {
      BracketMarker('<', w, '>', rest);
    }
    if ']' !in w {
      BracketMarker('[', w, ']', rest);
    }
  }

  lemma BracketMarker(open: char, w: string, close: char, rest: string)
    requires IsOpener(open) && Closes(open, close) && close !in w
    ensures Segments([open] + w + [close] + rest) == [Segment(Marker, [open] + w + [close])] + Segments(rest)
  {
    var t, k := [open] + w + [close] + rest, |w| + 1;
    forall i | 1 <= i < k
      ensures !Closes(t[0], t[i])
    {
      assert t[i] == w[i - 1];
    }
    assert t[k] == close;
    CloserIs(open, t, 1, k);
    SegmentsMarker(t, k);
    assert t[..k + 1] == [open] + w + [close] && t[k + 1..] == rest;
  }

  /** Other text is one segment up to the next opening bracket. */
  lemma TextIsText(w: string, rest: string)
    requires w != "" && '<' !in w && '[' !in w && (rest == "" || rest[0] == '<' || rest[0] == '[')
    ensures Segments(w + rest) == [Segment(Text, w)] + Segments(rest)
  {
    var t, k := w + rest, |w|;
    assert forall i | 0 <= i < k :: t[i] == w[i];
    OpenerIs(t, 0, k);
    SegmentsText(t, k);
    assert t[..k] == w && t[k..] == rest;
  }

  /** An opening bracket that is never closed starts the last segment, which is text. */
  lemma UnclosedIsText(w: string)
    ensures '>' !in w ==> Segments("<" + w) == [Segment(Text, "<" + w)]
    ensures ']' !in w ==> Segments("[" + w) == [Segment(Text, "[" + w)]
  {
    if '>' !in w {
      UnclosedBracket('<', w);
    }
    if ']' !in w {
      UnclosedBracket('[', w);
    }
  }

  lemma UnclosedBracket(open: char, w: string)
    requires IsOpener(open) && forall c | c in w :: !Closes(open, c)
    ensures Segments([open] + w) == [Segment(Text, [open] + w)]
  {
    var t := [open] + w;
    forall i | 0 < i < |t|
      ensures !Closes(t[0], t[i])
    {
      assert t[i] == w[i - 1];
    }
    CutLast(t, 0);
    assert t[0..] == t;
  }
}
