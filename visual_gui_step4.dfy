/** The arrow-colour classifier that the step-4 IPC GUI applies to every line
    the demo process prints (visual_gui_step4.py, `run_ipc_process.task`). */
module VisualGuiStep4 {
  import opened Text
  import PipeSimulation

  /** The colour of one output line: the line is lowered first, then the
      markers are tested in a fixed order, "bottleneck" before the race
      markers. */
  function Classify(line: string): Colour
  {
    var l := Lower(line);
    if Contains(l, "bottleneck") then Yellow
    else if HasRaceMarker(l) then Red
    else Green
  }

  /** The race markers this classifier looks for, on a lowered line. */
  predicate HasRaceMarker(l: string)
  {
    Contains(l, "race") || Contains(l, "overwrite") || Contains(l, "no lock")
  }

  /** Every line gets exactly one colour, and which one is decided by the
      markers: yellow iff "bottleneck" occurs, red iff it does not and a race
      marker does, green otherwise. */
  lemma ClassifyByMarkers(line: string)
    ensures Classify(line) == Yellow <==> Contains(Lower(line), "bottleneck")
    ensures Classify(line) == Red <==> !Contains(Lower(line), "bottleneck") && HasRaceMarker(Lower(line))
    ensures Classify(line) == Green <==> !Contains(Lower(line), "bottleneck") && !HasRaceMarker(Lower(line))
  {
  }

  /** Case does not matter: a line and its lowered form get the same colour,
      and so do any two lines that agree once lowered. */
  lemma {:induction false} ClassifyIgnoresCase(a: string, b: string)
    requires Lower(a) == Lower(b)
    ensures Classify(a) == Classify(b) == Classify(Lower(a))
  {
    LowerIdempotent(a);
  }

  /** The receiver's bottleneck line is yellow, whatever the message and the
      latency, with or without the newline that `process.stdout` keeps: it
      carries "Bottleneck", which lowers to the first marker. */
  lemma BottleneckLinesAreYellow(msg: string, latency: real, latencyText: string)
    ensures Classify(PipeSimulation.Render(PipeSimulation.Bottleneck(msg, latency), latencyText)) == Yellow
    ensures Classify(PipeSimulation.Render(PipeSimulation.Bottleneck(msg, latency), latencyText) + "\n") == Yellow
  {
    var line := PipeSimulation.Render(PipeSimulation.Bottleneck(msg, latency), latencyText);
    BottleneckLineMarked(msg, latency, latencyText, "");
    assert line + "" == line;
    BottleneckLineMarked(msg, latency, latencyText, "\n");
  }

  /** The lowered bottleneck line, followed by anything, contains
      "bottleneck". */
  lemma BottleneckLineMarked(msg: string, latency: real, latencyText: string, tail: string)
    ensures Contains(Lower(PipeSimulation.Render(PipeSimulation.Bottleneck(msg, latency), latencyText) + tail), "bottleneck")
  {
    var head := "\U{26A0}\U{FE0F} [Receiver] ";
    var rest := " detected! latency=" + latencyText + "s for message '" + msg + "'" + tail;
    var line := PipeSimulation.Render(PipeSimulation.Bottleneck(msg, latency), latencyText) + tail;
    assert line == head + "Bottleneck" + rest;
    LowerAppend(head, "Bottleneck");
    LowerAppend(head + "Bottleneck", rest);
    assert Lower("Bottleneck") == "bottleneck";
    ContainsMiddle(Lower(head), "bottleneck", Lower(rest));
  }

  /** `d` is how Python prints an `int`: digits and a minus sign. */
  predicate IsDecimal(d: string)
  {
    forall i :: 0 <= i < |d| ==> '0' <= d[i] <= '9' || d[i] == '-'
  }

  /** Every line the no-lock shared-memory reader prints,
      `[Reader-NoLock] read <value>`, is green, with or without the newline
      that `process.stdout` keeps: once lowered it reads "nolock", which
      does not contain the marker "no lock", and the value adds only
      digits. */
  lemma ReaderNoLockLinesAreGreen(d: string)
    requires IsDecimal(d)
    ensures Classify("[Reader-NoLock] read " + d) == Green
    ensures Classify("[Reader-NoLock] read " + d + "\n") == Green
  {
    assert Lower(d) == d;
    ReaderLineGreen(d);
    LowerAppend(d, "\n");
    assert Lower("\n") == "\n";
    assert "[Reader-NoLock] read " + d + "\n" == "[Reader-NoLock] read " + (d + "\n");
    ReaderLineGreen(d + "\n");
  }

  /** The reader's prefix followed by a tail that lowering leaves alone
      and that has none of the markers' first letters is green. */
  lemma ReaderLineGreen(e: string)
    requires Lower(e) == e
    requires 'b' !in e && 'w' !in e && 'r' !in e && 'n' !in e
    ensures Classify("[Reader-NoLock] read " + e) == Green
  {
    ReaderLineLowered(e);
    ReaderLineUnmarked(e);
  }

  /** Lowering the reader's line only touches its fixed prefix. */
  lemma ReaderLineLowered(e: string)
    requires Lower(e) == e
    ensures Lower("[Reader-NoLock] read " + e) == ReaderPrefix + e
  {
    LowerAppend("[Reader-NoLock] read ", e);
    assert Lower("[Reader-NoLock] read ") == ReaderPrefix;
  }

  /** The lowered reader line carries none of the markers. */
  lemma ReaderLineUnmarked(d: string)
    requires 'b' !in d && 'w' !in d && 'r' !in d && 'n' !in d
    ensures var l := ReaderPrefix + d;
      !Contains(l, "bottleneck") && !Contains(l, "overwrite") && !Contains(l, "race") && !Contains(l, "no lock")
  {
    var l := ReaderPrefix + d;
    HeadAbsent(l, "bottleneck");
    CharAbsent(l, "overwrite", 4);
    ReaderLineHasNoRace(d);
    ReaderLineHasNoLockGap(d);
  }

  /** The reader's lowered prefix. */
  const ReaderPrefix: string := "[reader-nolock] read "

  /** Where the reader's prefix holds the first letters of the markers. */
  lemma ReaderPrefixLetters()
    ensures |ReaderPrefix| == 21
    ensures forall k :: 0 <= k < 21 && k != 1 && k != 6 && k != 16 ==> ReaderPrefix[k] != 'r'
    ensures ReaderPrefix[2] == 'e' && ReaderPrefix[7] == '-' && ReaderPrefix[17] == 'e'
    ensures forall k :: 0 <= k < 21 && k != 8 ==> ReaderPrefix[k] != 'n'
    ensures ReaderPrefix[10] == 'l'
  {
  }

  /** "race" starts with 'r', which the prefix holds at 1, 6 and 16, each
      time followed by something other than 'a'. */
  lemma ReaderLineHasNoRace(d: string)
    requires 'r' !in d
    ensures !Contains(ReaderPrefix + d, "race")
  {
    var p := ReaderPrefix;
    ReaderPrefixLetters();
    assert p[0..] == p;
    assert p[21..] + d == d;
    SkipChars(p, d, 0, 1, "race");
    Mismatch(p, d, 1, 1, "race");
    SkipChars(p, d, 2, 6, "race");
    Mismatch(p, d, 6, 1, "race");
    SkipChars(p, d, 7, 16, "race");
    Mismatch(p, d, 16, 1, "race");
    SkipChars(p, d, 17, 21, "race");
    HeadAbsent(d, "race");
  }

  /** "no lock" starts with 'n', which the prefix holds only at 8, where
      "nol" follows instead of "no ". */
  lemma ReaderLineHasNoLockGap(d: string)
    requires 'n' !in d
    ensures !Contains(ReaderPrefix + d, "no lock")
  {
    var p := ReaderPrefix;
    ReaderPrefixLetters();
    assert p[0..] == p;
    assert p[21..] + d == d;
    SkipChars(p, d, 0, 8, "no lock");
    Mismatch(p, d, 8, 2, "no lock");
    SkipChars(p, d, 9, 21, "no lock");
    HeadAbsent(d, "no lock");
  }

  /** Every line the no-lock shared-memory writer prints,
      `[Writer-NoLock] wrote <value>`, is green as well, with or without the
      newline: neither no-lock worker's output carries a red marker. */
  lemma WriterNoLockLinesAreGreen(d: string)
    requires IsDecimal(d)
    ensures Classify("[Writer-NoLock] wrote " + d) == Green
    ensures Classify("[Writer-NoLock] wrote " + d + "\n") == Green
  {
    assert Lower(d) == d;
    WriterLineGreen(d);
    LowerAppend(d, "\n");
    assert Lower("\n") == "\n";
    assert "[Writer-NoLock] wrote " + d + "\n" == "[Writer-NoLock] wrote " + (d + "\n");
    WriterLineGreen(d + "\n");
  }

  /** The writer's prefix followed by a tail that lowering leaves alone
      and that has none of the letters b, v, r and n is green. */
  lemma WriterLineGreen(e: string)
    requires Lower(e) == e
    requires 'b' !in e && 'v' !in e && 'r' !in e && 'n' !in e
    ensures Classify("[Writer-NoLock] wrote " + e) == Green
  {
    LowerAppend("[Writer-NoLock] wrote ", e);
    assert Lower("[Writer-NoLock] wrote ") == WriterPrefix;
    WriterLineUnmarked(e);
  }

  /** The writer's lowered prefix. */
  const WriterPrefix: string := "[writer-nolock] wrote "

  /** Where the writer's prefix holds the first letters of the markers. */
  lemma WriterPrefixLetters()
    ensures |WriterPrefix| == 22
    ensures forall k :: 0 <= k < 22 && k != 2 && k != 6 && k != 17 ==> WriterPrefix[k] != 'r'
    ensures WriterPrefix[3] == 'i' && WriterPrefix[7] == '-' && WriterPrefix[18] == 'o'
    ensures forall k :: 0 <= k < 22 && k != 8 ==> WriterPrefix[k] != 'n'
    ensures WriterPrefix[10] == 'l'
    ensures 'b' !in WriterPrefix && 'v' !in WriterPrefix
  {
  }

  /** The lowered writer line carries none of the markers: it has no 'b'
      and no 'v' (the second letter of "overwrite"), and its 'r's and its
      'n' are followed by the wrong letters. */
  lemma WriterLineUnmarked(e: string)
    requires 'b' !in e && 'v' !in e && 'r' !in e && 'n' !in e
    ensures var l := WriterPrefix + e;
      !Contains(l, "bottleneck") && !Contains(l, "overwrite") && !Contains(l, "race") && !Contains(l, "no lock")
  {
    var l := WriterPrefix + e;
    WriterPrefixLetters();
    HeadAbsent(l, "bottleneck");
    CharAbsent(l, "overwrite", 1);
    WriterLineHasNoRace(e);
    WriterLineHasNoLockGap(e);
  }

  /** "race" starts with 'r', which the prefix holds at 2, 6 and 17, each
      time followed by something other than 'a'. */
  lemma WriterLineHasNoRace(e: string)
    requires 'r' !in e
    ensures !Contains(WriterPrefix + e, "race")
  {
    var p := WriterPrefix;
    WriterPrefixLetters();
    assert p[0..] == p;
    assert p[22..] + e == e;
    SkipChars(p, e, 0, 2, "race");
    Mismatch(p, e, 2, 1, "race");
    SkipChars(p, e, 3, 6, "race");
    Mismatch(p, e, 6, 1, "race");
    WriterLineTailHasNoRace(e);
  }

  /** From position 7 on, the writer's line has its last 'r' at 17. */
  lemma WriterLineTailHasNoRace(e: string)
    requires 'r' !in e
    ensures !Contains(WriterPrefix[7..] + e, "race")
  {
    var p := WriterPrefix;
    WriterPrefixLetters();
    assert p[22..] + e == e;
    SkipChars(p, e, 7, 17, "race");
    Mismatch(p, e, 17, 1, "race");
    SkipChars(p, e, 18, 22, "race");
    HeadAbsent(e, "race");
  }

  /** "no lock" starts with 'n', which the prefix holds only at 8, where
      "nol" follows instead of "no ". */
  lemma WriterLineHasNoLockGap(e: string)
    requires 'n' !in e
    ensures !Contains(WriterPrefix + e, "no lock")
  {
    var p := WriterPrefix;
    WriterPrefixLetters();
    assert p[0..] == p;
    assert p[22..] + e == e;
    SkipChars(p, e, 0, 8, "no lock");
    Mismatch(p, e, 8, 2, "no lock");
    SkipChars(p, e, 9, 22, "no lock");
    HeadAbsent(e, "no lock");
  }
}
