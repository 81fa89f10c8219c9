/** The arrow-colour classifier of the first IPC GUI (visual_gui.py,
    `run_ipc_process.task`), and how it relates to the step-4 one. */
module VisualGui {
  import opened Text
  import VisualGuiStep4
  import PipeSimulation

  /** The colour of one output line: lowered, then "bottleneck" before
      "race" / "overwritten". */
  function Classify(line: string): Colour
  {
    var l := Lower(line);
    if Contains(l, "bottleneck") then Yellow
    else if Contains(l, "race") || Contains(l, "overwritten") then Red
    else Green
  }

  /** Exactly one colour per line, decided by the markers in order. */
  lemma ClassifyByMarkers(line: string)
    ensures Classify(line) == Yellow <==> Contains(Lower(line), "bottleneck")
    ensures Classify(line) == Red <==>
      !Contains(Lower(line), "bottleneck") && (Contains(Lower(line), "race") || Contains(Lower(line), "overwritten"))
    ensures Classify(line) == Green <==>
      !Contains(Lower(line), "bottleneck") && !Contains(Lower(line), "race") && !Contains(Lower(line), "overwritten")
  {
  }

  /** Case does not matter. */
  lemma {:induction false} ClassifyIgnoresCase(a: string, b: string)
    requires Lower(a) == Lower(b)
    ensures Classify(a) == Classify(b) == Classify(Lower(a))
  {
    LowerIdempotent(a);
  }

  /** The pipe receiver's bottleneck line is yellow here too, with or
      without its newline. */
  lemma BottleneckLinesAreYellow(msg: string, latency: real, latencyText: string)
    ensures Classify(PipeSimulation.Render(PipeSimulation.Bottleneck(msg, latency), latencyText)) == Yellow
    ensures Classify(PipeSimulation.Render(PipeSimulation.Bottleneck(msg, latency), latencyText) + "\n") == Yellow
  {
    var line := PipeSimulation.Render(PipeSimulation.Bottleneck(msg, latency), latencyText);
    VisualGuiStep4.BottleneckLineMarked(msg, latency, latencyText, "");
    assert line + "" == line;
    VisualGuiStep4.BottleneckLineMarked(msg, latency, latencyText, "\n");
  }

  /** The two classifiers agree on yellow, and they give different colours
      exactly on lines without "bottleneck" and "race" where "overwritten"
      is present but neither step-4 marker is, or the other way round. */
  lemma ComparedWithStep4(line: string)
    ensures Classify(line) == Yellow <==> VisualGuiStep4.Classify(line) == Yellow
    ensures Classify(line) != VisualGuiStep4.Classify(line) <==>
      var l := Lower(line);
      !Contains(l, "bottleneck") && !Contains(l, "race") &&
      (Contains(l, "overwritten") != (Contains(l, "overwrite") || Contains(l, "no lock")))
  {
  }

  /** A red line here need not be red for the step-4 classifier:
      "overwritten" does not contain "overwrite" (the letters part at "tt"),
      so `Value overwritten`, in any letter case, is red here and green
      there. */
  lemma OverwrittenIsNotAnOverwrite(line: string)
    requires Lower(line) == "value overwritten"
    ensures Classify(line) == Red
    ensures VisualGuiStep4.Classify(line) == Green
  {
    OverwrittenLineHasOverwritten();
    OverwrittenLineLacksOverwrite();
    OverwrittenLineLacksOtherMarkers();
  }

  lemma OverwrittenLineLacksOtherMarkers()
    ensures !Contains("value overwritten", "bottleneck")
    ensures !Contains("value overwritten", "race")
    ensures !Contains("value overwritten", "no lock")
  {
    LacksOtherMarkers("value overwritten");
  }

  /** A line without the letters b, c and k has none of the other markers. */
  lemma LacksOtherMarkers(l: string)
    requires 'b' !in l && 'c' !in l && 'k' !in l
    ensures !Contains(l, "bottleneck") && !Contains(l, "race") && !Contains(l, "no lock")
  {
    CharAbsent(l, "bottleneck", 0);
    CharAbsent(l, "race", 2);
    CharAbsent(l, "no lock", 6);
  }

  lemma OverwrittenLineHasOverwritten()
    ensures Contains("value overwritten", "overwritten")
  {
    var l := "value overwritten";
    assert l[6..] == "overwritten";
    assert OccursAt(l, "overwritten", 6);
    ContainsIffOccurs(l, "overwritten");
  }

  lemma OverwrittenLineLacksOverwrite()
    ensures !Contains("value overwritten", "overwrite")
  {
    var l := "value overwritten";
    var w := l[6..];
    assert w[..9] != "overwrite" by { assert w[8] == 't'; }
    assert w[1..] == "verwritten";
    CharAbsent(w[1..], "overwrite", 0);
    assert !Contains(w, "overwrite");
    assert l[..6] == "value ";
    assert l == l[..6] + w;
    SkipPrefixWithoutHead(l[..6], w, "overwrite");
  }
}
