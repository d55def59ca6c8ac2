/** The annotation state of one euclid.py window (class Euclid): the boxes and labels of
    the current image, the click counter shared by the rectangle and the quadrilateral
    tools, and the format selector. Canvas items are left out; `preview` stands for
    whether bboxId refers to a drawn item. */
module Session {
  import opened Wrappers
  import opened QuadOrder
  import opened LabelCodec

  /** Boxes of four coordinates (rectangles, KITTI and YOLO lines) or eight
      (quadrilaterals, BUSLABEL lines). */
  predicate WellShaped(boxes: seq<seq<int>>)
  {
    forall i :: 0 <= i < |boxes| ==> |boxes[i]| == 4 || |boxes[i]| == 8
  }

  lemma WellShapedAppend(boxes: seq<seq<int>>, b: seq<int>)
    requires WellShaped(boxes) && (|b| == 4 || |b| == 8)
    ensures WellShaped(boxes + [b])
  {
  }

  lemma WellShapedRemove(boxes: seq<seq<int>>, k: nat)
    requires WellShaped(boxes) && k < |boxes|
    ensures WellShaped(boxes[..k] + boxes[k + 1..])
  {
    assert forall i :: 0 <= i < |boxes| - 1 ==>
             (boxes[..k] + boxes[k + 1..])[i] == if i < k then boxes[i] else boxes[i + 1];
  }

  /** The rectangle from the pending corner and the second click. */
  function RectBox(x0: int, y0: int, x1: int, y1: int): (box: seq<int>)
    ensures |box| == 4 && box[0] <= box[2] && box[1] <= box[3]
    ensures multiset{box[0], box[2]} == multiset{x0, x1} && multiset{box[1], box[3]} == multiset{y0, y1}
  {
    [if x0 <= x1 then x0 else x1, if y0 <= y1 then y0 else y1,
     if x0 <= x1 then x1 else x0, if y0 <= y1 then y1 else y0]
  }

  /** Every field of the session at once, to say what a method changes. */
  datatype State = State(
    bboxList: seq<seq<int>>, classLabelList: seq<Label>,
    click: int, pendingX: int, pendingY: int, blPoints: Option<seq<Point>>,
    currClassLabel: int, radio: int, labelMode: Format,
    imageLoaded: bool, width: int, height: int, preview: bool)

  /** A quadrilateral click at (x, y) taking the session from `before` to `after`. */
  ghost predicate QuadStep(before: State, x: int, y: int, after: State)
  {
    var start := if before.blPoints.None? then 0 else before.click;
    var pts := (if start == 0 then [] else before.blPoints.value) + [Point(x, y)];
    if start < 3 then
      // the first three points are only collected
      after == before.(click := start + 1, blPoints := Some(pts))
    else
      // the fourth: the scan chooses the left pair as LeftSelection says, and what
      // follows is Committed for that pair
      var e, g := Ext(pts), Scan(Ext(pts), |pts| + 2);
      LeftSelection(e, |pts| + 2, g.0, g.1) && FourthPoint(before, pts, Committed(pts, e[g.0], e[g.1]), after)
  }

  /** The fourth point, with c the box and click list ordering leaves. */
  ghost predicate FourthPoint(before: State, pts: seq<Point>, c: (Option<seq<int>>, seq<Point>), after: State)
  {
    match c.0
    case Some(box) =>
      // the ordered quadrilateral is committed with the current class; the counter wraps to 0
      QuadOf(box, pts, c.1) &&
      after == before.(bboxList := before.bboxList + [box],
                       classLabelList := before.classLabelList + [ClassIndex(before.currClassLabel)],
                       blPoints := Some(c.1), click := 0, preview := true)
    case None =>
      // ordering raised: nothing is committed and the counter stays at 3
      after == before.(blPoints := Some(c.1))
  }

  /** When ordering yields a box, FourthPoint is the commit of that box. */
  lemma FourthCommits(before: State, pts: seq<Point>, box: seq<int>, rest: seq<Point>)
    requires QuadOf(box, pts, rest)
    ensures FourthPoint(before, pts, (Some(box), rest),
                        before.(bboxList := before.bboxList + [box],
                                classLabelList := before.classLabelList + [ClassIndex(before.currClassLabel)],
                                blPoints := Some(rest), click := 0, preview := true))
  {
  }

  /** The first three points of a quadrilateral only collect the point. */
  lemma QuadCollects(before: State, x: int, y: int, after: State)
    requires var start := if before.blPoints.None? then 0 else before.click;
             start < 3 &&
             after == before.(click := start + 1,
                              blPoints := Some((if start == 0 then [] else before.blPoints.value) + [Point(x, y)]))
    ensures QuadStep(before, x, y, after)
  {
  }

  /** The fourth point, handled as FourthPoint says for the pair the scan chose. */
  lemma QuadFinishes(before: State, x: int, y: int, pts: seq<Point>, g1: nat, g2: nat, after: State)
    requires before.blPoints.Some? && before.click == 3 && pts == before.blPoints.value + [Point(x, y)]
    requires LeftSelection(Ext(pts), |pts| + 2, g1, g2) && (g1, g2) == Scan(Ext(pts), |pts| + 2)
    requires FourthPoint(before, pts, Committed(pts, Ext(pts)[g1], Ext(pts)[g2]), after)
    ensures QuadStep(before, x, y, after)
  {
  }

  /** A rectangle click at (x, y) taking the session from `before` to `after`. */
  ghost predicate RectStep(before: State, x: int, y: int, after: State)
  {
    if before.click == 0 then
      // the first corner is only remembered
      after == before.(pendingX := x, pendingY := y, click := 1)
    else
      // the second commits the rectangle with the current class
      after == before.(
        bboxList := before.bboxList + [RectBox(before.pendingX, before.pendingY, x, y)],
        classLabelList := before.classLabelList + [ClassIndex(before.currClassLabel)],
        preview := false,
        click := (before.click + 1) % 2)
  }

  function BoxesOf(rs: seq<Record>): (boxes: seq<seq<int>>)
    ensures |boxes| == |rs| && forall i :: 0 <= i < |rs| ==> boxes[i] == rs[i].box
  {
    seq(|rs|, i requires 0 <= i < |rs| => rs[i].box)
  }

  function LabelsOf(rs: seq<Record>): (labels: seq<Label>)
    ensures |labels| == |rs| && forall i :: 0 <= i < |rs| ==> labels[i] == rs[i].classLabel
  {
    seq(|rs|, i requires 0 <= i < |rs| => rs[i].classLabel)
  }

  /** currLabelMode after reading `lines`: each line sets it before it is parsed, so it
      is the mode of the line that raised, or else of the last line. */
  function ModeAfterLoad<T>(mode: Format, lines: seq<seq<T>>, p: Loaded): Format
    requires p.error.Some? ==> |p.records| < |lines|
  {
    if p.error.Some? then Detect(|lines[|p.records|]|)
    else if |lines| == 0 then mode
    else Detect(|lines[|lines| - 1]|)
  }

  /** Parse line i of a load that got that far: it gives record i, of four or eight
      coordinates, or ends the load with its exception. */
  method ReadLine<T>(r: Reader<T>, lines: seq<seq<T>>, w: int, h: int, i: nat)
    returns (parsed: Result<Record, ParseError>)
    requires i < |lines| && i <= |ParseAll(r, lines, w, h).records|
    ensures var p := ParseAll(r, lines, w, h);
            (parsed.Ok? ==> i < |p.records| && p.records[i] == parsed.value &&
                            (|parsed.value.box| == 4 || |parsed.value.box| == 8)) &&
            (parsed.Err? ==> i == |p.records| && p.error == Some(parsed.error))
  {
    parsed := ParseLine(r, lines[i], w, h);
    ReadAt(r, lines, w, h, i);
  }

  /** Line i of a load that got that far either gives record i or ends the load with its
      exception. */
  lemma ReadAt<T>(r: Reader<T>, lines: seq<seq<T>>, w: int, h: int, i: nat)
    requires i < |lines| && i <= |ParseAll(r, lines, w, h).records|
    ensures var p := ParseAll(r, lines, w, h);
            var q := ParseLine(r, lines[i], w, h);
            (q.Ok? ==> i < |p.records| && p.records[i] == q.value) &&
            (q.Err? ==> i == |p.records| && p.error == Some(q.error))
  {
    ParseAllReads(r, lines, w, h);
  }

  lemma OfAppend(rs: seq<Record>, rec: Record)
    ensures BoxesOf(rs + [rec]) == BoxesOf(rs) + [rec.box]
    ensures LabelsOf(rs + [rec]) == LabelsOf(rs) + [rec.classLabel]
  {
  }

  lemma ModeOnError<T>(mode: Format, lines: seq<seq<T>>, p: Loaded)
    requires p.error.Some? && |p.records| < |lines|
    ensures ModeAfterLoad(mode, lines, p) == Detect(|lines[|p.records|]|)
  {
  }

  lemma ModeAtEnd<T>(mode: Format, lines: seq<seq<T>>, p: Loaded)
    requires p.error.None?
    ensures ModeAfterLoad(mode, lines, p) == if |lines| == 0 then mode else Detect(|lines[|lines| - 1]|)
  {
  }

  /** The radio value after reading: set by each line that was read completely. */
  function RadioAfterLoad(radio: int, rs: seq<Record>): int
  {
    if |rs| == 0 then radio else RadioOnLoad(rs[|rs| - 1].format)
  }

  /** The reading loop of loadImageAndLabels over the lines of a label file: each line
      sets the mode from its length and is parsed; a parsed line appends its box and label
      and sets the radio; the first line that raises ends the loop with its exception. */
  method ReadLabels<T>(r: Reader<T>, lines: seq<seq<T>>, w: int, h: int, mode0: Format, radio0: int)
    returns (boxes: seq<seq<int>>, labels: seq<Label>, mode: Format, rad: int, error: Option<ParseError>)
    requires 0 <= radio0 <= 2
    ensures var p := ParseAll(r, lines, w, h);
            error == p.error && boxes == BoxesOf(p.records) && labels == LabelsOf(p.records) &&
            mode == ModeAfterLoad(mode0, lines, p) && rad == RadioAfterLoad(radio0, p.records)
    ensures WellShaped(boxes) && |boxes| == |labels| && 0 <= rad <= 2
  {
    boxes, labels, mode, rad, error := [], [], mode0, radio0, None;
    ghost var p := ParseAll(r, lines, w, h);
    var i := 0;
    while i < |lines|
      invariant 0 <= i <= |p.records|
      invariant boxes == BoxesOf(p.records[..i]) && labels == LabelsOf(p.records[..i]) && WellShaped(boxes)
      invariant mode == if i == 0 then mode0 else Detect(|lines[i - 1]|)
      invariant rad == RadioAfterLoad(radio0, p.records[..i]) && 0 <= rad <= 2
      invariant error.None?
      decreases |lines| - i
    {
      mode := Detect(|lines[i]|);
      var parsed := ReadLine(r, lines, w, h, i);
      if parsed.Err? {
        error := Some(parsed.error);
        assert p.records[..i] == p.records;
        ModeOnError(mode0, lines, p);
        return;
      }
      var rec := parsed.value;
      WellShapedAppend(boxes, rec.box);
      labels := labels + [rec.classLabel];
      rad := RadioOnLoad(rec.format);
      boxes := boxes + [rec.box];
      assert p.records[..i + 1] == p.records[..i] + [rec];
      OfAppend(p.records[..i], rec);
      i := i + 1;
    }
    assert p.records[..i] == p.records;
    ModeAtEnd(mode0, lines, p);
  }

  /** The writing loop of saveLabel for format f: one SaveLine per box, labelCnt counting
      the boxes, stopping at the first exception. */
  method WriteLines(f: Format, boxes: seq<seq<int>>, labels: seq<Label>, w: int, h: int)
    returns (lines: seq<seq<Field>>, error: Option<SaveError>)
    requires w > 0 && h > 0
    ensures Emitted(lines, error) == Emit(f, boxes, labels, w, h, 0)
  {
    lines, error := [], None;
    var labelCnt := 0;
    while labelCnt < |boxes|
      invariant 0 <= labelCnt <= |boxes|
      invariant Emit(f, boxes, labels, w, h, 0)
                == Emitted(lines + Emit(f, boxes, labels, w, h, labelCnt).lines,
                           Emit(f, boxes, labels, w, h, labelCnt).error)
      decreases |boxes| - labelCnt
    {
      var s := SaveLine(f, boxes[labelCnt], labels, labelCnt, w, h);
      EmitStep(f, boxes, labels, w, h, labelCnt);
      if s.Err? {
        error := Some(s.error);
        return;
      }
      ghost var rest := Emit(f, boxes, labels, w, h, labelCnt + 1);
      assert lines + ([s.value] + rest.lines) == (lines + [s.value]) + rest.lines;
      lines := lines + [s.value];
      labelCnt := labelCnt + 1;
    }
  }

  class Euclid {
    var bboxList: seq<seq<int>>
    var classLabelList: seq<Label>
    var click: int                     // STATE['click']
    var pendingX: int                  // STATE['x']
    var pendingY: int                  // STATE['y']
    var blPoints: Option<seq<Point>>   // STATE['blPoints'], None while absent
    var currClassLabel: int
    var radio: int                     // formatCheckBox
    var labelMode: Format              // currLabelMode
    var imageLoaded: bool              // imagefilename and labelfilename are set
    var width: int                     // tkimg.width()
    var height: int                    // tkimg.height()
    var preview: bool                  // bboxId is not None

    function Snapshot(): State
      reads this
    {
      State(bboxList, classLabelList, click, pendingX, pendingY, blPoints, currClassLabel,
            radio, labelMode, imageLoaded, width, height, preview)
    }

    /** What every handler keeps: the counter below 4, a label for every box (delete and
        clear drop boxes, never labels), boxes of 4 or 8 coordinates, one of the three
        radio values, one of the eight classes, and a real image once one is loaded. */
    predicate Valid()
      reads this
    {
      0 <= click < 4 && |bboxList| <= |classLabelList| && WellShaped(bboxList) &&
      0 <= radio <= 2 && 0 <= currClassLabel < |CLASSES| &&
      (imageLoaded ==> width > 0 && height > 0)
    }

    constructor ()
      ensures Valid()
      ensures Snapshot() == State([], [], 0, 0, 0, None, 0, 0, YOLO, false, 0, 0, false)
    {
      bboxList, classLabelList := [], [];
      click, pendingX, pendingY, blPoints := 0, 0, 0, None;
      currClassLabel, radio, labelMode := 0, 0, YOLO;
      imageLoaded, width, height, preview := false, 0, 0, false;
    }

    /** handleMouseOrXKeyBusLabel. */
    method QuadClick(x: int, y: int)
      requires Valid()
      modifies this
      ensures Valid()
      ensures QuadStep(old(Snapshot()), x, y, Snapshot())
    {
      ghost var before := Snapshot();
      if blPoints.None? {
        click := 0;
      }
      if click == 0 {
        blPoints := Some([]);
      }
      if click < 4 {
        var pts := blPoints.value + [Point(x, y)];
        blPoints := Some(pts);
        if click == 3 {
          FinishQuad(x, y, pts, before);
          return;
        }
      }
      click := (click + 1) % 4;
      QuadCollects(before, x, y, Snapshot());
    }

    /** The block after the fourth point (x, y), with pts the points so far: order them and
        commit the quadrilateral with the current class, then advance the counter from 3
        to 0. Where the ordering raises, the handler stops before the counter moves. */
    method FinishQuad(x: int, y: int, pts: seq<Point>, ghost before: State)
      requires Valid() && before.blPoints.Some? && before.click == 3
      requires pts == before.blPoints.value + [Point(x, y)]
      requires Snapshot() == before.(blPoints := Some(pts))
      modifies this
      ensures Valid()
      ensures QuadStep(before, x, y, Snapshot())
    {
      var box, residual;
      ghost var g1, g2;
      box, residual, g1, g2 := OrderQuad(pts);
      blPoints := Some(residual);
      if box.None? {
        QuadFinishes(before, x, y, pts, g1, g2, Snapshot());
        return;
      }
      ghost var after := before.(bboxList := before.bboxList + [box.value],
                                 classLabelList := before.classLabelList + [ClassIndex(before.currClassLabel)],
                                 blPoints := Some(residual), click := 0, preview := true);
      assert Snapshot() == before.(blPoints := Some(residual));
      CommitQuad(box.value);
      assert Snapshot() == after;
      FourthCommits(before, pts, box.value, residual);
      QuadFinishes(before, x, y, pts, g1, g2, after);
    }

    /** The tail of the fourth click once ordering succeeded: commit the box, mark the
        preview finished and advance the counter from 3 to 0. */
    method CommitQuad(box: seq<int>)
      requires Valid() && |box| == 8 && click == 3
      modifies this
      ensures Valid()
      ensures Snapshot() == old(Snapshot()).(bboxList := old(bboxList) + [box],
                                             classLabelList := old(classLabelList) + [ClassIndex(old(currClassLabel))],
                                             click := 0, preview := true)
    {
      Commit(box);
      preview := true;
      click := (click + 1) % 4;
    }

    /** Append a finished box with the current class, as both click handlers do. */
    method Commit(box: seq<int>)
      requires Valid() && (|box| == 4 || |box| == 8)
      modifies this
      ensures Valid()
      ensures Snapshot() == old(Snapshot()).(bboxList := old(bboxList) + [box],
                                             classLabelList := old(classLabelList) + [ClassIndex(old(currClassLabel))])
    {
      WellShapedAppend(bboxList, box);
      bboxList := bboxList + [box];
      classLabelList := classLabelList + [ClassIndex(currClassLabel)];
    }

    /** handleMouseOrXKey: a click or the x key at (x, y). */
    method Click(x: int, y: int)
      requires Valid()
      modifies this
      ensures Valid()
      ensures !old(imageLoaded) ==> Snapshot() == old(Snapshot())
      ensures old(imageLoaded) && old(radio) == 2 ==> QuadStep(old(Snapshot()), x, y, Snapshot())
      ensures old(imageLoaded) && old(radio) != 2 ==> RectStep(old(Snapshot()), x, y, Snapshot())
    {
      if !imageLoaded {
        return;
      }
      if radio == 2 {
        QuadClick(x, y);
        return;
      }
      if click == 0 {
        pendingX, pendingY := x, y;
      } else {
        Commit(RectBox(pendingX, pendingY, x, y));
        preview := false;
      }
      click := (click + 1) % 2;
    }

    /** mouseMove, as far as the state goes: in rectangle mode, after the first corner, a
        move inside the image draws the preview rectangle. */
    method MouseMove(x: int, y: int)
      requires Valid()
      modifies this
      ensures Valid()
      ensures if old(imageLoaded) && x <= width && y <= height && old(radio) != 2 && old(click) == 1
              then Snapshot() == old(Snapshot()).(preview := true)
              else Snapshot() == old(Snapshot())
    {
      if !imageLoaded || x > width || y > height {
        return;
      }
      if radio != 2 && click == 1 {
        preview := true;
      }
    }

    /** cancelBBox: with one corner placed and a preview drawn, drop the preview and start
        over; otherwise nothing. */
    method Cancel()
      requires Valid()
      modifies this
      ensures Valid()
      ensures if old(click) == 1 && old(preview)
              then Snapshot() == old(Snapshot()).(click := 0, preview := false)
              else Snapshot() == old(Snapshot())
    {
      if click == 1 {
        if preview {
          preview := false;
          click := 0;
        }
      }
    }

    /** delBBox with the list-box selection `sel`: exactly one selected row removes that
        box. Its label stays in classLabelList. */
    method Delete(sel: seq<nat>)
      requires Valid()
      modifies this
      ensures Valid()
      ensures if |sel| == 1 && sel[0] < |old(bboxList)|
              then Snapshot() == old(Snapshot()).(
                     bboxList := old(bboxList)[..sel[0]] + old(bboxList)[sel[0] + 1..])
              else Snapshot() == old(Snapshot())
    {
      if |sel| != 1 {
        return;
      }
      var idx := sel[0];
      if idx >= |bboxList| {
        return;
      }
      WellShapedRemove(bboxList, idx);
      bboxList := bboxList[..idx] + bboxList[idx + 1..];
    }

    /** clearBBox: all boxes go; labels, counter and the rest stay. */
    method Clear()
      requires Valid()
      modifies this
      ensures Valid()
      ensures Snapshot() == old(Snapshot()).(bboxList := [])
    {
      bboxList := [];
    }

    /** setClass0 ... setClass7. */
    method SelectClass(k: int)
      requires Valid() && 0 <= k < |CLASSES|
      modifies this
      ensures Valid()
      ensures Snapshot() == old(Snapshot()).(currClassLabel := k)
    {
      currClassLabel := k;
    }

    /** One of the three format radio buttons. */
    method SelectFormat(v: int)
      requires Valid() && 0 <= v <= 2
      modifies this
      ensures Valid()
      ensures Snapshot() == old(Snapshot()).(radio := v)
    {
      radio := v;
    }

    /** loadImageAndLabels for an image of w by h pixels whose label file holds `file`
        (None when there is no such file), read through r. The boxes are cleared, then the
        lines are read in order until one raises; `error` is that line's exception. */
    method LoadImage<T>(w: int, h: int, file: Option<seq<seq<T>>>, r: Reader<T>)
      returns (error: Option<ParseError>)
      requires Valid() && w > 0 && h > 0
      modifies this
      ensures Valid()
      ensures var lines := if file.Some? then file.value else [];
              var p := ParseAll(r, lines, w, h);
              error == p.error &&
              Snapshot() == old(Snapshot()).(
                imageLoaded := true, width := w, height := h,
                bboxList := BoxesOf(p.records), classLabelList := LabelsOf(p.records),
                labelMode := ModeAfterLoad(old(labelMode), lines, p),
                radio := RadioAfterLoad(old(radio), p.records))
    {
      var lines := if file.Some? then file.value else [];
      var boxes, labels, mode, rad;
      boxes, labels, mode, rad, error := ReadLabels(r, lines, w, h, labelMode, radio);
      Install(w, h, boxes, labels, mode, rad);
    }

    /** The fields loadImageAndLabels sets once the label file has been read. */
    method Install(w: int, h: int, boxes: seq<seq<int>>, labels: seq<Label>, mode: Format, rad: int)
      requires Valid() && w > 0 && h > 0
      requires WellShaped(boxes) && |boxes| == |labels| && 0 <= rad <= 2
      modifies this
      ensures Valid()
      ensures Snapshot() == old(Snapshot()).(
                imageLoaded := true, width := w, height := h,
                bboxList := boxes, classLabelList := labels, labelMode := mode, radio := rad)
    {
      imageLoaded, width, height := true, w, h;
      bboxList, classLabelList := boxes, labels;
      labelMode, radio := mode, rad;
    }

    /** saveLabel. The outcome is SaveLabels of the state before; the call sets
        currLabelMode to the written format and the radio to 2 after the fallback from
        KITTI, and changes nothing else. */
    method Save() returns (outcome: SaveOutcome)
      requires Valid()
      modifies this
      ensures Valid()
      ensures outcome == SaveLabels(old(imageLoaded), old(radio), old(bboxList), old(classLabelList),
                                    old(width), old(height))
      ensures Snapshot() == old(Snapshot()).(
                radio := RadioAfterSave(old(radio), outcome),
                labelMode := if outcome.Skipped? then old(labelMode) else outcome.format)
      decreases if radio == 0 then 1 else 0
    {
      if !imageLoaded {
        return Skipped;
      }
      if |bboxList| == 0 {
        return Skipped;
      }
      labelMode := FormatOfRadio(radio);
      var lines, error := WriteLines(labelMode, bboxList, classLabelList, width, height);
      if error.None? {
        return Written(labelMode, lines);
      }
      if labelMode == KITTI && Caught(error.value) {
        radio := 2;
        outcome := Save();
        return;
      }
      outcome := Crashed(labelMode, lines, error.value);
    }
  }
}
