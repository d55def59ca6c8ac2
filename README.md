# euclid.py annotation core in Dafny

euclid.py is a Tk tool for drawing bounding boxes on images. A box is either a
rectangle drawn with two clicks or a quadrilateral drawn with four. Boxes are
saved as KITTI, YOLO or BUSLABEL text lines. This project models the part of
the tool that is not Tk wiring:

- `transforms.dfy` (module `Transforms`): the four converters between pixel
  boxes and the normalised on-disk values, and Python's `int()` on a float.
  Arithmetic is exact (`real`).
- `quad_order.dfy` (module `QuadOrder`): the corner ordering run after the
  fourth click of a quadrilateral, as a method with its selection loop. It
  keeps the `(1024, 1024)` sentinel, the `<=` comparisons and `list.remove`
  by value.
- `label_codec.dfy` (module `LabelCodec`):
  - the class names;
  - how a label-file line is recognised and parsed;
  - how each format writes a box and its label;
  - what `saveLabel` leaves in the file;
  - the save-then-load round trip.
- `session.dfy` (module `Session`):
  - the reading loop of `loadImageAndLabels` and the writing loop of
    `saveLabel`, as methods with loops;
  - class `Euclid`, holding the annotation state and the click, cancel,
    delete, clear, load and save handlers.
- `wrappers.dfy`: `Option` and `Result`.

A Python exception is modelled as an error value or an outcome. The state is
then what Python leaves behind when the exception escapes the handler.

Number text is abstract:

- Reading sees a token through a `Reader`, which gives the token's text and
  its value as a float, or `None` where `float()` raises.
- Writing produces `Field`s: a literal word, or a number printed with a
  fixed count of decimals.
- `ExactReader` reads a printed number back as its exact value. The round-trip
  lemmas use it.

Behaviours the model keeps as the code has them, where a reader might expect
otherwise:

- **Ties in the selection scan.** It uses `<=`, so on a tie in x the later
  click becomes `left1`.
- **A bad line ends the load.** The first line that raises stops the reading
  loop. It is not skipped.
- **The format is chosen per line.** `currLabelMode` is that of the last line
  read, or of the line that raised.
- **The radio swaps KITTI and YOLO.** Reading sets the radio to 1 for KITTI,
  2 for BUSLABEL and 0 for YOLO. Saving reads 0 as KITTI and 1 as YOLO. So a
  KITTI file is saved back as YOLO and a YOLO file as KITTI (`RadioSwap`).
- **BUSLABEL parameter names.** `GetBoundariesFromBusLabelFile` names its
  parameters lt, rt, lb, rb, but the writer emits lt, lb, rb, rt. The routine
  is positional, so the round trip still holds.
- **Delete keeps the label.** `delBBox` does not remove the box's label.
- **Clear keeps the rest.** `clearBBox` leaves the labels and the click
  counter alone.

## Model

| member | source | states |
|---|---|---|
| Transforms.Trunc | euclid.py:438-453 | `(int)(x)` truncates toward zero: at or below x by less than one for x ≥ 0, at or above x by less than one for x < 0, never past zero |
| Transforms.TruncOfInt | euclid.py:379 | truncating a whole number gives it back |
| Transforms.ToYolo | euclid.py:457-465 | centre x times 2W is left + right, centre y times 2H is top + bottom, width times W is right − left, height times H is bottom − top |
| Transforms.FromYolo | euclid.py:437-442 | GetBoundariesFromYoloFile gives four pixel coordinates; YoloRoundTrip shows it inverts convert2Yolo on integer boxes |
| Transforms.YoloRoundTrip | euclid.py:437-465 | GetBoundariesFromYoloFile of convert2Yolo of an integer box is that box exactly |
| Transforms.YoloInUnitRange | euclid.py:457-465 | a box inside a W×H image gives YOLO values in [0, 1], with width and height ≥ 0 |
| Transforms.ToBusLabel | euclid.py:468-480 | eight values: value k is coordinate k divided by the width (even k) or the height (odd k) |
| Transforms.Normalize | euclid.py:470-479 | `(1/d) * b` times d is b |
| Transforms.Denormalize | euclid.py:446-453 | a normalised coordinate scaled back and truncated is the coordinate |
| Transforms.FromBusLabel | euclid.py:445-454 | GetBoundariesFromBusLabelFile gives eight pixel coordinates; FromBusLabelPositional and BusLabelRoundTrip say which and that it inverts convert2BusLabel |
| Transforms.FromBusLabelPositional | euclid.py:445-454 | output k is value k scaled by the width (even k) or the height (odd k), whatever the parameter names say |
| Transforms.BusLabelRoundTrip | euclid.py:445-480 | GetBoundariesFromBusLabelFile of convert2BusLabel of an integer quadrilateral is that quadrilateral, position by position |
| Transforms.BusLabelInUnitRange | euclid.py:468-480 | a quadrilateral inside the image is written as eight values in [0, 1] |
| Transforms.NormalizedInUnit | euclid.py:470-479 | a coordinate between 0 and the dimension normalises into [0, 1] |
| QuadOrder.RemoveFirst | euclid.py:610-611 | `list.remove`: succeeds exactly when the value is present (ValueError otherwise), and then removes one occurrence and nothing else |
| QuadOrder.RemoveFirstAt | euclid.py:610-619 | the occurrence removed is the first: at position k with no earlier equal element, and the result is the list before k followed by the list after k, in order |
| QuadOrder.SelectLeftPair | euclid.py:599-607 | the loop ends holding the points at the positions Scan gives over the sentinel-extended list, which ScanSelects shows are the LeftSelection: left1 the last least-x click, left2 the next candidate |
| QuadOrder.ScanSelects | euclid.py:599-607 | every prefix scanned by the loop's rule satisfies LeftSelection |
| QuadOrder.SelectedAreClicks | euclid.py:599-607 | with four clicks of x ≤ 1024, the selected pair is two of the clicks (a sub-multiset of them) |
| QuadOrder.RightOfLeftPair | euclid.py:599-611 | every click left after removing the selected pair has x at least that of both selected points |
| QuadOrder.LowerFirst | euclid.py:613-616 | the left pair is reordered with the strictly smaller y first (the second point on a tie) |
| QuadOrder.HigherFirst | euclid.py:618-620 | of the first two remaining clicks, the strictly larger y comes first (the second on a tie); the list keeps the other one in front |
| QuadOrder.PlaceCorners | euclid.py:613-620 | the four corners are [leftTop, leftBottom, rightBottom, rightTop], drawn from the pair and the first two remaining clicks |
| QuadOrder.Arrange | euclid.py:609-620 | succeeds exactly when the click list holds both selected points and at least four clicks; the result is PlaceCorners of the list after both removals |
| QuadOrder.OrderCorners | euclid.py:599-620 | the corners are a permutation of the clicks (with what the list keeps); both left corners lie at or left of both right ones; y increases within the left pair and decreases within the right pair; four clicks with x ≤ 1024 always succeed |
| QuadOrder.PermutationAndPartition | euclid.py:599-620 | the ordered corners lose no click, and the left pair lies at or left of the right pair |
| QuadOrder.Committed | euclid.py:609-641 | once the scan has chosen the left pair, a box results exactly when there are at least four clicks and both chosen points are among them (else a `remove` raises); the box has 8 coordinates and the list keeps all but three clicks; on a raise the list is what the removals that succeeded left |
| QuadOrder.OrderQuad | euclid.py:598-641 | with g1, g2 the positions the scan chose (LeftSelection over the sentinel-extended list), the box and residual list are exactly Committed for that pair: a box exactly when both chosen points are clicks and there are four, namely the corners lt, lb, rb, rt as PlaceCorners orders them; the box obeys QuadOf (x partition, y order, no click lost); four clicks with x ≤ 1024 always give a box |
| QuadOrder.CornersMakeQuad | euclid.py:613-641 | corners ordered as above flatten to a box QuadOf accepts |
| LabelCodec.Detect | euclid.py:377-402 | a line is KITTI exactly when it has more than 9 tokens, BUSLABEL exactly for 6 to 9, YOLO exactly for at most 5 |
| LabelCodec.RadioOnLoad | euclid.py:381-402 | reading a line sets the radio to a value in 0..2 (1 for KITTI, 2 for BUSLABEL, 0 for YOLO, as DetectionBands states per band) |
| LabelCodec.DetectionBands | euclid.py:377-402 | reading a line of more than 9 tokens sets the radio to 1, of 6 to 9 tokens to 2, of at most 5 to 0 |
| LabelCodec.FormatOfRadio | euclid.py:489-494 | saving writes KITTI exactly for radio 0, YOLO exactly for radio 1, and BUSLABEL for every other value |
| LabelCodec.RadioSwap | euclid.py:381-494 | after reading, KITTI is saved back as YOLO, YOLO as KITTI, and BUSLABEL as BUSLABEL |
| LabelCodec.ReadNumbers | euclid.py:379-400 | `float(tmp[lo])` … `float(tmp[hi-1])` left to right: succeeds exactly when all the tokens exist and are numbers; otherwise the first missing position (IndexError) or the first non-number (ValueError) |
| LabelCodec.IndexOf | euclid.py:380 | `list.index`: found exactly when present; the position holds the name and no earlier one does |
| LabelCodec.ParseLine | euclid.py:376-402 | a parsed line has the format of its token count, and 4 coordinates for KITTI and YOLO or 8 for BUSLABEL |
| LabelCodec.ParseLineCases | euclid.py:376-402 | KITTI parses exactly when tokens 4-7 are numbers and token 0 is a class name, giving the truncated numbers and `CLASSES.index(token 0)`; BUSLABEL exactly at 9 numeric tokens, giving the scaled corners and token 0 as text; YOLO exactly at 5, giving the scaled box and token 0 as text; every other error is ReadNumbers' |
| LabelCodec.ParseAll | euclid.py:373-405 | a file reads as at most one record per line, and without error exactly when every line is read |
| LabelCodec.ParseAllReads | euclid.py:373-405 | record i is the parse of line i, and the error is that of the first line that did not parse |
| LabelCodec.ClassesDistinct | euclid.py:102 | the eight class names are pairwise different |
| LabelCodec.ClassName | euclid.py:503 | `CLASSES[label]` succeeds exactly for an integer label in −8..7 (negative counting from the end), and then gives one of the class names; a string label (TypeError) or an index out of range (IndexError) fails |
| LabelCodec.ClassNameRoundTrip | euclid.py:380-503 | a class index the KITTI writer can name reads back through `CLASSES.index` as that index, brought into 0..7 when negative |
| LabelCodec.KittiLine | euclid.py:503-512 | a KITTI line has 16 tokens, the class name first |
| LabelCodec.YoloLine | euclid.py:524-525 | a YOLO line has 5 tokens: the label, then centre x, centre y, width and height at 7 places |
| LabelCodec.BusLine | euclid.py:539-547 | a BUSLABEL line has 9 tokens, the label first |
| LabelCodec.SaveLine | euclid.py:501-550 | a written line has 16 (KITTI), 5 (YOLO) or 9 (BUSLABEL) tokens, so it is detected as its own format; the line is written exactly when label i exists and, for KITTI, names a class and the box has 4 coordinates; for YOLO the box has 4 and for BUSLABEL 8 |
| LabelCodec.Emit | euclid.py:498-550 | the writing loop writes at most one line per box, and finishes without error exactly when it writes all of them |
| LabelCodec.EmitReads | euclid.py:498-550 | line k is SaveLine of box k with label k, and the error that stops the loop is SaveLine's for the next box |
| LabelCodec.LineRoundTrip | euclid.py:373-550 | a written line read back with exact numbers gives the box's first 4 (KITTI, YOLO) or 8 (BUSLABEL) coordinates and the label as Reloaded says |
| LabelCodec.KittiReadBack | euclid.py:377-512 | a KITTI line of class k reads back as the box's first four coordinates and class index k |
| LabelCodec.YoloReadBack | euclid.py:397-526 | a YOLO line reads back as the box its values stand for, with its first token as label |
| LabelCodec.BusReadBack | euclid.py:383-548 | a BUSLABEL line reads back as the quadrilateral its values stand for, with its first token as label |
| LabelCodec.EmitRoundTrip | euclid.py:373-550 | a writing loop that finishes writes one line per box, and reading those lines gives every box and label back without error |
| LabelCodec.SaveRoundTrip | euclid.py:373-552 | a save that completes writes one line per box, each detected as the written format; reading the file back gives every box (up to what the format keeps) and its reloaded label without error |
| LabelCodec.YoloEmitFinishes | euclid.py:515-530 | with four- or eight-coordinate boxes, each with a label, the YOLO writer always finishes |
| LabelCodec.KittiEmitOutcome | euclid.py:496-514 | the KITTI writer finishes exactly when every label names a class; otherwise it stops, with the error its try block catches, at a box whose label cannot be named, every earlier label naming a class |
| LabelCodec.SaveLabels | euclid.py:483-552 | nothing is written exactly when there is no label file name yet (no image loaded) or no box; otherwise the format is the radio's, or BUSLABEL after the KITTI fallback; a completed save writes one line per box, a crashed one fewer lines than boxes |
| LabelCodec.BusEmitOutcome | euclid.py:531-552 | the BUSLABEL writer finishes exactly when every box has eight coordinates; otherwise it stops with IndexError at the first four-coordinate box |
| LabelCodec.SaveInSession | euclid.py:483-552 | in a session: nothing is written exactly under the two guards; otherwise the radio's format is written; KITTI falls back to BUSLABEL exactly when some label cannot be named; YOLO always completes; the only exception that escapes is BUSLABEL meeting a rectangle |
| Session.RectBox | euclid.py:573-575 | the rectangle is (min x, min y, max x, max y) of the two corners |
| Session.RectStep | euclid.py:563-584 | the rectangle handler: the first click keeps the corner and sets the counter to 1; the second appends RectBox with the current class, clears the preview and toggles the counter; nothing else changes |
| Session.QuadStep | euclid.py:586-652 | the quadrilateral handler: the 1st to 3rd clicks collect the point (restarting the list at counter 0) and advance the counter; the 4th lets the scan choose the left pair as LeftSelection says and does what FourthPoint says for Committed of that pair |
| Session.FourthPoint | euclid.py:597-652 | a box from ordering is committed with the current class, the list keeps the residual clicks, the preview is set and the counter wraps to 0; when ordering raises, only the click list changes, to what the removals left, and the counter stays at 3 |
| Session.QuadCollects | euclid.py:588-652 | collecting one of the first three points is a QuadStep |
| Session.QuadFinishes | euclid.py:597-652 | the fourth point handled as FourthPoint says for the scan's pair is a QuadStep |
| Session.FourthCommits | euclid.py:631-652 | committing a QuadOf box with the current class, residual list, preview and counter 0 is what FourthPoint says of a box |
| Session.ReadLine | euclid.py:374-405 | parsing line i gives record i, which has 4 or 8 coordinates, or ends the load with that line's exception |
| Session.ReadLabels | euclid.py:373-405 | the loop appends the boxes and labels of the records ParseAll reads, in order; it stops at the first error; the mode is that of the last line reached and the radio that of the last line read without error |
| Session.WriteLines | euclid.py:496-550 | the `labelCnt` loop writes exactly Emit's lines and stops with Emit's error |
| Session.Euclid.constructor | euclid.py:196-308 | a new session has no boxes or labels, counter 0, class 0, radio 0, no image and no preview |
| Session.Euclid.Click | euclid.py:563-584 | no image: nothing changes; radio 2: a quadrilateral click (QuadStep); otherwise the first click keeps the corner, the second appends RectBox and the current class and clears the preview, and the counter toggles |
| Session.Euclid.QuadClick | euclid.py:586-652 | the handler takes the session as QuadStep says: the 1st to 3rd clicks only collect the point and advance the counter; the 4th commits exactly the box Committed gives for the scan's left pair, with the current class, and resets the counter; if ordering raises, nothing is committed and the click list is what the removals left |
| Session.Euclid.FinishQuad | euclid.py:597-652 | the block after the 4th point is the fourth-click case of QuadStep: exactly Committed's box and residual list for the scan's pair |
| Session.Euclid.CommitQuad | euclid.py:631-652 | appends the box and the current class, sets the preview and moves the counter from 3 to 0, changing nothing else |
| Session.Euclid.Commit | euclid.py:575-643 | appends the box and the current class and changes nothing else |
| Session.Euclid.MouseMove | euclid.py:655-688 | a move inside the image in rectangle mode with one corner placed draws the preview; nothing else changes |
| Session.Euclid.Cancel | euclid.py:709-714 | with counter 1 and a preview, drops the preview and resets the counter to 0; otherwise nothing changes |
| Session.Euclid.Delete | euclid.py:720-728 | exactly one selected index in range removes that box and leaves the labels and all else unchanged; any other selection changes nothing |
| Session.Euclid.Clear | euclid.py:730-735 | empties the boxes and leaves the labels, the counter and all else unchanged |
| Session.Euclid.SelectClass | euclid.py:107-122 | sets the current class and nothing else |
| Session.Euclid.SelectFormat | euclid.py:302-308 | a format radio button sets the radio to its value and nothing else |
| Session.Euclid.LoadImage | euclid.py:349-405 | clears the boxes and labels, then installs ParseAll's records, the mode of the last line reached and the radio of the last line read; the error is the first bad line's |
| Session.Euclid.Install | euclid.py:363-405 | sets the image, boxes, labels, mode and radio and nothing else |
| Session.Euclid.Save | euclid.py:483-552 | the outcome is SaveLabels of the state; currLabelMode becomes the written format and the radio becomes 2 after the KITTI fallback; nothing else changes |

## Left out

- Tk is not modelled: the canvas, the list box, colour cycling, window layout and
  status text. The only canvas fact kept is whether a preview rectangle exists
  (`preview`, for `bboxId`).
- File and config I/O is not modelled: opening files, `os.path`, `AddFileToTrainingList`,
  `SavePathToConfig`, `LoadPathFromConfig`, `loadDir` and `Image.open`. A load receives the
  image size and the label file as token lines, or None when there is no file. A save returns
  the lines it writes.
- Navigation (`prevImage`, `nextImage`, `gotoImage`), help and the frame constructor's widget
  set-up are not modelled.
- Floating-point arithmetic and decimal text are not modelled: `float()`, `%.2f` and `%.7f`.
  Numbers are exact reals, and the printed decimal count is only recorded (`Fixed`). The
  round trips therefore do not bound rounding error, and `inf`, `nan` and `OverflowError`
  from `int()` do not arise.
- The KITTI fallback opens the label file a second time while the first handle is still open.
  The bytes the first handle has buffered are not modelled; only the whole-save fallback to
  BUSLABEL with radio 2 is.
- The quadrilateral preview lines (`handleMouseMoveBusLabel`, `STATE['blLines']`) are not
  modelled. This includes the KeyError raised when a quadrilateral is finished with no mouse
  move since start-up: the model commits the quadrilateral as if `blLines` existed.
- The x key (`selectPointXY`) is one more call of the click handler with the last mouse
  position, so `Click` covers it.
- The warning dialog for images larger than 1024 pixels has no effect on the state and is left
  out.
- The "Unknown Label format" branch of `saveLabel` is never reached, because the radio always
  maps to one of the three formats.
- The round-trip lemmas take a written word to be read back as exactly one token. They
  therefore assume a label's text is a single non-empty token without whitespace. Labels
  in a session are integers or tokens from `split()`, and no class name holds a space.
- Session.Euclid.Delete: an index beyond the boxes raises IndexError in euclid.py before
  anything changes. The model treats it as no change.
