/** The three label-file formats of euclid.py: how a whitespace-split line is recognised
    and read back into a box and a class label (loadImageAndLabels), and how a box and its
    label are written out (saveLabel). A line is a sequence of tokens. On the reading side a
    token is abstract, seen through a Reader that gives its text and its value as a float
    (None where Python's float() raises). On the writing side a token is a Field: a literal
    word or a number printed with a fixed count of decimals. */
module LabelCodec {
  import opened Wrappers
  import opened Transforms

  /** The class names (euclid.py:102). KITTI lines carry one of these names. */
  const CLASSES: seq<string> :=
    ["Class0", "Class1", "Class2", "Class3", "Class4", "Class5", "Class6", "Class7"]

  datatype Format = KITTI | YOLO | BUSLABEL

  /** The format a line of n tokens is read as: more than 9 is KITTI, more than 5 is
      BUSLABEL, anything else YOLO. Decided line by line. */
  function Detect(n: nat): (f: Format)
    ensures f == KITTI <==> n > 9
    ensures f == BUSLABEL <==> 5 < n <= 9
    ensures f == YOLO <==> n <= 5
  {
    if n > 9 then KITTI else if n > 5 then BUSLABEL else YOLO
  }

  /** The format radio-button value that reading a line of the format sets. */
  function RadioOnLoad(f: Format): (v: int)
    ensures 0 <= v <= 2
  {
    match f
    case KITTI => 1
    case BUSLABEL => 2
    case YOLO => 0
  }

  /** The format saveLabel writes for a radio-button value: 0 KITTI, 1 YOLO, else BUSLABEL. */
  function FormatOfRadio(v: int): (f: Format)
    ensures f == KITTI <==> v == 0
    ensures f == YOLO <==> v == 1
    ensures f == BUSLABEL <==> v != 0 && v != 1
  {
    if v == 0 then KITTI else if v == 1 then YOLO else BUSLABEL
  }

  /** The radio value a line of each token-count band sets. */
  lemma DetectionBands(n: nat)
    ensures RadioOnLoad(Detect(n)) == (if n > 9 then 1 else if n > 5 then 2 else 0)
  {
  }

  /** Reading a KITTI file leaves the radio on YOLO for the next save and reading a YOLO
      file leaves it on KITTI; only BUSLABEL is saved back in its own format. */
  lemma RadioSwap()
    ensures FormatOfRadio(RadioOnLoad(KITTI)) == YOLO
    ensures FormatOfRadio(RadioOnLoad(YOLO)) == KITTI
    ensures FormatOfRadio(RadioOnLoad(BUSLABEL)) == BUSLABEL
  {
  }

  /** What the classLabelList holds: an int (a click, or a KITTI line read back) or the
      raw first token of a YOLO or BUSLABEL line. */
  datatype Label = ClassIndex(i: int) | ClassToken(s: string)

  // ---------------------------------------------------------------- reading

  datatype Reader<-T> = Reader(text: T -> string, number: T -> Option<real>)

  datatype ParseError =
    | MissingToken(index: nat)   // IndexError on tmp[index]
    | BadNumber(index: nat)      // ValueError from float(tmp[index])
    | UnknownClass(name: string) // ValueError from CLASSES.index(name)

  /** Tokens lo..hi-1 exist and all read as numbers. */
  predicate Numeric<T>(r: Reader<T>, line: seq<T>, lo: nat, hi: nat)
  {
    (lo < hi ==> hi <= |line|) && forall k :: lo <= k < hi ==> r.number(line[k]).Some?
  }

  /** float(tmp[lo]), ..., float(tmp[hi-1]) evaluated left to right, stopping at the
      first missing or unreadable token. */
  function ReadNumbers<T>(r: Reader<T>, line: seq<T>, lo: nat, hi: nat): (v: Result<seq<real>, ParseError>)
    requires lo <= hi
    decreases hi - lo
    ensures v.Ok? <==> Numeric(r, line, lo, hi)
    ensures v.Ok? ==> |v.value| == hi - lo
    ensures v.Ok? ==> forall k :: 0 <= k < hi - lo ==> r.number(line[lo + k]) == Some(v.value[k])
    ensures v.Err? ==> !v.error.UnknownClass?
    ensures v.Err? && v.error.MissingToken? ==>
              lo <= v.error.index < hi && v.error.index == (if lo > |line| then lo else |line|) &&
              Numeric(r, line, lo, v.error.index)
    ensures v.Err? && v.error.BadNumber? ==>
              lo <= v.error.index < hi && v.error.index < |line| &&
              r.number(line[v.error.index]).None? && Numeric(r, line, lo, v.error.index)
  {
    if lo == hi then Ok([])
    else if lo >= |line| then Err(MissingToken(lo))
    else match r.number(line[lo])
      case None => Err(BadNumber(lo))
      case Some(x) =>
        match ReadNumbers(r, line, lo + 1, hi)
        case Err(e) => Err(e)
        case Ok(xs) =>
          Ok([x] + xs)
  }

  /** list.index: the first position holding s. */
  function IndexOf(names: seq<string>, s: string): (r: Option<nat>)
    ensures r.Some? <==> s in names
    ensures r.Some? ==> r.value < |names| && names[r.value] == s &&
                        forall k :: 0 <= k < r.value ==> names[k] != s
  {
    if |names| == 0 then None
    else if names[0] == s then Some(0)
    else match IndexOf(names[1..], s)
      case None => None
      case Some(k) => Some(k + 1)
  }

  /** One line of a label file as read back: its format, its pixel box and its label. */
  datatype Record = Record(format: Format, box: seq<int>, classLabel: Label)

  /** The tokens each format reads as numbers. */
  function NumberSpan(f: Format): (nat, nat)
  {
    match f
    case KITTI => (4, 8)
    case BUSLABEL => (1, 9)
    case YOLO => (1, 5)
  }

  /** The body of the reading loop for one line, image w by h. KITTI: tokens 4-7 are the
      box, truncated to ints, then token 0 is looked up in CLASSES. BUSLABEL: tokens 1-8 are
      normalised corners. YOLO: tokens 1-4 are centre and size. Both keep token 0 as text. */
  function ParseLine<T>(r: Reader<T>, line: seq<T>, w: int, h: int): (p: Result<Record, ParseError>)
    ensures p.Ok? ==> p.value.format == Detect(|line|)
    ensures p.Ok? ==> |p.value.box| == KeptWidth(p.value.format)
  {
    match Detect(|line|)
    case KITTI =>
      (match ReadNumbers(r, line, 4, 8)
       case Err(e) => Err(e)
       case Ok(v) =>
         match IndexOf(CLASSES, r.text(line[0]))
         case None => Err(UnknownClass(r.text(line[0])))
         case Some(k) =>
           Ok(Record(KITTI, [Trunc(v[0]), Trunc(v[1]), Trunc(v[2]), Trunc(v[3])], ClassIndex(k))))
    case BUSLABEL =>
      (match ReadNumbers(r, line, 1, 9)
       case Err(e) => Err(e)
       case Ok(v) => Ok(Record(BUSLABEL, FromBusLabelSeq(v, w, h), ClassToken(r.text(line[0])))))
    case YOLO =>
      (match ReadNumbers(r, line, 1, 5)
       case Err(e) => Err(e)
       case Ok(v) => Ok(Record(YOLO, FromYolo(v[0], v[1], v[2], v[3], w, h), ClassToken(r.text(line[0])))))
  }

  /** What ParseLine reads of a line, format by format: ReadNumbers decides every error
      but a KITTI class name missing from CLASSES; KITTI truncates tokens 4-7 and looks up
      token 0, BUSLABEL and YOLO scale the numbers and keep token 0 as text. */
  lemma ParseLineCases<T>(r: Reader<T>, line: seq<T>, w: int, h: int)
    ensures var p := ParseLine(r, line, w, h);
            p.Err? && !p.error.UnknownClass? ==>
              var (lo, hi) := NumberSpan(Detect(|line|));
              ReadNumbers(r, line, lo, hi) == Err(p.error)
    ensures var p := ParseLine(r, line, w, h);
            Detect(|line|) == KITTI ==>
              (p.Ok? <==> Numeric(r, line, 4, 8) && r.text(line[0]) in CLASSES) &&
              (p.Err? && p.error.UnknownClass? ==>
                 Numeric(r, line, 4, 8) && p.error.name == r.text(line[0]) && r.text(line[0]) !in CLASSES) &&
              (p.Ok? ==>
                 p.value.classLabel.ClassIndex? &&
                 IndexOf(CLASSES, r.text(line[0])) == Some(p.value.classLabel.i) &&
                 p.value.box == [Trunc(r.number(line[4]).value), Trunc(r.number(line[5]).value),
                               Trunc(r.number(line[6]).value), Trunc(r.number(line[7]).value)])
    ensures var p := ParseLine(r, line, w, h);
            Detect(|line|) == BUSLABEL ==>
              (p.Ok? <==> |line| == 9 && Numeric(r, line, 1, 9)) &&
              (p.Ok? ==>
                 p.value.classLabel == ClassToken(r.text(line[0])) &&
                 p.value.box == FromBusLabelSeq(
                 [r.number(line[1]).value, r.number(line[2]).value, r.number(line[3]).value,
                  r.number(line[4]).value, r.number(line[5]).value, r.number(line[6]).value,
                  r.number(line[7]).value, r.number(line[8]).value], w, h))
    ensures var p := ParseLine(r, line, w, h);
            Detect(|line|) == YOLO ==>
              (p.Ok? <==> |line| == 5 && Numeric(r, line, 1, 5)) &&
              (p.Ok? ==>
                 p.value.classLabel == ClassToken(r.text(line[0])) &&
                 p.value.box == FromYolo(r.number(line[1]).value, r.number(line[2]).value,
                                       r.number(line[3]).value, r.number(line[4]).value, w, h))
  {
  }

  /** What reading a whole file gives: the records of the lines before the first line that
      raised, and that line's error. euclid.py does not skip a bad line: the exception
      ends the reading loop. */
  datatype Loaded = Loaded(records: seq<Record>, error: Option<ParseError>)

  function ParseAll<T>(r: Reader<T>, lines: seq<seq<T>>, w: int, h: int): (p: Loaded)
    ensures |p.records| <= |lines|
    ensures p.error.None? <==> |p.records| == |lines|
  {
    if |lines| == 0 then Loaded([], None)
    else match ParseLine(r, lines[0], w, h)
      case Err(e) => Loaded([], Some(e))
      case Ok(rec) =>
        var rest := ParseAll(r, lines[1..], w, h);
        Loaded([rec] + rest.records, rest.error)
  }

  /** The records are the parses of the first lines, one each, and the error is the
      exception of the line after them. */
  lemma {:induction false} ParseAllReads<T>(r: Reader<T>, lines: seq<seq<T>>, w: int, h: int)
    ensures var p := ParseAll(r, lines, w, h);
            (forall i :: 0 <= i < |p.records| ==> ParseLine(r, lines[i], w, h) == Ok(p.records[i])) &&
            (p.error.Some? ==> ParseLine(r, lines[|p.records|], w, h) == Err(p.error.value))
  {
    if |lines| > 0 && ParseLine(r, lines[0], w, h).Ok? {
      ParseAllReads(r, lines[1..], w, h);
      assert forall i :: 0 < i < |lines| ==> lines[1..][i - 1] == lines[i];
    }
  }

  // ---------------------------------------------------------------- writing

  /** A written token: a literal word, or `value` printed with `places` decimals. */
  datatype Field = Word(s: string) | Fixed(value: real, places: nat)

  /** A reader of written lines that gives each printed number its exact value. */
  function FieldText(f: Field): string
  {
    match f
    case Word(s) => s
    case Fixed(_, _) => ""
  }

  function FieldNumber(f: Field): Option<real>
  {
    match f
    case Fixed(v, _) => Some(v)
    case Word(_) => None
  }

  function ExactReader(): Reader<Field>
  {
    Reader(FieldText, FieldNumber)
  }

  /** str of a natural number, in decimal. */
  function DigitsText(n: nat): string
    decreases n
  {
    var d := "0123456789"[n % 10];
    if n < 10 then [d] else DigitsText(n / 10) + [d]
  }

  function IntText(n: int): string
  {
    if n < 0 then "-" + DigitsText(-n) else DigitsText(n)
  }

  /** `'%s' % label`, as the YOLO and BUSLABEL writers print it. */
  function LabelText(l: Label): string
  {
    match l
    case ClassIndex(i) => IntText(i)
    case ClassToken(s) => s
  }

  /** CLASSES[label] with Python's indexing: negative indices count from the end; an index
      out of range (IndexError) or a string label (TypeError) gives None. */
  function ClassName(l: Label): (n: Option<string>)
    ensures n.Some? <==> l.ClassIndex? && -|CLASSES| <= l.i < |CLASSES|
    ensures n.Some? ==> n.value in CLASSES
  {
    match l
    case ClassToken(_) => None
    case ClassIndex(i) =>
      if 0 <= i < |CLASSES| then Some(CLASSES[i])
      else if -|CLASSES| <= i < 0 then Some(CLASSES[i + |CLASSES|])
      else None
  }

  /** The label a written line reads back as: KITTI writes a class name, which reads back
      as its position in CLASSES; the other formats write the label's text, which reads
      back as that text. */
  function Reloaded(f: Format, l: Label): Label
  {
    if f == KITTI then
      match l
      case ClassIndex(i) => ClassIndex(if i < 0 then i + |CLASSES| else i)
      case ClassToken(s) => l
    else ClassToken(LabelText(l))
  }

  /** The name found for a class index reads back, through CLASSES.index, as the index
      brought into 0..7: the class names are pairwise different. */
  lemma {:induction false} ClassNameRoundTrip(l: Label)
    requires ClassName(l).Some?
    ensures l.ClassIndex? && IndexOf(CLASSES, ClassName(l).value) == Some(Reloaded(KITTI, l).i)
  {
    var k := Reloaded(KITTI, l).i;
    assert 0 <= k < |CLASSES| && ClassName(l).value == CLASSES[k];
    ClassesDistinct();
    IndexOfDistinct(CLASSES, k);
  }

  /** No two class names are equal: they differ in their sixth character. */
  lemma ClassesDistinct()
    ensures forall a, b :: 0 <= a < b < |CLASSES| ==> CLASSES[a] != CLASSES[b]
  {
    assert forall a :: 0 <= a < |CLASSES| ==> CLASSES[a][5] == "01234567"[a];
  }

  /** In a list of distinct names, list.index finds each name at its own position. */
  lemma IndexOfDistinct(names: seq<string>, k: nat)
    requires k < |names| && forall a, b :: 0 <= a < b < |names| ==> names[a] != names[b]
    ensures IndexOf(names, names[k]) == Some(k)
  {
    var found := IndexOf(names, names[k]);
    assert found.Some?;
    assert names[found.value] == names[k];
  }

  datatype SaveError =
    | LabelMissing(index: nat) // IndexError on classLabelList[labelCnt]
    | NoClassName(index: nat)  // IndexError or TypeError on CLASSES[label]
    | ShortBox(index: nat)     // IndexError on a box coordinate

  /** The KITTI writer's try block catches the two label failures, not a short box. */
  predicate Caught(e: SaveError)
  {
    e.LabelMissing? || e.NoClassName?
  }

  /** `name 0.0 0 0.0 x1 y1 x2 y2 0.0 0.0 0.0 0.0 0.0 0.0 0.0 0.0`, the box with 2 places. */
  function KittiLine(name: string, box: seq<int>): (line: seq<Field>)
    requires |box| >= 4
    ensures |line| == TokenCount(KITTI) && line[0] == Word(name)
  {
    [Word(name), Word("0.0"), Word("0"), Word("0.0"),
     Fixed(box[0] as real, 2), Fixed(box[1] as real, 2),
     Fixed(box[2] as real, 2), Fixed(box[3] as real, 2),
     Word("0.0"), Word("0.0"), Word("0.0"), Word("0.0"),
     Word("0.0"), Word("0.0"), Word("0.0"), Word("0.0")]
  }

  /** `label cx cy w h`, 7 places. */
  function YoloLine(text: string, y: Yolo): (line: seq<Field>)
    ensures |line| == TokenCount(YOLO) && line[0] == Word(text)
    ensures line[1] == Fixed(y.cx, 7) && line[2] == Fixed(y.cy, 7) &&
            line[3] == Fixed(y.w, 7) && line[4] == Fixed(y.h, 7)
  {
    [Word(text), Fixed(y.cx, 7), Fixed(y.cy, 7), Fixed(y.w, 7), Fixed(y.h, 7)]
  }

  /** `label` and the eight normalised coordinates, 7 places. */
  function BusLine(text: string, v: seq<real>): (line: seq<Field>)
    requires |v| == 8
    ensures |line| == TokenCount(BUSLABEL) && line[0] == Word(text)
  {
    [Word(text), Fixed(v[0], 7), Fixed(v[1], 7), Fixed(v[2], 7), Fixed(v[3], 7),
     Fixed(v[4], 7), Fixed(v[5], 7), Fixed(v[6], 7), Fixed(v[7], 7)]
  }

  /** Tokens per written line: 16 for KITTI, 5 for YOLO, 9 for BUSLABEL. */
  function TokenCount(f: Format): nat
  {
    match f
    case KITTI => 16
    case YOLO => 5
    case BUSLABEL => 9
  }

  /** The line, or the exception, the writer of format f produces for box number i, in the
      order Python evaluates its parts. */
  function SaveLine(f: Format, box: seq<int>, labels: seq<Label>, i: nat, w: int, h: int)
    : (s: Result<seq<Field>, SaveError>)
    requires w > 0 && h > 0
    ensures s.Ok? ==> |s.value| == TokenCount(f) && Detect(|s.value|) == f
    ensures s.Ok? <==> i < |labels| && (match f
                                        case KITTI => ClassName(labels[i]).Some? && |box| >= 4
                                        case YOLO => |box| >= 4
                                        case BUSLABEL => |box| >= 8)
  {
    match f
    case KITTI =>
      if i >= |labels| then Err(LabelMissing(i))
      else (match ClassName(labels[i])
            case None => Err(NoClassName(i))
            case Some(name) => if |box| < 4 then Err(ShortBox(i)) else Ok(KittiLine(name, box)))
    case YOLO =>
      if |box| < 4 then Err(ShortBox(i))
      else if i >= |labels| then Err(LabelMissing(i))
      else Ok(YoloLine(LabelText(labels[i]), ToYolo(w, h, box[..4])))
    case BUSLABEL =>
      if |box| < 8 then Err(ShortBox(i))
      else if i >= |labels| then Err(LabelMissing(i))
      else Ok(BusLine(LabelText(labels[i]), ToBusLabel(w, h, box[..8])))
  }

  /** The lines the writing loop of format f produces from box i on: all of them, or those
      before the first box that raised, and that exception. */
  datatype Emitted = Emitted(lines: seq<seq<Field>>, error: Option<SaveError>)

  function Emit(f: Format, boxes: seq<seq<int>>, labels: seq<Label>, w: int, h: int, i: nat)
    : (e: Emitted)
    requires w > 0 && h > 0 && i <= |boxes|
    decreases |boxes| - i
    ensures |e.lines| <= |boxes| - i
    ensures e.error.None? <==> |e.lines| == |boxes| - i
  {
    if i == |boxes| then Emitted([], None)
    else match SaveLine(f, boxes[i], labels, i, w, h)
      case Err(err) => Emitted([], Some(err))
      case Ok(line) =>
        var rest := Emit(f, boxes, labels, w, h, i + 1);
        Emitted([line] + rest.lines, rest.error)
  }

  /** One turn of the writing loop. */
  lemma EmitStep(f: Format, boxes: seq<seq<int>>, labels: seq<Label>, w: int, h: int, i: nat)
    requires w > 0 && h > 0 && i < |boxes|
    ensures var s := SaveLine(f, boxes[i], labels, i, w, h);
            s.Err? ==> Emit(f, boxes, labels, w, h, i) == Emitted([], Some(s.error))
    ensures var s := SaveLine(f, boxes[i], labels, i, w, h);
            var rest := Emit(f, boxes, labels, w, h, i + 1);
            s.Ok? ==> Emit(f, boxes, labels, w, h, i) == Emitted([s.value] + rest.lines, rest.error)
  {
  }

  /** The writing loop's lines are SaveLine's, box by box, and it stops at the first box
      SaveLine refuses, with that box's error. */
  lemma {:induction false} EmitReads(f: Format, boxes: seq<seq<int>>, labels: seq<Label>,
                                     w: int, h: int, i: nat)
    requires w > 0 && h > 0 && i <= |boxes|
    decreases |boxes| - i
    ensures var e := Emit(f, boxes, labels, w, h, i);
            forall k :: 0 <= k < |e.lines| ==>
              SaveLine(f, boxes[i + k], labels, i + k, w, h) == Ok(e.lines[k])
    ensures var e := Emit(f, boxes, labels, w, h, i);
            e.error.Some? ==>
              SaveLine(f, boxes[i + |e.lines|], labels, i + |e.lines|, w, h) == Err(e.error.value)
  {
    if i < |boxes| && SaveLine(f, boxes[i], labels, i, w, h).Ok? {
      EmitReads(f, boxes, labels, w, h, i + 1);
      var e := Emit(f, boxes, labels, w, h, i);
      var rest := Emit(f, boxes, labels, w, h, i + 1);
      forall k | 1 <= k < |e.lines|
        ensures SaveLine(f, boxes[i + k], labels, i + k, w, h) == Ok(e.lines[k])
      {
        assert e.lines[k] == rest.lines[k - 1] && i + k == (i + 1) + (k - 1);
      }
    }
  }

  /** What saveLabel leaves in the file: nothing, all lines in one format, or the lines
      before a box that raised an exception nothing catches. */
  datatype SaveOutcome =
    | Skipped
    | Written(format: Format, lines: seq<seq<Field>>)
    | Crashed(format: Format, lines: seq<seq<Field>>, error: SaveError)

  /** saveLabel: no label file name yet (`named` is false until an image is loaded) or no
      box means nothing is written; otherwise the radio value picks the format, and a label
      the KITTI writer cannot name makes it start over as BUSLABEL. */
  function SaveLabels(named: bool, radio: int, boxes: seq<seq<int>>, labels: seq<Label>,
                      w: int, h: int): (o: SaveOutcome)
    requires named ==> w > 0 && h > 0
    ensures o.Skipped? <==> !named || |boxes| == 0
    ensures !o.Skipped? ==>
              o.format == FormatOfRadio(radio) || (FormatOfRadio(radio) == KITTI && o.format == BUSLABEL)
    ensures o.Written? ==> |o.lines| == |boxes|
    ensures o.Crashed? ==> |o.lines| < |boxes|
  {
    if !named || |boxes| == 0 then Skipped
    else
      var f := FormatOfRadio(radio);
      var e := Emit(f, boxes, labels, w, h, 0);
      if e.error.None? then Written(f, e.lines)
      else if f == KITTI && Caught(e.error.value) then
        var b := Emit(BUSLABEL, boxes, labels, w, h, 0);
        if b.error.None? then Written(BUSLABEL, b.lines) else Crashed(BUSLABEL, b.lines, b.error.value)
      else Crashed(f, e.lines, e.error.value)
  }

  /** The radio value saveLabel leaves: 2 after the fallback from KITTI, else unchanged. */
  function RadioAfterSave(radio: int, o: SaveOutcome): int
  {
    if !o.Skipped? && o.format != FormatOfRadio(radio) then 2 else radio
  }

  // ---------------------------------------------------------------- save, then load

  /** The coordinates a format keeps: KITTI and YOLO the first four, BUSLABEL eight. */
  function KeptWidth(f: Format): nat
  {
    if f == BUSLABEL then 8 else 4
  }

  /** The record a box and its label are read back as after being written in format f. */
  function Reread(f: Format, box: seq<int>, l: Label): Record
  {
    Record(f, if |box| >= KeptWidth(f) then box[..KeptWidth(f)] else box, Reloaded(f, l))
  }

  function Rereads(f: Format, boxes: seq<seq<int>>, labels: seq<Label>): seq<Record>
    requires |boxes| <= |labels|
  {
    seq(|boxes|, i requires 0 <= i < |boxes| => Reread(f, boxes[i], labels[i]))
  }

  /** A written line, read back with exact numbers, gives the box (its first four or eight
      coordinates) and the label as Reloaded says. */
  lemma {:induction false} LineRoundTrip(f: Format, box: seq<int>, labels: seq<Label>, i: nat,
                                          w: int, h: int)
    requires w > 0 && h > 0 && SaveLine(f, box, labels, i, w, h).Ok?
    ensures i < |labels| && |box| >= KeptWidth(f)
    ensures ParseLine(ExactReader(), SaveLine(f, box, labels, i, w, h).value, w, h)
            == Ok(Reread(f, box, labels[i]))
  {
    match f
    case KITTI =>
      ClassNameRoundTrip(labels[i]);
      KittiReadBack(ClassName(labels[i]).value, box, Reloaded(KITTI, labels[i]).i, w, h);
    case YOLO =>
      YoloRoundTrip(w, h, box[..4]);
      YoloReadBack(LabelText(labels[i]), ToYolo(w, h, box[..4]), box[..4], w, h);
    case BUSLABEL =>
      BusLabelRoundTrip(w, h, box[..8]);
      BusReadBack(LabelText(labels[i]), ToBusLabel(w, h, box[..8]), box[..8], w, h);
  }

  /** A KITTI line of class k reads back as the box's first four coordinates and class k. */
  lemma KittiReadBack(name: string, box: seq<int>, k: nat, w: int, h: int)
    requires |box| >= 4 && IndexOf(CLASSES, name) == Some(k)
    ensures ParseLine(ExactReader(), KittiLine(name, box), w, h) == Ok(Record(KITTI, box[..4], ClassIndex(k)))
  {
    var line := KittiLine(name, box);
    var a := [box[0] as real, box[1] as real, box[2] as real, box[3] as real];
    KittiLineShape(name, box);
    KittiFieldsRead(name, box, line);
    KittiParse(ExactReader(), line, w, h, a, k);
    TruncOfInts(box, a);
  }

  /** The KITTI line holds the class name first and the four box numbers at tokens 4-7. */
  lemma KittiLineShape(name: string, box: seq<int>)
    requires |box| >= 4
    ensures var line := KittiLine(name, box);
            |line| == 16 && line[0] == Word(name) &&
            line[4] == Fixed(box[0] as real, 2) && line[5] == Fixed(box[1] as real, 2) &&
            line[6] == Fixed(box[2] as real, 2) && line[7] == Fixed(box[3] as real, 2)
  {
  }

  /** Fields of that shape read back as the name and the four numbers. */
  lemma KittiFieldsRead(name: string, box: seq<int>, line: seq<Field>)
    requires |box| >= 4 && |line| == 16 && line[0] == Word(name)
    requires line[4] == Fixed(box[0] as real, 2) && line[5] == Fixed(box[1] as real, 2) &&
             line[6] == Fixed(box[2] as real, 2) && line[7] == Fixed(box[3] as real, 2)
    ensures ExactReader().text(line[0]) == name
    ensures ReadNumbers(ExactReader(), line, 4, 8) ==
            Ok([box[0] as real, box[1] as real, box[2] as real, box[3] as real])
  {
    var r := ExactReader();
    var a := [box[0] as real, box[1] as real, box[2] as real, box[3] as real];
    assert r.number(line[4]) == Some(a[0]) && r.number(line[5]) == Some(a[1]);
    assert r.number(line[6]) == Some(a[2]) && r.number(line[7]) == Some(a[3]);
    ReadFour(r, line, 4, a);
  }

  /** Truncating four whole numbers gives them back. */
  lemma TruncOfInts(box: seq<int>, a: seq<real>)
    requires |box| >= 4 && a == [box[0] as real, box[1] as real, box[2] as real, box[3] as real]
    ensures [Trunc(a[0]), Trunc(a[1]), Trunc(a[2]), Trunc(a[3])] == box[..4]
  {
    TruncOfInt(box[0]); TruncOfInt(box[1]); TruncOfInt(box[2]); TruncOfInt(box[3]);
  }

  /** A KITTI line whose tokens 4-7 read as a and whose token 0 is CLASSES[k]. */
  lemma KittiParse<T>(r: Reader<T>, line: seq<T>, w: int, h: int, a: seq<real>, k: nat)
    requires |line| > 9 && ReadNumbers(r, line, 4, 8) == Ok(a)
    requires IndexOf(CLASSES, r.text(line[0])) == Some(k)
    ensures ParseLine(r, line, w, h) == Ok(Record(KITTI, [Trunc(a[0]), Trunc(a[1]), Trunc(a[2]), Trunc(a[3])], ClassIndex(k)))
  {
  }

  /** Four tokens that read as the numbers a are read as a. */
  lemma ReadFour<T>(r: Reader<T>, line: seq<T>, lo: nat, a: seq<real>)
    requires |a| == 4 && lo + 4 <= |line|
    requires r.number(line[lo]) == Some(a[0]) && r.number(line[lo + 1]) == Some(a[1]) &&
             r.number(line[lo + 2]) == Some(a[2]) && r.number(line[lo + 3]) == Some(a[3])
    ensures ReadNumbers(r, line, lo, lo + 4) == Ok(a)
  {
    assert Numeric(r, line, lo, lo + 4) by {
      forall k | lo <= k < lo + 4 ensures r.number(line[k]).Some? {
        assert k == lo || k == lo + 1 || k == lo + 2 || k == lo + 3;
      }
    }
    var v := ReadNumbers(r, line, lo, lo + 4).value;
    assert r.number(line[lo + 0]) == Some(v[0]) && r.number(line[lo + 1]) == Some(v[1]);
    assert r.number(line[lo + 2]) == Some(v[2]) && r.number(line[lo + 3]) == Some(v[3]);
    assert |v| == 4 && v[0] == a[0] && v[1] == a[1] && v[2] == a[2] && v[3] == a[3];
    assert v == a;
  }

  /** A YOLO line of y reads back as the box y stands for, with its text as label. */
  lemma YoloReadBack(text: string, y: Yolo, box: seq<int>, w: int, h: int)
    requires FromYolo(y.cx, y.cy, y.w, y.h, w, h) == box
    ensures ParseLine(ExactReader(), YoloLine(text, y), w, h) == Ok(Record(YOLO, box, ClassToken(text)))
  {
    var line := YoloLine(text, y);
    var r := ExactReader();
    assert r.number(line[1]) == Some(y.cx) && r.number(line[2]) == Some(y.cy);
    assert r.number(line[3]) == Some(y.w) && r.number(line[4]) == Some(y.h);
    assert Numeric(r, line, 1, 5);
  }

  /** A BUSLABEL line of the values v reads back as the box v stands for, with its text as
      label. */
  lemma BusReadBack(text: string, v: seq<real>, box: seq<int>, w: int, h: int)
    requires |v| == 8 && FromBusLabelSeq(v, w, h) == box
    ensures ParseLine(ExactReader(), BusLine(text, v), w, h) == Ok(Record(BUSLABEL, box, ClassToken(text)))
  {
    var line := BusLine(text, v);
    var r := ExactReader();
    assert forall k :: 1 <= k < 9 ==> r.number(line[k]) == Some(v[k - 1]);
    assert [v[0], v[1], v[2], v[3], v[4], v[5], v[6], v[7]] == v;
  }

  /** LineRoundTrip for a line already named. */
  lemma SavedLineReadsBack(f: Format, box: seq<int>, labels: seq<Label>, i: nat, w: int, h: int,
                           line: seq<Field>)
    requires w > 0 && h > 0 && SaveLine(f, box, labels, i, w, h) == Ok(line)
    ensures i < |labels| && |box| >= KeptWidth(f) && |line| == TokenCount(f)
    ensures ParseLine(ExactReader(), line, w, h) == Ok(Reread(f, box, labels[i]))
  {
    LineRoundTrip(f, box, labels, i, w, h);
  }

  /** Every line of a writing loop that finished reads back as its box and label. */
  lemma {:induction false} EmittedLinesReadBack(f: Format, boxes: seq<seq<int>>, labels: seq<Label>,
                                                w: int, h: int)
    requires w > 0 && h > 0 && Emit(f, boxes, labels, w, h, 0).error.None?
    ensures |Emit(f, boxes, labels, w, h, 0).lines| == |boxes| <= |labels|
    ensures forall i :: 0 <= i < |boxes| ==>
              |boxes[i]| >= KeptWidth(f) &&
              |Emit(f, boxes, labels, w, h, 0).lines[i]| == TokenCount(f) &&
              ParseLine(ExactReader(), Emit(f, boxes, labels, w, h, 0).lines[i], w, h)
              == Ok(Reread(f, boxes[i], labels[i]))
  {
    var lines := Emit(f, boxes, labels, w, h, 0).lines;
    EmitReads(f, boxes, labels, w, h, 0);
    forall i | 0 <= i < |boxes|
      ensures i < |labels| && |boxes[i]| >= KeptWidth(f) && |lines[i]| == TokenCount(f)
      ensures ParseLine(ExactReader(), lines[i], w, h) == Ok(Reread(f, boxes[i], labels[i]))
    {
      assert SaveLine(f, boxes[0 + i], labels, 0 + i, w, h) == Ok(lines[i]);
      SavedLineReadsBack(f, boxes[i], labels, i, w, h, lines[i]);
    }
    if |boxes| > 0 {
      var j := |boxes| - 1;
      assert SaveLine(f, boxes[0 + j], labels, 0 + j, w, h) == Ok(lines[j]);
    }
  }

  /** A file whose every line reads as a record reads, as a whole, as those records. */
  lemma {:induction false} ParseAllComplete<T>(r: Reader<T>, lines: seq<seq<T>>, w: int, h: int,
                                               recs: seq<Record>)
    requires |recs| == |lines|
    requires forall i :: 0 <= i < |lines| ==> ParseLine(r, lines[i], w, h) == Ok(recs[i])
    ensures ParseAll(r, lines, w, h) == Loaded(recs, None)
  {
    var p := ParseAll(r, lines, w, h);
    ParseAllReads(r, lines, w, h);
    assert p.records == recs;
  }

  /** A writing loop that finishes writes one line per box with its format's token count,
      and those lines read back with exact numbers, without error, as the boxes (up to what
      the format keeps) and their reloaded labels. */
  lemma EmitRoundTrip(f: Format, boxes: seq<seq<int>>, labels: seq<Label>, w: int, h: int)
    requires w > 0 && h > 0 && Emit(f, boxes, labels, w, h, 0).error.None?
    ensures |boxes| <= |labels|
    ensures forall i :: 0 <= i < |boxes| ==> |boxes[i]| >= KeptWidth(f)
    ensures var lines := Emit(f, boxes, labels, w, h, 0).lines;
            |lines| == |boxes| &&
            (forall i :: 0 <= i < |boxes| ==> |lines[i]| == TokenCount(f)) &&
            ParseAll(ExactReader(), lines, w, h) == Loaded(Rereads(f, boxes, labels), None)
  {
    EmittedLinesReadBack(f, boxes, labels, w, h);
    ParseAllComplete(ExactReader(), Emit(f, boxes, labels, w, h, 0).lines, w, h,
                     Rereads(f, boxes, labels));
  }

  /** A save that completes wrote what its format's writing loop produces, to the end. */
  lemma SaveWritten(named: bool, radio: int, boxes: seq<seq<int>>, labels: seq<Label>,
                    w: int, h: int)
    requires w > 0 && h > 0
    requires SaveLabels(named, radio, boxes, labels, w, h).Written?
    ensures var o := SaveLabels(named, radio, boxes, labels, w, h);
            Emit(o.format, boxes, labels, w, h, 0) == Emitted(o.lines, None)
  {
  }

  /** A save that completes writes one line per box, each with its format's token count
      (so each line is detected as that format again), and reading the file back with exact
      numbers gives every box and label back, up to what the format keeps, without error. */
  lemma SaveRoundTrip(named: bool, radio: int, boxes: seq<seq<int>>,
                      labels: seq<Label>, w: int, h: int)
    requires w > 0 && h > 0
    requires SaveLabels(named, radio, boxes, labels, w, h).Written?
    ensures |boxes| <= |labels|
    ensures var o := SaveLabels(named, radio, boxes, labels, w, h);
            |o.lines| == |boxes| &&
            (forall i :: 0 <= i < |boxes| ==>
               |boxes[i]| >= KeptWidth(o.format) &&
               |o.lines[i]| == TokenCount(o.format) && Detect(|o.lines[i]|) == o.format) &&
            ParseAll(ExactReader(), o.lines, w, h) == Loaded(Rereads(o.format, boxes, labels), None)
  {
    var o := SaveLabels(named, radio, boxes, labels, w, h);
    SaveWritten(named, radio, boxes, labels, w, h);
    EmitRoundTrip(o.format, boxes, labels, w, h);
  }

  /** In a session every box has a label and 4 or 8 coordinates. Then the YOLO writer
      always finishes. */
  lemma {:induction false} YoloEmitFinishes(boxes: seq<seq<int>>, labels: seq<Label>, w: int, h: int)
    requires w > 0 && h > 0 && |boxes| <= |labels|
    requires forall i :: 0 <= i < |boxes| ==> |boxes[i]| == 4 || |boxes[i]| == 8
    ensures Emit(YOLO, boxes, labels, w, h, 0).error.None?
  {
    EmitReads(YOLO, boxes, labels, w, h, 0);
  }

  /** ... the KITTI writer finishes exactly when every label names a class, and otherwise
      stops at a label it cannot name, an exception its try block catches ... */
  lemma {:induction false} KittiEmitOutcome(boxes: seq<seq<int>>, labels: seq<Label>, w: int, h: int)
    requires w > 0 && h > 0 && |boxes| <= |labels|
    requires forall i :: 0 <= i < |boxes| ==> |boxes[i]| == 4 || |boxes[i]| == 8
    ensures var e := Emit(KITTI, boxes, labels, w, h, 0);
            (e.error.None? <==> forall i :: 0 <= i < |boxes| ==> ClassName(labels[i]).Some?) &&
            (e.error.Some? ==>
               e.error.value == NoClassName(|e.lines|) && |e.lines| < |boxes| &&
               ClassName(labels[|e.lines|]).None? &&
               forall i :: 0 <= i < |e.lines| ==> ClassName(labels[i]).Some?)
  {
    var e := Emit(KITTI, boxes, labels, w, h, 0);
    EmitReads(KITTI, boxes, labels, w, h, 0);
    forall i | 0 <= i < |e.lines| ensures ClassName(labels[i]).Some? {
      assert SaveLine(KITTI, boxes[0 + i], labels, 0 + i, w, h) == Ok(e.lines[i]);
    }
    if e.error.Some? {
      var j := |e.lines|;
      assert SaveLine(KITTI, boxes[0 + j], labels, 0 + j, w, h).Err?;
      assert ClassName(labels[j]).None?;
    }
  }

  /** ... and the BUSLABEL writer finishes exactly when every box is a quadrilateral, and
      otherwise stops at the first four-coordinate box. */
  lemma {:induction false} BusEmitOutcome(boxes: seq<seq<int>>, labels: seq<Label>, w: int, h: int)
    requires w > 0 && h > 0 && |boxes| <= |labels|
    requires forall i :: 0 <= i < |boxes| ==> |boxes[i]| == 4 || |boxes[i]| == 8
    ensures var e := Emit(BUSLABEL, boxes, labels, w, h, 0);
            (e.error.None? <==> forall i :: 0 <= i < |boxes| ==> |boxes[i]| == 8) &&
            (e.error.Some? ==>
               e.error.value == ShortBox(|e.lines|) && |e.lines| < |boxes| &&
               |boxes[|e.lines|]| == 4 &&
               forall i :: 0 <= i < |e.lines| ==> |boxes[i]| == 8)
  {
    var e := Emit(BUSLABEL, boxes, labels, w, h, 0);
    EmitReads(BUSLABEL, boxes, labels, w, h, 0);
    forall i | 0 <= i < |e.lines| ensures |boxes[i]| == 8 {
      assert SaveLine(BUSLABEL, boxes[0 + i], labels, 0 + i, w, h) == Ok(e.lines[i]);
    }
    if e.error.Some? {
      var j := |e.lines|;
      assert SaveLine(BUSLABEL, boxes[0 + j], labels, 0 + j, w, h).Err?;
    }
  }

  /** What saving can do in a session: nothing exactly under the two guards; the radio's
      format, or BUSLABEL after the KITTI writer met a label it cannot name; and the only
      exception that escapes is the BUSLABEL writer meeting a four-coordinate box. */
  lemma SaveInSession(named: bool, radio: int, boxes: seq<seq<int>>,
                      labels: seq<Label>, w: int, h: int)
    requires named ==> w > 0 && h > 0
    requires |boxes| <= |labels|
    requires forall i :: 0 <= i < |boxes| ==> |boxes[i]| == 4 || |boxes[i]| == 8
    ensures var o := SaveLabels(named, radio, boxes, labels, w, h);
            (o.Skipped? <==> !named || |boxes| == 0) &&
            (!o.Skipped? && FormatOfRadio(radio) != KITTI ==> o.format == FormatOfRadio(radio)) &&
            (!o.Skipped? && FormatOfRadio(radio) == YOLO ==> o.Written?) &&
            (!o.Skipped? && FormatOfRadio(radio) == KITTI ==>
               (o.format == KITTI <==> forall i :: 0 <= i < |boxes| ==> ClassName(labels[i]).Some?) &&
               (o.format == KITTI ==> o.Written?) &&
               (o.format == KITTI || o.format == BUSLABEL)) &&
            (!o.Skipped? && o.format == BUSLABEL ==>
               (o.Written? <==> forall i :: 0 <= i < |boxes| ==> |boxes[i]| == 8)) &&
            (o.Crashed? ==>
               o.format == BUSLABEL && o.error == ShortBox(|o.lines|) &&
               |o.lines| < |boxes| && |boxes[|o.lines|]| == 4)
  {
    if named && |boxes| > 0 {
      YoloEmitFinishes(boxes, labels, w, h);
      KittiEmitOutcome(boxes, labels, w, h);
      BusEmitOutcome(boxes, labels, w, h);
    }
  }
}
