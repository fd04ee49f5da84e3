/** `Extractor` (src/services/extractor.py): rasterise a PDF into page images,
    detect regions on each page, OCR the confident ones, and clean up the
    image directory. YOLO, PIL, EasyOCR and pdf2image are oracles; what is
    modelled is the selection, the cropping box, the page naming, the
    joining of OCR text and the directory bookkeeping of `run`. */
module Extractor {
  import opened Common
  import opened Strings

  // ---------------------------------------------------------------------------
  // Detector and OCR interface
  // ---------------------------------------------------------------------------

  /** An `xyxy` box as the detector reports it. */
  datatype Box = Box(x1: real, y1: real, x2: real, y2: real)

  /** The integer box handed to `Image.crop`. */
  datatype CropBox = CropBox(left: int, upper: int, right: int, lower: int)

  /** One detection: box, confidence and class label. */
  datatype Detection = Detection(xyxy: Box, conf: real, cls: int)

  /** One EasyOCR `readtext` item: corner points, text, score. */
  datatype OcrHit = OcrHit(corners: seq<real>, text: string, score: real)

  /** What `prediction` returns: the detections and the opened page image. */
  datatype Prediction<Img> = Prediction(boxes: seq<Detection>, image: Img)

  /** The vision capabilities, as total functions; `None` means the call raised. */
  datatype Vision<!Img> = Vision(
    predict: (string, real, real) -> Option<Prediction<Img>>,
    crop: (Img, CropBox) -> Option<Img>,
    readText: Img -> Option<seq<OcrHit>>)

  /** The detector thresholds `conf_thrs` and `iou_thrs`. */
  datatype Settings = Settings(confThrs: real, iouThrs: real)

  // ---------------------------------------------------------------------------
  // extract_boxes
  // ---------------------------------------------------------------------------

  /** `n` is `x` truncated toward zero: within one of `x`, on the side of zero. */
  predicate TruncatesTo(x: real, n: int) {
    && (0.0 <= x ==> n as real <= x < n as real + 1.0)
    && (x < 0.0 ==> n as real - 1.0 < x <= n as real)
  }

  /** Python's `int(x)` on a float: truncation toward zero. */
  function Trunc(x: real): (r: int)
    ensures TruncatesTo(x, r)
  {
    if x >= 0.0 then x.Floor else -((-x).Floor)
  }

  /** `x1, y1, x2, y2 = map(int, xyxy)`. */
  function CropOf(b: Box): (r: CropBox)
    ensures TruncatesTo(b.x1, r.left) && TruncatesTo(b.y1, r.upper)
    ensures TruncatesTo(b.x2, r.right) && TruncatesTo(b.y2, r.lower)
  {
    CropBox(Trunc(b.x1), Trunc(b.y1), Trunc(b.x2), Trunc(b.y2))
  }

  /** A detection survives the `conf_value < conf_thrs` skip. */
  predicate Kept(d: Detection, confThrs: real) {
    !(d.conf < confThrs)
  }

  /** Crop the page to the detection's truncated box and OCR the crop. */
  function ReadRegion<Img>(img: Img, d: Detection, v: Vision<Img>): Option<seq<OcrHit>> {
    match v.crop(img, CropOf(d.xyxy))
    case None => None
    case Some(region) => v.readText(region)
  }

  /** `[text for _, text, _ in ocr_result]`. */
  function Texts(hits: seq<OcrHit>): (r: seq<string>)
    ensures |r| == |hits|
    ensures forall i :: 0 <= i < |hits| ==> r[i] == hits[i].text
  {
    seq(|hits|, i requires 0 <= i < |hits| => hits[i].text)
  }

  /** Processing this detection raises (crop or OCR failed). */
  predicate Raises<Img>(img: Img, d: Detection, confThrs: real, v: Vision<Img>) {
    Kept(d, confThrs) && ReadRegion(img, d, v).None?
  }

  /** This detection gets an entry: kept, and OCR found some text. */
  predicate Yields<Img>(img: Img, d: Detection, confThrs: real, v: Vision<Img>) {
    Kept(d, confThrs) && ReadRegion(img, d, v).Some? && |ReadRegion(img, d, v).value| > 0
  }

  /** The entry text: the OCR texts joined with newlines, in OCR order. */
  function EntryText<Img>(img: Img, d: Detection, v: Vision<Img>): string {
    match ReadRegion(img, d, v)
    case Some(hits) => JoinLines(Texts(hits))
    case None => ""
  }

  /** `extract_boxes(image, detections)`: `None` when it raises, otherwise
      the map from ORIGINAL detection index to joined OCR text, holding an
      entry exactly for the kept detections whose OCR returned something. */
  function ExtractBoxes<Img>(img: Img, dets: seq<Detection>, confThrs: real, v: Vision<Img>)
    : (r: Option<map<nat, string>>)
    ensures r.None? <==> exists i :: 0 <= i < |dets| && Raises(img, dets[i], confThrs, v)
    ensures r.Some? ==> forall i: nat :: i in r.value <==> i < |dets| && Yields(img, dets[i], confThrs, v)
    ensures r.Some? ==> forall i: nat :: i in r.value ==> r.value[i] == EntryText(img, dets[i], v)
    decreases |dets|
  {
    if |dets| == 0 then Some(map[])
    else
      var n := |dets| - 1;
      var earlier := ExtractBoxes(img, dets[..n], confThrs, v);
      assert forall i :: 0 <= i < n ==> dets[..n][i] == dets[i];
      if earlier.None? then None
      else if dets[n].conf < confThrs then earlier
      else
        match ReadRegion(img, dets[n], v)
        case None => None
        case Some(hits) =>
          if |hits| > 0 then Some(earlier.value[n := JoinLines(Texts(hits))])
          else earlier
  }

  /** Selection never looks at the class label: detections that agree on
      boxes and confidences give the same result whatever their labels. */
  lemma {:induction false} SelectionIgnoresLabel<Img>(img: Img, dets: seq<Detection>, others: seq<Detection>,
                                                      confThrs: real, v: Vision<Img>)
    requires |dets| == |others|
    requires forall i :: 0 <= i < |dets| ==> dets[i].xyxy == others[i].xyxy && dets[i].conf == others[i].conf
    ensures ExtractBoxes(img, dets, confThrs, v) == ExtractBoxes(img, others, confThrs, v)
    decreases |dets|
  {
    if |dets| > 0 {
      var n := |dets| - 1;
      SelectionIgnoresLabel(img, dets[..n], others[..n], confThrs, v);
      assert ReadRegion(img, dets[n], v) == ReadRegion(img, others[n], v);
    }
  }

  /** Every entry of a kept region splits back into its OCR texts, when no
      OCR text itself holds a newline. */
  lemma EntrySplitsIntoTexts<Img>(img: Img, dets: seq<Detection>, confThrs: real, v: Vision<Img>, i: nat)
    requires ExtractBoxes(img, dets, confThrs, v).Some?
    requires i in ExtractBoxes(img, dets, confThrs, v).value
    requires forall h :: h in ReadRegion(img, dets[i], v).value ==> '\n' !in h.text
    ensures SplitLines(ExtractBoxes(img, dets, confThrs, v).value[i]) == Texts(ReadRegion(img, dets[i], v).value)
  {
    var hits := ReadRegion(img, dets[i], v).value;
    forall j | 0 <= j < |Texts(hits)|
      ensures '\n' !in Texts(hits)[j]
    {
      assert hits[j] in hits;
    }
    SplitJoinLines(Texts(hits));
  }

  // ---------------------------------------------------------------------------
  // convert_pdf2img
  // ---------------------------------------------------------------------------

  /** `f"page_{k}.png"`. */
  /** `f"page_{k}.png"`: the prefix, the decimal digits of `k`, the suffix. */
  function PageName(k: nat): (r: string)
    ensures |r| >= 10 && r[..5] == "page_" && r[|r| - 4..] == ".png"
    ensures r[5..|r| - 4] == Decimal(k)
  {
    "page_" + Decimal(k) + ".png"
  }

  /** The page number a page image name carries, if it has the page shape. */
  function PageNumber(name: string): Option<nat> {
    if |name| >= 9 && name[..5] == "page_" && name[|name| - 4..] == ".png"
       && AllDigits(name[5..|name| - 4])
    then Some(DecimalValue(name[5..|name| - 4]))
    else None
  }

  /** A page name gives back the page number it was made from. */
  lemma PageNumberOfName(k: nat)
    ensures PageNumber(PageName(k)) == Some(k)
  {
    var name := PageName(k);
    assert name[5..|name| - 4] == Decimal(k);
    DecimalRoundTrip(k);
  }

  /** The names of the pages of an `n`-page document, in page order. */
  function PageNames(n: nat): seq<string> {
    seq(n, i requires 0 <= i < n => PageName(i + 1))
  }

  /** Page `i` (0-based) of the rendering is saved as `page_{i+1}.png`, and no
      two pages share a name. */
  lemma PageNamesDistinct(n: nat)
    ensures |PageNames(n)| == n
    ensures forall i :: 0 <= i < n ==> PageNumber(PageNames(n)[i]) == Some(i + 1)
    ensures forall i, j :: 0 <= i < j < n ==> PageNames(n)[i] != PageNames(n)[j]
  {
    forall i | 0 <= i < n
      ensures PageNumber(PageNames(n)[i]) == Some(i + 1)
    {
      PageNumberOfName(i + 1);
    }
  }

  /** The set of page image names of an `n`-page document. */
  function PageSet(n: nat): set<string> {
    set k | 1 <= k <= n :: PageName(k)
  }

  /** What pdf2image and the save loop did: all `pages` rendered and saved,
      rendering raised, or saving raised after `saved` pages were written. */
  datatype Conversion = Rendered(pages: nat) | RenderFailed | SaveFailed(saved: nat)

  /** The directory after `convert_pdf2img`, and whether it returned `True`. */
  datatype Converted = Converted(ok: bool, dir: set<string>)

  function Written(c: Conversion): nat {
    match c
    case Rendered(n) => n
    case RenderFailed => 0
    case SaveFailed(n) => n
  }

  /** `convert_pdf2img(pdf_path)`. */
  function ConvertPdf2Img(dir: set<string>, c: Conversion): (r: Converted)
    ensures r.ok <==> c.Rendered?
    ensures forall f :: f in r.dir <==> f in dir || (PageNumber(f).Some? && 1 <= PageNumber(f).value <= Written(c) && f == PageName(PageNumber(f).value))
  {
    forall f | f in PageSet(Written(c))
      ensures PageNumber(f).Some? && 1 <= PageNumber(f).value <= Written(c)
      ensures f == PageName(PageNumber(f).value)
    {
      var k :| 1 <= k <= Written(c) && f == PageName(k);
      PageNumberOfName(k);
    }
    forall f | PageNumber(f).Some? && 1 <= PageNumber(f).value <= Written(c) && f == PageName(PageNumber(f).value)
      ensures f in PageSet(Written(c))
    {
      var k := PageNumber(f).value;
      assert f == PageName(k);
    }
    Converted(c.Rendered?, dir + PageSet(Written(c)))
  }

  // ---------------------------------------------------------------------------
  // run
  // ---------------------------------------------------------------------------

  /** `prediction` followed by `extract_boxes` for one page image. */
  function PageResult<Img>(name: string, s: Settings, v: Vision<Img>): Option<map<nat, string>> {
    match v.predict(name, s.confThrs, s.iouThrs)
    case None => None
    case Some(p) => ExtractBoxes(p.image, p.boxes, s.confThrs, v)
  }

  /** Every page of a successful rendering goes through prediction and OCR. */
  predicate AllPagesSucceed<Img>(pages: nat, s: Settings, v: Vision<Img>) {
    forall k :: 1 <= k <= pages ==> PageResult(PageName(k), s, v).Some?
  }

  /** Every page's detection step succeeds; only `extract_boxes` can still raise. */
  predicate AllPredictionsSucceed<Img>(pages: nat, s: Settings, v: Vision<Img>) {
    forall k :: 1 <= k <= pages ==> v.predict(PageName(k), s.confThrs, s.iouThrs).Some?
  }

  /** `run(pdf_file)` over an output directory holding the regular files
      `dir`. The directory is listed in an arbitrary order, so the loop
      picks its next file freely; every property holds for every order.
      Returns the result (`None` on every failure) and the directory after. */
  method Run<Img>(pdfExists: bool, dir: set<string>, conv: Conversion, s: Settings, v: Vision<Img>)
    returns (result: Option<map<string, map<nat, string>>>, after: set<string>)
    ensures result.Some? <==> pdfExists && conv.Rendered? && AllPagesSucceed(conv.pages, s, v)
    ensures result.Some? ==> result.value.Keys == PageSet(conv.pages)
    ensures result.Some? ==> forall f :: f in result.value ==> PageResult(f, s, v) == Some(result.value[f])
    ensures result.Some? ==> after == {}
    ensures !pdfExists ==> after == {}
    ensures pdfExists && !conv.Rendered? ==> after == PageSet(Written(conv))
    ensures pdfExists && conv.Rendered? ==> after <= PageSet(conv.pages)
    ensures (pdfExists && conv.Rendered? && AllPredictionsSucceed(conv.pages, s, v)
             && !AllPagesSucceed(conv.pages, s, v)) ==> result.None? && after == {}
    ensures (pdfExists && conv.Rendered? && result.None? && after != {})
            ==> exists f :: f in after && v.predict(f, s.confThrs, s.iouThrs).None?
    ensures (pdfExists && conv.Rendered? && after != {})
            ==> forall f :: f in PageSet(conv.pages) - after ==> PageResult(f, s, v).Some?
    ensures (pdfExists && conv.Rendered? && !AllPredictionsSucceed(conv.pages, s, v)
             && (forall k :: 1 <= k <= conv.pages && v.predict(PageName(k), s.confThrs, s.iouThrs).Some?
                             ==> PageResult(PageName(k), s, v).Some?))
            ==> result.None? && after != {}
  {
    if !pdfExists {
      // FileNotFoundError: the handler deletes every regular file
      return None, {};
    }
    // clear the output directory, then render the pages into it
    var converted := ConvertPdf2Img({}, conv);
    var d := converted.dir;
    assert d == PageSet(Written(conv));
    if !converted.ok {
      return None, d;
    }
    var pages := PageSet(conv.pages);
    // `d` is also the work list: each processed page image is removed
    var resp: map<string, map<nat, string>> := map[];
    while d != {}
      invariant d <= pages
      invariant resp.Keys == pages - d
      invariant forall f :: f in resp ==> PageResult(f, s, v) == Some(resp[f])
      decreases d
    {
      var name :| name in d;
      var k :| 1 <= k <= conv.pages && name == PageName(k);
      var p := v.predict(name, s.confThrs, s.iouThrs);
      if p.None? {
        assert PageResult(PageName(k), s, v).None?;
        return None, d;
      }
      var boxes := ExtractBoxes(p.value.image, p.value.boxes, s.confThrs, v);
      if boxes.None? {
        // extract_boxes re-raised: the handler deletes every regular file
        assert PageResult(PageName(k), s, v).None?;
        return None, {};
      }
      resp := resp[name := boxes.value];
      d := d - {name};
    }
    forall k | 1 <= k <= conv.pages
      ensures PageResult(PageName(k), s, v).Some?
    {
      assert PageName(k) in resp;
    }
    return Some(resp), d;
  }
}
