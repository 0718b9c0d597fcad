/**
 * The data-shaping part of the layout extractor: reading a booth number out of
 * OCR text, keeping the contours that look like numbered booths, centring and
 * sorting them, and choosing the table format from the output path. The image
 * processing (thresholding, contour finding, polygon approximation, Tesseract)
 * is not modelled: each contour arrives as a record of what those steps report.
 */
module LayoutExtraction {
  import opened Common
  import opened Text

  // ---------------------------------------------------------------------
  // ocr_number
  // ---------------------------------------------------------------------

  /** `"".join(ch for ch in text if ch.isdigit())`. */
  function KeepDigits(text: string): (ds: string)
    ensures AllDigits(ds) && |ds| <= |text|
  {
    if text == [] then []
    else
      var rest := KeepDigits(text[..|text| - 1]);
      var ch := text[|text| - 1];
      if IsDigit(ch) then rest + [ch] else rest
  }

  /** `int(digits) if digits else None`. */
  function OcrNumber(text: string): Option<nat>
  {
    var ds := KeepDigits(text);
    if ds == [] then None else Some(DecimalValue(ds))
  }

  /** Filtering digits distributes over concatenation. */
  lemma {:induction false} KeepDigitsAppend(a: string, b: string)
    ensures KeepDigits(a + b) == KeepDigits(a) + KeepDigits(b)
  {
    if b != [] {
      assert (a + b)[..|a + b| - 1] == a + b[..|b| - 1];
      KeepDigitsAppend(a, b[..|b| - 1]);
    } else {
      assert a + b == a;
    }
  }

  /** A string of digits is kept whole. */
  lemma {:induction false} KeepDigitsOfDigits(ds: string)
    requires AllDigits(ds)
    ensures KeepDigits(ds) == ds
  {
    if ds != [] {
      KeepDigitsOfDigits(ds[..|ds| - 1]);
    }
  }

  /** A string without digits keeps nothing. */
  lemma {:induction false} KeepDigitsOfNonDigits(text: string)
    requires forall k :: 0 <= k < |text| ==> !IsDigit(text[k])
    ensures KeepDigits(text) == []
  {
    if text != [] {
      KeepDigitsOfNonDigits(text[..|text| - 1]);
    }
  }

  /** No number is read exactly when the text holds no digit. */
  lemma {:induction false} OcrNoneIffNoDigit(text: string)
    ensures OcrNumber(text) == None <==> forall k :: 0 <= k < |text| ==> !IsDigit(text[k])
  {
    if forall k :: 0 <= k < |text| ==> !IsDigit(text[k]) {
      KeepDigitsOfNonDigits(text);
    } else {
      var k :| 0 <= k < |text| && IsDigit(text[k]);
      KeepDigitsAppend(text[..k], text[k..]);
      KeepDigitsAppend([text[k]], text[k + 1..]);
      assert text == text[..k] + text[k..];
      assert text[k..] == [text[k]] + text[k + 1..];
      assert KeepDigits([text[k]]) == [text[k]] by {
        assert [text[k]][..0] == [];
      }
    }
  }

  /** A non-digit character anywhere in the text changes nothing. */
  lemma OcrIgnoresNonDigit(a: string, ch: char, b: string)
    requires !IsDigit(ch)
    ensures OcrNumber(a + [ch] + b) == OcrNumber(a + b)
  {
    KeepDigitsAppend(a + [ch], b);
    KeepDigitsAppend(a, [ch]);
    KeepDigitsAppend(a, b);
    assert KeepDigits([ch]) == [] by {
      assert [ch][..0] == [];
    }
  }

  /** The decimal text of n, with any digit-free noise around it, reads as n. */
  lemma OcrReadsDecimal(before: string, n: nat, after: string)
    requires forall k :: 0 <= k < |before| ==> !IsDigit(before[k])
    requires forall k :: 0 <= k < |after| ==> !IsDigit(after[k])
    ensures OcrNumber(before + NatToDecimal(n) + after) == Some(n)
  {
    var s := NatToDecimal(n);
    KeepDigitsAppend(before + s, after);
    KeepDigitsAppend(before, s);
    KeepDigitsOfNonDigits(before);
    KeepDigitsOfNonDigits(after);
    KeepDigitsOfDigits(s);
    DecimalRoundTrip(n);
    assert [] + s + [] == s;
  }

  // ---------------------------------------------------------------------
  // extract_booths
  // ---------------------------------------------------------------------

  /** `cv2.boundingRect(approx)`: integer corner, width and height. */
  datatype Rect = Rect(x: int, y: int, w: int, h: int)

  /**
   * What the image processing reports for one external contour: its area, the
   * vertex count of its polygon approximation, the bounding rectangle of that
   * approximation, and Tesseract's text for the rectangle's crop.
   */
  datatype Contour = Contour(area: real, vertices: nat, rect: Rect, ocrText: string)

  /** A row of the extracted table: booth number and centre. */
  datatype DetectedBooth = DetectedBooth(booth: nat, x: real, y: real)

  datatype ExtractError = NoBoothsDetected

  /** The centre `(x + w / 2.0, y + h / 2.0)` of a rectangle. */
  function Centre(r: Rect): (real, real)
  {
    (r.x as real + r.w as real / 2.0, r.y as real + r.h as real / 2.0)
  }

  /** The booth a contour yields, if it passes the area, shape and OCR tests. */
  function Candidate(c: Contour, minArea: real, maxArea: real): Option<DetectedBooth>
  {
    if c.area < minArea || c.area > maxArea then None
    else if c.vertices != 4 then None
    else match OcrNumber(c.ocrText)
      case None => None
      case Some(id) => Some(DetectedBooth(id, Centre(c.rect).0, Centre(c.rect).1))
  }

  /** The booths collected by the contour loop, in contour order. */
  function KeptBooths(contours: seq<Contour>, minArea: real, maxArea: real): seq<DetectedBooth>
  {
    if contours == [] then []
    else
      var rest := KeptBooths(contours[..|contours| - 1], minArea, maxArea);
      match Candidate(contours[|contours| - 1], minArea, maxArea)
      case None => rest
      case Some(d) => rest + [d]
  }

  /**
   * A contour is kept exactly when min_area <= area <= max_area (both ends
   * included), its approximation has four vertices and its text holds a
   * digit; the booth then carries the number read and the rectangle's centre.
   */
  lemma CandidateMeaning(c: Contour, minArea: real, maxArea: real, d: DetectedBooth)
    ensures Candidate(c, minArea, maxArea) == Some(d) <==>
              && minArea <= c.area <= maxArea
              && c.vertices == 4
              && OcrNumber(c.ocrText) == Some(d.booth)
              && (d.x, d.y) == Centre(c.rect)
  {
  }

  lemma {:induction false} KeptMembership(contours: seq<Contour>, minArea: real, maxArea: real)
    ensures forall d :: d in KeptBooths(contours, minArea, maxArea) <==>
              exists k :: 0 <= k < |contours| && Candidate(contours[k], minArea, maxArea) == Some(d)
  {
    if contours != [] {
      var p := contours[..|contours| - 1];
      KeptMembership(p, minArea, maxArea);
      assert contours == p + [contours[|contours| - 1]];
    }
  }

  predicate SortedByBooth(s: seq<DetectedBooth>)
  {
    forall k, l :: 0 <= k < l < |s| ==> s[k].booth <= s[l].booth
  }

  function Insert(d: DetectedBooth, s: seq<DetectedBooth>): (r: seq<DetectedBooth>)
    requires SortedByBooth(s)
    ensures SortedByBooth(r) && multiset(r) == multiset(s) + multiset{d}
  {
    if s == [] then [d]
    else if d.booth <= s[0].booth then
      SortedCons(d, s);
      [d] + s
    else
      var rest := Insert(d, s[1..]);
      assert s == [s[0]] + s[1..];
      forall x | x in rest ensures s[0].booth <= x.booth {
        assert x in multiset(rest);
        if x != d {
          assert x in multiset(s[1..]);
        }
      }
      SortedCons(s[0], rest);
      [s[0]] + rest
  }

  lemma SortedCons(d: DetectedBooth, s: seq<DetectedBooth>)
    requires SortedByBooth(s) && forall x :: x in s ==> d.booth <= x.booth
    ensures SortedByBooth([d] + s)
  {
    forall k, l | 0 <= k < l < |[d] + s| ensures ([d] + s)[k].booth <= ([d] + s)[l].booth {
      assert ([d] + s)[l] == s[l - 1] && s[l - 1] in s;
      if k > 0 {
        assert ([d] + s)[k] == s[k - 1];
      }
    }
  }

  /** `sort_values("booth")`: ascending booth numbers, every row kept (the order of equal numbers is left open). */
  function SortByBooth(s: seq<DetectedBooth>): (r: seq<DetectedBooth>)
    ensures SortedByBooth(r) && multiset(r) == multiset(s)
  {
    if s == [] then []
    else
      var r := Insert(s[|s| - 1], SortByBooth(s[..|s| - 1]));
      assert s == s[..|s| - 1] + [s[|s| - 1]];
      r
  }

  /**
   * `extract_booths` after the image processing: the contour loop, the
   * "nothing detected" error, and the sort by booth number. Duplicate numbers
   * are kept.
   */
  method ExtractBooths(contours: seq<Contour>, minArea: real, maxArea: real)
    returns (result: Result<seq<DetectedBooth>, ExtractError>)
    ensures result.Failure? <==> KeptBooths(contours, minArea, maxArea) == []
    ensures result.Success? ==>
              SortedByBooth(result.value) && multiset(result.value) == multiset(KeptBooths(contours, minArea, maxArea))
  {
    var booths: seq<DetectedBooth> := [];
    var k := 0;
    while k < |contours|
      invariant 0 <= k <= |contours|
      invariant booths == KeptBooths(contours[..k], minArea, maxArea)
    {
      var cnt := contours[k];
      assert contours[..k + 1][..k] == contours[..k];
      k := k + 1;
      if cnt.area < minArea || cnt.area > maxArea {
        continue;
      }
      if cnt.vertices != 4 {
        continue;
      }
      var boothId := OcrNumber(cnt.ocrText);
      if boothId.None? {
        continue;
      }
      var cx, cy := cnt.rect.x as real + cnt.rect.w as real / 2.0, cnt.rect.y as real + cnt.rect.h as real / 2.0;
      booths := booths + [DetectedBooth(boothId.value, cx, cy)];
    }
    assert contours[..k] == contours;
    if booths == [] {
      return Failure(NoBoothsDetected);
    }
    return Success(SortByBooth(booths));
  }

  // ---------------------------------------------------------------------
  // save_table
  // ---------------------------------------------------------------------

  datatype TableFormat = Csv | Excel

  /** CSV when the output file's lower-cased suffix is ".csv", Excel otherwise. */
  function SaveFormat(outPath: string): TableFormat
  {
    if Lower(Suffix(Name(outPath))) == ".csv" then Csv else Excel
  }

  /**
   * The table is written as CSV exactly when the file name is longer than
   * ".csv" and ends with ".csv" in any letter case.
   */
  lemma SaveFormatByEnding(outPath: string)
    ensures var name := Name(outPath);
      SaveFormat(outPath) == Csv <==> |name| > 4 && Lower(name[|name| - 4..]) == ".csv"
  {
    ExtensionMatch(Name(outPath), ".csv");
  }

  /** A file named just ".csv" has no suffix, so it is written as Excel. */
  lemma DotfileIsExcel(outPath: string)
    requires Name(outPath) == ".csv"
    ensures SaveFormat(outPath) == Excel
  {
    SaveFormatByEnding(outPath);
  }
}
