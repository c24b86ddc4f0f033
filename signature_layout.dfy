/**
 * The visual signature box `signPdf` draws on the first page: a fixed 170 x 100 template
 * placed 50 units from the left edge and 50 units below the top edge, with a header bar,
 * a check mark, a name panel, a separator line, two or three detail lines and a badge.
 */
module SignatureLayout {
  import opened Wrappers
  import opened JsStrings
  import opened PdfModel
  import opened Sublists

  const BoxWidth: real := 170.0
  const BoxHeight: real := 100.0
  const BoxX: real := 50.0
  /** Gap between the top of the page and the top of the box. */
  const TopMargin: real := 50.0
  /** Vertical step between two detail lines. */
  const LineHeight: real := 8.0

  /** Bottom edge of the box on a page of the given height. */
  function BoxY(pageHeight: real): real {
    pageHeight - BoxHeight - TopMargin
  }

  /** An axis-aligned region: left, bottom, right, top. */
  datatype Region = Region(left: real, bottom: real, right: real, top: real)

  predicate Within(inner: Region, outer: Region) {
    outer.left <= inner.left && inner.right <= outer.right
    && outer.bottom <= inner.bottom && inner.top <= outer.top
  }

  /** The region an operation covers; for a text, its anchor point (glyph widths are not modelled). */
  function Extent(op: DrawOp): Region {
    match op
    case Rectangle(x, y, w, h, _, _, _) => Region(x, y, x + w, y + h)
    case Text(_, x, y, _, _) => Region(x, y, x, y)
    case Circle(x, y, r, _) => Region(x - r, y - r, x + r, y + r)
    case Line(x1, y1, x2, y2, _, _) =>
      Region(if x1 <= x2 then x1 else x2, if y1 <= y2 then y1 else y2,
             if x1 <= x2 then x2 else x1, if y1 <= y2 then y2 else y1)
  }

  /** The signature box on a page of the given height. */
  function BoxRegion(pageHeight: real): (r: Region)
    ensures r.right - r.left == BoxWidth && r.top - r.bottom == BoxHeight
    ensures r.left == 50.0 && r.top == pageHeight - 50.0
  {
    Region(BoxX, BoxY(pageHeight), BoxX + BoxWidth, BoxY(pageHeight) + BoxHeight)
  }

  /** The box lies on a `width` x `height` page exactly when the page is at least 220 x 150;
      the component draws it without checking. */
  lemma BoxFitsPageIff(width: real, height: real)
    ensures Within(BoxRegion(height), Region(0.0, 0.0, width, height))
            <==> height >= 150.0 && width >= 220.0
  {
  }

  /** Keeps the non-empty entries, in order (`.filter(line => line !== '')`). */
  function DropEmpty(lines: seq<string>): (r: seq<string>)
    ensures |r| <= |lines|
    ensures forall i :: 0 <= i < |r| ==> r[i] != "" && r[i] in lines
    ensures forall l :: multiset(r)[l] == if l == "" then 0 else multiset(lines)[l]
    ensures IsSublist(r, lines)
  {
    if lines == [] then []
    else
      var rest := DropEmpty(lines[1..]);
      assert IsSublist(rest, lines) by {
        assert rest == [] || IsSublist(rest, lines[1..]);
      }
      assert multiset(lines) == multiset([lines[0]]) + multiset(lines[1..]) by {
        assert lines == [lines[0]] + lines[1..];
      }
      if lines[0] == "" then
        assert [] + rest == rest;
        [] + rest
      else
        assert ([lines[0]] + rest)[1..] == rest;
        [lines[0]] + rest
  }

  /** The detail lines under the name panel. */
  function DetailLines(signerName: string, date: string, validTo: string): seq<string> {
    DropEmpty(["Signed by: " + signerName, "Date: " + date,
               if validTo != "" then "Valid until: " + validTo else ""])
  }

  /** Two or three lines, in this order; the third exactly when `validTo` is known. */
  lemma DetailLinesContent(signerName: string, date: string, validTo: string)
    ensures DetailLines(signerName, date, validTo)
            == ["Signed by: " + signerName, "Date: " + date]
               + (if validTo != "" then ["Valid until: " + validTo] else [])
  {
    var third := if validTo != "" then "Valid until: " + validTo else "";
    var lines := ["Signed by: " + signerName, "Date: " + date, third];
    assert |lines[0]| > 0 && |lines[1]| > 0;
    assert lines[1..][1..][1..] == [];
    assert DropEmpty(lines[1..][1..]) == if third == "" then [] else [third];
    assert DropEmpty(lines[1..]) == [lines[1]] + DropEmpty(lines[1..][1..]);
  }

  /** How one detail line is drawn: a line that starts with "Signed by:" is bold (size 7, black). */
  function DetailLineOp(line: string, y: real): DrawOp {
    var bold := StartsWith(line, "Signed by:");
    Text(line, BoxX + 8.0, y, if bold then 7.0 else 6.0,
         if bold then Rgb(0.0, 0.0, 0.0) else Rgb(0.3, 0.3, 0.3))
  }

  /** Baseline of the detail line with the given index. */
  function DetailLineY(boxY: real, index: nat): real {
    boxY + BoxHeight - 58.0 - LineHeight * index as real
  }

  /** The detail lines drawn one below the other. */
  function DetailLineOps(lines: seq<string>, boxY: real): (r: seq<DrawOp>)
    ensures |r| == |lines|
  {
    seq(|lines|, i requires 0 <= i < |lines| => DetailLineOp(lines[i], DetailLineY(boxY, i)))
  }

  /** Everything drawn before the detail lines: background, border, header bar and its text,
      check mark, name panel with the signer's name, separator line and its label. */
  function HeaderOps(boxY: real, signerName: string): (r: seq<DrawOp>)
    ensures |r| == 10
  {
    [ Rectangle(BoxX, boxY, BoxWidth, BoxHeight, Some(Rgb(1.0, 1.0, 1.0)), None, 0.0),
      Rectangle(BoxX, boxY, BoxWidth, BoxHeight, None, Some(Rgb(0.0, 0.2, 0.8)), 3.0),
      Rectangle(BoxX + 3.0, boxY + BoxHeight - 20.0, BoxWidth - 6.0, 17.0,
                Some(Rgb(0.7, 0.85, 1.0)), None, 0.0),
      Text("DIGITALLY SIGNED", BoxX + 10.0, boxY + BoxHeight - 15.0, 10.0, Rgb(0.0, 0.0, 0.6)),
      Circle(BoxX + BoxWidth - 15.0, boxY + BoxHeight - 10.0, 6.0, Rgb(0.0, 0.7, 0.0)),
      Text("V", BoxX + BoxWidth - 18.0, boxY + BoxHeight - 14.0, 8.0, Rgb(1.0, 1.0, 1.0)),
      Rectangle(BoxX + 8.0, boxY + BoxHeight - 48.0, BoxWidth - 16.0, 23.0,
                Some(Rgb(0.98, 0.98, 1.0)), Some(Rgb(0.7, 0.7, 0.7)), 1.0),
      Text(signerName, BoxX + 12.0, boxY + BoxHeight - 37.0, 11.0, Rgb(0.0, 0.0, 0.5)),
      Line(BoxX + 10.0, boxY + BoxHeight - 42.0, BoxX + BoxWidth - 10.0, boxY + BoxHeight - 42.0,
           0.5, Rgb(0.0, 0.0, 0.0)),
      Text("Digital Signature", BoxX + 12.0, boxY + BoxHeight - 46.0, 6.0, Rgb(0.4, 0.4, 0.4)) ]
  }

  /** The verification badge at the bottom of the box. */
  function BadgeOps(boxY: real): (r: seq<DrawOp>)
    ensures |r| == 3
  {
    [ Rectangle(BoxX + 5.0, boxY + 4.0, BoxWidth - 10.0, 12.0,
                Some(Rgb(0.9, 1.0, 0.9)), Some(Rgb(0.0, 0.6, 0.0)), 1.0),
      Circle(BoxX + 12.0, boxY + 10.0, 3.0, Rgb(0.0, 0.6, 0.0)),
      Text("CA Verified", BoxX + 18.0, boxY + 7.0, 7.0, Rgb(0.0, 0.5, 0.0)) ]
  }

  /** Top edge of the badge rectangle. */
  function BadgeTop(boxY: real): real {
    boxY + 16.0
  }

  /** The whole template, in drawing order, on a page of the given height. */
  function SignatureBoxOps(pageHeight: real, signerName: string, date: string, validTo: string)
    : seq<DrawOp>
  {
    var boxY := BoxY(pageHeight);
    HeaderOps(boxY, signerName) + DetailLineOps(DetailLines(signerName, date, validTo), boxY)
    + BadgeOps(boxY)
  }

  /** The template draws the signer's name as a text of its own, so a template the standard
      font can draw has an encodable signer name. */
  lemma SignerNameDrawn(lib: PdfLib, pageHeight: real, signerName: string, date: string, validTo: string)
    requires Drawable(lib, SignatureBoxOps(pageHeight, signerName, date, validTo))
    ensures lib.Encodable(signerName)
  {
    var ops := SignatureBoxOps(pageHeight, signerName, date, validTo);
    assert ops[7] == HeaderOps(BoxY(pageHeight), signerName)[7];
  }

  /** Line `i` of the details sits at `boxY + 42 - 8i`; only the first ("Signed by:") is size 7;
      the lowest one stays above the badge. */
  lemma DetailLinesLayout(pageHeight: real, signerName: string, date: string, validTo: string)
    ensures var boxY := BoxY(pageHeight);
            var lines := DetailLines(signerName, date, validTo);
            var ops := SignatureBoxOps(pageHeight, signerName, date, validTo);
            |ops| == 13 + |lines| && 2 <= |lines| <= 3
            && (forall i :: 0 <= i < |lines| ==>
                  ops[10 + i].Text? && ops[10 + i].text == lines[i]
                  && ops[10 + i].y == boxY + 42.0 - 8.0 * i as real
                  && (ops[10 + i].size == 7.0 <==> i == 0)
                  && ops[10 + i].y > BadgeTop(boxY))
  {
    var boxY := BoxY(pageHeight);
    var lines := DetailLines(signerName, date, validTo);
    DetailLinesContent(signerName, date, validTo);
    var ops := SignatureBoxOps(pageHeight, signerName, date, validTo);
    var details := DetailLineOps(lines, boxY);
    forall i | 0 <= i < |lines|
      ensures ops[10 + i] == details[i]
      ensures (details[i].size == 7.0 <==> i == 0)
    {
      assert ops[10 + i] == (HeaderOps(boxY, signerName) + details)[10 + i];
      assert details[i] == DetailLineOp(lines[i], DetailLineY(boxY, i));
      if i == 0 {
        assert lines[0][..10] == "Signed by:";
        assert StartsWith(lines[0], "Signed by:");
      } else {
        FirstCharRefutesPrefix(lines[i], "Signed by:");
      }
    }
  }

  /** Every element of the template lies inside the box (texts by their anchor point). */
  lemma TemplateInsideBox(pageHeight: real, signerName: string, date: string, validTo: string)
    ensures forall op :: op in SignatureBoxOps(pageHeight, signerName, date, validTo)
              ==> Within(Extent(op), BoxRegion(pageHeight))
  {
    var boxY := BoxY(pageHeight);
    var box := BoxRegion(pageHeight);
    var lines := DetailLines(signerName, date, validTo);
    DetailLinesContent(signerName, date, validTo);
    var header, details, badge :=
      HeaderOps(boxY, signerName), DetailLineOps(lines, boxY), BadgeOps(boxY);
    forall op | op in header ensures Within(Extent(op), box) {
    }
    forall op | op in details ensures Within(Extent(op), box) {
      var i :| 0 <= i < |details| && details[i] == op;
      assert Extent(op).bottom == boxY + 42.0 - 8.0 * i as real;
    }
    forall op | op in badge ensures Within(Extent(op), box) {
    }
  }

  /** The ten header elements, drawn in template order. */
  method DrawHeader(page: PdfPage, boxY: real, signerName: string)
    modifies page
    ensures page.drawn == old(page.drawn) + HeaderOps(boxY, signerName)
  {
    ghost var before := page.drawn;
    page.Draw(Rectangle(BoxX, boxY, BoxWidth, BoxHeight, Some(Rgb(1.0, 1.0, 1.0)), None, 0.0));
    page.Draw(Rectangle(BoxX, boxY, BoxWidth, BoxHeight, None, Some(Rgb(0.0, 0.2, 0.8)), 3.0));
    page.Draw(Rectangle(BoxX + 3.0, boxY + BoxHeight - 20.0, BoxWidth - 6.0, 17.0,
                        Some(Rgb(0.7, 0.85, 1.0)), None, 0.0));
    page.Draw(Text("DIGITALLY SIGNED", BoxX + 10.0, boxY + BoxHeight - 15.0, 10.0, Rgb(0.0, 0.0, 0.6)));
    page.Draw(Circle(BoxX + BoxWidth - 15.0, boxY + BoxHeight - 10.0, 6.0, Rgb(0.0, 0.7, 0.0)));
    ghost var mid := page.drawn;
    assert mid == before + HeaderOps(boxY, signerName)[..5];
    page.Draw(Text("V", BoxX + BoxWidth - 18.0, boxY + BoxHeight - 14.0, 8.0, Rgb(1.0, 1.0, 1.0)));
    page.Draw(Rectangle(BoxX + 8.0, boxY + BoxHeight - 48.0, BoxWidth - 16.0, 23.0,
                        Some(Rgb(0.98, 0.98, 1.0)), Some(Rgb(0.7, 0.7, 0.7)), 1.0));
    page.Draw(Text(signerName, BoxX + 12.0, boxY + BoxHeight - 37.0, 11.0, Rgb(0.0, 0.0, 0.5)));
    page.Draw(Line(BoxX + 10.0, boxY + BoxHeight - 42.0, BoxX + BoxWidth - 10.0, boxY + BoxHeight - 42.0,
                   0.5, Rgb(0.0, 0.0, 0.0)));
    page.Draw(Text("Digital Signature", BoxX + 12.0, boxY + BoxHeight - 46.0, 6.0, Rgb(0.4, 0.4, 0.4)));
    assert page.drawn == mid + HeaderOps(boxY, signerName)[5..];
  }

  /** The `forEach` over the detail lines: each is drawn at `currentY`, which then steps
      down by `LineHeight`. */
  method DrawDetailLines(page: PdfPage, boxY: real, lines: seq<string>)
    modifies page
    ensures page.drawn == old(page.drawn) + DetailLineOps(lines, boxY)
  {
    var currentY := boxY + BoxHeight - 58.0;
    var index := 0;
    while index < |lines|
      invariant 0 <= index <= |lines|
      invariant currentY == DetailLineY(boxY, index)
      invariant page.drawn == old(page.drawn) + DetailLineOps(lines[..index], boxY)
    {
      var line := lines[index];
      var isBold := StartsWith(line, "Signed by:");
      page.Draw(Text(line, BoxX + 8.0, currentY, if isBold then 7.0 else 6.0,
                     if isBold then Rgb(0.0, 0.0, 0.0) else Rgb(0.3, 0.3, 0.3)));
      assert DetailLineOps(lines[..index + 1], boxY)
             == DetailLineOps(lines[..index], boxY) + [DetailLineOp(line, currentY)];
      currentY := currentY - LineHeight;
      index := index + 1;
    }
    assert lines[..index] == lines;
  }

  /** The badge: its rectangle, its dot and its label. */
  method DrawBadge(page: PdfPage, boxY: real)
    modifies page
    ensures page.drawn == old(page.drawn) + BadgeOps(boxY)
  {
    page.Draw(Rectangle(BoxX + 5.0, boxY + 4.0, BoxWidth - 10.0, 12.0,
                        Some(Rgb(0.9, 1.0, 0.9)), Some(Rgb(0.0, 0.6, 0.0)), 1.0));
    page.Draw(Circle(BoxX + 12.0, boxY + 10.0, 3.0, Rgb(0.0, 0.6, 0.0)));
    page.Draw(Text("CA Verified", BoxX + 18.0, boxY + 7.0, 7.0, Rgb(0.0, 0.5, 0.0)));
  }

  /** The box template drawn on the page, at the position computed from its height. */
  method RenderSignatureBox(page: PdfPage, signerName: string, date: string, validTo: string)
    modifies page
    ensures page.drawn == old(page.drawn) + SignatureBoxOps(page.height, signerName, date, validTo)
  {
    var boxY := page.height - BoxHeight - TopMargin;
    DrawHeader(page, boxY, signerName);
    var lines := DetailLines(signerName, date, validTo);
    DrawDetailLines(page, boxY, lines);
    DrawBadge(page, boxY);
  }

  /** The signed document: the template appended to the first page's drawing, the page size
      and every other page left as they were. */
  function StampFirstPage(doc: PdfDoc, signerName: string, date: string, validTo: string): (r: PdfDoc)
    requires |doc.pages| > 0
    ensures |r.pages| == |doc.pages|
    ensures forall i :: 0 < i < |doc.pages| ==> r.pages[i] == doc.pages[i]
    ensures r.pages[0].width == doc.pages[0].width && r.pages[0].height == doc.pages[0].height
  {
    var first := doc.pages[0];
    WithFirstPage(doc, first.(drawn := first.drawn
                                + SignatureBoxOps(first.height, signerName, date, validTo)))
  }

  /** Signing an already signed document stacks a second box on top of the first one. */
  lemma StampStacks(doc: PdfDoc, first: (string, string, string), second: (string, string, string))
    requires |doc.pages| > 0
    ensures var once := StampFirstPage(doc, first.0, first.1, first.2);
            var twice := StampFirstPage(once, second.0, second.1, second.2);
            var h := doc.pages[0].height;
            twice.pages[0].drawn
              == doc.pages[0].drawn + SignatureBoxOps(h, first.0, first.1, first.2)
                 + SignatureBoxOps(h, second.0, second.1, second.2)
            && twice.pages[1..] == doc.pages[1..]
  {
    var once := StampFirstPage(doc, first.0, first.1, first.2);
    var twice := StampFirstPage(once, second.0, second.1, second.2);
    assert twice.pages[1..] == once.pages[1..] == doc.pages[1..];
  }
}
