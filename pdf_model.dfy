/**
 * What the signing tab sees of pdf-lib: a loaded document is a list of pages, each with
 * its size and the drawing operations recorded on it. `PDFDocument.load` and `save` are
 * supplied by the caller as a `PdfLib` value; the page the component draws on is a
 * `PdfPage` object whose `Draw` appends one operation, as `drawRectangle`, `drawText`,
 * `drawCircle` and `drawLine` do.
 */
module PdfModel {
  import opened Wrappers

  /** `rgb(r, g, b)`: inert constants, carried only so that each drawn element is complete. */
  datatype Color = Rgb(red: real, green: real, blue: real)

  /** One pdf-lib drawing call with the options the component passes to it. */
  datatype DrawOp =
    | Rectangle(x: real, y: real, width: real, height: real,
                fill: Option<Color>, border: Option<Color>, borderWidth: real)
    | Text(text: string, x: real, y: real, size: real, color: Color)
    | Circle(x: real, y: real, radius: real, color: Color)
    | Line(startX: real, startY: real, endX: real, endY: real, thickness: real, color: Color)

  /** A page: its size (`getSize()`) and everything drawn on it so far, in order. */
  datatype PageData = PageData(width: real, height: real, drawn: seq<DrawOp>)

  /** A decoded PDF document. */
  datatype PdfDoc = PdfDoc(pages: seq<PageData>)

  /** `PDFDocument.load` (None when it throws), `pdfDoc.save()`, and whether `drawText`
      without a `font` option can show a text: it then uses the standard Helvetica font,
      whose WinAnsi encoding throws on characters it cannot encode. */
  datatype PdfLib = PdfLib(load: seq<bv8> -> Option<PdfDoc>, save: PdfDoc -> seq<bv8>,
                           encodable: string -> bool) {
    function Load(bytes: seq<bv8>): Option<PdfDoc> { load(bytes) }
    function Save(doc: PdfDoc): seq<bv8> { save(doc) }
    predicate Encodable(text: string) { encodable(text) }
  }

  /** Every text among `ops` can be drawn with the standard font, so drawing them all in
      order does not throw. */
  predicate Drawable(lib: PdfLib, ops: seq<DrawOp>) {
    forall i :: 0 <= i < |ops| && ops[i].Text? ==> lib.Encodable(ops[i].text)
  }

  /** A page object handed out by `getPages()`; drawing on it changes it in place. */
  class PdfPage {
    const width: real
    const height: real
    var drawn: seq<DrawOp>

    constructor (data: PageData)
      ensures Snapshot() == data
    {
      width, height, drawn := data.width, data.height, data.drawn;
    }

    /** The page as a value, as `save` will see it. */
    function Snapshot(): PageData
      reads this
    {
      PageData(width, height, drawn)
    }

    /** One drawing call: the operation is recorded after all earlier ones. */
    method Draw(op: DrawOp)
      modifies this
      ensures drawn == old(drawn) + [op]
    {
      drawn := drawn + [op];
    }
  }

  /** The document with `page` in place of its first page. */
  function WithFirstPage(doc: PdfDoc, page: PageData): (r: PdfDoc)
    requires |doc.pages| > 0
    ensures |r.pages| == |doc.pages| && r.pages[0] == page
    ensures forall i :: 0 < i < |doc.pages| ==> r.pages[i] == doc.pages[i]
  {
    PdfDoc(doc.pages[0 := page])
  }
}
