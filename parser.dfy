/**
 * Attachment text extraction (backend/app/services/parser.py). The
 * libraries (base64 decoding, pdfminer, python-docx, openpyxl) are not
 * modelled: what each of them reads from the attachment is an input,
 * either a value or the message of the exception it raised. No parser
 * raises: every exception becomes a bracketed error text.
 */
module Parser {
  import opened Wrappers

  /** The result of a library call: its value, or the message of the
      exception it raised. */
  datatype Attempt<T> = Done(value: T) | Raised(message: string)

  /** A worksheet as openpyxl reads it: its name and its rows of cells,
      each cell already rendered by `str`, None for an empty cell. */
  datatype Sheet = Sheet(name: string, rows: seq<seq<Option<string>>>)

  /** The decoded attachment as each library would read it: the text
      pdfminer extracts, the paragraphs python-docx finds, the sheets
      openpyxl loads, and the bytes decoded as UTF-8 with replacement
      (which cannot fail). */
  datatype Decoded = Decoded(pdfText: Attempt<string>, docxParagraphs: Attempt<seq<string>>,
                             workbook: Attempt<seq<Sheet>>, utf8Text: string)

  const Application: string := "application/"
  const PdfType: string := Application + "pdf"
  const DocxType: string := Application + "vnd.openxmlformats-officedocument.wordprocessingml.document"
  const XlsxType: string := Application + "vnd.openxmlformats-officedocument.spreadsheetml.sheet"
  const XlsType: string := Application + "vnd.ms-excel"

  /** The branch of `parse_attachment` a MIME type takes. */
  datatype FileKind = Pdf | Docx | Excel | Text | Unsupported

  /** The dispatch on the content type: the three office and PDF types by
      equality, any type under "text/" by prefix, everything else is
      unsupported. None of the exact types starts with "text/", so the
      branches never compete. */
  function KindOf(contentType: string): (k: FileKind)
    ensures k == Pdf <==> contentType == PdfType
    ensures k == Docx <==> contentType == DocxType
    ensures k == Excel <==> contentType == XlsxType || contentType == XlsType
    ensures k == Text <==> StartsWith(contentType, "text/")
  {
    assert StartsWith(contentType, "text/") ==> contentType[0] == 't';
    assert Application[0] == 'a';
    assert PdfType[0] == 'a' && DocxType[0] == 'a' && XlsxType[0] == 'a' && XlsType[0] == 'a';
    if contentType == PdfType then Pdf
    else if contentType == DocxType then Docx
    else if contentType == XlsxType || contentType == XlsType then Excel
    else if StartsWith(contentType, "text/") then Text
    else Unsupported
  }

  /** `parse_pdf`: the extracted text, or the PDF error text. */
  function ParsePdf(text: Attempt<string>): (r: string)
    ensures text.Done? ==> r == text.value
    ensures text.Raised? ==> r == "[Error parsing PDF: " + text.message + "]"
  {
    match text
    case Done(t) => t
    case Raised(m) => "[Error parsing PDF: " + m + "]"
  }

  /** `parse_docx`: the paragraphs, one per line, or the DOCX error text. */
  function ParseDocx(paragraphs: Attempt<seq<string>>): (r: string)
    ensures paragraphs.Raised? ==> r == "[Error parsing DOCX: " + paragraphs.message + "]"
    ensures paragraphs.Done? && paragraphs.value == [] ==> r == ""
  {
    match paragraphs
    case Raised(m) => "[Error parsing DOCX: " + m + "]"
    case Done(ps) => Join("\n", ps)
  }

  /** Splitting a document's text at its line breaks gives its paragraphs
      back, in order, when none of them holds a line break. */
  lemma DocxParagraphLines(ps: seq<string>)
    requires ps != [] && forall i :: 0 <= i < |ps| ==> '\n' !in ps[i]
    ensures Split(ParseDocx(Done(ps)), '\n') == ps
  {
    SplitJoin('\n', ps);
  }

  // ---------------------------------------------------------------------
  // Spreadsheets
  // ---------------------------------------------------------------------

  /** The cells of a row as text, an empty cell as "". */
  function CellTexts(row: seq<Option<string>>): (r: seq<string>)
    ensures |r| == |row|
    ensures forall i :: 0 <= i < |r| ==> r[i] == row[i].GetOr("")
  {
    if row == [] then [] else [row[0].GetOr("")] + CellTexts(row[1..])
  }

  /** A row's line: its cells separated by " | ". */
  function RowText(row: seq<Option<string>>): string {
    Join(" | ", CellTexts(row))
  }

  /** The lines of the rows that are not blank, in row order. */
  function KeptRows(rows: seq<seq<Option<string>>>): (r: seq<string>)
    ensures |r| <= |rows|
    ensures forall i :: 0 <= i < |r| ==> !IsPyBlank(r[i])
  {
    if rows == [] then []
    else
      var last := RowText(rows[|rows| - 1]);
      KeptRows(rows[..|rows| - 1]) + (if IsPyBlank(last) then [] else [last])
  }

  /** The lines one sheet contributes: a heading, its kept rows, and an
      empty line. */
  function SheetLines(sheet: Sheet): (r: seq<string>)
    ensures |r| >= 2 && r[0] == "Sheet: " + sheet.name && r[|r| - 1] == ""
    ensures r[1..|r| - 1] == KeptRows(sheet.rows)
  {
    ["Sheet: " + sheet.name] + KeptRows(sheet.rows) + [""]
  }

  /** The lines of a workbook: the sheets' lines in sheet order. */
  function ExcelLines(sheets: seq<Sheet>): (r: seq<string>)
    ensures |r| >= 2 * |sheets|
    ensures r == [] <==> sheets == []
  {
    if sheets == [] then []
    else ExcelLines(sheets[..|sheets| - 1]) + SheetLines(sheets[|sheets| - 1])
  }

  /** What `parse_excel` returns. */
  function ExcelText(workbook: Attempt<seq<Sheet>>): string {
    match workbook
    case Raised(m) => "[Error parsing Excel: " + m + "]"
    case Done(sheets) => Join("\n", ExcelLines(sheets))
  }

  /** `parse_excel`: the workbook's lines joined with line breaks, or the
      Excel error text. */
  method ParseExcel(workbook: Attempt<seq<Sheet>>) returns (r: string)
    ensures workbook.Raised? ==> r == "[Error parsing Excel: " + workbook.message + "]"
    ensures workbook.Done? ==> r == Join("\n", ExcelLines(workbook.value))
  {
    match workbook {
      case Raised(m) =>
        r := "[Error parsing Excel: " + m + "]";
      case Done(sheets) =>
        var text := CollectLines(sheets);
        r := Join("\n", text);
    }
  }

  /** The sheet loop of `parse_excel`: the list of lines grows by a
      heading per sheet, then by the sheet's rows, then by an empty line. */
  method CollectLines(sheets: seq<Sheet>) returns (text: seq<string>)
    ensures text == ExcelLines(sheets)
  {
    text := [];
    var i := 0;
    while i < |sheets|
      invariant 0 <= i <= |sheets|
      invariant text == ExcelLines(sheets[..i])
    {
      var sheet := sheets[i];
      var before := text;
      text := text + ["Sheet: " + sheet.name];
      text := AppendRows(text, sheet.rows);
      text := text + [""];
      assert text == before + (["Sheet: " + sheet.name] + KeptRows(sheet.rows) + [""]);
      ExcelLinesStep(sheets, i);
      i := i + 1;
    }
    assert sheets[..i] == sheets;
  }

  /** The row loop of `parse_excel`: appends the line of each row that is
      not blank. */
  method AppendRows(text: seq<string>, rows: seq<seq<Option<string>>>) returns (r: seq<string>)
    ensures r == text + KeptRows(rows)
  {
    r := text;
    var j := 0;
    while j < |rows|
      invariant 0 <= j <= |rows|
      invariant r == text + KeptRows(rows[..j])
    {
      var rowText := RowText(rows[j]);
      KeptRowsStep(rows, j);
      if !IsPyBlank(rowText) {
        r := r + [rowText];
      }
      j := j + 1;
    }
    assert rows[..j] == rows;
  }

  lemma KeptRowsStep(rows: seq<seq<Option<string>>>, j: nat)
    requires j < |rows|
    ensures KeptRows(rows[..j + 1]) ==
      KeptRows(rows[..j]) + (if IsPyBlank(RowText(rows[j])) then [] else [RowText(rows[j])])
  {
    assert rows[..j + 1][..j] == rows[..j];
  }

  lemma ExcelLinesStep(sheets: seq<Sheet>, i: nat)
    requires i < |sheets|
    ensures ExcelLines(sheets[..i + 1]) == ExcelLines(sheets[..i]) + SheetLines(sheets[i])
  {
    assert sheets[..i + 1][..i] == sheets[..i];
  }

  /** A row of two cells or more is never dropped, even when every cell is
      empty: the " | " separators are not whitespace. Only a row of at most
      one cell whose text is blank is dropped. */
  lemma RowWithSeparatorKept(row: seq<Option<string>>)
    ensures |row| >= 2 ==> !IsPyBlank(RowText(row))
    ensures |row| <= 1 ==> (IsPyBlank(RowText(row)) <==> row == [] || IsPyBlank(row[0].GetOr("")))
  {
    var cells := CellTexts(row);
    if |row| >= 2 {
      var t := cells[0] + " | " + Join(" | ", cells[1..]);
      assert RowText(row) == t;
      assert t[|cells[0]| + 1] == '|';
    }
  }

  /** In a sheet whose rows all have two cells or more, every row is kept,
      so the sheet contributes exactly its rows plus two lines. */
  lemma {:induction false} WideRowsAllKept(rows: seq<seq<Option<string>>>)
    requires forall i :: 0 <= i < |rows| ==> |rows[i]| >= 2
    ensures |KeptRows(rows)| == |rows|
    ensures forall i :: 0 <= i < |rows| ==> KeptRows(rows)[i] == RowText(rows[i])
  {
    if rows != [] {
      WideRowsAllKept(rows[..|rows| - 1]);
      RowWithSeparatorKept(rows[|rows| - 1]);
    }
  }

  /** No line of a workbook holds a line break when no sheet name and no
      cell does. */
  predicate NoLineBreaks(sheets: seq<Sheet>) {
    forall i :: 0 <= i < |sheets| ==>
      && '\n' !in sheets[i].name
      && forall r, c :: 0 <= r < |sheets[i].rows| && 0 <= c < |sheets[i].rows[r]| ==>
           '\n' !in sheets[i].rows[r][c].GetOr("")
  }

  lemma {:induction false} KeptRowsWithout(rows: seq<seq<Option<string>>>)
    requires forall r, c :: 0 <= r < |rows| && 0 <= c < |rows[r]| ==> '\n' !in rows[r][c].GetOr("")
    ensures forall i :: 0 <= i < |KeptRows(rows)| ==> '\n' !in KeptRows(rows)[i]
  {
    if rows != [] {
      KeptRowsWithout(rows[..|rows| - 1]);
      var last := rows[|rows| - 1];
      JoinWithout(" | ", CellTexts(last), '\n');
    }
  }

  lemma {:induction false} ExcelLinesWithout(sheets: seq<Sheet>)
    requires NoLineBreaks(sheets)
    ensures forall i :: 0 <= i < |ExcelLines(sheets)| ==> '\n' !in ExcelLines(sheets)[i]
  {
    if sheets != [] {
      var init := sheets[..|sheets| - 1];
      assert NoLineBreaks(init) by {
        forall i | 0 <= i < |init| ensures init[i] == sheets[i] { }
      }
      ExcelLinesWithout(init);
      var last := sheets[|sheets| - 1];
      KeptRowsWithout(last.rows);
      var ls := SheetLines(last);
      assert forall i :: 0 <= i < |ls| ==> '\n' !in ls[i] by {
        forall i | 0 <= i < |ls| ensures '\n' !in ls[i] {
          if 0 < i < |ls| - 1 {
            assert ls[i] == KeptRows(last.rows)[i - 1];
          }
        }
      }
    }
  }

  /** The lines of `parse_excel`'s text are exactly the sheet headings,
      kept rows and separating empty lines, when no name or cell holds a
      line break of its own; an empty workbook gives "". */
  lemma ExcelTextLines(sheets: seq<Sheet>)
    requires NoLineBreaks(sheets)
    ensures sheets == [] ==> ExcelText(Done(sheets)) == ""
    ensures sheets != [] ==> Split(ExcelText(Done(sheets)), '\n') == ExcelLines(sheets)
  {
    if sheets != [] {
      ExcelLinesWithout(sheets);
      SplitJoin('\n', ExcelLines(sheets));
    }
  }

  // ---------------------------------------------------------------------
  // Dispatch
  // ---------------------------------------------------------------------

  /** `parse_attachment`: a failed base64 decoding gives the attachment
      error text; otherwise the content type picks the reader, and an
      unsupported type is named in the result. */
  function ParseAttachment(decoded: Attempt<Decoded>, contentType: string): (r: string)
    ensures decoded.Raised? ==> r == "[Error parsing attachment: " + decoded.message + "]"
    ensures decoded.Done? ==>
      r == match KindOf(contentType)
           case Pdf => ParsePdf(decoded.value.pdfText)
           case Docx => ParseDocx(decoded.value.docxParagraphs)
           case Excel => ExcelText(decoded.value.workbook)
           case Text => decoded.value.utf8Text
           case Unsupported => "[Unsupported file type: " + contentType + "]"
  {
    match decoded
    case Raised(m) => "[Error parsing attachment: " + m + "]"
    case Done(d) =>
      if contentType == PdfType then ParsePdf(d.pdfText)
      else if contentType == DocxType then ParseDocx(d.docxParagraphs)
      else if contentType == XlsxType || contentType == XlsType then ExcelText(d.workbook)
      else if StartsWith(contentType, "text/") then d.utf8Text
      else "[Unsupported file type: " + contentType + "]"
  }

  /** Every subtype of "text/" is read as text, whatever follows the
      slash. */
  lemma TextSubtypesReadAsText(d: Decoded, subtype: string)
    ensures ParseAttachment(Done(d), "text/" + subtype) == d.utf8Text
  {
    assert ("text/" + subtype)[..5] == "text/";
  }

  /** The match is exact apart from the "text/" prefix: "text" without a
      slash is unsupported and named in the result. */
  lemma BareTextUnsupported(d: Decoded)
    ensures ParseAttachment(Done(d), "text") == "[Unsupported file type: text]"
  {
    assert |PdfType| > 4 && |XlsType| > 4 && |XlsxType| > 4 && |DocxType| > 4;
  }
}
