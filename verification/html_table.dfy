/**
 * `HtmlTable` of Frontend/route.js and Frontend/utils.js (the two classes
 * are the same): a table's markup grown one row at a time. The constructor
 * opens the table and writes the header row, `addRow` appends a row, and
 * `toHtml` closes the table without changing the builder. Cells are given
 * as the text a template literal makes of each argument.
 */
module HtmlTable {

  /** One cell: `<td>` + its text + `</td>`. */
  function Cell(text: string): string {
    "<td>" + text + "</td>"
  }

  /** The cells of a row, left to right. */
  function Cells(texts: seq<string>): string {
    if |texts| == 0 then "" else Cells(texts[..|texts| - 1]) + Cell(texts[|texts| - 1])
  }

  /** A whole row: `<tr>`, its cells, `</tr>`. */
  function Row(texts: seq<string>): string {
    "<tr>" + Cells(texts) + "</tr>"
  }

  /** The rows of the body, top to bottom. */
  function Rows(rows: seq<seq<string>>): string {
    if |rows| == 0 then "" else Rows(rows[..|rows| - 1]) + Row(rows[|rows| - 1])
  }

  /** The markup of a table with a header row and body rows. */
  function Render(header: seq<string>, rows: seq<seq<string>>): string {
    "<table>" + Row(header) + Rows(rows) + "</table>"
  }

  /** The builder: the markup written so far. */
  datatype Table = Table(html: string)

  /** Appends `<td>text</td>` for each argument in turn, as the `for … of arguments` loops do. */
  method AppendCells(html: string, texts: seq<string>) returns (r: string)
    ensures r == html + Cells(texts)
  {
    r := html;
    var i := 0;
    while i < |texts|
      invariant 0 <= i <= |texts|
      invariant r == html + Cells(texts[..i])
    {
      assert texts[..i + 1][..i] == texts[..i];
      r := r + Cell(texts[i]);
      i := i + 1;
    }
    assert texts[..i] == texts;
  }

  /** `new HtmlTable(...header)`: the table opened, with the header row. */
  method New(header: seq<string>) returns (t: Table)
    ensures t.html == "<table>" + Row(header)
  {
    var html := AppendCells("<table><tr>", header);
    t := Table(html + "</tr>");
  }

  /** `addRow(...texts)`: the row appended after what is there. */
  method AddRow(t: Table, texts: seq<string>) returns (r: Table)
    ensures r.html == t.html + Row(texts)
  {
    var html := AppendCells(t.html + "<tr>", texts);
    r := Table(html + "</tr>");
  }

  /** `toHtml()`: the markup closed. The builder is not changed, so calling it again gives the same text. */
  function ToHtml(t: Table): (s: string)
    ensures |s| == |t.html| + 8 && s[..|t.html|] == t.html
    ensures s[|t.html|..] == "</table>"
  {
    t.html + "</table>"
  }

  /**
   * A table built with a header and then each row in turn renders as
   * the header row followed by the rows in the order they were added.
   */
  method Build(header: seq<string>, rows: seq<seq<string>>) returns (t: Table)
    ensures ToHtml(t) == Render(header, rows)
  {
    t := New(header);
    var i := 0;
    while i < |rows|
      invariant 0 <= i <= |rows|
      invariant t.html == "<table>" + Row(header) + Rows(rows[..i])
    {
      assert rows[..i + 1][..i] == rows[..i];
      assert Rows(rows[..i + 1]) == Rows(rows[..i]) + Row(rows[i]);
      t := AddRow(t, rows[i]);
      i := i + 1;
    }
    assert rows[..i] == rows;
  }
}
