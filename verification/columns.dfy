/** The two column kinds of the leaderboard tables (the `Column` trait of
    src/markdown/column.rs with its implementations `Text` in
    src/markdown/text.rs and `Link` in src/markdown/link.rs). */
module Columns {
  import opened Strings

  /** A text column pads its header and values to a common width, inside
      backticks unless it is raw. A link column shows the same visible text
      on every row, masking a different URL. */
  datatype Column =
    | Text(header: string, values: seq<string>, inlineCode: bool)
    | Link(text: string, urls: seq<string>)

  /** `LINK_SYMBOL`, the default visible text of a link. */
  const LinkSymbol: string := "@"

  /** `mask_link`: a markdown link showing `symbol` and pointing at `url`. */
  function MaskLink(url: string, symbol: string): (r: string)
    ensures |r| == |symbol| + |url| + 4
    ensures StartsWith(r, "[" + symbol + "](")
    ensures forall j :: 0 <= j < |url| ==> r[|symbol| + 3 + j] == url[j]
    ensures r[|r| - 1] == ')'
  {
    "[" + symbol + "](" + url + ")"
  }

  /** `Text::new`: values shown in inline code. */
  function NewText(header: string, values: seq<string>): (c: Column)
    ensures c.Text? && c.inlineCode
    ensures c.header == header && c.values == values
  {
    Text(header, values, true)
  }

  /** `raw_text`: the same column without the backticks. */
  function RawText(c: Column): (r: Column)
    requires c.Text?
    ensures r.Text? && !r.inlineCode
    ensures r.header == c.header && r.values == c.values
  {
    c.(inlineCode := false)
  }

  /** `Link::new`: the visible text is the link symbol. */
  function NewLink(urls: seq<string>): (c: Column)
    ensures c.Link? && c.text == LinkSymbol && c.urls == urls
  {
    Link(LinkSymbol, urls)
  }

  /** `with_text`: replaces the visible text and keeps the URLs. */
  function WithText(c: Column, text: string): (r: Column)
    requires c.Link?
    ensures r.Link? && r.text == text && r.urls == c.urls
  {
    c.(text := text)
  }

  /** `len`: the number of rows the column fills. */
  function Len(c: Column): (n: nat)
    ensures c.Text? ==> n == |c.values|
    ensures c.Link? ==> n == |c.urls|
  {
    match c
    case Text(_, values, _) => |values|
    case Link(_, urls) => |urls|
  }

  /** The longest of the strings, 0 for none. */
  function MaxLength(xs: seq<string>): (m: nat)
    ensures forall i :: 0 <= i < |xs| ==> |xs[i]| <= m
    ensures |xs| == 0 ==> m == 0
    ensures |xs| > 0 ==> exists i :: 0 <= i < |xs| && |xs[i]| == m
  {
    if |xs| == 0 then 0
    else
      var rest := MaxLength(xs[..|xs| - 1]);
      assert forall i :: 0 <= i < |xs| - 1 ==> xs[i] == xs[..|xs| - 1][i];
      if |xs[|xs| - 1]| >= rest then |xs[|xs| - 1]| else rest
  }

  /** `calculate_width`: a text column is as wide as its header or its
      longest value, whichever is longer; a link column is as wide as its
      visible text, whatever its URLs. */
  function Width(c: Column): (w: nat)
    ensures c.Text? ==> w >= |c.header| && forall i :: 0 <= i < |c.values| ==> |c.values[i]| <= w
    ensures c.Text? ==> w == |c.header| || exists i :: 0 <= i < |c.values| && |c.values[i]| == w
    ensures c.Link? ==> w == |c.text|
  {
    match c
    case Text(header, values, _) => Max(MaxLength(values), |header|)
    case Link(text, _) => |text|
  }

  /** `format_with_style`: left-aligned to `width`, in backticks when
      `inlineCode`. */
  function FormatWithStyle(content: string, width: nat, inlineCode: bool): (r: string)
    ensures inlineCode ==> |r| == Max(|content|, width) + 2 && r[0] == '`' && r[|r| - 1] == '`'
    ensures inlineCode ==> r[1..|r| - 1] == PadRight(content, width)
    ensures !inlineCode ==> r == PadRight(content, width)
  {
    if inlineCode then "`" + PadRight(content, width) + "`" else PadRight(content, width)
  }

  /** `format_header`: a text column styles its header; a link column pads
      its visible text. */
  function FormatHeader(c: Column, width: nat): string {
    match c
    case Text(header, _, inlineCode) => FormatWithStyle(header, width, inlineCode)
    case Link(text, _) => PadRight(text, width)
  }

  /** `format_cell`: row `i` of the column; a link cell pads the whole
      markdown link. */
  function FormatCell(c: Column, i: nat, width: nat): string
    requires i < Len(c)
  {
    match c
    case Text(_, values, inlineCode) => FormatWithStyle(values[i], width, inlineCode)
    case Link(text, urls) => PadRight(MaskLink(urls[i], text), width)
  }

  /** At the column's own width a link cell is exactly the masked link,
      because the link is always longer than its visible text. */
  lemma LinkCellUnpadded(c: Column, i: nat)
    requires c.Link? && i < Len(c)
    ensures FormatCell(c, i, Width(c)) == MaskLink(c.urls[i], c.text)
  {
  }

  /** The header of a link column is its visible text, padded to the width. */
  lemma LinkHeaderIsText(c: Column, width: nat)
    requires c.Link?
    ensures |FormatHeader(c, width)| == Max(|c.text|, width)
    ensures FormatHeader(c, width)[..|c.text|] == c.text
  {
  }

  /** At the column's own width, the header and every cell of a text column
      have the same length: the width, plus two backticks unless raw. */
  lemma TextCellsAligned(c: Column, i: nat)
    requires c.Text? && i < Len(c)
    ensures |FormatCell(c, i, Width(c))| == Width(c) + (if c.inlineCode then 2 else 0)
    ensures |FormatHeader(c, Width(c))| == Width(c) + (if c.inlineCode then 2 else 0)
  {
  }

  /** A styled cell is the raw cell inside backticks. */
  lemma RawTextDropsBackticks(c: Column, i: nat, width: nat)
    requires c.Text? && c.inlineCode && i < Len(c)
    ensures FormatCell(c, i, width) == "`" + FormatCell(RawText(c), i, width) + "`"
    ensures FormatHeader(c, width) == "`" + FormatHeader(RawText(c), width) + "`"
  {
  }

  /** The cell of row `i` shows value `i`: the value is the cell's content
      up to the padding. */
  lemma TextCellShowsValue(c: Column, i: nat, width: nat)
    requires c.Text? && i < Len(c)
    ensures var cell := FormatCell(c, i, width);
      var body := if c.inlineCode then cell[1..|cell| - 1] else cell;
      body[..|c.values[i]|] == c.values[i]
      && forall k :: |c.values[i]| <= k < |body| ==> body[k] == ' '
  {
  }
}
