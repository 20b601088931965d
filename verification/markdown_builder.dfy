/** `MarkdownBuilder` (src/markdown/markdown_builder.rs): a string that only
    ever grows at its end. */
module MarkdownBuilder {
  import opened Strings

  datatype MarkdownBuilder = MarkdownBuilder(content: string)

  /** `new`: nothing written yet. */
  function New(): (b: MarkdownBuilder)
    ensures |b.content| == 0
  {
    MarkdownBuilder("")
  }

  /** `build` / `as_str`: what has been written. */
  function Build(b: MarkdownBuilder): string {
    b.content
  }

  function Append(b: MarkdownBuilder, s: string): (r: MarkdownBuilder)
    ensures StartsWith(r.content, b.content) && r.content[|b.content|..] == s
  {
    MarkdownBuilder(b.content + s)
  }

  /** `nl`. */
  function Nl(b: MarkdownBuilder): MarkdownBuilder {
    Append(b, "\n")
  }

  /** `text`. */
  function Text(b: MarkdownBuilder, t: string): MarkdownBuilder {
    Append(b, t)
  }

  /** `line`: the text and a newline. */
  function Line(b: MarkdownBuilder, t: string): MarkdownBuilder {
    Append(Append(b, t), "\n")
  }

  /** `heading1`. */
  function Heading1(b: MarkdownBuilder, t: string): MarkdownBuilder {
    Append(Append(Append(b, "# "), t), "\n")
  }

  /** `url`: a markdown link. */
  function Url(b: MarkdownBuilder, display: string, url: string): MarkdownBuilder {
    Append(Append(Append(Append(Append(b, "["), display), "]("), url), ")")
  }

  /** `list_item`. */
  function ListItem(b: MarkdownBuilder): MarkdownBuilder {
    Append(b, "- ")
  }

  /** `list`: for each item, "- ", whatever the item's formatter writes, and a
      newline. The formatter can only append to the builder, so it is given as
      the text it appends. */
  function List<T>(b: MarkdownBuilder, items: seq<T>, format: T -> string): MarkdownBuilder {
    if |items| == 0 then b
    else
      var before := List(b, items[..|items| - 1], format);
      Append(Append(Append(before, "- "), format(items[|items| - 1])), "\n")
  }

  /** What each operation appends. */
  lemma Appends(b: MarkdownBuilder, t: string, u: string)
    ensures Build(New()) == ""
    ensures Build(Nl(b)) == b.content + "\n"
    ensures Build(Text(b, t)) == b.content + t
    ensures Build(Line(b, t)) == b.content + t + "\n"
    ensures Build(Heading1(b, t)) == b.content + "# " + t + "\n"
    ensures Build(Url(b, t, u)) == b.content + "[" + t + "](" + u + ")"
    ensures Build(ListItem(b)) == b.content + "- "
  {
    assert Build(Line(b, t)) == b.content + t + "\n";
    assert Build(Heading1(b, t)) == b.content + "# " + t + "\n";
    assert Build(Url(b, t, u)) == b.content + "[" + t + "](" + u + ")";
  }

  /** The lines a list writes: one "- item\n" per item, in order. */
  function ListText<T>(items: seq<T>, format: T -> string): string {
    if |items| == 0 then ""
    else ListText(items[..|items| - 1], format) + "- " + format(items[|items| - 1]) + "\n"
  }

  lemma {:induction false} ListAppendsItems<T>(b: MarkdownBuilder, items: seq<T>, format: T -> string)
    ensures Build(List(b, items, format)) == b.content + ListText(items, format)
    decreases |items|
  {
    if |items| > 0 {
      ListAppendsItems(b, items[..|items| - 1], format);
    }
  }

  /** Listing `xs` and then `ys` is listing `xs + ys`. */
  lemma {:induction false} ListConcat<T>(b: MarkdownBuilder, xs: seq<T>, ys: seq<T>, format: T -> string)
    ensures List(List(b, xs, format), ys, format) == List(b, xs + ys, format)
    decreases |ys|
  {
    if |ys| == 0 {
      assert xs + ys == xs;
    } else {
      ListConcat(b, xs, ys[..|ys| - 1], format);
      assert (xs + ys)[..|xs + ys| - 1] == xs + ys[..|ys| - 1];
    }
  }

  /** One builder operation, for talking about sequences of them. */
  datatype Op<T> =
    | OpNl
    | OpText(t: string)
    | OpLine(t: string)
    | OpHeading1(t: string)
    | OpUrl(display: string, url: string)
    | OpListItem
    | OpList(items: seq<T>)

  function Apply<T>(b: MarkdownBuilder, op: Op<T>, format: T -> string): MarkdownBuilder {
    match op
    case OpNl => Nl(b)
    case OpText(t) => Text(b, t)
    case OpLine(t) => Line(b, t)
    case OpHeading1(t) => Heading1(b, t)
    case OpUrl(d, u) => Url(b, d, u)
    case OpListItem => ListItem(b)
    case OpList(items) => List(b, items, format)
  }

  function ApplyAll<T>(b: MarkdownBuilder, ops: seq<Op<T>>, format: T -> string): MarkdownBuilder {
    if |ops| == 0 then b else Apply(ApplyAll(b, ops[..|ops| - 1], format), ops[|ops| - 1], format)
  }

  lemma {:induction false} ListExtends<T>(b: MarkdownBuilder, items: seq<T>, format: T -> string)
    ensures StartsWith(Build(List(b, items, format)), b.content)
  {
    ListAppendsItems(b, items, format);
  }

  /** Whatever operations follow, what was written before stays a prefix. */
  lemma {:induction false} OnlyAppends<T>(b: MarkdownBuilder, ops: seq<Op<T>>, format: T -> string)
    ensures StartsWith(Build(ApplyAll(b, ops, format)), b.content)
    decreases |ops|
  {
    if |ops| > 0 {
      var mid := ApplyAll(b, ops[..|ops| - 1], format);
      OnlyAppends(b, ops[..|ops| - 1], format);
      var op := ops[|ops| - 1];
      var r := Apply(mid, op, format);
      assert StartsWith(r.content, mid.content) by {
        if op.OpList? {
          ListExtends(mid, op.items, format);
        }
      }
      assert r.content[..|b.content|] == mid.content[..|b.content|];
    }
  }
}
