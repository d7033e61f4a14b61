/**
 * The text that bin2go writes for a byte blob: an optional package clause
 * followed by the declaration
 *
 *     var <name> = []byte{
 *     	0xNN, 0xNN, ..., 0xNN,
 *     	0xNN, ...
 *     }
 *
 * `Declaration` and `Output` give the expected text as functions;
 * `WriteData` and `WriteOutput` are the step-by-step writers of the
 * program, proved to append exactly that text to a `Writer`.
 */
module Bin2Go {
  import opened Wrappers
  import opened Hex
  import opened Seqs

  /** Column the running counter starts at: the tab that opens each body line. */
  const StartColumn := 8
  /** Columns one byte adds to the counter: the token `0xNN,` and its separator. */
  const TokenWidth := 6
  /** Once the counter reaches this column, the next separator is a line break. */
  const WrapColumn := 78
  /**
   * Bytes on a full body line: the counter first reaches WrapColumn after
   * this many bytes (8 + 6 * 11 = 74 < 78 <= 80 = 8 + 6 * 12).
   */
  const BytesPerLine := 12

  /** The first line of the declaration and the tab that opens its body. */
  function Header(varname: string): (h: string)
    ensures |h| == |varname| + 16
    ensures h[..4] == "var " && h[4..4 + |varname|] == varname
    ensures h[4 + |varname|..|h| - 2] == " = []byte{" && h[|h| - 2..] == "\n\t"
  {
    "var " + varname + " = []byte{\n\t"
  }

  /** The line break and closing brace that end the declaration. */
  const Footer := "\n}\n"

  /** The package clause put in front when a package name is given; nothing otherwise. */
  function PackageClause(pkg: string): (c: string)
    ensures c == "" <==> pkg == ""
    ensures pkg != "" ==> |c| == |pkg| + 10 && c[..8] == "package " && c[8..8 + |pkg|] == pkg && c[|c| - 2..] == "\n\n"
  {
    if pkg != "" then "package " + pkg + "\n\n" else ""
  }

  /**
   * What follows the token of byte `i` out of `count`: nothing after the
   * last byte, a line break and tab after every twelfth byte, a space otherwise.
   * Its contract restates the rule in terms of the running counter: before
   * byte `i` the counter stands at 8 + 6 * (i mod 12), and the separator is
   * a line break exactly when adding this byte's 6 columns reaches column 78.
   */
  function Separator(i: nat, count: nat): (sep: string)
    requires i < count
    ensures sep == "" <==> i + 1 == count
    ensures i + 1 < count ==>
      sep == (if StartColumn + TokenWidth * (i % BytesPerLine) + TokenWidth >= WrapColumn then "\n\t" else " ")
  {
    if i + 1 == count then ""
    else if (i + 1) % BytesPerLine == 0 then "\n\t"
    else " "
  }

  /** Byte `i` as it appears in the body: its token, which reads back as the byte, then its separator. */
  function Entry(data: seq<Byte>, i: nat): (e: string)
    requires i < |data|
    ensures |e| == 5 + |Separator(i, |data|)|
    ensures ParseToken(e[..5]) == Some(data[i])
    ensures e[5..] == Separator(i, |data|)
  {
    TokenRoundTrip(data[i]);
    ByteToken(data[i]) + Separator(i, |data|)
  }

  /** The entries of bytes `i` to the end, in input order: at least five characters per byte, starting with byte `i`'s token. */
  function EntriesFrom(data: seq<Byte>, i: nat): (r: string)
    requires i <= |data|
    ensures |r| >= 5 * (|data| - i)
    ensures r == "" <==> i == |data|
    decreases |data| - i
  {
    if i == |data| then "" else Entry(data, i) + EntriesFrom(data, i + 1)
  }

  /** The body of the literal: the entries of all bytes; empty exactly when there are no bytes. */
  function Body(data: seq<Byte>): (b: string)
    ensures |b| >= 5 * |data|
    ensures b == "" <==> data == []
  {
    EntriesFrom(data, 0)
  }

  /** The declaration `writeData` writes: header, body, `\n}\n`. */
  function Declaration(data: seq<Byte>, varname: string): (d: string)
    ensures |d| >= |varname| + 19 + 5 * |data|
    ensures d[..|Header(varname)|] == Header(varname)
    ensures d[|d| - 3..] == "\n}\n"
  {
    var h, b := Header(varname), Body(data);
    assert (h + b + Footer)[..|h|] == h;
    h + b + Footer
  }

  /** Everything `writeOutput` writes: the package clause, if any, then the declaration. */
  function Output(data: seq<Byte>, pkg: string, varname: string): (o: string)
    ensures |o| == |PackageClause(pkg)| + |Declaration(data, varname)|
    ensures o[..|PackageClause(pkg)|] == PackageClause(pkg)
    ensures o[|PackageClause(pkg)|..] == Declaration(data, varname)
    ensures o[|o| - 3..] == "\n}\n"
  {
    var p, d := PackageClause(pkg), Declaration(data, varname);
    assert (p + d)[..|p|] == p;
    assert (p + d)[|p|..] == d;
    p + d
  }

  /** The output sink (`io.Writer`): an append-only text that never fails. */
  class Writer {
    var text: string

    constructor ()
      ensures text == ""
    {
      text := "";
    }

    /** Appends `s` to what has been written. */
    method Write(s: string)
      modifies this
      ensures text == old(text) + s
    {
      text := text + s;
    }
  }

  /**
   * The counter rule agrees with the every-twelfth-byte rule of Separator:
   * from the column reached after `k` bytes of a line, adding one more byte
   * reaches WrapColumn exactly when that byte completes a line of
   * BytesPerLine, and otherwise gives the column after `k + 1` bytes.
   */
  lemma CounterStep(i: nat, n: int)
    requires n == StartColumn + TokenWidth * (i % BytesPerLine)
    ensures n + TokenWidth >= WrapColumn <==> (i + 1) % BytesPerLine == 0
    ensures (i + 1) % BytesPerLine != 0 ==>
              n + TokenWidth == StartColumn + TokenWidth * ((i + 1) % BytesPerLine)
  {
    if i % BytesPerLine == BytesPerLine - 1 {
      assert (i + 1) % BytesPerLine == 0;
    } else {
      assert (i + 1) % BytesPerLine == i % BytesPerLine + 1;
    }
  }

  /**
   * Writes the declaration for `data` to `out`, keeping the running column
   * counter `n` of the program: a line break goes out once `n` reaches
   * WrapColumn, except after the last byte, and resets `n`.
   */
  method WriteData(data: seq<Byte>, varname: string, out: Writer)
    modifies out
    ensures out.text == old(out.text) + Declaration(data, varname)
  {
    out.Write("var " + varname + " = []byte{\n\t");

    var lastbytei := |data| - 1;
    var n := StartColumn;
    for i := 0 to |data|
      invariant out.text + EntriesFrom(data, i) == old(out.text) + Header(varname) + Body(data)
      invariant i < |data| ==> n == StartColumn + TokenWidth * (i % BytesPerLine)
    {
      ghost var before, token := out.text, ByteToken(data[i]);
      CounterStep(i, n);
      out.Write(ByteToken(data[i]));
      n := n + TokenWidth;
      ghost var sep := "";
      if i != lastbytei {
        if n >= WrapColumn {
          out.Write("\n\t");
          n := StartColumn;
          sep := "\n\t";
        } else {
          out.Write(" ");
          sep := " ";
        }
      }
      assert out.text == (before + token) + sep;
      assert out.text == before + Entry(data, i) by {
        assert sep == Separator(i, |data|);
        ConcatAssoc(before, token, sep);
      }
      ConcatAssoc(before, Entry(data, i), EntriesFrom(data, i + 1));
    }
    assert out.text == old(out.text) + Header(varname) + Body(data);
    out.Write("\n}\n");
    ConcatAssoc(old(out.text), Header(varname) + Body(data), Footer);
    ConcatAssoc(old(out.text), Header(varname), Body(data));
  }

  /** Writes the package clause when `pkg` is non-empty, then the declaration. */
  method WriteOutput(data: seq<Byte>, pkg: string, varname: string, out: Writer)
    modifies out
    ensures out.text == old(out.text) + Output(data, pkg, varname)
  {
    if pkg != "" {
      out.Write("package " + pkg + "\n\n");
    }
    WriteData(data, varname, out);
  }
}
