/**
 * Properties of the text bin2go writes: the empty case, the package-clause
 * prefix, its length, where each byte's token sits, and an independent
 * line-by-line description of the body (twelve tokens per line).
 */
module Layout {
  import opened Hex
  import opened Bin2Go
  import opened Seqs

  /** No bytes: the header is followed directly by the footer. */
  lemma EmptyDeclaration(varname: string)
    ensures Declaration([], varname) == "var " + varname + " = []byte{\n\t\n}\n"
  {
  }

  /**
   * A non-empty package name puts `package <pkg>` and a blank line in front
   * of the declaration; an empty one adds nothing, so the output begins with `var `.
   */
  lemma OutputPrefix(data: seq<Byte>, pkg: string, varname: string)
    ensures pkg != "" ==> Output(data, pkg, varname) == "package " + pkg + "\n\n" + Declaration(data, varname)
    ensures pkg == "" ==> Output(data, pkg, varname) == Declaration(data, varname)
    ensures pkg == "" ==> Output(data, pkg, varname)[..4] == "var "
  {
  }

  /**
   * Where the token of byte `k` starts in the body: six columns for each
   * earlier byte (token and space), plus one more for every line break
   * (two characters instead of a space) that precedes it.
   */
  function TokenOffset(k: nat): nat {
    TokenWidth * k + k / BytesPerLine
  }

  /** A byte that is not the last takes up the columns between its token offset and the next one. */
  lemma EntryLength(data: seq<Byte>, i: nat)
    requires i + 1 < |data|
    ensures |Entry(data, i)| == TokenOffset(i + 1) - TokenOffset(i)
  {
    if (i + 1) % BytesPerLine == 0 {
      assert (i + 1) / BytesPerLine == i / BytesPerLine + 1;
    } else {
      assert (i + 1) / BytesPerLine == i / BytesPerLine;
    }
  }

  /** Skipping the entries of bytes `i` to `k - 1` leaves the entries from byte `k`. */
  lemma {:induction false} EntriesSuffix(data: seq<Byte>, i: nat, k: nat)
    requires i <= k < |data|
    ensures TokenOffset(i) <= TokenOffset(k) <= TokenOffset(i) + |EntriesFrom(data, i)|
    ensures EntriesFrom(data, i)[TokenOffset(k) - TokenOffset(i)..] == EntriesFrom(data, k)
    decreases k - i
  {
    if i < k {
      EntriesSuffix(data, i + 1, k);
      EntryLength(data, i);
      DropPrefix(Entry(data, i), EntriesFrom(data, i + 1), TokenOffset(k) - TokenOffset(i + 1));
    }
  }

  /** The entries of bytes `i` onwards end right after the last byte's token. */
  lemma {:induction false} EntriesLength(data: seq<Byte>, i: nat)
    requires i < |data|
    ensures TokenOffset(i) <= TokenOffset(|data| - 1)
    ensures |EntriesFrom(data, i)| == TokenOffset(|data| - 1) - TokenOffset(i) + 5
    decreases |data| - i
  {
    if i + 1 < |data| {
      EntriesLength(data, i + 1);
      EntryLength(data, i);
    }
  }

  /**
   * Byte `k`'s token `0xNN,` sits at TokenOffset(k) in the body, followed by
   * its separator; the last byte's token ends the body, with nothing after it.
   */
  lemma BodyTokenAt(data: seq<Byte>, k: nat)
    requires k < |data|
    ensures TokenOffset(k) + 5 + |Separator(k, |data|)| <= |Body(data)|
    ensures Body(data)[TokenOffset(k)..TokenOffset(k) + 5] == ByteToken(data[k])
    ensures Body(data)[TokenOffset(k) + 5..TokenOffset(k) + 5 + |Separator(k, |data|)|] == Separator(k, |data|)
    ensures k == |data| - 1 ==> TokenOffset(k) + 5 == |Body(data)|
  {
    var s, off, token, sep := EntriesFrom(data, 0), TokenOffset(k), ByteToken(data[k]), Separator(k, |data|);
    var rest := EntriesFrom(data, k + 1);
    assert s[off..] == token + (sep + rest) by {
      EntriesSuffix(data, 0, k);
      ConcatAssoc(token, sep, rest);
    }
    SplitAt(s, off, token, sep + rest);
    SplitAt(s, off + 5, sep, rest);
    if k == |data| - 1 {
      assert rest == [] && sep == [];
    }
  }

  /**
   * The declaration's length: the header, five characters per token, one per
   * space and two per line break (one separator between each two bytes, a
   * line break after every twelfth byte but the last), and the footer.
   */
  lemma DeclarationLength(data: seq<Byte>, varname: string)
    ensures |Declaration(data, varname)| ==
      |varname| + 16 + 5 * |data| + (if data == [] then 0 else (|data| - 1) + (|data| - 1) / BytesPerLine) + 3
  {
    if data != [] {
      EntriesLength(data, 0);
    }
  }

  /** One body line: the tokens of `chunk` separated by single spaces. */
  function Line(chunk: seq<Byte>): string
    decreases |chunk|
  {
    if |chunk| == 0 then ""
    else if |chunk| == 1 then ByteToken(chunk[0])
    else ByteToken(chunk[0]) + " " + Line(chunk[1..])
  }

  /** The body laid out line by line: twelve bytes per line, lines joined by a line break and tab. */
  function Lines(data: seq<Byte>): string
    decreases |data|
  {
    if |data| <= BytesPerLine then Line(data)
    else Line(data[..BytesPerLine]) + "\n\t" + Lines(data[BytesPerLine..])
  }

  /** A line of `m` tokens is `6m - 1` characters long and holds no line break. */
  lemma {:induction false} LineShape(chunk: seq<Byte>)
    requires chunk != []
    ensures |Line(chunk)| == TokenWidth * |chunk| - 1
    ensures forall j :: 0 <= j < |Line(chunk)| ==> Line(chunk)[j] != '\n'
    decreases |chunk|
  {
    if |chunk| > 1 {
      LineShape(chunk[1..]);
      var t := ByteToken(chunk[0]);
      assert Line(chunk) == t + " " + Line(chunk[1..]);
      forall j | 0 <= j < |Line(chunk)|
        ensures Line(chunk)[j] != '\n'
      {
        if j >= 6 {
          assert Line(chunk)[j] == Line(chunk[1..])[j - 6];
        }
      }
    }
  }

  /**
   * A body line never overruns the wrap column by more than the width of one
   * token: a full line of twelve tokens, after its tab, ends at column 79.
   */
  lemma LineWidth(chunk: seq<Byte>)
    requires 1 <= |chunk| <= BytesPerLine
    ensures StartColumn + |Line(chunk)| <= WrapColumn + TokenWidth
    ensures |chunk| < BytesPerLine ==> StartColumn + |Line(chunk)| < WrapColumn
  {
    LineShape(chunk);
  }

  /** The text after a line's last token: nothing at the end of the data, else a line break and the next line. */
  function AfterLine(data: seq<Byte>, e: nat): string
    requires e <= |data|
  {
    if e == |data| then "" else "\n\t" + EntriesFrom(data, e)
  }

  /** The last byte of line `q`: its entry is its token, then what follows the line. */
  lemma EntryEndsLine(data: seq<Byte>, i: nat, q: nat)
    requires i < |data|
    requires i + 1 == |data| || i + 1 == BytesPerLine * (q + 1)
    ensures EntriesFrom(data, i) == Line(data[i..i + 1]) + AfterLine(data, i + 1)
  {
    var token, sep, tail := ByteToken(data[i]), Separator(i, |data|), EntriesFrom(data, i + 1);
    assert sep + tail == AfterLine(data, i + 1) by {
      assert i + 1 != |data| ==> (i + 1) % BytesPerLine == 0;
    }
    assert Line(data[i..i + 1]) == token by {
      assert data[i..i + 1] == [data[i]];
    }
    ConcatAssoc(token, sep, tail);
  }

  /** A byte of line `q` that is not its last is followed by a space, on the page and in the line. */
  lemma EntryInsideLine(data: seq<Byte>, i: nat, e: nat, q: nat)
    requires BytesPerLine * q <= i && i + 1 < e <= |data| && e <= BytesPerLine * (q + 1)
    ensures EntriesFrom(data, i) == ByteToken(data[i]) + " " + EntriesFrom(data, i + 1)
    ensures Line(data[i..e]) == ByteToken(data[i]) + " " + Line(data[i + 1..e])
  {
    assert (i + 1) % BytesPerLine == i + 1 - BytesPerLine * q;
    assert data[i..e][1..] == data[i + 1..e];
  }

  /**
   * Within line `q`, the entries from byte `i` up to the line's end `e` (the
   * line's twelfth byte, or the end of the data) are that line's tokens
   * separated by spaces, and a line break follows unless `e` is the end.
   */
  lemma {:induction false} EntriesAsLine(data: seq<Byte>, i: nat, e: nat, q: nat)
    requires BytesPerLine * q <= i < e <= |data|
    requires e == |data| || e == BytesPerLine * (q + 1)
    requires e <= BytesPerLine * (q + 1)
    ensures EntriesFrom(data, i) == Line(data[i..e]) + AfterLine(data, e)
    decreases e - i
  {
    if i + 1 == e {
      EntryEndsLine(data, i, q);
    } else {
      EntriesAsLine(data, i + 1, e, q);
      EntryInsideLine(data, i, e, q);
      var token, line, after := ByteToken(data[i]), Line(data[i + 1..e]), AfterLine(data, e);
      ConcatAssoc(token + " ", line, after);
    }
  }

  /** A layout of more than twelve bytes is its first line, a line break, and the layout of the rest. */
  lemma LinesSplit(rest: seq<Byte>, first: seq<Byte>, more: seq<Byte>)
    requires |rest| > BytesPerLine
    requires first == rest[..BytesPerLine] && more == rest[BytesPerLine..]
    ensures Lines(rest) == Line(first) + ("\n\t" + Lines(more))
  {
  }

  /** From the start of line `q`, the entries are the line-by-line layout of the bytes left. */
  lemma {:induction false} EntriesAsLines(data: seq<Byte>, q: nat)
    requires BytesPerLine * q <= |data|
    ensures EntriesFrom(data, BytesPerLine * q) == Lines(data[BytesPerLine * q..])
    decreases |data| - BytesPerLine * q
  {
    var i := BytesPerLine * q;
    var rest := data[i..];
    if i == |data| {
      assert rest == [];
    } else if |data| - i <= BytesPerLine {
      assert EntriesFrom(data, i) == Line(data[i..|data|]) + AfterLine(data, |data|) by {
        EntriesAsLine(data, i, |data|, q);
      }
      assert data[i..|data|] == rest;
    } else {
      var first, more := data[i..i + BytesPerLine], data[i + BytesPerLine..];
      assert Lines(rest) == Line(first) + ("\n\t" + Lines(more)) by {
        LinesSplit(rest, first, more);
      }
      assert EntriesFrom(data, i) == Line(first) + AfterLine(data, i + BytesPerLine) by {
        EntriesAsLine(data, i, i + BytesPerLine, q);
      }
      assert AfterLine(data, i + BytesPerLine) == "\n\t" + Lines(more) by {
        EntriesAsLines(data, q + 1);
      }
    }
  }

  /**
   * The counter-driven body is the line-by-line layout: full lines of twelve
   * tokens separated by spaces, and one last line with the rest.
   */
  lemma BodyIsLines(data: seq<Byte>)
    ensures Body(data) == Lines(data)
  {
    EntriesAsLines(data, 0);
    assert data[BytesPerLine * 0..] == data;
  }

  /**
   * Line `q` of the body, read off the body itself: from the offset of its
   * first token, the body holds the tokens of bytes 12q up to the line's end
   * `e`, separated by spaces, then a line break unless the data ends there;
   * after its tab that line ends at most one token past WrapColumn.
   */
  lemma BodyLineWidth(data: seq<Byte>, q: nat)
    requires BytesPerLine * q < |data|
    ensures var i := BytesPerLine * q;
            var e := if |data| < i + BytesPerLine then |data| else i + BytesPerLine;
            TokenOffset(i) <= |Body(data)| &&
            Body(data)[TokenOffset(i)..] == Line(data[i..e]) + AfterLine(data, e) &&
            StartColumn + |Line(data[i..e])| <= WrapColumn + TokenWidth
  {
    var i := BytesPerLine * q;
    var e := if |data| < i + BytesPerLine then |data| else i + BytesPerLine;
    assert Body(data)[TokenOffset(i)..] == EntriesFrom(data, i) by {
      EntriesSuffix(data, 0, i);
    }
    assert EntriesFrom(data, i) == Line(data[i..e]) + AfterLine(data, e) by {
      EntriesAsLine(data, i, e, q);
    }
    assert StartColumn + |Line(data[i..e])| <= WrapColumn + TokenWidth by {
      LineWidth(data[i..e]);
    }
  }
}
