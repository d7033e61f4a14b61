# bin2go in Dafny

bin2go turns a binary blob into Go source: a declaration
`var <name> = []byte{ ... }`, optionally preceded by a `package <pkg>` clause.
Each byte becomes a token `0xNN,` with two lower-case hexadecimal digits.
The tokens follow one another in input order. A running column counter
decides the separator after each token. It starts at 8, grows by 6 per byte,
and once it reaches 78 the next separator is a line break and tab, and the
counter resets. Otherwise the separator is one space. The last token gets no
separator.

This project models the formatting core of `bin2go.go`: `writeData` and the
package-clause step of `writeOutput`. The variable name and the package name
are explicit parameters rather than command-line flags. The output writer is a
`Writer` object whose text only grows and whose writes never fail.

Files:

- `wrappers.dfy`: module `Wrappers`, an `Option` type for the readers.
- `hex.dfy`: module `Hex`. It holds the `Byte` type, the nibble-to-digit table
  and its inverse, and the token `0xNN,` with a reader for it.
- `bin2go.dfy`: module `Bin2Go`. It gives the expected text as functions
  (`Header`, `Separator`, `Entry`, `EntriesFrom`, `Body`, `Declaration`,
  `PackageClause`, `Output`). It also holds the `Writer` class and the methods
  `WriteData` and `WriteOutput`. These follow the program's loop and counter,
  and are proved to append exactly that text.
- `decode.dfy`: module `Decode`, a reader for the generated text, with
  round-trip lemmas. Reading the output back gives the input bytes.
- `seqs.dfy`: module `Seqs`, three small facts about string concatenation
  and slicing that the proofs cite.
- `layout.dfy`: module `Layout`, properties of the text. It covers the empty
  case, the package-clause prefix, the exact length, the
  position of each byte's token, and an independent line-by-line description
  of the body (`Lines`: twelve tokens per line) that the counter-driven body
  is proved equal to.

The comma belongs to the token, so it is written after every byte, the last
one included (bin2go.go:71): two bytes 0 and 1 give `0x00, 0x01,` and not
`0x00, 0x01`. Only the space or line break is skipped after the last byte
(bin2go.go:77). The model follows the code here, not the shorter form a
reader might expect.

## Model

| member | source | states |
|---|---|---|
| `Hex.HexDigit` | bin2go.go:71 | a nibble 0-15 maps to a lower-case hex digit, and that digit reads back as the same nibble |
| `Hex.DigitCanonical` | bin2go.go:71 | a digit that reads as nibble `v` is the very digit the table gives for `v` (the table is injective) |
| `Hex.ByteToken` | bin2go.go:71 | the `%.2x` token is five characters: `0x`, two lower-case hex digits whose value is 16*hi + lo = the byte, and `,` |
| `Hex.TokenRoundTrip` | bin2go.go:71 | reading the token of byte `b` gives back `b` |
| `Hex.TokenCanonical` | bin2go.go:71 | any text that reads as byte `b` is exactly the token written for `b` |
| `Bin2Go.Header` | bin2go.go:64 | the header is \|name\| + 16 characters: `var `, then the name, then ` = []byte{` and a line break and tab |
| `Bin2Go.PackageClause` | bin2go.go:112-115 | empty exactly when the package name is empty; otherwise \|pkg\| + 10 characters: `package `, the name, and a blank line |
| `Bin2Go.Separator` | bin2go.go:74-90 | the closed rule for what follows byte `i`'s token. It is nothing exactly after the last byte. For any other byte it is a line break and tab exactly when the counter before the byte, 8 + 6*(i mod 12), plus the byte's 6 columns reaches 78; otherwise one space |
| `Bin2Go.Entry` | bin2go.go:71-90 | byte `i`'s entry is a five-character token that reads back as `data[i]`, followed by exactly its separator |
| `Bin2Go.EntriesFrom` | bin2go.go:69-92 | the entries of bytes `i..` take at least five characters per byte and are empty exactly when no byte is left |
| `Bin2Go.Body` | bin2go.go:69-92 | the body takes at least five characters per byte and is empty exactly when there are no bytes |
| `Bin2Go.Declaration` | bin2go.go:60-95 | the declaration starts with the header, ends with the footer `\n}\n` (bin2go.go:93), and is at least \|name\| + 19 + 5 per byte long |
| `Bin2Go.Output` | bin2go.go:111-118 | the output is exactly the package clause, then exactly the declaration, so it too ends with `\n}\n` |
| `Bin2Go.Writer.constructor` | bin2go.go:106-108 | a fresh output sink holds no text |
| `Bin2Go.Writer.Write` | bin2go.go:64-65 | a write appends its text to the sink and never fails |
| `Bin2Go.CounterStep` | bin2go.go:68-83 | with the counter at 8 + 6*(i mod 12) before byte `i`, adding 6 reaches 78 exactly when (i+1) mod 12 = 0, and otherwise gives 8 + 6*((i+1) mod 12) |
| `Bin2Go.WriteData` | bin2go.go:60-95 | the loop with its running counter appends exactly header, each byte's token and separator in order, and `\n}\n`; invariant: before byte `i`, n = 8 + 6*(i mod 12) |
| `Bin2Go.WriteOutput` | bin2go.go:111-118 | appends `package <pkg>\n\n` when `pkg` is non-empty, then the declaration |
| `Decode.EntriesRoundTrip` | bin2go.go:69-91 | the tokens and separators written for bytes `i..` read back as exactly `data[i..]` |
| `Decode.BodyRoundTrip` | bin2go.go:67-92 | the body written for `data` reads back as `data`, the empty body included |
| `Decode.DeclarationRoundTrip` | bin2go.go:64-93 | stripping the header and footer of the declaration and reading the body gives back `data` |
| `Decode.OutputRoundTrip` | bin2go.go:111-118 | stripping the package clause and reading the declaration gives back `data` |
| `Layout.EmptyDeclaration` | bin2go.go:64-93 | for no bytes the output is exactly `var <name> = []byte{\n\t\n}\n` |
| `Layout.OutputPrefix` | bin2go.go:112-118 | a non-empty package name puts exactly `package <pkg>\n\n` in front; an empty one adds nothing and the output begins with `var ` |
| `Layout.EntryLength` | bin2go.go:69-90 | a byte that is not the last takes 6 characters, or 7 when a line break follows it, which is exactly the step between consecutive token offsets |
| `Layout.EntriesSuffix` | bin2go.go:69-91 | skipping the entries of bytes `i..k-1` (6 characters each, one more per line break) leaves the entries from byte `k` |
| `Layout.EntriesLength` | bin2go.go:69-91 | the entries from byte `i` end right after the last byte's token |
| `Layout.BodyTokenAt` | bin2go.go:69-91 | byte `k`'s token sits at offset 6k + k/12 of the body and is followed by its separator; after the last byte's token the body ends |
| `Layout.DeclarationLength` | bin2go.go:64-93 | the length in characters is \|name\| + 16 + 5 per byte + (n-1 separators, one extra character for each of the (n-1)/12 line breaks) + 3 |
| `Layout.LineShape` | bin2go.go:84-88 | a line of `m` space-separated tokens is 6m - 1 characters and holds no line break |
| `Layout.LineWidth` | bin2go.go:78-88 | a body line after its tab ends at most one token past column 78; a line with fewer than 12 tokens ends before column 78 |
| `Layout.EntryEndsLine` | bin2go.go:76-83 | the last byte of the data or of a line is its token followed by nothing, or by a line break and the next line |
| `Layout.EntryInsideLine` | bin2go.go:84-88 | a byte inside a line is followed by a single space |
| `Layout.EntriesAsLine` | bin2go.go:74-90 | from byte `i` to the end of its line, the entries are that line's tokens separated by spaces, then a line break unless the data ends there |
| `Layout.EntriesAsLines` | bin2go.go:74-90 | from the start of any line (a multiple of twelve bytes), the entries are the line-by-line layout of the remaining bytes |
| `Layout.BodyIsLines` | bin2go.go:67-91 | the counter-driven body equals full lines of twelve tokens joined by a line break and tab, then a last line with the rest |
| `Layout.BodyLineWidth` | bin2go.go:74-90 | line `q` of the body starts at the offset of byte 12q's token. It holds the tokens up to that line's end, separated by spaces, then a line break unless the data ends there. After its tab it ends at most one token past column 78 |

## Left out

- Command-line parsing, the usage text and the argument-count check (bin2go.go:12-16, 26-34, 125-131): this is flag-package plumbing. The variable name and package name are parameters instead.
- Reading the input from a file or from standard input (`readInput`, bin2go.go:36-51): this is file and stream I/O. The model takes the bytes as a parameter.
- Creating the output file, `bufio` buffering, closing the file and `Flush` (bin2go.go:97-109, 120-122): these are I/O resources. The sink is the `Writer` object.
- `checkOutputFailure` and the process exit codes (bin2go.go:18-24, 53-58): the writer is modelled as never failing, so no write error, partial output or exit path is modelled.
- The internals of `fmt.Fprintf`: the `%.2x` rendering is re-specified by hand, with a digit table and its inverse.
- No check is made that the variable or package name is a valid Go identifier. The source does not check this either.
- `Layout.DeclarationLength`: names are modelled as sequences of characters (Unicode scalar values), not as the raw bytes Go prints through `%s` (bin2go.go:64, 113). A name that is not valid UTF-8 cannot be represented. The length is counted in characters, which equals the byte count of the Go output only for ASCII names.
