/**
 * A reader for the text bin2go writes, used to state that nothing is lost:
 * the tokens of the body, read back in order, are the input bytes.
 * The program itself has no decoder; this one exists only to state that property.
 */
module Decode {
  import opened Wrappers
  import opened Hex
  import opened Bin2Go
  import opened Seqs

  /** Puts `b` in front of a decoded sequence; a failure stays a failure. */
  function Prepend(b: Byte, r: Option<seq<Byte>>): (p: Option<seq<Byte>>)
    ensures p.Some? <==> r.Some?
    ensures p.Some? ==> p.value == [b] + r.value
  {
    match r
    case None => None
    case Some(bs) => Some([b] + bs)
  }

  /**
   * Reads one or more tokens `0xNN,`, each but the last followed by a space
   * or by a line break and tab; None when the text has any other shape.
   */
  function ParseEntries(s: string): (r: Option<seq<Byte>>)
    ensures r.Some? ==> 1 <= |r.value| && 5 * |r.value| <= |s|
    decreases |s|
  {
    if |s| < 5 then None
    else
      match ParseToken(s[..5])
      case None => None
      case Some(b) =>
        var rest := s[5..];
        if rest == [] then Some([b])
        else if rest[0] == ' ' then Prepend(b, ParseEntries(rest[1..]))
        else if |rest| >= 2 && rest[0] == '\n' && rest[1] == '\t' then Prepend(b, ParseEntries(rest[2..]))
        else None
  }

  /** Reads a body: empty, or one or more separated tokens. */
  function ParseBody(s: string): (r: Option<seq<Byte>>)
    ensures s == [] ==> r == Some([])
    ensures s != [] && r.Some? ==> |r.value| >= 1
  {
    if s == [] then Some([]) else ParseEntries(s)
  }

  /** Reads a declaration of `varname`: strips header and footer, then reads the body. */
  function ParseDeclaration(s: string, varname: string): (r: Option<seq<Byte>>)
    ensures r.Some? ==> |s| >= |Header(varname)| + |Footer|
    ensures r.Some? ==> s[..|Header(varname)|] == Header(varname) && s[|s| - |Footer|..] == Footer
  {
    var h := Header(varname);
    if |s| >= |h| + |Footer| && s[..|h|] == h && s[|s| - |Footer|..] == Footer then
      ParseBody(s[|h|..|s| - |Footer|])
    else
      None
  }

  /** Reads the whole output for package `pkg`: strips the package clause, then reads the declaration. */
  function ParseOutput(s: string, pkg: string, varname: string): (r: Option<seq<Byte>>)
    ensures r.Some? ==> |s| >= |PackageClause(pkg)| && s[..|PackageClause(pkg)|] == PackageClause(pkg)
  {
    var p := PackageClause(pkg);
    if |s| >= |p| && s[..|p|] == p then ParseDeclaration(s[|p|..], varname) else None
  }

  /** The entries of bytes `i` onwards read back as exactly those bytes. */
  lemma {:induction false} EntriesRoundTrip(data: seq<Byte>, i: nat)
    requires i < |data|
    ensures ParseEntries(EntriesFrom(data, i)) == Some(data[i..])
    decreases |data| - i
  {
    var s, token := EntriesFrom(data, i), ByteToken(data[i]);
    var sep, tail := Separator(i, |data|), EntriesFrom(data, i + 1);
    assert ParseToken(s[..5]) == Some(data[i]) && s[5..] == sep + tail by {
      ConcatAssoc(token, sep, tail);
      SplitAt(s, 0, token, sep + tail);
      TokenRoundTrip(data[i]);
    }
    if i + 1 == |data| {
      assert s[5..] == [];
      assert data[i..] == [data[i]];
    } else {
      assert ParseEntries(tail) == Some(data[i + 1..]) by {
        EntriesRoundTrip(data, i + 1);
      }
      assert data[i..] == [data[i]] + data[i + 1..];
      assert s[5..][|sep|..] == tail by {
        DropPrefix(sep, tail, 0);
      }
    }
  }

  /** Reading the body of `data` gives back `data`. */
  lemma BodyRoundTrip(data: seq<Byte>)
    ensures ParseBody(Body(data)) == Some(data)
  {
    if data != [] {
      EntriesRoundTrip(data, 0);
      assert data[0..] == data;
    }
  }

  /** Reading the declaration of `data` gives back `data`. */
  lemma DeclarationRoundTrip(data: seq<Byte>, varname: string)
    ensures ParseDeclaration(Declaration(data, varname), varname) == Some(data)
  {
    var s, h := Declaration(data, varname), Header(varname);
    assert s[..|h|] == h;
    assert s[|s| - |Footer|..] == Footer;
    assert s[|h|..|s| - |Footer|] == Body(data);
    BodyRoundTrip(data);
  }

  /** Reading the whole output, package clause included, gives back `data`. */
  lemma OutputRoundTrip(data: seq<Byte>, pkg: string, varname: string)
    ensures ParseOutput(Output(data, pkg, varname), pkg, varname) == Some(data)
  {
    var s, p := Output(data, pkg, varname), PackageClause(pkg);
    assert s[..|p|] == p;
    assert s[|p|..] == Declaration(data, varname);
    DeclarationRoundTrip(data, varname);
  }
}
