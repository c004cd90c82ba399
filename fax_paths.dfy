/** The file names FaxProcessor derives for one outgoing fax: the check that
    accepts a PDF, the PDF path under the outgoing fax directory, the TIFF
    path ghostscript writes, the call-file path and the Asterisk spool path
    the call file is moved to. */
module FaxPaths {
  import opened Text

  const PdfExt := ".pdf"
  const TiffExt := ".tiff"
  const CallExt := ".call"
  /** The directory Asterisk watches for call files. */
  const SpoolDir := "/var/spool/asterisk/outgoing/"

  /** writeFaxPDF's guard: the lower-cased filename contains ".pdf" anywhere. */
  predicate IsPdfName(filename: string) {
    IndexOf(Lower(filename), PdfExt) != -1
  }

  /** Where writeFaxPDF writes the PDF: the directory string and the file name
      concatenated, with no separator added. */
  function PdfPath(faxDirectoryOut: string, filename: string): string {
    faxDirectoryOut + filename
  }

  /** convertPDFToTiff's output path: `/\.pdf/i` replaced by ".tiff". */
  function TiffPath(pdfPath: string): string {
    ReplaceFirstIgnoreCase(pdfPath, PdfExt, TiffExt)
  }

  /** generateCallFile's output path: the string ".tiff" replaced by ".call". */
  function CallPath(tiffPath: string): string {
    ReplaceFirst(tiffPath, TiffExt, CallExt)
  }

  /** sendFax's target: the spool directory joined with the call file's basename. */
  function SpoolTarget(callFile: string): string {
    SpoolDir + Basename(callFile)
  }

  /** ".pdf" occurs at position `i` of `s`, letters compared without case. */
  predicate PdfAt(s: string, i: int) {
    0 <= i && i + |PdfExt| <= |s| && Lower(s[i..i + |PdfExt|]) == PdfExt
  }

  /** `i` is the leftmost position where ".pdf" occurs without case. */
  predicate FirstPdfAt(s: string, i: int) {
    PdfAt(s, i) && forall j :: 0 <= j < i ==> !PdfAt(s, j)
  }

  lemma LowerPdfExt()
    ensures Lower(PdfExt) == PdfExt
  {
    assert Lower(PdfExt)[0] == '.' && Lower(PdfExt)[1] == 'p';
    assert Lower(PdfExt)[2] == 'd' && Lower(PdfExt)[3] == 'f';
  }

  lemma PdfAtIsMatchOfLower(s: string, i: int)
    ensures PdfAt(s, i) <==> MatchAt(Lower(s), PdfExt, i)
  {
    if 0 <= i && i + |PdfExt| <= |s| {
      LowerSlice(s, i, i + |PdfExt|);
    }
  }

  lemma FirstPdfAtIsFirstMatchOfLower(s: string, i: int)
    ensures FirstPdfAt(s, i) <==> FirstMatch(Lower(s), PdfExt, i)
  {
    PdfAtIsMatchOfLower(s, i);
    forall j | 0 <= j < i
      ensures PdfAt(s, j) <==> MatchAt(Lower(s), PdfExt, j)
    {
      PdfAtIsMatchOfLower(s, j);
    }
  }

  /** A file name is accepted exactly when ".pdf" occurs in it in any mix of
      upper and lower case, anywhere, not only at its end. */
  lemma AcceptedIffPdfOccurs(filename: string)
    ensures IsPdfName(filename) <==> exists i :: PdfAt(filename, i)
  {
    var r := IndexOf(Lower(filename), PdfExt);
    IndexOfSpec(Lower(filename), PdfExt);
    if r != -1 {
      PdfAtIsMatchOfLower(filename, r);
    } else {
      forall i | PdfAt(filename, i)
        ensures false
      {
        PdfAtIsMatchOfLower(filename, i);
      }
    }
  }

  /** An occurrence of a pattern starts with the pattern's first character. */
  lemma MatchStartsWith(t: string, pat: string, j: int)
    requires 0 <= j < |t| && |pat| > 0 && t[j] != pat[0]
    ensures !MatchAt(t, pat, j)
  {
    if j + |pat| <= |t| {
      assert t[j..j + |pat|][0] == t[j];
    }
  }

  /** A case-insensitive ".pdf" starts with a '.'. */
  lemma PdfStartsWithDot(s: string, j: int)
    requires 0 <= j < |s| && s[j] != '.'
    ensures !PdfAt(s, j)
  {
    if j + |PdfExt| <= |s| {
      assert Lower(s[j..j + |PdfExt|])[0] == LowerChar(s[j]);
    }
  }

  /** ".pdf" in upper, lower or mixed case. */
  predicate IsPdfExtIgnoringCase(e: string) {
    |e| == 4 && e[0] == '.' && LowerChar(e[1]) == 'p' && LowerChar(e[2]) == 'd' && LowerChar(e[3]) == 'f'
  }

  /** After a prefix without '.', an extension ".pdf" in any case is the
      leftmost case-insensitive occurrence. */
  lemma FirstPdfAfterPlainPrefix(a: string, e: string, b: string)
    requires '.' !in a && IsPdfExtIgnoringCase(e)
    ensures FirstPdfAt(a + e + b, |a|)
  {
    var s := a + e + b;
    assert s[|a|..|a| + |PdfExt|] == e;
    assert Lower(e) == PdfExt;
    forall j | 0 <= j < |a| ensures !PdfAt(s, j) {
      assert s[j] == a[j];
      PdfStartsWithDot(s, j);
    }
  }

  /** A file name without any '.' is rejected. */
  lemma NameWithoutDotRejected(filename: string)
    requires '.' !in filename
    ensures !IsPdfName(filename)
  {
    AcceptedIffPdfOccurs(filename);
    forall i | 0 <= i < |filename| ensures !PdfAt(filename, i) {
      PdfStartsWithDot(filename, i);
    }
  }

  /** A name whose first '.' begins ".pdf" in any case is accepted. */
  lemma AcceptedAfterPlainPrefix(a: string, e: string, b: string)
    requires '.' !in a && IsPdfExtIgnoringCase(e)
    ensures IsPdfName(a + e + b)
  {
    FirstPdfAfterPlainPrefix(a, e, b);
    AcceptedIffPdfOccurs(a + e + b);
  }

  /** "<name>.PDF<more>", "<name>.Pdf<more>" and "<name>.pdf<more>" are all
      accepted, whatever follows the extension. */
  lemma AcceptedNameExamples(name: string, more: string)
    requires '.' !in name
    ensures IsPdfName(name + ".PDF" + more) && IsPdfName(name + ".Pdf" + more)
    ensures IsPdfName(name + ".pdf" + more)
  {
    AcceptedAfterPlainPrefix(name, ".PDF", more);
    AcceptedAfterPlainPrefix(name, ".Pdf", more);
    AcceptedAfterPlainPrefix(name, ".pdf", more);
  }

  /** The TIFF path is the PDF path with its leftmost case-insensitive ".pdf"
      replaced by ".tiff"; every other character is kept. */
  lemma TiffPathReplacesFirstPdf(p: string, i: int)
    requires FirstPdfAt(p, i)
    ensures TiffPath(p) == p[..i] + TiffExt + p[i + |PdfExt|..]
    ensures |TiffPath(p)| == |p| + 1
  {
    FirstPdfAtIsFirstMatchOfLower(p, i);
    ReplaceFirstIgnoreCaseSpec(p, PdfExt, TiffExt);
  }

  /** Without a case-insensitive ".pdf" the TIFF path is the PDF path itself. */
  lemma TiffPathWithoutPdf(p: string)
    requires forall i :: !PdfAt(p, i)
    ensures TiffPath(p) == p
  {
    forall j | 0 <= j <= |p| ensures !MatchAt(Lower(p), PdfExt, j) {
      PdfAtIsMatchOfLower(p, j);
    }
    ReplaceFirstIgnoreCaseSpec(p, PdfExt, TiffExt);
  }

  /** The case-insensitive ".pdf" at position `k` of the name is at position
      |dir| + k of the joined path. */
  lemma PdfAtShift(dir: string, name: string, k: int)
    requires 0 <= k
    ensures PdfAt(name, k) <==> PdfAt(dir + name, |dir| + k)
  {
    if 0 <= k && k + |PdfExt| <= |name| {
      assert (dir + name)[|dir| + k..|dir| + k + |PdfExt|] == name[k..k + |PdfExt|];
    }
  }

  lemma FirstPdfShift(dir: string, name: string, k: int)
    requires FirstPdfAt(name, k)
    requires forall j :: 0 <= j < |dir| ==> !PdfAt(dir + name, j)
    ensures FirstPdfAt(dir + name, |dir| + k)
  {
    PdfAtShift(dir, name, k);
    forall j | |dir| <= j < |dir| + k ensures !PdfAt(dir + name, j) {
      PdfAtShift(dir, name, j - |dir|);
    }
  }

  /** The leftmost case-insensitive ".pdf" of an accepted name. */
  lemma FirstPdfOfAcceptedName(name: string) returns (k: int)
    requires IsPdfName(name)
    ensures FirstPdfAt(name, k)
  {
    k := IndexOf(Lower(name), PdfExt);
    IndexOfSpec(Lower(name), PdfExt);
    FirstPdfAtIsFirstMatchOfLower(name, k);
  }

  /** When no ".pdf" begins inside the directory, the rewrite happens inside
      the file name: the TIFF path is the directory followed by the file name
      rewritten. */
  lemma TiffPathStaysInName(dir: string, name: string)
    requires IsPdfName(name)
    requires forall j :: 0 <= j < |dir| ==> !PdfAt(dir + name, j)
    ensures TiffPath(PdfPath(dir, name)) == dir + TiffPath(name)
  {
    var k := FirstPdfOfAcceptedName(name);
    FirstPdfShift(dir, name, k);
    TiffPathOfShiftedPdf(dir, name, k);
  }

  lemma TiffPathOfShiftedPdf(dir: string, name: string, k: int)
    requires FirstPdfAt(name, k)
    requires FirstPdfAt(dir + name, |dir| + k)
    ensures TiffPath(dir + name) == dir + TiffPath(name)
  {
    TiffPathReplacesFirstPdf(dir + name, |dir| + k);
    TiffPathReplacesFirstPdf(name, k);
    var p := dir + name;
    assert p[..|dir| + k] == dir + name[..k];
    assert p[|dir| + k + |PdfExt|..] == name[k + |PdfExt|..];
  }

  /** After a prefix without '.', the ".pdf" (in any case) that follows is
      the one rewritten. */
  lemma TiffPathAfterPlainPrefix(a: string, e: string, b: string)
    requires '.' !in a && IsPdfExtIgnoringCase(e)
    ensures TiffPath(a + e + b) == a + TiffExt + b
  {
    FirstPdfAfterPlainPrefix(a, e, b);
    TiffPathReplacesFirstPdf(a + e + b, |a|);
    assert (a + e + b)[..|a|] == a;
    assert (a + e + b)[|a| + |PdfExt|..] == b;
  }

  /** A ".pdf" inside the configured directory is rewritten instead of the
      file's own extension: "<a>.pdf/<name>" becomes "<a>.tiff/<name>". */
  lemma TiffPathCanRewriteDirectory(a: string, name: string)
    requires '.' !in a
    ensures TiffPath(PdfPath(a + ".pdf/", name)) == a + ".tiff/" + name
  {
    TiffPathAfterPlainPrefix(a, ".pdf", "/" + name);
    assert a + ".pdf/" + name == a + ".pdf" + ("/" + name);
    assert a + ".tiff/" + name == a + TiffExt + ("/" + name);
  }

  /** The call-file path is the TIFF path with its leftmost ".tiff", compared
      with case, replaced by ".call"; its length is unchanged. */
  lemma CallPathReplacesFirstTiff(t: string, i: int)
    requires FirstMatch(t, TiffExt, i)
    ensures CallPath(t) == t[..i] + CallExt + t[i + |TiffExt|..]
    ensures |CallPath(t)| == |t|
  {
    ReplaceFirstSpec(t, TiffExt, CallExt);
  }

  /** Without ".tiff" (compared with case) the call-file path is the TIFF path
      itself, so the call file would be written over the TIFF. */
  lemma CallPathWithoutTiff(t: string)
    requires NoMatch(t, TiffExt)
    ensures CallPath(t) == t
  {
    ReplaceFirstSpec(t, TiffExt, CallExt);
  }

  /** The rewrite is case-sensitive: a path whose only '.' begins ".TIFF" is
      not rewritten. */
  lemma CallPathIsCaseSensitive(a: string)
    requires '.' !in a
    ensures CallPath(a + ".TIFF") == a + ".TIFF"
  {
    var t := a + ".TIFF";
    forall j | 0 <= j <= |t| ensures !MatchAt(t, TiffExt, j) {
      if j < |a| {
        assert t[j] == a[j];
        MatchStartsWith(t, TiffExt, j);
      } else if j == |a| {
        assert t[j..j + |TiffExt|][1] == 'T';
      }
    }
    CallPathWithoutTiff(t);
  }

  /** After a prefix without '.', the ".tiff" that follows is the one
      rewritten. */
  lemma CallPathAfterPlainPrefix(a: string, b: string)
    requires '.' !in a
    ensures CallPath(a + TiffExt + b) == a + CallExt + b
  {
    var t := a + TiffExt + b;
    assert t[|a|..|a| + |TiffExt|] == TiffExt;
    forall j | 0 <= j < |a| ensures !MatchAt(t, TiffExt, j) {
      assert t[j] == a[j];
      MatchStartsWith(t, TiffExt, j);
    }
    assert FirstMatch(t, TiffExt, |a|);
    CallPathReplacesFirstTiff(t, |a|);
    assert t[..|a|] == a;
    assert t[|a| + |TiffExt|..] == b;
  }

  /** When nothing before the leftmost ".pdf" is a '.', the call-file path is
      the PDF path with that ".pdf" replaced by ".call". */
  lemma CallPathOfPdfPath(p: string, i: int)
    requires FirstPdfAt(p, i)
    requires '.' !in p[..i]
    ensures CallPath(TiffPath(p)) == p[..i] + CallExt + p[i + |PdfExt|..]
  {
    TiffPathReplacesFirstPdf(p, i);
    CallPathAfterPlainPrefix(p[..i], p[i + |PdfExt|..]);
  }

  /** The spool target keeps the call file's own name when the outgoing fax
      directory ends with '/' and the name holds no '/'. */
  lemma SpoolTargetKeepsName(dir: string, name: string)
    requires '/' !in name && name != []
    requires dir == [] || dir[|dir| - 1] == '/'
    ensures SpoolTarget(dir + name) == SpoolDir + name
  {
    BasenameOfJoin(dir, name);
  }

  /** The usual case end to end: "<base>.pdf" in a directory ending with '/',
      with no '.' before the extension, gives the call file "<dir><base>.call". */
  lemma CallPathOfPlainName(dir: string, base: string)
    requires '.' !in dir && '.' !in base
    ensures CallPath(TiffPath(PdfPath(dir, base + PdfExt))) == dir + base + CallExt
  {
    var a := dir + base;
    assert PdfPath(dir, base + PdfExt) == a + PdfExt;
    TiffOfPlainName(a);
    CallOfPlainName(a);
  }

  /** ... and that call file is moved to "/var/spool/asterisk/outgoing/<base>.call". */
  lemma SpoolTargetOfPlainName(dir: string, base: string)
    requires '/' !in base
    requires dir == [] || dir[|dir| - 1] == '/'
    ensures SpoolTarget(dir + base + CallExt) == SpoolDir + base + CallExt
  {
    assert dir + base + CallExt == dir + (base + CallExt);
    SpoolTargetKeepsName(dir, base + CallExt);
  }

  /** A file name holding '/' passes the name check and its call file can
      end in "..": "a.pdf/.." gives "<dir>a.call/..", whose basename is "..",
      so the spool target is "/var/spool/asterisk/outgoing/..", a path that
      `path.join` would normalise to the spool's parent. */
  lemma SlashNameEndsInParent(dir: string)
    requires '.' !in dir
    ensures IsPdfName("a.pdf/..")
    ensures CallPath(TiffPath(PdfPath(dir, "a.pdf/.."))) == dir + "a.call/.."
    ensures SpoolTarget(dir + "a.call/..") == SpoolDir + ".."
  {
    assert "a.pdf/.." == "a" + PdfExt + "/..";
    AcceptedAfterPlainPrefix("a", PdfExt, "/..");
    var a := dir + "a";
    assert PdfPath(dir, "a.pdf/..") == a + PdfExt + "/..";
    TiffPathAfterPlainPrefix(a, PdfExt, "/..");
    CallPathAfterPlainPrefix(a, "/..");
    assert a + CallExt + "/.." == dir + "a.call/..";
    var d := dir + "a.call/";
    assert dir + "a.call/.." == d + "..";
    LastSegmentAppend(d, "..");
  }

  lemma TiffOfPlainName(a: string)
    requires '.' !in a
    ensures TiffPath(a + PdfExt) == a + TiffExt
  {
    TiffPathAfterPlainPrefix(a, PdfExt, []);
    assert a + PdfExt + [] == a + PdfExt;
    assert a + TiffExt + [] == a + TiffExt;
  }

  lemma CallOfPlainName(a: string)
    requires '.' !in a
    ensures CallPath(a + TiffExt) == a + CallExt
  {
    CallPathAfterPlainPrefix(a, []);
    assert a + TiffExt + [] == a + TiffExt;
    assert a + CallExt + [] == a + CallExt;
  }


}
