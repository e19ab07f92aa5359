/** The bounded-memory PDF check of interface/vendors/document_upload_views.py.

    An uploaded file is read chunk by chunk.  Only the first 4 bytes, the last 2048 bytes and a
    32-byte overlap are kept, yet the answers are those of a search through the whole file. */
module PdfScan {

  type byte = x: int | 0 <= x < 256

  const PDF_EOF_TAIL_BYTES: nat := 2048
  const PDF_SCAN_OVERLAP_BYTES: nat := 32
  const PDF_HEADER_BYTES: nat := 4
  /** "/Type /Page" and "/Type/Page" */
  const PDF_PAGE_MARKER_SPACED: seq<byte> :=
    [0x2f, 0x54, 0x79, 0x70, 0x65, 0x20, 0x2f, 0x50, 0x61, 0x67, 0x65]
  const PDF_PAGE_MARKER_TIGHT: seq<byte> :=
    [0x2f, 0x54, 0x79, 0x70, 0x65, 0x2f, 0x50, 0x61, 0x67, 0x65]
  /** "/Encrypt" */
  const PDF_PROTECTION_MARKER: seq<byte> := [0x2f, 0x45, 0x6e, 0x63, 0x72, 0x79, 0x70, 0x74]
  /** "%%EOF" (section 7.5.5 of ISO 32000-1) and "%PDF" (section 7.5.2) */
  const PDF_EOF_MARKER: seq<byte> := [0x25, 0x25, 0x45, 0x4f, 0x46]
  const PDF_HEADER_MARKER: seq<byte> := [0x25, 0x50, 0x44, 0x46]

  predicate OccursAt(marker: seq<byte>, s: seq<byte>, i: int) {
    0 <= i <= |s| - |marker| && s[i..i + |marker|] == marker
  }

  /** Python's `marker in s` on byte strings. */
  predicate Contains(marker: seq<byte>, s: seq<byte>) {
    exists i | 0 <= i <= |s| :: OccursAt(marker, s, i)
  }

  /** Python's `s[:n]` and `s[-n:]` for a positive n. */
  function First(s: seq<byte>, n: nat): seq<byte> {
    if |s| <= n then s else s[..n]
  }

  function Last(s: seq<byte>, n: nat): seq<byte> {
    if |s| <= n then s else s[|s| - n..]
  }

  function Flatten(chunks: seq<seq<byte>>): seq<byte> {
    if chunks == [] then [] else chunks[0] + Flatten(chunks[1..])
  }

  lemma {:induction false} FlattenSnoc(chunks: seq<seq<byte>>, i: nat)
    requires i < |chunks|
    ensures Flatten(chunks[..i + 1]) == Flatten(chunks[..i]) + chunks[i]
    decreases i
  {
    if i == 0 {
      assert chunks[..1][1..] == [];
    } else {
      FlattenSnoc(chunks[1..], i - 1);
      assert chunks[..i + 1][1..] == chunks[1..][..i];
      assert chunks[..i][1..] == chunks[1..][..i - 1];
    }
  }

  // ---------------------------------------------------------------- the overlap window

  lemma ContainsInPart(marker: seq<byte>, before: seq<byte>, s: seq<byte>, after: seq<byte>)
    requires Contains(marker, s)
    ensures Contains(marker, before + s + after)
  {
    var i :| 0 <= i <= |s| && OccursAt(marker, s, i);
    assert (before + s + after)[|before| + i..|before| + i + |marker|] == s[i..i + |marker|];
    assert OccursAt(marker, before + s + after, |before| + i);
  }

  lemma LastConcat(seen: seq<byte>, chunk: seq<byte>, n: nat)
    ensures Last(Last(seen, n) + chunk, n) == Last(seen + chunk, n)
  {
  }

  /** An occurrence that is not an old one starts inside the kept bytes. */
  lemma NewOccurrenceIsInWindow(marker: seq<byte>, overlap: nat, seen: seq<byte>, chunk: seq<byte>, i: nat)
    requires |marker| <= overlap + 1
    requires OccursAt(marker, seen + chunk, i) && |seen| < i + |marker|
    ensures Contains(marker, Last(seen, overlap) + chunk)
  {
    var kept := Last(seen, overlap);
    var j := i - (|seen| - |kept|);
    assert (kept + chunk)[j..j + |marker|] == (seen + chunk)[i..i + |marker|];
    assert OccursAt(marker, kept + chunk, j);
  }

  /** One step of the scan: an occurrence in the longer file is either an old one or lies
      entirely in the window made of the kept overlap and the new chunk. */
  lemma WindowStep(marker: seq<byte>, overlap: nat, seen: seq<byte>, chunk: seq<byte>)
    requires |marker| <= overlap + 1
    ensures Contains(marker, seen + chunk) <==>
            Contains(marker, seen) || Contains(marker, Last(seen, overlap) + chunk)
  {
    var kept := Last(seen, overlap);
    var dropped := seen[..|seen| - |kept|];
    if Contains(marker, seen) {
      ContainsInPart(marker, [], seen, chunk);
      assert [] + seen + chunk == seen + chunk;
    }
    if Contains(marker, kept + chunk) {
      ContainsInPart(marker, dropped, kept + chunk, []);
      assert dropped + (kept + chunk) + [] == seen + chunk;
    }
    if Contains(marker, seen + chunk) {
      var i :| 0 <= i <= |seen + chunk| && OccursAt(marker, seen + chunk, i);
      if i + |marker| <= |seen| {
        assert seen[i..i + |marker|] == (seen + chunk)[i..i + |marker|];
        assert OccursAt(marker, seen, i);
      } else {
        NewOccurrenceIsInWindow(marker, overlap, seen, chunk, i);
      }
    }
  }

  /** What a scan that keeps `overlap` bytes reports about one marker. */
  ghost predicate StreamFinds(marker: seq<byte>, overlap: nat, kept: seq<byte>, chunks: seq<seq<byte>>)
    decreases |chunks|
  {
    chunks != [] &&
    if chunks[0] == [] then
      StreamFinds(marker, overlap, kept, chunks[1..])
    else
      Contains(marker, kept + chunks[0]) ||
      StreamFinds(marker, overlap, Last(kept + chunks[0], overlap), chunks[1..])
  }

  lemma {:induction false} StreamFindsWhole(marker: seq<byte>, overlap: nat, seen: seq<byte>, chunks: seq<seq<byte>>)
    requires |marker| <= overlap + 1
    ensures Contains(marker, seen) || StreamFinds(marker, overlap, Last(seen, overlap), chunks)
            <==> Contains(marker, seen + Flatten(chunks))
    decreases |chunks|
  {
    if chunks == [] {
      assert seen + Flatten(chunks) == seen;
    } else {
      var chunk, rest := chunks[0], chunks[1..];
      assert seen + Flatten(chunks) == seen + chunk + Flatten(rest);
      if chunk == [] {
        assert seen + chunk == seen;
        StreamFindsWhole(marker, overlap, seen, rest);
      } else {
        WindowStep(marker, overlap, seen, chunk);
        LastConcat(seen, chunk, overlap);
        StreamFindsWhole(marker, overlap, seen + chunk, rest);
      }
    }
  }

  function Singletons(s: seq<byte>): (chunks: seq<seq<byte>>)
    ensures Flatten(chunks) == s
    ensures forall c | c in chunks :: |c| == 1
  {
    if s == [] then [] else
      assert [s[..1]] + Singletons(s[1..]) != [];
      [s[..1]] + Singletons(s[1..])
  }

  lemma {:induction false} NarrowWindowMisses(marker: seq<byte>, overlap: nat, kept: seq<byte>, chunks: seq<seq<byte>>)
    requires |marker| > overlap + 1 && |kept| <= overlap
    requires forall c | c in chunks :: |c| == 1
    ensures !StreamFinds(marker, overlap, kept, chunks)
    decreases |chunks|
  {
    if chunks != [] {
      assert chunks[0] in chunks;
      NarrowWindowMisses(marker, overlap, Last(kept + chunks[0], overlap), chunks[1..]);
    }
  }

  /** The overlap is exactly large enough: keeping k bytes finds a marker in every file however
      the file is cut, if and only if the marker has at most k + 1 bytes. */
  lemma OverlapIsExact(marker: seq<byte>, overlap: nat)
    requires marker != []
    ensures (forall chunks: seq<seq<byte>> ::
               StreamFinds(marker, overlap, [], chunks) == Contains(marker, Flatten(chunks)))
            <==> |marker| <= overlap + 1
  {
    if |marker| <= overlap + 1 {
      forall chunks: seq<seq<byte>>
        ensures StreamFinds(marker, overlap, [], chunks) == Contains(marker, Flatten(chunks))
      {
        StreamFindsWhole(marker, overlap, [], chunks);
        assert [] + Flatten(chunks) == Flatten(chunks);
      }
    } else {
      var chunks := Singletons(marker);
      NarrowWindowMisses(marker, overlap, [], chunks);
      assert OccursAt(marker, marker, 0);
      assert Contains(marker, Flatten(chunks));
      assert StreamFinds(marker, overlap, [], chunks) != Contains(marker, Flatten(chunks));
    }
  }

  // ---------------------------------------------------------------- the scan and its client

  datatype Scan = Scan(startsWithPdf: bool, hasEofMarker: bool, isProtected: bool, hasPage: bool)

  predicate Spells(marker: seq<byte>, text: string) {
    |marker| == |text| && forall i | 0 <= i < |text| :: marker[i] == text[i] as int
  }

  /** The markers are the bytes of these texts. */
  lemma MarkersSpellTheirTexts()
    ensures Spells(PDF_HEADER_MARKER, "%PDF") && Spells(PDF_EOF_MARKER, "%%EOF") && Spells(PDF_PROTECTION_MARKER, "/Encrypt")
    ensures Spells(PDF_PAGE_MARKER_SPACED, "/Type /Page") && Spells(PDF_PAGE_MARKER_TIGHT, "/Type/Page")
  {
  }

  /** The answers a reader of the whole file would give. */
  ghost function WholeFileScan(file: seq<byte>): Scan {
    Scan(PDF_HEADER_MARKER <= file,
         exists i :: OccursAt(PDF_EOF_MARKER, file, i) && |file| - 2048 <= i,
         Contains(PDF_PROTECTION_MARKER, file),
         Contains(PDF_PAGE_MARKER_SPACED, file) || Contains(PDF_PAGE_MARKER_TIGHT, file))
  }

  lemma TailAnswer(file: seq<byte>)
    ensures Contains(PDF_EOF_MARKER, Last(file, PDF_EOF_TAIL_BYTES)) == WholeFileScan(file).hasEofMarker
  {
    var tail := Last(file, PDF_EOF_TAIL_BYTES);
    var cut := |file| - |tail|;
    var n := |PDF_EOF_MARKER|;
    if Contains(PDF_EOF_MARKER, tail) {
      var i :| 0 <= i <= |tail| && OccursAt(PDF_EOF_MARKER, tail, i);
      assert file[cut + i..cut + i + n] == tail[i..i + n];
      assert OccursAt(PDF_EOF_MARKER, file, cut + i);
    }
    if WholeFileScan(file).hasEofMarker {
      var i :| OccursAt(PDF_EOF_MARKER, file, i) && |file| - PDF_EOF_TAIL_BYTES <= i;
      assert tail[i - cut..i - cut + n] == file[i..i + n];
      assert OccursAt(PDF_EOF_MARKER, tail, i - cut);
    }
  }

  /** The loop of `_scan_pdf` over the chunks of an upload. */
  method ScanChunks(chunks: seq<seq<byte>>) returns (scan: Scan)
    ensures scan == WholeFileScan(Flatten(chunks))
  {
    var header: seq<byte>, tail: seq<byte>, overlap: seq<byte> := [], [], [];
    var hasPage, isProtected := false, false;
    for i := 0 to |chunks|
      invariant header == First(Flatten(chunks[..i]), PDF_HEADER_BYTES)
      invariant tail == Last(Flatten(chunks[..i]), PDF_EOF_TAIL_BYTES)
      invariant overlap == Last(Flatten(chunks[..i]), PDF_SCAN_OVERLAP_BYTES)
      invariant isProtected == Contains(PDF_PROTECTION_MARKER, Flatten(chunks[..i]))
      invariant hasPage == (Contains(PDF_PAGE_MARKER_SPACED, Flatten(chunks[..i]))
                            || Contains(PDF_PAGE_MARKER_TIGHT, Flatten(chunks[..i])))
    {
      var chunk := chunks[i];
      ghost var seen := Flatten(chunks[..i]);
      FlattenSnoc(chunks, i);
      if chunk == [] {
        assert seen + chunk == seen;
        continue;
      }
      if |header| < PDF_HEADER_BYTES {
        header := First(header + chunk, PDF_HEADER_BYTES);
      }
      var window := overlap + chunk;
      WindowStep(PDF_PROTECTION_MARKER, PDF_SCAN_OVERLAP_BYTES, seen, chunk);
      WindowStep(PDF_PAGE_MARKER_SPACED, PDF_SCAN_OVERLAP_BYTES, seen, chunk);
      WindowStep(PDF_PAGE_MARKER_TIGHT, PDF_SCAN_OVERLAP_BYTES, seen, chunk);
      if Contains(PDF_PROTECTION_MARKER, window) {
        isProtected := true;
      }
      if Contains(PDF_PAGE_MARKER_SPACED, window) || Contains(PDF_PAGE_MARKER_TIGHT, window) {
        hasPage := true;
      }
      LastConcat(seen, chunk, PDF_EOF_TAIL_BYTES);
      LastConcat(seen, chunk, PDF_SCAN_OVERLAP_BYTES);
      tail := Last(tail + chunk, PDF_EOF_TAIL_BYTES);
      overlap := Last(window, PDF_SCAN_OVERLAP_BYTES);
    }
    assert chunks[..|chunks|] == chunks;
    TailAnswer(Flatten(chunks));
    scan := Scan(PDF_HEADER_MARKER <= header, Contains(PDF_EOF_MARKER, tail), isProtected, hasPage);
  }

  datatype PdfError = WrongContentType | WrongExtension | TooLarge | NotPdf | Incomplete | Protected | NoPage
  datatype Verdict = Accepted | Rejected(error: PdfError)

  ghost predicate FailsFirst(checks: seq<bool>, k: nat)
    requires k < |checks|
  {
    !checks[k] && forall j | 0 <= j < k :: checks[j]
  }

  const ERRORS: seq<PdfError> := [WrongContentType, WrongExtension, TooLarge, NotPdf, Incomplete, Protected, NoPage]

  /** An uploaded file.  `cut` says how reading cuts what is left of it into chunks, some of them perhaps empty. */
  class Upload {
    const content: seq<byte>
    const cut: seq<byte> -> seq<seq<byte>>
    const isPdfContentType: bool
    const hasPdfExtension: bool
    var position: nat

    ghost predicate Valid()
      reads this
    {
      position <= |content| && forall s :: Flatten(cut(s)) == s
    }

    constructor (content: seq<byte>, cut: seq<byte> -> seq<seq<byte>>, isPdfContentType: bool, hasPdfExtension: bool, position: nat)
      requires position <= |content| && forall s :: Flatten(cut(s)) == s
      ensures Valid() && this.content == content && this.cut == cut && this.position == position
      ensures this.isPdfContentType == isPdfContentType && this.hasPdfExtension == hasPdfExtension
    {
      this.content, this.cut, this.position := content, cut, position;
      this.isPdfContentType, this.hasPdfExtension := isPdfContentType, hasPdfExtension;
    }

    /** Reads from the position to the end. */
    method Chunks() returns (chunks: seq<seq<byte>>)
      requires Valid()
      modifies this
      ensures Valid() && Flatten(chunks) == content[old(position)..] && position == |content|
    {
      chunks := cut(content[position..]);
      position := |content|;
    }

    /** `_scan_pdf`: rewinds, scans the whole file wherever it stood, and puts the position back. */
    method ScanPdf() returns (scan: Scan)
      requires Valid()
      modifies this
      ensures Valid() && scan == WholeFileScan(content)
      ensures position == old(position)
    {
      var current := position;
      position := 0;
      var chunks := Chunks();
      scan := ScanChunks(chunks);
      position := current;
    }

    /** The checks of `_validate_pdf`, in order, on the whole file. */
    ghost function Checks(maxSizeBytes: nat): seq<bool> {
      var scan := WholeFileScan(content);
      [isPdfContentType, hasPdfExtension, |content| <= maxSizeBytes,
       scan.startsWithPdf, scan.hasEofMarker, !scan.isProtected, scan.hasPage]
    }

    /** `_validate_pdf`: accepted exactly when every check on the whole file holds, and otherwise
        rejected for the first check that fails. */
    method ValidatePdf(maxSizeBytes: nat) returns (verdict: Verdict)
      requires Valid()
      modifies this
      ensures Valid() && position == old(position)
      ensures verdict.Accepted? <==> false !in Checks(maxSizeBytes)
      ensures verdict.Rejected? ==>
                exists k :: 0 <= k < 7 && verdict.error == ERRORS[k] && FailsFirst(Checks(maxSizeBytes), k)
    {
      ghost var checks := Checks(maxSizeBytes);
      if !isPdfContentType { assert FailsFirst(checks, 0); return Rejected(WrongContentType); }
      if !hasPdfExtension { assert FailsFirst(checks, 1); return Rejected(WrongExtension); }
      if |content| > maxSizeBytes { assert FailsFirst(checks, 2); return Rejected(TooLarge); }
      var scan := ScanPdf();
      if !scan.startsWithPdf { assert FailsFirst(checks, 3); return Rejected(NotPdf); }
      if !scan.hasEofMarker { assert FailsFirst(checks, 4); return Rejected(Incomplete); }
      if scan.isProtected { assert FailsFirst(checks, 5); return Rejected(Protected); }
      if !scan.hasPage { assert FailsFirst(checks, 6); return Rejected(NoPage); }
      return Accepted;
    }
  }
}
