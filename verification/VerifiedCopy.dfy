// Replacing an interrupted Verified Copy: only a partial file that is a prefix of the
// authenticated source is replaced, and such a file is never itself a Bundle.
module VerifiedCopy {
  import opened Cells
  import opened PublicHeader
  import opened BundleReader

  const BUFFER := 64 * 1024

  // Compares the partial file with as much of the source, a buffer at a time.
  method MatchesPrefix(source: Bytes, partial: Bytes) returns (ok: bool)
    ensures ok <==> partial != [] && partial <= source
  {
    if |partial| == 0 || |partial| > |source| {
      return false;
    }
    var done := 0;
    while done < |partial|
      invariant done <= |partial| && source[..done] == partial[..done]
    {
      var end := if |partial| - done < BUFFER then |partial| else done + BUFFER;
      if source[done..end] != partial[done..end] {
        if partial <= source {
          SameSlices(source, partial, done, end);
        }
        return false;
      }
      assert source[..end] == source[..done] + source[done..end];
      assert partial[..end] == partial[..done] + partial[done..end];
      done := end;
    }
    assert partial[..|partial|] == partial;
    ok := true;
  }

  lemma SameSlices(source: Bytes, partial: Bytes, i: nat, j: nat)
    requires i <= j <= |partial| && partial <= source
    ensures source[i..j] == partial[i..j]
  {
  }

  // What is replaced is no finished Bundle, under any secret, unless it is the whole source.
  lemma ReplacedIsNoBundle(source: Bytes, partial: Bytes, secret: RecoverySecret, other: RecoverySecret, verify: bool,
                           verifyOther: bool)
    requires Open(source, secret, verify).Ok? && partial <= source
    ensures Open(partial, other, verifyOther).Ok? ==> partial == source
  {
    if partial != source {
      AcceptedFilesArePrefixFree(partial, source, other, secret, verifyOther, verify);
    }
  }
}
