/** A digest obtained by reading is what a later replace may name (read.go, replace.go). */
module Handoff {
  import opened Common
  import opened Digests
  import opened Reads
  import opened ReplaceCall
  import opened ReplaceSafety
  import opened ReplaceSerial

  /** The file at this path is regular and holds these bytes. */
  predicate HoldsBytes(fs: FS, path: Name, data: bytes) {
    path in fs.names && fs.names[path].File? && fs.names[path].ino in fs.files && fs.files[fs.names[path].ino] == data
  }

  /**
   Whatever page carries a digest, that digest passes replace mode's validation,
   and a replace that names it, on the file that was read and within the write
   bound, is accepted.
   */
  lemma ReadDigestIsAccepted(c: Config, fs: FS, path: Name, data: bytes, offset: nat, limit: nat, page: ReadContent,
                             content: bytes, script: seq<Choice>)
    requires WellFormed(fs) && HoldsBytes(fs, path, data) && |data| <= c.maxWrite
    requires offset <= |data| && 1 <= limit && IsPage(data, |data|, offset, limit, c.hash, page) && page.sha256 != []
    requires |script| >= Rank(OpenRoot)
    requires forall i :: 0 <= i < |script| ==> Benign(Request(path, content, Replace(page.sha256)), fs, script[i])
    ensures ValidateMode(ModeArguments(false, page.sha256)) == ModeAccepted
    ensures var req := Request(path, content, Replace(page.sha256));
            RunCall(c, req, START, fs, script).0.pc
            == Done(if DigestText(c, content) == DigestText(c, data) then Unchanged else Committed(false, true, true))
  {
    DigestMeansWholeFile(data, offset, limit, c.hash, page);
    ReplaceModeAcceptsExactlyDigests(page.sha256);
    FreshExpectationIsAccepted(c, Request(path, content, Replace(page.sha256)), fs, script);
  }
}
