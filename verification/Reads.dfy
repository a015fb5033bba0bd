/** Bounded, paged reads: one page, its encoding, its delivery, and the walk along NextOffset (read.go). */
module Reads {
  import opened Common
  import opened Digests
  import opened Encodings

  datatype ReadContent = ReadContent(
    offset: nat, size: nat, totalBytes: nat, nextOffset: nat, truncated: bool,
    encoding: Encoding, content: bytes, sha256: bytes)

  datatype Problem = NegativeOffset | LimitOutOfRange | OffsetBeyondEnd | Undeliverable

  datatype Page = Read(value: ReadContent) | Failed(problem: Problem)

  /** An open file: its bytes and the position of its cursor. */
  class FileHandle {
    const data: bytes
    var cursor: nat

    constructor (data: bytes)
      ensures this.data == data && cursor == 0
    {
      this.data, cursor := data, 0;
    }

    method Seek(offset: nat)
      modifies this
      ensures cursor == offset
    {
      cursor := offset;
    }

    /** ReadAll over a LimitReader: up to n bytes from the cursor, which moves behind them. */
    method ReadUpTo(n: nat) returns (chunk: bytes)
      modifies this
      ensures chunk == Slice(data, old(cursor), n)
      ensures cursor == old(cursor) + |chunk|
    {
      chunk := Slice(data, cursor, n);
      cursor := cursor + |chunk|;
    }
  }

  function Slice(data: bytes, offset: nat, n: nat): (r: bytes)
    ensures |r| <= n
  {
    if offset >= |data| then [] else if offset + n <= |data| then data[offset..offset + n] else data[offset..]
  }

  /** The page a read of `limit` bytes at `offset` must return; `stat` is the size reported when the file was opened. */
  ghost predicate IsPage(data: bytes, stat: nat, offset: nat, limit: nat, hash: bytes -> Digest, page: ReadContent) {
    var chunk := Slice(data, offset, limit);
    && page.offset == offset && page.size == |chunk| && page.totalBytes == stat
    && (page.truncated <==> offset + limit < |data|)
    && page.nextOffset == (if page.truncated then offset + limit else 0)
    && page.encoding == ChooseEncoding(chunk) && page.content == Carried(page.encoding, chunk)
    && page.sha256 == (if offset == 0 && !page.truncated && |chunk| == stat then Hex(hash(chunk)) else [])
  }

  /** Execute's argument checks followed by read. `stat` and `file` are what Stat and the later reads see. */
  method ReadPage(file: FileHandle, stat: nat, offset: int, limit: int, maximum: nat, hash: bytes -> Digest)
    returns (page: Page)
    requires 1 <= maximum <= MAXIMUM_BYTES
    modifies file
    ensures page.Read? <==> 0 <= offset <= stat && 0 <= limit <= maximum
    ensures page.Read? ==> IsPage(file.data, stat, offset, if limit == 0 then maximum else limit, hash, page.value)
    ensures page.Read? ==>
              var chunk := Slice(file.data, offset, if limit == 0 then maximum else limit);
              && (page.value.encoding == Utf8 <==> ValidUtf8(chunk))
              && page.value.content == if ValidUtf8(chunk) then chunk else Base64(chunk)
    ensures page == Failed(NegativeOffset) <==> offset < 0
    ensures page == Failed(LimitOutOfRange) <==> offset >= 0 && !(0 <= limit <= maximum)
    ensures page == Failed(OffsetBeyondEnd) <==> offset > stat && 0 <= limit <= maximum
  {
    if offset < 0 {
      return Failed(NegativeOffset);
    }
    var bound := limit;
    if bound == 0 {
      bound := maximum;
    }
    if bound < 1 || bound > maximum {
      return Failed(LimitOutOfRange);
    }
    if offset > stat {
      return Failed(OffsetBeyondEnd);
    }
    file.Seek(offset);
    var data := file.ReadUpTo(bound + 1);
    var truncated := |data| > bound;
    if truncated {
      data := data[..bound];
    }
    assert data == Slice(file.data, offset, bound);
    var nextOffset := 0;
    if truncated {
      nextOffset := offset + |data|;
    }
    var encoding, content := Utf8, data;
    if !ValidUtf8(data) {
      encoding := Base64Text;
      content := Base64(data);
    }
    var sha256 := [];
    if offset == 0 && !truncated && |data| == stat {
      sha256 := Hex(hash(data));
    }
    page := Read(ReadContent(offset, |data|, stat, nextOffset, truncated, encoding, content, sha256));
  }

  // ---- the walk along NextOffset on an unchanging file ----

  /** The pages one gets from `offset` on, asking for pick(o) bytes at each offset o. */
  ghost predicate IsWalk(data: bytes, offset: nat, pick: nat -> nat, hash: bytes -> Digest, pages: seq<ReadContent>)
    decreases |pages|
  {
    && pages != []
    && IsPage(data, |data|, offset, pick(offset), hash, pages[0])
    && if pages[0].truncated then IsWalk(data, pages[0].nextOffset, pick, hash, pages[1..]) else |pages| == 1
  }

  function Concatenated(pages: seq<ReadContent>): Option<bytes> {
    if pages == [] then Some([])
    else
      var first, rest := Decoded(pages[0].encoding, pages[0].content), Concatenated(pages[1..]);
      if first.Some? && rest.Some? then Some(first.value + rest.value) else None
  }

  lemma PageDecodes(data: bytes, stat: nat, offset: nat, limit: nat, hash: bytes -> Digest, page: ReadContent)
    requires IsPage(data, stat, offset, limit, hash, page)
    ensures Decoded(page.encoding, page.content) == Some(Slice(data, offset, limit))
    ensures ValidUtf8(page.content)
  {
    CarriedDecodes(page.encoding, Slice(data, offset, limit));
  }

  /** A truncated page and what follows it make up the rest of the file. */
  lemma PageThenRest(data: bytes, offset: nat, limit: nat)
    requires 1 <= limit && offset <= |data|
    ensures offset + limit < |data| ==> Slice(data, offset, limit) + data[offset + limit..] == data[offset..]
    ensures offset + limit >= |data| ==> Slice(data, offset, limit) == data[offset..]
  {
  }

  lemma ConcatenatedStep(pages: seq<ReadContent>, chunk: bytes, rest: bytes)
    requires pages != [] && Decoded(pages[0].encoding, pages[0].content) == Some(chunk)
    requires Concatenated(pages[1..]) == Some(rest)
    ensures Concatenated(pages) == Some(chunk + rest)
  {
  }

  /** A page in front of pages that make up the rest of the file. */
  lemma PageJoins(data: bytes, offset: nat, limit: nat, hash: bytes -> Digest, pages: seq<ReadContent>, rest: bytes)
    requires offset <= |data| && 1 <= limit && pages != [] && IsPage(data, |data|, offset, limit, hash, pages[0])
    requires Concatenated(pages[1..]) == Some(rest)
    requires rest == if pages[0].truncated then data[offset + limit..] else []
    ensures Concatenated(pages) == Some(data[offset..])
  {
    var chunk := Slice(data, offset, limit);
    PageDecodes(data, |data|, offset, limit, hash, pages[0]);
    PageThenRest(data, offset, limit);
    ConcatenatedStep(pages, chunk, rest);
    assert chunk + [] == chunk;
  }

  /** Whatever legal limits are used, the decoded pages are the file from the starting offset on. */
  lemma {:induction false} WalkReassembles(data: bytes, offset: nat, pick: nat -> nat, hash: bytes -> Digest, pages: seq<ReadContent>)
    requires offset <= |data| && IsWalk(data, offset, pick, hash, pages)
    requires forall o: nat :: o <= |data| ==> 1 <= pick(o)
    ensures Concatenated(pages) == Some(data[offset..])
    decreases |pages|
  {
    if pages[0].truncated {
      var end := offset + pick(offset);
      WalkReassembles(data, end, pick, hash, pages[1..]);
      PageJoins(data, offset, pick(offset), hash, pages, data[end..]);
    } else {
      assert pages[1..] == [];
      PageJoins(data, offset, pick(offset), hash, pages, []);
    }
  }

  /** The walk ends, and each page starts strictly beyond the one before, where that one said. */
  lemma {:induction false} WalkAdvances(data: bytes, offset: nat, pick: nat -> nat, hash: bytes -> Digest, pages: seq<ReadContent>)
    requires offset <= |data| && IsWalk(data, offset, pick, hash, pages)
    requires forall o: nat :: o <= |data| ==> 1 <= pick(o)
    ensures |pages| <= |data| - offset + 1
    ensures forall i :: 0 <= i < |pages| - 1 ==> pages[i].nextOffset == pages[i + 1].offset && pages[i].offset < pages[i + 1].offset
    decreases |pages|
  {
    if pages[0].truncated {
      var rest := pages[1..];
      WalkAdvances(data, pages[0].nextOffset, pick, hash, rest);
      assert rest[0].offset == pages[0].nextOffset;
      forall i | 0 <= i < |pages| - 1
        ensures pages[i].nextOffset == pages[i + 1].offset && pages[i].offset < pages[i + 1].offset
      {
        if i > 0 {
          assert pages[i] == rest[i - 1] && pages[i + 1] == rest[i];
        }
      }
    }
  }

  /** Following NextOffset from any offset with any legal limits always completes such a walk. */
  lemma {:induction false} WalkExists(data: bytes, offset: nat, pick: nat -> nat, hash: bytes -> Digest) returns (pages: seq<ReadContent>)
    requires offset <= |data|
    requires forall o: nat :: o <= |data| ==> 1 <= pick(o)
    ensures IsWalk(data, offset, pick, hash, pages)
    decreases |data| - offset
  {
    var limit := pick(offset);
    var chunk := Slice(data, offset, limit);
    var truncated := offset + limit < |data|;
    var sha256 := if offset == 0 && !truncated && |chunk| == |data| then Hex(hash(chunk)) else [];
    var page := ReadContent(offset, |chunk|, |data|, if truncated then offset + limit else 0, truncated,
                            ChooseEncoding(chunk), Carried(ChooseEncoding(chunk), chunk), sha256);
    if truncated {
      var rest := WalkExists(data, offset + limit, pick, hash);
      pages := [page] + rest;
      assert pages[1..] == rest;
    } else {
      pages := [page];
    }
  }

  /** A digest appears exactly when the one page is the whole file, and then it is the file's. */
  lemma DigestMeansWholeFile(data: bytes, offset: nat, limit: nat, hash: bytes -> Digest, page: ReadContent)
    requires offset <= |data| && 1 <= limit && IsPage(data, |data|, offset, limit, hash, page)
    ensures page.sha256 != [] <==> Decoded(page.encoding, page.content) == Some(data) && !page.truncated && offset == 0
    ensures page.sha256 != [] ==> page.sha256 == Hex(hash(data))
    ensures page.sha256 != [] <==> offset == 0 && |data| <= limit
  {
    PageDecodes(data, |data|, offset, limit, hash, page);
    assert offset == 0 && |data| <= limit ==> Slice(data, 0, limit) == data;
  }

  // ---- delivery ----

  /** What the result's other fields take up; "base64" is one byte longer than "utf-8". */
  function PayloadSize(envelope: nat, encoding: Encoding, content: bytes): nat {
    envelope + (if encoding == Base64Text then 1 else 0) + JsonSize(content)
  }

  predicate Fits(envelope: nat, page: ReadContent) {
    PayloadSize(envelope, page.encoding, page.content) <= MAXIMUM_PAYLOAD
  }

  /** Execute's last part: one attempt, then one re-encoded attempt, whatever the first encoding was. */
  method Deliver(envelope: nat, page: ReadContent) returns (result: Page)
    ensures Fits(envelope, page) ==> result == Read(page)
    ensures !Fits(envelope, page) ==>
              var again := page.(encoding := Base64Text, content := Base64(page.content));
              result == if Fits(envelope, again) then Read(again) else Failed(Undeliverable)
  {
    if Fits(envelope, page) {
      return Read(page);
    }
    var content := page;
    content := content.(encoding := Base64Text);
    content := content.(content := Base64(content.content));
    if !Fits(envelope, content) {
      return Failed(Undeliverable);
    }
    result := Read(content);
  }

  /** Text that is base64 already and does not fit still does not fit after a second encoding. */
  lemma SecondEncodingNeverFits(envelope: nat, data: bytes)
    requires PayloadSize(envelope, Base64Text, Base64(data)) > MAXIMUM_PAYLOAD
    ensures PayloadSize(envelope, Base64Text, Base64(Base64(data))) > MAXIMUM_PAYLOAD
  {
    Base64Spelling(data);
    Base64Spelling(Base64(data));
  }

  /**
   Whatever the envelope, a delivered page decodes in one step to exactly the
   bytes read and is valid UTF-8, so writing it as JSON loses nothing; it is the very
   text of the file exactly when those bytes are text and fit as such; and with an
   envelope within its room every page is delivered.
   */
  method ReadAndDeliver(file: FileHandle, stat: nat, offset: int, limit: int, maximum: nat, hash: bytes -> Digest, envelope: nat)
    returns (result: Page)
    requires 1 <= maximum <= MAXIMUM_BYTES
    modifies file
    ensures result.Read? ==>
              && 0 <= offset <= stat && 0 <= limit <= maximum
              && Decoded(result.value.encoding, result.value.content)
                 == Some(Slice(file.data, offset, if limit == 0 then maximum else limit))
              && ValidUtf8(result.value.content) && Fits(envelope, result.value)
    ensures result.Read? ==>
              var bound := if limit == 0 then maximum else limit;
              var chunk := Slice(file.data, offset, bound);
              && (result.value.encoding == Utf8 <==> ValidUtf8(chunk) && envelope + JsonSize(chunk) <= MAXIMUM_PAYLOAD)
              && result.value.content == (if result.value.encoding == Utf8 then chunk else Base64(chunk))
              && IsPage(file.data, stat, offset, bound, hash,
                        result.value.(encoding := ChooseEncoding(chunk), content := Carried(ChooseEncoding(chunk), chunk)))
    ensures result == Failed(NegativeOffset) <==> offset < 0
    ensures result == Failed(LimitOutOfRange) <==> offset >= 0 && !(0 <= limit <= maximum)
    ensures result == Failed(OffsetBeyondEnd) <==> offset > stat && 0 <= limit <= maximum
    ensures envelope + 1 <= ENVELOPE_ROOM ==> result != Failed(Undeliverable)
    ensures 0 <= offset <= stat && 0 <= limit <= maximum && envelope + 1 <= ENVELOPE_ROOM ==> result.Read?
  {
    var page := ReadPage(file, stat, offset, limit, maximum, hash);
    if page.Failed? {
      return page;
    }
    var bound := if limit == 0 then maximum else limit;
    ghost var chunk := Slice(file.data, offset, bound);
    PageDecodes(file.data, stat, offset, bound, hash, page.value);
    result := Deliver(envelope, page.value);
    Base64Spelling(chunk);
    Base64RoundTrip(chunk);
    FallbackFits(|chunk|, 0);
    if page.value.encoding == Base64Text && !Fits(envelope, page.value) {
      SecondEncodingNeverFits(envelope, chunk);
    }
  }
}
