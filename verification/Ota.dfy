/**
 A firmware upload: chunks of any size are written through to flash, the first bytes are
 checked as soon as they are complete, and the new image is selected for boot at the end.
 The layout of the image header belongs to the platform and is a parameter.
 */
module Ota {
  import opened Options

  type Bytes = seq<bv8>

  datatype Error = NotAnImage | WrongProject | Truncated | WriteFailed | EndFailed | SetBootFailed

  /** What validation reads from the header. */
  datatype Header = Header(magic: nat, descMagic: nat, project: string)

  const IMAGE_MAGIC := 0xE9
  const APP_DESC_MAGIC := 0xABCD_5432

  /** The header's length and decoding, and the running firmware's project when it must match. */
  datatype Rules = Rules(headerBytes: nat, decode: Bytes -> Header, project: Option<string>)
  {
    function Check(header: Bytes): Option<Error> {
      var h := decode(header);
      if h.magic != IMAGE_MAGIC then Some(NotAnImage)
      else if h.descMagic != APP_DESC_MAGIC then Some(NotAnImage)
      else if project.Some? && project.value != h.project then Some(WrongProject)
      else None
    }

    /** The verdict on everything uploaded so far. */
    function Verdict(given: Bytes): Option<Error> {
      if |given| < headerBytes then None else Check(given[..headerBytes])
    }
  }

  /** An image whose header says what a firmware image's says. */
  predicate IsFirmware(h: Header) {
    h.magic == 0xE9 && h.descMagic == 0xABCD_5432
  }

  /** What the verdict says of the decoded fields: nothing before the header is complete,
      then an image is refused as none exactly for a wrong magic, and as another project's
      exactly when it is an image, a project is required and it is not the image's. */
  lemma VerdictExactly(r: Rules, given: Bytes)
    ensures |given| < r.headerBytes ==> r.Verdict(given) == None
    ensures |given| >= r.headerBytes ==>
              var h := r.decode(given[..r.headerBytes]);
              && (r.Verdict(given) == Some(NotAnImage) <==> !IsFirmware(h))
              && (r.Verdict(given) == Some(WrongProject) <==>
                  IsFirmware(h) && r.project.Some? && h.project != r.project.value)
              && (r.Verdict(given) == None <==> IsFirmware(h) && (r.project.None? || h.project == r.project.value))
  {
  }

  /** The first bytes are a header that lets the image boot. */
  predicate Bootable(r: Rules, image: Bytes) {
    |image| >= r.headerBytes &&
    var h := r.decode(image[..r.headerBytes]);
    h.magic == 0xE9 && h.descMagic == 0xABCD_5432 && (r.project.None? || r.project.value == h.project)
  }

  // ---------------------------------------------------------------- one call, on values

  /** Everything handed over, and what of it is in flash. */
  datatype Upload = Upload(given: Bytes, flash: Bytes)

  datatype Written = Written(upload: Upload, error: Option<Error>)

  predicate Completes(r: Rules, u: Upload, data: Bytes) {
    |u.given| < r.headerBytes <= |u.given + data|
  }

  function Write(r: Rules, u: Upload, data: Bytes, works: bool): Written {
    var given := u.given + data;
    if data == [] then Written(u, None)
    else if Completes(r, u, data) && r.Verdict(given).Some? then Written(u.(given := given), r.Verdict(given))
    else if works then Written(Upload(given, u.flash + data), None)
    else Written(u.(given := given), Some(WriteFailed))
  }

  // ---------------------------------------------------------------- any split of an image

  function Flat(chunks: seq<Bytes>): Bytes
    decreases |chunks|
  {
    if chunks == [] then [] else Flat(chunks[..|chunks| - 1]) + chunks[|chunks| - 1]
  }

  /** The chunks in turn, with flash writes succeeding, until the first error. */
  function Feed(r: Rules, chunks: seq<Bytes>): Written
    decreases |chunks|
  {
    if chunks == [] then Written(Upload([], []), None)
    else
      var before := Feed(r, chunks[..|chunks| - 1]);
      if before.error.Some? then before else Write(r, before.upload, chunks[|chunks| - 1], true)
  }

  /** How far a feed got: `k` chunks were accepted, and the next completed the header. */
  ghost predicate StoppedAt(r: Rules, chunks: seq<Bytes>, k: nat) {
    k < |chunks| && |Flat(chunks[..k])| < r.headerBytes <= |Flat(chunks[..k + 1])|
  }

  lemma FlatGrows(chunks: seq<Bytes>, k: nat)
    requires k <= |chunks|
    ensures |Flat(chunks[..k])| <= |Flat(chunks)| && Flat(chunks)[..|Flat(chunks[..k])|] == Flat(chunks[..k])
    decreases |chunks|
  {
    if k == |chunks| {
      assert chunks[..k] == chunks;
    } else {
      var init := chunks[..|chunks| - 1];
      FlatGrows(init, k);
      assert init[..k] == chunks[..k];
      var n := |Flat(chunks[..k])|;
      assert Flat(chunks)[..n] == Flat(init)[..n];
    }
  }

  lemma {:induction false} FeedIsVerdict(r: Rules, chunks: seq<Bytes>) returns (k: nat)
    requires r.headerBytes > 0
    ensures var f := Feed(r, chunks); var all := Flat(chunks);
            && f.error == r.Verdict(all)
            && (f.error.None? ==> f.upload == Upload(all, all))
            && (f.error.Some? ==> StoppedAt(r, chunks, k) && f.upload.flash == Flat(chunks[..k]))
    decreases |chunks|
  {
    k := 0;
    if chunks != [] {
      var init, data := chunks[..|chunks| - 1], chunks[|chunks| - 1];
      k := FeedIsVerdict(r, init);
      var before := Feed(r, init);
      if before.error.Some? {
        assert init[..k] == chunks[..k] && init[..k + 1] == chunks[..k + 1];
        FlatGrows(init, k + 1);
        assert Flat(chunks)[..r.headerBytes] == Flat(init)[..r.headerBytes];
      } else if data == [] {
        assert Flat(chunks) == Flat(init);
      } else if Completes(r, before.upload, data) {
        k := |chunks| - 1;
        assert chunks[..k + 1] == chunks && chunks[..k] == init;
      } else if |Flat(init)| >= r.headerBytes {
        assert Flat(chunks)[..r.headerBytes] == Flat(init)[..r.headerBytes];
      }
    }
  }

  /** The verdict depends only on the bytes, however they are split; an accepted image is in
      flash whole, and a refused one only up to the chunk that completed its header. */
  lemma SplitDoesNotMatter(r: Rules, chunks: seq<Bytes>, others: seq<Bytes>)
    requires r.headerBytes > 0 && Flat(chunks) == Flat(others)
    ensures Feed(r, chunks).error == Feed(r, others).error == r.Verdict(Flat(chunks))
    ensures Feed(r, chunks).error.None? ==> Feed(r, chunks).upload.flash == Feed(r, others).upload.flash == Flat(chunks)
    ensures Feed(r, chunks).error.Some? ==>
              exists k: nat :: StoppedAt(r, chunks, k) && Feed(r, chunks).upload.flash == Flat(chunks[..k])
  {
    var k := FeedIsVerdict(r, chunks);
    var m := FeedIsVerdict(r, others);
  }

  // ---------------------------------------------------------------- the session

  class Session {
    const rules: Rules
    const header: array<bv8>
    var headerLen: nat
    var validated: bool
    var flash: Bytes
    var bytesWritten: nat
    /** Whether this image has been selected for the next boot. */
    var boots: bool
    ghost var given: Bytes

    ghost predicate Valid()
      reads this, header
    {
      && 0 < rules.headerBytes == header.Length
      && headerLen == (if |given| < rules.headerBytes then |given| else rules.headerBytes)
      && header[..headerLen] == given[..headerLen]
      && (validated <==> headerLen == rules.headerBytes && rules.Check(header[..]).None?)
      && bytesWritten == |flash|
    }

    ghost function Abstract(): Upload
      reads this
    {
      Upload(given, flash)
    }

    constructor (rules: Rules)
      requires rules.headerBytes > 0
      ensures Valid() && Abstract() == Upload([], []) && !boots && fresh(header) && this.rules == rules
    {
      this.rules := rules;
      header := new bv8[rules.headerBytes];
      headerLen, validated, bytesWritten, boots := 0, false, 0, false;
      flash, given := [], [];
    }

    /** Takes what the header still lacks, and checks it once it is complete. */
    method TakeHeader(data: Bytes) returns (error: Option<Error>)
      requires Valid() && data != []
      modifies this`headerLen, this`validated, this`given, header
      ensures Valid() && given == old(given) + data
      ensures error == if Completes(rules, old(Abstract()), data) then rules.Verdict(given) else None
    {
      error := None;
      ghost var before := header[..headerLen];
      if !validated && headerLen < rules.headerBytes {
        var want := rules.headerBytes - headerLen;
        var take := if |data| < want then |data| else want;
        var from := headerLen;
        forall i | 0 <= i < take {
          header[from + i] := data[i];
        }
        headerLen := headerLen + take;
        assert header[..headerLen] == before + data[..take];
        given := given + data;
        assert given[..headerLen] == before + data[..take];
        if headerLen == rules.headerBytes {
          assert header[..] == header[..headerLen];
          error := rules.Check(header[..]);
          if error.None? {
            validated := true;
          }
        }
      } else {
        given := given + data;
        assert given[..headerLen] == old(given)[..headerLen];
      }
    }

    method WriteChunk(data: Bytes, works: bool) returns (error: Option<Error>)
      requires Valid()
      modifies this`headerLen, this`validated, this`flash, this`bytesWritten, this`given, header
      ensures Valid()
      ensures Written(Abstract(), error) == Write(rules, old(Abstract()), data, works)
    {
      if data == [] {
        return None;
      }
      error := TakeHeader(data);
      if error.Some? {
        return error;
      }
      if !works {
        return Some(WriteFailed);
      }
      flash := flash + data;
      bytesWritten := bytesWritten + |data|;
      return None;
    }

    /** The image is selected for boot only when the first bytes handed over passed the
        check, whatever errors the caller has ignored on the way. */
    method End(ends: bool, sets: bool) returns (error: Option<Error>)
      requires Valid()
      modifies this`boots
      ensures error.None? <==> Bootable(rules, given) && ends && sets
      ensures boots == (old(boots) || error.None?)
      ensures error == Some(EndFailed) <==> Bootable(rules, given) && !ends
      ensures error == Some(SetBootFailed) <==> Bootable(rules, given) && ends && !sets
      ensures error == Some(Truncated) <==> |given| < rules.headerBytes || rules.Check(given[..rules.headerBytes]).Some?
    {
      assert headerLen == rules.headerBytes ==> header[..] == header[..headerLen];
      if !validated {
        return Some(Truncated);
      }
      if !ends {
        return Some(EndFailed);
      }
      if !sets {
        return Some(SetBootFailed);
      }
      boots := true;
      return None;
    }

    /** A whole upload by a caller that stops at the first error. */
    method UploadAll(chunks: seq<Bytes>, ends: bool, sets: bool) returns (error: Option<Error>)
      requires Valid() && Abstract() == Upload([], []) && !boots
      modifies this, header
      ensures Valid()
      ensures boots <==> Bootable(rules, Flat(chunks)) && ends && sets
      ensures error == Some(Truncated) <==> |Flat(chunks)| < rules.headerBytes
      ensures |Flat(chunks)| >= rules.headerBytes ==>
                var h := rules.decode(Flat(chunks)[..rules.headerBytes]);
                && (error == Some(NotAnImage) <==> !IsFirmware(h))
                && (error == Some(WrongProject) <==>
                    IsFirmware(h) && rules.project.Some? && h.project != rules.project.value)
                && (error == Some(EndFailed) <==> Bootable(rules, Flat(chunks)) && !ends)
                && (error == Some(SetBootFailed) <==> Bootable(rules, Flat(chunks)) && ends && !sets)
      ensures boots ==> flash == Flat(chunks) && bytesWritten == |Flat(chunks)|
      ensures error.None? <==> boots
    {
      var i := 0;
      error := None;
      while i < |chunks| && error.None?
        invariant 0 <= i <= |chunks| && Valid() && !boots
        invariant Written(Abstract(), error) == Feed(rules, chunks[..i])
      {
        assert chunks[..i + 1][..i] == chunks[..i];
        error := WriteChunk(chunks[i], true);
        i := i + 1;
      }
      ghost var k := FeedIsVerdict(rules, chunks[..i]);
      if error.Some? {
        FlatGrows(chunks, i);
        assert Flat(chunks)[..rules.headerBytes] == Flat(chunks[..i])[..rules.headerBytes];
        return error;
      }
      assert chunks[..i] == chunks;
      error := End(ends, sets);
    }

    /** A caller that goes on after a refusal, whatever the answers, and then ends the session. */
    method InsistAndEnd(calls: seq<Call>, ends: bool, sets: bool) returns (error: Option<Error>)
      requires Valid() && rules.Verdict(given).Some? && !boots
      modifies this, header
      ensures Valid() && !boots && error == Some(Truncated)
      ensures flash == old(flash) + Taken(calls)
    {
      var i := 0;
      while i < |calls|
        invariant 0 <= i <= |calls| && Valid() && !boots
        invariant Abstract() == Insist(rules, old(Abstract()), calls[..i])
      {
        assert calls[..i + 1][..i] == calls[..i];
        error := WriteChunk(calls[i].data, calls[i].works);
        i := i + 1;
      }
      assert calls[..i] == calls;
      RefusedForGood(rules, old(Abstract()), calls);
      error := End(ends, sets);
    }
  }

  // ---------------------------------------------------------------- after a refusal

  /** One chunk by a caller that ignores errors, and whether the platform writes it. */
  datatype Call = Call(data: Bytes, works: bool)

  /** All the chunks, whatever the answers. */
  function Insist(r: Rules, u: Upload, calls: seq<Call>): Upload {
    if calls == [] then u
    else
      var last := calls[|calls| - 1];
      Write(r, Insist(r, u, calls[..|calls| - 1]), last.data, last.works).upload
  }

  /** What the platform wrote of the chunks. */
  function Taken(calls: seq<Call>): Bytes {
    if calls == [] then []
    else Taken(calls[..|calls| - 1]) + (if calls[|calls| - 1].works then calls[|calls| - 1].data else [])
  }

  function Offered(calls: seq<Call>): Bytes {
    if calls == [] then [] else Offered(calls[..|calls| - 1]) + calls[|calls| - 1].data
  }

  /** The bytes after a complete header do not change its verdict. */
  lemma VerdictStays(r: Rules, given: Bytes, more: Bytes)
    requires r.Verdict(given).Some?
    ensures r.Verdict(given + more) == r.Verdict(given)
  {
    assert (given + more)[..r.headerBytes] == given[..r.headerBytes];
  }

  /** After any refusal, a chunk still reaches flash exactly when it is not empty and the
      platform writes it, and no error but the platform's is reported. */
  lemma RefusedImageKeepsWriting(r: Rules, u: Upload, data: Bytes, works: bool)
    requires r.Verdict(u.given).Some?
    ensures var w := Write(r, u, data, works);
            && (w.upload.flash != u.flash <==> data != [] && works)
            && w.upload.flash == u.flash + (if works then data else [])
            && w.error == (if data != [] && !works then Some(WriteFailed) else None)
            && r.Verdict(w.upload.given) == r.Verdict(u.given)
  {
    VerdictStays(r, u.given, data);
    assert data != [] && works ==> |u.flash + data| > |u.flash|;
  }

  /** However a caller goes on after a refusal, flash grows by exactly the later chunks the
      platform writes, and the first bytes stay refused, so the end of the session never
      selects the image. */
  lemma {:induction false} RefusedForGood(r: Rules, u: Upload, calls: seq<Call>)
    requires r.Verdict(u.given).Some?
    ensures var v := Insist(r, u, calls);
            && v.flash == u.flash + Taken(calls) && v.given == u.given + Offered(calls)
            && r.Verdict(v.given) == r.Verdict(u.given)
    decreases |calls|
  {
    if calls != [] {
      var n := |calls| - 1;
      RefusedForGood(r, u, calls[..n]);
      RefusedImageKeepsWriting(r, Insist(r, u, calls[..n]), calls[n].data, calls[n].works);
    }
  }
}
