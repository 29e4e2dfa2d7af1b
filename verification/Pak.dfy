/** Python archives: src/plasma/pak_file.rs. */
module Pak {
  import opened Prim
  import opened Text
  import SafeString
  import FileCrypt
  import Cipher

  datatype FileInfo = FileInfo(name: string, data: bytes)

  const U32_LIMIT := 0x1_0000_0000

  // ----- writing -----

  /** The size of the table of contents and the count before it. */
  function HeaderSize(files: seq<FileInfo>): nat {
    if files == [] then 4
    else HeaderSize(files[..|files| - 1]) + 2 + |Utf8(files[|files| - 1].name)| + 4
  }

  /** Where the writer's running offset stands after these files. */
  function OffsetAfter(base: nat, files: seq<FileInfo>): nat {
    if files == [] then base
    else OffsetAfter(base, files[..|files| - 1]) + 4 + |files[|files| - 1].data|
  }

  function WriteToc(base: nat, files: seq<FileInfo>): Result<bytes> {
    if files == [] then Ok([])
    else
      var init :- WriteToc(base, files[..|files| - 1]);
      var offset := OffsetAfter(base, files[..|files| - 1]);
      if offset >= U32_LIMIT then Err(TooLarge)
      else
        var name :- SafeString.Write(files[|files| - 1].name, SafeString.AsUtf8);
        Ok(init + (name + U32Bytes(offset)))
  }

  function WriteContents(files: seq<FileInfo>): Result<bytes> {
    if files == [] then Ok([])
    else
      var init :- WriteContents(files[..|files| - 1]);
      var data := files[|files| - 1].data;
      if |data| >= U32_LIMIT then Err(TooLarge) else Ok(init + (U32Bytes(|data|) + data))
  }

  function Write(files: seq<FileInfo>): Result<bytes> {
    if |files| >= U32_LIMIT then Err(TooLarge)
    else
      var toc :- WriteToc(HeaderSize(files), files);
      var contents :- WriteContents(files);
      Ok(U32Bytes(|files|) + toc + contents)
  }

  // ----- reading -----

  datatype Entry = Entry(name: string, offset: u32)

  function ReadToc(s: bytes, n: nat): Parsed<seq<Entry>> {
    if n == 0 then Done([], s)
    else
      var (init, s1) :- ReadToc(s, n - 1);
      var (name, s2) :- SafeString.Read(s1, SafeString.AsUtf8);
      var (offset, s3) :- ReadU32(s2);
      Done(init + [Entry(name, offset)], s3)
  }

  function ReadContents(s: bytes, entries: seq<Entry>): Parsed<seq<FileInfo>> {
    if entries == [] then Done([], s)
    else
      var (init, s1) :- ReadContents(s, entries[..|entries| - 1]);
      var (size, s2) :- ReadU32(s1);
      var (data, s3) :- ReadBytes(s2, size);
      Done(init + [FileInfo(entries[|entries| - 1].name, data)], s3)
  }

  /** The offsets are read and dropped. */
  function Read(s: bytes): Parsed<seq<FileInfo>> {
    var (n, s1) :- ReadU32(s);
    var (entries, s2) :- ReadToc(s1, n);
    ReadContents(s2, entries)
  }

  // ----- the round trip -----

  predicate Survives(f: FileInfo) {
    SafeString.Survives(f.name, SafeString.AsUtf8)
  }

  predicate AllSurvive(files: seq<FileInfo>) {
    forall i :: 0 <= i < |files| ==> Survives(files[i])
  }

  /** What the reader makes of a stored name. */
  function NameRead(name: string): string {
    SafeString.Returned(name, SafeString.AsUtf8)
  }

  function EntriesOf(base: nat, files: seq<FileInfo>): (r: seq<Entry>)
    requires WriteToc(base, files).Ok?
    ensures |r| == |files|
  {
    if files == [] then []
    else
      var init := files[..|files| - 1];
      EntriesOf(base, init) + [Entry(NameRead(files[|files| - 1].name), OffsetAfter(base, init))]
  }

  lemma {:induction false} EntryAt(base: nat, files: seq<FileInfo>, i: nat)
    requires WriteToc(base, files).Ok? && i < |files|
    ensures EntriesOf(base, files)[i].name == NameRead(files[i].name)
    ensures EntriesOf(base, files)[i].offset == OffsetAfter(base, files[..i])
    decreases |files|
  {
    hide SafeString.Write, U32Bytes, NameRead, OffsetAfter;
    var init := files[..|files| - 1];
    if i < |init| {
      EntryAt(base, init, i);
      assert init[..i] == files[..i];
    }
  }

  lemma {:induction false} TocRoundTrip(base: nat, files: seq<FileInfo>, rest: bytes)
    requires WriteToc(base, files).Ok?
    ensures ReadToc(WriteToc(base, files).value + rest, |files|) == Done(EntriesOf(base, files), rest)
  {
    hide SafeString.Write, SafeString.Read, SafeString.Returned, U32Bytes, ReadU32, OffsetAfter;
    if files != [] {
      var init, last := files[..|files| - 1], files[|files| - 1];
      var a := WriteToc(base, init).value;
      var name, offset := SafeString.Write(last.name, SafeString.AsUtf8).value, OffsetAfter(base, init);
      Cat2(a, name + U32Bytes(offset), rest);
      Cat2(name, U32Bytes(offset), rest);
      TocRoundTrip(base, init, name + (U32Bytes(offset) + rest));
      SafeString.RoundTrip(last.name, SafeString.AsUtf8, U32Bytes(offset) + rest);
      ReadsU32(offset, rest);
    } else {
      assert WriteToc(base, files).value + rest == rest;
    }
  }

  function Renamed(files: seq<FileInfo>): (r: seq<FileInfo>)
    ensures |r| == |files|
    ensures forall i :: 0 <= i < |files| ==> r[i] == FileInfo(NameRead(files[i].name), files[i].data)
  {
    seq(|files|, i requires 0 <= i < |files| => FileInfo(NameRead(files[i].name), files[i].data))
  }

  lemma {:induction false} ContentsRoundTrip(files: seq<FileInfo>, entries: seq<Entry>, rest: bytes)
    requires WriteContents(files).Ok? && |entries| == |files|
    requires forall i :: 0 <= i < |files| ==> entries[i].name == NameRead(files[i].name)
    ensures ReadContents(WriteContents(files).value + rest, entries) == Done(Renamed(files), rest)
  {
    hide NameRead, U32Bytes, ReadU32;
    if files != [] {
      var init, last := files[..|files| - 1], files[|files| - 1];
      var a, n := WriteContents(init).value, U32Bytes(|last.data|);
      Cat2(a, n + last.data, rest);
      Cat2(n, last.data, rest);
      ContentsRoundTrip(init, entries[..|entries| - 1], n + (last.data + rest));
      ReadsU32(|last.data|, last.data + rest);
      ReadsBytes(last.data, rest);
      assert Renamed(files) == Renamed(init) + [FileInfo(NameRead(last.name), last.data)];
    } else {
      assert WriteContents(files).value + rest == rest;
      assert Renamed(files) == [];
    }
  }

  lemma RenamedIffSurvive(files: seq<FileInfo>)
    ensures Renamed(files) == files <==> AllSurvive(files)
  {
    hide NameRead, SafeString.Survives;
    forall i | 0 <= i < |files|
      ensures NameRead(files[i].name) == files[i].name <==> Survives(files[i])
    {
      NameSurvives(files[i]);
    }
    if Renamed(files) == files {
      forall i | 0 <= i < |files|
        ensures Survives(files[i])
      {
        assert Renamed(files)[i] == files[i];
      }
    }
  }

  lemma NameSurvives(f: FileInfo)
    ensures NameRead(f.name) == f.name <==> Survives(f)
  {
    SafeString.Returned8(f.name, SafeString.AsUtf8);
  }

  /** An archive that was written reads back completely; it is the same archive if
      and only if every name survives the safe-string form. */
  lemma RoundTrip(files: seq<FileInfo>, rest: bytes)
    requires Write(files).Ok?
    ensures Read(Write(files).value + rest) == Done(Renamed(files), rest)
    ensures Renamed(files) == files <==> AllSurvive(files)
  {
    hide NameRead, U32Bytes, ReadU32, WriteToc, ReadToc, WriteContents, ReadContents, AllSurvive, HeaderSize,
      OffsetAfter;
    var base := HeaderSize(files);
    var n, toc, contents := U32Bytes(|files|), WriteToc(base, files).value, WriteContents(files).value;
    Cat3(n, toc, contents, rest);
    ReadsU32(|files|, toc + (contents + rest));
    TocRoundTrip(base, files, contents + rest);
    forall i | 0 <= i < |files|
      ensures EntriesOf(base, files)[i].name == NameRead(files[i].name)
    {
      EntryAt(base, files, i);
    }
    ContentsRoundTrip(files, EntriesOf(base, files), rest);
    RenamedIffSurvive(files);
  }

  // ----- offsets -----

  lemma {:induction false} TocLength(base: nat, files: seq<FileInfo>)
    requires WriteToc(base, files).Ok?
    ensures 4 + |WriteToc(base, files).value| == HeaderSize(files)
  {
    hide U32Bytes, OffsetAfter;
    if files != [] {
      TocLength(base, files[..|files| - 1]);
    }
  }

  lemma {:induction false} ContentsLength(base: nat, files: seq<FileInfo>)
    requires WriteContents(files).Ok?
    ensures base + |WriteContents(files).value| == OffsetAfter(base, files)
  {
    if files != [] {
      ContentsLength(base, files[..|files| - 1]);
    }
  }

  lemma {:induction false} ContentsSplit(files: seq<FileInfo>, i: nat)
    requires i < |files| && WriteContents(files).Ok?
    ensures WriteContents(files[..i]).Ok? && |files[i].data| < U32_LIMIT
    ensures WriteContents(files[..i]).value + (U32Bytes(|files[i].data|) + files[i].data)
         <= WriteContents(files).value
    decreases |files|
  {
    hide U32Bytes;
    var init := files[..|files| - 1];
    if i < |init| {
      assert init[..i] == files[..i];
      ContentsSplit(init, i);
    }
  }

  /** At `at` there is a size word and then the data it announces. */
  predicate Holds(out: bytes, at: nat, data: bytes) {
    && |data| < U32_LIMIT
    && at + 4 + |data| <= |out|
    && out[at..at + 4] == U32Bytes(|data|)
    && out[at + 4..at + 4 + |data|] == data
  }

  /** Every offset in the table of contents of a written archive is the position, in
      the archive, of that file's size word, with the file's bytes right after it. */
  lemma OffsetsPoint(files: seq<FileInfo>, i: nat)
    requires Write(files).Ok? && i < |files|
    ensures var out := Write(files).value;
            var toc := ReadToc(out[4..], |files|);
            && toc.Done? && |toc.value| == |files|
            && Holds(out, toc.value[i].offset, files[i].data)
  {
    hide U32Bytes, ReadToc, NameRead, WriteToc, WriteContents, HeaderSize, OffsetAfter;
    var base, out := HeaderSize(files), Write(files).value;
    var n, toc, contents := U32Bytes(|files|), WriteToc(base, files).value, WriteContents(files).value;
    assert out[4..] == toc + contents;
    TocRoundTrip(base, files, contents);
    EntryAt(base, files, i);
    TocLength(base, files);
    ContentsSplit(files, i);
    ContentsLength(base, files[..i]);
    var pre, size, data := WriteContents(files[..i]).value, U32Bytes(|files[i].data|), files[i].data;
    SliceAt(n + toc, contents, pre, size, data);
  }

  lemma SliceAt(head: bytes, contents: bytes, pre: bytes, size: bytes, data: bytes)
    requires pre + (size + data) <= contents
    ensures var out, at := head + contents, |head| + |pre|;
            && at + |size| + |data| <= |out|
            && out[at..at + |size|] == size
            && out[at + |size|..at + |size| + |data|] == data
  {
    var m := |pre| + |size| + |data|;
    assert contents[..m] == pre + (size + data);
    assert contents[|pre|..|pre| + |size|] == contents[..m][|pre|..|pre| + |size|];
    assert contents[|pre| + |size|..m] == contents[..m][|pre| + |size|..m];
    assert (head + contents)[|head| + |pre|..|head| + |pre| + |size|] == contents[|pre|..|pre| + |size|];
    assert (head + contents)[|head| + |pre| + |size|..|head| + m] == contents[|pre| + |size|..m];
  }

  // ----- the source's loops -----

  lemma {:induction false} TocStop(base: nat, files: seq<FileInfo>, i: nat)
    requires i <= |files| && WriteToc(base, files[..i]).Err?
    ensures WriteToc(base, files) == Err(WriteToc(base, files[..i]).error)
    decreases |files|
  {
    if i == |files| {
      assert files[..i] == files;
    } else {
      assert files[..|files| - 1][..i] == files[..i];
      TocStop(base, files[..|files| - 1], i);
    }
  }

  lemma {:induction false} ContentsStop(files: seq<FileInfo>, i: nat)
    requires i <= |files| && WriteContents(files[..i]).Err?
    ensures WriteContents(files) == Err(WriteContents(files[..i]).error)
    decreases |files|
  {
    if i == |files| {
      assert files[..i] == files;
    } else {
      assert files[..|files| - 1][..i] == files[..i];
      ContentsStop(files[..|files| - 1], i);
    }
  }

  method WriteTocLoop(files: seq<FileInfo>, base: nat) returns (r: Result<bytes>)
    ensures r == WriteToc(base, files)
  {
    hide SafeString.Write, U32Bytes;
    var out: bytes := [];
    var offset := base;
    for i := 0 to |files|
      invariant WriteToc(base, files[..i]) == Ok(out)
      invariant offset == OffsetAfter(base, files[..i])
    {
      assert files[..i + 1][..i] == files[..i];
      var name := SafeString.Write(files[i].name, SafeString.AsUtf8);
      if offset >= U32_LIMIT {
        TocStop(base, files, i + 1);
        return Err(TooLarge);
      }
      if name.Err? {
        TocStop(base, files, i + 1);
        return Err(name.error);
      }
      out := out + (name.value + U32Bytes(offset));
      offset := offset + 4 + |files[i].data|;
    }
    assert files[..|files|] == files;
    return Ok(out);
  }

  method WriteContentsLoop(files: seq<FileInfo>) returns (r: Result<bytes>)
    ensures r == WriteContents(files)
  {
    hide U32Bytes;
    var out: bytes := [];
    for i := 0 to |files|
      invariant WriteContents(files[..i]) == Ok(out)
    {
      assert files[..i + 1][..i] == files[..i];
      if |files[i].data| >= U32_LIMIT {
        ContentsStop(files, i + 1);
        return Err(TooLarge);
      }
      out := out + (U32Bytes(|files[i].data|) + files[i].data);
    }
    assert files[..|files|] == files;
    return Ok(out);
  }

  method StreamWrite(files: seq<FileInfo>) returns (r: Result<bytes>)
    ensures r == Write(files)
  {
    if |files| >= U32_LIMIT {
      return Err(TooLarge);
    }
    var offsetAccum := 4;
    for i := 0 to |files|
      invariant offsetAccum == HeaderSize(files[..i])
    {
      assert files[..i + 1][..i] == files[..i];
      offsetAccum := offsetAccum + 2 + |Utf8(files[i].name)| + 4;
    }
    assert files[..|files|] == files;
    var toc := WriteTocLoop(files, offsetAccum);
    if toc.Err? {
      return Err(toc.error);
    }
    var contents := WriteContentsLoop(files);
    if contents.Err? {
      return Err(contents.error);
    }
    return Ok(U32Bytes(|files|) + toc.value + contents.value);
  }

  lemma {:induction false} TocReadStop(s: bytes, i: nat, n: nat)
    requires i <= n && ReadToc(s, i).Fail?
    ensures ReadToc(s, n) == Fail(ReadToc(s, i).error)
    decreases n
  {
    hide SafeString.Read, ReadU32;
    if i < n {
      TocReadStop(s, i, n - 1);
    }
  }

  lemma {:induction false} ContentsReadStop(s: bytes, entries: seq<Entry>, i: nat)
    requires i <= |entries| && ReadContents(s, entries[..i]).Fail?
    ensures ReadContents(s, entries) == Fail(ReadContents(s, entries[..i]).error)
    decreases |entries|
  {
    hide ReadU32, ReadBytes;
    if i == |entries| {
      assert entries[..i] == entries;
    } else {
      assert entries[..|entries| - 1][..i] == entries[..i];
      ContentsReadStop(s, entries[..|entries| - 1], i);
    }
  }

  method ReadTocLoop(s: bytes, n: nat) returns (r: Parsed<seq<Entry>>)
    ensures r == ReadToc(s, n)
  {
    hide SafeString.Read, ReadU32;
    var entries: seq<Entry>, rest := [], s;
    for i := 0 to n
      invariant ReadToc(s, i) == Done(entries, rest)
    {
      var name := SafeString.Read(rest, SafeString.AsUtf8);
      if name.Fail? {
        TocReadStop(s, i + 1, n);
        return Fail(name.error);
      }
      var offset := ReadU32(name.rest);
      if offset.Fail? {
        TocReadStop(s, i + 1, n);
        return Fail(offset.error);
      }
      entries, rest := entries + [Entry(name.value, offset.value)], offset.rest;
    }
    return Done(entries, rest);
  }

  method StreamRead(s: bytes) returns (r: Parsed<seq<FileInfo>>)
    ensures r == Read(s)
  {
    hide ReadU32, ReadBytes, ReadToc;
    var count := ReadU32(s);
    if count.Fail? {
      return Fail(count.error);
    }
    var toc := ReadTocLoop(count.rest, count.value);
    if toc.Fail? {
      return Fail(toc.error);
    }
    var entries := toc.value;
    var files: seq<FileInfo>, rest := [], toc.rest;
    for i := 0 to |entries|
      invariant ReadContents(toc.rest, entries[..i]) == Done(files, rest)
    {
      assert entries[..i + 1][..i] == entries[..i];
      var size := ReadU32(rest);
      if size.Fail? {
        ContentsReadStop(toc.rest, entries, i + 1);
        return Fail(size.error);
      }
      var data := ReadBytes(size.rest, size.value);
      if data.Fail? {
        ContentsReadStop(toc.rest, entries, i + 1);
        return Fail(data.error);
      }
      files, rest := files + [FileInfo(entries[i].name, data.value)], data.rest;
    }
    assert entries[..|entries|] == entries;
    return Done(files, rest);
  }

  /** An archive written in any pieces through the encrypting writer, then read back
      in any chunk sizes and parsed, is the archive up to its names, and the archive that
      was written if and only if its names survive. */
  method ThroughEncryption(files: seq<FileInfo>, mode: FileCrypt.Mode, key: Cipher.Key,
                           ops: seq<FileCrypt.Op>, sizes: seq<nat>)
    returns (back: Parsed<seq<FileInfo>>)
    requires !mode.Unencrypted? && Write(files).Ok?
    requires FileCrypt.TextOf(ops) == Write(files).value && |Write(files).value| < Cipher.M32
    requires FileCrypt.Total(sizes) >= |Write(files).value|
    ensures back == Done(Renamed(files), [])
    ensures back == Done(files, []) <==> AllSurvive(files)
  {
    hide Write, Read, AllSurvive, Renamed;
    ghost var text := Write(files).value;
    var got := FileCrypt.RoundTrip([], [], mode, key, ops, sizes);
    assert got == text == text + [];
    RoundTrip(files, []);
    back := Read(got);
  }
}
