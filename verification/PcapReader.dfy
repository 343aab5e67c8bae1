/** The replay source: a list of pcap files read cyclically, record by record, straight
    from their bytes. `None` and `Exit` stand for the calls to rte_exit. */
module PcapReader {
  import opened Arith
  import opened Bytes
  import opened PcapFile

  /** Where the open FILE stands: which source file, at which byte, and its byte order. */
  datatype Cursor = Cursor(file: nat, off: nat, convert: bool)

  /** A file the reader opens, finds no record in, and passes over without complaint. */
  predicate SilentlyEmpty(f: seq<byte>) {
    |f| < FILE_HEADER_LEN + RECORD_HEADER_LEN && Convert(f).Some?
  }

  /** Some file ends the reader's search, by a record or by an exit. */
  predicate Startable(files: seq<seq<byte>>) {
    exists i :: 0 <= i < |files| && !SilentlyEmpty(files[i])
  }

  predicate InRange(files: seq<seq<byte>>, c: Cursor) {
    c.file < |files| && c.off <= |files[c.file]|
  }

  function FirstUseful(files: seq<seq<byte>>, from: nat): (i: nat)
    requires from < |files| && exists j :: from <= j < |files| && !SilentlyEmpty(files[j])
    ensures from <= i < |files| && !SilentlyEmpty(files[i])
    decreases |files| - from
  {
    if !SilentlyEmpty(files[from]) then from else FirstUseful(files, from + 1)
  }

  /** pcap_open_source_index for an index in range. */
  function Open(files: seq<seq<byte>>, i: nat): (c: Option<Cursor>)
    requires i < |files|
    ensures c.Some? ==> InRange(files, c.value)
  {
    match Convert(files[i])
    case None => None
    case Some(convert) => Some(Cursor(i, FILE_HEADER_LEN, convert))
  }

  function NextIndex(files: seq<seq<byte>>, i: nat): nat {
    if i + 1 >= |files| then 0 else i + 1
  }

  predicate HeaderAvailable(files: seq<seq<byte>>, c: Cursor)
    requires InRange(files, c)
  {
    c.off + RECORD_HEADER_LEN <= |files[c.file]|
  }

  /** How many further files may be opened before the search ends. */
  function FilesToSearch(files: seq<seq<byte>>, c: Cursor): (d: nat)
    requires Startable(files) && InRange(files, c)
    ensures d <= |files|
  {
    if HeaderAvailable(files, c) then 0
    else
      var e := FirstUseful(files, 0);
      if c.file < e then e - c.file else |files| - c.file + e
  }

  lemma SearchShrinks(files: seq<seq<byte>>, c: Cursor)
    requires Startable(files) && InRange(files, c) && !HeaderAvailable(files, c)
    requires Open(files, NextIndex(files, c.file)).Some?
    ensures FilesToSearch(files, Open(files, NextIndex(files, c.file)).value) < FilesToSearch(files, c)
  {
  }

  /** pcap_read_record_header's search for the next record header. */
  function Seek(files: seq<seq<byte>>, c: Cursor): (r: Option<Cursor>)
    requires Startable(files) && InRange(files, c)
    ensures r.Some? ==> InRange(files, r.value) && HeaderAvailable(files, r.value)
    decreases FilesToSearch(files, c)
  {
    if HeaderAvailable(files, c) then Some(c)
    else
      match Open(files, NextIndex(files, c.file))
      case None => None
      case Some(next) =>
        SearchShrinks(files, c);
        Seek(files, next)
  }

  /** One read of mbuf_iterate_cb: the next packet and where the file then stands. */
  function ReadNext(files: seq<seq<byte>>, c: Cursor): (r: Option<(Packet, Cursor)>)
    requires Startable(files) && InRange(files, c)
    ensures r.Some? ==> InRange(files, r.value.1)
  {
    match Seek(files, c)
    case None => None
    case Some(at) =>
      match FirstRecord(files[at.file][at.off..], at.convert)
      case None => None
      case Some(data) => Some((data, at.(off := at.off + RECORD_HEADER_LEN + |data|)))
  }

  // ------------------------------------------------- the stream of a source

  /** A list of well-formed files that is not empty as a whole. */
  ghost predicate Source(files: seq<seq<byte>>) {
    && (forall i :: 0 <= i < |files| ==> WellFormed(files[i]))
    && |Concat(files, 0)| > 0
  }

  /** The records of the files from `from` on, in order. */
  ghost function Concat(files: seq<seq<byte>>, from: nat): seq<Packet>
    requires from <= |files|
    requires forall i :: 0 <= i < |files| ==> WellFormed(files[i])
    decreases |files| - from
  {
    if from == |files| then [] else Records(files[from]) + Concat(files, from + 1)
  }

  /** Record `k` of the endless repetition of the source. */
  ghost function Stream(files: seq<seq<byte>>, k: nat): Packet
    requires Source(files)
  {
    Concat(files, 0)[Wrap(k, |Concat(files, 0)|)]
  }

  ghost predicate OnRecord(files: seq<seq<byte>>, c: Cursor)
    requires Source(files)
  {
    && InRange(files, c)
    && Convert(files[c.file]) == Some(c.convert)
    && ParseRecords(files[c.file][c.off..], c.convert).Some?
  }

  /** What is still to be read before the list of files is exhausted. */
  ghost function Ahead(files: seq<seq<byte>>, c: Cursor): seq<Packet>
    requires Source(files) && OnRecord(files, c)
  {
    ParseRecords(files[c.file][c.off..], c.convert).value + Concat(files, c.file + 1)
  }

  /** The cursor of a reader that has delivered `k` records since the list was opened. */
  ghost predicate HasRead(files: seq<seq<byte>>, c: Cursor, k: nat)
    requires Source(files)
  {
    && OnRecord(files, c)
    && var all, ahead := Concat(files, 0), Ahead(files, c);
    && |ahead| <= |all|
    && ahead == all[|all| - |ahead|..]
    && Wrap(|all| - |ahead|, |all|) == Wrap(k, |all|)
  }

  lemma {:induction false} ConcatIsSuffix(files: seq<seq<byte>>, from: nat)
    requires from <= |files|
    requires forall i :: 0 <= i < |files| ==> WellFormed(files[i])
    ensures |Concat(files, from)| <= |Concat(files, 0)|
    ensures Concat(files, from) == Concat(files, 0)[|Concat(files, 0)| - |Concat(files, from)|..]
  {
    if from > 0 {
      ConcatIsSuffix(files, from - 1);
      assert Concat(files, from) == Concat(files, from - 1)[|Records(files[from - 1])|..];
    }
  }

  lemma {:induction false} SomeFileUseful(files: seq<seq<byte>>, from: nat)
    requires from <= |files|
    requires forall i :: 0 <= i < |files| ==> WellFormed(files[i])
    requires |Concat(files, from)| > 0
    ensures exists i :: from <= i < |files| && !SilentlyEmpty(files[i])
    decreases |files| - from
  {
    if SilentlyEmpty(files[from]) {
      assert Records(files[from]) == [];
      SomeFileUseful(files, from + 1);
    }
  }

  lemma SourceStartable(files: seq<seq<byte>>)
    requires Source(files)
    ensures Startable(files)
  {
    SomeFileUseful(files, 0);
  }

  lemma OpenedOnRecord(files: seq<seq<byte>>, i: nat)
    requires Source(files) && i < |files|
    ensures Open(files, i).Some? && OnRecord(files, Open(files, i).value)
    ensures Ahead(files, Open(files, i).value) == Concat(files, i)
  {
    hide Convert, ParseRecords;
    assert WellFormed(files[i]);
  }

  /** pcap_rewind leaves a reader that has delivered nothing. */
  lemma RewoundHasReadNothing(files: seq<seq<byte>>)
    requires Source(files)
    ensures Open(files, 0).Some? && HasRead(files, Open(files, 0).value, 0)
  {
    OpenedOnRecord(files, 0);
  }

  lemma ExhaustedFile(files: seq<seq<byte>>, c: Cursor)
    requires Source(files) && OnRecord(files, c) && !HeaderAvailable(files, c)
    ensures Ahead(files, c) == Concat(files, c.file + 1)
  {
    assert files[c.file][c.off..] == [];
  }

  /** Moving from the end of one file to the front of the next keeps the place. */
  lemma StepToNextFile(files: seq<seq<byte>>, c: Cursor, k: nat)
    requires Source(files) && HasRead(files, c, k) && !HeaderAvailable(files, c)
    ensures var next := Open(files, NextIndex(files, c.file));
            next.Some? && HasRead(files, next.value, k)
  {
    var i := NextIndex(files, c.file);
    ExhaustedFile(files, c);
    OpenedOnRecord(files, i);
    ConcatIsSuffix(files, i);
    if i == 0 {
      assert Ahead(files, c) == [];
    }
  }

  /** Passing to the next file, or back to the first, loses and repeats nothing. */
  lemma {:induction false} SeekKeepsPlace(files: seq<seq<byte>>, c: Cursor, k: nat)
    requires Source(files) && Startable(files) && HasRead(files, c, k)
    ensures Seek(files, c).Some? && HasRead(files, Seek(files, c).value, k)
    decreases FilesToSearch(files, c)
  {
    if !HeaderAvailable(files, c) {
      StepToNextFile(files, c, k);
      SearchShrinks(files, c);
      SeekKeepsPlace(files, Open(files, NextIndex(files, c.file)).value, k);
    }
  }

  /** On a record, the reader takes the first of the packets ahead of it. */
  lemma TakesFirstAhead(files: seq<seq<byte>>, c: Cursor)
    requires Source(files) && Startable(files) && OnRecord(files, c) && HeaderAvailable(files, c)
    ensures ReadNext(files, c).Some? && OnRecord(files, ReadNext(files, c).value.1)
    ensures Ahead(files, c) == [ReadNext(files, c).value.0] + Ahead(files, ReadNext(files, c).value.1)
  {
    hide FirstRecord, Convert;
    var b := files[c.file][c.off..];
    var data := FirstRecord(b, c.convert).value;
    var next := ReadNext(files, c).value.1;
    assert files[next.file][next.off..] == b[RECORD_HEADER_LEN + |data|..];
  }

  lemma NextPlace(all: seq<Packet>, ahead: seq<Packet>, k: nat)
    requires 0 < |ahead| <= |all| && ahead == all[|all| - |ahead|..]
    requires Wrap(|all| - |ahead|, |all|) == Wrap(k, |all|)
    ensures ahead[0] == all[Wrap(k, |all|)]
    ensures ahead[1..] == all[|all| - |ahead[1..]|..]
    ensures Wrap(|all| - |ahead[1..]|, |all|) == Wrap(k + 1, |all|)
  {
    WrapNext(|all| - |ahead|, |all|);
    WrapNext(k, |all|);
  }

  /** Over the whole life of the reader, the record read after `k` others is record
      `k mod N` of the concatenated files. */
  lemma ReadsTheStream(files: seq<seq<byte>>, c: Cursor, k: nat)
    requires Source(files) && Startable(files) && HasRead(files, c, k)
    ensures ReadNext(files, c).Some?
    ensures ReadNext(files, c).value.0 == Stream(files, k)
    ensures HasRead(files, ReadNext(files, c).value.1, k + 1)
  {
    hide FirstRecord, ParseRecords, Convert;
    SeekKeepsPlace(files, c, k);
    var at := Seek(files, c).value;
    TakesFirstAhead(files, at);
    assert ReadNext(files, c) == ReadNext(files, at);
    var ahead := Ahead(files, at);
    NextPlace(Concat(files, 0), ahead, k);
    assert Ahead(files, ReadNext(files, c).value.1) == ahead[1..];
  }

  // ------------------------------------------------------- the running code

  /** The reader part of pcap_info_t. */
  class PcapSource {
    const sourceFiles: seq<seq<byte>>
    var sourceFileIndex: nat
    var position: nat
    var sourceConvert: bool

    predicate Valid()
      reads this
    {
      InRange(sourceFiles, At())
    }

    function At(): Cursor
      reads this
    {
      Cursor(sourceFileIndex, position, sourceConvert)
    }

    constructor (files: seq<seq<byte>>)
      requires |files| > 0
      ensures Valid() && sourceFiles == files
    {
      sourceFiles := files;
      sourceFileIndex, position, sourceConvert := 0, 0, false;
    }

    /** pcap_open_source_index: -1 for an index out of range, `exited` for rte_exit. */
    method OpenSourceIndex(i: nat) returns (rc: int, exited: bool)
      requires Valid()
      modifies this
      ensures Valid()
      ensures i >= |sourceFiles| ==> rc == -1 && !exited && At() == old(At())
      ensures i < |sourceFiles| ==> exited == Open(sourceFiles, i).None?
      ensures i < |sourceFiles| && !exited ==> rc == 0 && At() == Open(sourceFiles, i).value
    {
      if i >= |sourceFiles| {
        return -1, false;
      }
      var f := sourceFiles[i];
      if |f| >= FILE_HEADER_LEN {
        DecodedConvert(f);
      }
      if |f| < FILE_HEADER_LEN {
        return 0, true;
      }
      match DecodeHeader(ReadFileHeader(f[..FILE_HEADER_LEN])) {
        case PcapNg => return 0, true;
        case BadMagic => return 0, true;
        case Good(_, convert) =>
          position := FILE_HEADER_LEN;
          sourceFileIndex := i;
          sourceConvert := convert;
          return 0, false;
      }
    }

    /** pcap_read_record_header: the loop over the source files. */
    method ReadRecordHeader() returns (hdr: RecordHeader, exited: bool)
      requires Valid() && Startable(sourceFiles)
      modifies this
      ensures exited == Seek(sourceFiles, old(At())).None?
      ensures !exited ==>
        var at := Seek(sourceFiles, old(At())).value;
        && Valid()
        && At() == at.(off := at.off + RECORD_HEADER_LEN)
        && hdr.inclLen == InclLen(sourceFiles[at.file][at.off..], at.convert)
    {
      while true
        invariant Valid() && Seek(sourceFiles, At()) == Seek(sourceFiles, old(At()))
        decreases FilesToSearch(sourceFiles, At())
      {
        var f := sourceFiles[sourceFileIndex];
        if position + RECORD_HEADER_LEN <= |f| {
          hdr := ConvertRecordHeader(sourceConvert, PcapFile.ReadRecordHeader(f[position..][..RECORD_HEADER_LEN]));
          ConvertedInclLen(f[position..], sourceConvert);
          position := position + RECORD_HEADER_LEN;
          return hdr, false;
        }
        var next := sourceFileIndex + 1;
        if next >= |sourceFiles| {
          next := 0;
        }
        ghost var before := At();
        assert next == NextIndex(sourceFiles, before.file);
        var rc, bad := OpenSourceIndex(next);
        if bad {
          return RecordHeader(0, 0, 0, 0), true;
        }
        SearchShrinks(sourceFiles, before);
      }
    }

    /** The reading half of mbuf_iterate_cb. */
    method ReadPacket() returns (r: Option<Packet>)
      requires Valid() && Startable(sourceFiles)
      modifies this
      ensures r.Some? == ReadNext(sourceFiles, old(At())).Some?
      ensures r.Some? ==> Valid() && (r.value, At()) == ReadNext(sourceFiles, old(At())).value
    {
      ghost var from := At();
      var hdr, exited := ReadRecordHeader();
      if exited {
        return None;
      }
      ghost var at := Seek(sourceFiles, from).value;
      var f := sourceFiles[sourceFileIndex];
      if |f| < position + hdr.inclLen {
        return None;
      }
      var data := f[position..position + hdr.inclLen];
      assert f[at.off..][RECORD_HEADER_LEN..RECORD_HEADER_LEN + hdr.inclLen] == data;
      position := position + hdr.inclLen;
      return Some(data);
    }
  }
}
