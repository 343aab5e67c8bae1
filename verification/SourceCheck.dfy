/** What the start-up scan lets through: exactly which of the sources it accepts the reader can go
    on reading, and which make it exit later, in the reload worker. */
module SourceCheck {
  import opened Bytes
  import opened PcapFile
  import opened PcapReader
  import opened Sizing

  const NOTHING := Info(0, 0, 0)

  /** The scan accepts the source. */
  predicate Accepted(files: seq<seq<byte>>) {
    ScanFiles(files, 0, NOTHING).Some? && ScanFiles(files, 0, NOTHING).value.count > 0
  }

  lemma ConvertLength(f: seq<byte>)
    requires Convert(f).Some?
    ensures |f| >= FILE_HEADER_LEN
  {
  }

  /** The scan gets through the file. */
  predicate Scans(f: seq<byte>) {
    Convert(f).Some? && (ConvertLength(f); Scan(f[FILE_HEADER_LEN..], Convert(f).value, NOTHING).Some?)
  }

  /** Whether the scan gets through does not depend on what it has counted so far. */
  lemma {:induction false} ScanAnyCount(b: seq<byte>, convert: bool, x: Info, y: Info)
    ensures Scan(b, convert, x).Some? <==> Scan(b, convert, y).Some?
    decreases |b|
  {
    hide InclLen;
    if |b| >= RECORD_HEADER_LEN {
      var n := InclLen(b, convert);
      var rest := if RECORD_HEADER_LEN + n <= |b| then b[RECORD_HEADER_LEN + n..] else [];
      ScanAnyCount(rest, convert, Info(x.count + 1, Max(x.max, n), x.total + n),
                   Info(y.count + 1, Max(y.max, n), y.total + n));
    }
  }

  lemma {:induction false} AllScan(files: seq<seq<byte>>, i: nat, sofar: Info)
    requires i <= |files| && ScanFiles(files, i, sofar).Some?
    ensures forall j :: i <= j < |files| ==> Scans(files[j])
    decreases |files| - i
  {
    hide Convert, Scan;
    if i < |files| {
      ConvertLength(files[i]);
      var b, convert := files[i][FILE_HEADER_LEN..], Convert(files[i]).value;
      ScanAnyCount(b, convert, sofar, NOTHING);
      AllScan(files, i + 1, Scan(b, convert, sofar).value);
    }
  }

  /** Where the reader stands after `k` reads from `c`, or None when one of them exits. */
  function AfterReads(files: seq<seq<byte>>, c: Cursor, k: nat): Option<Cursor>
    requires Startable(files) && InRange(files, c)
    decreases k
  {
    if k == 0 then Some(c)
    else
      match ReadNext(files, c)
      case None => None
      case Some((_, next)) => AfterReads(files, next, k - 1)
  }

  /** However many records are asked for, the reader delivers them. */
  ghost predicate ReadsForever(files: seq<seq<byte>>, c: Cursor)
    requires Startable(files) && InRange(files, c)
  {
    forall k: nat :: AfterReads(files, c, k).Some?
  }

  // --------------------------------------------------------- well-formed sources

  lemma {:induction false} SourceReads(files: seq<seq<byte>>, c: Cursor, n: nat, k: nat)
    requires Source(files) && Startable(files) && InRange(files, c) && HasRead(files, c, n)
    ensures AfterReads(files, c, k).Some?
    decreases k
  {
    hide HasRead, Source, ReadNext;
    if k > 0 {
      ReadsTheStream(files, c, n);
      SourceReads(files, ReadNext(files, c).value.1, n + 1, k - 1);
    }
  }

  lemma AcceptedSource(files: seq<seq<byte>>)
    requires Accepted(files) && forall i :: 0 <= i < |files| ==> WellFormed(files[i])
    ensures Source(files)
  {
    hide WellFormed, ScanFiles;
    ScanFilesTallies(files, 0, NOTHING);
    TallyMeans(Concat(files, 0), NOTHING);
  }

  // ------------------------------------------------------------ the other sources

  /** The cursor is in file `f`, in its byte order, before the bytes `b`. */
  ghost predicate StandsBefore(files: seq<seq<byte>>, c: Cursor, f: nat, b: seq<byte>) {
    InRange(files, c) && c.file == f && Convert(files[f]) == Some(c.convert) && files[f][c.off..] == b
  }

  lemma ReadsOne(files: seq<seq<byte>>, c: Cursor, b: seq<byte>)
    requires Startable(files) && StandsBefore(files, c, c.file, b) && |b| >= RECORD_HEADER_LEN
    ensures FirstRecord(b, c.convert).None? ==> ReadNext(files, c).None?
    ensures FirstRecord(b, c.convert).Some? ==>
      && ReadNext(files, c).Some? && ReadNext(files, c).value.1.convert == c.convert
      && var data := FirstRecord(b, c.convert).value;
      StandsBefore(files, ReadNext(files, c).value.1, c.file, b[RECORD_HEADER_LEN + |data|..])
  {
    hide FirstRecord, Convert;
    if FirstRecord(b, c.convert).Some? {
      var data, next := FirstRecord(b, c.convert).value, ReadNext(files, c).value.1;
      assert files[c.file][next.off..] == b[RECORD_HEADER_LEN + |data|..];
    }
  }

  /** What the scan gets through and the parse does not makes the reader exit. */
  lemma {:induction false} ExitsInFile(files: seq<seq<byte>>, c: Cursor, b: seq<byte>, sofar: Info) returns (k: nat)
    requires Startable(files) && StandsBefore(files, c, c.file, b)
    requires Scan(b, c.convert, sofar).Some? && ParseRecords(b, c.convert).None?
    ensures AfterReads(files, c, k).None?
    decreases |b|
  {
    hide ReadNext, InclLen, Convert;
    assert b != [] && |b| >= RECORD_HEADER_LEN;
    ReadsOne(files, c, b);
    if FirstRecord(b, c.convert).None? {
      k := 1;
    } else {
      var data, next := FirstRecord(b, c.convert).value, ReadNext(files, c).value.1;
      ScannedFirst(b, c.convert, sofar);
      var rest := b[RECORD_HEADER_LEN + |data|..];
      var info := Info(sofar.count + 1, Max(sofar.max, |data|), sofar.total + |data|);
      assert Scan(rest, c.convert, info).Some? && ParseRecords(rest, c.convert).None?;
      var j := ExitsInFile(files, next, rest, info);
      k := j + 1;
    }
  }

  /** At the end of a file the next read is the first of the next file. */
  lemma ReadsNextFile(files: seq<seq<byte>>, c: Cursor)
    requires Startable(files) && StandsBefore(files, c, c.file, []) && c.file + 1 < |files|
    requires Convert(files[c.file + 1]).Some?
    ensures |files[c.file + 1]| >= FILE_HEADER_LEN && Open(files, c.file + 1).Some?
    ensures var next := Open(files, c.file + 1).value;
      && StandsBefore(files, next, c.file + 1, files[c.file + 1][FILE_HEADER_LEN..])
      && ReadNext(files, c) == ReadNext(files, next)
  {
    ConvertLength(files[c.file + 1]);
    hide Convert, FirstRecord;
    assert |files[c.file]| == c.off;
  }

  /** The reader gets through the well-formed files before the first that is not, and exits there. */
  lemma {:induction false} ExitsAt(files: seq<seq<byte>>, c: Cursor, b: seq<byte>, bad: nat) returns (k: nat)
    requires Startable(files) && c.file <= bad < |files| && StandsBefore(files, c, c.file, b)
    requires forall j :: 0 <= j < |files| ==> Scans(files[j])
    requires forall j :: c.file < j < bad ==> WellFormed(files[j])
    requires c.file < bad ==> ParseRecords(b, c.convert).Some? && !WellFormed(files[bad])
    requires c.file == bad ==> Scan(b, c.convert, NOTHING).Some? && ParseRecords(b, c.convert).None?
    ensures AfterReads(files, c, k).None?
    decreases bad - c.file, |b|
  {
    hide ReadNext, InclLen, Convert, Scan;
    if c.file == bad {
      k := ExitsInFile(files, c, b, NOTHING);
    } else if b == [] {
      assert Scans(files[c.file + 1]);
      ReadsNextFile(files, c);
      var next := Open(files, c.file + 1).value;
      k := ExitsAt(files, next, files[c.file + 1][FILE_HEADER_LEN..], bad);
      SameReads(files, c, next, k);
    } else {
      assert FirstRecord(b, c.convert).Some?;
      assert |b| >= RECORD_HEADER_LEN;
      ReadsOne(files, c, b);
      var data, next := FirstRecord(b, c.convert).value, ReadNext(files, c).value.1;
      var j := ExitsAt(files, next, b[RECORD_HEADER_LEN + |data|..], bad);
      k := j + 1;
    }
  }

  lemma SameReads(files: seq<seq<byte>>, c: Cursor, next: Cursor, k: nat)
    requires Startable(files) && InRange(files, c) && InRange(files, next)
    requires ReadNext(files, c) == ReadNext(files, next)
    requires AfterReads(files, next, k).None?
    ensures AfterReads(files, c, k).None?
  {
    hide ReadNext;
  }

  lemma {:induction false} FirstBad(files: seq<seq<byte>>, n: nat) returns (bad: nat)
    requires n <= |files| && exists j :: 0 <= j < n && !WellFormed(files[j])
    ensures bad < n && !WellFormed(files[bad]) && forall j :: 0 <= j < bad ==> WellFormed(files[j])
  {
    hide WellFormed;
    if exists j :: 0 <= j < n - 1 && !WellFormed(files[j]) {
      bad := FirstBad(files, n - 1);
    } else {
      bad := n - 1;
    }
  }

  lemma ScannedNotParsed(f: seq<byte>)
    requires Scans(f)
    ensures |f| >= FILE_HEADER_LEN && Convert(f).Some?
    ensures Scan(f[FILE_HEADER_LEN..], Convert(f).value, NOTHING).Some?
    ensures WellFormed(f) <==> ParseRecords(f[FILE_HEADER_LEN..], Convert(f).value).Some?
  {
    ConvertLength(f);
  }

  lemma ExitsSomewhere(files: seq<seq<byte>>) returns (k: nat)
    requires |files| > 0 && Accepted(files) && Startable(files)
    requires exists j :: 0 <= j < |files| && !WellFormed(files[j])
    ensures Open(files, 0).Some? && AfterReads(files, Open(files, 0).value, k).None?
  {
    hide WellFormed, Convert, Scan, ScanFiles, Scans;
    AllScan(files, 0, NOTHING);
    var bad := FirstBad(files, |files|);
    ScannedNotParsed(files[0]);
    ScannedNotParsed(files[bad]);
    k := ExitsAt(files, Open(files, 0).value, files[0][FILE_HEADER_LEN..], bad);
  }

  // --------------------------------------------------------------- exactly when

  /** A source that the scan accepts can be read over and over if and only if every file of it is
      well formed: its record area a whole number of records, none of them cut short. */
  lemma AcceptedReadsForeverIff(files: seq<seq<byte>>)
    requires |files| > 0 && Accepted(files)
    ensures Startable(files) && Open(files, 0).Some?
    ensures ReadsForever(files, Open(files, 0).value) <==> forall i :: 0 <= i < |files| ==> WellFormed(files[i])
  {
    AcceptedIsStartable(files);
    AllScan(files, 0, NOTHING);
    ScannedNotParsed(files[0]);
    hide WellFormed, Convert, Scan, ScanFiles, Scans, Accepted, Source, HasRead;
    var c := Open(files, 0).value;
    if forall i :: 0 <= i < |files| ==> WellFormed(files[i]) {
      AcceptedSource(files);
      RewoundHasReadNothing(files);
      forall k: nat
        ensures AfterReads(files, c, k).Some?
      {
        SourceReads(files, c, 0, k);
      }
    } else {
      var k := ExitsSomewhere(files);
      assert !ReadsForever(files, c);
    }
  }

  // --------------------------------------------------------------- a file cut short

  lemma {:induction false} LastWithin(b: seq<byte>, convert: bool)
    requires ParseRecords(b, convert).Some? && ParseRecords(b, convert).value != []
    ensures var ps := ParseRecords(b, convert).value; RECORD_HEADER_LEN + |ps[|ps| - 1]| <= |b|
    decreases |b|
  {
    hide InclLen;
    ParsedFirst(b, convert);
    var rest := b[RECORD_HEADER_LEN + InclLen(b, convert)..];
    if ParseRecords(rest, convert).value != [] {
      LastWithin(rest, convert);
    }
  }

  lemma SameInclLen(b: seq<byte>, cut: seq<byte>, convert: bool)
    requires RECORD_HEADER_LEN <= |cut| <= |b| && cut == b[..|cut|]
    ensures InclLen(cut, convert) == InclLen(b, convert)
  {
    assert cut[8..12] == b[8..12];
  }

  /** One record, cut within its data. */
  lemma CutOne(b: seq<byte>, convert: bool, n: nat, sofar: Info)
    requires |b| >= RECORD_HEADER_LEN && |b| == RECORD_HEADER_LEN + InclLen(b, convert)
    requires 0 < n <= InclLen(b, convert)
    ensures Scan(b[..|b| - n], convert, sofar) == Scan(b, convert, sofar)
    ensures ParseRecords(b[..|b| - n], convert).None?
  {
    SameInclLen(b, b[..|b| - n], convert);
    hide InclLen;
    assert b[|b|..] == [];
  }

  /** A record, and then what is cut. */
  lemma CutLater(b: seq<byte>, cut: seq<byte>, convert: bool, sofar: Info)
    requires RECORD_HEADER_LEN <= |cut| <= |b| && cut == b[..|cut|]
    requires RECORD_HEADER_LEN + InclLen(b, convert) <= |cut|
    ensures InclLen(cut, convert) == InclLen(b, convert)
    ensures var k := RECORD_HEADER_LEN + InclLen(b, convert);
      var next := Info(sofar.count + 1, Max(sofar.max, InclLen(b, convert)), sofar.total + InclLen(b, convert));
      && Scan(cut, convert, sofar) == Scan(cut[k..], convert, next)
      && Scan(b, convert, sofar) == Scan(b[k..], convert, next)
      && (ParseRecords(cut[k..], convert).None? ==> ParseRecords(cut, convert).None?)
  {
    hide *;
    SameInclLen(b, cut, convert);
    ScannedFirst(cut, convert, sofar);
    ScannedFirst(b, convert, sofar);
    RestNotParsed(cut, convert);
  }

  lemma RestNotParsed(b: seq<byte>, convert: bool)
    requires |b| >= RECORD_HEADER_LEN && |b| >= RECORD_HEADER_LEN + InclLen(b, convert)
    ensures ParseRecords(b[RECORD_HEADER_LEN + InclLen(b, convert)..], convert).None? ==>
      ParseRecords(b, convert).None?
  {
    hide InclLen;
  }

  /** The scan of a record area does not notice that its last record is cut short; the parse
      does. */
  lemma {:induction false} CutShort(b: seq<byte>, convert: bool, n: nat, sofar: Info)
    requires ParseRecords(b, convert).Some? && ParseRecords(b, convert).value != []
    requires var ps := ParseRecords(b, convert).value; 0 < n <= |ps[|ps| - 1]| && n <= |b|
    ensures Scan(b[..|b| - n], convert, sofar) == Scan(b, convert, sofar)
    ensures ParseRecords(b[..|b| - n], convert).None?
    decreases |b|
  {
    var cut := b[..|b| - n];
    ParsedParts(b, convert);
    var k := RECORD_HEADER_LEN + InclLen(b, convert);
    var rest := b[k..];
    hide *;
    if rest == [] {
      CutOne(b, convert, n, sofar);
    } else {
      LastWithin(rest, convert);
      CutLater(b, cut, convert, sofar);
      var next := Info(sofar.count + 1, Max(sofar.max, InclLen(b, convert)), sofar.total + InclLen(b, convert));
      CutShort(rest, convert, n, next);
      assert cut[k..] == rest[..|rest| - n];
    }
  }

  /** The first record of an area, and the last of what follows it. */
  lemma ParsedParts(b: seq<byte>, convert: bool)
    requires ParseRecords(b, convert).Some? && ParseRecords(b, convert).value != []
    ensures |b| >= RECORD_HEADER_LEN && |b| >= RECORD_HEADER_LEN + InclLen(b, convert)
    ensures var k, ps := RECORD_HEADER_LEN + InclLen(b, convert), ParseRecords(b, convert).value;
      var rest := b[k..];
      && ParseRecords(rest, convert).Some?
      && var more := ParseRecords(rest, convert).value;
      && (rest == [] ==> |ps[|ps| - 1]| == InclLen(b, convert))
      && (rest != [] ==> more != [] && ps[|ps| - 1] == more[|more| - 1])
  {
    ParsedFirst(b, convert);
    var rest := b[RECORD_HEADER_LEN + InclLen(b, convert)..];
    if rest == [] {
      NothingParsed(convert);
    } else {
      ParsedFirst(rest, convert);
    }
    hide InclLen, ParseRecords;
  }

  lemma NothingParsed(convert: bool)
    ensures ParseRecords([], convert) == Some([])
  {
  }

  /** Any well-formed file with data in its last record, cut short within that data: the scan
      accepts it with the same numbers as the whole file, and the reader exits on it. */
  lemma TruncatedFileExits(f: seq<byte>, n: nat) returns (k: nat)
    requires WellFormed(f) && Records(f) != [] && 0 < n <= |Records(f)[|Records(f)| - 1]|
    ensures n <= |f|
    ensures var g := f[..|f| - n];
      && ScanFiles([g], 0, NOTHING) == ScanFiles([f], 0, NOTHING) && Accepted([g])
      && Startable([g]) && Open([g], 0).Some? && AfterReads([g], Open([g], 0).value, k).None?
  {
    ConvertLength(f);
    var b, convert := f[FILE_HEADER_LEN..], Convert(f).value;
    LastWithin(b, convert);
    var g := f[..|f| - n];
    SameConvert(f, g);
    assert g[FILE_HEADER_LEN..] == b[..|b| - n];
    CutShort(b, convert, n, NOTHING);
    ScanTallies(b, convert, NOTHING);
    TallyMeans(Records(f), NOTHING);
    OneFileScan(f);
    OneFileScan(g);
    hide Convert, Scan, ScanFiles, ParseRecords, Tally;
    AcceptedReadsForeverIff([g]);
    assert !WellFormed([g][0]);
    k := FailsAt([g], Open([g], 0).value);
  }

  lemma SameConvert(f: seq<byte>, g: seq<byte>)
    requires FILE_HEADER_LEN <= |g| <= |f| && g == f[..|g|]
    ensures Convert(g) == Convert(f)
  {
    assert g[0..4] == f[0..4];
  }

  lemma OneFileScan(f: seq<byte>)
    requires Convert(f).Some?
    ensures |f| >= FILE_HEADER_LEN
    ensures ScanFiles([f], 0, NOTHING) == Scan(f[FILE_HEADER_LEN..], Convert(f).value, NOTHING)
  {
    ConvertLength(f);
    hide Convert, Scan;
    match Scan(f[FILE_HEADER_LEN..], Convert(f).value, NOTHING) {
      case None =>
      case Some(info) => assert ScanFiles([f], 1, info) == Some(info);
    }
  }

  lemma FailsAt(files: seq<seq<byte>>, c: Cursor) returns (k: nat)
    requires Startable(files) && InRange(files, c) && !ReadsForever(files, c)
    ensures AfterReads(files, c, k).None?
  {
    hide AfterReads;
    k :| AfterReads(files, c, k).None?;
  }
}
