/** The buffered ktrace reader: a fixed 64K buffer, compacted and refilled from the trace device,
    against plainly cutting the byte stream into records. */
module KtraceReader {
  import opened Common

  const CHUNK_SIZE: nat := 16 * 4 * 1024
  const HEADER_SIZE: nat := 16

  /** KTRACE_LEN: the low four bits of the tag, in units of eight bytes. The tag is stored little
      endian, so they are in the record's first byte. */
  function Len(tag: byte): (n: nat)
    ensures n <= 120 && n % 8 == 0
  {
    (tag as int % 16) * 8
  }

  /** Of a tag's first byte only the low four bits matter, and they count units of eight bytes. */
  lemma LenOfNibbles(high: nat, low: nat)
    requires high < 16 && low < 16
    ensures Len((16 * high + low) as byte) == 8 * low
  {
  }

  // ------------------------------------------------------------------ plain parsing

  /** The bytes start with a complete record. */
  predicate HasRecord(s: seq<byte>) {
    |s| >= HEADER_SIZE && |s| >= Len(s[0])
  }

  /** A stream of complete records, each at least a header long. */
  predicate WellFormed(s: seq<byte>)
    decreases |s|
  {
    s == [] || (|s| >= HEADER_SIZE && HEADER_SIZE <= Len(s[0]) <= |s| && WellFormed(s[Len(s[0])..]))
  }

  /** The records of a well-formed stream, in order. */
  function Records(s: seq<byte>): seq<seq<byte>>
    requires WellFormed(s)
    decreases |s|
  {
    if s == [] then [] else [s[..Len(s[0])]] + Records(s[Len(s[0])..])
  }

  function Concat(rs: seq<seq<byte>>): seq<byte> {
    if rs == [] then [] else rs[0] + Concat(rs[1..])
  }

  predicate IsRecord(r: seq<byte>) {
    |r| >= HEADER_SIZE && Len(r[0]) == |r|
  }

  /** Cutting up a concatenation of records gives back exactly those records. */
  lemma {:induction false} RecordsOfConcat(rs: seq<seq<byte>>)
    requires forall r :: r in rs ==> IsRecord(r)
    ensures WellFormed(Concat(rs)) && Records(Concat(rs)) == rs
  {
    if rs != [] {
      var s := Concat(rs);
      assert rs[0] in rs && IsRecord(rs[0]);
      RecordsOfConcat(rs[1..]);
      assert s[..Len(s[0])] == rs[0] && s[Len(s[0])..] == Concat(rs[1..]);
    }
  }

  /** And the records of a well-formed stream make up that stream. */
  lemma {:induction false} ConcatOfRecords(s: seq<byte>)
    requires WellFormed(s)
    ensures Concat(Records(s)) == s
    decreases |s|
  {
    if s != [] {
      ConcatOfRecords(s[Len(s[0])..]);
      assert Records(s)[1..] == Records(s[Len(s[0])..]);
    }
  }

  /** A record is there if its header of sixteen bytes and the units its tag counts are. */
  lemma RecordIsThere(s: seq<byte>, high: nat, low: nat)
    requires high < 16 && low < 16 && s != [] && s[0] as int == 16 * high + low
    ensures HasRecord(s) <==> |s| >= 16 && |s| >= 8 * low
  {
    LenOfNibbles(high, low);
  }

  // ------------------------------------------------------------------ the device

  /** The trace device: a read hands over between one byte and all that was asked for, as it likes;
      end of file is permanent. */
  class Device {
    const data: seq<byte>
    var pos: nat

    ghost predicate Valid()
      reads this
    {
      pos <= |data|
    }

    ghost function Remaining(): seq<byte>
      requires Valid()
      reads this
    {
      data[pos..]
    }

    constructor (data: seq<byte>)
      ensures Valid() && Remaining() == data
    {
      this.data := data;
      pos := 0;
    }

    method Read(buf: array<byte>, off: nat, count: nat) returns (n: nat)
      requires Valid() && off + count <= buf.Length && count > 0
      modifies this, buf
      ensures Valid()
      ensures n <= count && n <= |old(Remaining())|
      ensures n == 0 <==> old(Remaining()) == []
      ensures Remaining() == old(Remaining())[n..]
      ensures buf[off..off + n] == old(Remaining())[..n]
      ensures forall i :: 0 <= i < buf.Length && !(off <= i < off + n) ==> buf[i] == old(buf[i])
    {
      var left := |data| - pos;
      var most := if count < left then count else left;
      if left == 0 {
        return 0;
      }
      n :| 1 <= n <= most;
      var d, p := data, pos;
      forall i | off <= i < off + n {
        buf[i] := d[p + i - off];
      }
      pos := pos + n;
      assert d[p..][..n] == d[p..p + n] == buf[off..off + n];
      assert d[p..][n..] == d[p + n..];
    }
  }

  lemma TakeFront(a: seq<byte>, b: seq<byte>, n: nat)
    requires n <= |a|
    ensures (a + b)[..n] == a[..n] && (a + b)[n..] == a[n..] + b
  {
  }

  // ------------------------------------------------------------------ the reader

  class DeviceReader {
    const buffer: array<byte>
    const device: Device
    var current: nat
    var marker: nat
    var numberBytesRead: nat
    var numberRecordsRead: nat
    // History: some compaction had overlapping source and destination.
    ghost var overlapped: bool

    /** Once filled, the buffer is full or the device has nothing more. */
    ghost predicate Valid()
      reads this, device
    {
      && buffer.Length == CHUNK_SIZE
      && current <= marker <= CHUNK_SIZE
      && device.Valid()
      && (current == marker || marker == CHUNK_SIZE || device.Remaining() == [])
    }

    /** What has not been handed out yet: the buffered bytes and what is left in the device. */
    ghost function Pending(): (s: seq<byte>)
      requires Valid()
      reads this, device, buffer
      ensures |s| == marker - current + |device.Remaining()|
      ensures forall i :: 0 <= i < marker - current ==> s[i] == buffer[current + i]
    {
      buffer[current..marker] + device.Remaining()
    }

    /** The stream ends in a cut-off record that sits so near the start of the buffer that
        compaction overwrites the place where its tag was, with a byte that reads as a length
        already available. */
    ghost predicate Misread()
      requires Valid()
      reads this, device, buffer
    {
      var s := Pending();
      && device.Remaining() == []
      && HEADER_SIZE <= |s| < Len(s[0])
      && 0 < current < |s|
      && Len(s[current]) <= |s|
    }

    constructor (device: Device)
      requires device.Valid()
      ensures Valid() && fresh(buffer) && this.device == device
      ensures Pending() == device.Remaining()
      ensures numberBytesRead == 0 && numberRecordsRead == 0 && !overlapped
    {
      this.device := device;
      buffer := new byte[CHUNK_SIZE];
      current, marker := 0, 0;
      numberBytesRead, numberRecordsRead := 0, 0;
      overlapped := false;
    }

    /** The copy of the buffered bytes to the front, byte by byte. */
    method Compact()
      requires Valid()
      modifies buffer
      ensures buffer[..marker - current] == old(buffer[current..marker])
      ensures forall i :: marker - current <= i < CHUNK_SIZE ==> buffer[i] == old(buffer[i])
    {
      for i := 0 to marker - current
        invariant forall k :: 0 <= k < i ==> buffer[k] == old(buffer[current + k])
        invariant forall k :: i <= k < CHUNK_SIZE ==> buffer[k] == old(buffer[k])
      {
        buffer[i] := buffer[current + i];
      }
    }

    /** Reads into the buffer from `start` on, until it is full or the device has no more. */
    method Fill(start: nat) returns (newMarker: nat)
      requires buffer.Length == CHUNK_SIZE && start <= CHUNK_SIZE && device.Valid()
      modifies buffer, device
      ensures device.Valid() && start <= newMarker <= CHUNK_SIZE
      ensures newMarker == CHUNK_SIZE || device.Remaining() == []
      ensures buffer[..newMarker] + device.Remaining() == old(buffer[..start] + device.Remaining())
      ensures forall i :: newMarker <= i < CHUNK_SIZE ==> buffer[i] == old(buffer[i])
    {
      newMarker := start;
      while newMarker < CHUNK_SIZE
        invariant start <= newMarker <= CHUNK_SIZE && device.Valid()
        invariant buffer[..newMarker] + device.Remaining() == old(buffer[..start] + device.Remaining())
        invariant forall i :: newMarker <= i < CHUNK_SIZE ==> buffer[i] == old(buffer[i])
      {
        ghost var before, left := buffer[..newMarker], device.Remaining();
        var n := device.Read(buffer, newMarker, CHUNK_SIZE - newMarker);
        if n == 0 {
          assert buffer[..newMarker] == before;
          break;
        }
        assert buffer[..newMarker + n] == before + left[..n];
        assert before + left == before + left[..n] + left[n..];
        newMarker := newMarker + n;
      }
    }

    /** Moves the buffered bytes to the front and reads until the buffer is full or the device has
        no more; bytes beyond the new marker are left as they were. */
    method ReadMoreData()
      requires Valid()
      modifies this`current, this`marker, this`overlapped, buffer, device
      ensures Valid() && Pending() == old(Pending())
      ensures current == 0 && (marker == CHUNK_SIZE || device.Remaining() == [])
      ensures marker >= old(marker - current)
      ensures forall i :: marker <= i < CHUNK_SIZE ==> buffer[i] == old(buffer[i])
      ensures overlapped == (old(overlapped) || (0 < old(marker - current) && old(current) < old(marker - current)))
    {
      var available := marker - current;
      overlapped := overlapped || (0 < available && current < available);
      Compact();
      var newMarker := Fill(available);
      marker := newMarker;
      current := 0;
    }

    /** Makes sure that a record header is in the buffer, if there is one at all. */
    method CheckHeader() returns (enough: bool)
      requires Valid()
      modifies this`current, this`marker, this`overlapped, buffer, device
      ensures Valid() && Pending() == old(Pending())
      ensures enough == (marker - current >= HEADER_SIZE) == (|Pending()| >= HEADER_SIZE)
      ensures Misread() == old(Misread())
      ensures old(marker - current) < HEADER_SIZE ==> current == 0 && (marker == CHUNK_SIZE || device.Remaining() == [])
      ensures Pending() == [] || enough ==> overlapped == old(overlapped)
    {
      if marker - current < HEADER_SIZE {
        ReadMoreData();
      }
      enough := marker - current >= HEADER_SIZE;
    }

    /** Decides whether a record with its header in the buffer is there as a whole, refilling if it
        is not yet. After the refill the length is read where the tag was before it. */
    method CheckLength() returns (enough: bool)
      requires Valid() && marker - current >= HEADER_SIZE
      modifies this`current, this`marker, this`overlapped, buffer, device
      ensures Valid() && Pending() == old(Pending())
      ensures enough == (HasRecord(Pending()) || old(Misread()))
      ensures enough && !old(Misread()) ==> marker - current >= Len(Pending()[0])
      ensures marker - current >= HEADER_SIZE
      ensures old(Misread()) ==> current == 0
      ensures Len(Pending()[0]) <= old(marker - current) ==>
                current == old(current) && marker == old(marker) && device.Remaining() == old(device.Remaining())
      ensures HasRecord(Pending()) ==> overlapped == old(overlapped)
    {
      ghost var s := Pending();
      var tagAt := current;
      assert buffer[tagAt] == s[0];
      if marker - current < Len(buffer[tagAt]) {
        ReadMoreData();
        // The old place now holds a byte of the stream, or what it held before.
        assert tagAt < marker ==> buffer[tagAt] == s[tagAt];
        assert tagAt >= marker ==> buffer[tagAt] == s[0];
      }
      enough := marker - current >= Len(buffer[tagAt]);
    }

    /** Hands out the record at `current` and steps over it. */
    method Consume() returns (record: seq<byte>)
      requires Valid() && marker - current >= HEADER_SIZE
      requires current == 0 || Len(Pending()[0]) <= marker - current
      modifies this`current, this`numberBytesRead, this`numberRecordsRead
      ensures var len := Len(old(Pending())[0]);
              && current == old(current) + len
              && numberBytesRead == old(numberBytesRead) + len
              && numberRecordsRead == old(numberRecordsRead) + 1
              && (len <= marker - old(current) ==>
                    && Valid()
                    && record == old(Pending())[..len]
                    && Pending() == old(Pending())[len..])
    {
      ghost var s := Pending();
      assert buffer[current] == s[0];
      ghost var start := current;
      var len := Len(buffer[current]);
      record := buffer[current..current + len];
      current := current + len;
      numberBytesRead := numberBytesRead + len;
      numberRecordsRead := numberRecordsRead + 1;
      if current <= marker {
        ghost var here := buffer[start..marker];
        TakeFront(here, device.Remaining(), len);
        assert here[..len] == record && here[len..] == buffer[current..marker];
      }
    }

    /** On every stream the next record handed out is the one that plain parsing finds, although
        the second length check reads the tag where it was before the refill moved the data;
        the one exception is Misread, when a cut-off record is handed out as if it were whole. */
    method ReadNextRecord() returns (record: Option<seq<byte>>)
      requires Valid()
      modifies this, buffer, device
      ensures !old(Misread()) ==>
                && Valid()
                && (if HasRecord(old(Pending())) then
                      var len := Len(old(Pending())[0]);
                      && record == Some(old(Pending())[..len])
                      && Pending() == old(Pending())[len..]
                      && numberBytesRead == old(numberBytesRead) + len
                      && numberRecordsRead == old(numberRecordsRead) + 1
                    else
                      && record == None && Pending() == old(Pending())
                      && numberBytesRead == old(numberBytesRead)
                      && numberRecordsRead == old(numberRecordsRead))
      ensures old(Misread()) ==> record.Some? && !HasRecord(old(Pending())) && current > marker
      ensures old(Pending()) == [] || HasRecord(old(Pending())) ==> overlapped == old(overlapped)
      // Where the record lies after a refill that took in all that was left.
      ensures old(marker - current) < HEADER_SIZE && HasRecord(old(Pending())) && |old(Pending())| < CHUNK_SIZE ==>
                current == Len(old(Pending())[0]) && device.Remaining() == []
    {
      var enough := CheckHeader();
      if !enough {
        return None;
      }
      enough := CheckLength();
      if !enough {
        return None;
      }
      var bytes := Consume();
      record := Some(bytes);
    }
  }

  // ------------------------------------------------------------------ whole streams

  /** The complete records of any stream, up to one that is cut off or has no length, and what is left. */
  function Parsed(s: seq<byte>): seq<seq<byte>>
    decreases |s|
  {
    if !HasRecord(s) || Len(s[0]) == 0 then [] else [s[..Len(s[0])]] + Parsed(s[Len(s[0])..])
  }

  function Rest(s: seq<byte>): seq<byte>
    decreases |s|
  {
    if !HasRecord(s) || Len(s[0]) == 0 then s else Rest(s[Len(s[0])..])
  }

  lemma {:induction false} ParsedWellFormed(s: seq<byte>)
    requires WellFormed(s)
    ensures Parsed(s) == Records(s) && Rest(s) == []
    decreases |s|
  {
    if s != [] {
      ParsedWellFormed(s[Len(s[0])..]);
    }
  }

  /** Parsing splits a stream in two. */
  lemma {:induction false} ParsedConcat(s: seq<byte>)
    ensures Concat(Parsed(s)) + Rest(s) == s
    decreases |s|
  {
    if HasRecord(s) && Len(s[0]) > 0 {
      var n := Len(s[0]);
      ParsedConcat(s[n..]);
      assert Parsed(s)[1..] == Parsed(s[n..]);
      Assoc(s[..n], Concat(Parsed(s[n..])), Rest(s[n..]));
    }
  }

  /** A cut-off record with a byte in it that reads as a length already there. */
  ghost predicate Misreadable(s: seq<byte>) {
    HEADER_SIZE <= |s| < Len(s[0]) && exists i :: 0 < i < |s| && Len(s[i]) <= |s|
  }

  lemma ParsedStep(s: seq<byte>, records: seq<seq<byte>>, all: seq<seq<byte>>)
    requires HasRecord(s) && Len(s[0]) > 0 && records + Parsed(s) == all
    ensures (records + [s[..Len(s[0])]]) + Parsed(s[Len(s[0])..]) == all && Rest(s) == Rest(s[Len(s[0])..])
  {
    Assoc(records, [s[..Len(s[0])]], Parsed(s[Len(s[0])..]));
  }

  /** The import loop, on any stream without a record of length zero, however the device cuts it up: it
      sees exactly the complete records in order, and leaves a cut-off rest alone; it counts the
      records and their bytes. The one exception is a misread rest, which is handed out as one record
      more; the loop is followed no further than that. */
  method ReadUntilEnd(reader: DeviceReader) returns (records: seq<seq<byte>>, misread: bool)
    requires reader.Valid() && !HasRecord(Rest(reader.Pending()))
    modifies reader, reader.buffer, reader.device
    ensures var s := old(reader.Pending());
            && (!misread ==>
                  && reader.Valid() && records == Parsed(s) && reader.Pending() == Rest(s)
                  && reader.numberBytesRead == old(reader.numberBytesRead) + |s| - |Rest(s)|
                  && reader.numberRecordsRead == old(reader.numberRecordsRead) + |records|)
            && (misread ==> Misreadable(Rest(s)) && |records| == |Parsed(s)| + 1 && Parsed(s) <= records)
            && (Rest(s) == [] ==> !misread && reader.overlapped == old(reader.overlapped))
  {
    records := [];
    ghost var all, rest := Parsed(reader.Pending()), Rest(reader.Pending());
    ghost var bytes, count, overlap := reader.numberBytesRead + |reader.Pending()|, reader.numberRecordsRead, reader.overlapped;
    while true
      invariant reader.Valid() && Rest(reader.Pending()) == rest
      invariant records + Parsed(reader.Pending()) == all
      invariant reader.numberBytesRead + |reader.Pending()| == bytes
      invariant reader.numberRecordsRead == count + |records|
      invariant rest == [] ==> reader.overlapped == overlap
      decreases |reader.Pending()|
    {
      ghost var s := reader.Pending();
      if HasRecord(s) {
        ParsedStep(s, records, all);
      } else {
        assert Parsed(s) == [] && rest == s;
      }
      var record := reader.ReadNextRecord();
      if record.None? {
        return records, false;
      }
      records := records + [record.value];
      if reader.current > reader.marker {
        return records, true;
      }
    }
  }

  /** On a stream of complete records these are all, and no compaction has source and destination
      overlapping. */
  method ReadAll(reader: DeviceReader) returns (records: seq<seq<byte>>)
    requires reader.Valid() && WellFormed(reader.Pending())
    modifies reader, reader.buffer, reader.device
    ensures records == old(Records(reader.Pending()))
    ensures reader.Valid() && reader.Pending() == []
    ensures reader.numberBytesRead == old(reader.numberBytesRead) + |old(reader.Pending())|
    ensures reader.numberRecordsRead == old(reader.numberRecordsRead) + |records|
    ensures reader.overlapped == old(reader.overlapped)
  {
    ParsedWellFormed(reader.Pending());
    var misread;
    records, misread := ReadUntilEnd(reader);
  }

  /** End to end: a device holding any complete records is read back as those records. */
  method ReadBack(rs: seq<seq<byte>>) returns (records: seq<seq<byte>>)
    requires forall r :: r in rs ==> IsRecord(r)
    ensures records == rs
  {
    RecordsOfConcat(rs);
    var data := Flatten(rs);
    var device := new Device(data);
    var reader := new DeviceReader(device);
    records := ReadAll(reader);
  }

  method Flatten(rs: seq<seq<byte>>) returns (s: seq<byte>)
    ensures s == Concat(rs)
  {
    s := [];
    var i := |rs|;
    while i > 0
      invariant 0 <= i <= |rs| && s == Concat(rs[i..])
    {
      i := i - 1;
      assert rs[i..][1..] == rs[i + 1..];
      s := rs[i] + s;
    }
  }

  function CutOffTrace(): (data: seq<byte>)
    ensures |data| == 56 && Len(data[0]) == 16 && Len(data[16]) == 120 && Len(data[32]) == 0
  {
    seq(56, i => if i == 0 then 2 else if i == 16 then 15 else 0)
  }

  method ReadFirst(data: seq<byte>) returns (reader: DeviceReader, first: Option<seq<byte>>)
    requires HEADER_SIZE <= |data| < CHUNK_SIZE && HEADER_SIZE <= Len(data[0]) <= |data|
    ensures fresh(reader) && fresh(reader.buffer) && fresh(reader.device)
    ensures reader.Valid() && reader.Pending() == data[Len(data[0])..]
    ensures reader.current == Len(data[0]) && reader.device.Remaining() == []
    ensures first == Some(data[..Len(data[0])])
  {
    var device := new Device(data);
    reader := new DeviceReader(device);
    first := reader.ReadNextRecord();
  }

  /** A trace that breaks off in its second record: that record claims 120 bytes and has 40, and is
      handed out all the same. */
  method CutOffRecordIsHandedOut() returns (data: seq<byte>, first: Option<seq<byte>>, second: Option<seq<byte>>)
    ensures |data| == 56 && HasRecord(data) && !HasRecord(data[16..])
    ensures first == Some(data[..16]) && second.Some?
  {
    data := CutOffTrace();
    var reader;
    reader, first := ReadFirst(data);
    assert reader.Pending()[16] == data[32];
    assert reader.Misread();
    second := reader.ReadNextRecord();
  }

  method ReadEmpty(reader: DeviceReader) returns (record: Option<seq<byte>>)
    requires reader.Valid() && |reader.Pending()| >= HEADER_SIZE && Len(reader.Pending()[0]) == 0
    modifies reader, reader.buffer, reader.device
    ensures reader.Valid() && reader.Pending() == old(reader.Pending()) && record == Some([])
  {
    record := reader.ReadNextRecord();
  }

  /** A record whose length field is zero is handed out as an empty one and never stepped over: any
      number of reads gives that many empty records, and leaves the stream as it was. */
  method ReadEmpties(reader: DeviceReader, n: nat) returns (records: seq<seq<byte>>)
    requires reader.Valid() && |reader.Pending()| >= HEADER_SIZE && Len(reader.Pending()[0]) == 0
    modifies reader, reader.buffer, reader.device
    ensures reader.Valid() && reader.Pending() == old(reader.Pending())
    ensures |records| == n && forall r :: r in records ==> r == []
  {
    records := [];
    for i := 0 to n
      invariant reader.Valid() && reader.Pending() == old(reader.Pending())
      invariant |records| == i && forall r :: r in records ==> r == []
    {
      var record := ReadEmpty(reader);
      records := records + [record.value];
    }
  }

  /** Sixteen zero bytes are such a record. */
  method ZeroLengthStays(n: nat) returns (records: seq<seq<byte>>)
    ensures |records| == n && forall r :: r in records ==> r == []
  {
    var data := seq(16, _ => 0 as byte);
    var device := new Device(data);
    var reader := new DeviceReader(device);
    records := ReadEmpties(reader, n);
  }
}
