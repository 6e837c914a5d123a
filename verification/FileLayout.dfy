/** Pieces laid out across contiguous files: `seg_write` cuts a piece along the
    file boundaries, `seg_readbuf` puts any part of one together again. */
module FileLayout {
  import opened Pieces

  /** Files are named by their index in the torrent. */
  datatype BtFile = BtFile(start: nat, len: nat)

  datatype OnDisk = Missing | Present(content: seq<bv8>)

  datatype ReadResult = Data(bytes: seq<bv8>) | Failed | Died

  // ------------------------------------------------------------------- one file

  function Zeros(n: nat): seq<bv8> {
    seq(n, _ => 0)
  }

  /** `lseek` and `write`: a gap is filled with zeros. */
  function Put(content: seq<bv8>, pos: nat, data: seq<bv8>): (r: seq<bv8>)
    ensures data != [] ==> |r| >= pos + |data|
    ensures |r| >= |content|
  {
    if data == [] then content
    else
      var longer := if pos > |content| then content + Zeros(pos - |content|) else content;
      longer[..pos] + data + if pos + |data| <= |longer| then longer[pos + |data|..] else []
  }

  /** `lseek` and `read`. */
  function Get(content: seq<bv8>, pos: nat, len: nat): (r: seq<bv8>)
    ensures |r| <= len
    ensures pos + len <= |content| ==> r == content[pos..pos + len]
  {
    if pos >= |content| then []
    else if pos + len <= |content| then content[pos..pos + len]
    else content[pos..]
  }

  /** Whether a file is opened for the bytes `addr` up to `addr + len`; a file
      that only ends at `addr` is. */
  predicate Touches(f: BtFile, addr: nat, len: nat) {
    f.start + f.len >= addr && f.start < addr + len
  }

  /** The part of the bytes that falls into a file: where it starts there, where
      it starts among the bytes, and its length. */
  function Cut(f: BtFile, addr: nat, len: nat): (c: (nat, nat, nat))
    requires Touches(f, addr, len)
    ensures c.1 + c.2 <= len && c.0 + c.2 <= f.len && c.2 <= len
    ensures f.start + c.0 == addr + c.1
    ensures c.0 == 0 || c.1 == 0
    ensures c.2 == f.len - c.0 || c.2 == len - c.1
  {
    var fpos := if f.start < addr then addr - f.start else 0;
    var beg := if f.start < addr then 0 else f.start - addr;
    var n := if f.len - fpos < len - beg then f.len - fpos else len - beg;
    (fpos, beg, n)
  }

  /** A byte of the file is in the cut if and only if it is one of the bytes. */
  lemma InCut(f: BtFile, addr: nat, len: nat, k: nat)
    requires Touches(f, addr, len) && k < f.len
    ensures var (fpos, beg, n) := Cut(f, addr, len);
            && (fpos <= k < fpos + n <==> addr <= f.start + k < addr + len)
            && f.start + k - addr == beg + (k - fpos)
  {
  }

  function WriteFile(f: BtFile, d: OnDisk, addr: nat, data: seq<bv8>): OnDisk {
    if !Touches(f, addr, |data|) then d
    else
      var (fpos, beg, n) := Cut(f, addr, |data|);
      Present(Put(if d.Present? then d.content else [], fpos, data[beg..beg + n]))
  }

  lemma WriteFileIs(f: BtFile, d: OnDisk, addr: nat, data: seq<bv8>)
    ensures !Touches(f, addr, |data|) ==> WriteFile(f, d, addr, data) == d
    ensures Touches(f, addr, |data|) ==>
              var (fpos, beg, n) := Cut(f, addr, |data|);
              WriteFile(f, d, addr, data) == Present(Put(if d.Present? then d.content else [], fpos, data[beg..beg + n]))
  {
    hide Cut, Put;
  }

  // ------------------------------------------------------------------- all files

  function Written(files: seq<BtFile>, disk: seq<OnDisk>, addr: nat, data: seq<bv8>): (r: seq<OnDisk>)
    requires |disk| == |files|
    ensures |r| == |disk|
  {
    seq(|files|, i requires 0 <= i < |files| => WriteFile(files[i], disk[i], addr, data))
  }

  function Splice(buf: seq<bv8>, at: nat, data: seq<bv8>): (r: seq<bv8>)
    requires at + |data| <= |buf|
    ensures |r| == |buf|
    ensures forall k :: 0 <= k < |buf| ==> r[k] == if at <= k < at + |data| then data[k - at] else buf[k]
  {
    buf[..at] + data + buf[at + |data|..]
  }

  /** What is in the buffer after `n` files, starting from `buf`. */
  function ReadFiles(files: seq<BtFile>, disk: seq<OnDisk>, addr: nat, buf: seq<bv8>, blocksize: nat,
        n: nat): (r: ReadResult)
    requires |disk| == |files| && n <= |files|
    ensures r.Data? ==> |r.bytes| == |buf|
  {
    if n == 0 then Data(buf)
    else
      var before := ReadFiles(files, disk, addr, buf, blocksize, n - 1);
      var f, d := files[n - 1], disk[n - 1];
      if before.Data? && Touches(f, addr, |buf|) then
        if d.Missing? then Failed
        else
          var (fpos, beg, len) := Cut(f, addr, |buf|);
          if len > blocksize then Died
          else
            var bytes := Get(d.content, fpos, len);
            if |bytes| != len then Failed else Data(Splice(before.bytes, beg, bytes))
      else before
  }

  function ReadBuf(t: Torrent, files: seq<BtFile>, disk: seq<OnDisk>, completed: set<nat>, piece: nat,
        start: nat, len: nat): ReadResult
    requires |disk| == |files|
  {
    if piece !in completed then Failed
    else ReadFiles(files, disk, piece * t.blocksize + start, Zeros(len), t.blocksize, |files|)
  }

  // -------------------------------------------------------------------- the layout

  /** Files follow one another without gaps from byte 0. */
  ghost predicate Contiguous(files: seq<BtFile>) {
    && (files != [] ==> files[0].start == 0)
    && (forall i :: 0 < i < |files| ==> files[i].start == files[i - 1].start + files[i - 1].len)
  }

  function Size(files: seq<BtFile>): nat {
    if files == [] then 0 else files[|files| - 1].start + files[|files| - 1].len
  }

  /** `btFileSet_addfile`. */
  function AddFile(files: seq<BtFile>, len: nat): (r: seq<BtFile>)
    ensures Contiguous(files) ==> Contiguous(r)
    ensures Size(r) == Size(files) + len
  {
    files + [BtFile(Size(files), len)]
  }

  lemma {:induction false} SomeFile(files: seq<BtFile>, g: nat) returns (i: nat)
    requires Contiguous(files) && g < Size(files)
    ensures i < |files| && files[i].start <= g < files[i].start + files[i].len
  {
    var last := |files| - 1;
    if files[last].start <= g {
      i := last;
    } else {
      i := SomeFile(files[..last], g);
    }
  }

  // ------------------------------------------------------------------ round trips

  /** Byte `k` of a file, if it is one of `data`, is there and has its value. */
  ghost predicate HasByte(f: BtFile, d: OnDisk, addr: nat, data: seq<bv8>, k: nat) {
    k < f.len && addr <= f.start + k < addr + |data| ==>
      d.Present? && k < |d.content| && d.content[k] == data[f.start + k - addr]
  }

  /** A file holds its part of `data`, and exists if it would be opened for it. */
  ghost predicate Holds(f: BtFile, d: OnDisk, addr: nat, data: seq<bv8>) {
    && (Touches(f, addr, |data|) ==> d.Present?)
    && forall k: nat :: HasByte(f, d, addr, data, k)
  }

  /** The files hold `data` from byte `addr` of the torrent on. */
  ghost predicate Stores(files: seq<BtFile>, disk: seq<OnDisk>, addr: nat, data: seq<bv8>) {
    |disk| == |files| && forall i :: 0 <= i < |files| ==> Holds(files[i], disk[i], addr, data)
  }

  lemma WriteFileHolds(f: BtFile, d: OnDisk, addr: nat, data: seq<bv8>)
    ensures Holds(f, WriteFile(f, d, addr, data), addr, data)
  {
    var r := WriteFile(f, d, addr, data);
    forall k: nat {:trigger HasByte(f, r, addr, data, k)}
      ensures HasByte(f, r, addr, data, k)
    {
      if k < f.len && addr <= f.start + k < addr + |data| {
        WriteFileByte(f, d, addr, data, k);
      }
    }
  }

  lemma WriteFileByte(f: BtFile, d: OnDisk, addr: nat, data: seq<bv8>, k: nat)
    requires k < f.len && addr <= f.start + k < addr + |data|
    ensures var r := WriteFile(f, d, addr, data);
            r.Present? && k < |r.content| && r.content[k] == data[f.start + k - addr]
  {
    assert Touches(f, addr, |data|);
    InCut(f, addr, |data|, k);
    var (fpos, beg, n) := Cut(f, addr, |data|);
    hide Cut, Put;
    var part := data[beg..beg + n];
    PutThere(if d.Present? then d.content else [], fpos, part, k);
    assert part[k - fpos] == data[beg + (k - fpos)];
  }

  lemma PutThere(content: seq<bv8>, pos: nat, data: seq<bv8>, k: nat)
    requires pos <= k < pos + |data|
    ensures var r := Put(content, pos, data);
            k < |r| && r[k] == data[k - pos]
  {
  }

  /** Writing cuts the piece exactly: every byte of it lands in its file. */
  lemma WriteStores(files: seq<BtFile>, disk: seq<OnDisk>, addr: nat, data: seq<bv8>)
    requires |disk| == |files|
    ensures Stores(files, Written(files, disk, addr, data), addr, data)
  {
    hide Holds, WriteFile;
    forall i | 0 <= i < |files|
      ensures Holds(files[i], WriteFile(files[i], disk[i], addr, data), addr, data)
    {
      WriteFileHolds(files[i], disk[i], addr, data);
    }
  }

  lemma WriteFileElsewhere(f: BtFile, d: OnDisk, addr: nat, data: seq<bv8>, at: nat, other: seq<bv8>)
    requires Holds(f, d, addr, data)
    requires addr + |data| <= at || at + |other| <= addr
    ensures Holds(f, WriteFile(f, d, at, other), addr, data)
  {
    var r := WriteFile(f, d, at, other);
    WriteFileIs(f, d, at, other);
    hide WriteFile, Cut, Put;
    forall k: nat {:trigger HasByte(f, r, addr, data, k)}
      ensures HasByte(f, r, addr, data, k)
    {
      assert HasByte(f, d, addr, data, k);
      if Touches(f, at, |other|) && k < f.len {
        InCut(f, at, |other|, k);
        var (fpos, beg, n) := Cut(f, at, |other|);
        PutElsewhere(if d.Present? then d.content else [], fpos, other[beg..beg + n], k);
      }
    }
  }

  lemma PutElsewhere(content: seq<bv8>, pos: nat, data: seq<bv8>, k: nat)
    ensures var r := Put(content, pos, data);
            k < |content| && !(pos <= k < pos + |data|) ==> k < |r| && r[k] == content[k]
  {
  }

  /** Writing elsewhere disturbs nothing. */
  lemma WriteElsewhere(files: seq<BtFile>, disk: seq<OnDisk>, addr: nat, data: seq<bv8>, at: nat, other: seq<bv8>)
    requires Stores(files, disk, addr, data)
    requires addr + |data| <= at || at + |other| <= addr
    ensures Stores(files, Written(files, disk, at, other), addr, data)
  {
    hide Holds, WriteFile;
    forall i | 0 <= i < |files|
      ensures Holds(files[i], WriteFile(files[i], disk[i], at, other), addr, data)
    {
      WriteFileElsewhere(files[i], disk[i], addr, data, at, other);
    }
  }

  lemma PartStored(files: seq<BtFile>, disk: seq<OnDisk>, addr: nat, data: seq<bv8>, start: nat, len: nat)
    requires Stores(files, disk, addr, data) && start + len <= |data|
    ensures Stores(files, disk, addr + start, data[start..start + len])
  {
    var part := data[start..start + len];
    forall i | 0 <= i < |files|
      ensures Holds(files[i], disk[i], addr + start, part)
    {
      assert Holds(files[i], disk[i], addr, data);
      forall k: nat {:trigger HasByte(files[i], disk[i], addr + start, part, k)}
        ensures HasByte(files[i], disk[i], addr + start, part, k)
      {
        assert HasByte(files[i], disk[i], addr, data, k);
      }
    }
  }

  /** Byte `j` is right if it comes from one of the first `n` files. */
  ghost predicate Right(files: seq<BtFile>, addr: nat, data: seq<bv8>, n: nat, buf: seq<bv8>, i: nat, j: nat)
    requires n <= |files| && |buf| == |data|
  {
    i < n && j < |data| && files[i].start <= addr + j < files[i].start + files[i].len ==> buf[j] == data[j]
  }

  ghost predicate ReadSoFar(files: seq<BtFile>, addr: nat, data: seq<bv8>, n: nat, buf: seq<bv8>)
    requires n <= |files|
  {
    |buf| == |data| && forall i, j :: Right(files, addr, data, n, buf, i, j)
  }

  lemma FileBytes(f: BtFile, d: OnDisk, addr: nat, data: seq<bv8>)
    requires Holds(f, d, addr, data) && Touches(f, addr, |data|)
    ensures var (fpos, beg, len) := Cut(f, addr, |data|);
            d.Present? && Get(d.content, fpos, len) == data[beg..beg + len]
  {
    var (fpos, beg, len) := Cut(f, addr, |data|);
    if len > 0 {
      InCut(f, addr, |data|, fpos + len - 1);
      assert HasByte(f, d, addr, data, fpos + len - 1);
      var part := d.content[fpos..fpos + len];
      forall k | 0 <= k < len
        ensures part[k] == data[beg..beg + len][k]
      {
        InCut(f, addr, |data|, fpos + k);
        assert HasByte(f, d, addr, data, fpos + k);
      }
      assert part == data[beg..beg + len];
    }
  }

  lemma SpliceRight(files: seq<BtFile>, addr: nat, data: seq<bv8>, n: nat, before: seq<bv8>, beg: nat, len: nat)
    requires n < |files| && ReadSoFar(files, addr, data, n, before) && Touches(files[n], addr, |data|)
    requires beg == Cut(files[n], addr, |data|).1 && len == Cut(files[n], addr, |data|).2
    ensures ReadSoFar(files, addr, data, n + 1, Splice(before, beg, data[beg..beg + len]))
  {
    var fpos := Cut(files[n], addr, |data|).0;
    hide Cut, Splice;
    var buf := Splice(before, beg, data[beg..beg + len]);
    forall i: nat, j: nat {:trigger Right(files, addr, data, n + 1, buf, i, j)}
      ensures Right(files, addr, data, n + 1, buf, i, j)
    {
      assert Right(files, addr, data, n, before, i, j);
      if i == n && j < |data| && files[n].start <= addr + j < files[n].start + files[n].len {
        InCut(files[n], addr, |data|, addr + j - files[n].start);
      }
    }
  }

  lemma Untouched(files: seq<BtFile>, addr: nat, data: seq<bv8>, n: nat, buf: seq<bv8>)
    requires n < |files| && ReadSoFar(files, addr, data, n, buf) && !Touches(files[n], addr, |data|)
    ensures ReadSoFar(files, addr, data, n + 1, buf)
  {
    forall i: nat, j: nat {:trigger Right(files, addr, data, n + 1, buf, i, j)}
      ensures Right(files, addr, data, n + 1, buf, i, j)
    {
      assert Right(files, addr, data, n, buf, i, j);
    }
  }

  lemma {:induction false} ReadFilesRight(files: seq<BtFile>, disk: seq<OnDisk>, addr: nat, data: seq<bv8>,
        buf: seq<bv8>,
                                          blocksize: nat, n: nat)
    requires Stores(files, disk, addr, data) && |buf| == |data| <= blocksize && n <= |files|
    ensures var r := ReadFiles(files, disk, addr, buf, blocksize, n);
            r.Data? && ReadSoFar(files, addr, data, n, r.bytes)
  {
    if n > 0 {
      ReadFilesRight(files, disk, addr, data, buf, blocksize, n - 1);
      var f := files[n - 1];
      var before := ReadFiles(files, disk, addr, buf, blocksize, n - 1).bytes;
      assert Holds(f, disk[n - 1], addr, data);
      hide ReadSoFar, Holds, Cut, Splice, Get, Touches;
      if Touches(f, addr, |data|) {
        FileBytes(f, disk[n - 1], addr, data);
        var (fpos, beg, len) := Cut(f, addr, |data|);
        SpliceRight(files, addr, data, n - 1, before, beg, len);
      } else {
        Untouched(files, addr, data, n - 1, before);
      }
    }
  }

  /** Reading bytes that the files hold gives them back. */
  lemma ReadsStored(files: seq<BtFile>, disk: seq<OnDisk>, addr: nat, data: seq<bv8>, blocksize: nat)
    requires Contiguous(files) && Stores(files, disk, addr, data)
    requires |data| <= blocksize && addr + |data| <= Size(files)
    ensures ReadFiles(files, disk, addr, Zeros(|data|), blocksize, |files|) == Data(data)
  {
    ReadFilesRight(files, disk, addr, data, Zeros(|data|), blocksize, |files|);
    hide Stores, ReadFiles;
    var bytes := ReadFiles(files, disk, addr, Zeros(|data|), blocksize, |files|).bytes;
    forall j | 0 <= j < |data|
      ensures bytes[j] == data[j]
    {
      var i := SomeFile(files, addr + j);
      assert Right(files, addr, data, |files|, bytes, i, j);
    }
    assert bytes == data;
  }

  /** A completed piece and its bytes. */
  datatype Write = Write(piece: nat, data: seq<bv8>)

  function WriteAll(t: Torrent, files: seq<BtFile>, disk: seq<OnDisk>, writes: seq<Write>): (r: seq<OnDisk>)
    requires |disk| == |files|
    ensures |r| == |files|
  {
    if writes == [] then disk
    else
      var last := writes[|writes| - 1];
      Written(files, WriteAll(t, files, disk, writes[..|writes| - 1]), last.piece * t.blocksize, last.data)
  }

  ghost predicate WholePieces(t: Torrent, writes: seq<Write>) {
    forall j :: 0 <= j < |writes| ==> writes[j].piece < t.npieces && |writes[j].data| == PieceLen(t, writes[j].piece)
  }

  lemma {:induction false} StillStored(t: Torrent, files: seq<BtFile>, disk: seq<OnDisk>, writes: seq<Write>, k: nat)
    requires Consistent(t) && |disk| == |files| && WholePieces(t, writes) && k < |writes|
    requires forall j :: k < j < |writes| ==> writes[j].piece != writes[k].piece
    ensures Stores(files, WriteAll(t, files, disk, writes), writes[k].piece * t.blocksize, writes[k].data)
  {
    hide Stores, Written, PieceLen;
    var init, last := writes[..|writes| - 1], writes[|writes| - 1];
    var before := WriteAll(t, files, disk, init);
    if k == |writes| - 1 {
      WriteStores(files, before, last.piece * t.blocksize, last.data);
    } else {
      StillStored(t, files, disk, init, k);
      PiecesApart(t, writes[k].piece, last.piece);
      var here, there := writes[k].piece * t.blocksize, last.piece * t.blocksize;
      hide Consistent, WriteAll;
      WriteElsewhere(files, before, here, writes[k].data, there, last.data);
    }
  }

  /** Whatever is written in whatever order, reading any part of a completed
      piece returns exactly the bytes last written for it. */
  lemma {:induction false} PieceRoundTrip(t: Torrent, files: seq<BtFile>, disk: seq<OnDisk>,
        writes: seq<Write>, completed: set<nat>,
                       k: nat, start: nat, len: nat)
    requires Consistent(t) && Contiguous(files) && Size(files) == t.tsize && |disk| == |files|
    requires WholePieces(t, writes) && k < |writes|
    requires forall j :: k < j < |writes| ==> writes[j].piece != writes[k].piece
    requires writes[k].piece in completed && start + len <= |writes[k].data|
    ensures ReadBuf(t, files, WriteAll(t, files, disk, writes), completed, writes[k].piece, start, len)
         == Data(writes[k].data[start..start + len])
  {
    hide Stores, ReadFiles, WriteAll;
    var piece, data := writes[k].piece, writes[k].data;
    var addr := piece * t.blocksize;
    var after := WriteAll(t, files, disk, writes);
    StillStored(t, files, disk, writes, k);
    PartStored(files, after, addr, data, start, len);
    PieceFits(t, piece);
    ReadsStored(files, after, addr + start, data[start..start + len], t.blocksize);
  }

  // ------------------------------------------------------------------- the class

  class FileSet {
    const torrent: Torrent
    const files: seq<BtFile>
    var disk: seq<OnDisk>
    var completed: set<nat>

    ghost predicate Valid()
      reads this
    {
      Consistent(torrent) && Contiguous(files) && Size(files) == torrent.tsize && |disk| == |files|
    }

    constructor (torrent: Torrent, files: seq<BtFile>, disk: seq<OnDisk>)
      requires Consistent(torrent) && Contiguous(files) && Size(files) == torrent.tsize && |disk| == |files|
      ensures Valid() && this.torrent == torrent && this.files == files && this.disk == disk && completed == {}
    {
      this.torrent, this.files, this.disk, completed := torrent, files, disk, {};
    }

    /** Writes a piece; no part is longer than a piece. */
    method SegWrite(piece: nat, buffer: seq<bv8>)
      requires Valid() && piece < torrent.npieces && |buffer| == PieceLen(torrent, piece)
      modifies this
      ensures Valid() && completed == old(completed) + {piece}
      ensures disk == Written(files, old(disk), piece * torrent.blocksize, buffer)
    {
      hide Cut, Put, Get, Contiguous, Size, WriteFile;
      PieceFits(torrent, piece);
      var addr := piece * torrent.blocksize;
      var ifile := 0;
      ghost var was := disk;
      while ifile < |files|
        invariant ifile <= |files| == |disk| && |was| == |disk|
        invariant completed == old(completed)
        invariant forall i :: 0 <= i < ifile ==> disk[i] == WriteFile(files[i], was[i], addr, buffer)
        invariant forall i :: ifile <= i < |files| ==> disk[i] == was[i]
      {
        var f := files[ifile];
        WriteFileIs(f, disk[ifile], addr, buffer);
        if f.start + f.len >= addr && f.start < addr + |buffer| {
          var (fpos, beg, len) := Cut(f, addr, |buffer|);
          assert len <= torrent.blocksize;
          var content := if disk[ifile].Present? then disk[ifile].content else [];
          disk := disk[ifile := Present(Put(content, fpos, buffer[beg..beg + len]))];
        }
        ifile := ifile + 1;
      }
      completed := completed + {piece};
      assert disk == Written(files, was, addr, buffer);
    }

    method SegReadbuf(piece: nat, start: nat, len: nat) returns (r: ReadResult)
      requires Valid()
      ensures r == ReadBuf(torrent, files, disk, completed, piece, start, len)
    {
      hide Cut, Get, Splice;
      var addr := piece * torrent.blocksize + start;
      if piece !in completed {
        return Failed;
      }
      var buf := Zeros(len);
      for ifile := 0 to |files|
        invariant |buf| == len
        invariant Data(buf) == ReadFiles(files, disk, addr, Zeros(len), torrent.blocksize, ifile)
      {
        var f := files[ifile];
        if Touches(f, addr, len) {
          if disk[ifile].Missing? {
            StaysBad(files, disk, addr, Zeros(len), torrent.blocksize, ifile + 1, |files|);
            return Failed;
          }
          var (fpos, beg, rlen) := Cut(f, addr, len);
          if rlen > torrent.blocksize {
            StaysBad(files, disk, addr, Zeros(len), torrent.blocksize, ifile + 1, |files|);
            return Died;
          }
          var bytes := Get(disk[ifile].content, fpos, rlen);
          if |bytes| != rlen {
            StaysBad(files, disk, addr, Zeros(len), torrent.blocksize, ifile + 1, |files|);
            return Failed;
          }
          buf := Splice(buf, beg, bytes);
        }
      }
      r := Data(buf);
    }

    /** Checks a piece on disk: 1 when its hash is right, 0 when it is wrong and
        -1 when it cannot be read.  Only a right piece is left marked. */
    method SegReview(piece: nat, hashed: (nat, seq<bv8>) -> bool) returns (rs: int)
      requires Valid() && piece < torrent.npieces
      modifies this`completed
      ensures completed == if rs == 1 then old(completed) + {piece} else old(completed) - {piece}
      ensures var r := ReadBuf(torrent, files, disk, {piece}, piece, 0, PieceLen(torrent, piece));
              rs == if !r.Data? then -1 else if hashed(piece, r.bytes) then 1 else 0
    {
      hide ReadFiles;
      completed := completed + {piece};
      rs := 0;
      var r := SegReadbuf(piece, 0, PieceLen(torrent, piece));
      if !r.Data? {
        rs := -1;
      } else if hashed(piece, r.bytes) {
        rs := 1;
      }
      if rs != 1 {
        completed := completed - {piece};
      }
    }
  }

  lemma {:induction false} StaysBad(files: seq<BtFile>, disk: seq<OnDisk>, addr: nat, buf: seq<bv8>,
        blocksize: nat, n: nat, m: nat)
    requires |disk| == |files| && n <= m <= |files| && !ReadFiles(files, disk, addr, buf, blocksize, n).Data?
    ensures ReadFiles(files, disk, addr, buf, blocksize, m) == ReadFiles(files, disk, addr, buf, blocksize, n)
  {
    if n < m {
      StaysBad(files, disk, addr, buf, blocksize, n, m - 1);
    }
  }
}
