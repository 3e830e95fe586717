/** The walk over the local headers of a store-method zip archive (artifact_runtime.rs). Field widths and offsets
    are those of section 4.3.7 of the PKWARE ZIP APPNOTE. */
module Zip {
  import opened Text

  type Byte = b: int | 0 <= b < 256
  type Bytes = seq<Byte>

  datatype ZipError = UnsupportedLocalHeader | UnsupportedMethod | EntryExceedsArchive | HeaderTruncated | NoEntries

  const LOCAL_HEADER: Bytes := [0x50, 0x4b, 0x03, 0x04]
  const CENTRAL_DIRECTORY: Bytes := [0x50, 0x4b, 0x01, 0x02]
  const END_OF_DIRECTORY: Bytes := [0x50, 0x4b, 0x05, 0x06]
  const FIXED := 30

  // ---- Little-endian numbers ----

  function U16(b: Bytes): nat
    requires |b| == 2
  {
    (b[0] as int) + 0x100 * (b[1] as int)
  }

  function U32(b: Bytes): nat
    requires |b| == 4
  {
    U16(b[..2]) + 0x1_0000 * U16(b[2..])
  }

  function Le16(n: nat): (b: Bytes)
    requires n < 0x1_0000
    ensures |b| == 2 && U16(b) == n
  {
    [n % 0x100, n / 0x100]
  }

  function Le32(n: nat): (b: Bytes)
    requires n < 0x1_0000_0000
    ensures |b| == 4 && U32(b) == n
  {
    var low, high := Le16(n % 0x1_0000), Le16(n / 0x1_0000);
    assert (low + high)[..2] == low && (low + high)[2..] == high;
    low + high
  }

  lemma Le16Unique(b: Bytes)
    requires |b| == 2
    ensures U16(b) < 0x1_0000 && Le16(U16(b)) == b
  {
  }

  lemma Le32Unique(b: Bytes)
    requires |b| == 4
    ensures U32(b) < 0x1_0000_0000 && Le32(U32(b)) == b
  {
    Le16Unique(b[..2]);
    Le16Unique(b[2..]);
    var n := U32(b);
    assert n % 0x1_0000 == U16(b[..2]) && n / 0x1_0000 == U16(b[2..]);
    assert b == b[..2] + b[2..];
  }

  // ---- The format ----

  /** A stored entry: the opaque header fields, then name, extra field and data. */
  datatype Entry = Entry(versionAndFlags: Bytes, stampAndCrc: Bytes, plainSize: Bytes, name: Bytes, extra: Bytes,
      data: Bytes)

  predicate Valid(e: Entry) {
    && |e.versionAndFlags| == 4 && |e.stampAndCrc| == 8 && |e.plainSize| == 4
    && |e.name| < 0x1_0000 && |e.extra| < 0x1_0000 && |e.data| < 0x1_0000_0000
  }

  function Concat(parts: seq<Bytes>): Bytes {
    if parts == [] then [] else parts[0] + Concat(parts[1..])
  }

  function Head(e: Entry): Bytes { Concat([LOCAL_HEADER, e.versionAndFlags, [0, 0], e.stampAndCrc]) }

  function Sizes(e: Entry): Bytes
    requires Valid(e)
  {
    Concat([Le32(|e.data|), e.plainSize, Le16(|e.name|), Le16(|e.extra|)])
  }

  function Body(e: Entry): Bytes { Concat([e.name, e.extra, e.data]) }

  /** The bytes of an entry: the fields up to the checksum, the four sizes, then name, extra field and data. */
  function Layout(e: Entry): Bytes
    requires Valid(e)
  {
    Concat([Head(e), Sizes(e), Body(e)])
  }

  predicate AllValid(entries: seq<Entry>) {
    entries == [] || (Valid(entries[0]) && AllValid(entries[1..]))
  }

  function LayoutAll(entries: seq<Entry>): Bytes
    requires AllValid(entries)
  {
    if entries == [] then [] else Layout(entries[0]) + LayoutAll(entries[1..])
  }

  /** What may follow the entries: a directory record, or fewer bytes than a signature. */
  predicate TailOk(tail: Bytes) {
    |tail| < 4 || tail[..4] == CENTRAL_DIRECTORY || tail[..4] == END_OF_DIRECTORY
  }

  /** The archive is n store-method entries followed by a directory record. */
  ghost predicate IsStoreZip(bytes: Bytes, n: nat) {
    exists entries: seq<Entry>, tail: Bytes ::
      |entries| == n > 0 && AllValid(entries) && TailOk(tail) && bytes == LayoutAll(entries) + tail
  }

  // ---- The walker ----

  function ReadU16Le(bytes: Bytes, offset: nat): (r: Result<nat, ZipError>)
    ensures r.Ok? <==> offset + 2 <= |bytes|
  {
    if offset + 2 > |bytes| then Err(HeaderTruncated) else Ok(U16(bytes[offset..offset + 2]))
  }

  function ReadU32Le(bytes: Bytes, offset: nat): (r: Result<nat, ZipError>)
    ensures r.Ok? <==> offset + 4 <= |bytes|
  {
    if offset + 4 > |bytes| then Err(HeaderTruncated) else Ok(U32(bytes[offset..offset + 4]))
  }

  /** The end of the entry at offset, after its header has been checked. */
  function EntryEnd(bytes: Bytes, offset: nat): (r: Result<nat, ZipError>)
    ensures r.Ok? ==> offset + FIXED <= r.value <= |bytes|
  {
    match ReadU16Le(bytes, offset + 8)
    case Err(e) => Err(e)
    case Ok(compression) =>
      if compression != 0 then Err(UnsupportedMethod)
      else
        match ReadU32Le(bytes, offset + 18)
        case Err(e) => Err(e)
        case Ok(size) =>
          match ReadU16Le(bytes, offset + 26)
          case Err(e) => Err(e)
          case Ok(nameLength) =>
            match ReadU16Le(bytes, offset + 28)
            case Err(e) => Err(e)
            case Ok(extraLength) =>
              var end := offset + 30 + nameLength + extraLength + size;
              if end > |bytes| then Err(EntryExceedsArchive) else Ok(end)
  }

  const CENTRAL_SIGNATURE := 0x0201_4b50
  const END_SIGNATURE := 0x0605_4b50
  const LOCAL_SIGNATURE := 0x0403_4b50

  function Walk(bytes: Bytes, offset: nat, count: nat): Result<nat, ZipError>
    requires offset <= |bytes|
    decreases |bytes| - offset
  {
    if offset + 4 > |bytes| then Counted(count)
    else
      var signature := U32(bytes[offset..offset + 4]);
      if signature == CENTRAL_SIGNATURE || signature == END_SIGNATURE then Counted(count)
      else if signature != LOCAL_SIGNATURE then Err(UnsupportedLocalHeader)
      else
        match EntryEnd(bytes, offset)
        case Err(e) => Err(e)
        case Ok(end) => Walk(bytes, end, count + 1)
  }

  function Counted(count: nat): Result<nat, ZipError> {
    if count == 0 then Err(NoEntries) else Ok(count)
  }

  method VerifyStoreZip(bytes: Bytes) returns (r: Result<nat, ZipError>)
    ensures r == Walk(bytes, 0, 0)
  {
    var offset, count := 0, 0;
    while offset + 4 <= |bytes|
      invariant 0 <= offset <= |bytes| && count >= 0
      invariant Walk(bytes, 0, 0) == Walk(bytes, offset, count)
      decreases |bytes| - offset
    {
      var signature := ReadU32Le(bytes, offset).value;
      if signature == CENTRAL_SIGNATURE || signature == END_SIGNATURE { break; }
      if signature != LOCAL_SIGNATURE { return Err(UnsupportedLocalHeader); }
      match EntryEnd(bytes, offset) {
        case Err(e) => return Err(e);
        case Ok(end) =>
          count := count + 1;
          offset := end;
      }
    }
    if count == 0 { return Err(NoEntries); }
    return Ok(count);
  }

  // ---- The walker accepts exactly the format ----

  lemma Signatures(b: Bytes)
    requires |b| == 4
    ensures U32(b) == LOCAL_SIGNATURE <==> b == LOCAL_HEADER
    ensures U32(b) == CENTRAL_SIGNATURE <==> b == CENTRAL_DIRECTORY
    ensures U32(b) == END_SIGNATURE <==> b == END_OF_DIRECTORY
  {
    Le32Unique(b);
    Le32Unique(LOCAL_HEADER);
    Le32Unique(CENTRAL_DIRECTORY);
    Le32Unique(END_OF_DIRECTORY);
  }

  /** The fields of an entry, each at its offset. */
  predicate EntryAt(bytes: Bytes, o: nat, e: Entry) {
    var n := o + FIXED + |e.name|;
    var x := n + |e.extra|;
    && Valid(e) && x + |e.data| <= |bytes|
    && bytes[o..o + 4] == LOCAL_HEADER
    && bytes[o + 4..o + 8] == e.versionAndFlags
    && bytes[o + 8..o + 10] == [0, 0]
    && bytes[o + 10..o + 18] == e.stampAndCrc
    && bytes[o + 18..o + 22] == Le32(|e.data|)
    && bytes[o + 22..o + 26] == e.plainSize
    && bytes[o + 26..o + 28] == Le16(|e.name|)
    && bytes[o + 28..o + 30] == Le16(|e.extra|)
    && bytes[o + 30..n] == e.name && bytes[n..x] == e.extra && bytes[x..x + |e.data|] == e.data
  }

  function Size(e: Entry): nat { FIXED + |e.name| + |e.extra| + |e.data| }

  lemma Glue(bytes: Bytes, i: nat, j: nat, k: nat)
    requires i <= j <= k <= |bytes|
    ensures bytes[i..k] == bytes[i..j] + bytes[j..k]
  {
  }

  lemma HeadSlice(bytes: Bytes, o: nat, e: Entry)
    requires EntryAt(bytes, o, e)
    ensures bytes[o..o + 18] == Head(e)
  {
    HeadIs(e);
    Glue(bytes, o, o + 4, o + 8);
    Glue(bytes, o, o + 8, o + 10);
    Glue(bytes, o, o + 10, o + 18);
  }

  lemma SizesSlice(bytes: Bytes, o: nat, e: Entry)
    requires EntryAt(bytes, o, e)
    ensures bytes[o + 18..o + 30] == Sizes(e)
  {
    Concat4(Le32(|e.data|), e.plainSize, Le16(|e.name|), Le16(|e.extra|));
    Glue(bytes, o + 18, o + 22, o + 26);
    Glue(bytes, o + 18, o + 26, o + 28);
    Glue(bytes, o + 18, o + 28, o + 30);
  }

  lemma BodySlice(bytes: Bytes, o: nat, e: Entry)
    requires EntryAt(bytes, o, e)
    ensures bytes[o + 30..o + Size(e)] == Body(e)
  {
    Concat3(e.name, e.extra, e.data);
    var n := o + 30 + |e.name|;
    Glue(bytes, o + 30, n, n + |e.extra|);
    Glue(bytes, o + 30, n + |e.extra|, o + Size(e));
  }

  /** Bytes with the fields of an entry at their offsets are its layout. */
  lemma EntryAtIsLayout(bytes: Bytes, o: nat, e: Entry)
    requires EntryAt(bytes, o, e)
    ensures bytes[o..o + Size(e)] == Layout(e)
  {
    HeadSlice(bytes, o, e);
    SizesSlice(bytes, o, e);
    BodySlice(bytes, o, e);
    Concat3(Head(e), Sizes(e), Body(e));
    Glue(bytes, o, o + 18, o + 30);
    Glue(bytes, o, o + 30, o + Size(e));
  }

  lemma SubSlice(bytes: Bytes, i: nat, part: Bytes, a: nat, b: nat)
    requires a <= b <= |part| && i + |part| <= |bytes| && bytes[i..i + |part|] == part
    ensures bytes[i + a..i + b] == part[a..b]
  {
    assert forall k :: 0 <= k < |part| ==> part[k] == bytes[i + k];
  }

  lemma Concat3(a: Bytes, b: Bytes, c: Bytes)
    ensures Concat([a, b, c]) == a + b + c
  {
    assert [a, b, c][1..] == [b, c] && [b, c][1..] == [c] && [c][1..] == [];
    assert Concat([c]) == c && Concat([b, c]) == b + c;
  }

  lemma Concat4(a: Bytes, b: Bytes, c: Bytes, d: Bytes)
    ensures Concat([a, b, c, d]) == a + b + c + d
  {
    assert [a, b, c, d][1..] == [b, c, d];
    Concat3(b, c, d);
  }

  lemma LayoutParts(pre: Bytes, e: Entry, post: Bytes)
    requires Valid(e)
    ensures |Head(e)| == 18 && |Sizes(e)| == 12 && |Layout(e)| == Size(e)
    ensures var bytes := pre + Layout(e) + post;
            var o := |pre|;
            bytes[o..o + 18] == Head(e) && bytes[o + 18..o + 30] == Sizes(e) && bytes[o + 30..o + Size(e)] == Body(e)
  {
    Concat3(Head(e), Sizes(e), Body(e));
    HeadIs(e);
    Concat4(Le32(|e.data|), e.plainSize, Le16(|e.name|), Le16(|e.extra|));
    Concat3(e.name, e.extra, e.data);
  }

  lemma HeadIs(e: Entry)
    ensures Head(e) == LOCAL_HEADER + e.versionAndFlags + [0, 0] + e.stampAndCrc
  {
    Concat4(LOCAL_HEADER, e.versionAndFlags, [0, 0], e.stampAndCrc);
  }

  lemma HeadAt(bytes: Bytes, o: nat, e: Entry)
    requires Valid(e) && o + 18 <= |bytes| && bytes[o..o + 18] == Head(e)
    ensures bytes[o..o + 4] == LOCAL_HEADER && bytes[o + 4..o + 8] == e.versionAndFlags
    ensures bytes[o + 8..o + 10] == [0, 0] && bytes[o + 10..o + 18] == e.stampAndCrc
  {
    var h := Head(e);
    HeadIs(e);
    SubSlice(bytes, o, h, 0, 4);
    SubSlice(bytes, o, h, 4, 8);
    SubSlice(bytes, o, h, 8, 10);
    SubSlice(bytes, o, h, 10, 18);
    assert h[..4] == LOCAL_HEADER && h[4..8] == e.versionAndFlags && h[8..10] == [0, 0] && h[10..18] == e.stampAndCrc;
  }

  lemma SizesAt(bytes: Bytes, o: nat, e: Entry)
    requires Valid(e) && o + 12 <= |bytes| && bytes[o..o + 12] == Sizes(e)
    ensures bytes[o..o + 4] == Le32(|e.data|) && bytes[o + 4..o + 8] == e.plainSize
    ensures bytes[o + 8..o + 10] == Le16(|e.name|) && bytes[o + 10..o + 12] == Le16(|e.extra|)
  {
    var h := Sizes(e);
    Concat4(Le32(|e.data|), e.plainSize, Le16(|e.name|), Le16(|e.extra|));
    SubSlice(bytes, o, h, 0, 4);
    SubSlice(bytes, o, h, 4, 8);
    SubSlice(bytes, o, h, 8, 10);
    SubSlice(bytes, o, h, 10, 12);
    assert h[..4] == Le32(|e.data|) && h[4..8] == e.plainSize && h[8..10] == Le16(|e.name|) &&
           h[10..12] == Le16(|e.extra|);
  }

  lemma BodyAt(bytes: Bytes, o: nat, e: Entry)
    requires o + |e.name| + |e.extra| + |e.data| <= |bytes| && bytes[o..o + |e.name| + |e.extra| + |e.data|] == Body(e)
    ensures var n := o + |e.name|;
            var x := n + |e.extra|;
            bytes[o..n] == e.name && bytes[n..x] == e.extra && bytes[x..x + |e.data|] == e.data
  {
    var h := Body(e);
    Concat3(e.name, e.extra, e.data);
    var n := |e.name|;
    var x := n + |e.extra|;
    SubSlice(bytes, o, h, 0, n);
    SubSlice(bytes, o, h, n, x);
    SubSlice(bytes, o, h, x, |h|);
    assert h[..n] == e.name && h[n..x] == e.extra && h[x..] == e.data;
  }

  lemma LayoutIsEntryAt(pre: Bytes, e: Entry, post: Bytes)
    requires Valid(e)
    ensures |Layout(e)| == Size(e) && EntryAt(pre + Layout(e) + post, |pre|, e)
  {
    var bytes := pre + Layout(e) + post;
    LayoutParts(pre, e, post);
    HeadAt(bytes, |pre|, e);
    SizesAt(bytes, |pre| + 18, e);
    BodyAt(bytes, |pre| + 30, e);
  }

  lemma WalkEntry(bytes: Bytes, o: nat, e: Entry, count: nat)
    requires o <= |bytes| && EntryAt(bytes, o, e)
    ensures Walk(bytes, o, count) == Walk(bytes, o + Size(e), count + 1)
  {
    Signatures(bytes[o..o + 4]);
  }

  lemma WalkTail(bytes: Bytes, o: nat, count: nat)
    requires o <= |bytes| && TailOk(bytes[o..])
    ensures Walk(bytes, o, count) == Counted(count)
  {
    if o + 4 <= |bytes| {
      assert bytes[o..][..4] == bytes[o..o + 4];
      Signatures(bytes[o..o + 4]);
    }
  }

  lemma Peel(bytes: Bytes, o: nat, e: Entry, more: Bytes)
    requires o <= |bytes| && Valid(e) && bytes[o..] == Layout(e) + more
    ensures EntryAt(bytes, o, e) && bytes[o + Size(e)..] == more
  {
    SplitAt(bytes, o, Layout(e), more);
    LayoutIsEntryAt(bytes[..o], e, more);
  }

  lemma SplitAt(bytes: Bytes, o: nat, part: Bytes, more: Bytes)
    requires o <= |bytes| && bytes[o..] == part + more
    ensures bytes == bytes[..o] + part + more && bytes[o + |part|..] == more
  {
    assert bytes[o + |part|..] == bytes[o..][|part|..];
  }

  lemma Associate(a: Bytes, b: Bytes, c: Bytes)
    ensures a + b + c == a + (b + c)
  {
  }

  /** These entries stand one after the other from offset o on, and a tail follows. */
  predicate EntriesAt(bytes: Bytes, o: nat, entries: seq<Entry>)
    decreases |entries|
  {
    if entries == [] then o <= |bytes| && TailOk(bytes[o..])
    else EntryAt(bytes, o, entries[0]) && EntriesAt(bytes, o + Size(entries[0]), entries[1..])
  }

  lemma {:induction false} LayoutIsEntriesAt(bytes: Bytes, o: nat, entries: seq<Entry>, tail: Bytes)
    requires AllValid(entries) && TailOk(tail) && o <= |bytes| && bytes[o..] == LayoutAll(entries) + tail
    ensures EntriesAt(bytes, o, entries)
    decreases |entries|
  {
    hide Layout, EntryAt, TailOk, Valid;
    if entries == [] {
      assert bytes[o..] == tail;
    } else {
      var more := LayoutAll(entries[1..]) + tail;
      Associate(Layout(entries[0]), LayoutAll(entries[1..]), tail);
      Peel(bytes, o, entries[0], more);
      LayoutIsEntriesAt(bytes, o + Size(entries[0]), entries[1..], tail);
    }
  }

  /** walk gives the walker's verdicts on these bytes. */
  ghost predicate Walks(walk: (nat, nat) -> Result<nat, ZipError>, bytes: Bytes) {
    forall o: nat, count: nat {:trigger Walk(bytes, o, count)} :: o <= |bytes| ==>
        walk(o, count) == Walk(bytes, o, count)
  }

  lemma WalkFirst(walk: (nat, nat) -> Result<nat, ZipError>, bytes: Bytes, o: nat, e: Entry, count: nat)
    requires Walks(walk, bytes) && o <= |bytes| && EntryAt(bytes, o, e)
    ensures o + Size(e) <= |bytes| && walk(o, count) == walk(o + Size(e), count + 1)
  {
    WalkEntry(bytes, o, e, count);
    assert Walk(bytes, o, count) == Walk(bytes, o + Size(e), count + 1);
  }

  lemma WalkLast(walk: (nat, nat) -> Result<nat, ZipError>, bytes: Bytes, o: nat, count: nat)
    requires Walks(walk, bytes) && o <= |bytes| && TailOk(bytes[o..])
    ensures walk(o, count) == Counted(count)
  {
    WalkTail(bytes, o, count);
    assert Walk(bytes, o, count) == Counted(count);
  }

  lemma {:induction false} WalkEntries(walk: (nat, nat) -> Result<nat, ZipError>, bytes: Bytes, o: nat,
                                       entries: seq<Entry>, count: nat)
    requires Walks(walk, bytes) && o <= |bytes| && EntriesAt(bytes, o, entries)
    ensures walk(o, count) == Counted(count + |entries|)
    decreases |entries|
  {
    if entries == [] {
      WalkLast(walk, bytes, o, count);
    } else {
      WalkFirst(walk, bytes, o, entries[0], count);
      WalkEntries(walk, bytes, o + Size(entries[0]), entries[1..], count + 1);
    }
  }

  /** The entry that a successful header check found. */
  lemma DecodedEntry(bytes: Bytes, o: nat) returns (e: Entry)
    requires o + 4 <= |bytes| && U32(bytes[o..o + 4]) == LOCAL_SIGNATURE && EntryEnd(bytes, o).Ok?
    ensures EntryAt(bytes, o, e) && o + Size(e) == EntryEnd(bytes, o).value
  {
    Signatures(bytes[o..o + 4]);
    Le16Unique(bytes[o + 8..o + 10]);
    Le32Unique(bytes[o + 18..o + 22]);
    Le16Unique(bytes[o + 26..o + 28]);
    Le16Unique(bytes[o + 28..o + 30]);
    var n := o + FIXED + U16(bytes[o + 26..o + 28]);
    var x := n + U16(bytes[o + 28..o + 30]);
    var end := x + U32(bytes[o + 18..o + 22]);
    e := Entry(bytes[o + 4..o + 8], bytes[o + 10..o + 18], bytes[o + 22..o + 26], bytes[o + 30..n], bytes[n..x],
        bytes[x..end]);
  }

  /** Where the walker stops without an error, a tail begins. */
  lemma StopsAtTail(bytes: Bytes, o: nat, count: nat)
    requires o <= |bytes| && Walk(bytes, o, count).Ok?
    requires o + 4 <= |bytes| ==> U32(bytes[o..o + 4]) != LOCAL_SIGNATURE
    ensures TailOk(bytes[o..]) && Walk(bytes, o, count) == Counted(count)
  {
    if o + 4 <= |bytes| {
      Signatures(bytes[o..o + 4]);
      assert bytes[o..][..4] == bytes[o..o + 4];
    }
  }

  /** Where it goes on, it has just passed an entry. */
  lemma GoesOnAfterEntry(bytes: Bytes, o: nat, count: nat) returns (e: Entry)
    requires o + 4 <= |bytes| && Walk(bytes, o, count).Ok? && U32(bytes[o..o + 4]) == LOCAL_SIGNATURE
    ensures EntryAt(bytes, o, e) && o + Size(e) <= |bytes| && Size(e) >= FIXED
    ensures Walk(bytes, o, count) == Walk(bytes, o + Size(e), count + 1)
  {
    e := DecodedEntry(bytes, o);
    WalkEntry(bytes, o, e, count);
  }

  /** Whatever the walker accepts is a list of entries followed by a tail, and it has counted the entries. */
  lemma {:induction false} WalkDecodes(bytes: Bytes, o: nat, count: nat) returns (entries: seq<Entry>, tail: Bytes)
    requires o <= |bytes| && Walk(bytes, o, count).Ok?
    ensures AllValid(entries) && TailOk(tail) && bytes[o..] == LayoutAll(entries) + tail
    ensures Walk(bytes, o, count) == Counted(count + |entries|)
    decreases |bytes| - o
  {
    hide AllValid, LayoutAll, EntryAt, TailOk, Size, U32, Walk;
    if o + 4 <= |bytes| && U32(bytes[o..o + 4]) == LOCAL_SIGNATURE {
      var e := GoesOnAfterEntry(bytes, o, count);
      var rest;
      rest, tail := WalkDecodes(bytes, o + Size(e), count + 1);
      entries := [e] + rest;
      Prepend(bytes, o, e, rest, tail);
    } else {
      entries, tail := [], bytes[o..];
      NoEntryLeft(tail);
      StopsAtTail(bytes, o, count);
    }
  }

  lemma NoEntryLeft(tail: Bytes)
    ensures AllValid([]) && LayoutAll([]) + tail == tail
  {
  }

  lemma Prepend(bytes: Bytes, o: nat, e: Entry, rest: seq<Entry>, tail: Bytes)
    requires o <= |bytes| && EntryAt(bytes, o, e) && AllValid(rest) && bytes[o + Size(e)..] == LayoutAll(rest) + tail
    ensures AllValid([e] + rest) && bytes[o..] == LayoutAll([e] + rest) + tail
  {
    hide Layout;
    EntryAtIsLayout(bytes, o, e);
    assert ([e] + rest)[1..] == rest;
    assert bytes[o..] == bytes[o..o + Size(e)] + bytes[o + Size(e)..];
  }

  lemma AcceptedIsStoreZip(bytes: Bytes)
    requires Walk(bytes, 0, 0).Ok?
    ensures IsStoreZip(bytes, Walk(bytes, 0, 0).value)
  {
    var entries, tail := WalkDecodes(bytes, 0, 0);
    assert bytes[0..] == bytes;
    assert |entries| == Walk(bytes, 0, 0).value;
  }

  lemma StoreZipIsAccepted(bytes: Bytes, n: nat)
    requires IsStoreZip(bytes, n)
    ensures Walk(bytes, 0, 0) == Ok(n)
  {
    hide AllValid, TailOk, LayoutAll, EntriesAt, Walk;
    var entries: seq<Entry>, tail: Bytes :|
      |entries| == n > 0 && AllValid(entries) && TailOk(tail) && bytes == LayoutAll(entries) + tail;
    assert bytes[0..] == bytes;
    LayoutIsEntriesAt(bytes, 0, entries, tail);
    var walk := (o: nat, count: nat) => if o <= |bytes| then Walk(bytes, o, count) else Err(NoEntries);
    WalkEntries(walk, bytes, 0, entries, 0);
  }

  // ---- What the walker reports otherwise ----

  lemma {:induction false} WalkPast(bytes: Bytes, o: nat, entries: seq<Entry>, rest: Bytes, count: nat)
    requires AllValid(entries) && o <= |bytes| && bytes[o..] == LayoutAll(entries) + rest
    ensures |rest| <= |bytes| && bytes[|bytes| - |rest|..] == rest
    ensures Walk(bytes, o, count) == Walk(bytes, |bytes| - |rest|, count + |entries|)
    decreases |entries|
  {
    hide Layout, EntryAt, Valid, Size, Walk;
    if entries == [] {
      assert bytes[o..] == rest;
    } else {
      var e, more := entries[0], LayoutAll(entries[1..]) + rest;
      Associate(Layout(e), LayoutAll(entries[1..]), rest);
      Peel(bytes, o, e, more);
      EndsInside(bytes, o, e);
      WalkEntry(bytes, o, e, count);
      WalkPast(bytes, o + Size(e), entries[1..], rest, count + 1);
    }
  }

  lemma EndsInside(bytes: Bytes, o: nat, e: Entry)
    requires EntryAt(bytes, o, e)
    ensures o + Size(e) <= |bytes|
  {
  }

  /** What the walker finds wrong with bytes that are no tail, if anything. */
  predicate Faulty(rest: Bytes, error: ZipError) {
    |rest| >= 4 &&
    match error
    case UnsupportedLocalHeader => rest[..4] != LOCAL_HEADER
    case HeaderTruncated =>
      rest[..4] == LOCAL_HEADER && (|rest| < 10 || (rest[8..10] == [0, 0] && |rest| < 30))
    case UnsupportedMethod => rest[..4] == LOCAL_HEADER && |rest| >= 10 && rest[8..10] != [0, 0]
    case EntryExceedsArchive =>
      && rest[..4] == LOCAL_HEADER && |rest| >= 30 && rest[8..10] == [0, 0]
      && 30 + U16(rest[26..28]) + U16(rest[28..30]) + U32(rest[18..22]) > |rest|
    case NoEntries => false
  }

  lemma RestAt(bytes: Bytes, o: nat, a: nat, b: nat)
    requires o <= |bytes| && a <= b <= |bytes| - o
    ensures bytes[o..][a..b] == bytes[o + a..o + b]
  {
  }

  lemma FaultyFails(bytes: Bytes, o: nat, count: nat, error: ZipError)
    requires o <= |bytes| && !TailOk(bytes[o..]) && Faulty(bytes[o..], error)
    ensures Walk(bytes, o, count) == Err(error)
  {
    hide U16, U32;
    var rest := bytes[o..];
    RestAt(bytes, o, 0, 4);
    Signatures(bytes[o..o + 4]);
    if |rest| >= 10 {
      RestAt(bytes, o, 8, 10);
      Le16Unique(rest[8..10]);
      assert U16(rest[8..10]) == 0 <==> rest[8..10] == [0, 0] by { ZeroIs(rest[8..10]); }
    }
    if |rest| >= 30 {
      RestAt(bytes, o, 18, 22);
      RestAt(bytes, o, 26, 28);
      RestAt(bytes, o, 28, 30);
    }
  }

  lemma ZeroIs(b: Bytes)
    requires |b| == 2
    ensures U16(b) == 0 <==> b == [0, 0]
  {
  }

  /** After any number of whole entries, the walker reports what is wrong with the bytes that follow; only bytes without
      any entry are reported as having none. */
  lemma WalkFails(entries: seq<Entry>, rest: Bytes, error: ZipError)
    requires AllValid(entries)
    requires if error == NoEntries then entries == [] && TailOk(rest) else !TailOk(rest) && Faulty(rest, error)
    ensures Walk(LayoutAll(entries) + rest, 0, 0) == Err(error)
  {
    hide AllValid, LayoutAll, Walk, Faulty, TailOk;
    var bytes := LayoutAll(entries) + rest;
    assert bytes[0..] == bytes;
    WalkPast(bytes, 0, entries, rest, 0);
    if error == NoEntries {
      WalkTail(bytes, |bytes| - |rest|, 0);
    } else {
      FaultyFails(bytes, |bytes| - |rest|, |entries|, error);
    }
  }

  /** The walker returns n exactly for the archives of n store-method entries followed by a directory record. */
  lemma WalkIffStoreZip(bytes: Bytes, n: nat)
    ensures Walk(bytes, 0, 0) == Ok(n) <==> IsStoreZip(bytes, n)
  {
    if Walk(bytes, 0, 0).Ok? { AcceptedIsStoreZip(bytes); }
    if IsStoreZip(bytes, n) { StoreZipIsAccepted(bytes, n); }
  }
}
