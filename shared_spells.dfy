/**
 * Publishing the spell table into shared memory: under the "spells" mutex,
 * size a segment for one record per spell id plus a 4-byte header, map it,
 * zero it, and let the database loader fill it.
 *
 * The cross-process mutex is a lock flag, the mapped file a byte array, and
 * every step appends an event to a trace. The record size, the database's
 * answer to the max-id query, what the segment file held before, and what
 * the loader writes are all inputs.
 */
module SharedSpells {

  /** The name of the mutex; the same for every prefix. */
  const MutexName := "spells"
  /** The file name the segment gets after the directory and the prefix. */
  const SegmentName := "spells"
  /** sizeof(uint32): the header in front of the records. */
  const HeaderSize := 4
  /** The segment size is computed in a uint32. */
  const SizeLimit := 0x1_0000_0000

  const NoSpellsMessage := "Unable to get any spells from the database."

  function SegmentPath(sharedMemDir: string, prefix: string): string {
    sharedMemDir + prefix + SegmentName
  }

  /** The bytes of a segment holding `records` records of `recordSize` bytes. */
  function SegmentSize(records: nat, recordSize: nat): nat {
    records * recordSize + HeaderSize
  }

  /** Where the record of spell `id` starts. */
  function SlotOffset(id: nat, recordSize: nat): nat {
    HeaderSize + id * recordSize
  }

  /**
   * The slots lie back to back after the header: slot `id` ends where slot
   * `id + 1` starts, and the last one ends where the segment does.
   */
  lemma SlotsTileSegment(records: nat, recordSize: nat, id: nat)
    requires id < records
    ensures SlotOffset(id, recordSize) + recordSize == SlotOffset(id + 1, recordSize)
    ensures SlotOffset(id + 1, recordSize) <= SegmentSize(records, recordSize)
    ensures SlotOffset(records, recordSize) == SegmentSize(records, recordSize)
  {
    assert (id + 1) * recordSize == id * recordSize + recordSize;
    assert (id + 1) * recordSize <= records * recordSize by {
      MulMonotone(id + 1, records, recordSize);
    }
  }

  lemma MulMonotone(a: nat, b: nat, k: nat)
    requires a <= b
    ensures a * k <= b * k
  {
  }

  /** Two different spells never share a byte. */
  lemma SlotsDisjoint(recordSize: nat, id1: nat, id2: nat)
    requires id1 < id2
    ensures SlotOffset(id1, recordSize) + recordSize <= SlotOffset(id2, recordSize)
  {
    MulMonotone(id1 + 1, id2, recordSize);
    assert (id1 + 1) * recordSize == id1 * recordSize + recordSize;
  }

  /** A loader that writes only inside a region of `size` bytes. */
  predicate WritesWithin(written: map<nat, bv8>, size: nat) {
    forall i :: i in written ==> i < size
  }

  /**
   * The segment after a publish: the bytes the loader wrote, zero everywhere
   * else. It does not depend on what the file held before.
   */
  function Published(records: nat, recordSize: nat, written: map<nat, bv8>): seq<bv8> {
    seq(SegmentSize(records, recordSize), i => if i in written then written[i] else 0)
  }

  /** The slot of a spell the loader wrote nothing into reads as zero bytes. */
  lemma GapSlotIsZero(records: nat, recordSize: nat, written: map<nat, bv8>, id: nat)
    requires id < records
    requires forall i :: SlotOffset(id, recordSize) <= i < SlotOffset(id, recordSize) + recordSize ==> i !in written
    ensures var image := Published(records, recordSize, written);
            var start := SlotOffset(id, recordSize);
            start + recordSize <= |image| && image[start..start + recordSize] == seq(recordSize, _ => 0)
  {
    SlotsTileSegment(records, recordSize, id);
    var image := Published(records, recordSize, written);
    var start := SlotOffset(id, recordSize);
    assert start + recordSize <= |image|;
    forall i | start <= i < start + recordSize
      ensures image[i] == 0
    {
      assert i !in written;
    }
    assert image[start..start + recordSize] == seq(recordSize, _ => 0);
  }

  /** Every byte the loader wrote inside the segment reads back as written. */
  lemma WrittenBytesKept(records: nat, recordSize: nat, written: map<nat, bv8>, i: nat)
    requires i in written && i < SegmentSize(records, recordSize)
    ensures |Published(records, recordSize, written)| == SegmentSize(records, recordSize)
    ensures Published(records, recordSize, written)[i] == written[i]
  {
  }

  datatype Event =
    | MutexLocked(name: string)
    | MaxIdQueried
    | ConfigRead
    | SegmentMapped(path: string, size: nat)
    | SegmentZeroed
    | SpellsLoaded(count: nat)
    | MutexUnlocked(name: string)

  /** LoadSpells either publishes `records` records or raises the shared-memory exception. */
  datatype Outcome =
    | Done(records: nat)
    | Failed(category: string, message: string)

  /** The events of a publish that got past the max-id query. */
  function PublishEvents(sharedMemDir: string, prefix: string, records: nat, recordSize: nat): seq<Event> {
    [ MutexLocked(MutexName), MaxIdQueried, ConfigRead,
      SegmentMapped(SegmentPath(sharedMemDir, prefix), SegmentSize(records, recordSize)),
      SegmentZeroed, SpellsLoaded(records), MutexUnlocked(MutexName) ]
  }

  /**
   * The segment name ends every path, so different prefixes in one directory
   * give different files: two publishes with different prefixes map different
   * segments, while the mutex they lock and unlock is one and the same.
   */
  lemma PrefixesShareMutex(sharedMemDir: string, prefix1: string, prefix2: string, records: nat, recordSize: nat)
    requires prefix1 != prefix2
    ensures SegmentPath(sharedMemDir, prefix1) != SegmentPath(sharedMemDir, prefix2)
    ensures var e1 := PublishEvents(sharedMemDir, prefix1, records, recordSize);
            var e2 := PublishEvents(sharedMemDir, prefix2, records, recordSize);
            e1[0] == e2[0] && e1[6] == e2[6] && e1[3] != e2[3]
  {
    var p1 := SegmentPath(sharedMemDir, prefix1);
    var p2 := SegmentPath(sharedMemDir, prefix2);
    if |prefix1| != |prefix2| {
      assert |p1| != |p2|;
    } else {
      var k :| 0 <= k < |prefix1| && prefix1[k] != prefix2[k];
      assert p1[|sharedMemDir| + k] == prefix1[k];
      assert p2[|sharedMemDir| + k] == prefix2[k];
    }
  }

  /**
   * The shared-memory process's view of the spell segment: whether it holds
   * the "spells" mutex, the region it mapped last, and what it has done.
   */
  class SpellPublisher {
    /** sizeof(SPDat_Spell_Struct). */
    const recordSize: nat
    /** The configured shared-memory directory. */
    const sharedMemDir: string
    var locked: bool
    var segment: array<bv8>
    var trace: seq<Event>

    constructor (recordSize: nat, sharedMemDir: string)
      requires recordSize > 0
      ensures this.recordSize == recordSize && this.sharedMemDir == sharedMemDir
      ensures !locked && trace == [] && segment.Length == 0
    {
      this.recordSize := recordSize;
      this.sharedMemDir := sharedMemDir;
      locked := false;
      segment := new bv8[0];
      trace := [];
    }

    /** Blocks until the mutex is free, then holds it; the mutex is not reentrant. */
    method Lock()
      requires !locked
      modifies this`locked, this`trace
      ensures locked && trace == old(trace) + [MutexLocked(MutexName)]
    {
      locked := true;
      trace := trace + [MutexLocked(MutexName)];
    }

    method Unlock()
      requires locked
      modifies this`locked, this`trace
      ensures !locked && trace == old(trace) + [MutexUnlocked(MutexName)]
    {
      locked := false;
      trace := trace + [MutexUnlocked(MutexName)];
    }

    /**
     * Creates or opens the file and maps `size` bytes of it. Bytes the file
     * already had keep their old value; bytes it grows by are zero.
     */
    method Map(path: string, size: nat, previous: seq<bv8>)
      requires locked
      modifies this`segment, this`trace
      ensures fresh(segment) && segment.Length == size
      ensures forall i :: 0 <= i < size ==> segment[i] == if i < |previous| then previous[i] else 0
      ensures trace == old(trace) + [SegmentMapped(path, size)]
    {
      segment := new bv8[size](i => if 0 <= i < |previous| then previous[i] else 0);
      trace := trace + [SegmentMapped(path, size)];
    }

    /** Overwrites the whole mapped region with zero bytes. */
    method ZeroFile()
      requires locked
      modifies segment, this`trace
      ensures forall i :: 0 <= i < segment.Length ==> segment[i] == 0
      ensures trace == old(trace) + [SegmentZeroed]
    {
      forall i | 0 <= i < segment.Length {
        segment[i] := 0;
      }
      trace := trace + [SegmentZeroed];
    }

    /** The database loader: it writes the bytes in `written`, all inside the region, and nothing else. */
    method LoadInto(records: nat, written: map<nat, bv8>)
      requires locked
      requires WritesWithin(written, segment.Length)
      modifies segment, this`trace
      ensures forall i :: 0 <= i < segment.Length ==>
                segment[i] == if i in written then written[i] else old(segment[i])
      ensures trace == old(trace) + [SpellsLoaded(records)]
    {
      forall i | 0 <= i < segment.Length && i in written {
        segment[i] := written[i];
      }
      trace := trace + [SpellsLoaded(records)];
    }

    /**
     * Publishes the spells. `maxSpellId` is the database's answer to the
     * max-id query, `previous` what the segment file held, and `loader` what
     * the database loader writes for a given record count.
     */
    method LoadSpells(prefix: string, maxSpellId: int, previous: seq<bv8>, loader: nat -> map<nat, bv8>)
      returns (outcome: Outcome)
      requires !locked
      requires maxSpellId >= -1
      requires SegmentSize(maxSpellId + 1, recordSize) < SizeLimit
      requires WritesWithin(loader(maxSpellId + 1), SegmentSize(maxSpellId + 1, recordSize))
      modifies this
      ensures outcome.Done? <==> maxSpellId + 1 != 0
      ensures outcome.Failed? ==>
                && outcome == Failed("Shared Memory", NoSpellsMessage)
                && trace == old(trace) + [MutexLocked(MutexName), MaxIdQueried]
                && segment == old(segment)
      ensures outcome.Done? ==>
                var records := maxSpellId + 1;
                && outcome.records == records
                && !locked
                && trace == old(trace) + PublishEvents(sharedMemDir, prefix, records, recordSize)
                && fresh(segment)
                && segment[..] == Published(records, recordSize, loader(records))
    {
      Lock();
      trace := trace + [MaxIdQueried];
      var records := maxSpellId + 1;
      if records == 0 {
        return Failed("Shared Memory", NoSpellsMessage);
      }

      var size := records * recordSize + HeaderSize;

      trace := trace + [ConfigRead];
      var fileName := sharedMemDir + prefix + SegmentName;
      Map(fileName, size, previous);
      ZeroFile();

      var written := loader(records);
      LoadInto(records, written);
      Unlock();
      assert segment[..] == Published(records, recordSize, written);
      outcome := Done(records);
    }
  }
}
