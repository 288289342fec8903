/** Looking a key up in a file of the store: open it, search it through the block cache, close it. */
module FileRead {
  import opened Options
  import opened Entries
  import opened SortedEntries
  import opened MergeFiles
  import opened BlockCache
  import opened Read

  /** How keys, values and the time stamp of the header become bytes. */
  datatype Format = Format(codec: Codec, bytesOf: Key -> seq<byte>, header: nat -> seq<byte>)

  /** The bytes of a file; an emptied one has none. */
  function Bytes(fmt: Format, f: File): seq<byte> {
    if f.Blank? then [] else Encode(fmt.bytesOf, fmt.header(f.stamp), f.entries)
  }

  /** Sorted, and every key and value has the size the format is made for. */
  ghost predicate Legible(fmt: Format, f: File) {
    fmt.codec.Consistent()
    && (f.Stamped? ==>
          && |fmt.header(f.stamp)| == fmt.codec.EntrySize() && Ascending(f.entries)
          && forall e :: e in f.entries ==> Fits(fmt.codec, fmt.bytesOf, e))
  }

  /** The bytes of a file say what the file says. */
  lemma BytesTell(fmt: Format, f: File)
    requires Legible(fmt, f)
    ensures Decode(fmt.codec, Bytes(fmt, f)) == if f.Blank? then [] else f.entries
  {
    if f.Stamped? { DecodeEncode(fmt.codec, fmt.bytesOf, fmt.header(f.stamp), f.entries); }
  }

  /** The look at one file, whatever the cache holds before. */
  method LookFile(cache: FileIO, fmt: Format, f: File, k: Key) returns (v: Option<Value>)
    requires cache.Valid() && Legible(fmt, f)
    modifies cache, cache.buffer, cache.labels
    ensures cache.Valid() && cache.open == old(cache.open)
    ensures v == FileFind(f, k)
  {
    BytesTell(fmt, f);
    var fd := cache.OpenFile(Bytes(fmt, f));
    v := FindEntry(cache, fmt.codec, fd, k);
    cache.CloseFile(fd);
  }
}
