/** A tree, the file its dump writes, and the search in that file through the block cache. */
module DumpRead {
  import opened Options
  import opened Entries
  import opened MergeFiles
  import opened BinaryTree
  import opened BlockCache
  import opened FileRead

  /** For every key the search in the dumped file and the search in the tree come to the same. */
  method FindBoth(tree: Tree, cache: FileIO, fmt: Format, now: nat, k: Key)
    returns (onDisk: Option<Value>, node: Node?)
    requires tree.Valid() && cache.Valid() && Legible(fmt, Stamped(now, tree.Contents()))
    modifies tree`stk, tree.LogPart(), cache, cache.buffer, cache.labels
    ensures tree.Valid() && cache.Valid()
    ensures node == null <==> onDisk == None
    ensures node != null ==> node.key == k && onDisk == Some(node.value)
  {
    var f := tree.Dump(now);
    onDisk := LookFile(cache, fmt, f, k);
    node := tree.Search(k);
  }
}
