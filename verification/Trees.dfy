/** A server's files: what a directory entry can be, as the archiver and the restore see it. */
module Trees {
  newtype Byte = b: int | 0 <= b < 256

  /** Links are skipped by the archiver; Special stands for fifos, sockets and devices, which it refuses. */
  datatype Node =
    | File(bytes: seq<Byte>)
    | Dir(entries: seq<Entry>)
    | Link
    | Special

  datatype Entry = Entry(name: string, node: Node)
}
