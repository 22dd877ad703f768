/** The landing directory both loaders read: its entries as the file
    system lists them. */
module Landing {

  /** One entry of the landing directory. */
  datatype DirEntry = DirEntry(name: string, isFile: bool)

  /** A directory never holds two entries of one name. */
  predicate NamesUnique(entries: seq<DirEntry>) {
    forall i, j :: 0 <= i < j < |entries| ==> entries[i].name != entries[j].name
  }
}
