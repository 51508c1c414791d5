/** The host filesystem as the discovery sees it: a snapshot of the mounted
    volumes, each with its top-level directory listing. Every listing is in
    the directory object's default order, by name ignoring case, with names
    that tie kept in the host's order; the volumes are in the order the host
    reports them. */
module FileSystem {

  import Seqs

  /** One directory entry. `name` is the last path component and `path` the
      absolute path; `hidden` is the host's hidden attribute (on Unix, a
      name starting with '.'). Only directories carry a listing of their own. */
  datatype Entry =
    | Dir(name: string, path: string, symLink: bool, hidden: bool, entries: seq<Entry>)
    | File(name: string, path: string, symLink: bool, hidden: bool)

  /** A mounted volume: its display label, its root path and the entries of
      that root directory. */
  datatype Volume = Volume(name: string, rootPath: string, entries: seq<Entry>)

  /** The listing of a directory; a file lists nothing. */
  function Contents(e: Entry): seq<Entry>
  {
    if e.Dir? then e.entries else []
  }

  /** What survives the listing filters every scan uses: no symbolic links,
      no hidden entries, no "." or "..". */
  predicate Listed(e: Entry)
  {
    !e.symLink && !e.hidden && e.name != "." && e.name != ".."
  }

  predicate IsListedDir(e: Entry)
  {
    e.Dir? && Listed(e)
  }

  predicate IsListedFile(e: Entry)
  {
    e.File? && Listed(e)
  }

  /** The directory listing filtered to directories only. */
  function Dirs(entries: seq<Entry>): seq<Entry>
  {
    Seqs.Filter(entries, IsListedDir)
  }

  /** The directory listing filtered to files only. */
  function Files(entries: seq<Entry>): seq<Entry>
  {
    Seqs.Filter(entries, IsListedFile)
  }
}
