/**
 The part of the file system the registry builder reads: a directory tree whose
 listings are given in `iterdir()` order, with each regular file's text.
 */
module FileTree {

  datatype Option<T> = None | Some(value: T)

  /** An entry of a directory listing. */
  datatype Node = File(name: string, text: string) | Dir(name: string, entries: seq<Node>)

  /** A relative path given by its component names, as `Path('DocTest')`. */
  type RelPath = seq<string>

  /** The exceptions the file system raises on the paths the builder touches. */
  datatype OSError = FileNotFound | NotADirectory | IsADirectory

  /** What `iterdir()` finds at a path: no such entry, not a directory, or a listing. */
  datatype Listing = Missing | NotDir | Found(entries: seq<Node>)

  /** The position of the entry called `n` in a listing, or -1. */
  function IndexOfName(entries: seq<Node>, n: string): (i: int)
    ensures -1 <= i < |entries|
    ensures 0 <= i ==> entries[i].name == n
    ensures i == -1 ==> forall k :: 0 <= k < |entries| ==> entries[k].name != n
  {
    if entries == [] then -1
    else if entries[0].name == n then 0
    else
      var i := IndexOfName(entries[1..], n);
      if i < 0 then -1 else i + 1
  }

  /**
   Listing the directory `path` below a directory whose listing is `entries`:
   a missing component gives `Missing`, and a regular file met on the way or at
   the end gives `NotDir`.
   */
  function Resolve(entries: seq<Node>, path: RelPath): Listing
    decreases |path|
  {
    if path == [] then Found(entries)
    else
      var i := IndexOfName(entries, path[0]);
      if i < 0 then Missing
      else match entries[i]
        case File(_, _) => NotDir
        case Dir(_, es) => Resolve(es, path[1..])
  }

  /** The error `iterdir()` raises for a listing that cannot be read. */
  function ListingError(l: Listing): OSError
    requires !l.Found?
  {
    if l.Missing? then FileNotFound else NotADirectory
  }

  /** A location in a listing: the index of an entry, then indices inside sub-directories. */
  type Location = seq<nat>

  /** `loc` leads through directories of `entries` to an existing entry. */
  predicate ValidLocation(entries: seq<Node>, loc: Location)
    decreases |loc|
  {
    && loc != []
    && loc[0] < |entries|
    && (|loc| > 1 ==> entries[loc[0]].Dir? && ValidLocation(entries[loc[0]].entries, loc[1..]))
  }

  /** The entry found at a location. */
  function NodeAt(entries: seq<Node>, loc: Location): Node
    requires ValidLocation(entries, loc)
    decreases |loc|
  {
    if |loc| == 1 then entries[loc[0]] else NodeAt(entries[loc[0]].entries, loc[1..])
  }

  /** The names of the entries passed through on the way to a location, ending with its own. */
  function NamesAlong(entries: seq<Node>, loc: Location): (r: seq<string>)
    requires ValidLocation(entries, loc)
    ensures |r| == |loc|
    ensures r[|r| - 1] == NodeAt(entries, loc).name
    decreases |loc|
  {
    if |loc| == 1 then [entries[loc[0]].name]
    else [entries[loc[0]].name] + NamesAlong(entries[loc[0]].entries, loc[1..])
  }

  /** Opening a location for reading: it must exist and must not be a directory. */
  function OpenText(entry: Option<Node>): (r: Result<string>)
    ensures r.Ok? <==> entry.Some? && entry.value.File?
    ensures r.Ok? ==> r.value == entry.value.text
  {
    match entry
    case None => Err(FileNotFound)
    case Some(File(_, text)) => Ok(text)
    case Some(Dir(_, _)) => Err(IsADirectory)
  }

  datatype Result<T> = Ok(value: T) | Err(error: OSError)
}
