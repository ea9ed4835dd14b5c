/** A directory of the host filesystem, seen as a table from entry names to
    entries, and the host operations the generator calls on it: `rename`,
    `create_dir_all`, `write` (at the top level and one level down) and
    `read_dir`.

    Each operation's contract is what the host guarantees and nothing more:
    a missing source is reported as NotFound and only then; an occupied
    destination, or a file where a directory is needed, is always refused;
    apart from that the host may refuse any call (permissions, I/O errors),
    and a refused call changes nothing. The bodies are one host that meets
    these contracts; callers are verified against the contracts alone. */
module FileTable {

  /** An entry: a regular file with its content, or a sub-directory. */
  datatype Entry = File(content: string) | Dir(table: Table)

  type Table = map<string, Entry>

  /** The two kinds of failure the generator tells apart. */
  datatype IoError = NotFound | Other

  datatype IoResult = Ok | Err(error: IoError)

  /** Where a run panicked. */
  datatype Step =
    | LoadConfig
    | ArchiveBackup | DemoteLive | CreateLive | WriteProxy(source: string)
    | ArchiveRequests | CreateBackup | ListRequests | MoveOld(name: string)
    | WriteRequest(namespace: string)

  datatype Outcome = Completed | Aborted(at: Step)

  /** The table after entry `src` has been renamed to `dst`. */
  function Moved(t: Table, src: string, dst: string): Table
    requires src in t
  {
    (t - {src})[dst := t[src]]
  }

  /** A rename the host refuses whatever else happens: both the source and
      the destination exist. */
  predicate RenameBlocked(t: Table, src: string, dst: string) {
    src in t && dst in t
  }

  /** The table after `rename(src, dst)` succeeded, or failed with NotFound
      because `src` is missing. */
  function RenamedIfPresent(t: Table, src: string, dst: string): Table {
    if src in t then Moved(t, src, dst) else t
  }

  /** The table after entry `name` has been moved into sub-directory `sub`
      under the same name. */
  function MovedInto(t: Table, name: string, sub: string): Table
    requires name in t && sub in t && t[sub].Dir?
  {
    (t - {name})[sub := Dir(t[sub].table[name := t[name]])]
  }

  /** Every element of `names` appears once. */
  predicate Distinct(names: seq<string>) {
    forall i, j :: 0 <= i < j < |names| ==> names[i] != names[j]
  }

  class Directory {
    var entries: Table

    constructor (t: Table)
      ensures entries == t
    {
      entries := t;
    }

    /** `rename(dir/src, dir/dst)`. */
    method Rename(src: string, dst: string) returns (r: IoResult)
      modifies this
      ensures r == Err(NotFound) <==> src !in old(entries)
      ensures src in old(entries) && dst in old(entries) ==> r == Err(Other)
      ensures r == Ok ==> src in old(entries) && dst !in old(entries)
                          && entries == Moved(old(entries), src, dst)
      ensures r != Ok ==> entries == old(entries)
    {
      if src !in entries {
        r := Err(NotFound);
      } else if dst in entries {
        r := Err(Other);
      } else {
        entries := Moved(entries, src, dst);
        r := Ok;
      }
    }

    /** `create_dir_all(dir/name)`: an existing directory is kept as it is. */
    method CreateDirAll(name: string) returns (r: IoResult)
      modifies this
      ensures name in old(entries) && old(entries)[name].File? ==> r == Err(Other)
      ensures r == Ok ==> && (name in old(entries) ==> old(entries)[name].Dir? && entries == old(entries))
                          && (name !in old(entries) ==> entries == old(entries)[name := Dir(map[])])
      ensures r != Ok ==> r == Err(Other) && entries == old(entries)
    {
      if name !in entries {
        entries := entries[name := Dir(map[])];
        r := Ok;
      } else if entries[name].File? {
        r := Err(Other);
      } else {
        r := Ok;
      }
    }

    /** `fs::write(dir/name, content)`: creates or truncates a file. */
    method Write(name: string, content: string) returns (r: IoResult)
      modifies this
      ensures name in old(entries) && old(entries)[name].Dir? ==> r == Err(Other)
      ensures r == Ok ==> entries == old(entries)[name := File(content)]
      ensures r != Ok ==> entries == old(entries)
    {
      if name in entries && entries[name].Dir? {
        r := Err(Other);
      } else {
        entries := entries[name := File(content)];
        r := Ok;
      }
    }

    /** `fs::write(dir/sub/name, content)`. */
    method WriteInto(sub: string, name: string, content: string) returns (r: IoResult)
      modifies this
      ensures sub !in old(entries) ==> r == Err(NotFound)
      ensures sub in old(entries) && old(entries)[sub].File? ==> r == Err(Other)
      ensures (&& sub in old(entries) && old(entries)[sub].Dir? && name in old(entries)[sub].table
               && old(entries)[sub].table[name].Dir?) ==> r == Err(Other)
      ensures r == Ok ==> && sub in old(entries) && old(entries)[sub].Dir?
                          && entries == old(entries)[sub := Dir(old(entries)[sub].table[name := File(content)])]
      ensures r != Ok ==> entries == old(entries)
    {
      if sub !in entries {
        r := Err(NotFound);
      } else if entries[sub].File? || (name in entries[sub].table && entries[sub].table[name].Dir?) {
        r := Err(Other);
      } else {
        entries := entries[sub := Dir(entries[sub].table[name := File(content)])];
        r := Ok;
      }
    }

    /** `rename(dir/name, dir/sub/name)`. */
    method MoveInto(name: string, sub: string) returns (r: IoResult)
      modifies this
      ensures name !in old(entries) || sub !in old(entries) ==> r == Err(NotFound)
      ensures (&& name in old(entries) && sub in old(entries)
               && (name == sub || old(entries)[sub].File? || name in old(entries)[sub].table))
              ==> r == Err(Other)
      ensures r == Ok ==> && name in old(entries) && sub in old(entries) && name != sub
                          && old(entries)[sub].Dir? && name !in old(entries)[sub].table
                          && entries == MovedInto(old(entries), name, sub)
      ensures r != Ok ==> entries == old(entries)
    {
      if name !in entries || sub !in entries {
        r := Err(NotFound);
      } else if name == sub || entries[sub].File? || name in entries[sub].table {
        r := Err(Other);
      } else {
        entries := MovedInto(entries, name, sub);
        r := Ok;
      }
    }

    /** `read_dir(dir)`, collected: the names of the entries as they are
        when the listing is taken, each once, in an unspecified order. */
    method ReadDir() returns (r: IoResult, names: seq<string>)
      ensures r == Ok ==> Distinct(names) && forall n :: n in names <==> n in entries
      ensures r != Ok ==> r == Err(Other)
    {
      names := [];
      var rest := entries.Keys;
      while rest != {}
        invariant rest <= entries.Keys
        invariant Distinct(names)
        invariant forall n :: n in entries ==> n in rest || n in names
        invariant forall n :: n in names ==> n in entries && n !in rest
        decreases rest
      {
        var n :| n in rest;
        names := names + [n];
        rest := rest - {n};
      }
      r := Ok;
    }
  }
}
