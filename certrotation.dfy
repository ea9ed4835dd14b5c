/** `generate_acme_redirect_config`: in the acme-redirect request directory,
    the previous backup `web-distributor-old` is archived as
    `web-distributor-old-<ts>`, a fresh backup is created, every entry whose
    name starts with `web-distributor` but not with `web-distributor-old` is
    moved into it, and one request `web-distributor.<namespace>.conf` is
    written per public host name of the mapping. */
module CertRotation {
  import opened FileTable
  import opened FileNames
  import opened Settings
  import opened Templates

  const Prefix: string := "web-distributor"
  const Backup: string := Prefix + "-old"

  function Archive(ts: string): string {
    Backup + "-" + ts
  }

  predicate StartsWith(s: string, p: string) {
    |p| <= |s| && s[..|p|] == p
  }

  /** The filter of the move loop: the entries a run moves into the backup
      are those named `web-distributor…`, except the backup and the
      archives, which are named `web-distributor-old…`. */
  predicate IsStale(n: string) {
    StartsWith(n, Prefix) && !StartsWith(n, Backup)
  }

  function RequestFileName(namespace: string): string {
    FileName(Prefix + ".", ".conf", namespace)
  }

  /** The backup and every archive are kept where they are, while the
      requests a run writes are swept into the backup by the next run. */
  lemma NamesClassified(ts: string, namespace: string)
    ensures !IsStale(Backup) && !IsStale(Archive(ts))
    ensures IsStale(RequestFileName(namespace))
    ensures Backup != Archive(ts)
  {
    assert Archive(ts)[..|Backup|] == Backup;
    var n := RequestFileName(namespace);
    assert n[..|Prefix|] == Prefix;
    assert n[|Prefix|] == '.' && Backup[|Prefix|] == '-';
  }

  // ---------------------------------------------------------------- states

  /** The rename of the backup to the archive fails when both exist. */
  predicate ArchiveBlocked(t: Table, ts: string) {
    RenameBlocked(t, Backup, Archive(ts))
  }

  /** After `rename(backup, archive)`, a missing backup tolerated. */
  function Archived(t: Table, ts: string): Table {
    RenamedIfPresent(t, Backup, Archive(ts))
  }

  /** After `create_dir_all(backup)`: an empty backup. */
  function Prepared(t: Table, ts: string): Table {
    Archived(t, ts)[Backup := Dir(map[])]
  }

  /** The entries not yet moved: all but the stale ones among `done`. */
  function Kept(b: Table, done: set<string>): Table {
    map n | n in b && !(n in done && IsStale(n)) :: b[n]
  }

  /** The entries moved so far: the stale ones among `done`. */
  function Stale(b: Table, done: set<string>): Table {
    map n | n in b && n in done && IsStale(n) :: b[n]
  }

  /** The table after the stale entries among `done` have been moved into
      the backup directory. */
  function SweptSome(b: Table, done: set<string>): Table
    requires Backup in b && b[Backup].Dir?
  {
    Kept(b, done)[Backup := Dir(b[Backup].table + Stale(b, done))]
  }

  /** The table after every stale entry has been moved into the backup. */
  function Swept(b: Table): Table
    requires Backup in b && b[Backup].Dir?
  {
    SweptSome(b, b.Keys)
  }

  const RequestTemplate: string -> string := namespace => AcmeRedirectConfigBuild(namespace)

  /** The request files of `keys`, one `web-distributor.<namespace>.conf`
      each, holding its request. */
  ghost function RequestFiles(keys: set<string>): Table {
    NamedFiles(Prefix + ".", ".conf", Tabulate(keys, RequestTemplate))
  }

  /** After the stale entries were swept and the requests of `keys` written. */
  ghost function Issued(t: Table, ts: string, keys: set<string>): Table {
    Swept(Prepared(t, ts)) + RequestFiles(keys)
  }

  /** The request directory after a completed run. */
  ghost function Regenerated(t: Table, ts: string, m: map<string, string>): Table {
    Issued(t, ts, m.Keys)
  }

  /** What the request directory holds when a run starting from `t` panics
      at `step`: a NotFound never stops the first rename, so it only fails
      on an existing backup. */
  ghost predicate StoppedAt(t: Table, ts: string, m: map<string, string>, step: Step, r: Table) {
    match step
    case ArchiveRequests => Backup in t && r == t
    case CreateBackup => !ArchiveBlocked(t, ts) && r == Archived(t, ts)
    case ListRequests => !ArchiveBlocked(t, ts) && r == Prepared(t, ts)
    case MoveOld(name) =>
      && !ArchiveBlocked(t, ts) && IsStale(name) && name in Prepared(t, ts)
      && exists done :: done <= Prepared(t, ts).Keys && name !in done && r == SweptSome(Prepared(t, ts), done)
    case WriteRequest(namespace) =>
      && !ArchiveBlocked(t, ts) && namespace in m
      && exists w :: w <= m.Keys && namespace !in w && r == Issued(t, ts, w)
    case _ => false
  }

  // ------------------------------------------------------------ operations

  /** The archive rename and the creation of the fresh backup. */
  method Prepare(acme: Directory, ts: string) returns (o: Outcome)
    modifies acme
    ensures o.Completed? ==> !ArchiveBlocked(old(acme.entries), ts) && acme.entries == Prepared(old(acme.entries), ts)
    ensures ArchiveBlocked(old(acme.entries), ts) ==> o == Aborted(ArchiveRequests)
    ensures o == Aborted(ArchiveRequests) ==> Backup in old(acme.entries) && acme.entries == old(acme.entries)
    ensures o.Aborted? && o != Aborted(ArchiveRequests)
            ==> o == Aborted(CreateBackup) && !ArchiveBlocked(old(acme.entries), ts)
                && acme.entries == Archived(old(acme.entries), ts)
  {
    ghost var t := acme.entries;
    NamesClassified(ts, "");
    var r := acme.Rename(Backup, Archive(ts));
    if r.Err? && r.error != NotFound {
      return Aborted(ArchiveRequests);
    }
    assert acme.entries == Archived(t, ts);
    r := acme.CreateDirAll(Backup);
    if r.Err? {
      return Aborted(CreateBackup);
    }
    o := Completed;
  }

  lemma SweepStart(b: Table)
    requires Backup in b && b[Backup].Dir?
    ensures SweptSome(b, {}) == b
  {
    assert Stale(b, {}) == map[];
    assert b[Backup].table + map[] == b[Backup].table;
    assert Kept(b, {}) == b;
  }

  lemma KeptStep(b: Table, done: set<string>, x: string)
    requires IsStale(x)
    ensures Kept(b, done + {x}) == Kept(b, done) - {x}
  {
  }

  lemma StaleStep(b: Table, done: set<string>, x: string)
    requires x in b && IsStale(x)
    ensures Stale(b, done + {x}) == Stale(b, done)[x := b[x]]
  {
  }

  /** Moving one more stale entry of the listing into the backup. */
  lemma SweepStep(b: Table, done: set<string>, x: string)
    requires Backup in b && b[Backup].Dir? && x in b && x !in done && IsStale(x)
    ensures var s := SweptSome(b, done);
            && x in s && Backup in s && s[Backup].Dir? && x != Backup
            && MovedInto(s, x, Backup) == SweptSome(b, done + {x})
  {
    NamesClassified("", "");
    var k, m, t := Kept(b, done), Stale(b, done), b[Backup].table;
    var s := SweptSome(b, done);
    assert x in k && k[x] == b[x];
    KeptStep(b, done, x);
    StaleStep(b, done, x);
    assert s - {x} == (k - {x})[Backup := Dir(t + m)];
    assert (t + m)[x := b[x]] == t + m[x := b[x]];
  }

  /** Passing over an entry the filter keeps. */
  lemma SweepSkip(b: Table, done: set<string>, x: string)
    requires Backup in b && b[Backup].Dir? && !IsStale(x)
    ensures SweptSome(b, done + {x}) == SweptSome(b, done)
  {
    assert Stale(b, done + {x}) == Stale(b, done);
    assert Kept(b, done + {x}) == Kept(b, done);
  }

  /** One pass of the loop over the listing: an entry the filter selects
      is moved into the backup, any other is passed over. */
  method SweepEntry(acme: Directory, ghost b: Table, ghost done: set<string>, name: string) returns (r: IoResult)
    modifies acme
    requires Backup in b && b[Backup].Dir? && name in b && name !in done
    requires acme.entries == SweptSome(b, done)
    ensures r == Ok ==> acme.entries == SweptSome(b, done + {name})
    ensures r != Ok ==> IsStale(name) && acme.entries == old(acme.entries)
  {
    if IsStale(name) {
      SweepStep(b, done, name);
      r := acme.MoveInto(name, Backup);
    } else {
      SweepSkip(b, done, name);
      r := Ok;
    }
  }

  /** The loop over the `read_dir` listing, moving the stale entries into
      the backup one by one. */
  method SweepOld(acme: Directory, names: seq<string>) returns (o: Outcome, ghost done: set<string>)
    modifies acme
    requires Backup in acme.entries && acme.entries[Backup].Dir?
    requires Distinct(names) && forall n :: n in names <==> n in acme.entries
    ensures done <= old(acme.entries).Keys && acme.entries == SweptSome(old(acme.entries), done)
    ensures o.Completed? ==> done == old(acme.entries).Keys
    ensures o.Aborted? ==> && o.at.MoveOld? && IsStale(o.at.name)
                           && o.at.name in old(acme.entries) && o.at.name !in done
  {
    ghost var b := acme.entries;
    SweepStart(b);
    done := {};
    var i := 0;
    while i < |names|
      invariant 0 <= i <= |names|
      invariant done == set k | 0 <= k < i :: names[k]
      invariant done <= b.Keys && acme.entries == SweptSome(b, done)
    {
      var name := names[i];
      assert name !in done;
      var r := SweepEntry(acme, b, done, name);
      if r.Err? {
        return Aborted(MoveOld(name)), done;
      }
      done := done + {name};
      i := i + 1;
    }
    assert done == b.Keys;
    o := Completed;
  }

  lemma WriteRequestStep(s: Table, w: set<string>, namespace: string, render: string -> string)
    ensures (s + NamedFiles(Prefix + ".", ".conf", Tabulate(w, render)))
              [RequestFileName(namespace) := File(render(namespace))]
            == s + NamedFiles(Prefix + ".", ".conf", Tabulate(w + {namespace}, render))
  {
    TabulateAdd(w, namespace, render);
    NamedFilesAdd(Prefix + ".", ".conf", Tabulate(w, render), namespace, render(namespace));
  }

  /** The loop writing one request per key, in whatever order the keys
      come. */
  method WriteRequests(acme: Directory, keys: set<string>, render: string -> string, ghost s: Table)
    returns (o: Outcome, ghost written: set<string>)
    modifies acme
    requires acme.entries == s
    ensures written <= keys && acme.entries == s + NamedFiles(Prefix + ".", ".conf", Tabulate(written, render))
    ensures o.Completed? ==> written == keys
    ensures o.Aborted? ==> o.at.WriteRequest? && o.at.namespace in keys && o.at.namespace !in written
  {
    NamedFilesEmpty(Prefix + ".", ".conf");
    assert Tabulate({}, render) == map[];
    assert s + map[] == s;
    written := {};
    var pending := keys;
    while pending != {}
      invariant pending !! written && pending + written == keys
      invariant acme.entries == s + NamedFiles(Prefix + ".", ".conf", Tabulate(written, render))
      decreases pending
    {
      var namespace :| namespace in pending;
      var r := acme.Write(RequestFileName(namespace), render(namespace));
      if r.Err? {
        return Aborted(WriteRequest(namespace)), written;
      }
      WriteRequestStep(s, written, namespace, render);
      written := written + {namespace};
      pending := pending - {namespace};
    }
    o := Completed;
  }

  /** `generate_acme_redirect_config(config, ts)` on the request directory. */
  method GenerateAcmeRedirectConfig(acme: Directory, config: Config, ts: string) returns (o: Outcome)
    modifies acme
    ensures o.Completed? ==> !ArchiveBlocked(old(acme.entries), ts)
                             && acme.entries == Regenerated(old(acme.entries), ts, config.mapping)
    ensures ArchiveBlocked(old(acme.entries), ts) ==> o == Aborted(ArchiveRequests)
    ensures o.Aborted? ==> StoppedAt(old(acme.entries), ts, config.mapping, o.at, acme.entries)
  {
    ghost var t := acme.entries;
    o := Prepare(acme, ts);
    if o.Aborted? {
      return;
    }
    var r, names := acme.ReadDir();
    if r.Err? {
      return Aborted(ListRequests);
    }
    ghost var done;
    o, done := SweepOld(acme, names);
    if o.Aborted? {
      assert acme.entries == SweptSome(Prepared(t, ts), done);
      return;
    }
    ghost var w;
    o, w := WriteRequests(acme, config.mapping.Keys, RequestTemplate, acme.entries);
    assert acme.entries == Issued(t, ts, w);
  }

  // ------------------------------------------------------------ properties

  /** The move loop moves an entry of the listing exactly when the filter
      selects it, into the backup under its own name, and leaves every
      other entry where it was; no stale name is left outside the backup. */
  lemma SweptMovesExactlyStale(b: Table)
    requires Backup in b && b[Backup].Dir?
    ensures var r := Swept(b);
            && Backup in r && r[Backup] == Dir(b[Backup].table + Stale(b, b.Keys))
            && (forall n | n in b && n != Backup :: n in r <==> !IsStale(n))
            && (forall n | n in b && n != Backup && !IsStale(n) :: r[n] == b[n])
            && (forall n | n in b && IsStale(n) :: n in r[Backup].table && r[Backup].table[n] == b[n])
            && (forall n | n in r :: n in b && !IsStale(n))
  {
    NamesClassified("", "");
  }

  /** The request files of `keys`: one `web-distributor.<namespace>.conf`
      per key, holding that key's request, all of them stale for the next
      run, and nothing else. */
  lemma RequestFilesMatchKeys(keys: set<string>)
    ensures forall ns | ns in keys :: && RequestFileName(ns) in RequestFiles(keys)
                                      && RequestFiles(keys)[RequestFileName(ns)] == File(AcmeRedirectConfigBuild(ns))
    ensures forall n | n in RequestFiles(keys) :: IsStale(n) && exists ns :: ns in keys && n == RequestFileName(ns)
    ensures |RequestFiles(keys)| == |keys|
  {
    var c := Tabulate(keys, RequestTemplate);
    forall ns | ns in keys
      ensures RequestFileName(ns) in RequestFiles(keys)
              && RequestFiles(keys)[RequestFileName(ns)] == File(AcmeRedirectConfigBuild(ns))
    {
      NamedFileOf(Prefix + ".", ".conf", c, ns);
    }
    forall n | n in RequestFiles(keys) ensures IsStale(n) && exists ns :: ns in keys && n == RequestFileName(ns) {
      NamedFileKey(Prefix + ".", ".conf", c, n);
      NamesClassified("", KeyOf(Prefix + ".", ".conf", n));
    }
    NamedFilesSize(Prefix + ".", ".conf", c);
  }

  /** The rename and the fresh backup: the old backup is under this run's
      archive name, the new backup is empty, and every other entry,
      stale or not, is where it was. */
  lemma PreparedKeepsHistory(t: Table, ts: string)
    requires !ArchiveBlocked(t, ts)
    ensures var p := Prepared(t, ts);
            && Backup in p && p[Backup] == Dir(map[])
            && (Backup in t ==> Archive(ts) in p && p[Archive(ts)] == t[Backup])
            && (forall n | n in t && n != Backup :: n in p && p[n] == t[n])
            && (forall n | n in p :: n in t || n == Backup || n == Archive(ts))
            && Stale(p, p.Keys) == Stale(t, t.Keys)
  {
    NamesClassified(ts, "");
    var p := Prepared(t, ts);
    assert Stale(p, p.Keys).Keys == Stale(t, t.Keys).Keys;
  }

  /** After the move loop: the backup holds exactly the stale entries the
      directory had, the old backup is archived, and every entry the
      filter leaves alone is untouched. */
  lemma SweptKeepsHistory(t: Table, ts: string)
    requires !ArchiveBlocked(t, ts)
    ensures var s := Swept(Prepared(t, ts));
            && Backup in s && s[Backup] == Dir(Stale(t, t.Keys))
            && (Backup in t ==> Archive(ts) in s && s[Archive(ts)] == t[Backup])
            && (forall n | n in t && n != Backup && !IsStale(n) :: n in s && s[n] == t[n])
            && (forall n | n in s :: !IsStale(n) && (n in t || n == Backup || n == Archive(ts)))
  {
    NamesClassified(ts, "");
    var p := Prepared(t, ts);
    PreparedKeepsHistory(t, ts);
    SweptMovesExactlyStale(p);
    assert map[] + Stale(t, t.Keys) == Stale(t, t.Keys);
  }

  /** A completed run: the backup holds exactly the stale entries the
      directory had (the previous run's requests among them), the old
      backup is archived, every other entry is untouched, and the only
      stale names left are this run's requests, one per key of the mapping. */
  lemma RegeneratedKeepsHistory(t: Table, ts: string, m: map<string, string>)
    requires !ArchiveBlocked(t, ts)
    ensures var r := Regenerated(t, ts, m);
            && Backup in r && r[Backup] == Dir(Stale(t, t.Keys))
            && (Backup in t ==> Archive(ts) in r && r[Archive(ts)] == t[Backup])
            && (forall n | n in t && n != Backup && !IsStale(n) :: n in r && r[n] == t[n])
            && (forall ns | ns in m :: && RequestFileName(ns) in r
                                       && r[RequestFileName(ns)] == File(AcmeRedirectConfigBuild(ns)))
            && (forall n | n in r && IsStale(n) :: exists ns :: ns in m && n == RequestFileName(ns))
            && (forall n | n in r :: n in t || n == Backup || n == Archive(ts) || IsStale(n))
  {
    NamesClassified(ts, "");
    SweptKeepsHistory(t, ts);
    RequestFilesMatchKeys(m.Keys);
  }

  /** Every request file is stale for the next run. */
  lemma RequestFilesStale(keys: set<string>)
    ensures forall n | n in RequestFiles(keys) :: IsStale(n)
  {
    forall n | n in RequestFiles(keys) ensures IsStale(n) {
      NamedFileKey(Prefix + ".", ".conf", Tabulate(keys, RequestTemplate), n);
      NamesClassified("", KeyOf(Prefix + ".", ".conf", n));
    }
  }

  lemma StaleOfUnion(s: Table, f: Table)
    requires forall n | n in s :: !IsStale(n)
    requires forall n | n in f :: IsStale(n)
    ensures Stale(s + f, (s + f).Keys) == f
  {
    assert Stale(s + f, (s + f).Keys).Keys == f.Keys;
  }

  /** The stale entries of a completed run's directory are exactly its
      requests. */
  lemma RegeneratedStaleAreRequests(t: Table, ts: string, m: map<string, string>)
    requires !ArchiveBlocked(t, ts)
    ensures var r := Regenerated(t, ts, m); Stale(r, r.Keys) == RequestFiles(m.Keys)
  {
    SweptKeepsHistory(t, ts);
    RequestFilesStale(m.Keys);
    StaleOfUnion(Swept(Prepared(t, ts)), RequestFiles(m.Keys));
  }

  /** Two completed runs in a row: the second run's backup holds exactly
      the requests the first run wrote, and its archive what the first run
      had backed up. */
  lemma NextRunBacksUpRequests(t: Table, ts1: string, ts2: string,
                                                   m1: map<string, string>, m2: map<string, string>)
    requires !ArchiveBlocked(t, ts1) && !ArchiveBlocked(Regenerated(t, ts1, m1), ts2)
    ensures var r := Regenerated(Regenerated(t, ts1, m1), ts2, m2);
            && Backup in r && r[Backup] == Dir(RequestFiles(m1.Keys))
            && Archive(ts2) in r && r[Archive(ts2)] == Dir(Stale(t, t.Keys))
  {
    var r1 := Regenerated(t, ts1, m1);
    RegeneratedKeepsHistory(t, ts1, m1);
    RegeneratedStaleAreRequests(t, ts1, m1);
    RegeneratedKeepsHistory(r1, ts2, m2);
  }
}
