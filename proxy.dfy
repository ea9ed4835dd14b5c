/** `generate_webserver_configs`: rotation of the nginx output directory
    under `home` and regeneration of one virtual host per mapping entry.

    Rotation is two renames: `nginx-old` becomes `nginx-old-<ts>`, then
    `nginx` becomes `nginx-old`. A missing source is not an error; any other
    failure panics. Then `nginx` is created afresh and filled with one
    `<source>.nginx` file per public host name. */
module ProxyRotation {
  import opened FileTable
  import opened Templates
  import opened Settings
  import opened FileNames

  /** The directory nginx reads from. */
  const Live: string := "nginx"
  /** The previous generation. */
  const Backup: string := "nginx-old"

  /** Where the previous generation goes when a run with timestamp `ts`
      starts. */
  function Archive(ts: string): string {
    "nginx-old-" + ts
  }

  /** The virtual-host file of public host name `source`: `<source>.nginx`. */
  function ProxyFileName(source: string): string {
    FileName("", ".nginx", source)
  }

  /** The archive name is neither of the two live names, and it tells the
      timestamps apart. */
  lemma ArchiveNameFresh(ts: string, ts': string)
    ensures Archive(ts) != Live && Archive(ts) != Backup
    ensures Archive(ts) == Archive(ts') <==> ts == ts'
  {
    assert |Archive(ts)| > |Backup| > |Live|;
    if Archive(ts) == Archive(ts') {
      assert ts == Archive(ts)[10..];
      assert ts' == Archive(ts')[10..];
    }
  }

  /** The files written for the host names in `keys` when each host name
      `s` gets the text `build(s, m[s])`. */
  ghost function HostFiles(m: map<string, string>, keys: set<string>, build: (string, string) -> string): Table
    requires keys <= m.Keys
  {
    NamedFiles("", ".nginx", Rendered(m, keys, build))
  }

  /** The virtual-host template, as a value. */
  const ProxyTemplate: (string, string) -> string := (source, target) => NginxProxyBuild(source, target)

  /** The virtual-host files of the host names in `keys`. */
  ghost function ProxyFiles(m: map<string, string>, keys: set<string>): Table
    requires keys <= m.Keys
  {
    HostFiles(m, keys, ProxyTemplate)
  }

  lemma HostFilesAdd(m: map<string, string>, keys: set<string>, s: string, build: (string, string) -> string)
    requires keys <= m.Keys && s in m
    ensures HostFiles(m, keys + {s}, build) == HostFiles(m, keys, build)[ProxyFileName(s) := File(build(s, m[s]))]
  {
    RenderedAdd(m, keys, s, build);
    NamedFilesAdd("", ".nginx", Rendered(m, keys, build), s, build(s, m[s]));
  }

  /** The host refuses the first rename outright: both the backup and this
      run's archive name are taken. */
  predicate ArchiveBlocked(t: Table, ts: string) {
    RenameBlocked(t, Backup, Archive(ts))
  }

  /** After the first rename (or its tolerated NotFound). */
  function Archived(t: Table, ts: string): Table {
    RenamedIfPresent(t, Backup, Archive(ts))
  }

  /** After the second rename (or its tolerated NotFound). */
  function Demoted(t: Table, ts: string): Table {
    var a := Archived(t, ts);
    if Live in a then Moved(a, Live, Backup) else a
  }

  /** After the fresh `nginx` directory has received the files of `keys`. */
  ghost function Populated(t: Table, ts: string, m: map<string, string>, keys: set<string>): Table
    requires keys <= m.Keys
  {
    Demoted(t, ts)[Live := Dir(ProxyFiles(m, keys))]
  }

  /** The home directory after a run that completes. */
  ghost function Regenerated(t: Table, ts: string, m: map<string, string>): Table {
    Populated(t, ts, m, m.Keys)
  }

  /** One write extends the nginx directory by one file. */
  lemma WriteHostStep(d: Table, m: map<string, string>, w: set<string>, s: string, build: (string, string) -> string)
    requires w <= m.Keys && s in m
    ensures var before := d[Live := Dir(HostFiles(m, w, build))];
            before[Live := Dir(before[Live].table[ProxyFileName(s) := File(build(s, m[s]))])]
            == d[Live := Dir(HostFiles(m, w + {s}, build))]
  {
    HostFilesAdd(m, w, s, build);
  }

  /** One write of the loop: the file of host name `s` joins the nginx
      directory, or the home directory is left as it was. */
  method WriteHost(home: Directory, m: map<string, string>, build: (string, string) -> string,
                   ghost d: Table, ghost w: set<string>, s: string) returns (r: IoResult)
    modifies home
    requires w <= m.Keys && s in m
    requires home.entries == d[Live := Dir(HostFiles(m, w, build))]
    ensures r == Ok ==> home.entries == d[Live := Dir(HostFiles(m, w + {s}, build))]
    ensures r != Ok ==> home.entries == old(home.entries)
  {
    r := home.WriteInto(Live, ProxyFileName(s), build(s, m[s]));
    WriteHostStep(d, m, w, s, build);
  }

  /** The loop of `generate_webserver_configs` that writes one
      `<source>.nginx` per entry of `m` into the freshly created `nginx`,
      stated for any template `build`; the order of the entries is the
      host's. */
  method WriteHosts(home: Directory, m: map<string, string>, build: (string, string) -> string, ghost d: Table)
    returns (o: Outcome, ghost written: set<string>)
    modifies home
    requires home.entries == d[Live := Dir(map[])]
    ensures written <= m.Keys && home.entries == d[Live := Dir(HostFiles(m, written, build))]
    ensures o.Completed? ==> written == m.Keys
    ensures o.Aborted? ==> o.at.WriteProxy? && o.at.source in m && o.at.source !in written
  {
    NamedFilesEmpty("", ".nginx");
    assert Rendered(m, {}, build) == map[];
    var pending := m.Keys;
    written := {};
    while pending != {}
      invariant pending !! written && pending + written == m.Keys
      invariant home.entries == d[Live := Dir(HostFiles(m, written, build))]
      decreases pending
    {
      var source :| source in pending;
      var r := WriteHost(home, m, build, d, written, source);
      if r.Err? {
        return Aborted(WriteProxy(source)), written;
      }
      pending := pending - {source};
      written := written + {source};
    }
    assert written == m.Keys;
    o := Completed;
  }

  /** What the home directory holds when a run panics at one of
      the three rotation steps, starting from `t`: a NotFound never stops
      the run, so the first rename failed on an existing `nginx-old`, the
      second on an existing `nginx`. */
  ghost predicate RotationStopped(t: Table, ts: string, step: Step, r: Table) {
    match step
    case ArchiveBackup => Backup in t && r == t
    case DemoteLive => !ArchiveBlocked(t, ts) && Live in t && r == Archived(t, ts)
    case CreateLive => !ArchiveBlocked(t, ts) && r == Demoted(t, ts)
    case _ => false
  }

  /** What the home directory holds when a run panics at `step`. */
  ghost predicate StoppedAt(t: Table, ts: string, m: map<string, string>, step: Step, r: Table) {
    if step.WriteProxy? then
      && !ArchiveBlocked(t, ts) && step.source in m
      && exists w :: w <= m.Keys && step.source !in w && r == Populated(t, ts, m, w)
    else
      RotationStopped(t, ts, step, r)
  }

  /** The first part of `generate_webserver_configs`: the two renames and
      the creation of a fresh, empty `nginx`. */
  method Rotate(home: Directory, ts: string) returns (o: Outcome)
    modifies home
    ensures o.Completed? ==> !ArchiveBlocked(old(home.entries), ts)
                             && home.entries == Demoted(old(home.entries), ts)[Live := Dir(map[])]
    ensures ArchiveBlocked(old(home.entries), ts) ==> o == Aborted(ArchiveBackup)
    ensures o.Aborted? ==> RotationStopped(old(home.entries), ts, o.at, home.entries)
  {
    ghost var t := home.entries;
    ArchiveNameFresh(ts, ts);
    var r := home.Rename(Backup, Archive(ts));
    if r.Err? && r.error != NotFound {
      return Aborted(ArchiveBackup);
    }
    assert home.entries == Archived(t, ts);
    r := home.Rename(Live, Backup);
    if r.Err? && r.error != NotFound {
      return Aborted(DemoteLive);
    }
    assert home.entries == Demoted(t, ts);
    r := home.CreateDirAll(Live);
    if r.Err? {
      return Aborted(CreateLive);
    }
    o := Completed;
  }

  /** `generate_webserver_configs(config, ts)` on the home directory. */
  method GenerateWebserverConfigs(home: Directory, config: Config, ts: string) returns (o: Outcome)
    modifies home
    ensures o.Completed? ==> !ArchiveBlocked(old(home.entries), ts)
                             && home.entries == Regenerated(old(home.entries), ts, config.mapping)
    ensures ArchiveBlocked(old(home.entries), ts) ==> o == Aborted(ArchiveBackup)
    ensures o.Aborted? ==> StoppedAt(old(home.entries), ts, config.mapping, o.at, home.entries)
  {
    ghost var t := home.entries;
    o := Rotate(home, ts);
    if o.Aborted? {
      return;
    }
    ghost var w;
    o, w := WriteHosts(home, config.mapping, ProxyTemplate, Demoted(t, ts));
    assert home.entries == Populated(t, ts, config.mapping, w);
  }

  // ------------------------------------------------------------ properties

  /** The two renames keep every generation: the old backup is under this
      run's archive name, the old `nginx` is the backup, `nginx` is gone,
      and every other entry is untouched. */
  lemma DemotedKeepsHistory(t: Table, ts: string)
    requires !ArchiveBlocked(t, ts)
    ensures var d := Demoted(t, ts);
            && Live !in d
            && (Backup in t ==> Archive(ts) in d && d[Archive(ts)] == t[Backup])
            && (Live in t ==> Backup in d && d[Backup] == t[Live])
            && (Live !in t ==> Backup !in d)
            && (forall n | n in t && n != Live && n != Backup :: n in d && d[n] == t[n])
            && (forall n | n in d :: n in t || n == Backup || n == Archive(ts))
  {
    ArchiveNameFresh(ts, ts);
  }

  /** A state the run reaches after the renames, before or after all
      writes: the history of `DemotedKeepsHistory`, `nginx` holding the
      files written so far, and no entry of the old table lost. */
  lemma PopulatedKeepsHistory(t: Table, ts: string, m: map<string, string>, w: set<string>)
    requires !ArchiveBlocked(t, ts) && w <= m.Keys
    ensures var r := Populated(t, ts, m, w);
            && Live in r && r[Live] == Dir(ProxyFiles(m, w))
            && (Backup in t ==> Archive(ts) in r && r[Archive(ts)] == t[Backup])
            && (Live in t ==> Backup in r && r[Backup] == t[Live])
            && (Live !in t ==> Backup !in r)
            && (forall n | n in t && n != Live && n != Backup :: n in r && r[n] == t[n])
            && (forall n | n in r :: n in t || n == Live || n == Backup || n == Archive(ts))
            && (forall n | n in t :: t[n] in r.Values)
  {
    ArchiveNameFresh(ts, ts);
    DemotedKeepsHistory(t, ts);
    var r := Populated(t, ts, m, w);
    forall n | n in t ensures t[n] in r.Values {
      if n == Live {
        assert r[Backup] == t[n];
      } else if n == Backup {
        assert r[Archive(ts)] == t[n];
      } else {
        assert r[n] == t[n];
      }
    }
  }

  /** A run that panics during the rotation has written nothing: the
      entries it leaves are the old entries, possibly renamed. */
  lemma RotationAbortWritesNothing(t: Table, ts: string, step: Step, r: Table)
    requires RotationStopped(t, ts, step, r)
    ensures forall n | n in r :: r[n] in t.Values
    ensures forall n | n in t :: t[n] in r.Values
  {
    ArchiveNameFresh(ts, ts);
    forall n | n in r ensures r[n] in t.Values {
      if step.DemoteLive? && n == Archive(ts) && Backup in t {
        assert t[Backup] == r[n];
      } else if step.CreateLive? && n == Backup && Live in t {
        assert t[Live] == r[n];
      } else if step.CreateLive? && n == Archive(ts) && Backup in t {
        assert t[Backup] == r[n];
      } else {
        assert t[n] == r[n];
      }
    }
    forall n | n in t ensures t[n] in r.Values {
      if step.DemoteLive? && n == Backup {
        assert r[Archive(ts)] == t[n];
      } else if step.CreateLive? && n == Live {
        assert r[Backup] == t[n];
      } else if step.CreateLive? && n == Backup {
        assert r[Archive(ts)] == t[n];
      } else {
        assert r[n] == t[n];
      }
    }
  }

  /** The virtual-host files of `keys`: one `<source>.nginx` per host name,
      holding its virtual host, and nothing else. */
  lemma ProxyFilesMatchMap(m: map<string, string>, keys: set<string>)
    requires keys <= m.Keys
    ensures forall s | s in keys :: && ProxyFileName(s) in ProxyFiles(m, keys)
                                    && ProxyFiles(m, keys)[ProxyFileName(s)] == File(NginxProxyBuild(s, m[s]))
    ensures forall n | n in ProxyFiles(m, keys) :: exists s :: s in keys && n == ProxyFileName(s)
    ensures |ProxyFiles(m, keys)| == |keys|
  {
    var c := Rendered(m, keys, ProxyTemplate);
    forall s | s in keys
      ensures ProxyFileName(s) in ProxyFiles(m, keys)
              && ProxyFiles(m, keys)[ProxyFileName(s)] == File(NginxProxyBuild(s, m[s]))
    {
      NamedFileOf("", ".nginx", c, s);
    }
    forall n | n in ProxyFiles(m, keys) ensures exists s :: s in keys && n == ProxyFileName(s) {
      NamedFileKey("", ".nginx", c, n);
    }
    NamedFilesSize("", ".nginx", c);
  }

  /** A run that panics while writing leaves only files that already hold
      what a completed run would give them. */
  lemma PartialOutputIsFinal(m: map<string, string>, w: set<string>)
    requires w <= m.Keys
    ensures forall n | n in ProxyFiles(m, w) :: n in ProxyFiles(m, m.Keys) && ProxyFiles(m, w)[n] == ProxyFiles(m, m.Keys)[n]
  {
    forall n | n in ProxyFiles(m, w) ensures n in ProxyFiles(m, m.Keys) && ProxyFiles(m, w)[n] == ProxyFiles(m, m.Keys)[n] {
      var c := Rendered(m, w, ProxyTemplate);
      NamedFileKey("", ".nginx", c, n);
      var s := KeyOf("", ".nginx", n);
      NamedFileOf("", ".nginx", c, s);
      NamedFileOf("", ".nginx", Rendered(m, m.Keys, ProxyTemplate), s);
    }
  }

  /** Two completed runs in a row, with different timestamps, keep three
      generations: the second run's files in `nginx`, the first run's in
      `nginx-old`, and what `nginx` held before the first run under the
      second run's archive name. */
  lemma TwoRunsKeepThreeGenerations(t: Table, ts1: string, ts2: string,
                                                         m1: map<string, string>, m2: map<string, string>)
    requires !ArchiveBlocked(t, ts1) && ts1 != ts2 && Archive(ts2) !in t
    ensures !ArchiveBlocked(Regenerated(t, ts1, m1), ts2)
    ensures var r := Regenerated(Regenerated(t, ts1, m1), ts2, m2);
            && r[Live] == Dir(ProxyFiles(m2, m2.Keys))
            && Backup in r && r[Backup] == Dir(ProxyFiles(m1, m1.Keys))
            && (Live in t ==> Archive(ts2) in r && r[Archive(ts2)] == t[Live])
            && (Backup in t ==> Archive(ts1) in r && r[Archive(ts1)] == t[Backup])
  {
    ArchiveNameFresh(ts1, ts2);
    ArchiveNameFresh(ts1, ts1);
    var r1 := Regenerated(t, ts1, m1);
    PopulatedKeepsHistory(t, ts1, m1, m1.Keys);
    PopulatedKeepsHistory(r1, ts2, m2, m2.Keys);
  }
}
