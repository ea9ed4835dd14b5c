/** `main` once the configuration path is chosen and the timestamp taken:
    load the configuration, regenerate the virtual hosts under the home
    directory, then the certificate requests in the acme-redirect
    directory. The two may be one directory when both paths name it. */
module Driver {
  import opened FileTable
  import opened Settings
  import ProxyRotation
  import CertRotation

  /** The steps at which `generate_webserver_configs` panics. */
  predicate ProxyStep(step: Step) {
    step.ArchiveBackup? || step.DemoteLive? || step.CreateLive? || step.WriteProxy?
  }

  /** The outcome of a run on two different directories, from `h` and `a`
      to `h'` and `a'`: a panic in the first stage leaves the request
      directory as it was, one in the second stage comes after a complete
      first stage. */
  ghost predicate SeparateRun(h: Table, a: Table, ts: string, m: map<string, string>,
                              o: Outcome, h': Table, a': Table) {
    if o.Completed? then
      && !ProxyRotation.ArchiveBlocked(h, ts) && h' == ProxyRotation.Regenerated(h, ts, m)
      && !CertRotation.ArchiveBlocked(a, ts) && a' == CertRotation.Regenerated(a, ts, m)
    else if ProxyStep(o.at) then
      ProxyRotation.StoppedAt(h, ts, m, o.at, h') && a' == a
    else
      && !ProxyRotation.ArchiveBlocked(h, ts) && h' == ProxyRotation.Regenerated(h, ts, m)
      && CertRotation.StoppedAt(a, ts, m, o.at, a')
  }

  /** The outcome of a run when both paths name one directory `t`: the
      second stage starts from what the first one left. */
  ghost predicate SharedRun(t: Table, ts: string, m: map<string, string>, o: Outcome, r: Table) {
    if o.Completed? then
      && !ProxyRotation.ArchiveBlocked(t, ts)
      && !CertRotation.ArchiveBlocked(ProxyRotation.Regenerated(t, ts, m), ts)
      && r == CertRotation.Regenerated(ProxyRotation.Regenerated(t, ts, m), ts, m)
    else if ProxyStep(o.at) then
      ProxyRotation.StoppedAt(t, ts, m, o.at, r)
    else
      && !ProxyRotation.ArchiveBlocked(t, ts)
      && CertRotation.StoppedAt(ProxyRotation.Regenerated(t, ts, m), ts, m, o.at, r)
  }

  /** One run of the generator with the configuration file read as `read`
      and the timestamp `ts`. */
  method Run(read: ReadOutcome, ts: string, home: Directory, acme: Directory) returns (o: Outcome)
    modifies home, acme
    ensures !ReadConfig(read).Loaded? <==> o == Aborted(LoadConfig)
    ensures !ReadConfig(read).Loaded? ==> home.entries == old(home.entries) && acme.entries == old(acme.entries)
    ensures ReadConfig(read).Loaded? && home != acme
            ==> SeparateRun(old(home.entries), old(acme.entries), ts, ReadConfig(read).config.mapping,
                            o, home.entries, acme.entries)
    ensures ReadConfig(read).Loaded? && home == acme
            ==> SharedRun(old(home.entries), ts, ReadConfig(read).config.mapping, o, home.entries)
  {
    var load := ReadConfig(read);
    if load.Failed? {
      return Aborted(LoadConfig);
    }
    o := ProxyRotation.GenerateWebserverConfigs(home, load.config, ts);
    if o.Aborted? {
      return;
    }
    o := CertRotation.GenerateAcmeRedirectConfig(acme, load.config, ts);
  }
}
