# web-distributor, modelled in Dafny

web-distributor turns one configuration — a home directory, an
acme-redirect request directory and a table from public host names to
backend addresses — into two sets of generated files. The first set is an
nginx virtual host per public name, each terminating TLS with the
certificate acme-redirect keeps for that name and forwarding to the
backend. The second set is one acme-redirect certificate request per
public name. Each run keeps the previous generation. The nginx directory
is rotated `nginx` → `nginx-old` → `nginx-old-<timestamp>`. The previous
requests are moved into `web-distributor-old`, and the old backup is
archived as `web-distributor-old-<timestamp>`. Any failure other than a
missing source of a rename stops the run.

The model follows `src/main.rs` function by function:

- `Settings`: the configuration record and `read_config`.
- `Templates`: the two text templates, with lemmas on where each host name
  and each backend address appears in the text.
- `FileTable`: directories as tables from names to entries. The host
  operations (`rename`, `create_dir_all`, `fs::write`, `read_dir`) are
  methods of a `Directory` class. Each contract states only what the host
  guarantees: NotFound exactly when the source is missing, refusal on an
  occupied destination, possible refusal of any call, and no change when a
  call is refused. Every panic branch of the generator is therefore
  reachable in the model.
- `FileNames`: the naming scheme `prefix + key + suffix` shared by both
  generated sets. It also defines the table holding one file per key,
  written in any order.
- `ProxyRotation`: `generate_webserver_configs`.
- `CertRotation`: `generate_acme_redirect_config`.
- `Driver`: `main` once the configuration path and the timestamp are known.

Each stage is proved against a specification function of the state it
starts from:

- A completed run leaves `Regenerated(old, ts, mapping)`.
- A panic leaves the state described by `StoppedAt` for the step where it
  happened.
- Lemmas on these functions state the preserved history, the exact set of
  generated files and their text, and how successive runs stack up.

The loops over the mapping pick their next key arbitrarily, so every
property holds for every iteration order of the source's `HashMap`.

## Model

| member | source | states |
|---|---|---|
| Settings.ReadConfig | src/main.rs:15-36 | A configuration is loaded exactly when the file parses or is missing. A parsed file gives its own content and writes nothing back. A missing file gives home `/etc/web-distributor`, request directory `/etc/acme-redirect.d` and an empty mapping, and asks for that default to be written back. Anything else fails. |
| Settings.SecondLoadIsStable | src/main.rs:22-29 | Reading back the default that a first run writes gives the same configuration and writes nothing. |
| Templates.NginxProxyBuild | src/main.rs:38-77 | The virtual host for public name `from` and backend `to`: reproduces the `format!` template exactly, with `from` in the server name and the three certificate paths and `to` in `proxy_pass`. |
| Templates.HeadNamesHost | src/main.rs:44-60 | The text before `proxy_pass` contains `server_name <from>;` and the three certificate paths under `/var/lib/acme-redirect/live/<from>/` (`fullchain`, `privkey`, `chain`). |
| Templates.NginxNamesHost | src/main.rs:38-77 | The rendered virtual host contains the server name, all three certificate paths and `proxy_pass http://<to>/;`. |
| Templates.TargetOnlyInProxyPass | src/main.rs:38-77 | Two renderings with the same public name agree on everything before and after the `proxy_pass` directive. The backend address enters only that directive. |
| Templates.TargetDeterminesHost | src/main.rs:74 | Two renderings with the same public name are equal exactly when their backend addresses are. |
| Templates.AcmeRedirectConfigBuild | src/main.rs:79-91 | The certificate request for `namespace`: reproduces the `format!` template exactly, with the namespace as `name` and as the single DNS name. |
| Templates.RequestNamesNamespace | src/main.rs:79-91 | A request opens with `[cert]`, names the namespace as its `name` and as its only DNS name, and ends with the exec list `systemctl reload nginx`. |
| Templates.RequestDeterminesNamespace | src/main.rs:79-91 | Two requests are equal exactly when their namespaces are, so the request of a host name depends on that name alone. |
| FileTable.Directory.Rename | src/main.rs:98-108 | `rename`: NotFound exactly when the source is missing, and always a refusal when the destination is occupied. On success, the entry moves under its new name. On failure, nothing changes. |
| FileTable.Directory.CreateDirAll | src/main.rs:110 | `create_dir_all`: an existing directory is kept and a missing one is created empty. A file in the way is a refusal. On failure, nothing changes. |
| FileTable.Directory.Write | src/main.rs:157-163 | `fs::write` at the top level: creates or truncates the file. A directory in the way is a refusal. On failure, nothing changes. |
| FileTable.Directory.WriteInto | src/main.rs:113-117 | `fs::write` into a sub-directory: a missing sub-directory is NotFound, and a file in its place is a refusal. On failure, nothing changes. |
| FileTable.Directory.MoveInto | src/main.rs:145-151 | `rename(dir/name, dir/sub/name)`: on success the entry moves into the sub-directory under its own name. An occupied target is a refusal. On failure, nothing changes. |
| FileTable.Directory.ReadDir | src/main.rs:134-136 | `read_dir`: on success, the names of the entries, each once. |
| FileNames.FileNameInjective | src/main.rs:114 | Different keys give different generated file names. |
| FileNames.NamedFileOf | src/main.rs:112-118 | After all keys are written, each key's file exists and holds that key's content, whatever order the keys were written in. |
| FileNames.NamedFileKey | src/main.rs:112-118 | Every written file is the file of one of the keys. |
| FileNames.NamedFilesAdd | src/main.rs:112-118 | Writing one more key adds exactly its own file. |
| FileNames.NamedFilesSize | src/main.rs:112-118 | There are exactly as many files as keys. |
| ProxyRotation.ArchiveNameFresh | src/main.rs:95 | Archive names `nginx-old-<ts>` differ from `nginx` and `nginx-old`, and from each other exactly when the timestamps do. |
| ProxyRotation.Rotate | src/main.rs:98-110 | Archives `nginx-old`, demotes `nginx` and creates an empty `nginx`. A missing source is tolerated. The run stops at the first rename only when `nginx-old` exists, and at the second only when `nginx` exists. When both `nginx-old` and the archive name exist, it stops at the first rename with nothing changed. |
| ProxyRotation.WriteHost | src/main.rs:113-117 | One pass of the write loop adds exactly the virtual-host file of the picked name to `nginx`. On failure, nothing changes. |
| ProxyRotation.WriteHosts | src/main.rs:112-118 | After the loop, `nginx` holds the files of the names written so far. A completed loop has written every name of the mapping. A panic names a host of the mapping that is not yet written. |
| ProxyRotation.GenerateWebserverConfigs | src/main.rs:93-119 | A completed run leaves the rotated directory with `nginx` holding one rendered virtual host per entry of the mapping. A panic leaves the state `StoppedAt` describes for its step. |
| ProxyRotation.DemotedKeepsHistory | src/main.rs:98-108 | After the renames, the old backup is under this run's archive name, the old `nginx` is the backup, and `nginx` is gone. Every other entry is untouched, and no other name appears. |
| ProxyRotation.PopulatedKeepsHistory | src/main.rs:93-119 | Any state after the renames keeps that history, and `nginx` holds the files written so far. Every entry of the old directory is still present under some name. |
| ProxyRotation.RotationAbortWritesNothing | src/main.rs:98-110 | A panic during the rotation loses no entry and writes no new content. The entries left are the old entries, possibly renamed. |
| ProxyRotation.ProxyFilesMatchMap | src/main.rs:112-118 | The output holds one `<source>.nginx` per key, containing the virtual host rendered from that key and its target, and nothing else. The file count equals the number of keys. |
| ProxyRotation.PartialOutputIsFinal | src/main.rs:112-118 | A run interrupted while writing leaves only files that already hold their final content. |
| ProxyRotation.TwoRunsKeepThreeGenerations | src/main.rs:93-119 | After two completed runs with different timestamps, `nginx` holds the second run's files and `nginx-old` the first run's. The first archive holds the original backup, and the second archive the original `nginx`. |
| CertRotation.IsStale | src/main.rs:137-147 | The filter of the move loop: an entry is moved exactly when its name starts with `web-distributor` and does not start with `web-distributor-old`. |
| CertRotation.NamesClassified | src/main.rs:137-147 | The filter never selects the backup or an archive. It always selects a request file name `web-distributor.<ns>.conf`, so each run's requests are swept by the next run. |
| CertRotation.Prepare | src/main.rs:126-132 | Archives the backup, tolerating a missing one, and creates an empty `web-distributor-old`. The run stops at the rename only when the backup exists. When the backup and the archive name both exist, it stops with nothing changed. |
| CertRotation.SweepEntry | src/main.rs:137-151 | One pass of the move loop moves an entry the filter selects into the backup and passes over any other. On failure, nothing changes. |
| CertRotation.SweepOld | src/main.rs:134-155 | After the loop over the listing, the stale entries seen so far are in the backup and everything else is in place. A completed loop has seen every entry. A panic names a stale entry not yet moved. |
| CertRotation.WriteRequests | src/main.rs:157-163 | After the write loop, the directory is the swept one plus the requests written so far. A completed loop has written every key. A panic names a key not yet written. |
| CertRotation.GenerateAcmeRedirectConfig | src/main.rs:121-164 | A completed run leaves `Regenerated(old, ts, mapping)`, which depends only on the mapping's keys. A panic leaves the state `StoppedAt` describes for its step: archive rename, backup creation, listing, a move or a write. |
| CertRotation.SweptMovesExactlyStale | src/main.rs:135-155 | An entry is moved into the backup exactly when its name starts with `web-distributor` and not with `web-distributor-old`. Moved entries keep their name and content. Every other entry stays where it was, and no selected name is left outside the backup. |
| CertRotation.RequestFilesMatchKeys | src/main.rs:157-163 | One `web-distributor.<ns>.conf` per key holds that key's request. Every request file belongs to some key and is selected by the filter. The count equals the number of keys. |
| CertRotation.RequestFilesStale | src/main.rs:157-163 | Every request file name is one the next run's filter selects. |
| CertRotation.PreparedKeepsHistory | src/main.rs:126-132 | After the rename and `create_dir_all`, the old backup is under the archive name and the new backup is empty. Every other entry is untouched, and the selected entries are those of the original directory. |
| CertRotation.SweptKeepsHistory | src/main.rs:124-155 | After the move loop, the backup holds exactly the selected entries of the original directory and the old backup is archived. Every unselected entry is untouched. |
| CertRotation.RegeneratedKeepsHistory | src/main.rs:121-164 | After a completed run, the backup holds exactly the original selected entries and the old backup is archived. Unselected entries are untouched. The only selected names left are this run's requests, one per key with its request text. |
| CertRotation.RegeneratedStaleAreRequests | src/main.rs:121-164 | After a completed run, the entries the next run's filter will select are exactly this run's request files. |
| CertRotation.NextRunBacksUpRequests | src/main.rs:121-164 | After a second completed run, the backup holds exactly the requests the first run wrote. The archive holds what the first run had backed up. |
| Driver.Run | src/main.rs:166-188 | A configuration that does not load stops the run with nothing changed. Otherwise the virtual hosts are regenerated first. A panic there leaves the request directory untouched. The requests are regenerated next, from what the first stage left when both paths name one directory. |

## Left out

- TOML parsing and printing: `ReadConfig` receives the file already parsed, or the fact that it does not parse.
- Writing the default configuration back (line 28): the result of that write is discarded by the source. The model reports that the write is requested but does not model the configuration file itself.
- Choosing the configuration path from the arguments (lines 167-171): only the default `/etc/web-distributor.toml` is recorded as a constant.
- The clock: the timestamp is a parameter. Its formatting and the failure when the clock is before the epoch are not modelled.
- Paths: the home directory and the request directory are two `Directory` objects, possibly the same one. One nested inside the other, symbolic links, and a home directory that does not exist yet (treated as an empty one) are not distinguished.
- ProxyRotation.GenerateWebserverConfigs: stops when both `nginx-old` and the archive name exist, because the modelled `rename` refuses any occupied destination. POSIX `rename` replaces an existing file or empty directory there.
- CertRotation.GenerateAcmeRedirectConfig: the same simplification of `rename` applies to `web-distributor-old` and its archive.
- CertRotation.SweepOld: an error reading one listing entry (`entry.unwrap()`, line 136) is folded into the failure of `read_dir` itself. The model's listing is a snapshot taken before any move.
- ProxyRotation.ProxyFilesMatchMap, CertRotation.RegeneratedKeepsHistory and every member built on `ProxyFileName` or `RequestFileName`: each key of the mapping is treated as one flat entry name. The source joins it onto a path (lines 114 and 159), so a key containing `/` is not modelled. A nested key fails the write, `..` writes outside the directory, and an absolute key replaces the path. For such keys the model completes with one flat file per key, which the program does not.
- File names that are not valid UTF-8 (`to_str().unwrap()`) cannot occur: names are strings.
- Panic messages are not modelled; the `Step` of an abort says where the run stopped. The message at line 106 names the wrong paths and has no other effect.
- The iteration order of the `HashMap`: the loops pick keys in an unspecified order, and every contract holds for all orders.
- Other processes changing the directories during a run.
