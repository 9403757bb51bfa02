# snmp_exporter sidecar: transactional config update, in Dafny

The sidecar of this snmp_exporter fork keeps one configuration file that a
remote controller can replace (`UpdateConfigReload`) or empty
(`ResetConfigReload`). It also binds the exporter to the zone that first
updated it. Each call runs one transaction:

1. Check that a config path is configured.
2. Validate the command. Every violation is collected.
3. Check the zone: an unbound service accepts any zone, a bound one only its own.
4. Back up the config file (rename to `<path>.del`), write the new text, and ask
   the exporter to reload.
5. In a deferred step, either commit or roll back:
   - commit: record the zone and the time, then delete the backup;
   - roll back: restore the backup and keep the recorded zone and time.

The project models this protocol and the file helpers it is built from:

- rename-based backup, restore and clean-up;
- the loops that apply these to every file a pattern matches and collect the
  errors;
- the write and remove loops;
- the recursive directory scan;
- the error values and the text they print.

Files:

| file | module | models |
|---|---|---|
| `wrappers.dfy` | `Wrappers` | `Option` |
| `strings.dfy` | `Strings` | the Go string functions the core calls: `strings.TrimSpace` (with the `unicode.IsSpace` set), `HasSuffix`, `TrimSuffix`, `Join`, decimal `%d`, quoting `%q` |
| `errs.dfy` | `Errs` | `sidecar/errs/error.go`, and one `Err` datatype for the Go errors the core builds or passes on, with their `Error()` text |
| `fsutil.dfy` | `FsUtil` | `sidecar/utils/fs/util.go` |
| `config_file.dfy` | `ConfigFile` | `sidecar/config_file.go` |
| `sidecar.dfy` | `Sidecar` | `sidecar/sidecar.go` |

The host's files are a `FileSystem` object whose only field maps each path to
its content. The helpers take this object and change it through the three
package `os` calls that change files: `Rename`, `Remove` and `WriteFile`. Each of
these methods is proved equal to a specification function (`OsRename`,
`OsRemove`, `OsWriteFile`).

Every loop and stateful method is proved equal to a specification function of
the old state. For example, `BackupDirFiles` is proved equal to `BackupDir`,
and `UpdateConfigReload` to `Sidecar.Update`. The properties are then lemmas
about those functions.

The environment enters as parameters:

- The error of a package os call other than "does not exist" is injected as
  `fault: Option<string>`, the error text. A loop takes `faults`, a map from
  the path each call is made for to that text.
- What `filepath.Glob` returned is an input (`GlobResult`). Its only error is a
  bad pattern.
- The YAML parser is a function from the text to its error text, if any.
- The reload reply is an `Option<Err>`.
- `time.Now()` is a number `now`, and the zero `time.Time` is 0.
- The tree `ScanDir` reads is a `Listing` value. It records what `os.ReadDir`
  and `os.ReadFile` return.

Behaviour of the code that the lemmas make explicit:

- **Absent config file.** Suppose the config file did not exist before an
  update. Backup and restore then both do nothing, so a failed reload leaves
  the new text in place (`UpdateFailureOfAbsentFileKeepsNewText`). The model
  follows the code here; it does not claim that the old state always comes
  back.
- **Restore after a failed backup.** The deferred restore also runs when the
  backup itself failed. If a `.del` file was left from before, that stale
  content replaces the current config file
  (`TransactBackupFailureRestoresStale`).
- **No timestamp ordering.** On success the update time is set to `now`. No
  ordering with the previous time is promised. Only `now > 0` is needed, for
  the invariant "bound exactly when stamped" (`RuntimeConsistentKept`).
- **Commit order.** On success the code records the zone and time and then
  deletes the backup. The model deletes the backup first and records the zone
  and time afterwards. A failed deletion is only logged and never changes the
  result, so in this sequential model the order is not observable.
- **Timeouts.** `ctx` is never read by the code, so there is no timeout path.

## Model

| member | source | states |
|---|---|---|
| Errs.StringErrorsKeepText | sidecar/errs/error.go:25-58 | `Error()` of each string-typed error returns its string unchanged, and building the error back from that text gives the same error |
| Errs.ValidateError.Prefix | sidecar/errs/error.go:65-67 | the prefixed error's text is the prefix followed by the original text |
| Errs.ValidateError.Suffix | sidecar/errs/error.go:73-75 | the suffixed error's text is the original text followed by the suffix |
| Errs.PrefixSuffixCompose | sidecar/errs/error.go:65-79 | two prefixes compose into one prefix (outermost first), two suffixes into one suffix, and prefixing commutes with suffixing |
| Errs.ValidateErrorsError | sidecar/errs/error.go:83-94 | the builder loop produces "[", the messages joined by ", ", then "]" |
| Errs.ValidateErrorsTextSmall | sidecar/errs/error.go:83-94 | an empty list prints "[]"; a single error prints its message in brackets |
| Errs.ValidateErrorsTextLength | sidecar/errs/error.go:83-94 | the length is 2 for the brackets, plus every message, plus 2 for each ", " seam |
| Errs.ValidateErrorsPrefix | sidecar/errs/error.go:96-105 | an empty list comes back as the same list; otherwise the result has the same length and its i-th element is the i-th error prefixed |
| Errs.ValidateErrorsSuffix | sidecar/errs/error.go:115-124 | an empty list comes back as the same list; otherwise the result has the same length and its i-th element is the i-th error suffixed |
| Errs.ErrorsPkgError | sidecar/errs/error.go:164-172 | the messages of all errors joined by ", "; an empty package gives "" |
| Strings.JoinFront | sidecar/errs/error.go:164-172 | `Join` agrees with the usual front-first reading: the first element, the separator, then the join of the rest |
| Strings.BlankIffAllSpace | sidecar/sidecar.go:41-44 | a text counts as blank (`TrimSpace` gives "") exactly when every character of it is a `unicode.IsSpace` space |
| Strings.TrimSpaceIdempotent | sidecar/sidecar.go:41 | trimming the trimmed zone again changes nothing |
| Strings.ItoaRoundTrip | sidecar/utils/fs/util.go:261 | the decimal digits written for an index read back as that index |
| FsUtil.FileSystem.Rename | sidecar/utils/fs/util.go:229 | `os.Rename`: a fault leaves the files unchanged; a missing source reports "does not exist"; otherwise the source's content moves to the destination, replacing what was there |
| FsUtil.FileSystem.Remove | sidecar/utils/fs/util.go:239 | `os.Remove`: a fault leaves the files unchanged; a missing path reports "does not exist"; otherwise the path is removed |
| FsUtil.FileSystem.WriteFile | sidecar/utils/fs/util.go:48 | `os.WriteFile`: a fault leaves the files unchanged; otherwise the path holds exactly the data |
| FsUtil.BackupFile | sidecar/utils/fs/util.go:247-254 | renames `p` to `p.del` treating "does not exist" as success and wrapping any other error as "Move file …"; the new files and the error equal `BackedUp` |
| FsUtil.RestoreFile | sidecar/utils/fs/util.go:227-234 | renames `p.del` back to `p` treating "does not exist" as success and wrapping any other error as "Restore file …"; the result equals `Restored` |
| FsUtil.CleanBackupFile | sidecar/utils/fs/util.go:237-244 | removes `p.del` treating "does not exist" as success and wrapping any other error as "Remove backup file …"; the result equals `CleanedBackup` |
| FsUtil.SingleFileErrIffFault | sidecar/utils/fs/util.go:227-254 | each single-file operation returns nil exactly when its os call does not fault (so a missing file is never an error); a faulted call changes nothing and returns the wrapped error text |
| FsUtil.SingleFileFrame | sidecar/utils/fs/util.go:227-254 | the single-file operations touch no path other than `p` and `p.del` |
| FsUtil.BackupMovesContent | sidecar/utils/fs/util.go:246-254 | after a backup of an existing `p`, `p` is gone and `p.del` holds its former content; with no `p` nothing changes |
| FsUtil.RestoreMovesContent | sidecar/utils/fs/util.go:226-234 | after a restore there is no `p.del`, and `p` holds what `p.del` held; with no `p.del` nothing changes |
| FsUtil.RestoreIdempotent | sidecar/utils/fs/util.go:226-234 | a second restore changes nothing and reports nothing |
| FsUtil.CleanKeepsOrigin | sidecar/utils/fs/util.go:236-244 | clean-up removes exactly `p.del` and never touches `p` |
| FsUtil.BackupThenRestore | sidecar/utils/fs/util.go:227-254 | backup followed by restore gives back the original files with no error, whenever no `p.del` existed before |
| FsUtil.BackupThenClean | sidecar/utils/fs/util.go:237-254 | backup followed by clean-up removes `p` and any `p.del`, and nothing else |
| FsUtil.BackupDirFiles | sidecar/utils/fs/util.go:206-224 | a bad pattern gives the wrapped "Search files …" error; otherwise every match is backed up in order, past failures, and the errors are collected into an `ErrorList` (nil when there are none); the result equals `BackupDir` |
| FsUtil.RestoreDirFiles | sidecar/utils/fs/util.go:160-180 | globs `pattern.del`, restores the origin (the match with ".del" trimmed) of each match in order, past failures, and collects the errors; the result equals `RestoreDir` |
| FsUtil.CleanBackupDirFiles | sidecar/utils/fs/util.go:183-203 | globs `pattern.del`, cleans the origin of each match in order, past failures, and collects the errors; the result equals `CleanBackupDir` |
| FsUtil.BatchErrsIffFaults | sidecar/utils/fs/util.go:160-224 | each loop reports exactly one error per match whose per-file call faults (for restore and clean-up, per match whose trimmed origin faults), so none exactly when no call faults |
| FsUtil.CleanedAllRemovesBackups | sidecar/utils/fs/util.go:183-203 | when no clean-up faults, no matched backup remains afterwards and no new file appears |
| FsUtil.DirOpsErrIff | sidecar/utils/fs/util.go:160-224 | the directory operations return nil exactly when the pattern is valid and no per-file call faults; a bad pattern changes no file |
| FsUtil.BackedUpAllFrame | sidecar/utils/fs/util.go:206-224 | files that are neither a match nor a match's backup name are left untouched |
| FsUtil.RestoredAllFrame | sidecar/utils/fs/util.go:160-203 | restore and clean-up loops leave untouched every file that is neither the origin of a match nor that origin's backup name |
| FsUtil.RestoreBackupCommute | sidecar/utils/fs/util.go:227-254 | a restore and a backup of unrelated files commute |
| FsUtil.BackupDirThenRestoreDir | sidecar/utils/fs/util.go:160-224 | backing up all matches and then restoring from their `.del` names gives back exactly the original files with no error, when no match is repeated, no backup name pre-exists, and no match is another's backup name |
| FsUtil.WriteDirFiles | sidecar/utils/fs/util.go:35-59 | a mkdir failure returns an empty list and the wrapped error; otherwise each entry is written under `dir`, successful paths go into `writtenFiles` and failures into an `ErrorList`; equals `WriteDir` |
| FsUtil.WriteDirOutcome | sidecar/utils/fs/util.go:35-59 | a mkdir failure writes and reports nothing; otherwise `writtenFiles` is exactly the unfaulted joined paths in input order, and the error is nil exactly when mkdir and every write succeed |
| FsUtil.WrittenAllReports | sidecar/utils/fs/util.go:44-58 | every entry is accounted for exactly once, as a written path or as an error |
| FsUtil.UnfaultedWritesSnoc | sidecar/utils/fs/util.go:46-53 | the front-first list of successful writes agrees with the order the loop appends them |
| FsUtil.WrittenAllFiles | sidecar/utils/fs/util.go:46-53 | with no joined path repeated, each successful write leaves its path holding its content, and every other file is unchanged |
| FsUtil.RemoveFiles | sidecar/utils/fs/util.go:61-74 | tries to remove every path in order, wrapping each failure (a missing file included) as "Remove file …"; equals `RemovedAll` with its errors collected |
| FsUtil.RemoveFilesByPattern | sidecar/utils/fs/util.go:77-95 | a bad pattern changes nothing and returns the wrapped "Search files …" error; otherwise it is the removal loop over the matches |
| FsUtil.RemovedAllEffect | sidecar/utils/fs/util.go:61-95 | exactly the listed paths whose removal does not fault are removed; no error means every path existed and none faulted; with no path repeated, the converse holds too |
| FsUtil.ErrorListError | sidecar/utils/fs/util.go:256-267 | the builder loop writes `error[i]: <message>` for each error, separated by "\n" with no newline at the end |
| Errs.ErrorListTextEmptyIff | sidecar/utils/fs/util.go:256-267 | the text is empty exactly for the empty list |
| Errs.ErrorListTextLines | sidecar/utils/fs/util.go:256-267 | one error prints `error[0]: <message>`; each further error adds "\n" and its numbered line |
| FsUtil.NormFilename | sidecar/utils/fs/util.go:97-105 | the result has no character of the bad-character class and is no longer than the input |
| FsUtil.NormFilenameIsNormFrom | sidecar/utils/fs/util.go:102-105 | collapsing maximal runs agrees with the character-at-a-time reading: good characters are kept in order, and the first bad character of a run writes "_" while the rest write nothing |
| FsUtil.NormFilenameFixedIff | sidecar/utils/fs/util.go:102-105 | a name comes back unchanged exactly when it has no bad character |
| FsUtil.NormFilenameIdempotent | sidecar/utils/fs/util.go:102-105 | normalising twice is normalising once |
| FsUtil.NormFilenameOneBad | sidecar/utils/fs/util.go:97-105 | a single bad character between good parts becomes "_" |
| FsUtil.NormFilenameGoodPrefix | sidecar/utils/fs/util.go:102-105 | a prefix with no bad character is copied unchanged |
| FsUtil.IsMatch | sidecar/utils/fs/util.go:111-118 | true exactly when some listed suffix ends the name (so false for an empty list) |
| FsUtil.ScanDir | sidecar/utils/fs/util.go:121-153 | lists the directory, recurses into sub-directories, reads and hands to the consumer each file whose name matches, and stops at the first listing, read or consumer error with the wrapped message; equals `Scanned` |
| FsUtil.ScanAgainstMatching | sidecar/utils/fs/util.go:121-153 | the files handed to the consumer are a prefix of all matching readable files in scan order; the scan returns nil exactly when every listing and every matching read succeeds and the consumer accepts each file, and then it has handed over all of them |
| FsUtil.ScanStops | sidecar/utils/fs/util.go:121-153 | the scan stops at the first file the consumer rejects: every file handed over before the last was accepted, and on success every one was |
| FsUtil.ScanAgainstEvents | sidecar/utils/fs/util.go:121-153 | against the reference list of events the whole tree gives in scan order (readable match, unreadable match, unlistable directory), the scan hands over exactly the files read up to the first failed listing, failed read or rejected file, and returns an error exactly when such an event exists |
| FsUtil.HandedOverCut | sidecar/utils/fs/util.go:121-153 | nothing after a stopping event (a failed listing or read, or a rejected file) is handed over |
| FsUtil.HandedOverConcat | sidecar/utils/fs/util.go:121-153 | scanning one part of the tree after another stops in the first part if it halts there, and otherwise goes on to the second |
| FsUtil.MatchingPathsMatch | sidecar/utils/fs/util.go:137-147 | every path handed to the consumer ends with one of the suffixes |
| ConfigFile.ConfigFileUtil.BackupConfigFile | sidecar/config_file.go:26-28 | exactly `BackupFile` on the configured path |
| ConfigFile.ConfigFileUtil.CleanBackupConfigFile | sidecar/config_file.go:30-32 | exactly `CleanBackupFile` on the configured path |
| ConfigFile.ConfigFileUtil.RestoreConfigFile | sidecar/config_file.go:34-36 | exactly `RestoreFile` on the configured path |
| ConfigFile.ConfigFileUtil.WriteConfigFile | sidecar/config_file.go:38-44 | the write with its failure wrapped as "Write config file …"; equals `WrittenConfig` |
| ConfigFile.WriteConfigResult | sidecar/config_file.go:38-44 | a successful write leaves the path holding exactly the text, touches nothing else and returns nil; a failed one changes nothing and returns the wrapped error |
| ConfigFile.BackupWriteRestore | sidecar/config_file.go:26-44 | for an existing config file, backup, then a write (faulted or not), then restore, leaves the file with its old content and no `.del` |
| ConfigFile.BackupWriteClean | sidecar/config_file.go:26-44 | backup, write, clean-up leaves the file holding the new text and no `.del` |
| ConfigFile.AbsentConfigNotRestored | sidecar/config_file.go:26-36 | with no config file and no `.del`, backup and restore both do nothing, so backup, write, restore leaves the new text in place |
| Sidecar.UpdateConfigCmd.Validate | sidecar/sidecar.go:39-63 | the zone is replaced by its trimmed form; the result is the violations in checking order (blank zone, blank text, then the parse error prefixed "Invalid Yaml: " after "error parsing config file: "); equals `Violations` |
| Sidecar.ViolationsExact | sidecar/sidecar.go:39-55 | every check always runs: the number of violations is the number of failed checks; the blank-zone and blank-text messages appear exactly when those checks fail; the list is empty exactly when the zone and text are not blank and the text parses |
| Sidecar.ViolationsOrder | sidecar/sidecar.go:39-55 | the violations appear in checking order: zone first, blank text next, the parse error last |
| Sidecar.BlankTrimmed | sidecar/sidecar.go:41 | the trimmed zone is blank exactly when the zone was |
| Sidecar.ZoneMismatch | sidecar/sidecar.go:219-229 | no error exactly when no zone is bound or the bound zone equals the command's |
| Sidecar.Reloaded | sidecar/sidecar.go:249-256 | the reload fails exactly when the reply is an error |
| Sidecar.SidecarService.AssertZoneIdMatch | sidecar/sidecar.go:219-229 | returns the mismatch `ValidateError` exactly as `ZoneMismatch` |
| Sidecar.SidecarService.DoReload | sidecar/sidecar.go:249-256 | sends one reload request and wraps an error reply as "sidecar failed to reload config"; the runtime is unchanged |
| Sidecar.SidecarService.GetRuntimeInfo | sidecar/sidecar.go:117-125 | returns the brand "snmp-exporter-mod", the bound zone and the last update time, changing nothing |
| Sidecar.SidecarService.Transaction | sidecar/sidecar.go:144-170 | backup, write and reload, each only if the previous succeeded, then clean-up on success or restore on failure; returns the first error; equals `Transact` |
| Sidecar.SidecarService.UpdateConfigReload | sidecar/sidecar.go:127-171 | missing path check, validation, zone check, then the transaction, recording zone and `now` only on success; the new files, runtime, error and whether a reload was sent equal `Update` |
| Sidecar.SidecarService.ResetConfigReload | sidecar/sidecar.go:173-217 | missing path check, blank-zone check, zone check, then the transaction with the empty text, unbinding and zeroing the time only on success; equals `Reset` |
| Sidecar.TransactSucceedsIff | sidecar/sidecar.go:146-170 | the transaction succeeds exactly when backup, write and reload do; a reload is asked for exactly when backup and write succeed; on success the path holds the new text, and with a clean-up that does not fault no `.del` remains |
| Sidecar.TransactReturnsFirstError | sidecar/sidecar.go:146-170 | a failed transaction returns the error of the first failing step (backup "Move file …", write "Write config file …", or the reply wrapped as "sidecar failed to reload config"); faults of the deferred restore or clean-up never change it |
| Sidecar.TransactFailureRestores | sidecar/sidecar.go:146-170 | with no stale `.del` and a restore that does not fault, a failed transaction leaves the files as they were, except that a config file that did not exist keeps the text written before a failed reload |
| Sidecar.TransactBackupFailureRestoresStale | sidecar/sidecar.go:153-161 | when the backup fails the restore still runs, and a `.del` file from before then replaces the config file |
| Sidecar.TransactLeavesNoBackup | sidecar/sidecar.go:146-170 | when neither restore nor clean-up faults, no `.del` file remains, whatever else fails |
| Sidecar.RejectsWithoutConfigFile | sidecar/sidecar.go:128-130 | with a blank config path both calls fail with "--custom.config.file not provided" before anything else: nothing changes and no reload is sent |
| Sidecar.UpdateRejectsInvalid | sidecar/sidecar.go:132-135 | an invalid command is answered with the list of all its violations; files and runtime are unchanged and no reload is sent |
| Sidecar.RejectsZoneMismatch | sidecar/sidecar.go:140-142 | a service bound to another zone rejects both calls with the mismatch error: files and runtime are unchanged and no reload is sent |
| Sidecar.UpdateSucceedsIff | sidecar/sidecar.go:127-171 | an update succeeds exactly when the path is set, the command is valid, the zone matches or none is bound, and backup, write and reload succeed; it then binds the trimmed zone, stamps `now`, and the file holds the new text |
| Sidecar.FailureKeepsRuntime | sidecar/sidecar.go:146-157 | a failed update or reset leaves the bound zone and update time as they were |
| Sidecar.UpdateFailureRestoresFile | sidecar/sidecar.go:146-170 | a failed update of an existing config file with no stale `.del`, and a restore that does not fault, leaves the whole state as it was |
| Sidecar.UpdateFailureOfAbsentFileKeepsNewText | sidecar/sidecar.go:146-170 | if the config file did not exist, an update whose reload fails returns the wrapped reload error and leaves the new text in the file |
| Sidecar.ResetSucceedsIff | sidecar/sidecar.go:173-217 | a reset succeeds exactly when the path is set, the trimmed zone is not blank and matches, and backup, write and reload succeed; it then unbinds the zone, zeroes the time, and the file holds ""; a blank zone gives "ZoneId must not be blank" and changes nothing |
| Sidecar.SidecarService.constructor | sidecar/sidecar.go:77-85 | a new service is bound to no zone and has never been updated |
| Sidecar.NewServiceConsistent | sidecar/sidecar.go:77-85 | a new service satisfies "bound exactly when stamped, never bound to a blank zone" |
| Sidecar.RuntimeConsistentKept | sidecar/sidecar.go:146-157 | "bound exactly when stamped, and never bound to a blank zone" is kept by every update (with a non-zero clock) and every reset |
| Sidecar.ScenarioBind | sidecar/sidecar.go:127-171 | an unbound service with "old" installs "new" for zone "z1": the file holds "new", zone "z1" is bound and stamped `now` |
| Sidecar.ScenarioConflict | sidecar/sidecar.go:140-142 | the service bound to "z1" rejects any update for "z2", with nothing changed and no reload sent |
| Sidecar.ScenarioReset | sidecar/sidecar.go:173-217 | a reset for "z1" empties the file, unbinds the zone and zeroes the time |

## Left out

- Concurrency: the `sync.Mutex` only serialises calls, so calls are modelled one at a time.
- The reload handshake over a channel of channels is not modelled. The model takes the reply as a parameter and counts requests in a ghost field.
- The model has no `ctx` parameter; the code never reads it.
- YAML strict parsing and `config.Config` are outside the model. The parser is a function parameter.
- Logging is not modelled: `printErr`, the logger parameters, and `level.Info` in `ScanDir`. Errors of the deferred clean-up or restore are dropped, as the code only logs them.
- `Runtimeinfo.MarshalJSON`, `HttpResponseError`, the HTTP handler and the JSON helper package are not part of this model.
- The `fmt.Sprintf` forms (`Prefixf`, `Suffixf`, `ValidateErrors.Prefixf`/`Suffixf`, `NotFoundErrorf`, general `ValidateErrorf`) are not modelled. Only the one mismatch message built with `ValidateErrorf` is written out.
- `filepath.Glob` matching is not computed: the matches are an input. Round-trip lemmas state their assumptions about the matches directly.
- `filepath.Join` and `path.Join` are modelled as joining with "/" and no lexical clean-up.
- `%q` quoting is modelled as surrounding double quotes, without Go's escaping of special characters.
- File permissions (`dirperm`, `fileperm`, `0o644`) are not modelled, and neither are the directories `os.MkdirAll` creates. The model has only the injected mkdir fault.
- A faulted `os.WriteFile` leaves the file unchanged. A real partial or truncating write is not modelled.
- Only the "does not exist" error text is built by the model. The text of other os errors is injected.
- File contents are strings, not byte slices. `NormFilename` works on characters, so invalid UTF-8 is not modelled.
- `ScanDir` reads an in-memory tree separate from the `FileSystem` map. The consumer is a function of path and content, so a consumer whose answer depends on earlier calls is not captured.
- Symbolic links and `IsDir` on them are outside the model.
- `ValidateErrorsPrefix`/`ValidateErrorsSuffix`: the Go functions leave the argument slice unmodified. Dafny sequences are values, so that half holds trivially and is not stated.
- `GetRuntimeInfo` and the mutex-guarded read are one method with no state change; idempotence follows from its contract.
- `Sidecar.UpdateSucceedsIff`: states that the update time becomes `now`, not that it is later than the previous time. The code promises no ordering of clock readings, and `time.Now()` is a parameter.
