/**
 * sidecar/config_file.go: the four file steps of a config update, each
 * applied to the one configured path.
 */
module ConfigFile {
  import opened Wrappers
  import opened Strings
  import opened Errs
  import opened FsUtil

  /** `writeConfigFile(x)` on the files: the path holds exactly `x`, or nothing changes and the error is wrapped. */
  function WrittenConfig(files: Files, configFile: string, configYaml: string, fault: Option<string>): Effect
  {
    var s := OsWriteFile(files, configFile, configYaml, fault);
    if s.result.Done? then Effect(s.files, None)
    else Effect(s.files, Some(Wrapped("Write config file " + Quote(configFile) + " failed", Sys(s.result.text))))
  }

  /** `configFileUtil`: the config path and the file steps on it. */
  class ConfigFileUtil {
    const configFile: string

    constructor (configFile: string)
      ensures this.configFile == configFile
    {
      this.configFile := configFile;
    }

    method BackupConfigFile(fs: FileSystem, fault: Option<string>) returns (err: Option<Err>)
      modifies fs
      ensures Effect(fs.files, err) == BackedUp(old(fs.files), configFile, fault)
    {
      err := BackupFile(fs, configFile, fault);
    }

    method CleanBackupConfigFile(fs: FileSystem, fault: Option<string>) returns (err: Option<Err>)
      modifies fs
      ensures Effect(fs.files, err) == CleanedBackup(old(fs.files), configFile, fault)
    {
      err := CleanBackupFile(fs, configFile, fault);
    }

    method RestoreConfigFile(fs: FileSystem, fault: Option<string>) returns (err: Option<Err>)
      modifies fs
      ensures Effect(fs.files, err) == Restored(old(fs.files), configFile, fault)
    {
      err := RestoreFile(fs, configFile, fault);
    }

    method WriteConfigFile(fs: FileSystem, configYaml: string, fault: Option<string>) returns (err: Option<Err>)
      modifies fs
      ensures Effect(fs.files, err) == WrittenConfig(old(fs.files), configFile, configYaml, fault)
    {
      var r := fs.WriteFile(configFile, configYaml, fault);
      if !r.Done? {
        return Some(Wrapped("Write config file " + Quote(configFile) + " failed", Sys(r.text)));
      }
      err := None;
    }
  }

  /** A write that does not fault leaves the path holding exactly the new text and touches nothing else; a faulted one changes nothing. */
  lemma WriteConfigResult(files: Files, p: string, x: string, fault: Option<string>)
    ensures fault.None? ==> WrittenConfig(files, p, x, fault) == Effect(files[p := x], None)
    ensures fault.Some? ==> WrittenConfig(files, p, x, fault).files == files
    ensures fault.Some? ==> WrittenConfig(files, p, x, fault).err == Some(Wrapped("Write config file " + Quote(p) + " failed", Sys(fault.value)))
  {
  }

  /**
   * Rollback: backup, write (whether or not it faults) and restore leave an
   * existing config file with its old content and no backup file.
   */
  lemma BackupWriteRestore(files: Files, p: string, x: string, writeFault: Option<string>)
    requires p in files
    ensures var w := WrittenConfig(BackedUp(files, p, None).files, p, x, writeFault);
      Restored(w.files, p, None) == Effect(files - {p + BackupSuffix}, None)
  {
    BackupNames(p, p);
  }

  /** Commit: backup, write and clean-up leave the config path holding the new text and no backup file. */
  lemma BackupWriteClean(files: Files, p: string, x: string)
    ensures var w := WrittenConfig(BackedUp(files, p, None).files, p, x, None);
      CleanedBackup(w.files, p, None) == Effect((files - {p + BackupSuffix})[p := x], None)
  {
    BackupNames(p, p);
  }

  /**
   * With no config file and no backup file beforehand, backup and restore do
   * nothing, so a rolled-back update keeps whatever the write put there.
   */
  lemma AbsentConfigNotRestored(files: Files, p: string, x: string)
    requires p !in files && p + BackupSuffix !in files
    ensures BackedUp(files, p, None) == Effect(files, None)
    ensures Restored(files, p, None) == Effect(files, None)
    ensures var w := WrittenConfig(BackedUp(files, p, None).files, p, x, None);
      Restored(w.files, p, None) == Effect(files[p := x], None)
  {
    BackupNames(p, p);
  }
}
