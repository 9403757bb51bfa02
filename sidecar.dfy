/**
 * sidecar/sidecar.go: validation of an update command and the sidecar
 * service, whose update and reset run backup, write and reload as one
 * transaction, then commit (record the zone and the time, drop the backup)
 * or roll back (restore the backup, keep the runtime).
 *
 * YAML parsing is the parameter `parse`: the parser's error text for a
 * document, or `None` when it parses. The reload handshake is its reply
 * `reply`. `time.Now()` is the parameter `now`; the zero `time.Time` is 0.
 */
module Sidecar {
  import opened Wrappers
  import opened Strings
  import opened Errs
  import opened FsUtil
  import opened ConfigFile

  const Brand := "snmp-exporter-mod"
  const NoConfigFileText := "--custom.config.file not provided"
  const ZoneBlankText := "ZoneId must not be blank"
  const YamlBlankText := "Yaml must not be blank"
  const ReloadFailedText := "sidecar failed to reload config"

  /** The error `ParseConfig` makes of the YAML parser's error. */
  function ParseErrorText(msg: string): string
  {
    "error parsing config file: " + msg
  }

  /** What `Validate` finds wrong with a command, in the order it checks. */
  function Violations(zoneId: string, yaml: string, parse: string -> Option<string>): seq<ValidateError>
  {
    (if Blank(zoneId) then [ValidateError(ZoneBlankText)] else [])
    + (if Blank(yaml) then [ValidateError(YamlBlankText)] else [])
    + (match parse(yaml)
       case Some(msg) => [ValidateError(ParseErrorText(msg)).Prefix("Invalid Yaml: ")]
       case None => [])
  }

  /** `UpdateConfigCmd`: the zone to bind and the new configuration text. */
  class UpdateConfigCmd {
    var zoneId: string
    var yaml: string

    constructor (zoneId: string, yaml: string)
      ensures this.zoneId == zoneId && this.yaml == yaml
    {
      this.zoneId := zoneId;
      this.yaml := yaml;
    }

    /** `Validate`: every violation found, and the zone replaced by its trimmed form. */
    method Validate(parse: string -> Option<string>) returns (ves: seq<ValidateError>)
      modifies this
      ensures ves == Violations(old(zoneId), yaml, parse)
      ensures zoneId == TrimSpace(old(zoneId)) && yaml == old(yaml)
    {
      ves := [];
      zoneId := TrimSpace(zoneId);
      if zoneId == "" {
        ves := ves + [ValidateError(ZoneBlankText)];
      }
      if TrimSpace(yaml) == "" {
        ves := ves + [ValidateError(YamlBlankText)];
      }
      var err := parse(yaml);
      if err.Some? {
        ves := ves + [ValidateError(ParseErrorText(err.value)).Prefix("Invalid Yaml: ")];
      }
    }
  }

  /** A blank string and its trimmed form are blank together. */
  lemma BlankTrimmed(s: string)
    ensures Blank(TrimSpace(s)) <==> Blank(s)
  {
    TrimSpaceIdempotent(s);
  }

  /**
   * `Validate` reports each of its three findings exactly when it applies,
   * each at most once, and nothing else: the command is accepted exactly
   * when the zone and the text are not blank and the text parses.
   */
  lemma ViolationsExact(zoneId: string, yaml: string, parse: string -> Option<string>)
    ensures var ves := Violations(zoneId, yaml, parse);
      |ves| == (if Blank(zoneId) then 1 else 0) + (if Blank(yaml) then 1 else 0) + (if parse(yaml).Some? then 1 else 0)
    ensures ValidateError(ZoneBlankText) in Violations(zoneId, yaml, parse) <==> Blank(zoneId)
    ensures ValidateError(YamlBlankText) in Violations(zoneId, yaml, parse) <==> Blank(yaml)
    ensures Violations(zoneId, yaml, parse) == [] <==> !Blank(zoneId) && !Blank(yaml) && parse(yaml).None?
  {
    var v := Violations(zoneId, yaml, parse);
    assert ZoneBlankText[0] == 'Z' && YamlBlankText[0] == 'Y';
    if parse(yaml).Some? {
      var inv := "Invalid Yaml: " + ParseErrorText(parse(yaml).value);
      assert inv[0] == 'I';
      assert v[|v| - 1] == ValidateError(inv);
    }
  }

  /** The findings come in checking order: zone first, then blank text, then the parse error last. */
  lemma ViolationsOrder(zoneId: string, yaml: string, parse: string -> Option<string>)
    ensures Blank(zoneId) ==> Violations(zoneId, yaml, parse)[0] == ValidateError(ZoneBlankText)
    ensures Blank(zoneId) && Blank(yaml) ==> Violations(zoneId, yaml, parse)[1] == ValidateError(YamlBlankText)
    ensures !Blank(zoneId) && Blank(yaml) ==> Violations(zoneId, yaml, parse)[0] == ValidateError(YamlBlankText)
    ensures parse(yaml).Some? ==> var v := Violations(zoneId, yaml, parse);
      v[|v| - 1] == ValidateError("Invalid Yaml: " + ParseErrorText(parse(yaml).value))
  {
  }

  // ---------------------------------------------------------------------------
  // The service

  /** `Runtimeinfo`: the brand, the bound zone and the time of the last update. */
  datatype RuntimeInfo = RuntimeInfo(brand: string, zoneId: string, lastUpdateTs: nat)

  /** What an update or a reset works on: the files, the bound zone and the last update time. */
  datatype State = State(files: Files, boundZoneId: string, lastUpdateTs: nat)

  /** The injected faults of the four file steps of one transaction. */
  datatype Faults = Faults(backup: Option<string>, write: Option<string>, restore: Option<string>, clean: Option<string>)

  /** The state after a call, its error, and whether it asked for a reload. */
  datatype Outcome = Outcome(state: State, err: Option<Err>, reloadAsked: bool)

  /** `assertZoneIdMatch`: an unbound service accepts any zone, a bound one only its own. */
  function ZoneMismatch(boundZoneId: string, zoneId: string): (r: Option<Err>)
    ensures r.None? <==> boundZoneId == "" || boundZoneId == zoneId
  {
    if boundZoneId == "" then None
    else if boundZoneId != zoneId then
      Some(Invalid(ValidateError("Current snmp-exporter bound zoneId=" + boundZoneId + ", command zoneId=" + zoneId + ", mismatch")))
    else None
  }

  /** `doReload`: the reply to the reload request, wrapped when it is an error. */
  function Reloaded(reply: Option<Err>): (r: Option<Err>)
    ensures r.None? <==> reply.None?
  {
    if reply.Some? then Some(Wrapped(ReloadFailedText, reply.value)) else None
  }

  /** Result of the transaction: the files, the error, and whether the reload was asked for. */
  datatype Txn = Txn(files: Files, err: Option<Err>, reloadAsked: bool)

  /**
   * Backup, write `content`, reload; then the deferred step: clean-up of the
   * backup if all three succeeded, restore otherwise (even when the backup
   * itself failed). Errors of the deferred step are only logged.
   */
  function Transact(configFile: string, files: Files, content: string, faults: Faults, reply: Option<Err>): Txn
  {
    var b := BackedUp(files, configFile, faults.backup);
    if b.err.Some? then Txn(Restored(b.files, configFile, faults.restore).files, b.err, false)
    else
      var w := WrittenConfig(b.files, configFile, content, faults.write);
      if w.err.Some? then Txn(Restored(w.files, configFile, faults.restore).files, w.err, false)
      else
        var e := Reloaded(reply);
        if e.Some? then Txn(Restored(w.files, configFile, faults.restore).files, e, true)
        else Txn(CleanedBackup(w.files, configFile, faults.clean).files, None, true)
  }

  /** `UpdateConfigReload` on a state. */
  function Update(configFile: string, st: State, zoneId: string, yaml: string, parse: string -> Option<string>,
                  faults: Faults, reply: Option<Err>, now: nat): Outcome
  {
    if Blank(configFile) then Outcome(st, Some(New(NoConfigFileText)), false)
    else
      var ves := Violations(zoneId, yaml, parse);
      if ves != [] then Outcome(st, Some(InvalidList(ves)), false)
      else
        var z := TrimSpace(zoneId);
        var m := ZoneMismatch(st.boundZoneId, z);
        if m.Some? then Outcome(st, m, false)
        else
          var t := Transact(configFile, st.files, yaml, faults, reply);
          if t.err.None? then Outcome(State(t.files, z, now), None, t.reloadAsked)
          else Outcome(st.(files := t.files), t.err, t.reloadAsked)
  }

  /** `ResetConfigReload` on a state. */
  function Reset(configFile: string, st: State, zoneId: string, faults: Faults, reply: Option<Err>): Outcome
  {
    if Blank(configFile) then Outcome(st, Some(New(NoConfigFileText)), false)
    else
      var z := TrimSpace(zoneId);
      if z == "" then Outcome(st, Some(Invalid(ValidateError(ZoneBlankText))), false)
      else
        var m := ZoneMismatch(st.boundZoneId, z);
        if m.Some? then Outcome(st, m, false)
        else
          var t := Transact(configFile, st.files, "", faults, reply);
          if t.err.None? then Outcome(State(t.files, "", 0), None, t.reloadAsked)
          else Outcome(st.(files := t.files), t.err, t.reloadAsked)
  }

  /** `sidecarService`: the configured path and the runtime it keeps between calls. */
  class SidecarService {
    const configFile: string
    var boundZoneId: string
    var lastUpdateTs: nat
    /** Reload requests sent so far. */
    ghost var reloadRequests: nat

    /** `NewSidecarSvc`: not bound to any zone, never updated. */
    constructor (configFile: string)
      ensures this.configFile == configFile && boundZoneId == "" && lastUpdateTs == 0 && reloadRequests == 0
    {
      this.configFile := configFile;
      boundZoneId := "";
      lastUpdateTs := 0;
      reloadRequests := 0;
    }

    function Runtime(fs: FileSystem): State
      reads this, fs
    {
      State(fs.files, boundZoneId, lastUpdateTs)
    }

    method GetRuntimeInfo() returns (info: RuntimeInfo)
      ensures info == RuntimeInfo(Brand, boundZoneId, lastUpdateTs)
    {
      info := RuntimeInfo(Brand, boundZoneId, lastUpdateTs);
    }

    method AssertZoneIdMatch(zoneId: string) returns (err: Option<Err>)
      ensures err == ZoneMismatch(boundZoneId, zoneId)
    {
      if boundZoneId == "" {
        return None;
      }
      if boundZoneId != zoneId {
        return Some(Invalid(ValidateError("Current snmp-exporter bound zoneId=" + boundZoneId + ", command zoneId=" + zoneId + ", mismatch")));
      }
      err := None;
    }

    /** `doReload`: send one request and wrap an error reply. */
    method DoReload(reply: Option<Err>) returns (err: Option<Err>)
      modifies this
      ensures err == Reloaded(reply)
      ensures reloadRequests == old(reloadRequests) + 1
      ensures boundZoneId == old(boundZoneId) && lastUpdateTs == old(lastUpdateTs)
    {
      reloadRequests := reloadRequests + 1;
      if reply.Some? {
        return Some(Wrapped(ReloadFailedText, reply.value));
      }
      err := None;
    }

    /** The backup, write and reload steps, then the deferred step: clean-up on success, restore otherwise. */
    method Transaction(fs: FileSystem, content: string, faults: Faults, reply: Option<Err>) returns (reloadErr: Option<Err>)
      modifies this, fs
      ensures Txn(fs.files, reloadErr, reloadRequests == old(reloadRequests) + 1) == Transact(configFile, old(fs.files), content, faults, reply)
      ensures reloadRequests == old(reloadRequests) || reloadRequests == old(reloadRequests) + 1
      ensures boundZoneId == old(boundZoneId) && lastUpdateTs == old(lastUpdateTs)
    {
      var cfgFileUtil := new ConfigFileUtil(configFile);
      reloadErr := cfgFileUtil.BackupConfigFile(fs, faults.backup);
      if reloadErr.None? {
        reloadErr := cfgFileUtil.WriteConfigFile(fs, content, faults.write);
        if reloadErr.None? {
          reloadErr := DoReload(reply);
        }
      }
      if reloadErr.None? {
        var _ := cfgFileUtil.CleanBackupConfigFile(fs, faults.clean);
      } else {
        var _ := cfgFileUtil.RestoreConfigFile(fs, faults.restore);
      }
    }

    /** `UpdateConfigReload`. */
    method UpdateConfigReload(fs: FileSystem, cmd: UpdateConfigCmd, parse: string -> Option<string>,
                              faults: Faults, reply: Option<Err>, now: nat) returns (err: Option<Err>)
      modifies this, fs, cmd
      ensures Outcome(Runtime(fs), err, reloadRequests == old(reloadRequests) + 1) ==
        Update(configFile, old(Runtime(fs)), old(cmd.zoneId), old(cmd.yaml), parse, faults, reply, now)
      ensures reloadRequests == old(reloadRequests) || reloadRequests == old(reloadRequests) + 1
      ensures cmd.yaml == old(cmd.yaml)
      ensures cmd.zoneId == if Blank(configFile) then old(cmd.zoneId) else TrimSpace(old(cmd.zoneId))
    {
      if TrimSpace(configFile) == "" {
        return Some(New(NoConfigFileText));
      }
      var verrs := cmd.Validate(parse);
      if |verrs| > 0 {
        return Some(InvalidList(verrs));
      }
      err := AssertZoneIdMatch(cmd.zoneId);
      if err.Some? {
        return err;
      }
      var reloadErr := Transaction(fs, cmd.yaml, faults, reply);
      if reloadErr.None? {
        lastUpdateTs := now;
        boundZoneId := cmd.zoneId;
      }
      err := reloadErr;
    }

    /** `ResetConfigReload`. */
    method ResetConfigReload(fs: FileSystem, zoneId: string, faults: Faults, reply: Option<Err>) returns (err: Option<Err>)
      modifies this, fs
      ensures Outcome(Runtime(fs), err, reloadRequests == old(reloadRequests) + 1) ==
        Reset(configFile, old(Runtime(fs)), zoneId, faults, reply)
      ensures reloadRequests == old(reloadRequests) || reloadRequests == old(reloadRequests) + 1
    {
      if TrimSpace(configFile) == "" {
        return Some(New(NoConfigFileText));
      }
      var z := TrimSpace(zoneId);
      if z == "" {
        return Some(Invalid(ValidateError(ZoneBlankText)));
      }
      err := AssertZoneIdMatch(z);
      if err.Some? {
        return err;
      }
      var reloadErr := Transaction(fs, "", faults, reply);
      if reloadErr.None? {
        lastUpdateTs := 0;
        boundZoneId := "";
      }
      err := reloadErr;
    }
  }

  // ---------------------------------------------------------------------------
  // Properties of the transaction

  /**
   * The transaction succeeds exactly when backup, write and reload do; the
   * reload is asked for exactly when backup and write succeed; on success the
   * config path holds the new content and, when the clean-up does not fault,
   * no backup is left.
   */
  lemma TransactSucceedsIff(p: string, files: Files, content: string, faults: Faults, reply: Option<Err>)
    ensures Transact(p, files, content, faults, reply).err.None? <==> faults.backup.None? && faults.write.None? && reply.None?
    ensures Transact(p, files, content, faults, reply).reloadAsked <==> faults.backup.None? && faults.write.None?
    ensures Transact(p, files, content, faults, reply).err.None? ==>
      p in Transact(p, files, content, faults, reply).files && Transact(p, files, content, faults, reply).files[p] == content
    ensures Transact(p, files, content, faults, reply).err.None? && faults.clean.None? ==>
      Transact(p, files, content, faults, reply).files == (files - {p + BackupSuffix})[p := content]
  {
    SingleFileErrIffFault(files, p, faults.backup);
    BackupNames(p, p);
    if faults.backup.None? && faults.write.None? {
      var b := BackedUp(files, p, None);
      SingleFileFrame(b.files[p := content], p + BackupSuffix, faults.clean, p);
      if reply.None? && faults.clean.None? {
        BackupWriteClean(files, p, content);
      }
    }
  }

  /**
   * A failed transaction returns the error of the first step that failed:
   * the backup's, the write's, or the reload reply wrapped as a reload
   * failure. A fault of the deferred restore or clean-up never changes it.
   */
  lemma TransactReturnsFirstError(p: string, files: Files, content: string, faults: Faults, reply: Option<Err>)
    ensures Transact(p, files, content, faults, reply).err ==
      Transact(p, files, content, faults.(restore := None, clean := None), reply).err
    ensures faults.backup.Some? ==>
      Transact(p, files, content, faults, reply).err == Some(Wrapped("Move file " + Quote(p) + " => " + Quote(p + BackupSuffix) + " failed", Sys(faults.backup.value)))
    ensures faults.backup.None? && faults.write.Some? ==>
      Transact(p, files, content, faults, reply).err == Some(Wrapped("Write config file " + Quote(p) + " failed", Sys(faults.write.value)))
    ensures faults.backup.None? && faults.write.None? && reply.Some? ==>
      Transact(p, files, content, faults, reply).err == Some(Wrapped(ReloadFailedText, reply.value))
  {
    SingleFileErrIffFault(files, p, faults.backup);
  }

  /**
   * Rollback: when the transaction fails, the restore does not fault and no
   * backup file was lying around, the files are as they were, except that a
   * config file that did not exist keeps the content written before a failed
   * reload (there was nothing to back up, so there is nothing to restore).
   */
  lemma TransactFailureRestores(p: string, files: Files, content: string, faults: Faults, reply: Option<Err>)
    requires p + BackupSuffix !in files && faults.restore.None?
    requires Transact(p, files, content, faults, reply).err.Some?
    ensures Transact(p, files, content, faults, reply).files ==
      if p in files || !Transact(p, files, content, faults, reply).reloadAsked then files else files[p := content]
  {
    BackupNames(p, p);
    SingleFileErrIffFault(files, p, faults.backup);
    TransactSucceedsIff(p, files, content, faults, reply);
    if faults.backup.None? && p in files {
      BackupWriteRestore(files, p, content, faults.write);
    }
  }

  /**
   * A failed backup still runs the restore: a backup file left from before is
   * then moved over the current config file, although nothing was written.
   */
  lemma TransactBackupFailureRestoresStale(p: string, files: Files, content: string, faults: Faults, reply: Option<Err>)
    requires faults.backup.Some? && faults.restore.None? && p + BackupSuffix in files
    ensures Transact(p, files, content, faults, reply).err.Some?
    ensures Transact(p, files, content, faults, reply).files == (files - {p + BackupSuffix})[p := files[p + BackupSuffix]]
  {
    BackupNames(p, p);
  }

  /** When neither the restore nor the clean-up faults, no backup file is left behind, whatever else happens. */
  lemma TransactLeavesNoBackup(p: string, files: Files, content: string, faults: Faults, reply: Option<Err>)
    requires faults.restore.None? && faults.clean.None?
    ensures p + BackupSuffix !in Transact(p, files, content, faults, reply).files
  {
    BackupNames(p, p);
    var b := BackedUp(files, p, faults.backup);
    RestoreMovesContent(b.files, p);
    if b.err.None? {
      var w := WrittenConfig(b.files, p, content, faults.write);
      RestoreMovesContent(w.files, p);
      CleanKeepsOrigin(w.files, p);
    }
  }

  // ---------------------------------------------------------------------------
  // Properties of update and reset

  /** With a blank config path both calls fail before anything else, and nothing changes. */
  lemma RejectsWithoutConfigFile(p: string, st: State, zoneId: string, yaml: string, parse: string -> Option<string>,
                                 faults: Faults, reply: Option<Err>, now: nat)
    requires Blank(p)
    ensures Update(p, st, zoneId, yaml, parse, faults, reply, now) == Outcome(st, Some(New(NoConfigFileText)), false)
    ensures Reset(p, st, zoneId, faults, reply) == Outcome(st, Some(New(NoConfigFileText)), false)
  {
  }

  /** An invalid command is answered with all its violations; the files and the runtime stay as they were and no reload is asked for. */
  lemma UpdateRejectsInvalid(p: string, st: State, zoneId: string, yaml: string, parse: string -> Option<string>,
                             faults: Faults, reply: Option<Err>, now: nat)
    requires !Blank(p) && Violations(zoneId, yaml, parse) != []
    ensures Update(p, st, zoneId, yaml, parse, faults, reply, now) == Outcome(st, Some(InvalidList(Violations(zoneId, yaml, parse))), false)
  {
  }

  /** A service bound to another zone rejects both calls; nothing changes and no reload is asked for. */
  lemma RejectsZoneMismatch(p: string, st: State, zoneId: string, yaml: string, parse: string -> Option<string>,
                            faults: Faults, reply: Option<Err>, now: nat)
    requires !Blank(p) && !Blank(zoneId) && st.boundZoneId != "" && st.boundZoneId != TrimSpace(zoneId)
    ensures Violations(zoneId, yaml, parse) == [] ==>
      Update(p, st, zoneId, yaml, parse, faults, reply, now) == Outcome(st, ZoneMismatch(st.boundZoneId, TrimSpace(zoneId)), false)
    ensures Reset(p, st, zoneId, faults, reply) == Outcome(st, ZoneMismatch(st.boundZoneId, TrimSpace(zoneId)), false)
    ensures ZoneMismatch(st.boundZoneId, TrimSpace(zoneId)).Some?
  {
    BlankTrimmed(zoneId);
  }

  /**
   * An update succeeds exactly when the path is set, the command is valid,
   * the zone matches (or none is bound) and backup, write and reload
   * succeed. Then the service is bound to the trimmed zone, the update time
   * is `now`, and the config path holds the new text.
   */
  lemma UpdateSucceedsIff(p: string, st: State, zoneId: string, yaml: string, parse: string -> Option<string>,
                          faults: Faults, reply: Option<Err>, now: nat)
    ensures Update(p, st, zoneId, yaml, parse, faults, reply, now).err.None? <==>
      && !Blank(p) && Violations(zoneId, yaml, parse) == []
      && (st.boundZoneId == "" || st.boundZoneId == TrimSpace(zoneId))
      && faults.backup.None? && faults.write.None? && reply.None?
    ensures Update(p, st, zoneId, yaml, parse, faults, reply, now).err.None? ==>
      var o := Update(p, st, zoneId, yaml, parse, faults, reply, now);
      && o.state.boundZoneId == TrimSpace(zoneId) && o.state.lastUpdateTs == now && o.reloadAsked
      && p in o.state.files && o.state.files[p] == yaml
  {
    TransactSucceedsIff(p, st.files, yaml, faults, reply);
  }

  /** A failed update or reset leaves the bound zone and the update time as they were. */
  lemma FailureKeepsRuntime(p: string, st: State, zoneId: string, yaml: string, parse: string -> Option<string>,
                            faults: Faults, reply: Option<Err>, now: nat)
    ensures var o := Update(p, st, zoneId, yaml, parse, faults, reply, now);
      o.err.Some? ==> o.state.boundZoneId == st.boundZoneId && o.state.lastUpdateTs == st.lastUpdateTs
    ensures var o := Reset(p, st, zoneId, faults, reply);
      o.err.Some? ==> o.state.boundZoneId == st.boundZoneId && o.state.lastUpdateTs == st.lastUpdateTs
  {
  }

  /**
   * A failed update of an existing config file, with no stale backup and a
   * restore that does not fault, leaves the files exactly as they were.
   */
  lemma UpdateFailureRestoresFile(p: string, st: State, zoneId: string, yaml: string, parse: string -> Option<string>,
                                  faults: Faults, reply: Option<Err>, now: nat)
    requires p in st.files && p + BackupSuffix !in st.files && faults.restore.None?
    requires Update(p, st, zoneId, yaml, parse, faults, reply, now).err.Some?
    ensures Update(p, st, zoneId, yaml, parse, faults, reply, now).state == st
  {
    var z := TrimSpace(zoneId);
    if !Blank(p) && Violations(zoneId, yaml, parse) == [] && ZoneMismatch(st.boundZoneId, z).None? {
      TransactFailureRestores(p, st.files, yaml, faults, reply);
    }
  }

  /**
   * When the config file did not exist, an update whose reload fails is
   * rolled back without taking the new text away: the file keeps it.
   */
  lemma UpdateFailureOfAbsentFileKeepsNewText(p: string, st: State, zoneId: string, yaml: string, parse: string -> Option<string>,
                                              reply: Option<Err>, now: nat)
    requires p !in st.files && p + BackupSuffix !in st.files && reply.Some?
    requires !Blank(p) && Violations(zoneId, yaml, parse) == [] && ZoneMismatch(st.boundZoneId, TrimSpace(zoneId)).None?
    ensures var o := Update(p, st, zoneId, yaml, parse, Faults(None, None, None, None), reply, now);
      o.err == Some(Wrapped(ReloadFailedText, reply.value)) && o.state == st.(files := st.files[p := yaml])
  {
    AbsentConfigNotRestored(st.files, p, yaml);
  }

  /**
   * A reset succeeds exactly when the path is set, the trimmed zone is not
   * blank and matches, and backup, write and reload succeed. Then the
   * service is unbound, the update time is the zero time and the config
   * path holds the empty text.
   */
  lemma ResetSucceedsIff(p: string, st: State, zoneId: string, faults: Faults, reply: Option<Err>)
    ensures Reset(p, st, zoneId, faults, reply).err.None? <==>
      && !Blank(p) && !Blank(zoneId)
      && (st.boundZoneId == "" || st.boundZoneId == TrimSpace(zoneId))
      && faults.backup.None? && faults.write.None? && reply.None?
    ensures Reset(p, st, zoneId, faults, reply).err.None? ==>
      var o := Reset(p, st, zoneId, faults, reply);
      && o.state.boundZoneId == "" && o.state.lastUpdateTs == 0 && o.reloadAsked
      && p in o.state.files && o.state.files[p] == ""
    ensures !Blank(p) && Blank(zoneId) ==>
      Reset(p, st, zoneId, faults, reply) == Outcome(st, Some(Invalid(ValidateError(ZoneBlankText))), false)
  {
    BlankTrimmed(zoneId);
    TransactSucceedsIff(p, st.files, "", faults, reply);
  }

  /**
   * The service is bound to a zone exactly when it has an update time, and
   * a bound zone is never blank: true of a new service, and kept by every
   * update (with a real clock) and every reset.
   */
  predicate RuntimeConsistent(st: State)
  {
    (st.boundZoneId == "" <==> st.lastUpdateTs == 0) && (st.boundZoneId != "" ==> !Blank(st.boundZoneId))
  }

  /** A new service, bound to no zone and never updated, satisfies the invariant. */
  lemma NewServiceConsistent(files: Files)
    ensures RuntimeConsistent(State(files, "", 0))
  {
  }

  lemma RuntimeConsistentKept(p: string, st: State, zoneId: string, yaml: string, parse: string -> Option<string>,
                              faults: Faults, reply: Option<Err>, now: nat)
    requires RuntimeConsistent(st) && now > 0
    ensures RuntimeConsistent(Update(p, st, zoneId, yaml, parse, faults, reply, now).state)
    ensures RuntimeConsistent(Reset(p, st, zoneId, faults, reply).state)
  {
    BlankTrimmed(zoneId);
    FailureKeepsRuntime(p, st, zoneId, yaml, parse, faults, reply, now);
    UpdateSucceedsIff(p, st, zoneId, yaml, parse, faults, reply, now);
    ViolationsExact(zoneId, yaml, parse);
    ResetSucceedsIff(p, st, zoneId, faults, reply);
    var u := Update(p, st, zoneId, yaml, parse, faults, reply, now);
    if u.err.None? {
      assert u.state.boundZoneId == TrimSpace(zoneId) && !Blank(zoneId);
    }
  }

  /** Trimming leaves a zone name without edge spaces as it is. */
  lemma TrimSpaceOfPlain(s: string)
    requires s != [] && !IsSpace(s[0]) && !IsSpace(s[|s| - 1])
    ensures TrimSpace(s) == s && !Blank(s)
  {
    assert LeadingSpaces(s) == 0;
    assert s[0..] == s;
    assert TrailingSpaces(s) == 0;
    assert s[..|s|] == s;
  }

  const NoFaults := Faults(None, None, None, None)

  /** First step of a bind, a conflicting update and a reset: an unbound service with "old" installs "new" for zone "z1". */
  lemma ScenarioBind(parse: string -> Option<string>, now: nat)
    requires parse("new").None?
    ensures Update("snmp.yml", State(map["snmp.yml" := "old"], "", 0), "z1", "new", parse, NoFaults, None, now)
      == Outcome(State(map["snmp.yml" := "new"], "z1", now), None, true)
  {
    var p := "snmp.yml";
    TrimSpaceOfPlain(p);
    TrimSpaceOfPlain("z1");
    TrimSpaceOfPlain("new");
    ViolationsExact("z1", "new", parse);
    UpdateSucceedsIff(p, State(map[p := "old"], "", 0), "z1", "new", parse, NoFaults, None, now);
    TransactSucceedsIff(p, map[p := "old"], "new", NoFaults, None);
    assert (map[p := "old"] - {p + BackupSuffix})[p := "new"] == map[p := "new"];
  }

  /** Second step: the service bound to "z1" rejects an update for "z2" and nothing changes. */
  lemma ScenarioConflict(parse: string -> Option<string>, now: nat)
    ensures var st := State(map["snmp.yml" := "new"], "z1", now);
      var o := Update("snmp.yml", st, "z2", "newer", parse, NoFaults, None, now + 1);
      o.err.Some? && o.state == st && !o.reloadAsked
  {
    var p := "snmp.yml";
    var st := State(map[p := "new"], "z1", now);
    TrimSpaceOfPlain(p);
    TrimSpaceOfPlain("z2");
    if Violations("z2", "newer", parse) == [] {
      RejectsZoneMismatch(p, st, "z2", "newer", parse, NoFaults, None, now + 1);
    }
  }

  /** Third step: a reset for "z1" empties the file and unbinds the service. */
  lemma ScenarioReset(now: nat)
    ensures Reset("snmp.yml", State(map["snmp.yml" := "new"], "z1", now), "z1", NoFaults, None)
      == Outcome(State(map["snmp.yml" := ""], "", 0), None, true)
  {
    var p := "snmp.yml";
    TrimSpaceOfPlain(p);
    TrimSpaceOfPlain("z1");
    ResetSucceedsIff(p, State(map[p := "new"], "z1", now), "z1", NoFaults, None);
    TransactSucceedsIff(p, map[p := "new"], "", NoFaults, None);
    assert (map[p := "new"] - {p + BackupSuffix})[p := ""] == map[p := ""];
  }
}
