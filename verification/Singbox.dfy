/** Applying and rolling back a sing-box version and configuration (internal/agent/singbox.go,
  * internal/agent/singbox_install.go), as moves of a few files.
  */
module Singbox {
  import opened Wrappers

  datatype Path = Bin | BinPrev | BinDownload | Config | ConfigPrev | ConfigTmp | Elsewhere(name: string)

  type Files = map<Path, string>

  /** Where a round fails, if it gets that far. */
  datatype Fault =
    | BinDir | Fetch | TempFile | Transfer | Chmod | Install
    | ConfigDir | ConfigTempFile(partial: string) | ConfigRename
    | Check | Start | Verify
    | NoFault

  /** What a round sets out to do: the artifact to install, if the version differs, and the declared
    * configuration, empty when none is declared. */
  datatype Plan = Plan(artifact: Option<string>, config: string)

  // ---- steps on files ----

  function Contents(fs: Files, p: Path): Option<string> { if p in fs then Some(fs[p]) else None }

  /** `os.Rename`; nothing happens when there is no such file. */
  function Renamed(fs: Files, from: Path, to: Path): Files
    requires from != to
  {
    if from in fs then (fs - {from})[to := fs[from]] else fs
  }

  function Prev(p: Path): Path { if p == Bin then BinPrev else ConfigPrev }

  function Restored(fs: Files, p: Path): Files
    requires p == Bin || p == Config
  {
    if Prev(p) in fs then Renamed(fs - {p}, Prev(p), p) else fs
  }

  /** The configuration counts as different unless exactly these bytes are on disk. */
  predicate NeedConfig(fs: Files, plan: Plan) {
    plan.config != "" && Contents(fs, Config) != Some(plan.config)
  }

  // ---- installing the artifact ----

  function Installed(fs: Files, artifact: string, fault: Fault): (Files, bool) {
    if fault.Fetch? then (fs, false)
    else
      var clean := fs - {BinDownload};
      if fault.TempFile? || fault.Transfer? then (clean, false)
      else
        var kept := Renamed(clean, Bin, BinPrev);
        if fault.Chmod? || fault.Install? then (kept, false) else (kept[Bin := artifact], true)
  }

  // ---- writing the configuration ----

  function BackedUp(fs: Files, incoming: string): Files {
    if Config !in fs || fs[Config] == incoming then fs else fs[ConfigPrev := fs[Config]]
  }

  function Configured(fs: Files, config: string, fault: Fault): (Files, bool) {
    if config == "" then (fs, true)
    else if fault.ConfigDir? then (fs, false)
    else
      var saved := BackedUp(fs, config);
      if fault.ConfigTempFile? then (saved[ConfigTmp := fault.partial], false)
      else if fault.ConfigRename? then (saved[ConfigTmp := config], false)
      else ((saved - {ConfigTmp})[Config := config], true)
  }

  function Applied(fs: Files, plan: Plan, fault: Fault): (Files, bool) {
    if plan.artifact.Some? && fault.BinDir? then (fs, false)
    else
      var (binary, installed) := if plan.artifact.Some? then Installed(fs, plan.artifact.value, fault) else (fs, true);
      if !installed then (binary, false)
      else
        var (both, written) := Configured(binary, plan.config, fault);
        (both, written && !fault.Check? && !fault.Start? && !fault.Verify?)
  }

  function RolledBack(fs: Files, changedBin: bool, changedConfig: bool): Files {
    var binary := if changedBin then Restored(fs, Bin) else fs;
    var both := if changedConfig then Restored(binary, Config) else binary;
    both - {BinDownload}
  }

  /** One convergence round that has something to change. */
  function Round(fs: Files, plan: Plan, fault: Fault): (Files, bool) {
    var (after, ok) := Applied(fs, plan, fault);
    if ok then (after, true) else (RolledBack(after, plan.artifact.Some?, NeedConfig(fs, plan)), false)
  }

  // ---- the manager ----

  class SingboxManager {
    var files: Files
    var rollbackSeen: bool
    var reportedRollbacks: nat

    constructor (files: Files)
      ensures this.files == files && !rollbackSeen && reportedRollbacks == 0
    {
      this.files, rollbackSeen, reportedRollbacks := files, false, 0;
    }

    method Rename(from: Path, to: Path)
      requires from != to
      modifies this`files
      ensures files == Renamed(old(files), from, to)
    {
      if from in files {
        var content := files[from];
        files := files - {from};
        files := files[to := content];
      }
    }

    method InstallArtifact(artifact: string, fault: Fault) returns (ok: bool)
      modifies this`files
      ensures (files, ok) == Installed(old(files), artifact, fault)
    {
      if fault.Fetch? { return false; }
      files := files - {BinDownload};
      if fault.TempFile? { return false; }
      ghost var clean := files;
      files := files[BinDownload := artifact];
      if fault.Transfer? {
        files := files - {BinDownload};
        assert files == clean;
        return false;
      }
      if Bin in files { Rename(Bin, BinPrev); }
      if fault.Chmod? || fault.Install? {
        files := files - {BinDownload};
        assert files == Renamed(clean, Bin, BinPrev);
        return false;
      }
      Rename(BinDownload, Bin);
      assert files == Renamed(clean, Bin, BinPrev)[Bin := artifact];
      return true;
    }

    method BackupPrevConfig(incoming: string)
      modifies this`files
      ensures files == BackedUp(old(files), incoming)
    {
      if Config !in files || files[Config] == incoming { return; }
      files := files[ConfigPrev := files[Config]];
    }

    method WriteConfig(config: string, fault: Fault) returns (ok: bool)
      modifies this`files
      ensures (files, ok) == Configured(old(files), config, fault)
    {
      if config == "" { return true; }
      if fault.ConfigDir? { return false; }
      BackupPrevConfig(config);
      ghost var saved := files;
      if fault.ConfigTempFile? {
        files := files[ConfigTmp := fault.partial];
        return false;
      }
      files := files[ConfigTmp := config];
      if fault.ConfigRename? { return false; }
      Rename(ConfigTmp, Config);
      assert files == (saved - {ConfigTmp})[Config := config];
      return true;
    }

    method Apply(plan: Plan, fault: Fault) returns (ok: bool)
      modifies this`files
      ensures (files, ok) == Applied(old(files), plan, fault)
    {
      if plan.artifact.Some? {
        if fault.BinDir? { return false; }
        var installed := InstallArtifact(plan.artifact.value, fault);
        if !installed { return false; }
      }
      var written := WriteConfig(plan.config, fault);
      if !written { return false; }
      if fault.Check? { return false; }
      if fault.Start? { return false; }
      if fault.Verify? { return false; }
      return true;
    }

    method RestoreFile(p: Path)
      requires p == Bin || p == Config
      modifies this`files
      ensures files == Restored(old(files), p)
    {
      if Prev(p) !in files { return; }
      files := files - {p};
      Rename(Prev(p), p);
    }

    /** Sends the pending one-shot mark with a report. */
    method Report()
      modifies this`rollbackSeen, this`reportedRollbacks
      ensures !rollbackSeen && reportedRollbacks == old(reportedRollbacks) + if old(rollbackSeen) then 1 else 0
    {
      if rollbackSeen { reportedRollbacks := reportedRollbacks + 1; }
      rollbackSeen := false;
    }

    method Rollback(changedBin: bool, changedConfig: bool)
      modifies this
      ensures files == RolledBack(old(files), changedBin, changedConfig)
      ensures !rollbackSeen && reportedRollbacks == old(reportedRollbacks) + 1
    {
      if changedBin { RestoreFile(Bin); }
      if changedConfig { RestoreFile(Config); }
      files := files - {BinDownload};
      rollbackSeen := true;
      Report();
    }

    /** A round with something to change; each rollback is reported once. */
    method Converge(plan: Plan, fault: Fault) returns (ok: bool)
      requires !rollbackSeen
      modifies this
      ensures (files, ok) == Round(old(files), plan, fault)
      ensures !rollbackSeen && reportedRollbacks == old(reportedRollbacks) + if ok then 0 else 1
    {
      var needConfig := NeedConfig(files, plan);
      ok := Apply(plan, fault);
      if ok { Report(); } else { Rollback(plan.artifact.Some?, needConfig); }
    }
  }
}
