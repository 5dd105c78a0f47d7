/** When rolling back puts the binary and the configuration back exactly as they were. */
module SingboxRollback {
  import opened Wrappers
  import opened Singbox

  /** Binary and configuration hold what they held before. */
  predicate AsBefore(was: Files, now: Files) {
    Contents(now, Bin) == Contents(was, Bin) && Contents(now, Config) == Contents(was, Config)
  }

  /** No saved copy, or one equal to the file itself. */
  predicate NoStaleCopy(fs: Files, p: Path) {
    Prev(p) !in fs || Contents(fs, Prev(p)) == Contents(fs, p)
  }

  /** Whether the old binary can be put back if the round fails here: before the move, only if no stale copy
    * waits to be restored; between the moves, if there was a binary or no stale copy; afterwards, only if
    * there was a binary. */
  predicate BinaryRecovers(fs: Files, plan: Plan, fault: Fault) {
    if plan.artifact.None? then true
    else if fault.BinDir? || fault.Fetch? || fault.TempFile? || fault.Transfer? then NoStaleCopy(fs, Bin)
    else if fault.Chmod? || fault.Install? then Bin in fs || BinPrev !in fs
    else Bin in fs
  }

  /** The same for the configuration. */
  predicate ConfigRecovers(fs: Files, plan: Plan, fault: Fault) {
    if !NeedConfig(fs, plan) then true
    else if StopsBeforeConfig(plan, fault) || fault.ConfigDir? then NoStaleCopy(fs, Config)
    else if fault.ConfigTempFile? || fault.ConfigRename? then Config in fs || ConfigPrev !in fs
    else Config in fs
  }

  predicate StopsBeforeConfig(plan: Plan, fault: Fault) {
    plan.artifact.Some?
    && (fault.BinDir? || fault.Fetch? || fault.TempFile? || fault.Transfer? || fault.Chmod? || fault.Install?)
  }

  /** The files of the binary and of the configuration are handled apart. */
  predicate AboutBinary(p: Path) { p.Bin? || p.BinPrev? || p.BinDownload? }

  lemma InstallKeepsConfig(fs: Files, artifact: string, fault: Fault, p: Path)
    requires !AboutBinary(p)
    ensures Contents(Installed(fs, artifact, fault).0, p) == Contents(fs, p)
  {
  }

  lemma ConfigKeepsBinary(fs: Files, config: string, fault: Fault, p: Path)
    requires AboutBinary(p)
    ensures Contents(Configured(fs, config, fault).0, p) == Contents(fs, p)
  {
  }

  /** The binary after the rollback, from what apply left. */
  lemma BinaryAfterRollback(fs: Files, changedBin: bool, changedConfig: bool)
    ensures Contents(RolledBack(fs, changedBin, changedConfig), Bin) ==
            if changedBin && BinPrev in fs then Some(fs[BinPrev]) else Contents(fs, Bin)
  {
  }

  lemma ConfigAfterRollback(fs: Files, changedBin: bool, changedConfig: bool)
    ensures Contents(RolledBack(fs, changedBin, changedConfig), Config) ==
            if changedConfig && ConfigPrev in fs then Some(fs[ConfigPrev]) else Contents(fs, Config)
  {
  }

  lemma BinaryExactIff(fs: Files, plan: Plan, fault: Fault)
    requires !Applied(fs, plan, fault).1
    ensures Contents(Round(fs, plan, fault).0, Bin) == Contents(fs, Bin) <==> BinaryRecovers(fs, plan, fault)
  {
    var after := Applied(fs, plan, fault).0;
    BinaryAfterRollback(after, plan.artifact.Some?, NeedConfig(fs, plan));
    if plan.artifact.Some? && !fault.BinDir? {
      var (binary, installed) := Installed(fs, plan.artifact.value, fault);
      if installed {
        ConfigKeepsBinary(binary, plan.config, fault, Bin);
        ConfigKeepsBinary(binary, plan.config, fault, BinPrev);
      }
    } else {
      ConfigKeepsBinary(fs, plan.config, fault, Bin);
    }
  }

  lemma ConfigUntouched(fs: Files, plan: Plan, fault: Fault)
    requires StopsBeforeConfig(plan, fault)
    ensures Contents(Applied(fs, plan, fault).0, Config) == Contents(fs, Config)
    ensures Contents(Applied(fs, plan, fault).0, ConfigPrev) == Contents(fs, ConfigPrev)
  {
    if !fault.BinDir? {
      InstallKeepsConfig(fs, plan.artifact.value, fault, Config);
      InstallKeepsConfig(fs, plan.artifact.value, fault, ConfigPrev);
    }
  }

  lemma ConfigWritten(fs: Files, plan: Plan, fault: Fault)
    requires !StopsBeforeConfig(plan, fault)
    ensures var start := if plan.artifact.Some? then Installed(fs, plan.artifact.value, fault).0 else fs;
            && Contents(start, Config) == Contents(fs, Config) && Contents(start, ConfigPrev) == Contents(fs, ConfigPrev)
            && Applied(fs, plan, fault).0 == Configured(start, plan.config, fault).0
  {
    if plan.artifact.Some? {
      InstallKeepsConfig(fs, plan.artifact.value, fault, Config);
      InstallKeepsConfig(fs, plan.artifact.value, fault, ConfigPrev);
    }
  }

  lemma ConfigExactIff(fs: Files, plan: Plan, fault: Fault)
    requires !Applied(fs, plan, fault).1
    ensures Contents(Round(fs, plan, fault).0, Config) == Contents(fs, Config) <==> ConfigRecovers(fs, plan, fault)
  {
    ConfigAfterRollback(Applied(fs, plan, fault).0, plan.artifact.Some?, NeedConfig(fs, plan));
    if StopsBeforeConfig(plan, fault) {
      ConfigUntouched(fs, plan, fault);
    } else {
      ConfigWritten(fs, plan, fault);
    }
  }

  /** A failed round leaves binary and configuration exactly as before if and only if, at the point where it
    * failed, the saved copies are those of this round. */
  lemma {:induction false} RollbackExactIff(fs: Files, plan: Plan, fault: Fault)
    requires !Applied(fs, plan, fault).1
    ensures AsBefore(fs, Round(fs, plan, fault).0) <==> BinaryRecovers(fs, plan, fault) && ConfigRecovers(fs, plan, fault)
  {
    BinaryExactIff(fs, plan, fault);
    ConfigExactIff(fs, plan, fault);
  }

  predicate AtGate(fault: Fault) { fault.Check? || fault.Start? || fault.Verify? }

  /** At any of the three gates: exactly when whatever was replaced existed before. */
  lemma {:induction false} GateFailureIsUndone(fs: Files, plan: Plan, fault: Fault)
    requires AtGate(fault)
    ensures !Round(fs, plan, fault).1
    ensures AsBefore(fs, Round(fs, plan, fault).0) <==>
              (plan.artifact.Some? ==> Bin in fs) && (NeedConfig(fs, plan) ==> Config in fs)
  {
    RollbackExactIff(fs, plan, fault);
  }

  // ---- the rest of the directory ----

  lemma RollbackTouchesOnly(fs: Files, changedBin: bool, changedConfig: bool, p: Path)
    requires p.Elsewhere?
    ensures Contents(RolledBack(fs, changedBin, changedConfig), p) == Contents(fs, p)
    ensures BinDownload !in RolledBack(fs, changedBin, changedConfig)
  {
  }

  lemma ApplyTouchesOnly(fs: Files, plan: Plan, fault: Fault, p: Path)
    requires p.Elsewhere?
    ensures Contents(Applied(fs, plan, fault).0, p) == Contents(fs, p)
  {
  }

  /** Nothing but the six files is touched, and a round that fails leaves no partial download. */
  lemma {:induction false} RoundTouchesOnly(fs: Files, plan: Plan, fault: Fault, p: Path)
    requires p.Elsewhere?
    ensures Contents(Round(fs, plan, fault).0, p) == Contents(fs, p)
    ensures !Round(fs, plan, fault).1 ==> BinDownload !in Round(fs, plan, fault).0
  {
    ApplyTouchesOnly(fs, plan, fault, p);
    RollbackTouchesOnly(Applied(fs, plan, fault).0, plan.artifact.Some?, NeedConfig(fs, plan), p);
  }

  /** A round that succeeds leaves exactly what was declared. */
  lemma {:induction false} SuccessInstalls(fs: Files, plan: Plan, fault: Fault)
    requires Round(fs, plan, fault).1
    ensures Contents(Round(fs, plan, fault).0, Bin) == if plan.artifact.Some? then plan.artifact else Contents(fs, Bin)
    ensures Contents(Round(fs, plan, fault).0, Config) == if plan.config != "" then Some(plan.config) else Contents(fs, Config)
  {
    var start := if plan.artifact.Some? then Installed(fs, plan.artifact.value, fault).0 else fs;
    ConfigKeepsBinary(start, plan.config, fault, Bin);
    if plan.artifact.Some? { InstallKeepsConfig(fs, plan.artifact.value, fault, Config); }
  }

  // ---- many rounds ----

  datatype Attempt = Attempt(plan: Plan, fault: Fault)

  function Run(fs: Files, attempts: seq<Attempt>, n: nat): Files
    requires n <= |attempts|
  {
    if n == 0 then fs else Round(Run(fs, attempts, n - 1), attempts[n - 1].plan, attempts[n - 1].fault).0
  }

  /** The binary and the configuration of the last round that passed its gates. */
  function LastGood(bin: string, config: string, attempts: seq<Attempt>, n: nat): (string, string)
    requires n <= |attempts|
  {
    if n == 0 then (bin, config)
    else
      var (b, c) := LastGood(bin, config, attempts, n - 1);
      var plan := attempts[n - 1].plan;
      if AtGate(attempts[n - 1].fault) then (b, c)
      else (if plan.artifact.Some? then plan.artifact.value else b, if plan.config != "" then plan.config else c)
  }

  lemma NoFaultSucceeds(fs: Files, plan: Plan)
    ensures Round(fs, plan, NoFault).1
  {
  }

  lemma {:induction false} GoodStep(fs: Files, a: Attempt)
    requires Bin in fs && Config in fs && (AtGate(a.fault) || a.fault.NoFault?)
    ensures var (b, c) := LastGood(fs[Bin], fs[Config], [a], 1);
            var after := Round(fs, a.plan, a.fault).0;
            Contents(after, Bin) == Some(b) && Contents(after, Config) == Some(c)
  {
    assert LastGood(fs[Bin], fs[Config], [a], 0) == (fs[Bin], fs[Config]);
    if AtGate(a.fault) {
      GateFailureIsUndone(fs, a.plan, a.fault);
    } else {
      NoFaultSucceeds(fs, a.plan);
      SuccessInstalls(fs, a.plan, a.fault);
    }
  }

  /** After n rounds, binary and configuration are the ones that last passed. */
  ghost predicate HasLastGood(fs: Files, attempts: seq<Attempt>, n: nat)
    requires n <= |attempts| && Bin in fs && Config in fs
  {
    var (b, c) := LastGood(fs[Bin], fs[Config], attempts, n);
    Contents(Run(fs, attempts, n), Bin) == Some(b) && Contents(Run(fs, attempts, n), Config) == Some(c)
  }

  lemma {:induction false} StaysLastGood(fs: Files, attempts: seq<Attempt>, n: nat)
    requires n < |attempts| && Bin in fs && Config in fs && HasLastGood(fs, attempts, n)
    requires FailsOnlyAtGates(attempts, n + 1)
    ensures HasLastGood(fs, attempts, n + 1)
  {
    var before, a := Run(fs, attempts, n), attempts[n];
    assert AtGate(a.fault) || a.fault.NoFault?;
    GoodStep(before, a);
    assert LastGood(before[Bin], before[Config], [a], 0) == LastGood(fs[Bin], fs[Config], attempts, n);
  }

  lemma StartsLastGood(fs: Files, attempts: seq<Attempt>)
    requires Bin in fs && Config in fs
    ensures HasLastGood(fs, attempts, 0)
  {
  }

  /** Each of the first n rounds fails at a gate or not at all. */
  predicate FailsOnlyAtGates(attempts: seq<Attempt>, n: nat)
    requires n <= |attempts|
  {
    forall k :: 0 <= k < n ==> AtGate(attempts[k].fault) || attempts[k].fault.NoFault?
  }

  /** Over any run in which rounds fail at a gate or not at all, the node keeps what last passed. */
  lemma {:induction false} KeepsLastGood(fs: Files, attempts: seq<Attempt>, n: nat)
    requires n <= |attempts| && Bin in fs && Config in fs && FailsOnlyAtGates(attempts, n)
    ensures HasLastGood(fs, attempts, n)
  {
    if n > 0 {
      var m := n - 1;
      KeepsLastGood(fs, attempts, m);
      StaysLastGood(fs, attempts, m);
    } else {
      StartsLastGood(fs, attempts);
    }
  }

  /** The round comes to the point where it is to fail. */
  predicate Reaches(plan: Plan, fault: Fault) {
    match fault
    case NoFault => false
    case ConfigDir => plan.config != ""
    case ConfigTempFile(_) => plan.config != ""
    case ConfigRename => plan.config != ""
    case Check => true
    case Start => true
    case Verify => true
    case _ => plan.artifact.Some?
  }

  /** A round succeeds exactly when it does not come to a failure. */
  lemma {:induction false} SucceedsIff(fs: Files, plan: Plan, fault: Fault)
    ensures Round(fs, plan, fault).1 <==> !Reaches(plan, fault)
  {
  }

  /** A download that fails is another matter: after a successful upgrade it brings back the binary from
    * before that upgrade. */
  lemma {:induction false} FailedDownloadDowngrades(fs: Files, upgrade: Plan, next: Plan)
    requires Bin in fs && upgrade.artifact.Some? && next.artifact.Some?
    ensures var upgraded := Round(fs, upgrade, NoFault).0;
            && Contents(upgraded, Bin) == upgrade.artifact
            && Contents(Round(upgraded, next, Fetch).0, Bin) == Some(fs[Bin])
  {
    SuccessInstalls(fs, upgrade, NoFault);
    var upgraded := Round(fs, upgrade, NoFault).0;
    ConfigKeepsBinary(Installed(fs, upgrade.artifact.value, NoFault).0, upgrade.config, NoFault, BinPrev);
    assert Contents(upgraded, BinPrev) == Some(fs[Bin]);
    BinaryAfterRollback(upgraded, true, NeedConfig(upgraded, next));
  }
}
