/**
  What the watchdog bridge's operations promise, stated over the calls they
  make: how often Init opens and sleeps, what reaches the device, what the
  SIGTERM handler does whatever the device answers, and that the disabled
  configuration touches nothing.
 */
module PaWdogProperties {
  import opened OsCalls
  import opened PaWdog

  /** `n` sleeps of RetryDelaySeconds each. */
  function RetrySleeps(n: nat): seq<nat>
  {
    if n == 0 then [] else RetrySleeps(n - 1) + [RetryDelaySeconds]
  }

  /** A prefix one longer adds the next element. */
  lemma PrefixSnoc<T>(s: seq<T>, k: nat)
    requires k < |s|
    ensures s[..k + 1] == s[..k] + [s[k]]
  {
  }

  /** Failed open attempts consult their answers in order, sleep once each and touch no device. */
  lemma FailedAttemptsView(path: string, opens: seq<OpenResult>, n: nat)
    requires n <= |opens|
    ensures OpenAnswers(FailedAttemptCalls(path, opens, n)) == opens[..n]
    ensures Slept(FailedAttemptCalls(path, opens, n)) == RetrySleeps(n)
    ensures Written(FailedAttemptCalls(path, opens, n)) == []
    ensures Closed(FailedAttemptCalls(path, opens, n)) == []
    ensures Commands(FailedAttemptCalls(path, opens, n)) == []
  {
    FailedAttemptsAnswers(path, opens, n);
    FailedAttemptsSleep(path, opens, n);
    FailedAttemptsQuiet(path, opens, n);
  }

  /** Failed open attempts consult the answers in order. */
  lemma {:induction false} FailedAttemptsAnswers(path: string, opens: seq<OpenResult>, n: nat)
    requires n <= |opens|
    ensures OpenAnswers(FailedAttemptCalls(path, opens, n)) == opens[..n]
  {
    if n > 0 {
      FailedAttemptsAnswers(path, opens, n - 1);
      CollectSnoc2(FailedAttemptCalls(path, opens, n - 1), Open(path, opens[n - 1]), Sleep(RetryDelaySeconds), OpenAnsweredBy);
      PrefixSnoc(opens, n - 1);
    }
  }

  /** Each failed open attempt is followed by one sleep of RetryDelaySeconds. */
  lemma {:induction false} FailedAttemptsSleep(path: string, opens: seq<OpenResult>, n: nat)
    requires n <= |opens|
    ensures Slept(FailedAttemptCalls(path, opens, n)) == RetrySleeps(n)
  {
    if n > 0 {
      FailedAttemptsSleep(path, opens, n - 1);
      CollectSnoc2(FailedAttemptCalls(path, opens, n - 1), Open(path, opens[n - 1]), Sleep(RetryDelaySeconds), SleptBy);
    }
  }

  /** Failed open attempts write, close and run nothing. */
  lemma {:induction false} FailedAttemptsQuiet(path: string, opens: seq<OpenResult>, n: nat)
    requires n <= |opens|
    ensures Written(FailedAttemptCalls(path, opens, n)) == []
    ensures Closed(FailedAttemptCalls(path, opens, n)) == []
    ensures Commands(FailedAttemptCalls(path, opens, n)) == []
  {
    if n > 0 {
      var before, open, sleep := FailedAttemptCalls(path, opens, n - 1), Open(path, opens[n - 1]), Sleep(RetryDelaySeconds);
      FailedAttemptsQuiet(path, opens, n - 1);
      CollectSnoc2(before, open, sleep, DeliveredBy);
      CollectSnoc2(before, open, sleep, ClosedBy);
      CollectSnoc2(before, open, sleep, CommandRunBy);
    }
  }

  /** Failed attempts followed by one more open consult one more answer and nothing else. */
  lemma FinalAttemptView(path: string, opens: seq<OpenResult>, k: nat)
    requires k < |opens|
    ensures OpenAnswers(FailedAttemptCalls(path, opens, k) + [Open(path, opens[k])]) == opens[..k + 1]
    ensures Slept(FailedAttemptCalls(path, opens, k) + [Open(path, opens[k])]) == RetrySleeps(k)
    ensures Written(FailedAttemptCalls(path, opens, k) + [Open(path, opens[k])]) == []
    ensures Closed(FailedAttemptCalls(path, opens, k) + [Open(path, opens[k])]) == []
    ensures Commands(FailedAttemptCalls(path, opens, k) + [Open(path, opens[k])]) == []
  {
    var failed := FailedAttemptCalls(path, opens, k);
    var open := Open(path, opens[k]);
    FailedAttemptsView(path, opens, k);
    assert OpenAnswers(failed + [open]) == opens[..k + 1] by {
      CollectSnoc(failed, open, OpenAnsweredBy);
      PrefixSnoc(opens, k);
    }
    CollectSnoc(failed, open, SleptBy);
    CollectSnoc(failed, open, DeliveredBy);
    CollectSnoc(failed, open, ClosedBy);
    CollectSnoc(failed, open, CommandRunBy);
  }

  /** Init's retry loop: the answers it consults stop at the first success, and it sleeps once per failure. */
  lemma OpenLoopView(path: string, opens: seq<OpenResult>)
    requires MaxWdogOpenTries <= |opens|
    ensures var k := OpenAttempt(opens);
      OpenAnswers(OpenLoopCalls(path, opens)) == opens[..if k < MaxWdogOpenTries then k + 1 else MaxWdogOpenTries]
    ensures Slept(OpenLoopCalls(path, opens)) == RetrySleeps(OpenAttempt(opens))
    ensures Written(OpenLoopCalls(path, opens)) == []
    ensures Closed(OpenLoopCalls(path, opens)) == []
    ensures Commands(OpenLoopCalls(path, opens)) == []
  {
    var k := OpenAttempt(opens);
    if k < MaxWdogOpenTries {
      assert OpenLoopCalls(path, opens) == FailedAttemptCalls(path, opens, k) + [Open(path, opens[k])];
      FinalAttemptView(path, opens, k);
    } else {
      assert OpenLoopCalls(path, opens) == FailedAttemptCalls(path, opens, k);
      FailedAttemptsView(path, opens, k);
    }
  }

  /** The module-load step runs at most the one command and makes no other call. */
  lemma LoadModuleView(name: string, systemStatus: int)
    ensures Commands(LoadModuleCalls(name, systemStatus)) ==
      if ModuleConfigured(name) then [ModprobeCommand(name)] else []
    ensures OpenAnswers(LoadModuleCalls(name, systemStatus)) == []
    ensures Slept(LoadModuleCalls(name, systemStatus)) == []
    ensures Written(LoadModuleCalls(name, systemStatus)) == []
    ensures Closed(LoadModuleCalls(name, systemStatus)) == []
  {
    if ModuleConfigured(name) {
      var run := System(ModprobeCommand(name), systemStatus);
      CollectOne(run, CommandRunBy);
      CollectOne(run, OpenAnsweredBy);
      CollectOne(run, SleptBy);
      CollectOne(run, DeliveredBy);
      CollectOne(run, ClosedBy);
    }
  }

  /**
    Kick writes the keep-alive byte, and nothing else, exactly when the
    external watchdog is enabled and a descriptor is held; the byte reaches
    the device when that descriptor is real and the write reports one byte.
   */
  lemma KickProtocol(cfg: Config, fd: int, writeResult: int)
    ensures KickCalls(cfg, fd, writeResult) != [] <==> cfg.externalEnabled && fd != Unopened
    ensures forall c :: c in KickCalls(cfg, fd, writeResult) ==> c == Write(fd, KeepAliveByte, writeResult)
    ensures Written(KickCalls(cfg, fd, writeResult)) ==
      if cfg.externalEnabled && fd >= 0 && writeResult == 1 then [KeepAliveByte] else []
    ensures OpenAnswers(KickCalls(cfg, fd, writeResult)) == []
    ensures Slept(KickCalls(cfg, fd, writeResult)) == []
    ensures Closed(KickCalls(cfg, fd, writeResult)) == []
    ensures Commands(KickCalls(cfg, fd, writeResult)) == []
  {
    if cfg.externalEnabled && fd != Unopened {
      var write := Write(fd, KeepAliveByte, writeResult);
      CollectOne(write, DeliveredBy);
      CollectOne(write, OpenAnsweredBy);
      CollectOne(write, SleptBy);
      CollectOne(write, ClosedBy);
      CollectOne(write, CommandRunBy);
    }
  }

  /** With the external watchdog enabled, Init's calls are the module load, the retry loop and the kick, in that order. */
  lemma InitCollect<T>(cfg: Config, opens: seq<OpenResult>, systemStatus: int, kickResult: int, f: SysCall -> seq<T>)
    requires cfg.externalEnabled && MaxWdogOpenTries <= |opens|
    ensures Collect(InitCalls(cfg, opens, systemStatus, kickResult), f) ==
      Collect(LoadModuleCalls(cfg.moduleName, systemStatus), f)
      + Collect(OpenLoopCalls(cfg.devicePath, opens), f)
      + Collect(FirstKickCalls(cfg, opens, kickResult), f)
  {
    var load := LoadModuleCalls(cfg.moduleName, systemStatus);
    var loop := OpenLoopCalls(cfg.devicePath, opens);
    CollectAppend(load, loop, f);
    CollectAppend(load + loop, FirstKickCalls(cfg, opens, kickResult), f);
  }

  /** The kick that ends Init neither opens, sleeps, closes nor runs a command. */
  lemma FirstKickView(cfg: Config, opens: seq<OpenResult>, kickResult: int)
    requires MaxWdogOpenTries <= |opens|
    ensures OpenAnswers(FirstKickCalls(cfg, opens, kickResult)) == []
    ensures Slept(FirstKickCalls(cfg, opens, kickResult)) == []
    ensures Closed(FirstKickCalls(cfg, opens, kickResult)) == []
    ensures Commands(FirstKickCalls(cfg, opens, kickResult)) == []
  {
    KickProtocol(cfg, InitFd(cfg, opens, Unopened), kickResult);
  }

  /**
    Init makes at most MaxWdogOpenTries open attempts, consulting the answers
    in order and stopping at the first success, and sleeps once after each
    failed attempt: as many sleeps as failures before the success, or
    MaxWdogOpenTries when every attempt fails.
   */
  lemma InitRetryBound(cfg: Config, opens: seq<OpenResult>, systemStatus: int, kickResult: int)
    requires cfg.externalEnabled && MaxWdogOpenTries <= |opens|
    ensures var k := OpenAttempt(opens);
      OpenAnswers(InitCalls(cfg, opens, systemStatus, kickResult))
        == opens[..if k < MaxWdogOpenTries then k + 1 else MaxWdogOpenTries]
    ensures |OpenAnswers(InitCalls(cfg, opens, systemStatus, kickResult))| <= MaxWdogOpenTries
    ensures Slept(InitCalls(cfg, opens, systemStatus, kickResult)) == RetrySleeps(OpenAttempt(opens))
  {
    InitAnswersAreLoops(cfg, opens, systemStatus, kickResult);
    InitSleepsAreLoops(cfg, opens, systemStatus, kickResult);
    OpenLoopView(cfg.devicePath, opens);
  }

  /** Only the retry loop of Init opens the device. */
  lemma InitAnswersAreLoops(cfg: Config, opens: seq<OpenResult>, systemStatus: int, kickResult: int)
    requires cfg.externalEnabled && MaxWdogOpenTries <= |opens|
    ensures OpenAnswers(InitCalls(cfg, opens, systemStatus, kickResult)) == OpenAnswers(OpenLoopCalls(cfg.devicePath, opens))
  {
    InitCollect(cfg, opens, systemStatus, kickResult, OpenAnsweredBy);
    LoadModuleView(cfg.moduleName, systemStatus);
    FirstKickView(cfg, opens, kickResult);
    assert OpenAnswers(InitCalls(cfg, opens, systemStatus, kickResult)) == [] + OpenAnswers(OpenLoopCalls(cfg.devicePath, opens)) + [];
  }

  /** Only the retry loop of Init sleeps. */
  lemma InitSleepsAreLoops(cfg: Config, opens: seq<OpenResult>, systemStatus: int, kickResult: int)
    requires cfg.externalEnabled && MaxWdogOpenTries <= |opens|
    ensures Slept(InitCalls(cfg, opens, systemStatus, kickResult)) == Slept(OpenLoopCalls(cfg.devicePath, opens))
  {
    InitCollect(cfg, opens, systemStatus, kickResult, SleptBy);
    LoadModuleView(cfg.moduleName, systemStatus);
    FirstKickView(cfg, opens, kickResult);
    assert Slept(InitCalls(cfg, opens, systemStatus, kickResult)) == [] + Slept(OpenLoopCalls(cfg.devicePath, opens)) + [];
  }

  /**
    When all MaxWdogOpenTries opens fail, Init ends fatally with `wdogFd` at
    Unopened, after exactly that many attempts and sleeps, and writes nothing.
   */
  lemma InitAllOpensFail(cfg: Config, opens: seq<OpenResult>, systemStatus: int, kickResult: int, fd: int)
    requires cfg.externalEnabled && MaxWdogOpenTries <= |opens|
    requires forall j :: 0 <= j < MaxWdogOpenTries ==> opens[j].OpenFailed?
    ensures InitOutcome(cfg, opens) == Fatal(OpenExhausted)
    ensures InitFd(cfg, opens, fd) == Unopened
    ensures |OpenAnswers(InitCalls(cfg, opens, systemStatus, kickResult))| == MaxWdogOpenTries
    ensures |Slept(InitCalls(cfg, opens, systemStatus, kickResult))| == MaxWdogOpenTries
    ensures forall c :: c in InitCalls(cfg, opens, systemStatus, kickResult) ==> !c.Write?
    ensures Written(InitCalls(cfg, opens, systemStatus, kickResult)) == []
  {
    OpenAttemptIs(opens, MaxWdogOpenTries);
    var load := LoadModuleCalls(cfg.moduleName, systemStatus);
    var failed := FailedAttemptCalls(cfg.devicePath, opens, MaxWdogOpenTries);
    assert InitCalls(cfg, opens, systemStatus, kickResult) == load + failed by {
      assert FirstKickCalls(cfg, opens, kickResult) == [];
      assert OpenLoopCalls(cfg.devicePath, opens) == failed + [];
      assert InitCalls(cfg, opens, systemStatus, kickResult) == (load + (failed + [])) + [];
    }
    assert |OpenAnswers(load + failed)| == MaxWdogOpenTries && |Slept(load + failed)| == MaxWdogOpenTries by {
      InitRetryBound(cfg, opens, systemStatus, kickResult);
      RetrySleepsLength(MaxWdogOpenTries);
    }
    assert Written(load + failed) == [] by {
      CollectAppend(load, failed, DeliveredBy);
      LoadModuleView(cfg.moduleName, systemStatus);
      FailedAttemptsView(cfg.devicePath, opens, MaxWdogOpenTries);
    }
    forall c: SysCall | c in load + failed
      ensures !c.Write?
    {
      FailedCallsNoWrite(cfg.devicePath, opens, MaxWdogOpenTries);
    }
  }

  /** RetrySleeps(n) holds n sleeps. */
  lemma {:induction false} RetrySleepsLength(n: nat)
    ensures |RetrySleeps(n)| == n
  {
    if n > 0 {
      RetrySleepsLength(n - 1);
    }
  }

  /** Failed open attempts write nothing. */
  lemma {:induction false} FailedCallsNoWrite(path: string, opens: seq<OpenResult>, n: nat)
    requires n <= |opens|
    ensures forall c :: c in FailedAttemptCalls(path, opens, n) ==> !c.Write?
  {
    if n > 0 {
      FailedCallsNoWrite(path, opens, n - 1);
    }
  }

  /**
    When one of the first MaxWdogOpenTries opens succeeds, Init keeps running
    with the first successful descriptor in `wdogFd`, and its calls are the
    module load, the retry loop and then a single write of the keep-alive byte
    to that descriptor.
   */
  lemma InitOpenedKicksOnce(cfg: Config, opens: seq<OpenResult>, systemStatus: int, kickResult: int, fd: int)
    requires cfg.externalEnabled && MaxWdogOpenTries <= |opens|
    requires exists j :: 0 <= j < MaxWdogOpenTries && opens[j].Opened?
    ensures InitOutcome(cfg, opens) == Running
    ensures OpenAttempt(opens) < MaxWdogOpenTries && InitFd(cfg, opens, fd) == opens[OpenAttempt(opens)].fd
    ensures InitCalls(cfg, opens, systemStatus, kickResult) ==
      LoadModuleCalls(cfg.moduleName, systemStatus) + OpenLoopCalls(cfg.devicePath, opens)
      + [Write(opens[OpenAttempt(opens)].fd, KeepAliveByte, kickResult)]
  {
    var k := OpenAttempt(opens);
    var j :| 0 <= j < MaxWdogOpenTries && opens[j].Opened?;
    assert k <= j;
    assert InitFd(cfg, opens, Unopened) == opens[k].fd;
    assert FirstKickCalls(cfg, opens, kickResult) == [Write(opens[k].fd, KeepAliveByte, kickResult)];
  }

  /**
    When one of the first MaxWdogOpenTries opens succeeds, the device has
    received, by the end of Init, exactly the keep-alive byte if the kick
    reports one byte written and nothing otherwise; nothing has been closed.
   */
  lemma InitOpenedDeviceLog(cfg: Config, opens: seq<OpenResult>, systemStatus: int, kickResult: int)
    requires cfg.externalEnabled && MaxWdogOpenTries <= |opens|
    requires exists j :: 0 <= j < MaxWdogOpenTries && opens[j].Opened?
    ensures Written(InitCalls(cfg, opens, systemStatus, kickResult)) ==
      if kickResult == 1 then [KeepAliveByte] else []
    ensures Closed(InitCalls(cfg, opens, systemStatus, kickResult)) == []
  {
    InitOpenedKicksOnce(cfg, opens, systemStatus, kickResult, Unopened);
    var before := LoadModuleCalls(cfg.moduleName, systemStatus) + OpenLoopCalls(cfg.devicePath, opens);
    BeforeKickQuiet(cfg, opens, systemStatus);
    KickAfterQuiet(before, opens[OpenAttempt(opens)].fd, kickResult);
  }

  /** Before its kick, Init has written and closed nothing. */
  lemma BeforeKickQuiet(cfg: Config, opens: seq<OpenResult>, systemStatus: int)
    requires MaxWdogOpenTries <= |opens|
    ensures Written(LoadModuleCalls(cfg.moduleName, systemStatus) + OpenLoopCalls(cfg.devicePath, opens)) == []
    ensures Closed(LoadModuleCalls(cfg.moduleName, systemStatus) + OpenLoopCalls(cfg.devicePath, opens)) == []
  {
    var load := LoadModuleCalls(cfg.moduleName, systemStatus);
    var loop := OpenLoopCalls(cfg.devicePath, opens);
    CollectAppend(load, loop, DeliveredBy);
    CollectAppend(load, loop, ClosedBy);
    LoadModuleView(cfg.moduleName, systemStatus);
    OpenLoopView(cfg.devicePath, opens);
  }

  /** A kick on a real descriptor after a trace that wrote and closed nothing leaves at most the keep-alive byte. */
  lemma KickAfterQuiet(before: seq<SysCall>, fd: nat, kickResult: int)
    requires Written(before) == [] && Closed(before) == []
    ensures Written(before + [Write(fd, KeepAliveByte, kickResult)]) ==
      if kickResult == 1 then [KeepAliveByte] else []
    ensures Closed(before + [Write(fd, KeepAliveByte, kickResult)]) == []
  {
    CollectSnoc(before, Write(fd, KeepAliveByte, kickResult), DeliveredBy);
    CollectSnoc(before, Write(fd, KeepAliveByte, kickResult), ClosedBy);
  }

  /**
    The module-load step runs "/sbin/modprobe <name>" (as ModprobeCommand cuts
    it) first, and only when a module name is configured; no other command is
    run.
   */
  lemma InitModuleLoad(cfg: Config, opens: seq<OpenResult>, systemStatus: int, kickResult: int)
    requires cfg.externalEnabled && MaxWdogOpenTries <= |opens|
    ensures Commands(InitCalls(cfg, opens, systemStatus, kickResult)) ==
      if ModuleConfigured(cfg.moduleName) then [ModprobeCommand(cfg.moduleName)] else []
    ensures ModuleConfigured(cfg.moduleName) ==>
      InitCalls(cfg, opens, systemStatus, kickResult)[0] == System(ModprobeCommand(cfg.moduleName), systemStatus)
  {
    var load := LoadModuleCalls(cfg.moduleName, systemStatus);
    var rest := OpenLoopCalls(cfg.devicePath, opens) + FirstKickCalls(cfg, opens, kickResult);
    assert InitCalls(cfg, opens, systemStatus, kickResult) == load + rest;
    assert Commands(rest) == [] by {
      CollectAppend(OpenLoopCalls(cfg.devicePath, opens), FirstKickCalls(cfg, opens, kickResult), CommandRunBy);
      OpenLoopView(cfg.devicePath, opens);
      FirstKickView(cfg, opens, kickResult);
    }
    CollectAppend(load, rest, CommandRunBy);
    LoadModuleView(cfg.moduleName, systemStatus);
  }


  /**
    A failing module load only warns: whatever status system(3) returns,
    every call Init makes after it is the same.
   */
  lemma InitIgnoresSystemStatus(cfg: Config, opens: seq<OpenResult>, systemStatus: int, otherStatus: int, kickResult: int)
    requires MaxWdogOpenTries <= |opens|
    ensures var skip := if cfg.externalEnabled && ModuleConfigured(cfg.moduleName) then 1 else 0;
      skip <= |InitCalls(cfg, opens, systemStatus, kickResult)| &&
      skip <= |InitCalls(cfg, opens, otherStatus, kickResult)| &&
      InitCalls(cfg, opens, systemStatus, kickResult)[skip..] == InitCalls(cfg, opens, otherStatus, kickResult)[skip..]
  {
    if cfg.externalEnabled {
      var load1 := LoadModuleCalls(cfg.moduleName, systemStatus);
      var load2 := LoadModuleCalls(cfg.moduleName, otherStatus);
      var rest := OpenLoopCalls(cfg.devicePath, opens) + FirstKickCalls(cfg, opens, kickResult);
      assert InitCalls(cfg, opens, systemStatus, kickResult) == load1 + rest;
      assert InitCalls(cfg, opens, otherStatus, kickResult) == load2 + rest;
      assert (load1 + rest)[|load1|..] == rest;
      assert (load2 + rest)[|load2|..] == rest;
    }
  }

  /** The calls of `n` failed attempts depend only on the first `n` answers. */
  lemma {:induction false} FailedAttemptCallsPrefix(path: string, a: seq<OpenResult>, b: seq<OpenResult>, n: nat)
    requires n <= |a| && n <= |b| && a[..n] == b[..n]
    ensures FailedAttemptCalls(path, a, n) == FailedAttemptCalls(path, b, n)
  {
    if n > 0 {
      assert a[..n - 1] == a[..n][..n - 1] && b[..n - 1] == b[..n][..n - 1];
      assert a[n - 1] == a[..n][n - 1] && b[n - 1] == b[..n][n - 1];
      FailedAttemptCallsPrefix(path, a, b, n - 1);
    }
  }

  /**
    Init stops at the first successful open: answers after it are never
    consulted, so two answer sequences that agree up to it give the same calls,
    the same descriptor and the same outcome.
   */
  lemma InitStopsAtFirstOpen(cfg: Config, opens: seq<OpenResult>, later: seq<OpenResult>,
                             systemStatus: int, kickResult: int, fd: int)
    requires MaxWdogOpenTries <= |opens| && MaxWdogOpenTries <= |later|
    requires OpenAttempt(opens) < MaxWdogOpenTries
    requires later[..OpenAttempt(opens) + 1] == opens[..OpenAttempt(opens) + 1]
    ensures InitOutcome(cfg, later) == InitOutcome(cfg, opens)
    ensures InitFd(cfg, later, fd) == InitFd(cfg, opens, fd)
    ensures InitCalls(cfg, later, systemStatus, kickResult) == InitCalls(cfg, opens, systemStatus, kickResult)
  {
    var k := OpenAttempt(opens);
    forall j | 0 <= j <= k
      ensures later[j] == opens[j]
    {
      assert later[j] == later[..k + 1][j];
    }
    OpenAttemptIs(later, k);
    assert later[..k] == later[..k + 1][..k] && opens[..k] == opens[..k + 1][..k];
    FailedAttemptCallsPrefix(cfg.devicePath, opens, later, k);
  }

  /**
    The SIGTERM handler, with the external watchdog enabled, writes the disarm
    byte and then closes the descriptor it holds, whether or not a device is
    open and whatever the write answers; the device receives the disarm byte
    only from a real descriptor whose write reports one byte. Disabled, it
    makes no call.
   */
  lemma SigTermCleanup(cfg: Config, fd: int, writeResult: int, closeResult: int)
    ensures cfg.externalEnabled ==>
      |SigTermCalls(cfg, fd, writeResult, closeResult)| == 2 &&
      SigTermCalls(cfg, fd, writeResult, closeResult)[0] == Write(fd, DisarmByte, writeResult) &&
      SigTermCalls(cfg, fd, writeResult, closeResult)[1] == Close(fd, closeResult)
    ensures Written(SigTermCalls(cfg, fd, writeResult, closeResult)) ==
      if cfg.externalEnabled && fd >= 0 && writeResult == 1 then [DisarmByte] else []
    ensures Closed(SigTermCalls(cfg, fd, writeResult, closeResult)) ==
      if cfg.externalEnabled then [fd] else []
    ensures OpenAnswers(SigTermCalls(cfg, fd, writeResult, closeResult)) == []
    ensures !cfg.externalEnabled ==> SigTermCalls(cfg, fd, writeResult, closeResult) == []
  {
    if cfg.externalEnabled {
      var write, close := Write(fd, DisarmByte, writeResult), Close(fd, closeResult);
      CollectSnoc2([], write, close, DeliveredBy);
      CollectSnoc2([], write, close, ClosedBy);
      CollectSnoc2([], write, close, OpenAnsweredBy);
      assert [] + [write, close] == SigTermCalls(cfg, fd, writeResult, closeResult);
    }
  }

  /**
    With the external watchdog disabled no operation makes any call: Init
    neither loads a module nor opens a device, leaves `wdogFd` alone and
    carries on; Kick and the SIGTERM handler touch nothing.
   */
  lemma DisabledTouchesNothing(cfg: Config, opens: seq<OpenResult>, systemStatus: int,
                               writeResult: int, closeResult: int, fd: int)
    requires !cfg.externalEnabled && MaxWdogOpenTries <= |opens|
    ensures InitCalls(cfg, opens, systemStatus, writeResult) == []
    ensures InitOutcome(cfg, opens) == Running && InitFd(cfg, opens, fd) == fd
    ensures KickCalls(cfg, fd, writeResult) == []
    ensures SigTermCalls(cfg, fd, writeResult, closeResult) == []
  {
  }

  /**
    A process with the watchdog at /dev/watchdog0 and no module to load: Init
    opens the device at the first attempt and kicks it, SIGTERM then disarms
    and closes it and exits with status -15, and a later Kick writes nothing.
   */
  method TerminationScenario() returns (outcome: Outcome)
    ensures outcome == Exited(-15)
  {
    var bridge := new ExternalWatchdog(Config(true, "", "/dev/watchdog0"));
    var opens := seq(MaxWdogOpenTries, _ => Opened(3));
    var started := bridge.Init(opens, 0, 1);
    OpenAttemptIs(opens, 0);
    assert started == Running && bridge.wdogFd == 3;
    assert bridge.calls == [Open("/dev/watchdog0", Opened(3)), Write(3, KeepAliveByte, 1)];
    outcome := bridge.SigTermEventHandler(15, 1, 0);
    bridge.Kick(1);
    assert bridge.wdogFd == Unopened;
    assert bridge.calls == [Open("/dev/watchdog0", Opened(3)), Write(3, KeepAliveByte, 1),
                            Write(3, DisarmByte, 1), Close(3, 0)];
    var shutdown := bridge.Shutdown();
    assert shutdown == Fatal(WatchdogExpired) && bridge.wdogFd == Unopened;
  }
}
