/**
  The external watchdog bridge for the standard Linux watchdog device.

  The process-wide descriptor `wdogFd` is a field of the class
  `ExternalWatchdog`; every operating-system call the bridge makes is appended,
  with the answer it got, to the ghost trace `calls`. The answers themselves are
  parameters of the methods. The functions before the class say, for each
  operation, which calls it makes and what it leaves in `wdogFd`; the methods
  are proved to do exactly that, and the properties of the functions are
  proved in module PaWdogProperties.
 */
module PaWdog {
  import opened OsCalls

  /** Size of the buffer the modprobe command is formatted into, NUL included. */
  const MaxSystemCmdLength: nat := 200

  /** Number of times Init tries to open the watchdog device. */
  const MaxWdogOpenTries: nat := 8

  /** The value of `wdogFd` while no device is open. */
  const Unopened: int := -1

  /** Seconds slept after each failed open. */
  const RetryDelaySeconds: nat := 1

  /** The byte that keeps the watchdog from expiring. */
  const KeepAliveByte: char := 'k'

  /** The "magic close" byte that disarms the watchdog before it is closed. */
  const DisarmByte: char := 'V'

  const ModprobePrefix: string := "/sbin/modprobe "

  /**
    The build configuration: whether an external watchdog is expected at all
    (LE_CONFIG_WDOG_ENABLE_EXTERNAL), the kernel module to load, as a C
    character array (LE_CONFIG_WDOG_PA_MODULE), and the device node
    (LE_CONFIG_WDOG_PA_DEVICE). Each character of a name or path stands for
    one byte of the C array, so lengths here are byte counts.
   */
  datatype Config = Config(externalEnabled: bool, moduleName: string, devicePath: string)

  /** Which fatal diagnostic ended the process. */
  datatype FatalCause = OpenExhausted | WatchdogExpired

  /** How an operation ends: the process goes on, dies fatally, or exits with a status. */
  datatype Outcome = Running | Fatal(cause: FatalCause) | Exited(status: int)

  /** The C string held by a character array: its characters before the first NUL. */
  function CString(s: string): (r: string)
    ensures r <= s && '\0' !in r
    ensures |r| < |s| ==> s[|r|] == '\0'
  {
    if s == [] || s[0] == '\0' then [] else [s[0]] + CString(s[1..])
  }

  /** Init loads a module only when the configured name's first character is not NUL. */
  function ModuleConfigured(name: string): (b: bool)
    ensures b <==> CString(name) != []
  {
    |name| > 0 && name[0] != '\0'
  }

  /**
    The command snprintf leaves in the MaxSystemCmdLength-byte buffer from
    "/sbin/modprobe %s": the whole text when it fits before the terminating
    NUL, otherwise its first MaxSystemCmdLength - 1 characters.
   */
  function ModprobeCommand(name: string): (cmd: string)
    ensures |cmd| <= MaxSystemCmdLength - 1 && '\0' !in cmd
    ensures ModprobePrefix <= cmd <= ModprobePrefix + CString(name)
    ensures |cmd| == if |ModprobePrefix + CString(name)| < MaxSystemCmdLength
                     then |ModprobePrefix + CString(name)|
                     else MaxSystemCmdLength - 1
  {
    var full := ModprobePrefix + CString(name);
    if |full| < MaxSystemCmdLength then full else full[..MaxSystemCmdLength - 1]
  }

  /**
    The first attempt, from `from` on and below MaxWdogOpenTries, whose open
    succeeded; MaxWdogOpenTries when none of them did.
   */
  function FirstOpened(opens: seq<OpenResult>, from: nat): (k: nat)
    requires from <= MaxWdogOpenTries <= |opens|
    ensures from <= k <= MaxWdogOpenTries
    ensures forall j :: from <= j < k ==> opens[j].OpenFailed?
    ensures k < MaxWdogOpenTries ==> opens[k].Opened?
    decreases MaxWdogOpenTries - from
  {
    if from == MaxWdogOpenTries || opens[from].Opened? then from
    else FirstOpened(opens, from + 1)
  }

  /**
    The attempt at which Init's open succeeds, which is also the number of
    failed attempts before it; MaxWdogOpenTries when every attempt fails.
   */
  function OpenAttempt(opens: seq<OpenResult>): (k: nat)
    requires MaxWdogOpenTries <= |opens|
    ensures k <= MaxWdogOpenTries
    ensures forall j :: 0 <= j < k ==> opens[j].OpenFailed?
    ensures k < MaxWdogOpenTries ==> opens[k].Opened?
  {
    FirstOpened(opens, 0)
  }

  /** An attempt before which every open failed and at which one succeeded is OpenAttempt. */
  lemma OpenAttemptIs(opens: seq<OpenResult>, i: nat)
    requires i <= MaxWdogOpenTries <= |opens|
    requires forall j :: 0 <= j < i ==> opens[j].OpenFailed?
    requires i < MaxWdogOpenTries ==> opens[i].Opened?
    ensures OpenAttempt(opens) == i
  {
  }

  /** Calls made by the module-load step. */
  function LoadModuleCalls(name: string, systemStatus: int): (r: seq<SysCall>)
    ensures |r| <= 1 && (r != [] <==> ModuleConfigured(name))
    ensures r != [] ==> r[0] == System(ModprobeCommand(name), systemStatus)
  {
    if ModuleConfigured(name) then [System(ModprobeCommand(name), systemStatus)] else []
  }

  /** Calls made by the first `n` open attempts when each of them fails. */
  function FailedAttemptCalls(path: string, opens: seq<OpenResult>, n: nat): (r: seq<SysCall>)
    requires n <= |opens|
    ensures |r| == 2 * n
  {
    if n == 0 then []
    else FailedAttemptCalls(path, opens, n - 1) + [Open(path, opens[n - 1]), Sleep(RetryDelaySeconds)]
  }

  /** Calls made by Init's retry loop. */
  function OpenLoopCalls(path: string, opens: seq<OpenResult>): (r: seq<SysCall>)
    requires MaxWdogOpenTries <= |opens|
    ensures var k := OpenAttempt(opens);
      |r| == 2 * k + if k < MaxWdogOpenTries then 1 else 0
    ensures var k := OpenAttempt(opens);
      k < MaxWdogOpenTries ==> r[|r| - 1] == Open(path, opens[k])
  {
    var k := OpenAttempt(opens);
    FailedAttemptCalls(path, opens, k) + if k < MaxWdogOpenTries then [Open(path, opens[k])] else []
  }

  /** How Init ends. */
  function InitOutcome(cfg: Config, opens: seq<OpenResult>): (o: Outcome)
    requires MaxWdogOpenTries <= |opens|
    ensures o == Running || o == Fatal(OpenExhausted)
    ensures o == Fatal(OpenExhausted) ==> cfg.externalEnabled && opens[MaxWdogOpenTries - 1].OpenFailed?
  {
    if cfg.externalEnabled && OpenAttempt(opens) == MaxWdogOpenTries then Fatal(OpenExhausted) else Running
  }

  /** The descriptor Init leaves in `wdogFd`, given the one it found there. */
  function InitFd(cfg: Config, opens: seq<OpenResult>, fd: int): (r: int)
    requires MaxWdogOpenTries <= |opens|
    ensures !cfg.externalEnabled ==> r == fd
    ensures cfg.externalEnabled ==>
      r == ReturnedFd(opens[if OpenAttempt(opens) < MaxWdogOpenTries then OpenAttempt(opens) else MaxWdogOpenTries - 1])
    ensures cfg.externalEnabled ==> (r == Unopened <==> InitOutcome(cfg, opens) == Fatal(OpenExhausted))
  {
    if !cfg.externalEnabled then fd
    else if OpenAttempt(opens) < MaxWdogOpenTries then opens[OpenAttempt(opens)].fd
    else Unopened
  }

  /** Calls made by Kick with `wdogFd == fd`. */
  function KickCalls(cfg: Config, fd: int, writeResult: int): (r: seq<SysCall>)
    ensures |r| <= 1 && (r != [] <==> cfg.externalEnabled && fd != Unopened)
    ensures r != [] ==> r[0] == Write(fd, KeepAliveByte, writeResult)
  {
    if cfg.externalEnabled && fd != Unopened then [Write(fd, KeepAliveByte, writeResult)] else []
  }

  /** Calls made by Init: module load, retry loop, then the first kick if the process survives. */
  function InitCalls(cfg: Config, opens: seq<OpenResult>, systemStatus: int, kickResult: int): (r: seq<SysCall>)
    requires MaxWdogOpenTries <= |opens|
    ensures !cfg.externalEnabled ==> r == []
  {
    (if cfg.externalEnabled
     then LoadModuleCalls(cfg.moduleName, systemStatus) + OpenLoopCalls(cfg.devicePath, opens)
     else [])
    + FirstKickCalls(cfg, opens, kickResult)
  }

  /** The kick that ends Init, made only when the process survives the retry loop. */
  function FirstKickCalls(cfg: Config, opens: seq<OpenResult>, kickResult: int): (r: seq<SysCall>)
    requires MaxWdogOpenTries <= |opens|
    ensures InitOutcome(cfg, opens) != Running ==> r == []
    ensures cfg.externalEnabled && InitOutcome(cfg, opens) == Running ==>
      r == [Write(InitFd(cfg, opens, Unopened), KeepAliveByte, kickResult)]
  {
    if InitOutcome(cfg, opens) == Running then KickCalls(cfg, InitFd(cfg, opens, Unopened), kickResult) else []
  }

  /** Calls made by the SIGTERM handler with `wdogFd == fd`. */
  function SigTermCalls(cfg: Config, fd: int, writeResult: int, closeResult: int): (r: seq<SysCall>)
    ensures |r| == if cfg.externalEnabled then 2 else 0
  {
    if cfg.externalEnabled then [Write(fd, DisarmByte, writeResult), Close(fd, closeResult)] else []
  }

  /** The bridge's process-wide state. */
  class ExternalWatchdog {
    const config: Config
    /** The watchdog descriptor, or Unopened. */
    var wdogFd: int
    /** Every operating-system call made so far, with its answer. */
    ghost var calls: seq<SysCall>

    /**
      `wdogFd` holds -1 or a descriptor that an open(2) recorded in `calls`
      returned; with the external watchdog disabled it stays Unopened and no
      call is ever made.
     */
    ghost predicate Valid()
      reads this
      ensures Valid() && wdogFd != Unopened ==> config.externalEnabled
    {
      wdogFd >= Unopened &&
      (wdogFd != Unopened ==> Opened(wdogFd) in OpenAnswers(calls)) &&
      (!config.externalEnabled ==> wdogFd == Unopened && calls == [])
    }

    constructor (config: Config)
      ensures Valid() && this.config == config
      ensures wdogFd == Unopened && calls == []
    {
      this.config := config;
      wdogFd := Unopened;
      calls := [];
    }

    /** Writes the keep-alive byte when a device is open; a failed write only warns. */
    method Kick(writeResult: int)
      requires Valid()
      modifies this
      ensures Valid() && wdogFd == old(wdogFd)
      ensures calls == old(calls) + KickCalls(config, old(wdogFd), writeResult)
    {
      if config.externalEnabled {
        if wdogFd != Unopened {
          CollectSnoc(calls, Write(wdogFd, KeepAliveByte, writeResult), OpenAnsweredBy);
          calls := calls + [Write(wdogFd, KeepAliveByte, writeResult)];
          // A result other than 1 draws a warning and nothing else.
        }
      }
    }

    /**
      Loads the module, opens the device with up to MaxWdogOpenTries attempts
      and kicks once. `opens[i]` answers attempt i.
     */
    method Init(opens: seq<OpenResult>, systemStatus: int, kickResult: int) returns (outcome: Outcome)
      requires Valid() && MaxWdogOpenTries <= |opens|
      modifies this
      ensures Valid()
      ensures wdogFd == InitFd(config, opens, old(wdogFd))
      ensures outcome == InitOutcome(config, opens)
      ensures calls == old(calls) + InitCalls(config, opens, systemStatus, kickResult)
    {
      outcome := Running;
      if config.externalEnabled {
        LoadModule(systemStatus);
        var i := SpinUntilOpen(opens);
        if i >= MaxWdogOpenTries {
          outcome := Fatal(OpenExhausted);
          assert FirstKickCalls(config, opens, kickResult) == [];
          return;
        }
      }
      ghost var beforeKick := calls;
      Kick(kickResult);
      assert calls == beforeKick + FirstKickCalls(config, opens, kickResult);
    }

    /** Init's module-load step: runs modprobe when a module is configured; a failure only warns. */
    method LoadModule(systemStatus: int)
      requires Valid() && config.externalEnabled
      modifies this
      ensures Valid() && wdogFd == old(wdogFd)
      ensures calls == old(calls) + LoadModuleCalls(config.moduleName, systemStatus)
    {
      if ModuleConfigured(config.moduleName) {
        var command := ModprobeCommand(config.moduleName);
        CollectSnoc(calls, System(command, systemStatus), OpenAnsweredBy);
        calls := calls + [System(command, systemStatus)];
        // A negative status draws a warning and nothing else.
      }
    }

    /**
      Init's retry loop: opens the device until an attempt succeeds or
      MaxWdogOpenTries attempts have failed, sleeping after each failure, and
      returns the loop counter.
     */
    method SpinUntilOpen(opens: seq<OpenResult>) returns (i: nat)
      requires Valid() && config.externalEnabled && MaxWdogOpenTries <= |opens|
      modifies this
      ensures Valid() && i == OpenAttempt(opens)
      ensures wdogFd == if i < MaxWdogOpenTries then opens[i].fd else Unopened
      ensures calls == old(calls) + OpenLoopCalls(config.devicePath, opens)
    {
      i := 0;
      while i < MaxWdogOpenTries
        invariant i <= MaxWdogOpenTries
        invariant forall j :: 0 <= j < i ==> opens[j].OpenFailed?
        invariant calls == old(calls) + FailedAttemptCalls(config.devicePath, opens, i)
        invariant wdogFd >= Unopened && (i > 0 ==> wdogFd == Unopened)
      {
        ghost var tried := calls;
        wdogFd := ReturnedFd(opens[i]);
        calls := calls + [Open(config.devicePath, opens[i])];
        if wdogFd < 0 {
          calls := calls + [Sleep(RetryDelaySeconds)];
          assert calls == tried + [Open(config.devicePath, opens[i]), Sleep(RetryDelaySeconds)];
        } else {
          CollectSnoc(tried, Open(config.devicePath, opens[i]), OpenAnsweredBy);
          break;
        }
        i := i + 1;
      }
      OpenAttemptIs(opens, i);
    }

    /**
      SIGTERM handler: writes the disarm byte, closes the descriptor and marks
      it Unopened, whatever those calls answer and whether or not a device was
      open, then exits with the negated signal number.
     */
    method SigTermEventHandler(sigNum: int, writeResult: int, closeResult: int) returns (outcome: Outcome)
      requires Valid()
      modifies this
      ensures Valid() && wdogFd == Unopened
      ensures calls == old(calls) + SigTermCalls(config, old(wdogFd), writeResult, closeResult)
      ensures outcome == Exited(-sigNum)
    {
      if config.externalEnabled {
        calls := calls + [Write(wdogFd, DisarmByte, writeResult)];
        // A result other than 1 draws a warning and nothing else.
        calls := calls + [Close(wdogFd, closeResult)];
        // A negative status draws a warning and nothing else.
        wdogFd := Unopened;
      }
      outcome := Exited(-sigNum);
    }

    /** The action taken when a service stops kicking: always fatal, touching nothing. */
    method Shutdown() returns (outcome: Outcome)
      ensures outcome == Fatal(WatchdogExpired)
    {
      outcome := Fatal(WatchdogExpired);
    }
  }
}
