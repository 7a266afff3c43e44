# External watchdog bridge for the standard Linux watchdog

This project models the Legato platform adaptor `pa_wdog` for Linux watchdog
devices. The adaptor keeps one process-wide descriptor, `wdogFd`. It is -1
while no device is open. Four operations drive it:

- `pa_wdog_Init` optionally loads a kernel module through
  `system("/sbin/modprobe <name>")`. It then tries up to eight times to open the
  watchdog device, sleeping after each failure. It ends fatally if every attempt
  fails, and otherwise kicks the device once.
- `pa_wdog_Kick` writes the keep-alive byte `'k'` when a descriptor is held.
- The SIGTERM handler writes the disarm byte `'V'`, closes the descriptor, resets
  it to -1 and exits with `-sigNum`.
- `pa_wdog_Shutdown` always ends fatally.

The build switch `LE_CONFIG_WDOG_ENABLE_EXTERNAL` is a configuration flag here.
When it is off, no operation touches a device.

Files:

- `os_calls.dfy` (module `OsCalls`) records each operating-system call with the
  answer it got. It also defines views of such a trace: the bytes that reached
  the device, the open answers consulted, the sleeps, the closes and the
  commands run.
- `pa_wdog.dfy` (module `PaWdog`) holds the constants, the configuration and the
  outcome type. For each operation, a function gives the calls it makes and the
  descriptor it leaves. The class `ExternalWatchdog` holds `wdogFd` and the ghost
  trace `calls`. Its methods follow the C code statement by statement, including
  the counted retry loop with its `break` and the check on `i` after it. Each
  method is proved to make exactly the calls its function describes.
- `pa_wdog_properties.dfy` (module `PaWdogProperties`) proves what those
  functions promise about retries, kicks, cleanup and disabled mode. It ends
  with the scenario of a device at `/dev/watchdog0` that is opened, kicked,
  disarmed on SIGTERM 15 and exits with status -15.

The operating system is an input. The methods take the answers of `open`,
`write`, `close` and `system` as parameters. `opens[i]` answers open attempt
`i`, so Init needs one answer for each of the eight attempts it may make. A
write counts as delivered only when it reports one byte on a real descriptor
(not -1).

The SIGTERM handler does not check `wdogFd` before it writes and closes
(`pa_wdog.c:44-54`). When it holds -1, the model records `write(-1, 'V')` and
`close(-1)`, and no byte reaches a device.

## Model

| member | source | states |
|---|---|---|
| `PaWdog.CString` | components/le_pa_wdog/pa_wdog.c:110-113 | The configured module name is read as a C string: the result is a NUL-free prefix of the array, and it ends at the array's first NUL or at its end. |
| `PaWdog.ModuleConfigured` | components/le_pa_wdog/pa_wdog.c:110 | The module-load step runs exactly when the name's C string is non-empty. |
| `PaWdog.ModprobeCommand` | components/le_pa_wdog/pa_wdog.c:112-113 | The command passed to system has at most MaxSystemCmdLength - 1 = 199 characters and no NUL. It starts with "/sbin/modprobe " and is a prefix of "/sbin/modprobe " + name. It is the whole text when that fits, and exactly 199 characters otherwise. |
| `PaWdog.FirstOpened` | components/le_pa_wdog/pa_wdog.c:123-135 | From attempt `from` on, the index returned is the first successful open below MaxWdogOpenTries; every attempt between `from` and it failed. It is MaxWdogOpenTries when none succeeded. |
| `PaWdog.OpenAttempt` | components/le_pa_wdog/pa_wdog.c:123-137 | The attempt at which Init's loop stops: all earlier opens failed, and it is either a success or MaxWdogOpenTries = 8. |
| `PaWdog.OpenAttemptIs` | components/le_pa_wdog/pa_wdog.c:123-137 | Any index before which all opens failed, and which is a success or 8, is OpenAttempt. It links the loop's exit value `i` to the specification. |
| `PaWdog.LoadModuleCalls` | components/le_pa_wdog/pa_wdog.c:110-118 | The calls of the module-load step: at most one, made exactly when a module name is configured. It is `system(ModprobeCommand(name))` with its status. |
| `PaWdog.FailedAttemptCalls` | components/le_pa_wdog/pa_wdog.c:123-130 | The calls of n failed open attempts: 2n calls, each open of the device followed by a one-second sleep. |
| `PaWdog.OpenLoopCalls` | components/le_pa_wdog/pa_wdog.c:123-135 | The calls of the retry loop: two per failed attempt, plus the successful open if there is one. The last call is that open. |
| `PaWdog.InitOutcome` | components/le_pa_wdog/pa_wdog.c:137-140 | Init either keeps running or ends in Fatal(OpenExhausted). The fatal case needs the watchdog to be enabled and the last of the 8 opens to have failed. |
| `PaWdog.InitFd` | components/le_pa_wdog/pa_wdog.c:125-140 | When disabled, Init leaves `wdogFd` unchanged. When enabled, `wdogFd` holds what the last open performed returned: the first successful descriptor, or -1 after attempt 8 fails. It is -1 exactly when Init is fatal. |
| `PaWdog.KickCalls` | components/le_pa_wdog/pa_wdog.c:86-94 | Kick makes at most one call, and makes it exactly when enabled and `wdogFd != -1`. That call is the write of 'k' to `wdogFd`. |
| `PaWdog.InitCalls` | components/le_pa_wdog/pa_wdog.c:103-147 | The calls of Init: the module load, the retry loop and the first kick. It makes no call when disabled. |
| `PaWdog.FirstKickCalls` | components/le_pa_wdog/pa_wdog.c:137-146 | The kick that ends Init: none after a fatal retry loop. When enabled and running, it is exactly one write of 'k' to the descriptor Init opened. |
| `PaWdog.SigTermCalls` | components/le_pa_wdog/pa_wdog.c:43-57 | The handler's calls: two (write of 'V', then close of `wdogFd`) when enabled, none otherwise. |
| `OsCalls.ReturnedFd` | components/le_pa_wdog/pa_wdog.c:125-126 | The integer open returns: never below -1, and negative exactly when the open failed, which is the test Init's loop makes. |
| `OsCalls.Written` | components/le_pa_wdog/pa_wdog.c:89 | The device's byte log: the bytes of writes on a real descriptor that reported one byte, in order. These are the writes of 'k' here and of 'V' at line 44. There is at most one byte per call. |
| `PaWdog.ExternalWatchdog.Valid` | components/le_pa_wdog/pa_wdog.c:31-33 | `wdogFd` is never below -1. Any other value is a descriptor that an open recorded in the trace returned. When disabled, `wdogFd` stays -1 and no call is made, so a descriptor is only ever held when enabled. |
| `PaWdog.ExternalWatchdog.LoadModule` | components/le_pa_wdog/pa_wdog.c:110-118 | Appends exactly LoadModuleCalls: the modprobe command when a module is configured, whatever status system returns. `wdogFd` is unchanged. |
| `PaWdog.ExternalWatchdog.constructor` | components/le_pa_wdog/pa_wdog.c:31-33 | `wdogFd` starts at -1 and no call has been made. |
| `PaWdog.ExternalWatchdog.Kick` | components/le_pa_wdog/pa_wdog.c:81-95 | Appends exactly KickCalls: one write of 'k' to `wdogFd` when enabled and `wdogFd != -1`, otherwise nothing. `wdogFd` is unchanged whatever the write answers. |
| `PaWdog.ExternalWatchdog.Init` | components/le_pa_wdog/pa_wdog.c:103-147 | Appends exactly InitCalls (module load, retry loop, one kick if it survives). It leaves InitFd in `wdogFd` and returns InitOutcome: Fatal(OpenExhausted) when enabled and every attempt failed, otherwise Running. |
| `PaWdog.ExternalWatchdog.SpinUntilOpen` | components/le_pa_wdog/pa_wdog.c:120-135 | The counted retry loop, with its `break`, stops at `i == OpenAttempt(opens)`. It leaves the first successful descriptor in `wdogFd`, or -1 when all 8 attempts fail. It appends exactly OpenLoopCalls. |
| `PaWdog.ExternalWatchdog.SigTermEventHandler` | components/le_pa_wdog/pa_wdog.c:41-59 | When enabled, appends the write of 'V' and then the close of the held descriptor, whatever they answer. Leaves `wdogFd` at -1 and returns Exited(-sigNum). |
| `PaWdog.ExternalWatchdog.Shutdown` | components/le_pa_wdog/pa_wdog.c:67-73 | Always returns Fatal(WatchdogExpired). It has no modifies clause, so the descriptor and the trace are unchanged. |
| `PaWdogProperties.FailedAttemptsView` | components/le_pa_wdog/pa_wdog.c:123-130 | n failed attempts consult answers 0..n-1 in order, sleep one second after each, and write, close and run nothing. |
| `PaWdogProperties.FailedAttemptsAnswers` | components/le_pa_wdog/pa_wdog.c:123-125 | n failed attempts consult exactly the answers `opens[..n]`, in order. |
| `PaWdogProperties.FailedAttemptsSleep` | components/le_pa_wdog/pa_wdog.c:126-130 | n failed attempts sleep exactly n times, one second each. |
| `PaWdogProperties.FailedAttemptsQuiet` | components/le_pa_wdog/pa_wdog.c:123-130 | Failed attempts write nothing to a device, close nothing and run no command. |
| `PaWdogProperties.RetrySleepsLength` | components/le_pa_wdog/pa_wdog.c:129 | n failures give exactly n sleeps. |
| `PaWdogProperties.FinalAttemptView` | components/le_pa_wdog/pa_wdog.c:123-134 | Failed attempts followed by one more open consult `opens[..k+1]`, sleep k times, and write, close and run nothing. |
| `PaWdogProperties.FailedCallsNoWrite` | components/le_pa_wdog/pa_wdog.c:125-129 | Failed open attempts issue no write. |
| `PaWdogProperties.FailedAttemptCallsPrefix` | components/le_pa_wdog/pa_wdog.c:123-130 | The calls of n failed attempts depend only on the first n open answers. |
| `PaWdogProperties.OpenLoopView` | components/le_pa_wdog/pa_wdog.c:123-135 | The retry loop consults the answers up to and including the first success (or all 8), sleeps once per failure, and writes, closes and runs nothing. |
| `PaWdogProperties.LoadModuleView` | components/le_pa_wdog/pa_wdog.c:110-118 | The module-load step runs ModprobeCommand(name) when a name is configured and nothing otherwise. It makes no other call. |
| `PaWdogProperties.KickProtocol` | components/le_pa_wdog/pa_wdog.c:86-94 | Kick makes a call if and only if the watchdog is enabled and `wdogFd != -1`. That call is the single write of 'k'. The device receives 'k' exactly when the descriptor is real and the write reports one byte. Kick never opens, sleeps, closes or runs a command. |
| `PaWdogProperties.InitRetryBound` | components/le_pa_wdog/pa_wdog.c:123-135 | Init's open answers are `opens[..k+1]` up to the first success k, or `opens[..8]`, so there are at most 8 attempts. Its sleeps are exactly k one-second sleeps: one per failure before the success, or 8 if all fail. |
| `PaWdogProperties.InitAllOpensFail` | components/le_pa_wdog/pa_wdog.c:123-140 | If all 8 opens fail, Init is Fatal(OpenExhausted) with `wdogFd` at -1. It made exactly 8 attempts and 8 sleeps, and issued no write at all. |
| `PaWdogProperties.InitOpenedKicksOnce` | components/le_pa_wdog/pa_wdog.c:123-146 | If some open among the first 8 succeeds, Init keeps running and stores the first successful descriptor. Its calls are the module load, the retry loop and then one write of 'k' to that descriptor. |
| `PaWdogProperties.InitOpenedDeviceLog` | components/le_pa_wdog/pa_wdog.c:123-146 | If some open among the first 8 succeeds, the device has received exactly ['k'] by the end of Init when the kick's write reports one byte, and nothing otherwise. Nothing is closed. |
| `PaWdogProperties.BeforeKickQuiet` | components/le_pa_wdog/pa_wdog.c:110-135 | Before its kick, Init writes nothing to a device and closes nothing. |
| `PaWdogProperties.InitModuleLoad` | components/le_pa_wdog/pa_wdog.c:110-118 | The only command run is ModprobeCommand(name), as the first call, and only when a name is configured. |
| `PaWdogProperties.InitIgnoresSystemStatus` | components/le_pa_wdog/pa_wdog.c:114-117 | A failed module load only warns: every call after the system call is the same whatever status system returns. |
| `PaWdogProperties.InitStopsAtFirstOpen` | components/le_pa_wdog/pa_wdog.c:123-135 | Answers after the first successful open are never consulted. Answer sequences that agree up to it give the same calls, descriptor and outcome. |
| `PaWdogProperties.SigTermCleanup` | components/le_pa_wdog/pa_wdog.c:41-58 | When enabled, the handler makes exactly two calls, the write of 'V' and then the close of the same descriptor. The close happens whatever the write answered. The device receives 'V' only from a real descriptor whose write reports one byte. When disabled, the handler makes no call. |
| `PaWdogProperties.DisabledTouchesNothing` | components/le_pa_wdog/pa_wdog.c:141-146 | When disabled, Init, Kick and the handler make no call. Init leaves `wdogFd` alone and ends Running. |
| `PaWdogProperties.TerminationScenario` | components/le_pa_wdog/pa_wdog.c:41-147 | Device /dev/watchdog0 with no module: Init opens on the first attempt and writes 'k'. SIGTERM 15 writes 'V', closes and exits with -15. A later Kick writes nothing, and Shutdown is fatal. The contract states the exit status. The other steps are checked by assertions inside the method. |

## Left out

- Operating-system effects: `open`, `write`, `close`, `system` and `le_thread_Sleep` are not executed. Their answers are method parameters, and the ghost trace records each call with its answer. Sleeps are counted, not timed.
- Signal registration in `COMPONENT_INIT` (`le_sig_Block`, `le_sig_SetEventHandler`, pa_wdog.c:150-157) is left out: asynchronous delivery is not modelled. The handler is an ordinary method that may be called in any state.
- Process termination: `LE_FATAL` and `exit` become the returned Outcome. The model does not stop a caller from calling again after a Fatal or Exited outcome. The C runtime's 8-bit encoding of the exit status is left out; the model keeps the value passed to `exit`.
- Logging (`LE_WARN`, `LE_INFO`) is left out. A warning is modelled as continuing, and a fatal log as the Fatal outcome.
- Init called more than once: the C code does not close a descriptor from an earlier Init before overwriting `wdogFd`. The model does the same and does not track descriptors leaked that way.
