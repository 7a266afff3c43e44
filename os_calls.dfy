/**
  The operating-system calls the watchdog bridge issues, each recorded with the
  answer the operating system gave, and the views of such a call trace that the
  bridge's properties are stated in: the bytes that reached a device, the open
  answers consulted, the sleeps taken, the descriptors closed and the shell
  commands run.
 */
module OsCalls {

  /** What open(2) answered: a descriptor, or failure (open then returns -1). */
  datatype OpenResult = Opened(fd: nat) | OpenFailed

  /** The integer open(2) returns for this answer. */
  function ReturnedFd(r: OpenResult): (fd: int)
    ensures fd >= -1 && (fd < 0 <==> r.OpenFailed?)
  {
    match r
    case Opened(d) => d
    case OpenFailed => -1
  }

  /** One call into the operating system, with the answer it returned. */
  datatype SysCall =
    | System(command: string, status: int)      // system(3) and its status
    | Open(path: string, answer: OpenResult)      // open(path, O_WRONLY)
    | Sleep(seconds: nat)                         // le_thread_Sleep(seconds)
    | Write(fd: int, byte: char, count: int)     // write(fd, &byte, 1) and its count
    | Close(fd: int, status: int)                 // close(fd) and its status

  /** Concatenates, in call order, what `f` picks out of each call of the trace. */
  function Collect<T>(t: seq<SysCall>, f: SysCall -> seq<T>): seq<T>
  {
    if t == [] then [] else Collect(t[..|t| - 1], f) + f(t[|t| - 1])
  }

  /** Collecting over a trace made of two parts collects over each part in turn. */
  lemma {:induction false} CollectAppend<T>(a: seq<SysCall>, b: seq<SysCall>, f: SysCall -> seq<T>)
    ensures Collect(a + b, f) == Collect(a, f) + Collect(b, f)
    decreases |b|
  {
    if b == [] {
      assert a + b == a;
    } else {
      var front := b[..|b| - 1];
      assert (a + b)[..|a + b| - 1] == a + front;
      assert (a + b)[|a + b| - 1] == b[|b| - 1];
      CollectAppend(a, front, f);
    }
  }

  /** Collecting over a single call is what `f` picks out of that call. */
  lemma CollectOne<T>(c: SysCall, f: SysCall -> seq<T>)
    ensures Collect([c], f) == f(c)
  {
    assert [c][..0] == [];
  }

  /** Collecting over a trace extended by one call adds what `f` picks out of it. */
  lemma CollectSnoc<T>(t: seq<SysCall>, c: SysCall, f: SysCall -> seq<T>)
    ensures Collect(t + [c], f) == Collect(t, f) + f(c)
  {
    assert (t + [c])[..|t|] == t;
  }

  /** Collecting over a trace extended by two calls adds what `f` picks out of each. */
  lemma CollectSnoc2<T>(t: seq<SysCall>, c1: SysCall, c2: SysCall, f: SysCall -> seq<T>)
    ensures Collect(t + [c1, c2], f) == Collect(t, f) + f(c1) + f(c2)
  {
    assert (t + [c1, c2])[..|t| + 1] == t + [c1];
    assert (t + [c1])[..|t|] == t;
  }

  /** A picker that takes at most one element from each call collects at most one per call. */
  lemma {:induction false} CollectAtMostOne<T>(t: seq<SysCall>, f: SysCall -> seq<T>)
    requires forall c :: |f(c)| <= 1
    ensures |Collect(t, f)| <= |t|
  {
    if t != [] {
      CollectAtMostOne(t[..|t| - 1], f);
    }
  }

  /**
    The byte a call delivered to a device: a write on a real descriptor
    (not the -1 sentinel) that reported one byte written.
   */
  function DeliveredBy(c: SysCall): seq<char>
  {
    if c.Write? && c.fd >= 0 && c.count == 1 then [c.byte] else []
  }

  function OpenAnsweredBy(c: SysCall): seq<OpenResult>
  {
    if c.Open? then [c.answer] else []
  }

  function SleptBy(c: SysCall): seq<nat>
  {
    if c.Sleep? then [c.seconds] else []
  }

  function ClosedBy(c: SysCall): seq<int>
  {
    if c.Close? then [c.fd] else []
  }

  function CommandRunBy(c: SysCall): seq<string>
  {
    if c.System? then [c.command] else []
  }

  /** The bytes the device received, in order: the device's append-only log. */
  function Written(t: seq<SysCall>): (w: seq<char>)
    ensures |w| <= |t|
  {
    CollectAtMostOne(t, DeliveredBy);
    Collect(t, DeliveredBy)
  }

  /** The answers of every open attempt, in order. */
  function OpenAnswers(t: seq<SysCall>): seq<OpenResult> { Collect(t, OpenAnsweredBy) }

  /** The durations of every sleep, in order. */
  function Slept(t: seq<SysCall>): seq<nat> { Collect(t, SleptBy) }

  /** The descriptors passed to close, in order. */
  function Closed(t: seq<SysCall>): seq<int> { Collect(t, ClosedBy) }

  /** The shell commands run through system(3), in order. */
  function Commands(t: seq<SysCall>): seq<string> { Collect(t, CommandRunBy) }
}
