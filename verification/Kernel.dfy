/** The operating system as the governor meets it: PIDs that are recycled, process instances that
    are not, and the four system calls of src/governor/pid_reuse.rs and src/governor/executor.rs. */
module Kernel {
  import opened Options

  type Pid = nat

  /** A clock reading in nanoseconds; wall clock and monotonic clock are taken to agree. */
  type Time = int

  const SECOND: Time := 1_000_000_000

  /** One process from fork to reap. `serial` tells instances apart for the proofs; the only part
      of it that software can read is `start`, field 22 of `/proc/<pid>/stat`. */
  datatype Instance = Instance(pid: Pid, serial: nat, start: nat)

  /** Everything the kernel would answer at one instant. Successive views are chosen by an
      adversary: between two of them any process may exit and any PID may be recycled. */
  datatype ViewBase = ViewBase(
    now: Time,
    live: map<Pid, Instance>,
    pidfdWorks: set<Pid>,
    statReadable: set<Pid>,
    permitted: set<Pid>)

  type View = v: ViewBase | forall p <- v.live :: v.live[p].pid == p
    witness ViewBase(0, map[], {}, {}, {})

  /** `pidfd_open`: the descriptor pins the instance that owns the PID now. */
  function PidfdOpen(v: View, pid: Pid): Option<Instance> {
    if pid in v.live && pid in v.pidfdWorks then Some(v.live[pid]) else None
  }

  function ReadStarttime(v: View, pid: Pid): Option<nat> {
    if pid in v.live && pid in v.statReadable then Some(v.live[pid].start) else None
  }

  datatype Delivery = Delivered(to: Instance) | NoSuchProcess | OsError

  /** `kill`: whoever owns the PID now gets the signal. */
  function KillByPid(v: View, pid: Pid): Delivery {
    if pid !in v.live then NoSuchProcess
    else if pid !in v.permitted then OsError
    else Delivered(v.live[pid])
  }

  /** `pidfd_send_signal`: the pinned instance gets the signal, or nobody does. */
  function KillByPidfd(v: View, target: Instance): Delivery {
    if target.pid !in v.live || v.live[target.pid] != target then NoSuchProcess
    else if target.pid !in v.permitted then OsError
    else Delivered(target)
  }

  /** The world law of the starttime fallback: a recycled PID never shows its predecessor's start
      tick. Nothing below assumes it unless it says so. */
  ghost predicate StartsDistinct(born: iset<Instance>) {
    forall a <- born, b <- born :: a.pid == b.pid && a.start == b.start ==> a == b
  }
}
