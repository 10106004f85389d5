/** Job records, the six scheduling schemes and their comparison functions. */
module Jobs {

  datatype Scheme = FCFS | SJF | PSJF | PRI | PPRI | RR

  /** The contents of a `job_t`.  `core == -1` means idle; `responded` is the C flag
      (-1 before the first dispatch, 1 after it). */
  datatype Job = Job(id: int, core: int, arrival: int, run: int, priority: int,
                     start: int, remaining: int, pause: int, responded: bool)

  /** The comparison function a scheme installs in the queue: negative when `a` goes first. */
  function Compare(scheme: Scheme, a: Job, b: Job): int {
    match scheme
    case FCFS => a.arrival - b.arrival
    case SJF => if a.run != b.run then a.run - b.run else a.arrival - b.arrival
    case PSJF => if a.remaining != b.remaining then a.remaining - b.remaining else a.arrival - b.arrival
    case PRI => if a.priority != b.priority then a.priority - b.priority else a.arrival - b.arrival
    case PPRI => if a.priority != b.priority then a.priority - b.priority else a.arrival - b.arrival
    case RR => 1
  }

  /** The function pointer stored in the queue. */
  function Comparer(scheme: Scheme): (Job, Job) -> int {
    (a: Job, b: Job) => Compare(scheme, a, b)
  }

  /** The schemes whose new arrivals may take a core away from a running job. */
  predicate Preemptive(scheme: Scheme) {
    scheme == PPRI || scheme == PSJF
  }
}
