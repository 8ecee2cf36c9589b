/** The takeover protocol between enable processes (main/cmds.go, main/main.go): a shared register,
    the recorded sequence number, and any number of processes that start, discover and kill one
    another, loop, and crash, in every interleaving. */
module Takeover {
  import opened Settings

  type Pid = nat

  datatype LogAge = LogTimeUnknown | LogFresh | LogStale

  datatype Verdict = IdempotentExit | TakeOverSameNumber | RejectOlder | SaveNumber

  /** What enablePre decides from what it has read: `read` is the recorded number (0 if there is
      none), `found` the processes discovered. */
  function Decide(seqNum: nat, read: nat, found: seq<Pid>, log: LogAge): Verdict {
    if seqNum == read && found != [] then
      if log == LogFresh then IdempotentExit else TakeOverSameNumber
    else if read != 0 && seqNum < read then RejectOlder
    else SaveNumber
  }

  datatype ExitReason = ReadFailed | Idempotent | Rejected | SaveFailed | Superseded | Failed | Crashed | Killed

  /** Where a process is. The states up to `Killing` are inside enablePre. */
  datatype Pc =
    | Begin
    | Discovering
    | Deciding
    | Saving
    | Killing(remaining: seq<Pid>, thenSave: bool)
    | Admitted
    | AtHead
    | InBody
    | Asleep
    | Terminating
    | Gone(reason: ExitReason)
  {
    predicate Starting() {
      Begin? || Discovering? || Deciding? || Saving? || Killing?
    }

    /** Past enablePre and not gone: may write status. */
    predicate Serving() {
      Admitted? || AtHead? || InBody? || Asleep? || Terminating?
    }
  }

  datatype Process = Process(seqNum: nat, pc: Pc, read: nat, found: seq<Pid>, shutdown: bool)

  /** What happened, in order. A signal remembers the number recorded when it was sent. */
  datatype Event =
    | Saved(actor: Pid, number: nat)
    | Signalled(actor: Pid, target: Pid, recorded: nat)
    | Entered(actor: Pid, number: nat)
    | Wrote(actor: Pid, file: nat)

  /** `lossy` remembers that a discovery missed a live process or that a kill gave up on one. */
  datatype World = World(recorded: Option<nat>, procs: map<Pid, Process>, log: seq<Event>, lossy: bool) {
    /** An absent register reads as 0. */
    function Recorded(): nat {
      if recorded.Some? then recorded.value else 0
    }

    predicate Live(p: Pid) {
      p in procs && !procs[p].pc.Gone?
    }

    predicate At(p: Pid, pc: Pc) {
      p in procs && procs[p].pc == pc
    }
  }

  function Initial(recorded: Option<nat>): World {
    World(recorded, map[], [], false)
  }

  datatype Action =
    | Start(p: Pid, seqNum: nat)
    | ReadNumber(p: Pid, ok: bool)
    | Discover(p: Pid, result: Option<seq<Pid>>)
    | Resolve(p: Pid, log: LogAge)
    | Save(p: Pid, ok: bool)
    | Signal(p: Pid, kill: bool)          // SIGTERM, or SIGKILL after it
    | KillReturns(p: Pid)                 // killProcess is done with the first remaining pid
    | KillsDone(p: Pid)
    | ReportTransitioning(p: Pid, settingsOk: bool)
    | Head(p: Pid, ok: bool)              // the look at the recorded number at the loop head
    | Body(p: Pid)
    | WakeUp(p: Pid)
    | ReportError(p: Pid)
    | ExternalTerm(p: Pid)
    | Crash(p: Pid)

  /** When an action can happen. With `oneStarter`, no process starts while another is in enablePre. */
  predicate Enabled(oneStarter: bool, w: World, a: Action) {
    match a
    case Start(p, _) =>
      p !in w.procs && (oneStarter ==> forall q :: q in w.procs ==> !w.procs[q].pc.Starting())
    case ReadNumber(p, _) => w.At(p, Begin)
    case Discover(p, result) => w.At(p, Discovering) && (result.Some? ==> p !in result.value)
    case Resolve(p, _) => w.At(p, Deciding)
    case Save(p, _) => w.At(p, Saving)
    case Signal(p, _) => p in w.procs && w.procs[p].pc.Killing? && w.procs[p].pc.remaining != [] &&
                         w.procs[p].pc.remaining[0] != p && w.Live(w.procs[p].pc.remaining[0])
    case KillReturns(p) => p in w.procs && w.procs[p].pc.Killing? && w.procs[p].pc.remaining != []
    case KillsDone(p) => p in w.procs && w.procs[p].pc.Killing? && w.procs[p].pc.remaining == []
    case ReportTransitioning(p, _) => w.At(p, Admitted)
    case Head(p, _) => w.At(p, AtHead)
    case Body(p) => w.At(p, InBody)
    case WakeUp(p) => w.At(p, Asleep)
    case ReportError(p) => w.At(p, Terminating)
    case ExternalTerm(p) => w.Live(p)
    case Crash(p) => w.Live(p)
  }

  /** Discovery is complete if it lists every live process but the one that looks. */
  predicate Complete(w: World, p: Pid, found: seq<Pid>) {
    forall q :: q in w.procs && w.Live(q) && q != p ==> q in found
  }

  /** The process an action is about: the target of a signal, else the one that acts. */
  function Subject(w: World, a: Action): Pid
    requires Enabled(false, w, a)
  {
    if a.Signal? then w.procs[a.p].pc.remaining[0] else a.p
  }

  /** What becomes of the process `q` an action is about. */
  function Moved(q: Process, recorded: nat, a: Action): Process {
    match a
    case Start(_, n) => Process(n, Begin, 0, [], false)
    case ReadNumber(_, ok) =>
      if ok then q.(pc := Discovering, read := recorded) else q.(pc := Gone(ReadFailed))
    case Discover(_, result) => q.(pc := Deciding, found := if result.Some? then result.value else [])
    case Resolve(_, log) =>
      q.(pc := match Decide(q.seqNum, q.read, q.found, log)
               case IdempotentExit => Gone(Idempotent)
               case TakeOverSameNumber => Killing(q.found, true)
               case RejectOlder => Gone(Rejected)
               case SaveNumber => Saving)
    case Save(_, ok) =>
      q.(pc := if !ok then Gone(SaveFailed)
               else if q.seqNum > q.read && q.found != [] then Killing(q.found, false)
               else Admitted)
    case Signal(_, kill) => if kill then q.(pc := Gone(Killed)) else q.(shutdown := true)
    case KillReturns(_) =>
      if q.pc.Killing? && q.pc.remaining != [] then q.(pc := Killing(q.pc.remaining[1..], q.pc.thenSave)) else q
    case KillsDone(_) => if q.pc.Killing? then q.(pc := if q.pc.thenSave then Saving else Admitted) else q
    case ReportTransitioning(_, ok) => q.(pc := if ok then AtHead else Terminating)
    case Head(_, ok) => q.(pc := if ok && q.seqNum < recorded then Gone(Superseded) else InBody)
    case Body(_) => q.(pc := if q.shutdown then Terminating else Asleep)
    case WakeUp(_) => q.(pc := if q.shutdown then Terminating else AtHead)
    case ReportError(_) => q.(pc := Gone(Failed))
    case ExternalTerm(_) => q.(shutdown := true)
    case Crash(_) => q.(pc := Gone(Crashed))
  }

  /** What an action of the process `q` adds to the log; `target` is who a signal goes to. */
  function Events(q: Process, target: Pid, recorded: nat, a: Action): seq<Event> {
    match a
    case Save(p, ok) =>
      if !ok then []
      else if q.seqNum > q.read && q.found != [] then [Saved(p, q.seqNum)]
      else [Saved(p, q.seqNum), Entered(p, q.seqNum)]
    case Signal(p, _) => [Signalled(p, target, recorded)]
    case KillsDone(p) => if q.pc.Killing? && q.pc.thenSave then [] else [Entered(p, q.seqNum)]
    case ReportTransitioning(p, _) => [Wrote(p, q.seqNum)]
    case Body(p) => if q.shutdown then [] else [Wrote(p, q.seqNum)]
    case ReportError(p) => [Wrote(p, q.seqNum)]
    case _ => []
  }

  /** A discovery that misses a live process, or a kill that gives up on one. */
  predicate Loses(w: World, a: Action)
    requires Enabled(false, w, a)
  {
    match a
    case Discover(p, result) => !Complete(w, p, if result.Some? then result.value else [])
    case KillReturns(p) => w.Live(w.procs[p].pc.remaining[0])
    case _ => false
  }

  function ProcessAt(w: World, p: Pid): Process {
    if p in w.procs then w.procs[p] else Process(0, Begin, 0, [], false)
  }

  /** What an action does. */
  function Apply(w: World, a: Action): World
    requires Enabled(false, w, a)
  {
    var c := Subject(w, a);
    World(if a.Save? && a.ok then Some(w.procs[a.p].seqNum) else w.recorded,
          w.procs[c := Moved(ProcessAt(w, c), w.Recorded(), a)],
          w.log + Events(ProcessAt(w, a.p), c, w.Recorded(), a),
          w.lossy || Loses(w, a))
  }

  /** A run: every action is possible where it happens. */
  predicate IsRun(oneStarter: bool, w: World, run: seq<Action>)
    decreases |run|
  {
    run == [] || (Enabled(oneStarter, w, run[0]) && IsRun(oneStarter, Apply(w, run[0]), run[1..]))
  }

  function After(oneStarter: bool, w: World, run: seq<Action>): World
    requires IsRun(oneStarter, w, run)
    decreases |run|
  {
    if run == [] then w else After(oneStarter, Apply(w, run[0]), run[1..])
  }

  // ---------- what every step keeps ----------

  /** A process kills only processes it has found. */
  predicate KillsFound(q: Process) {
    q.pc.Killing? ==> forall x :: x in q.pc.remaining ==> x in q.found
  }

  /** What a process knows of the register, by where it is. */
  predicate Knows(recorded: nat, q: Process) {
    match q.pc
    case Discovering | Deciding => q.read == recorded
    case Saving => q.read == recorded <= q.seqNum
    case Killing(_, thenSave) => q.seqNum == recorded && (thenSave ==> q.read == q.seqNum)
    case Admitted | AtHead | InBody | Asleep | Terminating => q.seqNum <= recorded
    case _ => true
  }

  predicate OneStarter(w: World) {
    forall p, q :: p in w.procs && q in w.procs && w.procs[p].pc.Starting() && w.procs[q].pc.Starting() ==> p == q
  }

  predicate AllKnow(w: World) {
    forall p :: p in w.procs ==> Knows(w.Recorded(), w.procs[p])
  }

  /** The processes a starter has yet to see gone before it may go on. */
  function Pending(q: Process): seq<Pid> {
    match q.pc
    case Deciding => q.found
    case Saving => if q.seqNum > q.read then q.found else []
    case Killing(remaining, _) => remaining
    case _ => []
  }

  predicate HasPending(pc: Pc) {
    pc.Deciding? || pc.Saving? || pc.Killing?
  }

  predicate OthersArePending(w: World) {
    forall p :: p in w.procs && HasPending(w.procs[p].pc) ==> Complete(w, p, Pending(w.procs[p]))
  }

  /** The process that entered last. */
  function Owner(log: seq<Event>): Option<Pid> {
    if log == [] then None
    else if log[|log| - 1].Entered? then Some(log[|log| - 1].actor)
    else Owner(log[..|log| - 1])
  }

  predicate ServersOwn(w: World) {
    forall p :: p in w.procs && w.procs[p].pc.Serving() ==> Owner(w.log) == Some(p)
  }

  /** What a logged event says about the process that caused it, with any number of starters. */
  predicate EventMatches(w: World, e: Event) {
    && e.actor in w.procs
    && !Untouched(w.procs[e.actor].pc)
    && match e
       case Saved(p, n) => n == w.procs[p].seqNum
       case Signalled(p, target, _) => target in w.procs[p].found && target != p
       case Entered(p, n) => n == w.procs[p].seqNum
       case Wrote(p, file) => file == w.procs[p].seqNum
  }

  predicate EventsMatch(w: World) {
    forall i :: 0 <= i < |w.log| ==> EventMatches(w, w.log[i])
  }

  /** What it says about the register as well, with one starter at a time. */
  predicate EventFits(w: World, e: Event) {
    && EventMatches(w, e)
    && (e.Saved? ==> e.number <= w.Recorded())
    && (e.Signalled? ==> e.recorded == w.procs[e.actor].seqNum)
  }

  /** The process has not recorded, killed or written anything. */
  predicate Untouched(pc: Pc) {
    pc.Begin? || pc.Discovering? || pc.Deciding? ||
    pc == Gone(ReadFailed) || pc == Gone(Rejected) || pc == Gone(Idempotent)
  }

  predicate LogFits(w: World) {
    forall i :: 0 <= i < |w.log| ==> EventFits(w, w.log[i])
  }

  /** The numbers recorded never go down. */
  predicate SavesGrow(log: seq<Event>) {
    forall i, j :: 0 <= i < j < |log| && log[i].Saved? && log[j].Saved? ==> log[i].number <= log[j].number
  }

  /** Every status write is by the process that entered last before it. */
  predicate WritesAreOwned(log: seq<Event>) {
    forall i :: 0 <= i < |log| && log[i].Wrote? ==> Owner(log[..i]) == Some(log[i].actor)
  }

  /** What every step keeps with one starter at a time. */
  predicate Inv(w: World) {
    && OneStarter(w) && AllKnow(w) && AllKillFound(w)
    && LogFits(w) && SavesGrow(w.log)
    && (!w.lossy ==> OthersArePending(w))
  }

  // ---------- what every step keeps, with any number of starters ----------

  /** The process has made its discovery and is not gone. */
  predicate Discovered(pc: Pc) {
    HasPending(pc) || pc.Serving()
  }

  /** Of any two processes that have made their discovery, one has yet to see the other gone. */
  predicate Paired(w: World) {
    forall p, q ::
      p in w.procs && q in w.procs && p != q && Discovered(w.procs[p].pc) && Discovered(w.procs[q].pc) ==>
        p in Pending(w.procs[q]) || q in Pending(w.procs[p])
  }

  /** A process kills before it saves only if it takes over with the number it has read. */
  predicate TakesOver(q: Process) {
    q.pc.Killing? && q.pc.thenSave ==> q.read == q.seqNum
  }

  predicate AllKillFound(w: World) {
    forall p :: p in w.procs ==> KillsFound(w.procs[p])
  }

  predicate AllTakeOver(w: World) {
    forall p :: p in w.procs ==> TakesOver(w.procs[p])
  }

  predicate Exclusive(w: World) {
    && AllTakeOver(w) && AllKillFound(w) && EventsMatch(w)
    && (!w.lossy ==> Paired(w) && ServersOwn(w) && WritesAreOwned(w.log))
  }
}
