/** The SSH export engine as a transition system: one acceptor thread, one worker
    thread per accepted channel, a thread calling Close, and any number of readers of
    the attributes. Every thread is an automaton whose steps are single shared-memory
    actions, so a run of the system is an arbitrary interleaving of those actions. */
module SshExportModel {

  /** mu_ guards the attributes, session_mu_ every libssh2 call, workers_mu_ the vector. */
  datatype Lock = Mu | SessionMu | WorkersMu

  datatype Held = Nothing | Holding(lock: Lock)

  /** One reader stands for all of them: mu_ has at most one holder at a time. */
  datatype Thread = Acceptor | Closer | Reader | Worker(id: nat)

  datatype Call =
    | ForwardAccept | LastErrno | KeepaliveSend
    | ForwardCancel | SetBlocking | SetTimeout | Disconnect | SessionFree
    | ChannelWrite(chan: nat) | ChannelRead(chan: nat) | ChannelErrno(chan: nat) | ChannelEof(chan: nat)
    | ChannelSendEof(chan: nat) | ChannelClose(chan: nat) | ChannelFree(chan: nat)

  /** What an observer sees happen, in order. */
  datatype Event =
    | Lib(call: Call)
    | Started(w: nat) | Joined(w: nat)
    | LocalOpened(w: nat) | LocalClosed(w: nat)
    | AcceptorJoined | SshSocketClosed

  datatype Action = Tau | Acquire(lock: Lock) | Release(lock: Lock) | Emit(event: Event) | ClearRunning

  // ----------------------------------------------------------------- worker

  /** What libssh2_channel_read left behind: data, a clean end, nothing, or an error. */
  datatype ReadResult = Data(m: nat) | EndOfFile | NoData | Broken

  /** Program counter of Pump and of the lambda that runs it. */
  datatype WorkerPc =
    | DialLock | DialRead | Dialing            // DialLocalService
    | FailLock | FailRecord                    // RecordError after a failed dial
    | FdLock | FdRecord | FdClose              // descriptor too large for select()
    | LoopTop | SelectRecv
    | EofLock | EofSend | EofUnlock
    | Writing(rem: nat) | WriteLock(rem: nat) | WriteCall(rem: nat) | WriteUnlock(rem: nat, failed: bool)
    | ReadLock | ReadCall | ReadProbe(m: int) | ReadUnlock(res: ReadResult) | AfterRead(res: ReadResult)
    | Sending(rem: nat)                        // inside SendAll
    | CloseLocal
    | FreeLock | FreeClose | FreeChannel | FreeUnlock
    | StoreDone | Returning | Exited

  function WorkerHolds(pc: WorkerPc): Held {
    match pc
    case DialRead | FailRecord | FdRecord => Holding(Mu)
    case EofSend | EofUnlock | WriteCall(_) | WriteUnlock(_, _) => Holding(SessionMu)
    case ReadCall | ReadProbe(_) | ReadUnlock(_) => Holding(SessionMu)
    case FreeClose | FreeChannel | FreeUnlock => Holding(SessionMu)
    case _ => Nothing
  }

  /** The steps a worker serving channel `c` may take when it reads `running` as given. */
  ghost predicate WorkerStep(running: bool, w: nat, c: nat, pc: WorkerPc, a: Action, pc': WorkerPc) {
    match pc
    case DialLock => a == Acquire(Mu) && pc' == DialRead
    case DialRead => a == Release(Mu) && pc' == Dialing
    case Dialing =>
      || (a == Tau && pc' == FailLock)
      || (a == Emit(LocalOpened(w)) && (pc' == LoopTop || pc' == FdLock))
    case FailLock => a == Acquire(Mu) && pc' == FailRecord
    case FailRecord => a == Release(Mu) && pc' == FreeLock
    case FdLock => a == Acquire(Mu) && pc' == FdRecord
    case FdRecord => a == Release(Mu) && pc' == FdClose
    case FdClose => a == Emit(LocalClosed(w)) && pc' == FreeLock
    case LoopTop => a == Tau && pc' == if running then SelectRecv else CloseLocal
    case SelectRecv =>
      a == Tau && (pc' == ReadLock || pc' == EofLock || pc' == CloseLocal || (pc'.Writing? && 0 < pc'.rem <= 16384))
    case EofLock => a == Acquire(SessionMu) && pc' == EofSend
    case EofSend => a == Emit(Lib(ChannelSendEof(c))) && pc' == EofUnlock
    case EofUnlock => a == Release(SessionMu) && pc' == CloseLocal
    case Writing(rem) => a == Tau && pc' == if rem > 0 && running then WriteLock(rem) else ReadLock
    case WriteLock(rem) => a == Acquire(SessionMu) && pc' == WriteCall(rem)
    case WriteCall(rem) =>
      a == Emit(Lib(ChannelWrite(c))) && pc'.WriteUnlock? && pc'.rem <= rem
    case WriteUnlock(rem, failed) => a == Release(SessionMu) && pc' == if failed then CloseLocal else Writing(rem)
    case ReadLock => a == Acquire(SessionMu) && pc' == ReadCall
    case ReadCall =>
      && a == Emit(Lib(ChannelRead(c)))
      && ((pc'.ReadProbe? && pc'.m <= 0) || (pc'.ReadUnlock? && pc'.res.Data? && 0 < pc'.res.m <= 16384))
    case ReadProbe(m) =>
      if m < 0
      then a == Emit(Lib(ChannelErrno(c))) && (pc' == ReadUnlock(NoData) || pc' == ReadUnlock(Broken))
      else a == Emit(Lib(ChannelEof(c))) && (pc' == ReadUnlock(NoData) || pc' == ReadUnlock(EndOfFile))
    case ReadUnlock(res) => a == Release(SessionMu) && pc' == AfterRead(res)
    case AfterRead(res) =>
      && a == Tau
      && pc' == (match res
                 case Data(m) => Sending(m)
                 case EndOfFile => CloseLocal
                 case Broken => CloseLocal
                 case NoData => LoopTop)
    case Sending(rem) =>
      && a == Tau
      && if rem == 0 then pc' == LoopTop
         else if !running then pc' == CloseLocal
         else pc' == CloseLocal || (pc'.Sending? && pc'.rem <= rem)
    case CloseLocal => a == Emit(LocalClosed(w)) && pc' == FreeLock
    case FreeLock => a == Acquire(SessionMu) && pc' == FreeClose
    case FreeClose => a == Emit(Lib(ChannelClose(c))) && pc' == FreeChannel
    case FreeChannel => a == Emit(Lib(ChannelFree(c))) && pc' == FreeUnlock
    case FreeUnlock => a == Release(SessionMu) && pc' == StoreDone
    case StoreDone => a == Tau && pc' == Returning
    case Returning => a == Tau && pc' == Exited
    case Exited => false
  }

  /** The worker's done flag: stored just before the thread function returns. */
  predicate Done(pc: WorkerPc) {
    pc.Returning? || pc.Exited?
  }

  datatype WorkerThread = WorkerThread(pc: WorkerPc, chan: nat)

  // --------------------------------------------------------------- acceptor

  datatype Accepted = Channel(chan: nat) | DeadTransport | QueueEmpty

  /** Program counter of AcceptLoop, with ReapFinishedWorkers inlined. */
  datatype AcceptPc =
    | NotStarted
    | AcceptTop | AcceptSelect | AcceptRecheck
    | SessionLock | TestListener | AcceptErrno | Keepalive(out: Accepted) | SessionUnlock(out: Accepted)
    | BreakUnlock
    | Dispatch(out: Accepted)
    | ReapLock(chan: nat) | ReapScan(chan: nat, i: nat, finished: seq<nat>) | ReapJoin(chan: nat, finished: seq<nat>)
    | Spawn(chan: nat)
    | PushLock(w: nat) | Push(w: nat) | PushUnlock
    | ErrorLock | ErrorRecord | StopRunning
    | AcceptExited

  function AcceptHolds(pc: AcceptPc): Held {
    match pc
    case TestListener | AcceptErrno | Keepalive(_) | SessionUnlock(_) | BreakUnlock => Holding(SessionMu)
    case ReapScan(_, _, _) | Push(_) | PushUnlock => Holding(WorkersMu)
    case ErrorRecord => Holding(Mu)
    case _ => Nothing
  }

  // ----------------------------------------------------------------- closer

  /** forward_cancel is retried every 10 ms for at most 2 s. */
  const CANCEL_RETRIES: nat := 200

  datatype ClosePc =
    | Idle
    | StoreStop | JoinAcceptor
    | SwapLock | Swap | SwapUnlock(pending: seq<nat>) | JoinWorkers(pending: seq<nat>)
    | TeardownLock | TestCancel | Cancel(retries: nat) | ClearListener
    | TestSession | MakeBlocking | BoundTimeout | SayGoodbye | FreeSession | ClearSession
    | CloseSsh | TeardownUnlock
    | StatusLock | StatusWrite

  function CloseHolds(pc: ClosePc): Held {
    match pc
    case Swap | SwapUnlock(_) => Holding(WorkersMu)
    case TestCancel | Cancel(_) | ClearListener | TestSession | MakeBlocking | BoundTimeout => Holding(SessionMu)
    case SayGoodbye | FreeSession | ClearSession | CloseSsh | TeardownUnlock => Holding(SessionMu)
    case StatusWrite => Holding(Mu)
    case _ => Nothing
  }

  // ------------------------------------------------------------------ state

  /** `workers` lists every worker thread ever started, `registered` is workers_,
      `session`/`listener`/`sshSocket` say that the pointer or handle is still set. */
  datatype State = State(
    running: bool,
    owner: map<Lock, Thread>,
    accept: AcceptPc, acceptJoinable: bool, closer: ClosePc, reader: bool,
    workers: seq<WorkerThread>,
    registered: seq<nat>,
    accepted: nat,
    hadSession: bool, session: bool,
    hadListener: bool, listener: bool,
    sshSocket: bool,
    closes: nat,
    trace: seq<Event>)

  /** After Start: either everything is up and the acceptor runs, or Start failed part
      way and calls Close itself. */
  ghost predicate Init(s: State) {
    && s.owner == map[] && s.closer == Idle && !s.reader
    && s.workers == [] && s.registered == [] && s.accepted == 0 && s.closes == 0 && s.trace == []
    && s.session == s.hadSession && s.listener == s.hadListener
    && (s.hadListener ==> s.hadSession) && (s.hadSession ==> s.sshSocket)
    && s.acceptJoinable == s.running
    && (if s.running then s.accept == AcceptTop && s.hadListener else s.accept == NotStarted)
  }

  ghost predicate Enabled(s: State, a: Action) {
    a.Acquire? ==> a.lock !in s.owner
  }

  function OwnerAfter(owner: map<Lock, Thread>, t: Thread, a: Action): map<Lock, Thread> {
    match a
    case Acquire(l) => owner[l := t]
    case Release(l) => owner - {l}
    case _ => owner
  }

  function TraceAfter(trace: seq<Event>, a: Action): seq<Event> {
    if a.Emit? then trace + [a.event] else trace
  }

  ghost predicate HasExited(s: State, w: nat) {
    w < |s.workers| && s.workers[w].pc.Exited?
  }

  ghost predicate AcceptStep(s: State, a: Action, pc': AcceptPc) {
    match s.accept
    case NotStarted => false
    case AcceptTop => a == Tau && pc' == if s.running then AcceptSelect else AcceptExited
    case AcceptSelect => a == Tau && pc' == AcceptRecheck
    case AcceptRecheck => a == Tau && pc' == if s.running then SessionLock else AcceptExited
    case SessionLock => a == Acquire(SessionMu) && pc' == TestListener
    case TestListener =>
      if s.listener
      then a == Emit(Lib(ForwardAccept)) && (pc' == AcceptErrno || pc' == Keepalive(Channel(s.accepted)))
      else a == Tau && pc' == BreakUnlock
    case AcceptErrno =>
      a == Emit(Lib(LastErrno)) && (pc' == Keepalive(DeadTransport) || pc' == Keepalive(QueueEmpty))
    case Keepalive(out) => a == Emit(Lib(KeepaliveSend)) && pc' == SessionUnlock(out)
    case SessionUnlock(out) => a == Release(SessionMu) && pc' == Dispatch(out)
    case BreakUnlock => a == Release(SessionMu) && pc' == AcceptExited
    case Dispatch(out) =>
      && a == Tau
      && pc' == (match out
                 case Channel(c) => ReapLock(c)
                 case DeadTransport => ErrorLock
                 case QueueEmpty => AcceptTop)
    case ReapLock(c) => a == Acquire(WorkersMu) && pc' == ReapScan(c, 0, [])
    case ReapScan(c, i, fin) =>
      if i < |s.registered| then
        && a == Tau
        && s.registered[i] < |s.workers|
        && pc' == if Done(s.workers[s.registered[i]].pc) then ReapScan(c, i, fin + [s.registered[i]])
                  else ReapScan(c, i + 1, fin)
      else a == Release(WorkersMu) && pc' == ReapJoin(c, fin)
    case ReapJoin(c, fin) =>
      if fin == [] then a == Tau && pc' == Spawn(c)
      else HasExited(s, fin[0]) && a == Emit(Joined(fin[0])) && pc' == ReapJoin(c, fin[1..])
    case Spawn(_) => a == Emit(Started(|s.workers|)) && pc' == PushLock(|s.workers|)
    case PushLock(w) => a == Acquire(WorkersMu) && pc' == Push(w)
    case Push(w) => a == Tau && pc' == PushUnlock
    case PushUnlock => a == Release(WorkersMu) && pc' == AcceptTop
    case ErrorLock => a == Acquire(Mu) && pc' == ErrorRecord
    case ErrorRecord => a == Release(Mu) && pc' == StopRunning
    case StopRunning => a == ClearRunning && pc' == AcceptExited
    case AcceptExited => false
  }

  /** workers_ after the acceptor's step: one entry erased by the reaper, or one pushed. */
  function RegisteredAfter(s: State, pc': AcceptPc): seq<nat> {
    match s.accept
    case ReapScan(_, i, _) =>
      if i < |s.registered| && pc'.ReapScan? && pc'.i == i
      then s.registered[..i] + s.registered[i + 1..]
      else s.registered
    case Push(w) => s.registered + [w]
    case _ => s.registered
  }

  function AfterAcceptor(s: State, a: Action, pc': AcceptPc): State {
    State(s.running && a != ClearRunning, OwnerAfter(s.owner, Acceptor, a),
          pc', s.acceptJoinable, s.closer, s.reader,
          if s.accept.Spawn? then s.workers + [WorkerThread(DialLock, s.accept.chan)] else s.workers,
          RegisteredAfter(s, pc'),
          if s.accept.TestListener? && pc'.Keepalive? then s.accepted + 1 else s.accepted,
          s.hadSession, s.session, s.hadListener, s.listener, s.sshSocket, s.closes,
          TraceAfter(s.trace, a))
  }

  function AfterWorker(s: State, w: nat, a: Action, pc': WorkerPc): State
    requires w < |s.workers|
  {
    State(s.running, OwnerAfter(s.owner, Worker(w), a),
          s.accept, s.acceptJoinable, s.closer, s.reader,
          s.workers[w := WorkerThread(pc', s.workers[w].chan)],
          s.registered, s.accepted,
          s.hadSession, s.session, s.hadListener, s.listener, s.sshSocket, s.closes,
          TraceAfter(s.trace, a))
  }

  ghost predicate CloseStep(s: State, a: Action, pc': ClosePc) {
    match s.closer
    case Idle => a == Tau && pc' == StoreStop
    case StoreStop => a == ClearRunning && pc' == JoinAcceptor
    case JoinAcceptor =>
      && pc' == SwapLock
      && if s.acceptJoinable then s.accept.AcceptExited? && a == Emit(AcceptorJoined) else a == Tau
    case SwapLock => a == Acquire(WorkersMu) && pc' == Swap
    case Swap => a == Tau && pc' == SwapUnlock(s.registered)
    case SwapUnlock(p) => a == Release(WorkersMu) && pc' == JoinWorkers(p)
    case JoinWorkers(p) =>
      if p == [] then a == Tau && pc' == TeardownLock
      else HasExited(s, p[0]) && a == Emit(Joined(p[0])) && pc' == JoinWorkers(p[1..])
    case TeardownLock => a == Acquire(SessionMu) && pc' == TestCancel
    case TestCancel => a == Tau && pc' == if s.listener then Cancel(CANCEL_RETRIES) else TestSession
    case Cancel(r) =>
      && a == Emit(Lib(ForwardCancel))
      && (pc' == ClearListener || (pc'.Cancel? && pc'.retries < r))
    case ClearListener => a == Tau && pc' == TestSession
    case TestSession => a == Tau && pc' == if s.session then MakeBlocking else CloseSsh
    case MakeBlocking => a == Emit(Lib(SetBlocking)) && pc' == BoundTimeout
    case BoundTimeout => a == Emit(Lib(SetTimeout)) && pc' == SayGoodbye
    case SayGoodbye => a == Emit(Lib(Disconnect)) && pc' == FreeSession
    case FreeSession => a == Emit(Lib(SessionFree)) && pc' == ClearSession
    case ClearSession => a == Tau && pc' == CloseSsh
    case CloseSsh => a == (if s.sshSocket then Emit(SshSocketClosed) else Tau) && pc' == TeardownUnlock
    case TeardownUnlock => a == Release(SessionMu) && pc' == StatusLock
    case StatusLock => a == Acquire(Mu) && pc' == StatusWrite
    case StatusWrite => a == Release(Mu) && pc' == Idle
  }

  function AfterCloser(s: State, a: Action, pc': ClosePc): State {
    State(s.running && a != ClearRunning, OwnerAfter(s.owner, Closer, a),
          s.accept, s.acceptJoinable && !s.closer.JoinAcceptor?, pc', s.reader,
          s.workers,
          if s.closer.Swap? then [] else s.registered,
          s.accepted,
          s.hadSession, s.session && !s.closer.ClearSession?,
          s.hadListener, s.listener && !s.closer.ClearListener?,
          s.sshSocket && !s.closer.CloseSsh?,
          if s.closer.StatusWrite? then s.closes + 1 else s.closes,
          TraceAfter(s.trace, a))
  }

  function AfterReader(s: State, held: bool, a: Action): State {
    State(s.running, OwnerAfter(s.owner, Reader, a),
          s.accept, s.acceptJoinable, s.closer, held,
          s.workers, s.registered, s.accepted,
          s.hadSession, s.session, s.hadListener, s.listener, s.sshSocket, s.closes,
          s.trace)
  }

  datatype Step =
    | AcceptorMoves(a: Action, apc: AcceptPc)
    | WorkerMoves(w: nat, a: Action, wpc: WorkerPc)
    | CloserMoves(a: Action, cpc: ClosePc)
    | ReaderLocks | ReaderUnlocks

  function After(s: State, step: Step): State
    requires step.WorkerMoves? ==> step.w < |s.workers|
  {
    match step
    case AcceptorMoves(a, pc') => AfterAcceptor(s, a, pc')
    case WorkerMoves(w, a, pc') => AfterWorker(s, w, a, pc')
    case CloserMoves(a, pc') => AfterCloser(s, a, pc')
    case ReaderLocks => AfterReader(s, true, Acquire(Mu))
    case ReaderUnlocks => AfterReader(s, false, Release(Mu))
  }

  ghost predicate CanStep(s: State, step: Step) {
    match step
    case AcceptorMoves(a, pc') => Enabled(s, a) && AcceptStep(s, a, pc')
    case WorkerMoves(w, a, pc') =>
      w < |s.workers| && Enabled(s, a) && WorkerStep(s.running, w, s.workers[w].chan, s.workers[w].pc, a, pc')
    case CloserMoves(a, pc') => Enabled(s, a) && CloseStep(s, a, pc')
    case ReaderLocks => !s.reader && Enabled(s, Acquire(Mu))
    case ReaderUnlocks => s.reader
  }

  ghost predicate Next(s: State, step: Step, s': State) {
    CanStep(s, step) && s' == After(s, step)
  }

  /** A run: states[0] is initial and each state follows from the one before by a step. */
  ghost predicate IsRun(states: seq<State>, steps: seq<Step>) {
    && |states| == |steps| + 1
    && Init(states[0])
    && forall k :: 0 <= k < |steps| ==> Next(states[k], steps[k], states[k + 1])
  }
}
