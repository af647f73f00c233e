/** The level-1 analysis of lktrace/src/level1.rs: records are read one
    after another and paired per thread, an IN record opening an event and
    the matching OUT record completing it. A clone's request is handed to
    the child thread, whose first record is an OUT; returns through a known
    signal handler address are tracked on a per-thread signal stack. */
module Level1 {
  import opened Fallible
  import opened Numbers
  import opened Trace
  import opened SysNo
  import opened Signal
  import opened Stream
  import opened Event

  // Panic messages.
  const NO_REQUESTS: string := "No requests in event queue!"
  const SYSNO_ASSERT: string := "assertion `left == right` failed: sysno"
  const EXECVE_ASSERT: string := "assertion failed: evt.head.ax[7] != SYS_EXECVE"
  const ADMIT_ASSERT: string := "assertion failed: evt.head.inout == IN || evt.head.ax[7] == SYS_CLONE"
  const TOTALSIZE_ASSERT: string := "assertion failed: evt.head.totalsize >= evt.head.headsize as u32"
  const MAGIC_ASSERT: string := "assertion `left == right` failed: magic"
  const HEADSIZE_ASSERT: string := "assertion `left == right` failed: headsize"

  /** Everything `analyse` keeps between records: `sighand_set`,
      `events_map`, `vfork_req`, `task_seq`, and the flows already handed
      to `print_events` when their thread exited, in that order. */
  datatype State = State(
    sighand: set<u64>,
    flows: map<u64, TraceFlow>,
    vforkReq: seq<TraceEvent>,
    taskSeq: seq<u64>,
    printed: seq<(u64, seq<TraceEvent>)>)

  const INITIAL: State := State({}, map[], [], [], [])

  /** The event pushed when a thread enters a signal handler:
      `TraceEvent::default()` marked OUT, entering `signo`, with `signo` in
      a0. */
  function SigEnter(signo: u64): (e: TraceEvent)
    ensures e.signal == Enter(signo) && e.head.inout == OUT && e.head.ax[0] == signo
  {
    DEFAULT_EVENT.(signal := Enter(signo), head := DEFAULT_HEAD.(inout := OUT, ax := ZERO_REGS[0 := signo]))
  }

  /** The last event once the OUT record `evt` completes it: its result
      from a0, the OUT payloads after the IN ones, marked OUT. */
  function Completed(last: TraceEvent, evt: TraceEvent): TraceEvent {
    last.(result := AsI64(evt.head.ax[0]), payloads := last.payloads + evt.payloads, head := last.head.(inout := OUT))
  }

  // ---------------------------------------------------------------- one step

  /** Finding the record's flow: a thread seen for the first time must
      start with an IN record or a clone's return; it is appended to the
      task sequence and gets a new flow, which for an OUT record starts
      with the most recent clone request. */
  function Admit(s: State, evt: TraceEvent): (r: Result<State>)
    ensures r.Ok? ==> evt.head.sscratch in r.value.flows
  {
    var tid := evt.head.sscratch;
    if tid in s.flows then Ok(s)
    else if !(evt.head.inout == IN || evt.head.ax[7] == SYS_CLONE) then
      Err(Panic(ADMIT_ASSERT))
    else if evt.head.inout == OUT then
      if |s.vforkReq| == 0 then Err(Panic(UNWRAP_NONE))
      else
        var req := s.vforkReq[|s.vforkReq| - 1];
        Ok(s.(taskSeq := s.taskSeq + [tid], flows := s.flows[tid := TraceFlow([req], [])],
              vforkReq := s.vforkReq[..|s.vforkReq| - 1]))
    else Ok(s.(taskSeq := s.taskSeq + [tid], flows := s.flows[tid := TraceFlow([], [])]))
  }

  /** An IN record on its flow `f`: a clone is also offered to the child;
      `rt_sigreturn` resumes the event the handler interrupted instead of
      recording itself; `exit_group` closes the flow and hands it to the
      printer. */
  function StepIn(s: State, tid: u64, f: TraceFlow, evt: TraceEvent): Result<State> {
    var sysno := evt.head.ax[7];
    if sysno == SYS_CLONE then
      Ok(s.(vforkReq := s.vforkReq + [evt], flows := s.flows[tid := f.(events := f.events + [evt])]))
    else if sysno == SYS_RT_SIGRETURN then
      if |f.signalStack| == 0 then Err(Panic(UNWRAP_NONE))
      else
        var resumed := f.signalStack[|f.signalStack| - 1];
        Ok(s.(flows := s.flows[tid := TraceFlow(f.events + [resumed], f.signalStack[..|f.signalStack| - 1])]))
    else if sysno == SYS_EXIT_GROUP then
      Ok(s.(printed := s.printed + [(tid, f.events + [evt])], flows := s.flows - {tid}))
    else Ok(s.(flows := s.flows[tid := f.(events := f.events + [evt])]))
  }

  /** The signal handler addresses after an OUT record: an `rt_sigaction`
      that carries an action adds its handler. */
  function Handlers(sighand: set<u64>, evt: TraceEvent): Result<set<u64>> {
    if evt.head.ax[7] != SYS_RT_SIGACTION then Ok(sighand)
    else
      match ParseSigaction(evt)
      case Err(e) => Err(e)
      case Ok(None) => Ok(sighand)
      case Ok(Some((sa, _))) => Ok(sighand + {sa.handler})
  }

  /** An OUT record on its flow `f`, which must end with the request of the
      same syscall. A return to a known handler address means a signal is
      being delivered: the request is parked on the signal stack and a
      handler-entry event takes its place. Otherwise the request is
      completed. */
  function StepOut(s: State, tid: u64, f: TraceFlow, evt: TraceEvent): Result<State> {
    if |f.events| == 0 then Err(Panic(NO_REQUESTS))
    else
      var n := |f.events| - 1;
      var last := f.events[n];
      if evt.head.ax[7] != last.head.ax[7] then Err(Panic(SYSNO_ASSERT))
      else
        match Handlers(s.sighand, evt)
        case Err(e) => Err(e)
        case Ok(sighand) =>
          if evt.head.epc in sighand then
            if evt.head.ax[7] == SYS_EXECVE then Err(Panic(EXECVE_ASSERT))
            else
              var parked := last.(signal := Exit(evt.head.ax[0]));
              Ok(s.(sighand := sighand,
                    flows := s.flows[tid := TraceFlow(f.events[..n] + [SigEnter(evt.head.ax[0])], f.signalStack + [parked])]))
          else
            Ok(s.(sighand := sighand, flows := s.flows[tid := f.(events := f.events[..n] + [Completed(last, evt)])]))
  }

  /** One iteration of the loop of `analyse` on the decoded record `evt`. */
  function Next(s: State, evt: TraceEvent): Result<State> {
    match Admit(s, evt)
    case Err(e) => Err(e)
    case Ok(a) =>
      var tid := evt.head.sscratch;
      if evt.head.inout == IN then StepIn(a, tid, a.flows[tid], evt)
      else if evt.head.inout == OUT then StepOut(a, tid, a.flows[tid], evt)
      else Err(Panic(UNREACHABLE))
  }

  // --------------------------------------------------------- properties

  /** A thread's first record must be an IN or a clone's return; its id is
      appended to the task sequence and nothing else is disturbed, except
      that a clone's return takes the newest clone request as its flow. */
  lemma AdmitNewThread(s: State, evt: TraceEvent)
    requires evt.head.sscratch !in s.flows
    ensures Admit(s, evt).Ok? ==> evt.head.inout == IN || evt.head.ax[7] == SYS_CLONE
    ensures Admit(s, evt).Ok? ==>
              var a := Admit(s, evt).value;
              a.taskSeq == s.taskSeq + [evt.head.sscratch] && a.sighand == s.sighand && a.printed == s.printed
              && a.flows.Keys == s.flows.Keys + {evt.head.sscratch}
              && (forall t :: t in s.flows ==> a.flows[t] == s.flows[t])
              && a.flows[evt.head.sscratch].signalStack == []
    ensures evt.head.inout == OUT ==>
              (Admit(s, evt).Ok? <==> evt.head.ax[7] == SYS_CLONE && |s.vforkReq| > 0)
    ensures evt.head.inout == OUT && Admit(s, evt).Ok? ==>
              var a := Admit(s, evt).value;
              a.flows[evt.head.sscratch].events == [s.vforkReq[|s.vforkReq| - 1]]
              && a.vforkReq == s.vforkReq[..|s.vforkReq| - 1]
    ensures evt.head.inout == IN ==>
              Admit(s, evt) == Ok(s.(taskSeq := s.taskSeq + [evt.head.sscratch],
                                     flows := s.flows[evt.head.sscratch := TraceFlow([], [])]))
  {
  }

  /** A thread with a live flow is admitted as it stands. */
  lemma AdmitKnownThread(s: State, evt: TraceEvent)
    requires evt.head.sscratch in s.flows
    ensures Admit(s, evt) == Ok(s)
  {
  }

  /** An IN record is always admitted: a known thread keeps its flow, a
      new one gets an empty flow. */
  lemma AdmitIn(s: State, evt: TraceEvent)
    requires evt.head.inout == IN
    ensures Admit(s, evt).Ok?
    ensures var tid := evt.head.sscratch;
            Admit(s, evt).value.flows[tid] == if tid in s.flows then s.flows[tid] else TraceFlow([], [])
  {
    if evt.head.sscratch in s.flows {
      AdmitKnownThread(s, evt);
    } else {
      AdmitNewThread(s, evt);
    }
  }

  /** An IN clone goes both onto the clone hand-off stack and onto its
      flow, a new thread's fresh flow included. */
  lemma InClone(s: State, evt: TraceEvent)
    requires evt.head.inout == IN && evt.head.ax[7] == SYS_CLONE
    ensures Admit(s, evt).Ok?
    ensures var tid := evt.head.sscratch;
            var a := Admit(s, evt).value;
            Next(s, evt) == Ok(a.(vforkReq := a.vforkReq + [evt],
                                  flows := a.flows[tid := a.flows[tid].(events := a.flows[tid].events + [evt])]))
    ensures evt.head.sscratch !in s.flows ==> Next(s, evt).value.flows[evt.head.sscratch] == TraceFlow([evt], [])
  {
    AdmitIn(s, evt);
  }

  /** An IN `rt_sigreturn` needs an interrupted event, which it moves from
      the signal stack back onto the flow; the record itself is dropped.
      A thread seen for the first time has nothing to resume, so the
      `unwrap` panics. */
  lemma InSigreturn(s: State, evt: TraceEvent)
    requires evt.head.inout == IN && evt.head.ax[7] == SYS_RT_SIGRETURN
    ensures Admit(s, evt).Ok?
    ensures var f := Admit(s, evt).value.flows[evt.head.sscratch];
            (Next(s, evt).Ok? <==> |f.signalStack| > 0)
            && (Next(s, evt).Ok? ==>
                  var f' := Next(s, evt).value.flows[evt.head.sscratch];
                  f'.events == f.events + [f.signalStack[|f.signalStack| - 1]]
                  && f'.signalStack == f.signalStack[..|f.signalStack| - 1]
                  && |f'.events| == |f.events| + 1 && |f'.signalStack| + 1 == |f.signalStack|)
    ensures evt.head.sscratch !in s.flows ==> Next(s, evt) == Err(Panic(UNWRAP_NONE))
  {
    AdmitIn(s, evt);
  }

  /** An IN `exit_group` appends itself, hands the flow to the printer and
      removes the thread's flow; no other flow changes. */
  lemma InExitGroup(s: State, evt: TraceEvent)
    requires evt.head.inout == IN && evt.head.ax[7] == SYS_EXIT_GROUP
    ensures Next(s, evt).Ok?
    ensures var tid := evt.head.sscratch;
            var s' := Next(s, evt).value;
            var events := if tid in s.flows then s.flows[tid].events else [];
            tid !in s'.flows && s'.printed == s.printed + [(tid, events + [evt])]
            && s'.flows.Keys == s.flows.Keys - {tid}
            && (forall t :: t in s'.flows ==> s'.flows[t] == s.flows[t])
  {
  }

  /** Any other IN record is appended to its flow; a new thread's flow
      then holds just that record. */
  lemma InOther(s: State, evt: TraceEvent)
    requires evt.head.inout == IN
    requires evt.head.ax[7] != SYS_CLONE && evt.head.ax[7] != SYS_RT_SIGRETURN && evt.head.ax[7] != SYS_EXIT_GROUP
    ensures Admit(s, evt).Ok?
    ensures var tid := evt.head.sscratch;
            var a := Admit(s, evt).value;
            Next(s, evt) == Ok(a.(flows := a.flows[tid := a.flows[tid].(events := a.flows[tid].events + [evt])]))
    ensures evt.head.sscratch !in s.flows ==> Next(s, evt).value.flows[evt.head.sscratch] == TraceFlow([evt], [])
  {
    AdmitIn(s, evt);
  }

  /** The flow an accepted OUT record works on: the thread's live flow, or
      for a clone child's first record the newest clone request alone. */
  lemma AdmitOut(s: State, evt: TraceEvent)
    requires evt.head.inout == OUT && Admit(s, evt).Ok?
    ensures var tid := evt.head.sscratch;
            var f := Admit(s, evt).value.flows[tid];
            (tid in s.flows ==> f == s.flows[tid])
            && (tid !in s.flows ==> |s.vforkReq| > 0 && f == TraceFlow([s.vforkReq[|s.vforkReq| - 1]], []))
  {
    if evt.head.sscratch in s.flows {
      AdmitKnownThread(s, evt);
    } else {
      AdmitNewThread(s, evt);
    }
  }

  /** An accepted OUT record answers the last request of its flow, where a
      clone child's first record answers the clone request it inherits: the
      same syscall number. */
  lemma OutMatchesRequest(s: State, evt: TraceEvent)
    requires evt.head.inout == OUT && Next(s, evt).Ok?
    ensures Admit(s, evt).Ok?
    ensures var f := Admit(s, evt).value.flows[evt.head.sscratch];
            |f.events| > 0 && f.events[|f.events| - 1].head.ax[7] == evt.head.ax[7]
    ensures evt.head.sscratch !in s.flows ==>
              |s.vforkReq| > 0 && s.vforkReq[|s.vforkReq| - 1].head.ax[7] == evt.head.ax[7]
  {
    AdmitOut(s, evt);
  }

  /** An ordinary OUT record completes the last request in place: the
      flow keeps its length and every earlier event, and the signal stack is
      untouched. A clone child's first record completes the inherited clone
      request. */
  lemma OutCompletes(s: State, evt: TraceEvent)
    requires evt.head.inout == OUT && Next(s, evt).Ok?
    requires evt.head.epc !in Next(s, evt).value.sighand
    ensures Admit(s, evt).Ok?
    ensures var f := Admit(s, evt).value.flows[evt.head.sscratch];
            var f' := Next(s, evt).value.flows[evt.head.sscratch];
            var n := |f.events| - 1;
            |f'.events| == |f.events| && f'.events[..n] == f.events[..n]
            && f'.events[n] == Completed(f.events[n], evt)
            && f'.events[n].result == AsI64(evt.head.ax[0]) && f'.events[n].head.inout == OUT
            && f'.events[n].payloads == f.events[n].payloads + evt.payloads
            && f'.signalStack == f.signalStack
    ensures evt.head.sscratch !in s.flows ==>
              Next(s, evt).value.flows[evt.head.sscratch]
              == TraceFlow([Completed(s.vforkReq[|s.vforkReq| - 1], evt)], [])
  {
    AdmitOut(s, evt);
    OutMatchesRequest(s, evt);
  }

  /** An OUT record that returns to a known handler address parks the
      request on the signal stack, tagged with the signal leaving it, and
      puts a handler-entry event in its place; it cannot be `execve`. A
      clone child's first record parks the inherited clone request. */
  lemma OutEntersHandler(s: State, evt: TraceEvent)
    requires evt.head.inout == OUT && Next(s, evt).Ok?
    requires evt.head.epc in Next(s, evt).value.sighand
    ensures Admit(s, evt).Ok?
    ensures var f := Admit(s, evt).value.flows[evt.head.sscratch];
            var f' := Next(s, evt).value.flows[evt.head.sscratch];
            var n := |f.events| - 1;
            evt.head.ax[7] != SYS_EXECVE
            && |f'.events| == |f.events| && f'.events[..n] == f.events[..n]
            && f'.events[n] == SigEnter(evt.head.ax[0])
            && f'.signalStack == f.signalStack + [f.events[n].(signal := Exit(evt.head.ax[0]))]
            && |f'.signalStack| == |f.signalStack| + 1
    ensures evt.head.sscratch !in s.flows ==>
              Next(s, evt).value.flows[evt.head.sscratch]
              == TraceFlow([SigEnter(evt.head.ax[0])], [s.vforkReq[|s.vforkReq| - 1].(signal := Exit(evt.head.ax[0]))])
  {
    AdmitOut(s, evt);
    OutMatchesRequest(s, evt);
  }

  /** `Handlers` only adds, and adds the handler of an action it finds. */
  lemma HandlersGrow(sighand: set<u64>, evt: TraceEvent)
    requires Handlers(sighand, evt).Ok?
    ensures sighand <= Handlers(sighand, evt).value
    ensures evt.head.ax[7] == SYS_RT_SIGACTION && |evt.payloads| > 0 ==>
              ParseSigaction(evt).Ok? && ParseSigaction(evt).value.Some?
              && ParseSigaction(evt).value.value.0.handler in Handlers(sighand, evt).value
  {
  }

  lemma StepOutSighand(s: State, tid: u64, f: TraceFlow, evt: TraceEvent)
    requires StepOut(s, tid, f, evt).Ok?
    ensures Handlers(s.sighand, evt).Ok? && StepOut(s, tid, f, evt).value.sighand == Handlers(s.sighand, evt).value
  {
  }

  /** Handler addresses are only ever added, and an `rt_sigaction` return
      carrying an action adds its handler. */
  lemma SighandGrows(s: State, evt: TraceEvent)
    requires Next(s, evt).Ok?
    ensures s.sighand <= Next(s, evt).value.sighand
    ensures evt.head.inout == OUT && evt.head.ax[7] == SYS_RT_SIGACTION && |evt.payloads| > 0 ==>
              ParseSigaction(evt).Ok? && ParseSigaction(evt).value.Some?
              && ParseSigaction(evt).value.value.0.handler in Next(s, evt).value.sighand
  {
    var a := Admit(s, evt).value;
    var tid := evt.head.sscratch;
    assert a.sighand == s.sighand;
    if evt.head.inout == OUT {
      StepOutSighand(a, tid, a.flows[tid], evt);
      HandlersGrow(s.sighand, evt);
    }
  }

  /** The invariant the loop keeps: every live flow belongs to a thread in
      the task sequence and holds at least one event. */
  ghost predicate Valid(s: State) {
    forall t :: t in s.flows ==> t in s.taskSeq && |s.flows[t].events| > 0
  }

  /** `Valid` except that the flow of `tid` may still be empty. */
  ghost predicate ValidBut(s: State, tid: u64) {
    (forall t :: t in s.flows ==> t in s.taskSeq)
    && (forall t :: t in s.flows && t != tid ==> |s.flows[t].events| > 0)
  }

  lemma AdmitValid(s: State, evt: TraceEvent)
    requires Valid(s) && Admit(s, evt).Ok?
    ensures ValidBut(Admit(s, evt).value, evt.head.sscratch)
    ensures s.taskSeq <= Admit(s, evt).value.taskSeq
    ensures evt.head.inout == OUT ==> |Admit(s, evt).value.flows[evt.head.sscratch].events| > 0
  {
  }

  lemma StepInValid(a: State, tid: u64, evt: TraceEvent)
    requires tid in a.flows && ValidBut(a, tid) && StepIn(a, tid, a.flows[tid], evt).Ok?
    ensures Valid(StepIn(a, tid, a.flows[tid], evt).value)
    ensures StepIn(a, tid, a.flows[tid], evt).value.taskSeq == a.taskSeq
  {
  }

  lemma StepOutValid(a: State, tid: u64, evt: TraceEvent)
    requires tid in a.flows && ValidBut(a, tid) && StepOut(a, tid, a.flows[tid], evt).Ok?
    ensures Valid(StepOut(a, tid, a.flows[tid], evt).value)
    ensures StepOut(a, tid, a.flows[tid], evt).value.taskSeq == a.taskSeq
  {
  }

  /** Each step keeps the invariant, and the task sequence only grows. */
  lemma NextValid(s: State, evt: TraceEvent)
    requires Valid(s) && Next(s, evt).Ok?
    ensures Valid(Next(s, evt).value)
    ensures s.taskSeq <= Next(s, evt).value.taskSeq
  {
    var tid := evt.head.sscratch;
    AdmitValid(s, evt);
    var a := Admit(s, evt).value;
    if evt.head.inout == IN {
      StepInValid(a, tid, evt);
    } else {
      StepOutValid(a, tid, evt);
    }
  }

  /** On a valid state an OUT record never finds its flow empty: the
      `expect` on the last request cannot fire. */
  lemma OutNeverEmpty(s: State, evt: TraceEvent)
    requires Valid(s) && evt.head.inout == OUT && Admit(s, evt).Ok?
    ensures |Admit(s, evt).value.flows[evt.head.sscratch].events| > 0
  {
  }

  // ----------------------------------------------------------- the whole run

  /** `analyse` on the unread bytes `rest` with `filesize` bytes still to
      account for: while at least a head's worth remains, decode a record
      at level 1, check its framing, step, and charge its total size. */
  function Analysis(rest: seq<byte>, filesize: nat, s: State): Result<State>
    decreases filesize
  {
    if filesize < TE_SIZE then Ok(s)
    else
      match ParseEventSpec(rest, 1)
      case Err(e) => Err(e)
      case Ok((evt, n)) =>
        match HeadCheck(evt.head)
        case Err(e) => Err(e)
        case Ok(_) =>
          match Next(s, evt)
          case Err(e) => Err(e)
          case Ok(s') =>
            if evt.head.totalsize as nat > filesize then Err(Panic(SUB_OVERFLOW))
            else Analysis(rest[n..], filesize - evt.head.totalsize as nat, s')
  }

  /** The framing assertions the loop makes of every record before it
      steps: the magic, the head size, a total size covering the head, and
      a user-mode environment call, checked in that order. */
  function HeadCheck(head: TraceHead): (r: Result<()>)
    ensures r.Ok? <==> head.magic == LK_MAGIC && head.headsize as nat == TE_SIZE
                       && head.totalsize >= head.headsize as u32 && head.cause == USER_ECALL
    ensures head.magic != LK_MAGIC ==> r == Err(Panic(MAGIC_ASSERT))
  {
    if head.magic != LK_MAGIC then Err(Panic(MAGIC_ASSERT))
    else if head.headsize as nat != TE_SIZE then Err(Panic(HEADSIZE_ASSERT))
    else if head.totalsize < head.headsize as u32 then Err(Panic(TOTALSIZE_ASSERT))
    else if head.cause != USER_ECALL then Err(Panic(CAUSE_ASSERT))
    else Ok(())
  }

  /** The loop's invariant holds of whatever `analyse` ends with. */
  lemma {:induction false} AnalysisValid(rest: seq<byte>, filesize: nat, s: State)
    requires Valid(s) && Analysis(rest, filesize, s).Ok?
    ensures Valid(Analysis(rest, filesize, s).value)
    ensures s.taskSeq <= Analysis(rest, filesize, s).value.taskSeq
    decreases filesize
  {
    if filesize >= TE_SIZE {
      var (evt, n) := ParseEventSpec(rest, 1).value;
      var s' := Next(s, evt).value;
      NextValid(s, evt);
      AnalysisValid(rest[n..], filesize - evt.head.totalsize as nat, s');
    }
  }

  /** A file shorter than one head is accepted without reading anything. */
  lemma AnalysisShortFile(rest: seq<byte>, filesize: nat, s: State)
    requires filesize < TE_SIZE
    ensures Analysis(rest, filesize, s) == Ok(s)
  {
  }

  /** The state `analyse` keeps, as fields it updates record by record. */
  class Analyser {
    var sighandSet: set<u64>
    var eventsMap: map<u64, TraceFlow>
    var vforkReq: seq<TraceEvent>
    var taskSeq: seq<u64>
    var printed: seq<(u64, seq<TraceEvent>)>

    function Current(): State
      reads this
    {
      State(sighandSet, eventsMap, vforkReq, taskSeq, printed)
    }

    constructor ()
      ensures Current() == INITIAL
    {
      sighandSet, eventsMap, vforkReq, taskSeq, printed := {}, map[], [], [], [];
    }

    /** The lookup at the top of the loop body. */
    method AdmitRecord(evt: TraceEvent) returns (r: Result<()>)
      modifies this
      ensures r.Ok? <==> Admit(old(Current()), evt).Ok?
      ensures r.Err? ==> r.error == Admit(old(Current()), evt).error
      ensures r.Ok? ==> Current() == Admit(old(Current()), evt).value
    {
      var tid := evt.head.sscratch;
      if tid !in eventsMap {
        if !(evt.head.inout == IN || evt.head.ax[7] == SYS_CLONE) {
          return Err(Panic(ADMIT_ASSERT));
        }
        taskSeq := taskSeq + [tid];
        var flow := TraceFlow([], []);
        if evt.head.inout == OUT {
          if |vforkReq| == 0 {
            return Err(Panic(UNWRAP_NONE));
          }
          var req := vforkReq[|vforkReq| - 1];
          vforkReq := vforkReq[..|vforkReq| - 1];
          flow := flow.(events := flow.events + [req]);
          assert flow.events == [req];
        }
        eventsMap := eventsMap[tid := flow];
      }
      r := Ok(());
    }

    /** The IN arm of the loop body. */
    method RecordIn(tid: u64, evt: TraceEvent) returns (r: Result<()>)
      requires tid in eventsMap
      modifies this
      ensures var spec := StepIn(old(Current()), tid, old(eventsMap[tid]), evt);
              (r.Ok? <==> spec.Ok?) && (r.Err? ==> r.error == spec.error)
              && (r.Ok? ==> Current() == spec.value)
    {
      var flow := eventsMap[tid];
      var sysno := evt.head.ax[7];
      if sysno == SYS_CLONE {
        vforkReq := vforkReq + [evt];
        flow := flow.(events := flow.events + [evt]);
      } else if sysno == SYS_RT_SIGRETURN {
        if |flow.signalStack| == 0 {
          return Err(Panic(UNWRAP_NONE));
        }
        var resumed := flow.signalStack[|flow.signalStack| - 1];
        flow := flow.(signalStack := flow.signalStack[..|flow.signalStack| - 1]);
        flow := flow.(events := flow.events + [resumed]);
      } else if sysno == SYS_EXIT_GROUP {
        flow := flow.(events := flow.events + [evt]);
        printed := printed + [(tid, flow.events)];
        eventsMap := eventsMap - {tid};
        return Ok(());
      } else {
        flow := flow.(events := flow.events + [evt]);
      }
      eventsMap := eventsMap[tid := flow];
      r := Ok(());
    }

    /** The OUT arm of the loop body. */
    method RecordOut(tid: u64, evt: TraceEvent) returns (r: Result<()>)
      requires tid in eventsMap
      modifies this
      ensures var spec := StepOut(old(Current()), tid, old(eventsMap[tid]), evt);
              (r.Ok? <==> spec.Ok?) && (r.Err? ==> r.error == spec.error)
              && (r.Ok? ==> Current() == spec.value)
    {
      var flow := eventsMap[tid];
      if |flow.events| == 0 {
        return Err(Panic(NO_REQUESTS));
      }
      var n := |flow.events| - 1;
      if evt.head.ax[7] != flow.events[n].head.ax[7] {
        return Err(Panic(SYSNO_ASSERT));
      }
      if evt.head.ax[7] == SYS_RT_SIGACTION {
        var parsed :- ParseSigaction(evt);
        if parsed.Some? {
          sighandSet := sighandSet + {parsed.value.0.handler};
        }
      }
      if evt.head.epc in sighandSet {
        if evt.head.ax[7] == SYS_EXECVE {
          return Err(Panic(EXECVE_ASSERT));
        }
        var last := flow.events[n];
        flow := flow.(events := flow.events[..n]);
        last := last.(signal := Exit(evt.head.ax[0]));
        flow := flow.(signalStack := flow.signalStack + [last]);
        flow := flow.(events := flow.events + [SigEnter(evt.head.ax[0])]);
      } else {
        var last := flow.events[n];
        last := last.(result := AsI64(evt.head.ax[0]));
        last := last.(payloads := last.payloads + evt.payloads);
        last := last.(head := last.head.(inout := OUT));
        flow := flow.(events := flow.events[n := last]);
        assert flow.events == old(eventsMap[tid]).events[..n] + [Completed(old(eventsMap[tid]).events[n], evt)];
      }
      eventsMap := eventsMap[tid := flow];
      r := Ok(());
    }

    /** One iteration of the loop of `analyse`. */
    method Step(evt: TraceEvent) returns (r: Result<()>)
      modifies this
      ensures var spec := Next(old(Current()), evt);
              (r.Ok? <==> spec.Ok?) && (r.Err? ==> r.error == spec.error)
              && (r.Ok? ==> Current() == spec.value)
    {
      var _ :- AdmitRecord(evt);
      var tid := evt.head.sscratch;
      if evt.head.inout == IN {
        r := RecordIn(tid, evt);
      } else if evt.head.inout == OUT {
        r := RecordOut(tid, evt);
      } else {
        r := Err(Panic(UNREACHABLE));
      }
    }
  }

  /** `analyse` on a trace file with contents `data`: the state the loop
      ends in, or the first decoding error or panic. */
  method Analyse(data: seq<byte>) returns (r: Result<State>)
    ensures r == Analysis(data, |data|, INITIAL)
    ensures r.Ok? ==> Valid(r.value)
  {
    var reader := new Reader(data);
    var filesize: nat := |data|;
    var analyser := new Analyser();
    while filesize >= TE_SIZE
      invariant Analysis(reader.rest, filesize, analyser.Current()) == Analysis(data, |data|, INITIAL)
      invariant Valid(analyser.Current())
      decreases filesize
    {
      ghost var rest := reader.rest;
      ghost var before := analyser.Current();
      var evt :- ParseEvent(reader, 1);
      var advance := evt.head.totalsize as nat;
      var _ :- HeadCheck(evt.head);
      var _ :- analyser.Step(evt);
      NextValid(before, evt);
      if advance > filesize {
        return Err(Panic(SUB_OVERFLOW));
      }
      filesize := filesize - advance;
    }
    r := Ok(analyser.Current());
  }
}
