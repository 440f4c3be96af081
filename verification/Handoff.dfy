/**
  The handoff between the two handlers of a connection in version 0.1
  (archive/mproxy v0.1/src/proxy.cpp): each waits for its own semaphore, relays one message, and posts
  the other's. A step is one statement of one handler.
 */
module Handoff {

  /** The statement a handler executes next: `sem_wait`, `read_message`, `send`, `sem_post`. */
  datatype Pc = Waiting | Reading | Sending | Posting

  /** What a `send` carried: a message of the client, or one of the server. */
  datatype Message = Request | Response

  datatype State = State(inSem: nat, outSem: nat, inPc: Pc, outPc: Pc, sends: seq<Message>)

  datatype Handler = Inflow | Outflow

  /** `run_listener` initializes the semaphores to 1 and 0. */
  const START := State(1, 0, Waiting, Waiting, [])

  predicate Enabled(s: State, h: Handler) {
    match h
    case Inflow => s.inPc.Waiting? ==> s.inSem > 0
    case Outflow => s.outPc.Waiting? ==> s.outSem > 0
  }

  /** One statement of `run_inflow_handler` or `run_outflow_handler`. */
  function Step(s: State, h: Handler): State
    requires Enabled(s, h)
  {
    match h
    case Inflow =>
      (match s.inPc
       case Waiting => s.(inSem := s.inSem - 1, inPc := Reading)
       case Reading => s.(inPc := Sending)
       case Sending => s.(sends := s.sends + [Request], inPc := Posting)
       case Posting => s.(outSem := s.outSem + 1, inPc := Waiting))
    case Outflow =>
      (match s.outPc
       case Waiting => s.(outSem := s.outSem - 1, outPc := Reading)
       case Reading => s.(outPc := Sending)
       case Sending => s.(sends := s.sends + [Response], outPc := Posting)
       case Posting => s.(inSem := s.inSem + 1, outPc := Waiting))
  }

  predicate LegalRun(s: State, run: seq<Handler>)
    decreases |run|
  {
    run != [] ==> Enabled(s, run[0]) && LegalRun(Step(s, run[0]), run[1..])
  }

  function Run(s: State, run: seq<Handler>): State
    requires LegalRun(s, run)
    decreases |run|
  {
    if run == [] then s else Run(Step(s, run[0]), run[1..])
  }

  function Count(sends: seq<Message>, m: Message): nat {
    if sends == [] then 0
    else Count(sends[..|sends| - 1], m) + if sends[|sends| - 1] == m then 1 else 0
  }

  ghost predicate Alternates(sends: seq<Message>) {
    forall i :: 0 <= i < |sends| ==> sends[i] == if i % 2 == 0 then Request else Response
  }

  /** There is one token: a unit of a semaphore, or a handler between its wait and its post. And the
      token tells whose turn it is. */
  ghost predicate Inv(s: State) {
    && s.inSem + s.outSem + (if s.inPc.Waiting? then 0 else 1) + (if s.outPc.Waiting? then 0 else 1) == 1
    && Alternates(s.sends)
    && (|s.sends| % 2 == 0 <==> s.inSem == 1 || s.inPc.Reading? || s.inPc.Sending? || s.outPc.Posting?)
  }

  lemma StepKeepsInv(s: State, h: Handler)
    requires Inv(s) && Enabled(s, h)
    ensures Inv(Step(s, h))
  {
  }

  lemma {:induction false} RunKeepsInv(s: State, run: seq<Handler>)
    requires Inv(s) && LegalRun(s, run)
    ensures Inv(Run(s, run))
    decreases |run|
  {
    if run != [] {
      StepKeepsInv(s, run[0]);
      RunKeepsInv(Step(s, run[0]), run[1..]);
    }
  }

  lemma {:induction false} CountAlternating(sends: seq<Message>)
    requires Alternates(sends)
    ensures Count(sends, Request) == (|sends| + 1) / 2 && Count(sends, Response) == |sends| / 2
    decreases |sends|
  {
    if sends != [] {
      CountAlternating(sends[..|sends| - 1]);
    }
  }

  /** In every interleaving: the handlers are never both between wait and post; sends alternate,
      starting with a request, so there is at most one request without a response; and one of the two
      handlers can always go on. */
  lemma StrictAlternation(run: seq<Handler>)
    requires LegalRun(START, run)
    ensures var s := Run(START, run);
            && (s.inPc.Waiting? || s.outPc.Waiting?)
            && Alternates(s.sends)
            && Count(s.sends, Response) <= Count(s.sends, Request) <= Count(s.sends, Response) + 1
            && (Enabled(s, Inflow) != Enabled(s, Outflow))
  {
    RunKeepsInv(START, run);
    CountAlternating(Run(START, run).sends);
  }
}
