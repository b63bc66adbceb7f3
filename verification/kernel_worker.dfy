/** The kernel worker's message handler: a state machine over two variables, the
    "worker initialised" flag and the kernel instance, that answers each incoming
    message with the replies it posts.

    The kernel's own methods are foreign here (`WeiruiKernel` in `host_func.ts` declares
    no `getJointPos` or `setActuatorControls`), so what such a call returns or
    throws is an input. The asynchronous completion of `init` is a separate event. */
module KernelWorker {
  import opened Common
  import opened Messages

  /** `workerInitialized` and `globalWeiruiKernel`; a kernel is remembered by the
      module bytes it was created from. */
  datatype WorkerState = WorkerState(workerInitialized: bool, kernel: Option<seq<byte>>)

  const INITIAL_WORKER: WorkerState := WorkerState(false, None)

  /** The destructured `e.data`: `type`, `data` and `id`, each possibly absent. */
  datatype Incoming = Incoming(kind: Option<string>, data: Payload, id: Option<int>)

  /** A posted reply `{ type, success?, error?, data?, id? }`. */
  datatype Reply = Reply(kind: string, success: Option<bool>, error: Option<string>, data: Payload, id: Option<int>)

  /** A thrown value: an `Error` with its message, or anything else. */
  datatype Thrown = ErrorValue(message: string) | NonError

  /** What calling into the kernel did. */
  datatype KernelCall = CallReturned(data: Payload) | CallThrew(thrown: Thrown)

  datatype Step = Step(state: WorkerState, replies: seq<Reply>)

  const INVALID_FORMAT: string := "Invalid message format"
  const NOT_INITIALIZED: string := "Kernel not initialized"
  const UNKNOWN_ERROR: string := "Unknown error"
  /** The message of the `TypeError` thrown when `init` or `setActuatorControls`
      arrives without data (destructuring `undefined`); its exact wording is
      engine-specific. */
  const TYPE_ERROR: string := "TypeError"

  const WORKER_READY: Reply := Reply("workerReady", None, None, NoData, None)

  /** `error instanceof Error ? error.message : 'Unknown error'`. */
  function ErrorText(t: Thrown): string {
    match t
    case ErrorValue(m) => m
    case NonError => UNKNOWN_ERROR
  }

  function Failure(kind: string, t: Thrown, id: Option<int>): Reply {
    Reply(kind, Some(false), Some(ErrorText(t)), NoData, id)
  }

  /** How `${type}` prints a possibly absent type. */
  function TypeText(kind: Option<string>): string {
    match kind
    case None => "undefined"
    case Some(k) => k
  }

  function Is(kind: Option<string>, name: string): bool {
    kind == Some(name)
  }

  /** `self.onmessage`. `event` is `None` when the event or its data is missing;
      `call` is what the kernel method does if this message reaches one. */
  function OnMessage(s: WorkerState, event: Option<Incoming>, call: KernelCall): (st: Step)
    // invalid event: one error reply, nothing else changes
    ensures event.None? ==>
      st == Step(s, [Reply("error", Some(false), Some("Invalid message format"), NoData, None)])
    // a valid event marks the worker ready, announcing it first if it was not
    ensures event.Some? ==> st.state.workerInitialized
    ensures event.Some? && !s.workerInitialized ==> |st.replies| >= 1 && st.replies[0] == WORKER_READY
    ensures event.Some? && s.workerInitialized ==> WORKER_READY !in st.replies
    ensures event.Some? ==> forall i :: 0 < i < |st.replies| ==> st.replies[i] != WORKER_READY
    // the kernel is only ever set, never replaced
    ensures s.kernel.Some? ==> st.state.kernel == s.kernel
    ensures st.state.kernel.Some? && s.kernel.None? ==>
      event.Some? && Is(event.value.kind, "init") && !Nullish(event.value.data)
  {
    match event
    case None => Step(s, [Reply("error", Some(false), Some(INVALID_FORMAT), NoData, None)])
    case Some(m) =>
      var ready := if s.workerInitialized then [] else [WORKER_READY];
      var s1 := s.(workerInitialized := true);
      var handled := Handle(s1, m, call);
      Step(handled.state, ready + handled.replies)
  }

  /** The part of `onmessage` after the readiness announcement. */
  function Handle(s: WorkerState, m: Incoming, call: KernelCall): (st: Step)
    ensures st.state.workerInitialized == s.workerInitialized
    ensures WORKER_READY !in st.replies
    ensures s.kernel.Some? ==> st.state.kernel == s.kernel
    ensures st.state.kernel.Some? && s.kernel.None? ==> Is(m.kind, "init") && !Nullish(m.data)
    // ping with an id: pong with the same id, nothing else changes
    ensures Is(m.kind, "ping") && m.id.Some? ==> st == Step(s, [Reply("pong", None, None, NoData, m.id)])
    // init when a kernel exists: success with the same id, kernel kept
    ensures Is(m.kind, "init") && s.kernel.Some? ==> st == Step(s, [Reply("init", Some(true), None, NoData, m.id)])
    // init without a kernel stores it at once; the reply comes when init settles
    ensures Is(m.kind, "init") && s.kernel.None? && !Nullish(m.data) ==>
      st.state.kernel.Some? && st.replies == []
    // init without data, or with null, and without a kernel throws while reading the wasm bytes
    ensures Is(m.kind, "init") && s.kernel.None? && Nullish(m.data) ==>
      st == Step(s, [Failure("init", ErrorValue(TYPE_ERROR), m.id)])
    // kernel calls before init: a failure of the same type and id
    ensures (Is(m.kind, "getJointPos") || Is(m.kind, "setActuatorControls")) && s.kernel.None? ==>
      st == Step(s, [Reply(m.kind.value, Some(false), Some("Kernel not initialized"), NoData, m.id)])
    ensures Is(m.kind, "getJointPos") && s.kernel.Some? && call.CallReturned? ==>
      st == Step(s, [Reply("getJointPos", Some(true), None, call.data, m.id)])
    // setActuatorControls without data, or with null, throws while destructuring, before the kernel is called
    ensures Is(m.kind, "setActuatorControls") && s.kernel.Some? && Nullish(m.data) ==>
      st == Step(s, [Reply("setActuatorControls", Some(false), Some(TYPE_ERROR), NoData, m.id)])
    ensures Is(m.kind, "setActuatorControls") && s.kernel.Some? && !Nullish(m.data) && call.CallReturned? ==>
      st == Step(s, [Reply("setActuatorControls", Some(true), None, NoData, m.id)])
    // a kernel call that throws: its error under the same type and id
    ensures (Is(m.kind, "getJointPos") || (Is(m.kind, "setActuatorControls") && !Nullish(m.data))) && s.kernel.Some? && call.CallThrew? ==>
      st == Step(s, [Failure(m.kind.value, call.thrown, m.id)])
    // any other type (a ping without an id included)
    ensures !(Is(m.kind, "ping") && m.id.Some?) && !Is(m.kind, "init") && !Is(m.kind, "getJointPos")
            && !Is(m.kind, "setActuatorControls") ==>
      st == Step(s, [Reply("unknownMessageType", Some(false), Some("Unknown message type: " + TypeText(m.kind)), NoData, m.id)])
  {
    if Is(m.kind, "ping") && m.id.Some? then Step(s, [Reply("pong", None, None, NoData, m.id)])
    else if Is(m.kind, "init") then
      if s.kernel.Some? then Step(s, [Reply("init", Some(true), None, NoData, m.id)])
      else
        match m.data
        case NoData => Step(s, [Failure("init", ErrorValue(TYPE_ERROR), m.id)])
        case NullData => Step(s, [Failure("init", ErrorValue(TYPE_ERROR), m.id)])
        case InitData(wasm) => Step(s.(kernel := Some(wasm)), [])
        case _ => Step(s.(kernel := Some([])), [])
    else if Is(m.kind, "getJointPos") || Is(m.kind, "setActuatorControls") then
      var kind := m.kind.value;
      if s.kernel.None? then Step(s, [Failure(kind, ErrorValue(NOT_INITIALIZED), m.id)])
      else if kind == "setActuatorControls" && Nullish(m.data) then Step(s, [Failure(kind, ErrorValue(TYPE_ERROR), m.id)])
      else
        match call
        case CallThrew(t) => Step(s, [Failure(kind, t, m.id)])
        case CallReturned(d) =>
          if kind == "getJointPos" then Step(s, [Reply(kind, Some(true), None, d, m.id)])
          else Step(s, [Reply(kind, Some(true), None, NoData, m.id)])
    else
      Step(s, [Reply("unknownMessageType", Some(false), Some("Unknown message type: " + TypeText(m.kind)), NoData, m.id)])
  }

  /** The settlement of a kernel's asynchronous `init`: it posts the deferred
      reply and leaves the state alone, so a failed init keeps its kernel. */
  function InitSettled(s: WorkerState, id: Option<int>, failure: Option<Thrown>): (st: Step)
    ensures st.state == s
    ensures failure.None? ==> st.replies == [Reply("init", Some(true), None, NoData, id)]
    ensures failure.Some? ==> st.replies == [Reply("init", Some(false), Some(ErrorText(failure.value)), NoData, id)]
  {
    match failure
    case None => Step(s, [Reply("init", Some(true), None, NoData, id)])
    case Some(t) => Step(s, [Failure("init", t, id)])
  }

  /** Everything the worker reacts to. */
  datatype Event = Message(event: Option<Incoming>, call: KernelCall) | Settled(id: Option<int>, failure: Option<Thrown>)

  function Apply(s: WorkerState, e: Event): Step {
    match e
    case Message(ev, call) => OnMessage(s, ev, call)
    case Settled(id, failure) => InitSettled(s, id, failure)
  }

  /** Runs the events in order, concatenating the replies. */
  function Run(s: WorkerState, es: seq<Event>): Step
    decreases |es|
  {
    if |es| == 0 then Step(s, [])
    else
      var first := Apply(s, es[0]);
      var rest := Run(first.state, es[1..]);
      Step(rest.state, first.replies + rest.replies)
  }

  predicate IsValidMessage(e: Event) {
    e.Message? && e.event.Some?
  }

  function CountReady(rs: seq<Reply>): nat
    decreases |rs|
  {
    if |rs| == 0 then 0
    else (if rs[0] == WORKER_READY then 1 else 0) + CountReady(rs[1..])
  }

  lemma {:induction false} CountReadyAppend(a: seq<Reply>, b: seq<Reply>)
    ensures CountReady(a + b) == CountReady(a) + CountReady(b)
    decreases |a|
  {
    if |a| > 0 {
      assert (a + b)[0] == a[0];
      assert (a + b)[1..] == a[1..] + b;
      CountReadyAppend(a[1..], b);
    } else {
      assert a + b == b;
    }
  }

  lemma {:induction false} CountReadyNone(rs: seq<Reply>)
    requires WORKER_READY !in rs
    ensures CountReady(rs) == 0
    decreases |rs|
  {
    if |rs| > 0 {
      assert forall r :: r in rs[1..] ==> r in rs;
      CountReadyNone(rs[1..]);
    }
  }

  lemma StepReadyCount(s: WorkerState, e: Event)
    ensures Apply(s, e).state.workerInitialized == (s.workerInitialized || IsValidMessage(e))
    ensures CountReady(Apply(s, e).replies) == (if !s.workerInitialized && IsValidMessage(e) then 1 else 0)
  {
    var st := Apply(s, e);
    if IsValidMessage(e) && !s.workerInitialized {
      assert st.replies == [WORKER_READY] + st.replies[1..];
      CountReadyAppend([WORKER_READY], st.replies[1..]);
      assert forall r :: r in st.replies[1..] ==> r != WORKER_READY;
      CountReadyNone(st.replies[1..]);
    } else {
      CountReadyNone(st.replies);
    }
  }

  /** `workerReady` is posted exactly once over any run that contains a valid
      message, and never otherwise; once posted it is never posted again. */
  lemma {:induction false} WorkerReadyAtMostOnce(s: WorkerState, es: seq<Event>)
    ensures s.workerInitialized ==> CountReady(Run(s, es).replies) == 0
    ensures !s.workerInitialized ==>
      CountReady(Run(s, es).replies) == (if exists i :: 0 <= i < |es| && IsValidMessage(es[i]) then 1 else 0)
    decreases |es|
  {
    if |es| > 0 {
      var first := Apply(s, es[0]);
      StepReadyCount(s, es[0]);
      WorkerReadyAtMostOnce(first.state, es[1..]);
      CountReadyAppend(first.replies, Run(first.state, es[1..]).replies);
      if !s.workerInitialized && !IsValidMessage(es[0]) {
        if exists i :: 0 <= i < |es| && IsValidMessage(es[i]) {
          var i :| 0 <= i < |es| && IsValidMessage(es[i]);
          assert es[1..][i - 1] == es[i];
        }
        if exists i :: 0 <= i < |es[1..]| && IsValidMessage(es[1..][i]) {
          var i :| 0 <= i < |es[1..]| && IsValidMessage(es[1..][i]);
          assert es[i + 1] == es[1..][i];
        }
      }
    }
  }

  /** A failed asynchronous init still leaves the kernel stored, so the next
      `init` is answered with success at once. */
  lemma FailedInitKeepsKernel(s: WorkerState, wasm: seq<byte>, id1: Option<int>, id2: Option<int>,
                              failure: Thrown, call: KernelCall)
    requires s.kernel.None?
    ensures
      var a := OnMessage(s, Some(Incoming(Some("init"), InitData(wasm), id1)), call);
      var b := InitSettled(a.state, id1, Some(failure));
      var c := OnMessage(b.state, Some(Incoming(Some("init"), NoData, id2)), call);
      && a.state.kernel == Some(wasm)
      && b.state.kernel == Some(wasm)
      && c.replies == [Reply("init", Some(true), None, NoData, id2)]
  {
  }
}
