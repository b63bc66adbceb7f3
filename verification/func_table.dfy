/** The caller side of the blocking round-trip that the guest-facing function
    table uses: reset the notify cell, post the request with a fresh id, wait on
    the cell with a 5000 ms timeout, then read the response buffer up to its first
    NUL byte and decode it as JSON.

    The wait's result and the response buffer's contents at read time come from
    the other thread, and `TextDecoder` + `JSON.parse` are foreign: all three are
    inputs. What remains is a small deterministic state machine. */
module FuncTable {
  import opened Common
  import opened Messages

  /** The module-level state: whether `FuncTable.init` has installed the shared
      buffers, and the request counter. */
  datatype Channel = Channel(buffersReady: bool, messageId: nat)

  const INITIAL_CHANNEL: Channel := Channel(false, 0)

  /** `Atomics.wait`'s three possible results. */
  datatype WaitResult = Ok | NotEqual | TimedOut

  /** The posted request `{ type, data, id }`. */
  datatype Request = Request(kind: string, data: Payload, id: nat)

  /** What the JSON decoder makes of the response bytes: a parse failure, or an
      object with a truthiness of `success`, an optional `error` and `data`. */
  datatype Decoded = Malformed(message: string) | Response(success: bool, error: Option<string>, data: Payload)

  /** The observable steps of one call, in order. */
  datatype Effect =
    | StoreNotify(value: int)                      // Atomics.store(cell, 0, value)
    | Post(request: Request)                       // self.postMessage(request)
    | Wait(expected: int, timeoutMs: nat)          // Atomics.wait(cell, 0, expected, timeout)
    | ReadResponse(bytes: seq<byte>)               // the bytes handed to the decoder

  datatype Outcome = Returned(data: Payload) | Threw(message: string)

  datatype Call = Call(channel: Channel, effects: seq<Effect>, outcome: Outcome)

  const WAIT_TIMEOUT_MS: nat := 5000
  const NOT_INITIALIZED: string := "[WeiruiKernel/FuncTable] Shared buffers not initialized, can't make sync request."

  function TimeoutMessage(kind: string): string {
    "[WeiruiKernel/FuncTable] Request '" + kind + "' timed out."
  }

  function UnknownErrorMessage(kind: string): string {
    "[WeiruiKernel/FuncTable] Unknown error during '" + kind + "' request."
  }

  /** `FuncTable.init`: installs the shared buffers; the counter is untouched. */
  function Init(ch: Channel): (ch': Channel)
    ensures ch'.buffersReady && ch'.messageId == ch.messageId
  {
    ch.(buffersReady := true)
  }

  /** Before `init` every request throws without posting; after it, the next
      request is posted, under the id the counter held before `init`. */
  lemma InitEnablesRequests(ch: Channel, kind: string, data: Payload, wait: WaitResult,
                            buffer: seq<byte>, decode: seq<byte> -> Decoded)
    requires !ch.buffersReady
    ensures SyncRequest(ch, kind, data, wait, buffer, decode).effects == []
    ensures Post(Request(kind, data, ch.messageId)) in SyncRequest(Init(ch), kind, data, wait, buffer, decode).effects
  {
    var c := SyncRequest(Init(ch), kind, data, wait, buffer, decode);
    assert c.effects[1] == Post(Request(kind, data, ch.messageId));
  }

  /** The valid response: the buffer up to (not including) its first zero byte,
      or the whole buffer when it has none. */
  function ValidResponse(buf: seq<byte>): (r: seq<byte>)
    ensures NoNul(r)
    ensures |r| <= |buf| && r == buf[..|r|]
    ensures |r| == |buf| || buf[|r|] == 0
  {
    CStringAt(buf, 0)
  }

  /** `syncRequest(type, data)`. */
  function SyncRequest(ch: Channel, kind: string, data: Payload, wait: WaitResult,
                       buffer: seq<byte>, decode: seq<byte> -> Decoded): (c: Call)
    // uninitialised: throws before posting anything or taking an id
    ensures !ch.buffersReady ==> c == Call(ch, [], Threw(NOT_INITIALIZED))
    // initialised: reset, post with the current id, wait 5000 ms on the value 0
    ensures ch.buffersReady ==>
      && |c.effects| >= 3
      && c.effects[0] == StoreNotify(0)
      && c.effects[1] == Post(Request(kind, data, ch.messageId))
      && c.effects[2] == Wait(0, 5000)
      && c.channel == ch.(messageId := ch.messageId + 1)
    // a timeout throws an error naming the request and never reads the buffer
    ensures ch.buffersReady && wait == TimedOut ==>
      |c.effects| == 3 && c.outcome == Threw(TimeoutMessage(kind))
    // `ok` and `not-equal` both go on to read the NUL-terminated response
    ensures ch.buffersReady && wait != TimedOut ==>
      && |c.effects| == 4
      && c.effects[3] == ReadResponse(ValidResponse(buffer))
      && c.outcome == ResponseOutcome(kind, decode(ValidResponse(buffer)))
  {
    if !ch.buffersReady then Call(ch, [], Threw(NOT_INITIALIZED))
    else
      var request := Request(kind, data, ch.messageId);
      var ch' := ch.(messageId := ch.messageId + 1);
      var sent := [StoreNotify(0), Post(request), Wait(0, WAIT_TIMEOUT_MS)];
      if wait == TimedOut then Call(ch', sent, Threw(TimeoutMessage(kind)))
      else
        var valid := ValidResponse(buffer);
        Call(ch', sent + [ReadResponse(valid)], ResponseOutcome(kind, decode(valid)))
  }

  /** The decoded response turned into the call's outcome. */
  function ResponseOutcome(kind: string, d: Decoded): (o: Outcome)
    ensures d.Malformed? ==> o == Threw(d.message)
    ensures d.Response? && d.success ==> o == Returned(d.data)
    ensures d.Response? && !d.success && Truthy(d.error) ==> o == Threw(d.error.value)
    ensures d.Response? && !d.success && !Truthy(d.error) ==> o == Threw(UnknownErrorMessage(kind))
  {
    match d
    case Malformed(m) => Threw(m)
    case Response(success, error, payload) =>
      if !success then Threw(OrElse(error, UnknownErrorMessage(kind)))
      else Returned(payload)
  }

  /** `FuncTable.getJointPos`: a request of type `getJointPos` with no data,
      whose outcome is the response's data or the request's throw. */
  function GetJointPos(ch: Channel, wait: WaitResult, buffer: seq<byte>, decode: seq<byte> -> Decoded): (c: Call)
    ensures !ch.buffersReady ==> c.effects == [] && c.outcome == Threw(NOT_INITIALIZED)
    ensures ch.buffersReady ==>
      && |c.effects| >= 2 && c.effects[1] == Post(Request("getJointPos", NoData, ch.messageId))
      && c.channel.messageId == ch.messageId + 1
    ensures ch.buffersReady && wait == TimedOut ==> c.outcome == Threw(TimeoutMessage("getJointPos"))
    ensures ch.buffersReady && wait != TimedOut ==>
      c.outcome == ResponseOutcome("getJointPos", decode(ValidResponse(buffer)))
  {
    SyncRequest(ch, "getJointPos", NoData, wait, buffer, decode)
  }

  /** The response channel read back: when the other side writes a NUL-free
      encoding followed by a zero byte, whatever lies after that zero, a
      `getJointPos` that is not timed out decodes exactly that encoding, so it
      returns the positions a successful response carries and throws the
      error a failed one names. */
  lemma GetJointPosReadsReply(ch: Channel, wait: WaitResult, reply: seq<byte>, rest: seq<byte>,
                              decode: seq<byte> -> Decoded)
    requires ch.buffersReady && wait != TimedOut && NoNul(reply)
    ensures var c := GetJointPos(ch, wait, reply + [0] + rest, decode);
      && c.effects[3] == ReadResponse(reply)
      && (decode(reply).Response? && decode(reply).success ==> c.outcome == Returned(decode(reply).data))
      && (decode(reply).Response? && !decode(reply).success ==> c.outcome.Threw?)
  {
    var buffer := reply + [0] + rest;
    assert buffer[..|reply|] == reply;
    assert buffer[|reply|] == 0;
    CStringUnique(buffer, 0, |reply|);
  }

  /** `FuncTable.setActuatorControls`: the indices and values travel unchanged as
      `{ actuatorIndices, values }`; a successful response's data is discarded. */
  function SetActuatorControls(ch: Channel, actuatorIndices: seq<int>, values: seq<real>, wait: WaitResult,
                               buffer: seq<byte>, decode: seq<byte> -> Decoded): (c: Call)
    ensures ch.buffersReady ==>
      |c.effects| >= 2 && c.effects[1] == Post(Request("setActuatorControls", SetActuatorControlsData(actuatorIndices, values), ch.messageId))
    ensures c.outcome.Returned? ==> c.outcome.data == NoData
    ensures c.outcome.Threw? <==> SyncRequest(ch, "setActuatorControls", SetActuatorControlsData(actuatorIndices, values), wait, buffer, decode).outcome.Threw?
  {
    var c := SyncRequest(ch, "setActuatorControls", SetActuatorControlsData(actuatorIndices, values), wait, buffer, decode);
    if c.outcome.Returned? then c.(outcome := Returned(NoData)) else c
  }

  /** One call of a sequence: its type, data, and what the other side did. */
  datatype Exchange = Exchange(kind: string, data: Payload, wait: WaitResult, buffer: seq<byte>)

  /** Issues the calls in order and collects the ids of the posted requests. */
  function PostedIds(ch: Channel, xs: seq<Exchange>, decode: seq<byte> -> Decoded): seq<nat>
    decreases |xs|
  {
    if |xs| == 0 then []
    else
      var c := SyncRequest(ch, xs[0].kind, xs[0].data, xs[0].wait, xs[0].buffer, decode);
      var head := if ch.buffersReady then [ch.messageId] else [];
      head + PostedIds(c.channel, xs[1..], decode)
  }

  /** Across any sequence of calls on an initialised channel, the posted ids are
      consecutive from the counter's value, so they strictly increase and never
      repeat. */
  lemma {:induction false} PostedIdsIncrease(ch: Channel, xs: seq<Exchange>, decode: seq<byte> -> Decoded)
    requires ch.buffersReady
    ensures |PostedIds(ch, xs, decode)| == |xs|
    ensures forall i :: 0 <= i < |xs| ==> PostedIds(ch, xs, decode)[i] == ch.messageId + i
    ensures forall i, j :: 0 <= i < j < |xs| ==> PostedIds(ch, xs, decode)[i] < PostedIds(ch, xs, decode)[j]
    decreases |xs|
  {
    if |xs| > 0 {
      var c := SyncRequest(ch, xs[0].kind, xs[0].data, xs[0].wait, xs[0].buffer, decode);
      PostedIdsIncrease(c.channel, xs[1..], decode);
      var ids := PostedIds(ch, xs, decode);
      assert ids == [ch.messageId] + PostedIds(c.channel, xs[1..], decode);
      forall i | 0 <= i < |xs|
        ensures ids[i] == ch.messageId + i
      {
        if i > 0 {
          assert ids[i] == PostedIds(c.channel, xs[1..], decode)[i - 1];
        }
      }
    }
  }
}
