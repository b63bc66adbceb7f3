/** The guest-call bridge of `WeiruiKernel`: a guest import hands the host a
    `(ptr, len)` pair, the host bounds-checks it against guest linear memory,
    copies the request out, runs a handler, wraps every outcome into a
    `HostResult` and writes the encoded result back through the guest's own
    allocator, returning the allocator's pointer.

    The handler, the protobuf encoder of `HostResult` and the guest allocator
    `wasm_new_bytes` are foreign code and enter as function parameters. */
module HostFunc {
  import opened Common
  import opened KernelErrors

  /** The generic result wrapper: either an error code and message, or data. */
  datatype HostResult = HostResult(errorCode: Option<int>, errorMessage: Option<string>, data: Option<seq<byte>>)

  /** Exactly one of (error code and message) or data is populated. */
  predicate ExactlyOneOutcome(r: HostResult) {
    || (r.errorCode.Some? && r.errorMessage.Some? && r.data.None?)
    || (r.errorCode.None? && r.errorMessage.None? && r.data.Some?)
  }

  /** What a handler can do: return bytes, return a kernel error, or throw. */
  datatype HandlerOutcome = Bytes(bytes: seq<byte>) | ReturnsError(error: KernelError) | Throws(message: string)

  /** The loaded guest module, reduced to its linear memory. */
  datatype GuestInstance = GuestInstance(memory: seq<byte>)

  /** The kernel's view of its guest; `None` until the module is instantiated.
      The instance and its exports are set together, so one field stands for both. */
  datatype Kernel = Kernel(instance: Option<GuestInstance>)

  /** `wasm_new_bytes`: given the memory before the call and a length, the guest
      returns a pointer and its memory afterwards (it may grow it). */
  type Allocator = (seq<byte>, nat) -> (i32, seq<byte>)

  /** How a host import returns to the guest: a pointer and the guest memory it
      leaves behind, or a JavaScript exception that traps the guest call. */
  datatype WriteOutcome = Written(ptr: int, memory: seq<byte>) | Trapped(reason: string)

  /** One guest call: the result the host built, the request bytes the handler
      received (`None` when it was not called) and how the call returned. */
  datatype HostCall = HostCall(result: HostResult, request: Option<seq<byte>>, outcome: WriteOutcome)

  const NOT_LOADED_CODE: int := 500
  const NOT_LOADED_MESSAGE: string := "WASM module not loaded"

  /** The message text of a JavaScript `TypeError` or `RangeError`; its wording is
      engine-specific, so only the error kind is kept. */
  const TYPE_ERROR: string := "TypeError"
  const RANGE_ERROR: string := "RangeError"

  function ErrorResult(e: KernelError): HostResult {
    HostResult(Some(e.errorCode), Some(e.message), None)
  }

  /** Decimal rendering of an integer, as a template literal prints it. */
  function Decimal(n: int): (s: string)
    ensures |s| > 0
    decreases if n < 0 then 1 - n else n
  {
    if n < 0 then "-" + Decimal(-n)
    else if n < 10 then [DigitChar(n)]
    else Decimal(n / 10) + [DigitChar(n % 10)]
  }

  function DigitChar(d: int): char
    requires 0 <= d < 10
  {
    ['0', '1', '2', '3', '4', '5', '6', '7', '8', '9'][d]
  }

  function BoundsMessage(ptr: int, len: int, size: nat): string {
    "ptr=" + Decimal(ptr) + " len=" + Decimal(len) + " exceeds memory size " + Decimal(size)
  }

  /** `ArrayBuffer.prototype.slice` index normalisation: a negative index counts
      from the end, and the result is clamped to `[0, size]`. */
  function RelativeIndex(size: nat, rel: int): (k: nat)
    ensures k <= size
    ensures 0 <= rel <= size ==> k == rel
    ensures rel < 0 <= size + rel ==> k == size + rel
    ensures size + rel < 0 ==> k == 0
    ensures rel > size ==> k == size
  {
    if rel < 0 then (if size + rel < 0 then 0 else size + rel)
    else if rel > size then size
    else rel
  }

  /** `buffer.slice(start, end)` on a buffer holding `mem`. */
  function JsSlice(mem: seq<byte>, start: int, end: int): (s: seq<byte>)
    ensures 0 <= start <= end <= |mem| ==> s == mem[start..end]
    ensures |s| <= |mem|
    ensures RelativeIndex(|mem|, start) <= RelativeIndex(|mem|, end) ==>
      s == mem[RelativeIndex(|mem|, start)..RelativeIndex(|mem|, end)]
    ensures RelativeIndex(|mem|, end) <= RelativeIndex(|mem|, start) ==> s == []
  {
    var first := RelativeIndex(|mem|, start);
    var final := RelativeIndex(|mem|, end);
    if final <= first then [] else mem[first..final]
  }

  /** A negative start counts back from the end: `slice(-n)` with an end at
      or past the buffer's length is the last `n` bytes (`-0` is `0`, the
      whole buffer), and a start before the buffer is clamped to its
      beginning. */
  lemma JsSliceFromEnd(mem: seq<byte>, n: nat, end: int)
    requires end >= |mem|
    ensures 0 < n <= |mem| ==> JsSlice(mem, -(n as int), end) == mem[|mem| - n..]
    ensures n > |mem| ==> JsSlice(mem, -(n as int), end) == mem
  {
    assert mem[0..|mem|] == mem;
  }

  /** `WriteResp`: encode the result, allocate exactly that many bytes in the
      guest, and copy the encoding to the allocator's pointer. Without exports the
      property access throws a `TypeError`; a pointer whose extent leaves the
      guest buffer makes the `Uint8Array` constructor throw a `RangeError`. */
  function WriteResp(exports: Option<GuestInstance>, result: HostResult,
                     encode: HostResult -> seq<byte>, alloc: Allocator): (w: WriteOutcome)
    ensures exports.None? ==> w == Trapped(TYPE_ERROR)
    ensures exports.Some? ==>
      var (p, mem) := alloc(exports.value.memory, |encode(result)|);
      var n := |encode(result)|;
      if 0 <= p && p + n <= |mem| then
        && w.Written?
        && w.ptr == p
        && |w.memory| == |mem|
        && w.memory[p..p + n] == encode(result)
        && (forall i :: 0 <= i < |mem| && !(p <= i < p + n) ==> w.memory[i] == mem[i])
      else w == Trapped(RANGE_ERROR)
  {
    match exports
    case None => Trapped(TYPE_ERROR)
    case Some(inst) =>
      var data := encode(result);
      var (p, mem) := alloc(inst.memory, |data|);
      if 0 <= p && p + |data| <= |mem| then
        Written(p, mem[..p] + data + mem[p + |data|..])
      else Trapped(RANGE_ERROR)
  }

  /** The result built from a handler's outcome: its bytes as data, its kernel
      error verbatim, or a thrown message wrapped as an internal error. */
  function OutcomeResult(o: HandlerOutcome): (r: HostResult)
    ensures ExactlyOneOutcome(r)
    ensures o.Bytes? ==> r.data == Some(o.bytes)
    ensures o.ReturnsError? ==> r.errorCode == Some(o.error.errorCode) && r.errorMessage == Some(o.error.message)
    ensures o.Throws? ==> r.errorCode == Some(INTERNAL_ERROR_CODE)
    ensures o.Throws? ==> CauseOf(KernelError("InternalError", r.errorCode.value, r.errorMessage.value)) == Some(o.message)
  {
    match o
    case Bytes(b) => HostResult(None, None, Some(b))
    case ReturnsError(e) => ErrorResult(e)
    case Throws(m) => ErrorResult(InternalError(m))
  }

  /** `RunHostFunc` as written. */
  function RunHostFunc(k: Kernel, ptr: i32, len: i32, handler: seq<byte> -> HandlerOutcome,
                       encode: HostResult -> seq<byte>, alloc: Allocator): (c: HostCall)
    ensures ExactlyOneOutcome(c.result)
    // not loaded: the fixed error, the handler is not called, and writing it traps
    ensures k.instance.None? ==>
      c == HostCall(HostResult(Some(500), Some("WASM module not loaded"), None), None, Trapped(TYPE_ERROR))
    // an extent past the end of memory: MemoryOutOfBounds, handler not called
    ensures k.instance.Some? && ptr + len > |k.instance.value.memory| ==>
      && c.request.None?
      && c.result.errorCode == Some(10002)
      && ClassOf(c.result.errorCode.value) == Some(MemoryOutOfBounds)
      && CauseOf(KernelError("MemoryOutOfBounds", 10002, c.result.errorMessage.value)).Some?
    // an extent inside memory, end included: the handler sees exactly those bytes
    ensures k.instance.Some? && 0 <= ptr && 0 <= len && ptr + len <= |k.instance.value.memory| ==>
      c.request == Some(k.instance.value.memory[ptr..ptr + len])
    ensures c.request.Some? ==> c.result == OutcomeResult(handler(c.request.value))
    ensures k.instance.Some? ==> c.outcome == WriteResp(k.instance, c.result, encode, alloc)
  {
    match k.instance
    case None =>
      var errRes := HostResult(Some(NOT_LOADED_CODE), Some(NOT_LOADED_MESSAGE), None);
      HostCall(errRes, None, WriteResp(None, errRes, encode, alloc))
    case Some(inst) =>
      var size := |inst.memory|;
      if ptr + len > size then
        var err := MemoryOutOfBoundsError(BoundsMessage(ptr, len, size));
        var res := ErrorResult(err);
        HostCall(res, None, WriteResp(k.instance, res, encode, alloc))
      else
        var req := JsSlice(inst.memory, ptr, ptr + len);
        var res := OutcomeResult(handler(req));
        HostCall(res, Some(req), WriteResp(k.instance, res, encode, alloc))
  }

  /** When the request is rejected the handler is never consulted: any two
      handlers give the same call. */
  lemma RejectedCallIgnoresHandler(k: Kernel, ptr: i32, len: i32, h1: seq<byte> -> HandlerOutcome,
                                   h2: seq<byte> -> HandlerOutcome, encode: HostResult -> seq<byte>, alloc: Allocator)
    requires k.instance.None? || ptr + len > |k.instance.value.memory|
    ensures RunHostFunc(k, ptr, len, h1, encode, alloc) == RunHostFunc(k, ptr, len, h2, encode, alloc)
  {
  }

  /** A negative guest pointer (a `u32` above 2^31 read as `i32`) passes the
      bounds check, and `slice` then counts from the end of memory: the handler of
      a 1-byte request at pointer -1 receives no bytes at all. */
  lemma NegativePointerBypassesBoundsCheck()
    ensures
      var k := Kernel(Some(GuestInstance([7, 7, 7, 7])));
      var c := RunHostFunc(k, -1, 1, (b: seq<byte>) => Bytes(b), (r: HostResult) => [], (m: seq<byte>, n: nat) => (0, m));
      c.request == Some([]) && c.result.errorCode.None?
  {
  }

  /** A negative length is accepted as well and yields an empty request. */
  lemma NegativeLengthBypassesBoundsCheck()
    ensures
      var k := Kernel(Some(GuestInstance([7, 7, 7, 7])));
      var c := RunHostFunc(k, 2, -1, (b: seq<byte>) => Bytes(b), (r: HostResult) => [], (m: seq<byte>, n: nat) => (0, m));
      c.request == Some([]) && c.result.errorCode.None?
  {
  }

  /** The bounds check as evidently intended: negative pointers and lengths are
      out of bounds too, so an accepted request is always exactly `len` bytes. */
  predicate InBounds(mem: seq<byte>, ptr: int, len: int) {
    0 <= ptr && 0 <= len && ptr + len <= |mem|
  }

  /** `RunHostFunc` with the corrected bounds check; every other step as written. */
  function RunHostFuncChecked(k: Kernel, ptr: i32, len: i32, handler: seq<byte> -> HandlerOutcome,
                              encode: HostResult -> seq<byte>, alloc: Allocator): (c: HostCall)
    ensures ExactlyOneOutcome(c.result)
    ensures c.request.Some? <==> k.instance.Some? && InBounds(k.instance.value.memory, ptr, len)
    ensures c.request.Some? ==>
      && |c.request.value| == len
      && c.request.value == k.instance.value.memory[ptr..ptr + len]
      && c.result == OutcomeResult(handler(c.request.value))
    ensures k.instance.Some? && !InBounds(k.instance.value.memory, ptr, len) ==>
      c.result.errorCode == Some(MEMORY_OUT_OF_BOUNDS_CODE)
    ensures k.instance.Some? && InBounds(k.instance.value.memory, ptr, len) ==>
      c == RunHostFunc(k, ptr, len, handler, encode, alloc)
  {
    match k.instance
    case None => RunHostFunc(k, ptr, len, handler, encode, alloc)
    case Some(inst) =>
      if !InBounds(inst.memory, ptr, len) then
        var res := ErrorResult(MemoryOutOfBoundsError(BoundsMessage(ptr, len, |inst.memory|)));
        HostCall(res, None, WriteResp(k.instance, res, encode, alloc))
      else RunHostFunc(k, ptr, len, handler, encode, alloc)
  }
}
