/** The payload shapes that travel between the main thread, the kernel worker
    and the guest-facing function table. JavaScript numbers become `int` for
    indices and `real` for control values. */
module Messages {
  import opened Common

  datatype Payload =
    | NoData                                                        // `data` absent
    | NullData                                                      // `data: null`
    | InitData(robotAppWasm: seq<byte>)                              // `{ robotAppWasm }`
    | SetActuatorControlsData(actuatorIndices: seq<int>, values: seq<real>)
    | JointPositions(positions: seq<real>)
    | OtherData                                                     // any other value

  /** `undefined` or `null`: reading a property of either, or destructuring
      either, throws a `TypeError`. */
  predicate Nullish(d: Payload) {
    d == NoData || d == NullData
  }

  /** JavaScript truthiness of an optional string: absent and `""` are falsy. */
  predicate Truthy(s: Option<string>) {
    s.Some? && s.value != ""
  }

  /** `s || fallback` on an optional string. */
  function OrElse(s: Option<string>, fallback: string): (r: string)
    ensures Truthy(s) ==> r == s.value
    ensures !Truthy(s) ==> r == fallback
  {
    if Truthy(s) then s.value else fallback
  }
}
