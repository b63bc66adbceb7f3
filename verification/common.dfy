/** Small shared vocabulary: optional values, bytes, the 32-bit signed integers a
    WebAssembly import receives, and the NUL-terminated byte strings that both the
    blocking response channel and MuJoCo's name table use. */
module Common {

  datatype Option<+T> = None | Some(value: T)

  /** An octet of a `Uint8Array`. */
  type byte = x: int | 0 <= x < 0x100

  /** A WebAssembly `i32` as JavaScript sees it: the signed interpretation. */
  type i32 = x: int | -0x8000_0000 <= x < 0x8000_0000

  /** True if `s` holds no zero byte. */
  predicate NoNul(s: seq<byte>) {
    forall i :: 0 <= i < |s| ==> s[i] != 0
  }

  /** The end of the C string that starts at `start`: the index of the first zero
      byte at or after `start`, or `|buf|` when there is none. A start beyond the
      buffer yields the start itself, so the string is empty. */
  function CStringEnd(buf: seq<byte>, start: nat): (e: nat)
    ensures start <= e
    ensures start <= |buf| ==> e <= |buf|
    ensures start <= |buf| ==> NoNul(buf[start..e])
    ensures start <= |buf| ==> e == |buf| || buf[e] == 0
    ensures start > |buf| ==> e == start
    decreases |buf| - start
  {
    if start >= |buf| || buf[start] == 0 then start
    else CStringEnd(buf, start + 1)
  }

  /** The bytes of the C string starting at `start` (empty when `start` is past
      the end of the buffer). */
  function CStringAt(buf: seq<byte>, start: nat): (s: seq<byte>)
    ensures NoNul(s)
    ensures start <= |buf| ==> s == buf[start..CStringEnd(buf, start)]
    ensures start > |buf| ==> s == []
  {
    if start <= |buf| then buf[start..CStringEnd(buf, start)] else []
  }

  /** Any NUL-free slice of `buf` that stops at a zero byte or at the end of the
      buffer is the C string: the terminator is unique. */
  lemma {:induction false} CStringUnique(buf: seq<byte>, start: nat, e: nat)
    requires start <= e <= |buf|
    requires NoNul(buf[start..e])
    requires e == |buf| || buf[e] == 0
    ensures CStringEnd(buf, start) == e
    decreases e - start
  {
    if start < e {
      assert buf[start..e][0] == buf[start];
      assert buf[start + 1..e] == buf[start..e][1..];
      CStringUnique(buf, start + 1, e);
    }
  }

  /** The scan loop the source writes out by hand: advance while in bounds and
      not on a zero byte. */
  method ScanCString(buf: seq<byte>, start: nat) returns (e: nat)
    ensures e == CStringEnd(buf, start)
    ensures start <= |buf| ==> buf[start..e] == CStringAt(buf, start)
  {
    e := start;
    while e < |buf| && buf[e] != 0
      invariant start <= e
      invariant start <= |buf| ==> e <= |buf|
      invariant start <= |buf| ==> NoNul(buf[start..e])
      invariant start > |buf| ==> e == start
      decreases |buf| - e
    {
      assert buf[start..e + 1] == buf[start..e] + [buf[e]];
      e := e + 1;
    }
    if start <= |buf| {
      CStringUnique(buf, start, e);
    }
  }
}
