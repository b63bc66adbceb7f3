/** The console store: it keeps only the latest message written, tagged with a
    counter that starts at 0 and is incremented before each write. */
module ConsoleStore {
  import opened Common

  datatype Message = Message(content: string, id: nat)

  /** `lastMessage` and the closure's `messageId`. */
  datatype Console = Console(lastMessage: Option<Message>, messageId: nat)

  const INITIAL: Console := Console(None, 0)

  /** `write`: the message replaces the previous one and takes the next id. */
  function Write(c: Console, content: string): (r: Console)
    ensures r.messageId == c.messageId + 1
    ensures r.lastMessage.Some? && r.lastMessage.value.content == content
    ensures r.lastMessage.value.id == r.messageId
  {
    var id := c.messageId + 1;
    Console(Some(Message(content, id)), id)
  }

  datatype Written = Written(console: Console, shown: seq<Message>)

  /** A series of writes, with the message each of them leaves in `lastMessage`. */
  function WriteAll(c: Console, contents: seq<string>): Written
    decreases |contents|
  {
    if |contents| == 0 then Written(c, [])
    else
      var next := Write(c, contents[0]);
      var rest := WriteAll(next, contents[1..]);
      Written(rest.console, [next.lastMessage.value] + rest.shown)
  }

  /** The `k`-th write gets the id after the `k` before it, so ids increase by
      one, and the store ends holding only the last message. */
  lemma {:induction false} WriteAllIds(c: Console, contents: seq<string>)
    ensures var w := WriteAll(c, contents);
      && |w.shown| == |contents|
      && (forall k :: 0 <= k < |contents| ==> w.shown[k] == Message(contents[k], c.messageId + k + 1))
      && w.console.messageId == c.messageId + |contents|
      && (|contents| == 0 ==> w.console == c)
      && (|contents| > 0 ==> w.console.lastMessage == Some(w.shown[|contents| - 1]))
    decreases |contents|
  {
    if |contents| > 0 {
      var next := Write(c, contents[0]);
      WriteAllIds(next, contents[1..]);
      var w := WriteAll(c, contents);
      var rest := WriteAll(next, contents[1..]);
      forall k | 0 < k < |contents|
        ensures w.shown[k] == Message(contents[k], c.messageId + k + 1)
      {
        assert w.shown[k] == rest.shown[k - 1];
        assert contents[k] == contents[1..][k - 1];
      }
    }
  }

  /** From a fresh store the first write gets id 1, and ids strictly increase. */
  lemma FreshIdsIncrease(contents: seq<string>, j: nat, k: nat)
    requires j < k < |contents|
    ensures |WriteAll(INITIAL, contents).shown| == |contents|
    ensures WriteAll(INITIAL, contents).shown[0].id == 1
    ensures WriteAll(INITIAL, contents).shown[j].id < WriteAll(INITIAL, contents).shown[k].id
  {
    WriteAllIds(INITIAL, contents);
  }
}
