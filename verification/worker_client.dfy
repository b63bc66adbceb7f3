/** The main thread's side of the worker protocol: a monotone id counter and a
    table of pending requests that replies, pongs, ping timeouts and failed posts
    settle. Promises are modelled by the settlements they receive; the structured
    clone and the timers are inputs (a failed post, a timeout event). */
module WorkerClient {
  import opened Common
  import opened Messages

  /** What a pending id is waiting for: a ping (with a timeout) or a request. */
  datatype Entry = PingEntry | RequestEntry

  /** `messageId` and `pendingRequests`. */
  datatype Client = Client(messageId: nat, pending: map<int, Entry>)

  const INITIAL_CLIENT: Client := Client(0, map[])

  /** Every pending id was taken from the counter. */
  predicate Valid(c: Client) {
    forall id :: id in c.pending ==> 0 <= id < c.messageId
  }

  /** A message posted to the worker `{ type, data, id }`. */
  datatype Posted = Posted(kind: string, data: Payload, id: nat)

  /** How a promise was settled. */
  datatype Settlement = Resolved(id: int, value: Payload) | Rejected(id: int, reason: string)

  /** A message from the worker: `{ type, success, data, error, id }`. */
  datatype Reply = Reply(kind: Option<string>, success: bool, data: Payload, error: Option<string>, id: Option<int>)

  datatype Step = Step(client: Client, posted: seq<Posted>, settled: seq<Settlement>)

  const PING_TIMEOUT: string := "Ping timeout"
  const UNKNOWN_ERROR: string := "Unknown error"

  /** Takes a fresh id, records it as pending, and posts; if posting throws, the
      entry is removed again and the promise rejects with the thrown error. */
  function Register(c: Client, entry: Entry, kind: string, data: Payload, postError: Option<string>): (st: Step)
    ensures st.client.messageId == c.messageId + 1
    ensures Valid(c) ==> Valid(st.client) && c.messageId !in c.pending
    ensures postError.None? ==>
      && st.client.pending == c.pending[c.messageId := entry]
      && st.posted == [Posted(kind, data, c.messageId)]
      && st.settled == []
    ensures postError.Some? && Valid(c) ==>
      && st.client.pending == c.pending
      && st.posted == []
      && st.settled == [Rejected(c.messageId, postError.value)]
  {
    var id := c.messageId;
    var added := c.pending[id := entry];
    match postError
    case None => Step(Client(id + 1, added), [Posted(kind, data, id)], [])
    case Some(e) => Step(Client(id + 1, added - {id}), [], [Rejected(id, e)])
  }

  /** `pingWorker`: a ping `{ type: 'ping', id }` with a fresh id. */
  function Ping(c: Client, postError: Option<string>): (st: Step)
    ensures st.client.messageId == c.messageId + 1
    ensures postError.None? ==> st.posted == [Posted("ping", NoData, c.messageId)]
    ensures postError.None? ==> st.client.pending == c.pending[c.messageId := PingEntry]
  {
    Register(c, PingEntry, "ping", NoData, postError)
  }

  /** `sendMessage(type, data)` once the worker is ready. */
  function SendMessage(c: Client, kind: string, data: Payload, postError: Option<string>): (st: Step)
    ensures st.client.messageId == c.messageId + 1
    ensures postError.None? ==> st.posted == [Posted(kind, data, c.messageId)]
    ensures postError.None? ==> st.client.pending == c.pending[c.messageId := RequestEntry]
  {
    Register(c, RequestEntry, kind, data, postError)
  }

  /** A ping's one-second timer: if the ping is still pending it is removed and
      rejected; a settled ping has had its timer cleared. */
  function PingTimeout(c: Client, id: int): (st: Step)
    ensures st.posted == [] && st.client.messageId == c.messageId
    ensures id in c.pending && c.pending[id] == PingEntry ==>
      st.client.pending == c.pending - {id} && st.settled == [Rejected(id, "Ping timeout")]
    ensures !(id in c.pending && c.pending[id] == PingEntry) ==> st == Step(c, [], [])
  {
    if id in c.pending && c.pending[id] == PingEntry then
      Step(c.(pending := c.pending - {id}), [], [Rejected(id, PING_TIMEOUT)])
    else Step(c, [], [])
  }

  /** `handleMessage`. A ping's resolver ignores any value it is given. */
  function HandleMessage(c: Client, r: Reply): (st: Step)
    ensures st.posted == [] && st.client.messageId == c.messageId
    // no type, or the readiness notice: nothing happens
    ensures !Truthy(r.kind) || r.kind == Some("workerReady") ==> st == Step(c, [], [])
    // a pong settles its pending id, or is ignored
    ensures r.kind == Some("pong") && r.id.Some? ==>
      if r.id.value in c.pending then
        st.client.pending == c.pending - {r.id.value} && st.settled == [Resolved(r.id.value, NoData)]
      else st == Step(c, [], [])
    // any other typed reply with a pending id settles exactly that entry
    ensures Truthy(r.kind) && r.kind != Some("workerReady") && !(r.kind == Some("pong") && r.id.Some?)
            && r.id.Some? && r.id.value in c.pending ==>
      && st.client.pending == c.pending - {r.id.value}
      && (r.success ==> st.settled == [Resolved(r.id.value, if c.pending[r.id.value] == PingEntry then NoData else r.data)])
      && (!r.success ==> st.settled == [Rejected(r.id.value, if Truthy(r.error) then r.error.value else "Unknown error")])
    // a reply without a pending id is a notification
    ensures r.id.None? || r.id.value !in c.pending ==> st == Step(c, [], [])
  {
    if !Truthy(r.kind) then Step(c, [], [])
    else if r.kind == Some("workerReady") then Step(c, [], [])
    else if r.kind == Some("pong") && r.id.Some? then
      var id := r.id.value;
      if id in c.pending then Step(c.(pending := c.pending - {id}), [], [Resolved(id, NoData)])
      else Step(c, [], [])
    else if r.id.Some? && r.id.value in c.pending then
      var id := r.id.value;
      var entry := c.pending[id];
      var c' := c.(pending := c.pending - {id});
      if r.success then Step(c', [], [Resolved(id, if entry == PingEntry then NoData else r.data)])
      else Step(c', [], [Rejected(id, OrElse(r.error, UNKNOWN_ERROR))])
    else Step(c, [], [])
  }

  /** Everything the client reacts to. */
  datatype Event =
    | DoPing(postError: Option<string>)
    | DoSend(kind: string, data: Payload, postError: Option<string>)
    | Receive(reply: Reply)
    | TimerFired(id: int)

  function Apply(c: Client, e: Event): Step {
    match e
    case DoPing(err) => Ping(c, err)
    case DoSend(kind, data, err) => SendMessage(c, kind, data, err)
    case Receive(r) => HandleMessage(c, r)
    case TimerFired(id) => PingTimeout(c, id)
  }

  function Run(c: Client, es: seq<Event>): Step
    decreases |es|
  {
    if |es| == 0 then Step(c, [], [])
    else
      var first := Apply(c, es[0]);
      var rest := Run(first.client, es[1..]);
      Step(rest.client, first.posted + rest.posted, first.settled + rest.settled)
  }

  /** One event settles at most one id, one that was pending or that it just
      took, and that id is no longer pending afterwards. */
  lemma StepSettlesOnce(c: Client, e: Event)
    requires Valid(c)
    ensures var st := Apply(c, e);
      && Valid(st.client)
      && c.messageId <= st.client.messageId
      && |st.settled| <= 1
      && (forall id :: id in st.client.pending ==> id in c.pending || c.messageId <= id)
      && (forall s :: s in st.settled ==>
            (s.id in c.pending || c.messageId <= s.id) && s.id !in st.client.pending && s.id < st.client.messageId)
  {
  }

  /** Over any run from a valid table, no id is settled twice, and every settled
      id was pending at the start or was taken during the run. */
  lemma {:induction false} SettledAtMostOnce(c: Client, es: seq<Event>)
    requires Valid(c)
    ensures var st := Run(c, es);
      && Valid(st.client)
      && c.messageId <= st.client.messageId
      && (forall id :: id in st.client.pending ==> id in c.pending || c.messageId <= id)
      && (forall i :: 0 <= i < |st.settled| ==> st.settled[i].id in c.pending || c.messageId <= st.settled[i].id)
      && (forall i, j :: 0 <= i < j < |st.settled| ==> st.settled[i].id != st.settled[j].id)
    decreases |es|
  {
    if |es| > 0 {
      var first := Apply(c, es[0]);
      StepSettlesOnce(c, es[0]);
      SettledAtMostOnce(first.client, es[1..]);
      var rest := Run(first.client, es[1..]);
      SettlementsJoin(c, first.client, first.settled, rest.settled);
    }
  }

  /** The settlements of one step followed by those of the rest of a run: the
      step's id is no longer pending and below the counter, and the rest only
      settles ids pending after the step or taken later, so the two never
      share an id. */
  lemma SettlementsJoin(c: Client, mid: Client, first: seq<Settlement>, rest: seq<Settlement>)
    requires c.messageId <= mid.messageId
    requires forall id :: id in mid.pending ==> id in c.pending || c.messageId <= id
    requires forall s :: s in first ==> (s.id in c.pending || c.messageId <= s.id) && s.id !in mid.pending && s.id < mid.messageId
    requires forall i, j :: 0 <= i < j < |first| ==> first[i].id != first[j].id
    requires forall i :: 0 <= i < |rest| ==> rest[i].id in mid.pending || mid.messageId <= rest[i].id
    requires forall i, j :: 0 <= i < j < |rest| ==> rest[i].id != rest[j].id
    ensures var all := first + rest;
      && (forall i :: 0 <= i < |all| ==> all[i].id in c.pending || c.messageId <= all[i].id)
      && (forall i, j :: 0 <= i < j < |all| ==> all[i].id != all[j].id)
  {
    var all := first + rest;
    forall i | 0 <= i < |all|
      ensures all[i].id in c.pending || c.messageId <= all[i].id
    {
      if i < |first| {
        assert all[i] in first;
      } else {
        assert all[i] == rest[i - |first|];
      }
    }
    forall i, j | 0 <= i < j < |all|
      ensures all[i].id != all[j].id
    {
      if j < |first| {
        assert all[i] == first[i] && all[j] == first[j];
      } else if i < |first| {
        assert all[i] in first;
        assert all[j] == rest[j - |first|];
      } else {
        assert all[i] == rest[i - |first|];
        assert all[j] == rest[j - |first|];
      }
    }
  }

  /** One event posts at most one message, carrying the id it took. */
  lemma StepPosts(c: Client, e: Event)
    ensures var st := Apply(c, e);
      && c.messageId <= st.client.messageId
      && |st.posted| <= 1
      && (forall p :: p in st.posted ==> p.id == c.messageId && st.client.messageId == c.messageId + 1)
  {
  }

  /** Every id the client posts is fresh: distinct from all pending ids and
      larger than every id posted before. */
  lemma {:induction false} PostedIdsIncrease(c: Client, es: seq<Event>)
    ensures var st := Run(c, es);
      && c.messageId <= st.client.messageId
      && (forall i :: 0 <= i < |st.posted| ==> c.messageId <= st.posted[i].id < st.client.messageId)
      && (forall i, j :: 0 <= i < j < |st.posted| ==> st.posted[i].id < st.posted[j].id)
    decreases |es|
  {
    if |es| > 0 {
      var first := Apply(c, es[0]);
      StepPosts(c, es[0]);
      PostedIdsIncrease(first.client, es[1..]);
      var rest := Run(first.client, es[1..]);
      PostingsJoin(c.messageId, first.client.messageId, rest.client.messageId, first.posted, rest.posted);
    }
  }

  /** The posts of one step, all with ids in `[lo, mid)` and increasing, followed
      by posts with ids in `[mid, hi)` and increasing, increase throughout. */
  lemma PostingsJoin(lo: int, mid: int, hi: int, first: seq<Posted>, rest: seq<Posted>)
    requires lo <= mid <= hi
    requires forall i :: 0 <= i < |first| ==> lo <= first[i].id < mid
    requires forall i, j :: 0 <= i < j < |first| ==> first[i].id < first[j].id
    requires forall i :: 0 <= i < |rest| ==> mid <= rest[i].id < hi
    requires forall i, j :: 0 <= i < j < |rest| ==> rest[i].id < rest[j].id
    ensures var all := first + rest;
      && (forall i :: 0 <= i < |all| ==> lo <= all[i].id < hi)
      && (forall i, j :: 0 <= i < j < |all| ==> all[i].id < all[j].id)
  {
    var all := first + rest;
    forall i | 0 <= i < |all|
      ensures lo <= all[i].id < hi
    {
      if i >= |first| {
        assert all[i] == rest[i - |first|];
      }
    }
    forall i, j | 0 <= i < j < |all|
      ensures all[i].id < all[j].id
    {
      if j < |first| {
        assert all[i] == first[i] && all[j] == first[j];
      } else if i < |first| {
        assert all[j] == rest[j - |first|];
      } else {
        assert all[i] == rest[i - |first|];
        assert all[j] == rest[j - |first|];
      }
    }
  }
}
