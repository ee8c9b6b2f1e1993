/** The state a NAT-PMP Client object of index.js keeps and the socket events
    that change it: a FIFO queue of pending work and the `listening` flag.
    Nothing in index.js ever adds to the queue, so its element type is left
    open, as is the type of the gateway address. */
module ClientState {
  import opened Results
  import opened Bytes
  import Codec

  datatype Client<Req, Gateway> = Client(queue: seq<Req>, listening: bool, gateway: Gateway)

  /** The socket events the client reacts to. */
  datatype Event = Listening | Message(msg: seq<uint8>) | Close

  function Min(a: nat, b: nat): nat
  {
    if a <= b then a else b
  }

  /** A new client: nothing queued, socket not yet listening. */
  function NewClient<Req, Gateway>(gateway: Gateway): (c: Client<Req, Gateway>)
    ensures c.queue == [] && !c.listening && c.gateway == gateway
  {
    Client([], false, gateway)
  }

  /** `_next`: removes the oldest request from the queue and discards it
      unprocessed; the second component is the removed item, held only in a
      local that `_next` never uses. On an empty queue nothing changes. */
  function Next<Req, Gateway>(c: Client<Req, Gateway>): (res: (Client<Req, Gateway>, Option<Req>))
    ensures res.1.None? <==> c.queue == []
    ensures res.1.None? ==> res.0 == c
    ensures res.1.Some? ==> [res.1.value] + res.0.queue == c.queue
    ensures res.0.listening == c.listening && res.0.gateway == c.gateway
  {
    if c.queue == [] then (c, None)
    else (c.(queue := c.queue[1..]), Some(c.queue[0]))
  }

  /** `onlistening`: the socket is bound; mark the client listening and run
      `_next`, which drops the oldest queued request. */
  function OnListening<Req, Gateway>(c: Client<Req, Gateway>): (c': Client<Req, Gateway>)
    ensures c'.listening
    ensures c'.queue == c.queue[Min(1, |c.queue|)..]
    ensures c'.gateway == c.gateway
  {
    Next(c.(listening := true)).0
  }

  /** `onclose`: the socket is gone; only the flag changes. */
  function OnClose<Req, Gateway>(c: Client<Req, Gateway>): (c': Client<Req, Gateway>)
    ensures !c'.listening
    ensures c'.queue == c.queue && c'.gateway == c.gateway
  {
    c.(listening := false)
  }

  /** `onmessage`: parses the datagram and leaves the client as it was. */
  function OnMessage<Req, Gateway>(c: Client<Req, Gateway>, msg: seq<uint8>)
    : (res: (Client<Req, Gateway>, Result<Codec.Response, Codec.DecodeError>))
    ensures res.0 == c
    ensures res.1 == Codec.Decode(msg)
    ensures res.1.Success? <==> |msg| == Codec.RESPONSE_LENGTH
    ensures res.1.Success? ==> Codec.Encode(res.1.value) == msg
  {
    var parsed := Codec.Decode(msg);
    if parsed.Success? then
      Codec.EncodeDecode(msg);
      (c, parsed)
    else (c, parsed)
  }

  function Step<Req, Gateway>(c: Client<Req, Gateway>, e: Event): Client<Req, Gateway>
  {
    match e
    case Listening => OnListening(c)
    case Message(msg) => OnMessage(c, msg).0
    case Close => OnClose(c)
  }

  /** The client after the events, applied oldest first. */
  function Run<Req, Gateway>(c: Client<Req, Gateway>, events: seq<Event>): Client<Req, Gateway>
    decreases |events|
  {
    if events == [] then c
    else Step(Run(c, events[..|events| - 1]), events[|events| - 1])
  }

  /** How many `listening` events occur, counted from the front. */
  function Shifts(events: seq<Event>): nat
  {
    if events == [] then 0
    else (if events[0].Listening? then 1 else 0) + Shifts(events[1..])
  }

  /** The value the most recent `listening` or `close` event gave the flag, if any. */
  function LastToggle(events: seq<Event>): Option<bool>
  {
    if events == [] then None
    else match events[|events| - 1]
      case Listening => Some(true)
      case Close => Some(false)
      case Message(_) => LastToggle(events[..|events| - 1])
  }

  lemma {:induction false} ShiftsAppend(events: seq<Event>, e: Event)
    ensures Shifts(events + [e]) == Shifts(events) + (if e.Listening? then 1 else 0)
  {
    if events != [] {
      assert (events + [e])[1..] == events[1..] + [e];
      ShiftsAppend(events[1..], e);
    }
  }

  /** After any sequence of events the queue has lost exactly as many
      requests from its front as there were `listening` events (while it
      lasted), in order, and the gateway is untouched. */
  lemma {:induction false} RunQueue<Req, Gateway>(c: Client<Req, Gateway>, events: seq<Event>)
    ensures Run(c, events).queue == c.queue[Min(Shifts(events), |c.queue|)..]
    ensures Run(c, events).gateway == c.gateway
  {
    if events != [] {
      var init, e := events[..|events| - 1], events[|events| - 1];
      assert events == init + [e];
      RunQueue(c, init);
      ShiftsAppend(init, e);
      var before := Run(c, init);
      assert Run(c, events) == Step(before, e);
      var k := Min(Shifts(init), |c.queue|);
      match e
      case Listening =>
        assert before.queue[Min(1, |before.queue|)..] == c.queue[Min(k + 1, |c.queue|)..];
      case Message(_) =>
      case Close =>
    }
  }

  /** After any sequence of events the flag is whatever the most recent
      `listening` or `close` made it, or its initial value if neither occurred. */
  lemma {:induction false} RunListening<Req, Gateway>(c: Client<Req, Gateway>, events: seq<Event>)
    ensures Run(c, events).listening ==
      (if LastToggle(events).Some? then LastToggle(events).value else c.listening)
  {
    if events != [] {
      RunListening(c, events[..|events| - 1]);
    }
  }

  /** A fresh client's queue stays empty whatever happens, and it is
      listening exactly when the latest `listening`/`close` was `listening`. */
  lemma {:induction false} NewClientRun<Req, Gateway>(gateway: Gateway, events: seq<Event>)
    ensures Run(NewClient<Req, Gateway>(gateway), events).queue == []
    ensures Run(NewClient<Req, Gateway>(gateway), events).listening <==> LastToggle(events) == Some(true)
  {
    RunQueue(NewClient<Req, Gateway>(gateway), events);
    RunListening(NewClient<Req, Gateway>(gateway), events);
  }
}
