/** The event observer: it subscribes to the discovery engine's event stream
    and turns each received item into at most one log record. Six event kinds
    are logged; every other item, the end-of-stream marker included, is
    ignored, and the loop has no exit.

    The stream becomes input: the outcome of subscribing, and the sequence of
    items `recv` returns (`None` standing for an ended stream). The real loop
    never ends; the model runs it over a finite prefix of items. */
module Events {
  import opened Wrappers
  import opened Ipv4
  import opened NodeRecord
  import opened Logging

  /** An inbound TALKREQ: the requesting node, the protocol and the payload. */
  datatype TalkReq = TalkReq(requester: NodeId, protocol: seq<nat>, body: seq<nat>)

  /** An event emitted by the discovery engine. `Unhandled` stands for every
      kind the observer has no arm for (present or future ones). */
  datatype Event =
    | SocketUpdated(addr: SocketAddr)
    | Discovered(enr: Enr)
    | UnverifiableEnr(enr: Enr, socket: SocketAddr, nodeId: NodeId)
    | NodeInserted(nodeId: NodeId, replaced: Option<NodeId>)
    | SessionEstablished(enr: Enr, addr: SocketAddr)
    | TalkRequest(request: TalkReq)
    | Unhandled(kind: string)

  predicate IsHandled(e: Event)
  {
    !e.Unhandled?
  }

  predicate Logged(item: Option<Event>)
  {
    item.Some? && IsHandled(item.value)
  }

  /** The record for one received item: one info record for each handled
      event, nothing for anything else. */
  function Observe(item: Option<Event>): (rec: Option<LogRecord>)
    ensures rec.Some? <==> Logged(item)
    ensures rec.Some? ==> rec.value.level == Info
  {
    match item
    case Some(SocketUpdated(addr)) => Some(LogRecord(Info, SocketAddressUpdated(addr)))
    case Some(Discovered(enr)) => Some(LogRecord(Info, PeerDiscovered(enr.nodeId)))
    case Some(UnverifiableEnr(enr, _, _)) => Some(LogRecord(Info, AddedWithEnr(enr.text)))
    case Some(NodeInserted(nodeId, _)) => Some(LogRecord(Info, AddedWithNodeId(nodeId)))
    case Some(SessionEstablished(enr, addr)) => Some(LogRecord(Info, SessionWith(enr.text, addr)))
    case Some(TalkRequest(request)) => Some(LogRecord(Info, TalkRequestFrom(request.requester)))
    case _ => None
  }

  /** What each handled event's record carries: the new socket address, the
      discovered node's id, the unverifiable record's text, the inserted
      node's id, the session peer's record text and address, or the talk
      requester's id. */
  lemma ObserveCarries(e: Event)
    requires IsHandled(e)
    ensures var m := Observe(Some(e)).value.msg;
      match e
      case SocketUpdated(addr) => m.SocketAddressUpdated? && m.socket == addr
      case Discovered(enr) => m.PeerDiscovered? && m.discovered == enr.nodeId
      case UnverifiableEnr(enr, _, _) => m.AddedWithEnr? && m.enrText == enr.text
      case NodeInserted(nodeId, _) => m.AddedWithNodeId? && m.inserted == nodeId
      case SessionEstablished(enr, addr) => m.SessionWith? && m.peerEnrText == enr.text && m.peerAddr == addr
      case TalkRequest(request) => m.TalkRequestFrom? && m.requester == request.requester
      case Unhandled(_) => false
  {
  }

  /** The records for a sequence of received items, in order. */
  function Observed(items: seq<Option<Event>>): seq<LogRecord>
  {
    if |items| == 0 then []
    else
      var rec := Observe(items[|items| - 1]);
      Observed(items[..|items| - 1]) + (if rec.Some? then [rec.value] else [])
  }

  /** The number of items that are handled events. */
  function CountLogged(items: seq<Option<Event>>): nat
  {
    if |items| == 0 then 0
    else CountLogged(items[..|items| - 1]) + (if Logged(items[|items| - 1]) then 1 else 0)
  }

  /** The start of the message of the panic raised when the subscription
      cannot be made; `unwrap` continues it with `: ` and the error, which
      is not modelled. */
  const SUBSCRIBE_PANIC: string := "called `Result::unwrap()` on an `Err` value"

  datatype ObserverRun = SubscribePanicked(message: string) | Observing(log: seq<LogRecord>)

  /** The observer task: subscribe (a failure panics), then receive items one
      after the other and log the handled ones; no item ends the loop. */
  method Run(subscribed: bool, items: seq<Option<Event>>) returns (run: ObserverRun)
    ensures !subscribed ==> run == SubscribePanicked(SUBSCRIBE_PANIC)
    ensures subscribed ==> run == Observing(Observed(items))
  {
    if !subscribed {
      return SubscribePanicked(SUBSCRIBE_PANIC);
    }
    var log := [];
    var i := 0;
    while i < |items|
      invariant i <= |items|
      invariant log == Observed(items[..i])
    {
      assert items[..i + 1][..i] == items[..i];
      var rec := Observe(items[i]);
      if rec.Some? {
        log := log + [rec.value];
      }
      i := i + 1;
    }
    assert items[..i] == items;
    run := Observing(log);
  }

  /** Observing is compositional: the records for two stretches of the stream
      are those of the first followed by those of the second. */
  lemma {:induction false} ObservedAppend(xs: seq<Option<Event>>, ys: seq<Option<Event>>)
    ensures Observed(xs + ys) == Observed(xs) + Observed(ys)
  {
    if |ys| > 0 {
      var zs := xs + ys;
      assert zs[..|zs| - 1] == xs + ys[..|ys| - 1];
      ObservedAppend(xs, ys[..|ys| - 1]);
    } else {
      assert xs + ys == xs;
    }
  }

  /** One record per handled event, none for anything else. */
  lemma {:induction false} ObservedCount(items: seq<Option<Event>>)
    ensures |Observed(items)| == CountLogged(items)
  {
    if |items| > 0 {
      ObservedCount(items[..|items| - 1]);
    }
  }

  /** Order: the record for a handled item at position `i` sits at the position
      given by the number of handled items before it. */
  lemma ObservedAt(items: seq<Option<Event>>, i: nat)
    requires i < |items| && Logged(items[i])
    ensures CountLogged(items[..i]) < |Observed(items)|
    ensures Observed(items)[CountLogged(items[..i])] == Observe(items[i]).value
  {
    assert items == items[..i] + [items[i]] + items[i + 1..];
    ObservedAppend(items[..i] + [items[i]], items[i + 1..]);
    ObservedAppend(items[..i], [items[i]]);
    ObservedCount(items[..i]);
    assert [items[i]][..0] == [];
  }

  /** The end-of-stream marker and unhandled kinds leave no record and do not
      stop the loop: whatever follows them is still observed. */
  lemma IgnoredItemTransparent(xs: seq<Option<Event>>, item: Option<Event>, ys: seq<Option<Event>>)
    requires !Logged(item)
    ensures Observed(xs + [item] + ys) == Observed(xs) + Observed(ys)
  {
    ObservedAppend(xs + [item], ys);
    ObservedAppend(xs, [item]);
    assert Observed([item]) == [] by {
      assert [item][..0] == [];
    }
    assert Observed(xs + [item]) == Observed(xs);
  }
}
