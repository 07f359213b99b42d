/** The ENR echo responder: it binds a TCP listener on `<ipv4>:<port>`, builds
    the fixed response once, and then writes that response to every accepted
    connection, logging accept and write failures and carrying on.

    Socket I/O becomes input: the bind outcome, and the sequence of accept
    outcomes, each accepted connection carrying the outcome of its write. The
    real loop never ends; the model runs it over a finite prefix of outcomes. */
module Echo {
  import opened Wrappers
  import opened Ipv4
  import opened Decimal
  import opened AddrText
  import opened Logging
  import opened Http

  /** The start of the message of the panic raised when the listener cannot
      be bound; `expect` continues it with `: ` and the error, which is not
      modelled. */
  const BIND_PANIC: string := "could not bind ENR echo server"

  /** The outcome of writing the response to one accepted connection. */
  datatype WriteOutcome = Written | WriteError(error: IoError)

  /** The outcome of one `accept` call; `conn` identifies the connection. */
  datatype AcceptOutcome = Accepted(conn: nat, write: WriteOutcome) | AcceptError(error: IoError)

  /** What the responder does: write bytes to a connection, or log. There is
      no read action: nothing is ever read from a client. */
  datatype Action = Write(conn: nat, data: string) | Log(record: LogRecord)

  /** A panicked bind, or the actions of a running responder. */
  datatype EchoRun = BindPanicked(message: string) | Serving(actions: seq<Action>)

  /** The listener's address text; it reads back as the address and the port. */
  function BindAddress(ip: Addr, port: Port): (s: string)
    ensures ParseSocketAddrV4(s) == Some((ip, port))
  {
    ParseFormatSocketAddrV4(ip, port);
    FormatIpv4(ip) + ":" + NatToString(port)
  }

  /** The actions taken for one accept outcome. */
  function Handle(response: string, a: AcceptOutcome): (r: seq<Action>)
    ensures 1 <= |r| <= 2
    ensures a.Accepted? ==> r[0] == Write(a.conn, response)
    ensures forall k :: 0 <= k < |r| && r[k].Write? ==> a.Accepted?
    ensures forall k :: 0 <= k < |r| && r[k].Log? ==> r[k].record.level == Error
    ensures (exists k :: 0 <= k < |r| && r[k].Log?) <==> a.AcceptError? || a.write.WriteError?
  {
    match a
    case Accepted(conn, Written) => [Write(conn, response)]
    case Accepted(conn, WriteError(e)) =>
      var r := [Write(conn, response), Log(LogRecord(Error, WriteFailed(e)))];
      assert r[1].Log?;
      r
    case AcceptError(e) =>
      var r := [Log(LogRecord(Error, AcceptFailed(e)))];
      assert r[0].Log?;
      r
  }

  /** The actions taken for a sequence of accept outcomes, in order. */
  function Served(response: string, accepts: seq<AcceptOutcome>): seq<Action>
  {
    if |accepts| == 0 then []
    else Served(response, accepts[..|accepts| - 1]) + Handle(response, accepts[|accepts| - 1])
  }

  /** The log line announcing that the listener is bound. */
  function Started(ip: Addr, port: Port): Action
  {
    Log(LogRecord(Info, EchoRunning(BindAddress(ip, port))))
  }

  /** The responder task: bind (a failure panics before any accept), build the
      response once, then handle every accept outcome in turn without ever
      leaving the loop. */
  method Run(ip: Addr, port: Port, enr: string, bindError: Option<IoError>, accepts: seq<AcceptOutcome>)
    returns (run: EchoRun)
    ensures bindError.Some? ==> run == BindPanicked(BIND_PANIC)
    ensures bindError.None? ==> run == Serving([Started(ip, port)] + Served(Response(enr), accepts))
  {
    var addr := BindAddress(ip, port);
    if bindError.Some? {
      return BindPanicked(BIND_PANIC);
    }
    var actions := [Log(LogRecord(Info, EchoRunning(addr)))];
    ghost var started := actions;
    var response := Response(enr);
    var i := 0;
    while i < |accepts|
      invariant i <= |accepts|
      invariant actions == started + Served(response, accepts[..i])
    {
      assert accepts[..i + 1][..i] == accepts[..i];
      ghost var before := actions;
      var outcome := accepts[i];
      if outcome.Accepted? {
        var copy := response;
        actions := actions + [Write(outcome.conn, copy)];
        if outcome.write.WriteError? {
          actions := actions + [Log(LogRecord(Error, WriteFailed(outcome.write.error)))];
        }
      } else {
        actions := actions + [Log(LogRecord(Error, AcceptFailed(outcome.error)))];
      }
      assert actions == before + Handle(response, outcome);
      i := i + 1;
    }
    assert accepts[..i] == accepts;
    run := Serving(actions);
  }

  /** Handling is compositional: what happens on later accepts does not depend
      on the outcomes (errors included) of earlier ones. */
  lemma {:induction false} ServedAppend(response: string, xs: seq<AcceptOutcome>, ys: seq<AcceptOutcome>)
    ensures Served(response, xs + ys) == Served(response, xs) + Served(response, ys)
  {
    if |ys| > 0 {
      var zs := xs + ys;
      assert zs[..|zs| - 1] == xs + ys[..|ys| - 1];
      ServedAppend(response, xs, ys[..|ys| - 1]);
    } else {
      assert xs + ys == xs;
    }
  }

  /** Every write sends the one response built before the loop. */
  lemma {:induction false} ServedWritesResponse(response: string, accepts: seq<AcceptOutcome>)
    ensures forall k :: 0 <= k < |Served(response, accepts)| && Served(response, accepts)[k].Write?
              ==> Served(response, accepts)[k].data == response
  {
    if |accepts| > 0 {
      ServedWritesResponse(response, accepts[..|accepts| - 1]);
    }
  }

  function CountAccepted(accepts: seq<AcceptOutcome>): nat
  {
    if |accepts| == 0 then 0
    else CountAccepted(accepts[..|accepts| - 1]) + (if accepts[|accepts| - 1].Accepted? then 1 else 0)
  }

  /** The number of failures: accept errors plus failed writes. */
  function CountFailures(accepts: seq<AcceptOutcome>): nat
  {
    if |accepts| == 0 then 0
    else
      var last := accepts[|accepts| - 1];
      CountFailures(accepts[..|accepts| - 1])
      + (if last.AcceptError? || last.write.WriteError? then 1 else 0)
  }

  function CountWrites(actions: seq<Action>): nat
  {
    if |actions| == 0 then 0
    else CountWrites(actions[..|actions| - 1]) + (if actions[|actions| - 1].Write? then 1 else 0)
  }

  function CountErrorLogs(actions: seq<Action>): nat
  {
    if |actions| == 0 then 0
    else
      var last := actions[|actions| - 1];
      CountErrorLogs(actions[..|actions| - 1]) + (if last.Log? && last.record.level == Error then 1 else 0)
  }

  lemma {:induction false} CountWritesAppend(a: seq<Action>, b: seq<Action>)
    ensures CountWrites(a + b) == CountWrites(a) + CountWrites(b)
    ensures CountErrorLogs(a + b) == CountErrorLogs(a) + CountErrorLogs(b)
  {
    if |b| > 0 {
      assert (a + b)[..|a + b| - 1] == a + b[..|b| - 1];
      CountWritesAppend(a, b[..|b| - 1]);
    } else {
      assert a + b == a;
    }
  }

  lemma HandleCounts(response: string, a: AcceptOutcome)
    ensures CountWrites(Handle(response, a)) == if a.Accepted? then 1 else 0
    ensures CountErrorLogs(Handle(response, a)) == if a.AcceptError? || a.write.WriteError? then 1 else 0
  {
    var h := Handle(response, a);
    assert CountWrites(h[..0]) == 0 && CountErrorLogs(h[..0]) == 0 by { assert h[..0] == []; }
    if |h| == 2 {
      assert h[..1] == [h[0]] && h[..1][..0] == [];
      assert CountWrites(h[..1]) == 1 && CountErrorLogs(h[..1]) == 0;
    }
  }

  /** Exactly one write per accepted connection, and exactly one error log per
      failure, so the loop neither skips nor repeats an outcome. */
  lemma {:induction false} ServedCounts(response: string, accepts: seq<AcceptOutcome>)
    ensures CountWrites(Served(response, accepts)) == CountAccepted(accepts)
    ensures CountErrorLogs(Served(response, accepts)) == CountFailures(accepts)
  {
    if |accepts| > 0 {
      var init := accepts[..|accepts| - 1];
      ServedCounts(response, init);
      var h := Handle(response, accepts[|accepts| - 1]);
      CountWritesAppend(Served(response, init), h);
      HandleCounts(response, accepts[|accepts| - 1]);
    }
  }

  /** A connection is written to exactly when it was accepted. */
  lemma {:induction false} ServedConnections(response: string, accepts: seq<AcceptOutcome>, conn: nat)
    ensures Write(conn, response) in Served(response, accepts)
            <==> exists k :: 0 <= k < |accepts| && accepts[k].Accepted? && accepts[k].conn == conn
  {
    if |accepts| > 0 {
      var init := accepts[..|accepts| - 1];
      ServedConnections(response, init, conn);
      if exists k :: 0 <= k < |init| && init[k].Accepted? && init[k].conn == conn {
        var k :| 0 <= k < |init| && init[k].Accepted? && init[k].conn == conn;
        assert accepts[k] == init[k];
      }
      if exists k :: 0 <= k < |accepts| && accepts[k].Accepted? && accepts[k].conn == conn {
        var k :| 0 <= k < |accepts| && accepts[k].Accepted? && accepts[k].conn == conn;
        if k < |init| {
          assert init[k] == accepts[k];
        }
      }
    }
  }
}
