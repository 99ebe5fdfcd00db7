/**
 * Outbound traffic. Every `client.send(...)` of the server becomes one
 * `Delivery` appended to an outbox. The order in which a broadcast visits
 * the members of a room is not specified, so broadcasts are specified
 * through the per-recipient view `Received`: what one connection gets,
 * in order.
 */
module Outbox {
  import opened Messages

  datatype Delivery = Delivery(to: ConnId, msg: Record)

  /** The messages addressed to `x`, in the order they were sent. */
  function Received(out: seq<Delivery>, x: ConnId): (r: seq<Record>)
    ensures forall m :: m in r ==> Delivery(x, m) in out
  {
    if out == [] then []
    else
      var last := out[|out| - 1];
      Received(out[..|out| - 1], x) + (if last.to == x then [last.msg] else [])
  }

  /** `sent` carries exactly one copy of `notice` to each connection of
      `recipients` and nothing to anybody else. */
  ghost predicate Delivers(sent: seq<Delivery>, recipients: set<ConnId>, notice: Record)
  {
    forall x :: Received(sent, x) == (if x in recipients then [notice] else [])
  }

  /** `after` is `before` followed by one broadcast of `notice` to `recipients`. */
  ghost predicate Appends(before: seq<Delivery>, after: seq<Delivery>, recipients: set<ConnId>, notice: Record)
  {
    && |before| <= |after|
    && after[..|before|] == before
    && Delivers(after[|before|..], recipients, notice)
  }

  /** What a connection receives from two stretches of traffic is what it
      receives from the first followed by what it receives from the second. */
  lemma {:induction false} ReceivedConcat(a: seq<Delivery>, b: seq<Delivery>, x: ConnId)
    ensures Received(a + b, x) == Received(a, x) + Received(b, x)
    decreases |b|
  {
    if b == [] {
      assert a + b == a;
    } else {
      var b' := b[..|b| - 1];
      assert (a + b)[..|a + b| - 1] == a + b';
      ReceivedConcat(a, b', x);
    }
  }

  /** A broadcast adds exactly one copy of its notice to the inbox of each
      recipient and leaves every other inbox as it was. */
  lemma AppendsReceived(before: seq<Delivery>, after: seq<Delivery>, recipients: set<ConnId>, notice: Record, x: ConnId)
    requires Appends(before, after, recipients, notice)
    ensures Received(after, x) == Received(before, x) + (if x in recipients then [notice] else [])
  {
    assert after == before + after[|before|..];
    ReceivedConcat(before, after[|before|..], x);
  }

  /** A `room.forEach(client => ...)` broadcast: every member of `members`
      that is not in `except` and is open is sent `notice`, once. */
  method Fanout(members: set<ConnId>, except: set<ConnId>, open: set<ConnId>, notice: Record)
    returns (sent: seq<Delivery>)
    ensures Delivers(sent, (members - except) * open, notice)
  {
    sent := [];
    var todo := members;
    while todo != {}
      invariant todo <= members
      invariant Delivers(sent, (members - todo - except) * open, notice)
      decreases todo
    {
      var client :| client in todo;
      if client !in except && client in open {
        sent := sent + [Delivery(client, notice)];
      }
      todo := todo - {client};
    }
  }
}
