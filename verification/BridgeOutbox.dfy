/**
  A bridge's events (crates/hub/src/bridge.rs, crates/hub/src/db/integrations.rs): the outbox keeps
  them until the server has acknowledged them, and every connection sends what is not acknowledged.
*/
module BridgeOutbox {
  import opened Sequences

  /** One row of the outbox; its id is the `seq` the server sees. */
  datatype Event = Event(id: nat, body: string)

  /** The rows of one integration, oldest first, and the ids marked delivered. */
  datatype Outbox = Outbox(rows: seq<Event>, delivered: set<nat>)

  /** What one query for unacknowledged events returns at most. */
  const BATCH := 100

  ghost predicate Increasing(s: seq<Event>) {
    forall i, j :: 0 <= i < j < |s| ==> s[i].id < s[j].id
  }

  /** The rows past `after` not marked delivered, oldest first. */
  function Waiting(o: Outbox, after: nat): seq<Event>
    decreases |o.rows|
  {
    if o.rows == [] then []
    else
      var last := o.rows[|o.rows| - 1];
      var earlier := Waiting(o.(rows := o.rows[..|o.rows| - 1]), after);
      if last.id > after && last.id !in o.delivered then earlier + [last] else earlier
  }

  function Unacked(o: Outbox, after: nat, limit: nat): seq<Event> { AtMost(Waiting(o, after), limit) }

  /** The `seq` of the newest of `s`, or `none` when there is none. */
  function NewestId(s: seq<Event>, none: nat): nat { if s == [] then none else s[|s| - 1].id }

  /** Exactly the unacknowledged rows, in order. */
  lemma {:induction false} WaitingIsWhatIsUnacked(o: Outbox, after: nat)
    requires Increasing(o.rows)
    ensures Increasing(Waiting(o, after))
    ensures forall e :: e in Waiting(o, after) <==> e in o.rows && e.id > after && e.id !in o.delivered
    decreases |o.rows|
  {
    if o.rows != [] {
      var fewer := o.(rows := o.rows[..|o.rows| - 1]);
      assert o.rows == fewer.rows + [o.rows[|o.rows| - 1]];
      WaitingIsWhatIsUnacked(fewer, after);
    }
  }

  lemma {:induction false} NothingWaitsPast(o: Outbox, after: nat)
    requires forall e <- o.rows :: e.id <= after
    ensures Waiting(o, after) == []
    decreases |o.rows|
  {
    if o.rows != [] {
      assert o.rows[|o.rows| - 1] in o.rows;
      NothingWaitsPast(o.(rows := o.rows[..|o.rows| - 1]), after);
    }
  }

  /** Having sent the first `k`, what waits is the rest. */
  lemma {:induction false} WaitingAfter(o: Outbox, after: nat, k: nat)
    requires Increasing(o.rows) && k <= |Waiting(o, after)|
    ensures Waiting(o, NewestId(Waiting(o, after)[..k], after)) == Waiting(o, after)[k..]
    decreases |o.rows|
  {
    var all := Waiting(o, after);
    if o.rows != [] && k > |Waiting(o.(rows := o.rows[..|o.rows| - 1]), after)| {
      assert all[..k] == all;
      NothingWaitsPast(o, all[k - 1].id);
    } else if o.rows != [] {
      var last := o.rows[|o.rows| - 1];
      var fewer := o.(rows := o.rows[..|o.rows| - 1]);
      var earlier := Waiting(fewer, after);
      assert all[..k] == earlier[..k];
      WaitingAfter(fewer, after, k);
      if k > 0 {
        WaitingIsWhatIsUnacked(fewer, after);
        assert earlier[k - 1] in fewer.rows;
      }
      assert all == earlier || all[k..] == earlier[k..] + [last];
    }
  }

  /** One connection to the server. */
  class Connection {
    var lastSent: nat
    var wire: seq<Event>

    constructor ()
      ensures lastSent == 0 && wire == []
    {
      lastSent, wire := 0, [];
    }

    /** Sends what is queued and not sent on this connection yet, in batches. The connection takes
        `sends` more messages before it drops; a failing query ends it like a drop. */
    method SendPending(o: Outbox, sends: nat) returns (ok: bool)
      requires Increasing(o.rows)
      modifies this
      ensures ok <==> |Waiting(o, old(lastSent))| <= sends
      ensures wire == old(wire) + AtMost(Waiting(o, old(lastSent)), sends)
      ensures lastSent == NewestId(AtMost(Waiting(o, old(lastSent)), sends), old(lastSent))
    {
      ghost var all := Waiting(o, lastSent);
      var sent := 0;
      while true
        invariant sent <= sends && sent <= |all|
        invariant wire == old(wire) + all[..sent]
        invariant lastSent == NewestId(all[..sent], old(lastSent))
        decreases |all| - sent
      {
        WaitingAfter(o, old(lastSent), sent);
        var pending := Unacked(o, lastSent, BATCH);
        if pending == [] {
          assert all[..sent] == all;
          return true;
        }
        var i := 0;
        ghost var from := sent;
        while i < |pending|
          invariant i <= |pending| && sent == from + i && sent <= sends
          invariant from + |pending| <= |all| && pending == all[from..from + |pending|]
          invariant wire == old(wire) + all[..sent]
          invariant lastSent == NewestId(all[..sent], old(lastSent))
        {
          if sent == sends {
            return false;
          }
          assert all[..sent + 1] == all[..sent] + [pending[i]];
          wire := wire + [pending[i]];
          lastSent := pending[i].id;
          i, sent := i + 1, sent + 1;
        }
      }
    }
  }
}
