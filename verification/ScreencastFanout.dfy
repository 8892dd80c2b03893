/** The fan-out as the hub runs it: fields updated in place, viewers visited in map order. */
module ScreencastFanout {
  import opened Wrappers
  import opened Screencast

  /** The vector of actions a call returns: never more than one. */
  function Actions(a: Option<NodeAction>): seq<NodeAction> {
    if a.Some? then [a.value] else []
  }

  class Fanout {
    ghost const key: Key      // whose fan-out this is
    var viewers: map<nat, Viewer>
    var started: Option<Params>
    var seqNo: nat
    var nodeAcked: nat
    var lastFrame: Option<Stamped>
    var epoch: nat

    function State(): FanoutState
      reads this
    {
      FanoutState(viewers, started, seqNo, nodeAcked, lastFrame, epoch)
    }

    constructor (ghost key: Key, seed: nat)
      ensures State() == NewFanout(seed) && this.key == key
    {
      this.key := key;
      viewers, started, seqNo, nodeAcked, lastFrame, epoch := map[], None, 0, 0, None, seed;
    }

    predicate IsEmpty()
      reads this
    {
      viewers == map[]
    }

    method Effective() returns (wanted: Option<Params>)
      ensures wanted == Wanted(viewers)
      ensures IsWanted(viewers, wanted)
    {
      var todo := viewers.Keys;
      wanted := None;
      while todo != {}
        invariant todo <= viewers.Keys
        invariant IsMaxOver(viewers, viewers.Keys - todo, wanted)
        decreases todo
      {
        var i :| i in todo;
        MaxOverExtends(viewers, viewers.Keys - todo, wanted, i);
        assert viewers.Keys - (todo - {i}) == viewers.Keys - todo + {i};
        wanted := Some(if wanted.None? then viewers[i].params else Max(wanted.value, viewers[i].params));
        todo := todo - {i};
      }
      assert viewers.Keys - todo == viewers.Keys;
      WantedIsUnique(viewers, wanted);
    }

    method Reconcile() returns (actions: seq<NodeAction>)
      modifies this
      ensures State() == Reconciled(old(State())).fanout
      ensures actions == Actions(Reconciled(old(State())).action)
    {
      var wanted := Effective();
      if wanted == started {
        return [];
      }
      started := wanted;
      epoch := epoch + 1;
      match wanted
      case Some(p) => actions := [Start(p, epoch)];
      case None => actions := [Stop(epoch)];
    }

    method AddViewer(id: nat, params: Params, tx: Channel) returns (actions: seq<NodeAction>)
      modifies this
      ensures State() == Added(old(State()), id, params, tx).fanout
      ensures actions == Actions(Added(old(State()), id, params, tx).action)
    {
      var viewer := Viewer(tx, params, false, 0, None);
      if lastFrame.Some? {
        if viewer.tx.open {
          viewer := viewer.(tx := Send(viewer.tx, FrameMsg(lastFrame.value)));
          viewer := viewer.(waiting := true);
          viewer := viewer.(sentSeq := lastFrame.value.num);
        }
      }
      viewers := viewers[id := viewer];
      actions := Reconcile();
    }

    method RemoveViewer(id: nat) returns (actions: seq<NodeAction>)
      modifies this
      ensures State() == Removed(old(State()), id).fanout
      ensures actions == Actions(Removed(old(State()), id).action)
    {
      if id !in viewers {
        return [];
      }
      viewers := viewers - {id};
      if viewers == map[] {
        lastFrame := None;
      }
      actions := Reconcile();
    }

    method SetParams(id: nat, params: Params) returns (actions: seq<NodeAction>)
      modifies this
      ensures State() == WithParams(old(State()), id, params).fanout
      ensures actions == Actions(WithParams(old(State()), id, params).action)
    {
      if id !in viewers {
        return [];
      }
      viewers := viewers[id := viewers[id].(params := params)];
      actions := Reconcile();
    }

    method OnFrame(frame: Frame) returns (actions: seq<NodeAction>)
      modifies this
      ensures State() == Framed(old(State()), frame).fanout
      ensures actions == Actions(Framed(old(State()), frame).action)
    {
      seqNo := seqNo + 1;
      var stamped := Stamped(seqNo, frame);
      if viewers == map[] {
        nodeAcked := seqNo;
        return [Ack];
      }
      lastFrame := Some(stamped);
      var todo := viewers.Keys;
      while todo != {}
        invariant todo <= viewers.Keys == old(viewers).Keys
        invariant forall i <- viewers ::
                    viewers[i] == if i in todo then old(viewers)[i] else Offered(old(viewers)[i], stamped)
        invariant started == old(started) && nodeAcked == old(nodeAcked) && epoch == old(epoch)
        invariant seqNo == stamped.num && lastFrame == Some(stamped)
        decreases todo
      {
        var i :| i in todo;
        var viewer := viewers[i];
        if viewer.waiting {
          viewer := viewer.(slot := Some(stamped));
        } else if viewer.tx.open {
          viewer := viewer.(tx := Send(viewer.tx, FrameMsg(stamped)));
          viewer := viewer.(waiting := true);
          viewer := viewer.(sentSeq := seqNo);
        }
        viewers := viewers[i := viewer];
        todo := todo - {i};
      }
      assert viewers == Framed(old(State()), frame).fanout.viewers;
      actions := [];
    }

    method ViewerAck(id: nat) returns (actions: seq<NodeAction>)
      modifies this
      ensures State() == Acked(old(State()), id).fanout
      ensures actions == Actions(Acked(old(State()), id).action)
    {
      if id !in viewers {
        return [];
      }
      var viewer := viewers[id];
      if !viewer.waiting {
        return [];
      }
      viewer := viewer.(waiting := false);
      var sentSeq := viewer.sentSeq;
      var held := viewer.slot;
      viewer := viewer.(slot := None);
      if held.Some? {
        if viewer.tx.open {
          viewer := viewer.(tx := Send(viewer.tx, FrameMsg(held.value)));
          viewer := viewer.(waiting := true);
          viewer := viewer.(sentSeq := held.value.num);
        }
      }
      viewers := viewers[id := viewer];
      if sentSeq > nodeAcked {
        nodeAcked := sentSeq;
        return [Ack];
      }
      return [];
    }

    method Destroy()
      modifies this
      ensures State() == AllTold(old(State()))
    {
      var todo := viewers.Keys;
      while todo != {}
        invariant todo <= viewers.Keys == old(viewers).Keys
        invariant forall i <- viewers ::
                    viewers[i] ==
                    if i in todo then old(viewers)[i] else old(viewers)[i].(tx := Send(old(viewers)[i].tx, Destroyed))
        invariant State() == old(State()).(viewers := viewers)
        decreases todo
      {
        var i :| i in todo;
        viewers := viewers[i := viewers[i].(tx := Send(viewers[i].tx, Destroyed))];
        todo := todo - {i};
      }
      assert viewers == AllTold(old(State())).viewers;
    }

    method RestartAction() returns (action: Option<NodeAction>)
      modifies this
      ensures State() == Restarted(old(State())).fanout
      ensures action == Restarted(old(State())).action
    {
      started := None;
      nodeAcked := seqNo;
      var actions := Reconcile();
      action := if actions == [] then None else Some(actions[0]);
    }
  }
}
