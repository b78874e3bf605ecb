/**
 The server object of src/net/TcpServer.cpp: its set of connections, changed in place, in a world of
 event loops. Each method is the server's own code between two points at which other threads run;
 everything else that any thread does is a step of ServerSpec.
 */
module TcpServers {
  import opened Lifecycle
  import opened ServerSpec
  import P = ServerProof
  import S = ServerSafety
  import L = LoopSpec

  class TcpServer {
    var connFlags: set<ConnId>
    var loops: seq<Node>            // the base loop first, then the pool
    var conns: map<ConnId, Conn>    // the connection objects

    /** No assertion has failed so far. */
    ghost function View(): World
      reads this
    {
      World(loops, connFlags, conns, true)
    }

    ghost predicate Valid()
      reads this
    {
      P.Inv(View())
    }

    constructor (threads: nat)
      ensures Valid() && Start(View()) && |loops| == threads + 1
    {
      connFlags, conns := {}, map[];
      loops := seq(threads + 1, _ => Node(L.Init(), {}, {}, []));
      new;
      P.StartInv(View());
    }

    /** Code running in loop thread i calls runInLoop on loop `target`: the task's code is entered at
        once in the target's own thread, and otherwise the call is a push of the task. */
    method RunInLoop(i: nat, target: nat, task: Task)
      requires i < |loops|
      modifies this`loops
      ensures loops == old(loops)[i := old(loops)[i].(todo :=
                (if i == target then P.Entered(task) else [Post(target, task)]) + old(loops)[i].todo)]
    {
      var entered := if i == target then P.Entered(task) else [Post(target, task)];
      loops := loops[i := loops[i].(todo := entered + loops[i].todo)];
    }

    /** newConnection, in the base loop. The connection is inserted before its owner hears of it. */
    method NewConnection(c: ConnId, owner: nat)
      requires Valid() && Enabled(View(), Accept(c, owner))
      modifies this
      ensures Valid() && View() == Next(old(View()), Accept(c, owner))
      ensures connFlags == old(connFlags) + {c} && Held(View(), c)
      ensures loops[0].todo == [if owner == 0 then Micro.Open(c) else Post(owner, Establish(c))]
    {
      hide P.Inv, NodeHolds;
      ghost var before := View();
      S.StepKept(before, Accept(c, owner));
      conns := conns[c := Conn(owner, Connecting, [], false)];
      connFlags := connFlags + {c};
      assert loops[0].todo == [];
      ghost var call := if owner == 0 then Micro.Open(c) else Post(owner, Establish(c));
      assert [call] + [] == [call];
      RunInLoop(0, owner, Establish(c));
      assert View() == Next(before, Accept(c, owner));
    }

    /** removeConnection, which handleClose calls in the owner's thread. */
    method RemoveConnection(i: nat, c: ConnId)
      requires i < |loops|
      modifies this`loops
      ensures loops == old(loops)[i := old(loops)[i].(todo :=
                [if i == 0 then Erase(c) else Post(0, Remove(c))] + old(loops)[i].todo)]
    {
      RunInLoop(i, 0, Remove(c));
    }

    /** An active connection's handler closes it: the close handler's assertion holds, and the base
        loop's code is entered or posted to. */
    method CloseActive(i: nat, c: ConnId)
      requires Valid() && Enabled(View(), Dispatch(i, c, true))
      modifies this
      ensures Valid() && View() == Next(old(View()), Dispatch(i, c, true))
      ensures old(conns)[c].IsOpen() && Held(View(), c)
      ensures loops[i].todo == [if i == 0 then Erase(c) else Post(0, Remove(c))]
    {
      hide P.Inv, Held;
      ghost var before := View();
      S.StepKept(before, Dispatch(i, c, true));
      ReadyIsOpen(i, c);
      loops := loops[i := loops[i].(ready := loops[i].ready - {c})];
      var k := conns[c];
      conns := conns[c := k.(status := Disconnected, cbs := k.cbs + [false])];
      RemoveConnection(i, c);
      assert View() == Next(before, Dispatch(i, c, true));
      StillHeld(c);
    }

    /** Connections that wait for their handler are open and in the set. */
    lemma ReadyIsOpen(i: nat, c: ConnId)
      requires Valid() && i < |loops| && c in loops[i].ready
      ensures c in conns && conns[c].IsOpen() && !conns[c].finished && c in connFlags
    {
      assert P.NodeInv(View(), i) && P.ConnInv(View(), c);
    }

    /** A connection whose connectionDestroyed has not run is still referenced. */
    lemma StillHeld(c: ConnId)
      requires Valid() && c in conns && !conns[c].finished
      ensures Held(View(), c)
    {
      S.HeldUntilFinished(View(), c);
    }

    /** removeConnectionInLoop, up to its queueInLoop call: the erase finds the connection, which is
        closed and stays referenced. */
    method RemoveConnectionInLoop(c: ConnId)
      requires Valid() && |loops[0].todo| > 0 && loops[0].todo[0] == Erase(c) && c in conns
      modifies this
      ensures Valid() && View() == Next(old(View()), Exec(0))
      ensures c in old(connFlags) && connFlags == old(connFlags) - {c}
      ensures conns == old(conns) && conns[c].status == Disconnected && Held(View(), c)
    {
      hide P.Inv, Held;
      ghost var before := View();
      Erasable(c);
      S.StepKept(before, Exec(0));
      var erased := c in connFlags;
      connFlags := connFlags - {c};
      assert erased;
      var owner := conns[c].owner;
      loops := loops[0 := loops[0].(todo := [Post(owner, Destroy(c))] + loops[0].todo[1..])];
      StillHeld(c);
    }

    lemma Erasable(c: ConnId)
      requires Valid() && |loops[0].todo| > 0 && loops[0].todo[0] == Erase(c)
      ensures Enabled(View(), Exec(0)) && c in connFlags && c in conns
      ensures conns[c].status == Disconnected && !conns[c].finished
    {
      assert P.NodeInv(View(), 0) && P.MicroPlaced(View(), 0, loops[0].todo[0]);
      P.EraseConns(View(), 0);
      assert P.ConnInv(View(), c);
    }

    /** Any other step of any thread: event loops, connections, user code. */
    method Elsewhere(s: Step)
      requires Valid() && Enabled(View(), s) && !s.Accept?
      modifies this
      ensures Valid() && View() == Next(old(View()), s)
    {
      S.StepKept(View(), s);
      var w := Next(World(loops, connFlags, conns, true), s);
      connFlags, loops, conns := w.flags, w.nodes, w.conns;
    }
  }
}
