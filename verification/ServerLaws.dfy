/** Where each call of the hand-off arrives. */
module ServerLaws {
  import opened Lifecycle
  import opened ServerSpec
  import opened ServerProof
  import L = LoopSpec

  // Each call is followed to the next action of its thread, whenever the other threads let it happen.

  /** newConnection: the connection is in the set and not yet up; then it is up, if the base loop owns it, or
      its establishment is at the back of its owner's queue. */
  lemma AcceptReaches(w: World, c: ConnId, owner: nat)
    requires Inv(w) && Enabled(w, Accept(c, owner))
    ensures var v := Next(w, Accept(c, owner));
            && v.flags == w.flags + {c} && v.conns == w.conns[c := Conn(owner, Connecting, [], false)]
            && (Enabled(v, Exec(0)) ==>
                  var u := Next(v, Exec(0));
                  if owner == 0 then u.conns[c].status == Connected && u.conns[c].cbs == [true]
                  else u.nodes[owner].loop.tasks == w.nodes[owner].loop.tasks + [Establish(c)])
  {
    hide Inv;
  }

  /** A closing connection is disconnected and has made its down callback; then the set has lost it, in the
      base loop, or its removal is at the back of the base loop's queue. */
  lemma CloseReaches(w: World, i: nat, c: ConnId)
    requires Inv(w) && Enabled(w, Dispatch(i, c, true))
    ensures var v := Next(w, Dispatch(i, c, true));
            && v.conns[c].status == Disconnected && v.conns[c].cbs == w.conns[c].cbs + [false]
            && (Enabled(v, Exec(i)) ==>
                  var u := Next(v, Exec(i));
                  if i == 0 then u.flags == w.flags - {c}
                  else u.nodes[0].loop.tasks == w.nodes[0].loop.tasks + [Remove(c)] && u.flags == w.flags)
  {
    hide Inv;
  }

  /** The erase takes one connection out of the set; then its destruction is at the back of its owner's
      queue, also if the base loop owns it. */
  lemma EraseReaches(w: World, c: ConnId)
    requires Inv(w) && Enabled(w, Exec(0)) && w.nodes[0].todo[0] == Erase(c)
    ensures var v := Next(w, Exec(0));
            var owner := w.conns[c].owner;
            && v.flags == w.flags - {c} && v.conns == w.conns
            && (Enabled(v, Exec(0)) ==>
                  Next(v, Exec(0)).nodes[owner].loop.tasks == w.nodes[owner].loop.tasks + [Destroy(c)])
  {
    hide Inv;
  }
}
