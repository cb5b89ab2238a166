/** Every run of overlay operations, from the empty overlay. */
module OverlayRuns {
  import opened Types
  import opened Store
  import opened Overlay

  datatype Operation =
    | Add(rows: Rows, tx: Tx)    // with the rows committed at that moment
    | Remove(txid: Hash)
    | Reconcile(valid: set<Hash>)
    | Clear

  /** A transaction that is already held, or that conflicts with one, is refused. */
  ghost predicate Refused(ov: OverlayView, tx: Tx) {
    tx.txid in ov.transactions || !NoneSpent(ov.spentBy, tx.ins)
  }

  ghost predicate OverlayStep(was: OverlayView, op: Operation, now: OverlayView) {
    match op
    case Add(rows, tx) => now == if Refused(was, tx) then was else Added(was, rows, tx)
    case Remove(txid) => now == Removed(was, txid)
    case Reconcile(valid) => now == Reconciled(was, valid)
    case Clear => now == EMPTY_OVERLAY
  }

  ghost predicate IsRun(views: seq<OverlayView>, ops: seq<Operation>) {
    && |views| == |ops| + 1
    && views[0] == EMPTY_OVERLAY
    && forall i {:trigger ops[i]} :: 0 <= i < |ops| ==> OverlayStep(views[i], ops[i], views[i + 1])
  }

  lemma {:induction false} StepExact(was: OverlayView, op: Operation, now: OverlayView)
    requires Exact(was) && OverlayStep(was, op, now)
    ensures Exact(now)
  {
    match op {
      case Add(rows, tx) => if !Refused(was, tx) { AddedExact(was, rows, tx); }
      case Remove(txid) => RemovedExact(was, txid);
      case Reconcile(valid) => ReconciledExact(was, valid);
      case Clear => EmptyExact();
    }
  }

  /** At every moment the three indexes are exactly those derived from the held transactions. */
  lemma {:induction false} RunExact(views: seq<OverlayView>, ops: seq<Operation>, i: nat)
    requires IsRun(views, ops) && i < |views|
    ensures Exact(views[i])
  {
    if i == 0 {
      EmptyExact();
    } else {
      RunExact(views, ops, i - 1);
      StepExact(views[i - 1], ops[i - 1], views[i]);
    }
  }

  /** So the held transactions determine the overlay, and no two of them share an input. */
  lemma {:induction false} RunDerived(views: seq<OverlayView>, ops: seq<Operation>, i: nat, other: OverlayView, s: Hash, t: Hash, o: OutPoint)
    requires IsRun(views, ops) && i < |views|
    ensures Exact(other) && other.transactions == views[i].transactions ==> other == views[i]
    ensures HasPrev(views[i].transactions, s, o) && HasPrev(views[i].transactions, t, o) ==> s == t
  {
    RunExact(views, ops, i);
    if Exact(other) && other.transactions == views[i].transactions {
      IndexesDerived(other, views[i]);
    }
    if HasPrev(views[i].transactions, s, o) && HasPrev(views[i].transactions, t, o) {
      NoSharedInputs(views[i], s, t, o);
    }
  }

  /** A parent with an output that its child spends, and nothing else between the two. */
  ghost predicate ParentAndChild(parent: Tx, child: Tx) {
    && parent.txid != child.txid && parent.txid != ZERO_HASH
    && parent.outs != [] && Indexable(parent.outs[0]) && child.ins == [TxIn(OutPoint(parent.txid, 0))]
    && forall o {:trigger HasInput(parent.ins, o)} :: HasInput(parent.ins, o) ==> o.txid != parent.txid && o.txid != child.txid
  }

  lemma {:induction false} ParentAdded(rows: Rows, parent: Tx, child: Tx, one: OverlayView)
    requires ParentAndChild(parent, child) && one == Added(EMPTY_OVERLAY, rows, parent)
    ensures Exact(one) && FlagsExact(one) && child.txid !in one.transactions
    ensures forall o {:trigger o in one.spentBy} :: o in one.spentBy ==> HasInput(parent.ins, o)
  {
    AddedExact(EMPTY_OVERLAY, rows, parent);
    OwnOutputs(parent);
    AddedFlags(EMPTY_OVERLAY, rows, parent);
    forall o | o in one.spentBy ensures HasInput(parent.ins, o) {
      InputsExact(EMPTY_OVERLAY.outputs, rows, parent.ins, o);
    }
  }

  lemma {:induction false} ChildAdded(rows: Rows, parent: Tx, child: Tx, one: OverlayView, two: OverlayView)
    requires ParentAndChild(parent, child) && one == Added(EMPTY_OVERLAY, rows, parent) && two == Added(one, rows, child)
    ensures NoneSpent(one.spentBy, child.ins) && Exact(two) && FlagsExact(two)
  {
    ParentAdded(rows, parent, child, one);
    assert forall p :: HasInput(child.ins, p) ==> p == OutPoint(parent.txid, 0);
    AddedExact(one, rows, child);
    OwnOutputs(child);
    AddedFlags(one, rows, child);
  }

  lemma {:induction false} ChildSpends(rows: Rows, parent: Tx, child: Tx, one: OverlayView, two: OverlayView)
    requires ParentAndChild(parent, child) && two == Added(one, rows, child)
    ensures HasPrev(two.transactions, child.txid, OutPoint(parent.txid, 0))
  {
    InputsExact(one.outputs, rows, child.ins, OutPoint(parent.txid, 0));
    assert TxIn(OutPoint(parent.txid, 0)) in child.ins;
    assert two.transactions[child.txid] == NewTx(one, rows, child);
  }

  lemma {:induction false} ChildRemoved(two: OverlayView, parent: Hash, child: Hash)
    requires Exact(two) && FlagsExact(two) && parent != child
    requires HasPrev(two.transactions, child, OutPoint(parent, 0)) && OutPoint(parent, 0) in two.outputs
    ensures !FlagsExact(Removed(two, child))
  {
    RemovedFlags(two, child);
    assert OutPoint(parent, 0) in Prevs(two.transactions[child].inputs);
  }

  lemma {:induction false} StaleFlag(rows: Rows, parent: Tx, child: Tx, one: OverlayView, two: OverlayView)
    requires ParentAndChild(parent, child) && one == Added(EMPTY_OVERLAY, rows, parent) && two == Added(one, rows, child)
    ensures !Refused(EMPTY_OVERLAY, parent) && !Refused(one, child)
    ensures FlagsExact(two) && !FlagsExact(Removed(two, child.txid))
  {
    ParentAdded(rows, parent, child, one);
    ChildAdded(rows, parent, child, one, two);
    ChildSpends(rows, parent, child, one, two);
    ListedOutput(rows, parent, child, one, two);
    ChildRemoved(two, parent.txid, child.txid);
  }

  lemma {:induction false} ThreeSteps(p: Operation, a: OverlayView, q: Operation, b: OverlayView, r: Operation, c: OverlayView)
    requires OverlayStep(EMPTY_OVERLAY, p, a) && OverlayStep(a, q, b) && OverlayStep(b, r, c)
    ensures IsRun([EMPTY_OVERLAY, a, b, c], [p, q, r])
  {
  }

  /** Such a pair, added in order, gives a run that ends on a wrong flag once the child is removed. */
  lemma {:induction false} StaleFlagRun(rows: Rows, parent: Tx, child: Tx) returns (views: seq<OverlayView>, ops: seq<Operation>)
    requires ParentAndChild(parent, child)
    ensures IsRun(views, ops) && ops == [Add(rows, parent), Add(rows, child), Remove(child.txid)]
    ensures FlagsExact(views[2]) && !FlagsExact(views[3])
  {
    var one := Added(EMPTY_OVERLAY, rows, parent);
    var two := Added(one, rows, child);
    StaleFlag(rows, parent, child, one, two);
    var three := Removed(two, child.txid);
    ThreeSteps(Add(rows, parent), one, Add(rows, child), two, Remove(child.txid), three);
    ops := [Add(rows, parent), Add(rows, child), Remove(child.txid)];
    views := [EMPTY_OVERLAY, one, two, three];
  }

  lemma {:induction false} OwnOutputs(tx: Tx)
    ensures forall o {:trigger o in OutsOf(NewOutputs(tx.txid, tx.outs))} :: o in OutsOf(NewOutputs(tx.txid, tx.outs)) ==> o.txid == tx.txid
  {
    forall v | v in NewOutputs(tx.txid, tx.outs) ensures v.out.txid == tx.txid {
      NewOutputsExact(tx.txid, tx.outs, v);
    }
  }

  lemma {:induction false} ListedOutput(rows: Rows, parent: Tx, child: Tx, one: OverlayView, two: OverlayView)
    requires parent.outs != [] && Indexable(parent.outs[0]) && parent.txid != child.txid
    requires one == Added(EMPTY_OVERLAY, rows, parent) && two == Added(one, rows, child)
    ensures OutPoint(parent.txid, 0) in two.outputs
  {
    var o := OutPoint(parent.txid, 0);
    var v := OutputView(o, parent.outs[0].scripthash, parent.outs[0].value, None);
    NewOutputsExact(parent.txid, parent.outs, v);
    assert v in NewOutputs(parent.txid, parent.outs) && v.out == o;
    var t, u := NewTx(EMPTY_OVERLAY, rows, parent), NewTx(one, rows, child);
    PutOutputsAt(KeptOutputs(EMPTY_OVERLAY, Prevs(t.inputs) * EMPTY_OVERLAY.outputs.Keys, parent.txid), t.outputs, o);
    PutOutputsAt(KeptOutputs(one, Prevs(u.inputs) * one.outputs.Keys, child.txid), u.outputs, o);
  }
}
