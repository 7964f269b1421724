/**
  The open/closed state machine of the inventory panel, as values.
  The close callback is observed as a counter of how often it has fired.
 */
module PanelLifecycle {

  /** What the state machine changes: the open flag, the close button's
      visibility and the number of close-callback firings so far. */
  datatype Panel = Panel(isOpen: bool, closeButtonVisible: bool, closeCalls: nat)

  datatype Op = OpenOp | CloseOp | ToggleOp

  /** Open: the panel is open and its close button shown; the callback does not fire. */
  function Open(p: Panel): (r: Panel)
    ensures r.isOpen && r.closeButtonVisible
    ensures r.closeCalls == p.closeCalls
  {
    p.(isOpen := true, closeButtonVisible := true)
  }

  /** Close: the panel is closed, its button hidden, and the callback fires once,
      whether or not the panel was open before (there is no guard). */
  function Close(p: Panel): (r: Panel)
    ensures !r.isOpen && !r.closeButtonVisible
    ensures r.closeCalls == p.closeCalls + 1
  {
    Panel(false, false, p.closeCalls + 1)
  }

  /** Toggle dispatches on the open flag: it negates it, keeps the button in
      step with it, and fires the callback only when the panel was open. */
  function Toggle(p: Panel): (r: Panel)
    ensures r.isOpen == !p.isOpen
    ensures r.closeButtonVisible == r.isOpen
    ensures r.closeCalls == if p.isOpen then p.closeCalls + 1 else p.closeCalls
  {
    if p.isOpen then Close(p) else Open(p)
  }

  function Step(p: Panel, op: Op): Panel
  {
    match op
    case OpenOp => Open(p)
    case CloseOp => Close(p)
    case ToggleOp => Toggle(p)
  }

  /** The panel after the operations of `ops`, applied left to right. */
  function Run(p: Panel, ops: seq<Op>): Panel
    decreases |ops|
  {
    if ops == [] then p else Run(Step(p, ops[0]), ops[1..])
  }

  function Count(ops: seq<Op>, op: Op): nat
    decreases |ops|
  {
    if ops == [] then 0 else (if ops[0] == op then 1 else 0) + Count(ops[1..], op)
  }

  function Toggles(n: nat): (ops: seq<Op>)
    ensures |ops| == n && forall i :: 0 <= i < n ==> ops[i] == ToggleOp
  {
    seq(n, _ => ToggleOp)
  }

  /**
    Over any sequence of operations: every Close fires the callback, every Toggle
    fires it at most once and nothing else fires it; without toggles the number of
    firings is exactly the number of Close calls; after at least one operation the
    close button is visible exactly when the panel is open; and the last operation,
    when it is an Open or a Close, decides the open flag.
   */
  lemma {:induction false} RunCloseCalls(p: Panel, ops: seq<Op>)
    ensures Count(ops, CloseOp) <= Run(p, ops).closeCalls - p.closeCalls
                                 <= Count(ops, CloseOp) + Count(ops, ToggleOp)
    ensures ToggleOp !in ops ==> Run(p, ops).closeCalls == p.closeCalls + Count(ops, CloseOp)
    ensures ops != [] ==> Run(p, ops).closeButtonVisible == Run(p, ops).isOpen
    ensures ops != [] && ops[|ops| - 1] == OpenOp ==> Run(p, ops).isOpen
    ensures ops != [] && ops[|ops| - 1] == CloseOp ==> !Run(p, ops).isOpen
    decreases |ops|
  {
    if ops != [] {
      var q := Step(p, ops[0]);
      RunCloseCalls(q, ops[1..]);
      if ToggleOp !in ops {
        assert ToggleOp !in ops[1..] by {
          forall i | 0 <= i < |ops[1..]| ensures ops[1..][i] != ToggleOp {
            assert ops[1..][i] == ops[i + 1];
          }
        }
      }
      if |ops| > 1 {
        assert ops[1..][|ops[1..]| - 1] == ops[|ops| - 1];
      }
    }
  }

  /**
    Toggling n times from p leaves the panel open exactly when the parity of n
    flips p's flag, and fires the callback once for every toggle that starts open:
    (n + 1) / 2 times from an open panel, n / 2 times from a closed one.
   */
  lemma {:induction false} RunToggles(p: Panel, n: nat)
    ensures Run(p, Toggles(n)).isOpen == (p.isOpen != (n % 2 == 1))
    ensures Run(p, Toggles(n)).closeCalls == p.closeCalls + (n + (if p.isOpen then 1 else 0)) / 2
    decreases n
  {
    if n > 0 {
      assert Toggles(n)[1..] == Toggles(n - 1);
      RunToggles(Toggle(p), n - 1);
    }
  }
}
