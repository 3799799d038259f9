/** What keeps a handle open: two counts under one lock, and the callback that the last of them hands out. */
module ControlState {
  import opened Wrappers

  /** What the control lock guards. */
  datatype Control = Control(submissions: nat, children: nat, closing: bool, callback: Option<nat>)

  const OPEN := Control(0, 0, false, None)

  predicate Drained(c: Control) {
    c.closing && c.submissions == 0 && c.children == 0
  }

  function Acquire(c: Control): Control {
    if c.closing then c else c.(submissions := c.submissions + 1)
  }

  function RetainChild(c: Control): Control {
    if c.closing then c else c.(children := c.children + 1)
  }

  /** `release_count`: one lease or child fewer. */
  function Lower(c: Control, child: bool): Control
    requires if child then c.children > 0 else c.submissions > 0
  {
    if child then c.(children := c.children - 1) else c.(submissions := c.submissions - 1)
  }

  /** `release_count`: the last one out takes the drained callback. */
  function Release(c: Control, child: bool): Control
    requires if child then c.children > 0 else c.submissions > 0
  {
    var lower := Lower(c, child);
    if Drained(lower) then lower.(callback := None) else lower
  }

  function Taken(c: Control, child: bool): Option<nat>
    requires if child then c.children > 0 else c.submissions > 0
  {
    if Drained(Lower(c, child)) then c.callback else None
  }

  predicate CanClose(c: Control, deferChildren: bool) {
    !c.closing && (deferChildren || c.children == 0)
  }

  function BeginClose(c: Control, deferChildren: bool): Control {
    if CanClose(c, deferChildren) then c.(closing := true) else c
  }

  function Notify(c: Control, callback: nat): Control {
    if Drained(c) then c else c.(callback := Some(callback))
  }

  /** The class of the source. Each method is its block under the lock, and returns the callback that it
      runs outside. `early` is whether closing found a callback stored and nothing to count. */
  class State {
    var submissions: nat
    var children: nat
    var closing: bool
    var callback: Option<nat>
    ghost var early: bool

    function View(): Control
      reads this
    {
      Control(submissions, children, closing, callback)
    }

    /** A drained handle has handed its callback out, unless it drained as it began to close. */
    ghost predicate Valid()
      reads this
    {
      early <==> Drained(View()) && callback.Some?
    }

    constructor ()
      ensures Valid() && View() == OPEN
    {
      submissions, children, closing, callback, early := 0, 0, false, None, false;
    }

    method TryAcquire() returns (acquired: bool)
      requires Valid()
      modifies `submissions
      ensures Valid() && acquired == !closing && View() == Acquire(old(View()))
      ensures submissions == old(submissions) + if closing then 0 else 1
    {
      if closing {
        return false;
      }
      submissions := submissions + 1;
      return true;
    }

    method TryRetainChild() returns (retained: bool)
      requires Valid()
      modifies `children
      ensures Valid() && retained == !closing && View() == RetainChild(old(View()))
      ensures children == old(children) + if closing then 0 else 1
    {
      if closing {
        return false;
      }
      children := children + 1;
      return true;
    }

    /** The last count of a closing handle hands out the callback, and then none is stored. */
    method ReleaseCount(child: bool) returns (run: Option<nat>)
      requires Valid() && if child then children > 0 else submissions > 0
      modifies `submissions, `children, `callback
      ensures Valid() && !early
      ensures View() == Release(old(View()), child) && run == Taken(old(View()), child)
      ensures submissions == old(submissions) - (if child then 0 else 1) && children == old(children) - if child then 1 else 0
      ensures if closing && submissions == 0 && children == 0 then run == old(callback) && callback == None
              else run == None && callback == old(callback)
    {
      if child {
        children := children - 1;
      } else {
        submissions := submissions - 1;
      }
      run := None;
      if closing && submissions == 0 && children == 0 {
        run, callback := callback, None;
      }
    }

    method TryBeginClose(deferChildren: bool) returns (ok: bool)
      requires Valid()
      modifies `closing, `early
      ensures Valid() && ok == CanClose(old(View()), deferChildren) && View() == BeginClose(old(View()), deferChildren)
      ensures ok <==> !old(closing) && (deferChildren || children == 0)
      ensures closing == (old(closing) || ok)
      ensures early == (old(early) || (ok && submissions == 0 && children == 0 && callback.Some?))
    {
      if closing {
        return false;
      }
      if !deferChildren && children != 0 {
        return false;
      }
      closing := true;
      early := submissions == 0 && children == 0 && callback.Some?;
      return true;
    }

    /** A drained handle runs the caller's callback before the return; any other stores it over an older one. */
    method NotifyWhenDrained(notify: nat) returns (ready: bool)
      requires Valid()
      modifies `callback
      ensures Valid() && ready == Drained(old(View())) && View() == Notify(old(View()), notify)
      ensures ready <==> closing && submissions == 0 && children == 0
      ensures callback == if ready then old(callback) else Some(notify)
    {
      ready := closing && submissions == 0 && children == 0;
      if !ready {
        callback := Some(notify);
      }
    }
  }
}
