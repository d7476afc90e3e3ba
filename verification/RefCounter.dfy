/**
 Common/RefCounter.h: handles that share a heap-allocated unsigned counter. The counter
 starts at zero, so it holds the number of handles besides the one that created it; the
 handle destroyed at zero frees it, and the callback NoMoreRefs runs just before the
 counter would drop from one to zero.
 */
module RefCounter {

  const COUNTER_VALUES: nat := 0x1_0000_0000

  type uint32 = n: nat | n < 0x1_0000_0000

  /** ++ on an unsigned 32-bit counter. */
  function Incremented(c: uint32): uint32 {
    if c == 0xFFFF_FFFF then 0 else c + 1
  }

  /** The destructor's test for the callback. */
  predicate LastRef(c: nat) {
    c == 1
  }

  // ---------------------------------------------------------------- any sequence of handle operations

  /** One family of handles over one counter. `handles` maps the handles alive to whether they
      still point at the counter; a moved-from handle does not. `frees` and `fired` count the
      deletions of the counter and the NoMoreRefs calls so far. */
  datatype Family = Family(handles: map<nat, bool>, counter: uint32, frees: nat, fired: nat)

  datatype Op = Copy(from: nat, to: nat) | Move(from: nat, to: nat) | Destroy(handle: nat)

  function Created(owner: nat): Family {
    Family(map[owner := true], 0, 0, 0)
  }

  /** What C++ demands: operands alive, results new, and no copy of a moved-from handle, whose
      null counter would be dereferenced. */
  predicate Legal(f: Family, op: Op) {
    match op
    case Copy(from, to) => from in f.handles && f.handles[from] && to !in f.handles
    case Move(from, to) => from in f.handles && to !in f.handles
    case Destroy(h) => h in f.handles
  }

  function Apply(f: Family, op: Op): Family
    requires Legal(f, op)
  {
    match op
    case Copy(from, to) => f.(handles := f.handles[to := true], counter := Incremented(f.counter))
    case Move(from, to) => f.(handles := f.handles[to := f.handles[from]][from := false])
    case Destroy(h) =>
      var g := f.(handles := f.handles - {h});
      if !f.handles[h] then g
      else
        var g := if LastRef(f.counter) then g.(fired := g.fired + 1) else g;
        if f.counter > 0 then g.(counter := f.counter - 1) else g.(frees := g.frees + 1)
  }

  function Holders(f: Family): set<nat> {
    set h | h in f.handles && f.handles[h]
  }

  /** The counter is the number of live non-moved handles minus one, and the counter has been
      freed exactly once when there are none left. */
  ghost predicate Agrees(f: Family) {
    var n := |Holders(f)|;
    if n == 0 then f.frees == 1 else f.frees == 0 && f.counter == n - 1
  }

  lemma HoldersAfter(f: Family, op: Op)
    requires Legal(f, op)
    ensures |Holders(Apply(f, op))| == match op
              case Copy(_, _) => |Holders(f)| + 1
              case Move(_, _) => |Holders(f)|
              case Destroy(h) => if f.handles[h] then |Holders(f)| - 1 else |Holders(f)|
  {
    match op
    case Copy(from, to) => CopyAddsHolder(f, from, to);
    case Move(from, to) => MoveKeepsHolders(f, from, to);
    case Destroy(h) => DestroyDropsHolder(f, h);
  }

  lemma CopyAddsHolder(f: Family, from: nat, to: nat)
    requires Legal(f, Copy(from, to))
    ensures |Holders(Apply(f, Copy(from, to)))| == |Holders(f)| + 1
  {
    assert Holders(Apply(f, Copy(from, to))) == Holders(f) + {to};
  }

  lemma MoveKeepsHolders(f: Family, from: nat, to: nat)
    requires Legal(f, Move(from, to))
    ensures |Holders(Apply(f, Move(from, to)))| == |Holders(f)|
  {
    if f.handles[from] {
      assert from in Holders(f) && to !in Holders(f);
      assert Holders(Apply(f, Move(from, to))) == Holders(f) - {from} + {to};
    } else {
      assert Holders(Apply(f, Move(from, to))) == Holders(f);
    }
  }

  lemma DestroyDropsHolder(f: Family, h: nat)
    requires Legal(f, Destroy(h))
    ensures |Holders(Apply(f, Destroy(h)))| == |Holders(f)| - (if f.handles[h] then 1 else 0)
  {
    assert f.handles[h] <==> h in Holders(f);
    assert Holders(Apply(f, Destroy(h))) == Holders(f) - {h};
  }

  /** Who points at the counter afterwards: a copy does besides, a move hands the pointer over if there is
      one, and a destroyed handle is gone. */
  lemma HoldersChange(f: Family, op: Op)
    requires Legal(f, op)
    ensures var g := Apply(f, op);
            match op
            case Copy(_, to) => Holders(g) == Holders(f) + {to} && g.handles.Keys == f.handles.Keys + {to}
            case Move(from, to) =>
              && Holders(g) == (if from in Holders(f) then Holders(f) - {from} + {to} else Holders(f))
              && g.handles.Keys == f.handles.Keys + {to}
            case Destroy(h) => Holders(g) == Holders(f) - {h} && g.handles.Keys == f.handles.Keys - {h}
  {}

  /** One operation keeps the agreement unless it makes the 2^32+1st holder; the callback fires
      exactly when a destruction takes the holders from two to one. */
  lemma AgreesAfter(f: Family, op: Op)
    requires Legal(f, op) && Agrees(f)
    ensures Agrees(Apply(f, op)) <==> |Holders(Apply(f, op))| <= COUNTER_VALUES
    ensures var g := Apply(f, op);
            g.fired == f.fired + (if |Holders(f)| == 2 && |Holders(g)| == 1 then 1 else 0)
  {
    HoldersAfter(f, op);
    if op.Destroy? && f.handles[op.handle] {
      assert op.handle in Holders(f);
    }
    if op.Copy? {
      assert op.from in Holders(f);
    }
  }

  ghost predicate LegalRun(f: Family, ops: seq<Op>)
    decreases |ops|
  {
    ops == [] || (Legal(f, ops[0]) && LegalRun(Apply(f, ops[0]), ops[1..]))
  }

  function Run(f: Family, ops: seq<Op>): Family
    requires LegalRun(f, ops)
    decreases |ops|
  {
    if ops == [] then f else Run(Apply(f, ops[0]), ops[1..])
  }

  /** No more than 2^32 holders at any moment. */
  ghost predicate Bounded(f: Family, ops: seq<Op>)
    requires LegalRun(f, ops)
    decreases |ops|
  {
    |Holders(f)| <= COUNTER_VALUES && (ops == [] || Bounded(Apply(f, ops[0]), ops[1..]))
  }

  ghost predicate AlwaysAgrees(f: Family, ops: seq<Op>)
    requires LegalRun(f, ops)
    decreases |ops|
  {
    Agrees(f) && (ops == [] || AlwaysAgrees(Apply(f, ops[0]), ops[1..]))
  }

  /** Over a whole run the counter is right at every moment exactly when there are never more
      than 2^32 holders. */
  lemma {:induction false} CountingIsExact(owner: nat, ops: seq<Op>)
    requires LegalRun(Created(owner), ops)
    ensures AlwaysAgrees(Created(owner), ops) <==> Bounded(Created(owner), ops)
  {
    assert Holders(Created(owner)) == {owner};
    CountingIsExactFrom(Created(owner), ops);
  }

  lemma {:induction false} CountingIsExactFrom(f: Family, ops: seq<Op>)
    requires LegalRun(f, ops) && Agrees(f) && |Holders(f)| <= COUNTER_VALUES
    ensures AlwaysAgrees(f, ops) <==> Bounded(f, ops)
    decreases |ops|
  {
    if ops != [] {
      var g := Apply(f, ops[0]);
      AgreesAfter(f, ops[0]);
      if Agrees(g) {
        CountingIsExactFrom(g, ops[1..]);
      }
    }
  }

  /** `k` copies of the first handle, under the names from n on. */
  function Copying(owner: nat, k: nat, n: nat): seq<Op> {
    if k == 0 then [] else [Copy(owner, n)] + Copying(owner, k - 1, n + 1)
  }

  lemma {:induction false} CopyingIsLegal(f: Family, owner: nat, k: nat, n: nat)
    requires owner in f.handles && f.handles[owner]
    requires forall h :: h in f.handles ==> h < n
    ensures LegalRun(f, Copying(owner, k, n))
    ensures |Holders(Run(f, Copying(owner, k, n)))| == |Holders(f)| + k
    decreases k
  {
    if k > 0 {
      var op := Copy(owner, n);
      assert Copying(owner, k, n)[1..] == Copying(owner, k - 1, n + 1);
      HoldersAfter(f, op);
      CopyingIsLegal(Apply(f, op), owner, k - 1, n + 1);
    }
  }

  /** Copies alone reach every number of holders; from 2^32 copies on, and not before, the counter is
      wrong at some moment of the run. */
  lemma CopiesOverrunTheCounter(owner: nat, k: nat)
    ensures LegalRun(Created(owner), Copying(owner, k, owner + 1))
    ensures |Holders(Run(Created(owner), Copying(owner, k, owner + 1)))| == k + 1
    ensures AlwaysAgrees(Created(owner), Copying(owner, k, owner + 1)) <==> k < COUNTER_VALUES
  {
    var f, ops := Created(owner), Copying(owner, k, owner + 1);
    assert Holders(f) == {owner};
    CopyingIsLegal(f, owner, k, owner + 1);
    CountingIsExact(owner, ops);
    CopyingIsBounded(f, owner, k, owner + 1);
  }

  lemma {:induction false} CopyingIsBounded(f: Family, owner: nat, k: nat, n: nat)
    requires owner in f.handles && f.handles[owner]
    requires forall h :: h in f.handles ==> h < n
    requires LegalRun(f, Copying(owner, k, n))
    ensures Bounded(f, Copying(owner, k, n)) <==> |Holders(f)| + k <= COUNTER_VALUES
    decreases k
  {
    if k > 0 {
      var op := Copy(owner, n);
      assert Copying(owner, k, n)[1..] == Copying(owner, k - 1, n + 1);
      HoldersAfter(f, op);
      CopyingIsBounded(Apply(f, op), owner, k - 1, n + 1);
    }
  }

  /** While the handles stay bounded, a run that has destroyed every handle has freed the counter
      exactly once, and one that has not has never freed it. */
  lemma {:induction false} FreedExactlyOnce(f: Family, ops: seq<Op>)
    requires LegalRun(f, ops) && Agrees(f) && Bounded(f, ops)
    ensures Run(f, ops).frees == if Holders(Run(f, ops)) == {} then 1 else 0
    decreases |ops|
  {
    if ops != [] {
      AgreesAfter(f, ops[0]);
      FreedExactlyOnce(Apply(f, ops[0]), ops[1..]);
    } else {
      assert Holders(f) == {} <==> |Holders(f)| == 0;
    }
  }

  /** How often a destruction takes the holders from two to one. */
  function Drops(f: Family, ops: seq<Op>): nat
    requires LegalRun(f, ops)
    decreases |ops|
  {
    if ops == [] then 0
    else
      var g := Apply(f, ops[0]);
      (if ops[0].Destroy? && |Holders(f)| == 2 && |Holders(g)| == 1 then 1 else 0) + Drops(g, ops[1..])
  }

  /** Over a whole bounded run the callback fires exactly as often as that. */
  lemma {:induction false} FiredPerDrop(f: Family, ops: seq<Op>)
    requires LegalRun(f, ops) && Agrees(f) && Bounded(f, ops)
    ensures Run(f, ops).fired == f.fired + Drops(f, ops)
    decreases |ops|
  {
    if ops != [] {
      AgreesAfter(f, ops[0]);
      HoldersAfter(f, ops[0]);
      FiredPerDrop(Apply(f, ops[0]), ops[1..]);
    }
  }

  // ---------------------------------------------------------------- the class

  class Counter {
    var value: uint32
    var freed: bool

    constructor ()
      ensures value == 0 && !freed
    {
      value, freed := 0, false;
    }
  }

  ghost function HandlesOn(c: Counter, live: set<Handle>): set<Handle>
    reads live
  {
    set h | h in live && h.counter == c
  }

  /** `c` counts the handles of `live` that point at it. */
  ghost predicate Counts(c: Counter, live: set<Handle>)
    reads c, live
  {
    var n := |HandlesOn(c, live)|;
    if n == 0 then c.freed else !c.freed && c.value == n - 1
  }

  class Handle {
    var counter: Counter?

    constructor Create()
      ensures counter != null && fresh(counter)
      ensures Counts(counter, {this})
    {
      counter := new Counter();
      new;
      assert HandlesOn(counter, {this}) == {this};
    }

    constructor Copy(other: Handle, ghost live: set<Handle>)
      requires other in live && other.counter != null
      requires Counts(other.counter, live)
      modifies other.counter
      ensures counter == other.counter
      ensures Counts(counter, live + {this}) <==> |HandlesOn(counter, live + {this})| <= COUNTER_VALUES
      ensures |HandlesOn(counter, live + {this})| == old(|HandlesOn(other.counter, live)|) + 1
    {
      counter := other.counter;
      new;
      assert other in HandlesOn(other.counter, live);
      counter.value := Incremented(counter.value);
      assert HandlesOn(counter, live + {this}) == old(HandlesOn(other.counter, live)) + {this};
    }

    constructor Move(other: Handle, ghost live: set<Handle>)
      requires other in live
      requires other.counter != null ==> Counts(other.counter, live)
      modifies other
      ensures counter == old(other.counter) && other.counter == null
      ensures counter != null ==> Counts(counter, live + {this})
      ensures counter != null ==>
                |HandlesOn(counter, live + {this})| == old(|HandlesOn(other.counter, live)|)
    {
      counter := other.counter;
      new;
      other.counter := null;
      if counter != null {
        assert HandlesOn(counter, live + {this}) == old(HandlesOn(other.counter, live)) - {other} + {this};
      }
    }

    /** The destructor. `noMoreRefs` says whether the callback ran; it runs before the counter is
        lowered. */
    method Destroy(ghost live: set<Handle>) returns (noMoreRefs: bool)
      requires this in live
      requires counter != null ==> Counts(counter, live)
      modifies this, counter
      ensures counter == null
      ensures old(counter) == null ==> !noMoreRefs
      ensures old(counter) != null ==> Counts(old(counter), live - {this})
      ensures old(counter) != null ==> (noMoreRefs <==> old(|HandlesOn(counter, live)|) == 2)
      ensures old(counter) != null ==> (old(counter).freed <==> old(|HandlesOn(counter, live)|) == 1)
    {
      noMoreRefs := false;
      if counter != null {
        var c := counter;
        assert this in HandlesOn(c, live);
        noMoreRefs := LastRef(c.value);
        if c.value > 0 {
          c.value := c.value - 1;
        } else {
          c.freed := true;
        }
        counter := null;
        assert HandlesOn(c, live - {this}) == old(HandlesOn(counter, live)) - {this};
      }
    }
  }
}
