/** The address-assignment phase: one forward pass with a running address
    counter that binds labels and fills in each jump's `mem` field. */
module Addressing {
  import opened Locations
  import opened Instructions

  /** How far one instruction advances the counter. A jump adds 3 (a `jmz`
      adds 5) and then, not being a label, takes the common increment too. */
  function Size(i: Instr): (n: nat)
    ensures i.ILbl? <==> n == 0
  {
    match i
    case ILbl(_) => 0
    case IJmp(_, _) => 3 + 1
    case IJmz(_, _, _) => 5 + 1
    case _ => 1
  }

  /** The counter after the pass has walked over `prog`. */
  function EndAddr(prog: seq<Instr>): nat
  {
    if prog == [] then 0 else EndAddr(prog[..|prog| - 1]) + Size(prog[|prog| - 1])
  }

  /** The counter when the pass reaches instruction k. */
  function StartAddr(prog: seq<Instr>, k: nat): nat
    requires k <= |prog|
  {
    EndAddr(prog[..k])
  }

  /** What the pass writes into one instruction starting at `start`. */
  function WithMem(i: Instr, start: nat): (r: Instr)
    ensures Size(r) == Size(i)
    ensures !IsJump(i) ==> r == i
    ensures i.IJmp? ==> r == IJmp(i.tt, FixAddr(start + 1))
    ensures i.IJmz? ==> r == IJmz(i.tt, i.ss, FixAddr(start + 1))
  {
    match i
    case IJmp(t, _) => IJmp(t, FixAddr(start + 1))
    case IJmz(t, s, _) => IJmz(t, s, FixAddr(start + 1))
    case _ => i
  }

  /** The program after the pass. */
  function Assigned(prog: seq<Instr>): (r: seq<Instr>)
    ensures |r| == |prog|
  {
    if prog == [] then []
    else
      var init := prog[..|prog| - 1];
      Assigned(init) + [WithMem(prog[|prog| - 1], EndAddr(init))]
  }

  /** After the pass every jump's `mem` holds the rendered address one past the
      jump's own start, and nothing else has changed. */
  lemma {:induction false} AssignedAt(prog: seq<Instr>, k: nat)
    requires k < |prog|
    ensures Assigned(prog)[k] == WithMem(prog[k], StartAddr(prog, k))
  {
    var init := prog[..|prog| - 1];
    if k < |init| {
      AssignedAt(init, k);
      assert init[..k] == prog[..k];
    } else {
      assert prog[..k] == init;
    }
  }

  /** The label table the pass builds: each `lbl` binds its name to the
      counter, a later binding of the same name replacing an earlier one. */
  function LabelTable(prog: seq<Instr>): LabelMap
  {
    if prog == [] then map[]
    else
      var init := prog[..|prog| - 1];
      match prog[|prog| - 1]
      case ILbl(n) => LabelTable(init)[n := EndAddr(init)]
      case _ => LabelTable(init)
  }

  /** The counter only moves forward: one step over instruction k adds its size. */
  lemma {:induction false} StartAddrStep(prog: seq<Instr>, k: nat)
    requires k < |prog|
    ensures StartAddr(prog, k + 1) == StartAddr(prog, k) + Size(prog[k])
  {
    assert prog[..k + 1][..k] == prog[..k];
  }

  /** Instruction j's whole reservation lies before the start of any later k. */
  lemma {:induction false} StartAddrMonotone(prog: seq<Instr>, j: nat, k: nat)
    requires j < k <= |prog|
    ensures StartAddr(prog, j) + Size(prog[j]) <= StartAddr(prog, k)
  {
    StartAddrStep(prog, k - 1);
    if j < k - 1 {
      StartAddrMonotone(prog, j, k - 1);
    }
  }

  /** Non-label instructions get strictly increasing start addresses, so no two
      of them share one. */
  lemma NonLabelStartsIncrease(prog: seq<Instr>, j: nat, k: nat)
    requires j < k < |prog| && !prog[j].ILbl?
    ensures StartAddr(prog, j) < StartAddr(prog, k)
  {
    StartAddrMonotone(prog, j, k);
  }

  /** A label marker is zero-width: its address is the start address of the
      first non-label instruction after it. */
  lemma {:induction false} LabelMarksNext(prog: seq<Instr>, k: nat, j: nat)
    requires k < j < |prog|
    requires forall m :: k <= m < j ==> prog[m].ILbl?
    ensures StartAddr(prog, j) == StartAddr(prog, k)
  {
    StartAddrStep(prog, j - 1);
    if k < j - 1 {
      LabelMarksNext(prog, k, j - 1);
    }
  }

  /** A name is bound exactly when some `lbl` declares it, and it is bound to
      the counter at its LAST declaration. */
  lemma {:induction false} LabelTableBinding(prog: seq<Instr>, k: nat)
    requires k < |prog| && prog[k].ILbl?
    requires forall m :: k < m < |prog| ==> prog[m] != ILbl(prog[k].name)
    ensures prog[k].name in LabelTable(prog)
    ensures LabelTable(prog)[prog[k].name] == StartAddr(prog, k)
  {
    var init := prog[..|prog| - 1];
    if k < |prog| - 1 {
      LabelTableBinding(init, k);
      assert init[..k] == prog[..k];
    } else {
      assert init == prog[..k];
    }
  }

  lemma {:induction false} LabelTableDomain(prog: seq<Instr>, n: string)
    ensures n in LabelTable(prog) <==> exists k :: 0 <= k < |prog| && prog[k] == ILbl(n)
  {
    if prog != [] {
      var init := prog[..|prog| - 1];
      LabelTableDomain(init, n);
      if n in LabelTable(init) {
        var k :| 0 <= k < |init| && init[k] == ILbl(n);
        assert prog[k] == ILbl(n);
      }
      if exists k :: 0 <= k < |prog| && prog[k] == ILbl(n) {
        var k :| 0 <= k < |prog| && prog[k] == ILbl(n);
        if k < |init| {
          assert init[k] == ILbl(n);
        }
      }
    }
  }

  /** Every bound address is at most the final counter. */
  lemma {:induction false} LabelTableBounded(prog: seq<Instr>, n: string)
    requires n in LabelTable(prog)
    ensures LabelTable(prog)[n] <= EndAddr(prog)
  {
    var init := prog[..|prog| - 1];
    if prog[|prog| - 1] != ILbl(n) {
      LabelTableBounded(init, n);
    }
  }

  /** Running the pass again over its own output changes nothing: jump sizes do
      not depend on `mem`, so every jump gets the same field again. */
  lemma {:induction false} AssignIdempotent(prog: seq<Instr>)
    ensures EndAddr(Assigned(prog)) == EndAddr(prog)
    ensures LabelTable(Assigned(prog)) == LabelTable(prog)
    ensures Assigned(Assigned(prog)) == Assigned(prog)
  {
    if prog != [] {
      var init := prog[..|prog| - 1];
      var a := Assigned(prog);
      assert a[..|a| - 1] == Assigned(init);
      AssignIdempotent(init);
      var aa := Assigned(a);
      forall k | 0 <= k < |a|
        ensures aa[k] == a[k]
      {
        AssignedPrefix(prog, k);
        AssignedAt(a, k);
        AssignedAt(prog, k);
        assert a[..k] == Assigned(prog)[..k];
      }
    }
  }

  /** The pass leaves the counter of every prefix unchanged. */
  lemma {:induction false} AssignedPrefix(prog: seq<Instr>, k: nat)
    requires k <= |prog|
    ensures Assigned(prog)[..k] == Assigned(prog[..k])
    ensures EndAddr(Assigned(prog)[..k]) == EndAddr(prog[..k])
  {
    var a := Assigned(prog);
    var p := prog[..k];
    forall m | 0 <= m < k
      ensures a[m] == Assigned(p)[m] && Size(a[m]) == Size(p[m])
    {
      assert p[..m] == prog[..m];
      AssignedAt(prog, m);
      AssignedAt(p, m);
    }
    assert a[..k] == Assigned(p);
    SameSizesSameEnd(a[..k], p);
  }

  lemma {:induction false} SameSizesSameEnd(a: seq<Instr>, b: seq<Instr>)
    requires |a| == |b|
    requires forall m :: 0 <= m < |a| ==> Size(a[m]) == Size(b[m])
    ensures EndAddr(a) == EndAddr(b)
  {
    if a != [] {
      SameSizesSameEnd(a[..|a| - 1], b[..|b| - 1]);
    }
  }
}
