/**
 A run in which a task becomes READY although one of its parents has not even been committed: the
 scan of its commit and the notification pass of the other parent both count that parent's completion.
 */
module TasksEarly {
  import opened Tasks

  lemma Do(acts: seq<Action>, a: Action) returns (more: seq<Action>)
    ensures Run(more) == Next(Run(acts), a)
  {
    more := acts + [a];
    assert more[..|acts|] == acts;
  }

  const LATE := Task(false, IDLE, 0, [], [], false, 0, 0, 0, 0, 0, 0)
  const WAITING := LATE.(deps := [NewEdge(0), NewEdge(1)])

  lemma Three() returns (acts: seq<Action>)
    ensures Run(acts) == State([LATE.(barrier := true), LATE, LATE], [], [], false)
  {
    acts := [];
    acts := Do(acts, Create(true));
    assert Run(acts).tasks == [LATE.(barrier := true)];
    acts := Do(acts, Create(false));
    assert Run(acts).tasks == [LATE.(barrier := true), LATE];
    acts := Do(acts, Create(false));
    assert Run(acts).tasks == [LATE.(barrier := true), LATE, LATE];
  }

  /** A dependency is added to the last of three tasks. */
  lemma AddTo(s: State, a: Task, b: Task, c: Task, p: nat)
    requires s.tasks == [a, b, c] && c.status == IDLE && p < 3
    ensures Next(s, AddDep(2, p)) == s.(tasks := [a, b, c.(deps := c.deps + [NewEdge(p)])])
  {
    assert [a, b, c][2 := c.(deps := c.deps + [NewEdge(p)])] == [a, b, c.(deps := c.deps + [NewEdge(p)])];
  }

  /** Record `i` of the last task goes on the list of parent `i`. */
  lemma WireFrom(s: State, u: Frame, a: Task, b: Task, c: Task, i: nat, e: Edge)
    requires s.tasks == [a, b, c] && s.acts == [u, Commit(2, i, Wire)] && i < |c.deps| && i < 2
    requires c.deps[i] == e && e.parent == i
    ensures var s' := Next(s, Go(1));
      && s'.tasks == [if i == 0 then a.(childs := a.childs + [Ref(2, i)]) else a,
                      if i == 1 then b.(childs := b.childs + [Ref(2, i)]) else b,
                      c.(deps := c.deps[i := e.(wired := true)])]
      && s'.acts == [u, Commit(2, i + 1, Wire)] && s'.requeued == s.requeued
  {
    var c' := c.(deps := c.deps[i := e.(wired := true)]);
    assert [a, b, c][2 := c'] == [a, b, c'];
    if i == 0 {
      assert [a, b, c'][0 := a.(childs := a.childs + [Ref(2, i)])] == [a.(childs := a.childs + [Ref(2, i)]), b, c'];
    } else {
      assert [a, b, c'][1 := b.(childs := b.childs + [Ref(2, i)])] == [a, b.(childs := b.childs + [Ref(2, i)]), c'];
    }
  }

  /** Task 0 is a barrier, task 1 is never committed, task 2 depends on both. */
  lemma Graph() returns (acts: seq<Action>)
    ensures Run(acts) == State([LATE.(barrier := true), LATE, WAITING], [], [], false)
  {
    acts := Three();
    AddTo(Run(acts), LATE.(barrier := true), LATE, LATE, 0);
    acts := Do(acts, AddDep(2, 0));
    AddTo(Run(acts), LATE.(barrier := true), LATE, LATE.(deps := [] + [NewEdge(0)]), 1);
    acts := Do(acts, AddDep(2, 1));
    assert [] + [NewEdge(0)] + [NewEdge(1)] == WAITING.deps;
  }

  const BARRIER := Task(true, FINAL, 0, [], [], true, 0, 0, 0, 0, 0, 0)

  /** The barrier is committed and gets as far as the last status change. */
  lemma BarrierInit(before: seq<Action>) returns (acts: seq<Action>)
    requires Run(before).tasks == [LATE.(barrier := true), LATE, WAITING]
      && Run(before).acts == [Update(0, IDLE, DEPHOLD)]
    ensures var s' := Run(acts); s'.tasks == [ALMOST, LATE, WAITING] && s'.acts == [Update(0, DEPHOLD, READY)]
    ensures Run(acts).requeued == Run(before).requeued
  {
    var t := LATE.(barrier := true, status := DEPHOLD);
    acts := Do(before, Go(0));
    var s1 := Run(acts);
    assert s1.tasks == [t, LATE, WAITING] && s1.acts == [Notify(0, DEPHOLD, 0, Head)];
    acts := Do(acts, Go(0));
    var s2 := Run(acts);
    assert s2.tasks == [t, LATE, WAITING] && s2.acts == [Commit(0, 0, Init)];
    acts := Do(acts, Go(0));
    var s3 := Run(acts);
    assert s3.tasks == [t.(inited := true), LATE, WAITING] && s3.acts == [Update(0, DEPHOLD, READY)];
  }

  const ALMOST := BARRIER.(status := DEPHOLD)

  lemma BarrierReady(before: seq<Action>) returns (acts: seq<Action>)
    requires Run(before).tasks == [ALMOST, LATE, WAITING] && Run(before).acts == [Update(0, DEPHOLD, READY)]
    ensures var s' := Run(acts);
      s'.tasks == [ALMOST.(status := READY), LATE, WAITING] && s'.acts == [Update(0, READY, FINAL)]
    ensures Run(acts).requeued == Run(before).requeued
  {
    acts := Do(before, Go(0));
    var s4 := Run(acts);
    assert s4.tasks == [ALMOST.(status := READY), LATE, WAITING] && s4.acts == [Notify(0, READY, 0, Head)];
    acts := Do(acts, Go(0));
  }

  lemma BarrierFinal(before: seq<Action>) returns (acts: seq<Action>)
    requires Run(before).tasks == [ALMOST, LATE, WAITING] && Run(before).acts == [Update(0, DEPHOLD, READY)]
    ensures var s' := Run(acts); s'.tasks == [BARRIER, LATE, WAITING] && s'.acts == [Update(0, FINAL, COMPLETED)]
    ensures Run(acts).requeued == Run(before).requeued
  {
    acts := BarrierReady(before);
    acts := Do(acts, Go(0));
    var s6 := Run(acts);
    assert s6.acts == [Notify(0, FINAL, 0, Head)] && s6.tasks == [BARRIER, LATE, WAITING];
    acts := Do(acts, Go(0));
  }

  const WIRED := [NewEdge(0).(wired := true), NewEdge(1).(wired := true)]
  const COMMITTED := Task(false, DEPHOLD, 2, WIRED, [], true, 1, 0, 0, 0, 0, 0)

  const UNWIRED := WAITING.(status := DEPHOLD, committer := 1, inited := true, counter := 2)

  /** Task 2 is committed and puts itself on both parents' lists. */
  lemma ChildInit(before: seq<Action>) returns (acts: seq<Action>)
    requires Run(before).tasks == [BARRIER, LATE, WAITING]
    requires Run(before).acts == [Update(0, FINAL, COMPLETED), Update(2, IDLE, DEPHOLD)]
    ensures var s' := Run(acts);
      && s'.tasks == [BARRIER, LATE, UNWIRED]
      && s'.acts == [Update(0, FINAL, COMPLETED), Commit(2, 0, Wire)] && s'.requeued == Run(before).requeued
  {
    var u := Update(0, FINAL, COMPLETED);
    var t := WAITING.(status := DEPHOLD, committer := 1);
    acts := Do(before, Go(1));
    var s1 := Run(acts);
    assert s1.tasks == [BARRIER, LATE, t] && s1.acts == [u, Notify(2, DEPHOLD, 0, Head)];
    acts := Do(acts, Go(1));
    var s2 := Run(acts);
    assert s2.tasks == [BARRIER, LATE, t] && s2.acts == [u, Commit(2, 0, Init)];
    acts := Do(acts, Go(1));
    var s3 := Run(acts);
    assert s3.tasks == [BARRIER, LATE, UNWIRED] && s3.acts == [u, Commit(2, 0, Wire)];
  }

  const HALFWAY := UNWIRED.(deps := [NewEdge(0).(wired := true), NewEdge(1)])

  lemma ChildWired(before: seq<Action>) returns (acts: seq<Action>)
    requires Run(before).tasks == [BARRIER, LATE, UNWIRED]
    requires Run(before).acts == [Update(0, FINAL, COMPLETED), Commit(2, 0, Wire)]
    ensures var s' := Run(acts);
      && s'.tasks == [BARRIER.(childs := [Ref(2, 0)]), LATE.(childs := [Ref(2, 1)]), COMMITTED]
      && s'.acts == [Update(0, FINAL, COMPLETED), Commit(2, 2, Wire)] && s'.requeued == Run(before).requeued
  {
    var u, first := Update(0, FINAL, COMPLETED), BARRIER.(childs := [Ref(2, 0)]);
    assert [] + [Ref(2, 0)] == [Ref(2, 0)] && [] + [Ref(2, 1)] == [Ref(2, 1)];
    WireFrom(Run(before), u, BARRIER, LATE, UNWIRED, 0, NewEdge(0));
    acts := Do(before, Go(1));
    assert UNWIRED.deps[0 := NewEdge(0).(wired := true)] == HALFWAY.deps;
    assert UNWIRED.(deps := HALFWAY.deps) == HALFWAY;
    WireFrom(Run(acts), u, first, LATE, HALFWAY, 1, NewEdge(1));
    acts := Do(acts, Go(1));
    assert HALFWAY.deps[1 := NewEdge(1).(wired := true)] == WIRED;
    assert HALFWAY.(deps := WIRED) == COMMITTED;
  }

  const TOLD := [NewEdge(0).(wired := true, told := true, stat := COMPLETED), NewEdge(1).(wired := true)]
  const COUNTED := [TOLD[0].(decN := true), NewEdge(1).(wired := true)]

  /** The barrier completes and its pass counts the completion. */
  lemma PassCounts(before: seq<Action>) returns (acts: seq<Action>)
    requires Run(before).tasks == [BARRIER.(childs := [Ref(2, 0)]), LATE.(childs := [Ref(2, 1)]), COMMITTED]
    requires Run(before).acts == [Update(0, FINAL, COMPLETED), Commit(2, 0, Scan)]
    ensures var s' := Run(acts);
      && s'.tasks == [BARRIER.(childs := [Ref(2, 0)], status := COMPLETED), LATE.(childs := [Ref(2, 1)]),
                      COMMITTED.(deps := COUNTED, counter := 1)]
      && s'.acts == [Notify(0, COMPLETED, 1, Head), Commit(2, 0, Scan)] && s'.requeued == Run(before).requeued
  {
    var b, l := BARRIER.(childs := [Ref(2, 0)], status := COMPLETED), LATE.(childs := [Ref(2, 1)]);
    var c := Commit(2, 0, Scan);
    acts := PassTells(before);
    acts := Do(acts, Go(0));
    var s4 := Run(acts);
    assert s4.tasks == [b, l, COMMITTED.(deps := TOLD)] && s4.acts == [Notify(0, COMPLETED, 0, Dec), c];
    acts := Do(acts, Go(0));
    var s5 := Run(acts);
    assert TOLD[0 := COUNTED[0]] == COUNTED;
    assert s5.tasks == [b, l, COMMITTED.(deps := COUNTED, counter := 1)];
  }

  lemma PassLoads(before: seq<Action>) returns (acts: seq<Action>)
    requires Run(before).tasks == [BARRIER.(childs := [Ref(2, 0)]), LATE.(childs := [Ref(2, 1)]), COMMITTED]
    requires Run(before).acts == [Update(0, FINAL, COMPLETED), Commit(2, 0, Scan)]
    ensures var s' := Run(acts);
      && s'.tasks == [BARRIER.(childs := [Ref(2, 0)], status := COMPLETED), LATE.(childs := [Ref(2, 1)]), COMMITTED]
      && s'.acts == [Notify(0, COMPLETED, 0, Cas(0)), Commit(2, 0, Scan)] && s'.requeued == Run(before).requeued
  {
    var b, l := BARRIER.(childs := [Ref(2, 0)], status := COMPLETED), LATE.(childs := [Ref(2, 1)]);
    acts := Do(before, Go(0));
    var s1 := Run(acts);
    assert s1.tasks == [b, l, COMMITTED] && s1.acts == [Notify(0, COMPLETED, 0, Head), Commit(2, 0, Scan)];
    acts := Do(acts, Go(0));
  }

  lemma PassTells(before: seq<Action>) returns (acts: seq<Action>)
    requires Run(before).tasks == [BARRIER.(childs := [Ref(2, 0)]), LATE.(childs := [Ref(2, 1)]), COMMITTED]
    requires Run(before).acts == [Update(0, FINAL, COMPLETED), Commit(2, 0, Scan)]
    ensures var s' := Run(acts);
      && s'.tasks == [BARRIER.(childs := [Ref(2, 0)], status := COMPLETED), LATE.(childs := [Ref(2, 1)]),
                      COMMITTED.(deps := TOLD)]
      && s'.acts == [Notify(0, COMPLETED, 0, Child), Commit(2, 0, Scan)] && s'.requeued == Run(before).requeued
  {
    var b, l := BARRIER.(childs := [Ref(2, 0)], status := COMPLETED), LATE.(childs := [Ref(2, 1)]);
    var c := Commit(2, 0, Scan);
    acts := PassLoads(before);
    acts := Do(acts, Go(0));
    var s3 := Run(acts);
    assert WIRED[0 := TOLD[0]] == TOLD;
    assert s3.tasks == [b, l, COMMITTED.(deps := TOLD)] && s3.acts == [Notify(0, COMPLETED, 0, Child), c];
  }

  const MARKED := COUNTED[0].(scanned := true, twice := true)

  lemma ScanLoads(before: seq<Action>) returns (acts: seq<Action>)
    requires Run(before).tasks == [BARRIER.(childs := [Ref(2, 0)], status := COMPLETED), LATE.(childs := [Ref(2, 1)]),
                                   COMMITTED.(deps := COUNTED, counter := 1)]
    requires Run(before).acts == [Notify(0, COMPLETED, 1, Head), Commit(2, 0, Scan)]
    ensures var s' := Run(acts);
      && s'.tasks == Run(before).tasks && s'.requeued == Run(before).requeued
      && s'.acts == [Notify(0, COMPLETED, 1, Head), Commit(2, 0, Swap(COMPLETED, COMPLETED))]
  {
    acts := Do(before, Go(1));
    var s1 := Run(acts);
    assert s1.tasks == Run(before).tasks && s1.acts == [Notify(0, COMPLETED, 1, Head), Commit(2, 0, Rec(COMPLETED))];
    acts := Do(acts, Go(1));
  }

  /** The scan finds COMPLETED recorded, writes COMPLETED over it and counts the completion again. */
  lemma ScanFinds(before: seq<Action>) returns (acts: seq<Action>)
    requires Run(before).tasks == [BARRIER.(childs := [Ref(2, 0)], status := COMPLETED), LATE.(childs := [Ref(2, 1)]),
                                   COMMITTED.(deps := COUNTED, counter := 1)]
    requires Run(before).acts == [Notify(0, COMPLETED, 1, Head), Commit(2, 0, Scan)]
    ensures var s' := Run(acts);
      && s'.tasks == [BARRIER.(childs := [Ref(2, 0)], status := COMPLETED), LATE.(childs := [Ref(2, 1)]),
                      COMMITTED.(deps := [MARKED, COUNTED[1]], counter := 1)]
      && s'.acts == [Notify(0, COMPLETED, 1, Head), Commit(2, 0, Drop)] && s'.requeued == Run(before).requeued
  {
    var b, l := BARRIER.(childs := [Ref(2, 0)], status := COMPLETED), LATE.(childs := [Ref(2, 1)]);
    var t := COMMITTED.(deps := COUNTED, counter := 1);
    var n := Notify(0, COMPLETED, 1, Head);
    acts := ScanLoads(before);
    acts := Do(acts, Go(1));
    var s3 := Run(acts);
    assert COUNTED[0 := MARKED] == [MARKED, COUNTED[1]];
    assert s3.tasks == [b, l, t.(deps := [MARKED, COUNTED[1]])] && s3.acts == [n, Commit(2, 0, Drop)];
  }

  lemma ScanCounts(before: seq<Action>) returns (acts: seq<Action>)
    requires Run(before).tasks == [BARRIER.(childs := [Ref(2, 0)], status := COMPLETED), LATE.(childs := [Ref(2, 1)]),
                                   COMMITTED.(deps := [MARKED, COUNTED[1]], counter := 1)]
    requires Run(before).acts == [Notify(0, COMPLETED, 1, Head), Commit(2, 0, Drop)]
    ensures var s' := Run(acts);
      && |s'.tasks| == 3 && s'.tasks[2].status == READY && s'.tasks[1].status == IDLE
      && |s'.tasks[2].deps| == 2 && s'.tasks[2].deps[1].parent == 1
      && s'.tasks[2].deps[0].decN && s'.tasks[2].deps[0].decS
      && s'.requeued == Run(before).requeued
  {
    acts := Do(before, Go(1));
    var s4 := Run(acts);
    assert [MARKED, COUNTED[1]][0 := MARKED.(decS := true)] == [MARKED.(decS := true), COUNTED[1]];
    assert s4.acts == [Notify(0, COMPLETED, 1, Head), Update(2, DEPHOLD, READY)];
    assert s4.tasks[1] == LATE.(childs := [Ref(2, 1)]);
    assert s4.tasks[2].deps == [MARKED.(decS := true), COUNTED[1]] && s4.tasks[2].status == DEPHOLD;
    acts := Do(acts, Go(1));
  }

  /** Task 2 is READY while its parent, task 1, is still IDLE. */
  lemma EarlyReady() returns (acts: seq<Action>)
    ensures var s := Run(acts);
      && !s.requeued && |s.tasks| == 3 && |s.tasks[2].deps| == 2 && s.tasks[2].deps[1].parent == 1
      && s.tasks[2].status == READY && s.tasks[1].status == IDLE
      && s.tasks[2].deps[0].decN && s.tasks[2].deps[0].decS
  {
    acts := Graph();
    acts := Do(acts, BeginCommit(0));
    acts := BarrierInit(acts);
    acts := BarrierFinal(acts);
    acts := Do(acts, BeginCommit(2));
    acts := ChildInit(acts);
    acts := ChildWired(acts);
    acts := Do(acts, Go(1));
    acts := PassCounts(acts);
    acts := ScanFinds(acts);
    acts := ScanCounts(acts);
  }
}
