/**
 Retained windows on top of an immediate-mode GUI. Each window is an id plus the local
 state of its behaviour; one behaviour function stands for all the windows' closures, the
 local state saying which window it is and where it stands. A pass over the manager calls
 every window once, in order, keeps those that answer `true`, and appends the windows
 spawned during the pass after them.
 */
module PersistentWindows {

  datatype Window<L> = Window(id: nat, local: L)

  /** What one call of a window's behaviour does: its continuation flag, its new local state,
      the new shared state, and the local states of the windows it spawns, in spawn order. */
  datatype Outcome<L, S> = Outcome(keep: bool, local: L, state: S, spawn: seq<L>)

  /** A behaviour is called with the window's own id, its local state and the shared state. */
  type Behaviour<!L, !S> = (nat, L, S) -> Outcome<L, S>

  function Ids<L>(ws: seq<Window<L>>): (ids: seq<nat>)
    ensures |ids| == |ws| && forall i :: 0 <= i < |ws| ==> ids[i] == ws[i].id
    decreases |ws|
  {
    if ws == [] then [] else Ids(ws[..|ws| - 1]) + [ws[|ws| - 1].id]
  }

  predicate Distinct(xs: seq<nat>) {
    forall i, j :: 0 <= i < j < |xs| ==> xs[i] != xs[j]
  }

  /** The windows given consecutive ids from `next` on, in order. */
  function Mint<L>(locals: seq<L>, next: nat): (ws: seq<Window<L>>) {
    seq(|locals|, i requires 0 <= i < |locals| => Window(next + i, locals[i]))
  }

  /** The elements of `xs` whose flag is set, in order. */
  function Select<T>(xs: seq<T>, flags: seq<bool>): seq<T>
    requires |xs| == |flags|
    decreases |xs|
  {
    if xs == [] then []
    else Select(xs[..|xs| - 1], flags[..|xs| - 1]) + (if flags[|xs| - 1] then [xs[|xs| - 1]] else [])
  }

  /** The result of one render pass over a list of windows. */
  datatype Pass<L, S> = Pass(
    kept: seq<Window<L>>,
    spawned: seq<Window<L>>,
    next: nat,
    state: S,
    calls: seq<nat>,
    verdicts: seq<bool>)

  /**
   One pass: the windows are called in order with their own ids, the shared state threaded
   through; `next` is the id counter, drawn on for each spawned window at the time it is
   spawned; `calls` lists the ids called and `verdicts` what each call answered.
   */
  function RenderPass<L, S>(f: Behaviour<L, S>, ws: seq<Window<L>>, next: nat, state: S): (p: Pass<L, S>)
    ensures |p.calls| == |ws| && |p.verdicts| == |ws| && |p.kept| <= |ws|
    ensures p.next == next + |p.spawned|
    decreases |ws|
  {
    if ws == [] then Pass([], [], next, state, [], [])
    else
      var p := RenderPass(f, ws[..|ws| - 1], next, state);
      var w := ws[|ws| - 1];
      var o := f(w.id, w.local, p.state);
      Pass(p.kept + (if o.keep then [Window(w.id, o.local)] else []),
           p.spawned + Mint(o.spawn, p.next),
           p.next + |o.spawn|,
           o.state,
           p.calls + [w.id],
           p.verdicts + [o.keep])
  }

  /**
   Every window present at the start is called exactly once, in list order, with its own id;
   the survivors are exactly those that answered `true`, in their old order.
   */
  lemma {:induction false} PassCallsEachOnceAndFilters<L, S>(f: Behaviour<L, S>, ws: seq<Window<L>>, next: nat, state: S)
    ensures var p := RenderPass(f, ws, next, state);
            && p.calls == Ids(ws)
            && |p.verdicts| == |ws|
            && Ids(p.kept) == Select(Ids(ws), p.verdicts)
  {
    if ws != [] {
      var init := ws[..|ws| - 1];
      PassCallsEachOnceAndFilters(f, init, next, state);
      var p := RenderPass(f, init, next, state);
      var w := ws[|ws| - 1];
      var o := f(w.id, w.local, p.state);
      var last: seq<Window<L>> := if o.keep then [Window(w.id, o.local)] else [];
      IdsAppend(p.kept, last);
      assert Ids(last) == if o.keep then [w.id] else [];
      assert Ids(ws)[..|ws| - 1] == Ids(init);
      assert (p.verdicts + [o.keep])[..|ws| - 1] == p.verdicts;
    }
  }

  /**
   The windows spawned during a pass get the ids `next`, `next + 1`, ... in spawn order, and
   the counter ends just past them.
   */
  lemma {:induction false} SpawnedGetFreshIds<L, S>(f: Behaviour<L, S>, ws: seq<Window<L>>, next: nat, state: S)
    ensures var p := RenderPass(f, ws, next, state);
            && p.next == next + |p.spawned|
            && forall i :: 0 <= i < |p.spawned| ==> p.spawned[i].id == next + i
  {
    if ws != [] {
      SpawnedGetFreshIds(f, ws[..|ws| - 1], next, state);
    }
  }

  /** Survivors come from the windows passed in and stay pairwise distinct in id. */
  lemma {:induction false} KeptComeFromInput<L, S>(f: Behaviour<L, S>, ws: seq<Window<L>>, next: nat, state: S)
    requires Distinct(Ids(ws))
    ensures var p := RenderPass(f, ws, next, state);
            && (forall i :: 0 <= i < |p.kept| ==> p.kept[i].id in Ids(ws))
            && Distinct(Ids(p.kept))
  {
    if ws != [] {
      var init := ws[..|ws| - 1];
      assert Ids(ws)[..|ws| - 1] == Ids(init);
      KeptComeFromInput(f, init, next, state);
      assert forall x :: x in Ids(init) ==> x in Ids(ws);
    }
  }

  /** Every id in the list is distinct and was drawn from the counter before it reached `next`. */
  predicate IdsIssuedBefore<L>(ws: seq<Window<L>>, next: nat) {
    Distinct(Ids(ws)) && forall i :: 0 <= i < |ws| ==> ws[i].id < next
  }

  /** A pass keeps the ids of the resulting list distinct and below the counter. */
  lemma {:induction false} PassKeepsIdsIssued<L, S>(f: Behaviour<L, S>, ws: seq<Window<L>>, next: nat, state: S)
    requires IdsIssuedBefore(ws, next)
    ensures var p := RenderPass(f, ws, next, state);
            IdsIssuedBefore(p.kept + p.spawned, p.next)
  {
    var p := RenderPass(f, ws, next, state);
    KeptComeFromInput(f, ws, next, state);
    SpawnedGetFreshIds(f, ws, next, state);
    forall i | 0 <= i < |p.kept| ensures p.kept[i].id < next {
      var m :| 0 <= m < |ws| && Ids(ws)[m] == p.kept[i].id;
    }
    FreshAfterIssued(p.kept, p.spawned, next);
  }

  /** Distinct ids below `next`, followed by ids counted up from `next`, stay distinct. */
  lemma FreshAfterIssued<L>(kept: seq<Window<L>>, spawned: seq<Window<L>>, next: nat)
    requires IdsIssuedBefore(kept, next)
    requires forall i :: 0 <= i < |spawned| ==> spawned[i].id == next + i
    ensures IdsIssuedBefore(kept + spawned, next + |spawned|)
  {
    var all, k := kept + spawned, |kept|;
    forall i, j | 0 <= i < j < |all| ensures Ids(all)[i] != Ids(all)[j] {
      if j < k {
        assert Ids(kept)[i] != Ids(kept)[j];
      } else if i < k {
        assert all[j] == spawned[j - k];
      }
    }
  }

  /**
   A sample behaviour whose shared state is the log of the ids called. Local state 0: never
   stop; 1: stop on this call; 2: spawn one never-stopping window, then behave as 0.
   */
  function Sample(id: nat, local: nat, log: seq<nat>): Outcome<nat, seq<nat>> {
    if local == 2 then Outcome(true, 0, log + [id], [0])
    else Outcome(local != 1, local, log + [id], [])
  }

  /** The pass that follows `p`, over the list it leaves behind. */
  function NextPass<L, S>(f: Behaviour<L, S>, p: Pass<L, S>): Pass<L, S> {
    RenderPass(f, p.kept + p.spawned, p.next, p.state)
  }

  /** One pass over a single never-stopping window. */
  lemma NeverStoppingAlone(id: nat, next: nat, log: seq<nat>)
    ensures var p := RenderPass(Sample, [Window(id, 0)], next, log);
            && p.kept + p.spawned == [Window(id, 0)]
            && p.next == next && p.state == log + [id] && p.calls == [id]
  {
    assert [Window(id, 0)][..0] == [];
    var empty := RenderPass(Sample, [], next, log);
    assert empty.kept == [] && empty.spawned == [] && empty.state == log && empty.calls == [];
  }

  /**
   Window A stops after its first call, window B never stops: three passes call A, B, then
   B, then B, and leave only B.
   */
  lemma {:induction false} StopAfterFirstCall()
    ensures var p1 := RenderPass(Sample, [Window(0, 1), Window(1, 0)], 2, []);
            var p2 := NextPass(Sample, p1);
            var p3 := NextPass(Sample, p2);
            && p1.calls == [0, 1] && p2.calls == [1] && p3.calls == [1]
            && p3.state == [0, 1, 1, 1]
            && p3.kept + p3.spawned == [Window(1, 0)]
  {
    var a, b := Window(0, 1), Window(1, 0);
    assert [a, b][..1] == [a] && [a][..0] == [];
    var empty := RenderPass(Sample, [], 2, []);
    assert empty.kept == [] && empty.spawned == [] && empty.state == [] && empty.calls == [];
    var p0 := RenderPass(Sample, [a], 2, []);
    assert p0.kept == [] && p0.spawned == [] && p0.next == 2 && p0.state == [0] && p0.calls == [0];
    var p1 := RenderPass(Sample, [a, b], 2, []);
    assert p1.kept + p1.spawned == [b] && p1.next == 2 && p1.state == [0, 1];
    NeverStoppingAlone(1, 2, [0, 1]);
    var p2 := NextPass(Sample, p1);
    assert p2 == RenderPass(Sample, [b], 2, [0, 1]);
    assert p2.kept + p2.spawned == [b] && p2.next == 2 && p2.state == [0, 1, 1];
    NeverStoppingAlone(1, 2, [0, 1, 1]);
    assert NextPass(Sample, p2) == RenderPass(Sample, [b], 2, [0, 1, 1]);
  }

  /**
   A window spawned during a pass is not called in that pass, whose calls all go to windows
   already listed; the following pass calls the survivors, in order, and then the spawned
   windows, in spawn order.
   */
  lemma {:induction false} SpawnedRunFromNextPass<L, S>(f: Behaviour<L, S>, ws: seq<Window<L>>, next: nat, state: S)
    requires IdsIssuedBefore(ws, next)
    ensures var p := RenderPass(f, ws, next, state);
            && (forall i :: 0 <= i < |p.spawned| ==> p.spawned[i].id !in p.calls)
            && NextPass(f, p).calls == Ids(p.kept) + Ids(p.spawned)
  {
    var p := RenderPass(f, ws, next, state);
    PassCallsEachOnceAndFilters(f, ws, next, state);
    SpawnedGetFreshIds(f, ws, next, state);
    forall j | 0 <= j < |p.calls| ensures p.calls[j] < next {
      assert p.calls[j] == ws[j].id;
    }
    PassCallsEachOnceAndFilters(f, p.kept + p.spawned, p.next, p.state);
    IdsAppend(p.kept, p.spawned);
  }

  lemma IdsAppend<L>(a: seq<Window<L>>, b: seq<Window<L>>)
    ensures Ids(a + b) == Ids(a) + Ids(b)
  {
    assert forall i :: 0 <= i < |a + b| ==> Ids(a + b)[i] == (Ids(a) + Ids(b))[i];
  }

  /**
   An example of `SpawnedRunFromNextPass`: window 5 spawns a window during the first pass; the
   child takes id 6, is not called in that pass, and is called after its parent in the next.
   */
  lemma {:induction false} SpawnedRunsNextPass()
    ensures var p1 := RenderPass(Sample, [Window(5, 2)], 6, []);
            var p2 := NextPass(Sample, p1);
            && p1.calls == [5] && p1.spawned == [Window(6, 0)] && p1.next == 7
            && p2.calls == [5, 6]
  {
    var parent, child := Window(5, 0), Window(6, 0);
    SpawnOnceAlone(5, 6, []);
    var p1 := RenderPass(Sample, [Window(5, 2)], 6, []);
    assert p1.kept + p1.spawned == [parent, child];
    NeverStoppingAlone(5, 7, [5]);
    assert [parent, child][..1] == [parent];
    var p2 := RenderPass(Sample, [parent, child], 7, [5]);
    assert p2.calls == [5, 6];
    assert NextPass(Sample, p1) == p2;
  }

  /** One pass over a single window that spawns once. */
  lemma SpawnOnceAlone(id: nat, next: nat, log: seq<nat>)
    ensures var p := RenderPass(Sample, [Window(id, 2)], next, log);
            && p.kept == [Window(id, 0)] && p.spawned == [Window(next, 0)]
            && p.next == next + 1 && p.state == log + [id] && p.calls == [id]
  {
    assert [Window(id, 2)][..0] == [];
    var empty := RenderPass(Sample, [], next, log);
    assert empty.kept == [] && empty.spawned == [] && empty.state == log && empty.calls == [];
    assert Mint([0], next) == [Window(next, 0)];
  }

  /** The process-wide window id counter. */
  class WindowIds {
    var next: nat

    constructor ()
      ensures next == 0
    {
      next := 0;
    }
  }

  /** A new window takes the counter's value as its id and moves the counter on. */
  method NewWindow<L>(ids: WindowIds, local: L) returns (w: Window<L>)
    modifies ids
    ensures w == Window(old(ids.next), local)
    ensures ids.next == old(ids.next) + 1
  {
    w := Window(ids.next, local);
    ids.next := ids.next + 1;
  }

  /** Creates one window per local state, in order. */
  method NewWindows<L>(ids: WindowIds, locals: seq<L>) returns (ws: seq<Window<L>>)
    modifies ids
    ensures ws == Mint(locals, old(ids.next))
    ensures ids.next == old(ids.next) + |locals|
  {
    ws := [];
    var j := 0;
    while j < |locals|
      invariant 0 <= j <= |locals|
      invariant ids.next == old(ids.next) + j
      invariant |ws| == j && forall k :: 0 <= k < j ==> ws[k] == Window(old(ids.next) + k, locals[k])
    {
      var w := NewWindow(ids, locals[j]);
      ws := ws + [w];
      j := j + 1;
    }
  }

  class PersistentWindowManager<L, S> {
    var windows: seq<Window<L>>

    constructor ()
      ensures windows == []
    {
      windows := [];
    }

    ghost predicate Valid(ids: WindowIds)
      reads this, ids
    {
      IdsIssuedBefore(windows, ids.next)
    }

    /** Appends a window after the existing ones. */
    method Push(w: Window<L>, ghost ids: WindowIds)
      modifies this
      ensures windows == old(windows) + [w]
      ensures old(Valid(ids)) && w.id < ids.next && w.id !in old(Ids(windows)) ==> Valid(ids)
    {
      windows := windows + [w];
      if old(Valid(ids)) && w.id < ids.next && w.id !in old(Ids(windows)) {
        assert Ids(windows) == old(Ids(windows)) + [w.id];
      }
    }

    /**
     One frame: every window is called once with its own id and the shared state; the ones
     that answer `false` are dropped and the windows they spawned are appended at the end.
     */
    method Render(f: Behaviour<L, S>, ids: WindowIds, state: S) returns (newState: S, ghost calls: seq<nat>)
      modifies this, ids
      ensures var p := RenderPass(f, old(windows), old(ids.next), state);
              && windows == p.kept + p.spawned
              && ids.next == p.next
              && newState == p.state
              && calls == p.calls
      ensures old(Valid(ids)) ==> Valid(ids)
    {
      var ws := windows;
      ghost var next0 := ids.next;
      var kept: seq<Window<L>> := [];
      var newWindows: seq<Window<L>> := [];
      var st := state;
      calls := [];
      ghost var verdicts: seq<bool> := [];
      var i := 0;
      while i < |ws|
        invariant 0 <= i <= |ws|
        invariant Pass(kept, newWindows, ids.next, st, calls, verdicts) == RenderPass(f, ws[..i], next0, state)
      {
        var w := ws[i];
        var o := f(w.id, w.local, st);
        assert ws[..i + 1][..i] == ws[..i];
        var spawned := NewWindows(ids, o.spawn);
        if o.keep {
          kept := kept + [Window(w.id, o.local)];
        }
        newWindows := newWindows + spawned;
        st := o.state;
        calls := calls + [w.id];
        verdicts := verdicts + [o.keep];
        i := i + 1;
      }
      assert ws[..i] == ws;
      windows := kept + newWindows;
      newState := st;
      if old(Valid(ids)) {
        PassKeepsIdsIssued(f, old(windows), old(ids.next), state);
      }
    }
  }
}
