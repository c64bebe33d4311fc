/** Which states of the two endpoints can follow one another, and what no event undoes. */
module Reachability {
  import opened SenderInvariants
  import opened Connecting
  import opened ConnectionInvariants
  import opened ConnectionRuns
  import opened Duplex
  import opened Owners
  import opened Network

  /** Some finite run leads from `w` to `v`. */
  ghost predicate Reaches(w: World, v: World)
    requires Good(w)
  {
    exists es :: CanRun(w, es) && Network.Run(w, es) == v
  }

  lemma {:induction false} RunAppend(w: World, es: seq<(bool, Event)>, fs: seq<(bool, Event)>)
    requires Good(w) && CanRun(w, es) && Good(Network.Run(w, es)) && CanRun(Network.Run(w, es), fs)
    ensures CanRun(w, es + fs) && Network.Run(w, es + fs) == Network.Run(Network.Run(w, es), fs)
    decreases |es|
  {
    hide Good, CanAt, NextAt;
    if es == [] {
      assert es + fs == fs;
    } else {
      NextAtGood(w, es[0].0, es[0].1);
      RunAppend(NextAt(w, es[0].0, es[0].1), es[1..], fs);
      assert (es + fs)[1..] == es[1..] + fs;
    }
  }

  lemma ReachesSelf(w: World)
    requires Good(w)
    ensures Reaches(w, w)
  {
    hide Good;
    assert CanRun(w, []) && Network.Run(w, []) == w;
  }

  lemma ReachesNext(w: World, v: World, first: bool, e: Event)
    requires Good(w) && Reaches(w, v) && Good(v) && CanAt(v, first, e)
    ensures Reaches(w, NextAt(v, first, e))
  {
    hide Good, CanAt, NextAt;
    var es :| CanRun(w, es) && Network.Run(w, es) == v;
    NextAtGood(v, first, e);
    OneEvent(v, first, e);
    RunAppend(w, es, [(first, e)]);
  }

  lemma OneEvent(v: World, first: bool, e: Event)
    requires Good(v) && CanAt(v, first, e)
    ensures CanRun(v, [(first, e)]) && Network.Run(v, [(first, e)]) == NextAt(v, first, e)
  {
    hide Good, CanAt, NextAt;
    NextAtGood(v, first, e);
    var es := [(first, e)];
    assert es[1..] == [];
  }

  // ---- what stays while nobody writes ----

  /** Arrivals, departures, losses, reads, time passing, and letting the window be filled. */
  predicate Quiet(e: Event) {
    e.Call? ==> e.op.Connect? || e.op.ReadOp? || e.op.TickOp?
  }

  /** The owner neither wrote nor ended anything, and what was delivered still is. */
  predicate StaysFor(c: Connection, d: Connection) {
    && d.sender.stream.written == c.sender.stream.written && d.sender.stream.ended == c.sender.stream.ended
    && c.receiver.reasm.out.written <= d.receiver.reasm.out.written
    && (c.receiver.reasm.out.ended ==> d.receiver.reasm.out.ended) && d.rtTimeout == c.rtTimeout
  }

  lemma StepStays(c: Connection, op: ConnOp)
    requires ConnInv(c) && Permitted(c, op) && (op.Segment? || op.Connect? || op.ReadOp? || op.TickOp?)
    ensures StaysFor(c, Step(c, op))
  {
    hide ConnInv, Step, Permitted, Onward;
    StepMoves(c, op);
    StepOwned(c, op);
  }

  ghost predicate Stays(w: World, v: World) {
    StaysFor(w.a, v.a) && StaysFor(w.b, v.b)
  }

  lemma NextStays(w: World, e: Event)
    requires Good(w) && Can(w, e) && Quiet(e)
    ensures StaysFor(w.a, Next(w, e).a) && Next(w, e).b == w.b
  {
    hide Inv, Linked, Step, Permitted, StaysFor;
    match e
    case Call(op) => StepStays(w.a, op);
    case Send => SendStays(w.a);
    case Drop(_) => SendStays(w.a);
    case Arrive(p) =>
      ArrivalPermitted(w, p);
      StepStays(w.a, Segment(p.seg));
  }

  lemma SendStays(c: Connection)
    ensures StaysFor(c, c) && StaysFor(c, c.(out := []))
  {
  }

  /** `v` can follow `w` without anybody writing. */
  ghost predicate Path(w: World, v: World) {
    Good(w) && Good(v) && Reaches(w, v) && Stays(w, v)
  }

  lemma PathSelf(w: World)
    requires Good(w)
    ensures Path(w, w)
  {
    hide Good, Reaches, StaysFor;
    ReachesSelf(w);
    SendStays(w.a);
    SendStays(w.b);
  }

  lemma PathNext(w: World, v: World, first: bool, e: Event)
    requires Path(w, v) && CanAt(v, first, e) && Quiet(e)
    ensures Path(w, NextAt(v, first, e))
  {
    hide Good, Can, Reaches, Next, StaysFor;
    NextAtGood(v, first, e);
    ReachesNext(w, v, first, e);
    SwapGood(v);
    NextStays(if first then v else v.Swap(), e);
    var u := NextAt(v, first, e);
    StaysTrans(w.a, v.a, u.a);
    StaysTrans(w.b, v.b, u.b);
    SendStays(v.a);
    SendStays(v.b);
    StaysTrans(w.a, v.a, v.a);
    StaysTrans(w.b, v.b, v.b);
  }

  lemma StaysTrans(c: Connection, d: Connection, e: Connection)
    requires StaysFor(c, d)
    ensures StaysFor(d, e) ==> StaysFor(c, e)
  {
  }

  lemma PathTrans(w: World, v: World, u: World)
    requires Path(w, v) && Path(v, u)
    ensures Path(w, u)
  {
    hide Good, CanRun, Network.Run, StaysFor;
    var es :| CanRun(w, es) && Network.Run(w, es) == v;
    var fs :| CanRun(v, fs) && Network.Run(v, fs) == u;
    RunAppend(w, es, fs);
    assert Reaches(w, u);
    StaysTrans(w.a, v.a, u.a);
    StaysTrans(w.b, v.b, u.b);
  }

  // ---- mirror images, and runs ----

  function Mirrored(es: seq<(bool, Event)>): (fs: seq<(bool, Event)>) {
    if es == [] then [] else [(!es[0].0, es[0].1)] + Mirrored(es[1..])
  }

  lemma NextMirrored(w: World, first: bool, e: Event)
    requires Good(w) && Good(w.Swap()) && CanAt(w, first, e)
    ensures CanAt(w.Swap(), !first, e) && NextAt(w.Swap(), !first, e) == NextAt(w, first, e).Swap()
  {
    hide Good, Can, Next;
    assert w.Swap().Swap() == w;
  }

  lemma {:induction false} RunMirrored(w: World, es: seq<(bool, Event)>)
    requires Good(w) && Good(w.Swap()) && CanRun(w, es)
    ensures CanRun(w.Swap(), Mirrored(es)) && Network.Run(w.Swap(), Mirrored(es)) == Network.Run(w, es).Swap()
    decreases |es|
  {
    hide Good, CanAt, NextAt;
    if es != [] {
      var v := NextAt(w, es[0].0, es[0].1);
      NextAtGood(w, es[0].0, es[0].1);
      NextMirrored(w, es[0].0, es[0].1);
      SwapGood(v);
      RunMirrored(v, es[1..]);
      assert Mirrored(es)[1..] == Mirrored(es[1..]);
    }
  }

  lemma SwapPath(w: World, v: World)
    requires Path(w, v)
    ensures Path(w.Swap(), v.Swap())
  {
    hide Good, CanRun, Network.Run, StaysFor;
    SwapGood(w);
    SwapGood(v);
    var es :| CanRun(w, es) && Network.Run(w, es) == v;
    RunMirrored(w, es);
    assert Reaches(w.Swap(), v.Swap());
  }
}
