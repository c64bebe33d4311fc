/** Whole runs of offers and reads against one fixed stream: only what was offered while there was room for it
    matters, not its order. */
module ReassemblyRuns {
  import opened Bytes
  import opened Intervals
  import opened Assembly
  import opened Reassembly

  /** A slice of the stream offered, or bytes taken from the output by the reader. */
  datatype Op = Offer(lo: nat, hi: nat, eof: bool) | Take(len: nat) {
    predicate Gives(i: nat) {
      Offer? && lo <= i < hi
    }
    predicate Ends() {
      Offer? && eof
    }
  }

  /** Offers are conforming slices of `s`; only a slice that reaches the end may be marked final. */
  predicate Legal(r: Reassembler, s: seq<Byte>, op: Op) {
    match op
    case Offer(lo, hi, eof) => lo <= hi <= |s| && (eof ==> hi == |s|) && Conforms(r.out, s[lo..hi], lo, eof)
    case Take(len) => true
  }

  /** Offers are slices of `s` on which no assertion stops the program. */
  predicate Possible(r: Reassembler, s: seq<Byte>, op: Op) {
    match op
    case Offer(lo, hi, eof) => lo <= hi <= |s| && !Aborts(r.out, s[lo..hi], lo)
    case Take(len) => true
  }

  ghost function Apply(r: Reassembler, s: seq<Byte>, op: Op): Reassembler
    requires r.WellFormed() && Possible(r, s, op)
  {
    match op
    case Offer(lo, hi, eof) => Push(r, s[lo..hi], lo, eof)
    case Take(len) => r.(out := r.out.Pop(len))
  }

  /** The indices an operation offers that the reader has room for at the time. */
  ghost function Room(r: Reassembler, op: Op): set<nat> {
    match op
    case Offer(lo, hi, eof) => Range(lo, Min(hi, r.Limit()))
    case Take(len) => {}
  }

  lemma ApplyKeeps(r: Reassembler, s: seq<Byte>, op: Op)
    requires r.InWindow() && r.Agrees(s) && Legal(r, s, op)
    ensures Possible(r, s, op)
    ensures Apply(r, s, op).InWindow() && Apply(r, s, op).Agrees(s)
    ensures forall i: nat :: Apply(r, s, op).Has(i) <==> r.Has(i) || i in Room(r, op)
  {
    hide Push, Conforms;
    if op.Offer? {
      PushAgrees(r, s, op.lo, op.hi, op.eof);
      GainsMeans(r, Apply(r, s, op), s, op.lo, Min(op.hi, r.Limit()));
    } else {
      assert Apply(r, s, op).held == r.held;
    }
  }

  ghost predicate LegalRun(r: Reassembler, s: seq<Byte>, ops: seq<Op>)
    requires r.InWindow() && r.Agrees(s)
    decreases |ops|
  {
    ops != [] ==>
      && Legal(r, s, ops[0])
      && (ApplyKeeps(r, s, ops[0]);
          LegalRun(Apply(r, s, ops[0]), s, ops[1..]))
  }

  ghost function Run(r: Reassembler, s: seq<Byte>, ops: seq<Op>): Reassembler
    requires r.InWindow() && r.Agrees(s) && LegalRun(r, s, ops)
    decreases |ops|
  {
    if ops == [] then r
    else
      ApplyKeeps(r, s, ops[0]);
      Run(Apply(r, s, ops[0]), s, ops[1..])
  }

  /** The indices that some offer of the run covered while the reader had room for them. */
  ghost function Given(r: Reassembler, s: seq<Byte>, ops: seq<Op>): set<nat>
    requires r.InWindow() && r.Agrees(s) && LegalRun(r, s, ops)
    decreases |ops|
  {
    if ops == [] then {}
    else
      ApplyKeeps(r, s, ops[0]);
      Room(r, ops[0]) + Given(Apply(r, s, ops[0]), s, ops[1..])
  }

  ghost predicate Ended(ops: seq<Op>) {
    exists k :: 0 <= k < |ops| && ops[k].Ends()
  }

  /** The recorded end is the end of `s`, and the output has ended exactly when it is known and reached. */
  ghost predicate EndKnown(r: Reassembler, s: seq<Byte>, ended: bool) {
    && r.eof == (if ended then Some(|s|) else None)
    && r.out.ended == (ended && r.Next() == |s|)
  }

  lemma ApplyEnd(r: Reassembler, s: seq<Byte>, op: Op, ended: bool)
    requires r.InWindow() && r.Agrees(s) && Legal(r, s, op) && EndKnown(r, s, ended)
    ensures Possible(r, s, op) && EndKnown(Apply(r, s, op), s, ended || op.Ends())
  {
    hide Push, Conforms;
    if op.Offer? {
      PushAgrees(r, s, op.lo, op.hi, op.eof);
      var p := Push(r, s[op.lo..op.hi], op.lo, op.eof);
      GainsMeans(r, p, s, op.lo, Min(op.hi, r.Limit()));
      assert !r.Has(r.Next());
      assert op.hi <= r.Next() ==> !p.Has(r.Next());
    }
  }

  lemma EndedTail(ops: seq<Op>)
    requires ops != []
    ensures Ended(ops) <==> ops[0].Ends() || Ended(ops[1..])
  {
    if Ended(ops[1..]) {
      var k :| 0 <= k < |ops[1..]| && ops[1..][k].Ends();
      assert ops[k + 1].Ends();
    }
    if Ended(ops) {
      var k :| 0 <= k < |ops| && ops[k].Ends();
      assert k > 0 ==> ops[1..][k - 1].Ends();
    }
  }

  lemma {:induction false} RunKeeps(r: Reassembler, s: seq<Byte>, ops: seq<Op>, ended: bool)
    requires r.InWindow() && r.Agrees(s) && LegalRun(r, s, ops) && EndKnown(r, s, ended)
    ensures Run(r, s, ops).InWindow() && Run(r, s, ops).Agrees(s)
    ensures EndKnown(Run(r, s, ops), s, ended || Ended(ops))
    ensures forall i: nat :: Run(r, s, ops).Has(i) <==> r.Has(i) || i in Given(r, s, ops)
    decreases |ops|
  {
    if ops != [] {
      hide Apply, EndKnown, Legal, Room;
      var next := Apply(r, s, ops[0]);
      ApplyKeeps(r, s, ops[0]);
      ApplyEnd(r, s, ops[0], ended);
      RunKeeps(next, s, ops[1..], ended || ops[0].Ends());
      EndedTail(ops);
    }
  }

  /** The run started from nothing. */
  ghost function Fresh(capacity: nat, s: seq<Byte>): (r: Reassembler)
    requires 0 < capacity
    ensures r == EmptyReassembler(capacity) && r.InWindow() && r.Agrees(s) && EndKnown(r, s, false)
  {
    EmptyReassembler(capacity)
  }

  /** After any run of conforming offers: the output is the longest prefix of `s` that was given, the rest of what was
      given is held, and the output has ended exactly when all of `s` and its end were offered. */
  lemma RunAssembles(capacity: nat, s: seq<Byte>, ops: seq<Op>)
    requires 0 < capacity && LegalRun(Fresh(capacity, s), s, ops)
    ensures var r, given := Run(Fresh(capacity, s), s, ops), Given(Fresh(capacity, s), s, ops);
            && r.InWindow() && r.out.written <= s
            && (forall i: nat :: i < r.Next() ==> i in given)
            && r.Next() !in given
            && (forall i: nat :: i in r.held <==> i in given && r.Next() < i)
            && (forall i :: i in r.held ==> i < |s| && r.ring[i - r.Next()] == s[i])
            && (r.out.ended <==> r.Next() == |s| && Ended(ops))
  {
    hide Run, LegalRun, Given;
    var e := Fresh(capacity, s);
    RunKeeps(e, s, ops, false);
    var r := Run(e, s, ops);
    assert !r.Has(r.Next());
    assert forall i: nat :: r.Has(i) <==> i in Given(e, s, ops);
  }

  /** The state as far as anything can be delivered from it. */
  ghost predicate SameDelivery(r: Reassembler, q: Reassembler)
    requires r.WellFormed() && q.WellFormed()
  {
    r.out.written == q.out.written && r.out.ended == q.out.ended && r.View().stored == q.View().stored
  }

  /** Two runs that give the same indices and the same end deliver the same, whatever the order of the offers, their
      repetition, and what was read along the way. */
  lemma OrderIndependent(capacity: nat, s: seq<Byte>, ops1: seq<Op>, ops2: seq<Op>)
    requires 0 < capacity && LegalRun(Fresh(capacity, s), s, ops1) && LegalRun(Fresh(capacity, s), s, ops2)
    requires Given(Fresh(capacity, s), s, ops1) == Given(Fresh(capacity, s), s, ops2)
    requires Ended(ops1) <==> Ended(ops2)
    ensures var r1, r2 := Run(Fresh(capacity, s), s, ops1), Run(Fresh(capacity, s), s, ops2);
            r1.WellFormed() && r2.WellFormed() && SameDelivery(r1, r2)
  {
    hide Run, LegalRun, Given, Ended;
    var r1, r2 := Run(Fresh(capacity, s), s, ops1), Run(Fresh(capacity, s), s, ops2);
    RunAssembles(capacity, s, ops1);
    RunAssembles(capacity, s, ops2);
    assert r1.Next() == r2.Next();
    assert r1.held == r2.held;
    assert r1.out.written == s[..r1.Next()] == r2.out.written;
  }

  // ---- runs in which the reader has room for every offer ----

  ghost predicate RoomForAll(r: Reassembler, s: seq<Byte>, ops: seq<Op>)
    requires r.InWindow() && r.Agrees(s) && LegalRun(r, s, ops)
    decreases |ops|
  {
    ops != [] ==>
      && (ops[0].Offer? ==> ops[0].hi <= r.Limit())
      && (ApplyKeeps(r, s, ops[0]);
          RoomForAll(Apply(r, s, ops[0]), s, ops[1..]))
  }

  ghost predicate Offered(ops: seq<Op>, i: nat) {
    exists k :: 0 <= k < |ops| && ops[k].Gives(i)
  }

  lemma OfferedTail(ops: seq<Op>, i: nat)
    requires ops != []
    ensures Offered(ops, i) <==> ops[0].Gives(i) || Offered(ops[1..], i)
  {
    if Offered(ops[1..], i) {
      var k :| 0 <= k < |ops[1..]| && ops[1..][k].Gives(i);
      assert ops[k + 1].Gives(i);
    }
    if Offered(ops, i) {
      var k :| 0 <= k < |ops| && ops[k].Gives(i);
      assert k > 0 ==> ops[1..][k - 1].Gives(i);
    }
  }

  /** When there is room for every offer, what is given is what is offered. */
  lemma {:induction false} AllOffersGiven(r: Reassembler, s: seq<Byte>, ops: seq<Op>, i: nat)
    requires r.InWindow() && r.Agrees(s) && LegalRun(r, s, ops) && RoomForAll(r, s, ops)
    ensures i in Given(r, s, ops) <==> Offered(ops, i)
    decreases |ops|
  {
    if ops != [] {
      hide Apply, Legal;
      ApplyKeeps(r, s, ops[0]);
      AllOffersGiven(Apply(r, s, ops[0]), s, ops[1..], i);
      OfferedTail(ops, i);
    }
  }

  /** So two such runs that make the same offers, in any order and with any repetition, deliver the same. */
  lemma OffersInAnyOrder(capacity: nat, s: seq<Byte>, ops1: seq<Op>, ops2: seq<Op>)
    requires 0 < capacity && LegalRun(Fresh(capacity, s), s, ops1) && LegalRun(Fresh(capacity, s), s, ops2)
    requires RoomForAll(Fresh(capacity, s), s, ops1) && RoomForAll(Fresh(capacity, s), s, ops2)
    requires forall op: Op :: op.Offer? ==> (op in ops1 <==> op in ops2)
    ensures var r1, r2 := Run(Fresh(capacity, s), s, ops1), Run(Fresh(capacity, s), s, ops2);
            r1.WellFormed() && r2.WellFormed() && SameDelivery(r1, r2)
  {
    hide Run, LegalRun, RoomForAll, Given;
    var e := Fresh(capacity, s);
    forall i: nat
      ensures i in Given(e, s, ops1) <==> i in Given(e, s, ops2)
    {
      AllOffersGiven(e, s, ops1, i);
      AllOffersGiven(e, s, ops2, i);
      SameOffered(ops1, ops2, i);
      SameOffered(ops2, ops1, i);
    }
    assert Given(e, s, ops1) == Given(e, s, ops2);
    SameEnded(ops1, ops2);
    SameEnded(ops2, ops1);
    OrderIndependent(capacity, s, ops1, ops2);
  }

  lemma SameOffered(ops1: seq<Op>, ops2: seq<Op>, i: nat)
    requires forall op: Op :: op.Offer? && op in ops1 ==> op in ops2
    ensures Offered(ops1, i) ==> Offered(ops2, i)
  {
    if Offered(ops1, i) {
      var k :| 0 <= k < |ops1| && ops1[k].Gives(i);
      assert ops1[k] in ops2;
      var j :| 0 <= j < |ops2| && ops2[j] == ops1[k];
      assert ops2[j].Gives(i);
    }
  }

  lemma SameEnded(ops1: seq<Op>, ops2: seq<Op>)
    requires forall op: Op :: op.Offer? && op in ops1 ==> op in ops2
    ensures Ended(ops1) ==> Ended(ops2)
  {
    if Ended(ops1) {
      var k :| 0 <= k < |ops1| && ops1[k].Ends();
      assert ops1[k] in ops2;
      var j :| 0 <= j < |ops2| && ops2[j] == ops1[k];
      assert ops2[j].Ends();
    }
  }

  // ---- runs beyond the window ----

  /** A run of the code, state by state, in which every offer keeps ring and output in step. Offers may go beyond the
      reader's room, and the output may be cut short. */
  ghost predicate InStepRun(rs: seq<Reassembler>, s: seq<Byte>, ops: seq<Op>) {
    && |rs| == |ops| + 1
    && forall k :: 0 <= k < |ops| ==> InStepMove(rs[k], rs[k + 1], s, ops[k])
  }

  ghost predicate InStepMove(r: Reassembler, q: Reassembler, s: seq<Byte>, op: Op) {
    && r.WellFormed() && Possible(r, s, op) && q == Apply(r, s, op)
    && (op.Offer? ==> InStepOffer(r, s[op.lo..op.hi], op.lo))
  }

  lemma InStepKeeps(r: Reassembler, q: Reassembler, s: seq<Byte>, op: Op)
    requires r.Agrees(s) && InStepMove(r, q, s, op)
    ensures q.Agrees(s)
  {
    hide Push, Aborts, InStepOffer;
    if op.Offer? {
      PushInStep(r, s, op.lo, op.hi, op.eof);
    }
  }

  /** Such a run is safe throughout: the output is always a prefix of `s`, and what is held is what stands there. */
  lemma {:induction false} InStepSafe(rs: seq<Reassembler>, s: seq<Byte>, ops: seq<Op>, n: nat)
    requires InStepRun(rs, s, ops) && rs[0].Agrees(s) && n < |rs|
    ensures rs[n].Agrees(s) && rs[n].out.written <= s
  {
    hide InStepMove;
    if n > 0 {
      InStepSafe(rs, s, ops, n - 1);
      InStepKeeps(rs[n - 1], rs[n], s, ops[n - 1]);
    }
  }

  /** Conforming offers in the window keep in step, so the runs above are such runs. */
  lemma LegalInStep(r: Reassembler, s: seq<Byte>, op: Op)
    requires r.InWindow() && r.Agrees(s) && Legal(r, s, op)
    ensures Possible(r, s, op) && InStepMove(r, Apply(r, s, op), s, op)
  {
    hide Push, Aborts, Conforms, InStepAfter;
    ApplyKeeps(r, s, op);
    if op.Offer? && r.Next() <= op.hi {
      InWindowInStep(r, Kept(r.out, s[op.lo..op.hi], op.lo), Start(r.out, op.lo));
    }
  }
}
