/** The search for networks: ports in chunks of five, each chunk in three ways, every port by a
  * query of its own. */
module PortScan {
  import opened Basics

  const DETECT_PORT_STEP := 5

  datatype NetType = NetQchat | NetVypress
  const NET_TYPE_FIRST := NetQchat
  const NET_TYPE_LAST := NetVypress
  const NET_TYPE_NUM := 2

  /** A way to look for a network, and a query sent that way to a port. */
  datatype Way = Way(kind: NetType, multicast: bool)
  datatype Probe = Probe(port: nat, way: Way)

  /** QuickChat knows no multicast. */
  predicate Sensible(w: Way) { w.kind == NetQchat ==> !w.multicast }

  function WayNo(w: Way): nat { if w.kind == NetQchat then 0 else if !w.multicast then 1 else 2 }

  function WayOf(i: nat): (w: Way)
    ensures i < 3 ==> Sensible(w) && WayNo(w) == i
  {
    if i == 0 then Way(NetQchat, false) else Way(NetVypress, i == 2)
  }

  /** The network the client is connected to keeps its socket, and is not probed. */
  datatype Current = Nobody | On(kind: NetType, port: nat)

  predicate Skipped(port: nat, kind: NetType, current: Current) { current == On(kind, port) }

  function Min(a: nat, b: nat): nat { if a < b then a else b }

  // ---------------------------------------------------------------- one chunk

  /** The probes of one step, in the order they are sent. */
  function ChunkProbes(lo: nat, hi: nat, w: Way, current: Current): seq<Probe>
    decreases hi + 1 - lo
  {
    if lo > hi then []
    else (if Skipped(lo, w.kind, current) then [] else [Probe(lo, w)]) + ChunkProbes(lo + 1, hi, w, current)
  }

  function Count(ps: seq<Probe>, p: Probe): nat { multiset(ps)[p] }

  lemma CountAppend(a: seq<Probe>, b: seq<Probe>, p: Probe)
    ensures Count(a + b, p) == Count(a, p) + Count(b, p)
  {
    assert multiset(a + b) == multiset(a) + multiset(b);
  }

  lemma ChunkStep(lo: nat, hi: nat, w: Way, current: Current)
    requires lo <= hi
    ensures var rest := ChunkProbes(lo + 1, hi, w, current);
      ChunkProbes(lo, hi, w, current) == if Skipped(lo, w.kind, current) then rest else [Probe(lo, w)] + rest
  {
    assert [] + ChunkProbes(lo + 1, hi, w, current) == ChunkProbes(lo + 1, hi, w, current);
  }

  lemma {:induction false} ChunkCount(lo: nat, hi: nat, w: Way, current: Current, p: Probe)
    ensures Count(ChunkProbes(lo, hi, w, current), p)
      == if lo <= p.port <= hi && p.way == w && !Skipped(p.port, w.kind, current) then 1 else 0
    decreases hi + 1 - lo
  {
    hide ChunkProbes, Count, Skipped;
    if lo <= hi {
      var rest := ChunkProbes(lo + 1, hi, w, current);
      ChunkCount(lo + 1, hi, w, current, p);
      ChunkStep(lo, hi, w, current);
      CountAppend([Probe(lo, w)], rest, p);
      CountOne(Probe(lo, w), p);
    } else {
      ChunkNone(lo, hi, w, current, p);
    }
  }

  lemma ChunkEmpty(lo: nat, hi: nat, w: Way, current: Current)
    requires lo > hi
    ensures ChunkProbes(lo, hi, w, current) == []
  {
  }

  lemma ChunkNone(lo: nat, hi: nat, w: Way, current: Current, p: Probe)
    requires lo > hi
    ensures Count(ChunkProbes(lo, hi, w, current), p) == 0
  {
  }

  lemma CountOne(q: Probe, p: Probe)
    ensures Count([q], p) == if p == q then 1 else 0
  {
    assert multiset([q]) == multiset{q};
  }

  // ---------------------------------------------------------------- all steps

  /** The chunk of a step, the way of a step, and how many steps there are. */
  function ChunkBegin(begin: nat, step: nat): nat { begin + DETECT_PORT_STEP * (step / 3) }

  function ChunkEnd(begin: nat, end: nat, step: nat): nat {
    Min(end, ChunkBegin(begin, step) + DETECT_PORT_STEP - 1)
  }

  function NumSteps(begin: nat, end: nat): nat
    requires begin <= end
  {
    (end - begin + 1 + DETECT_PORT_STEP - 1) / DETECT_PORT_STEP * (NET_TYPE_NUM + 1)
  }

  function StepProbes(begin: nat, end: nat, step: nat, current: Current): seq<Probe> {
    ChunkProbes(ChunkBegin(begin, step), ChunkEnd(begin, end, step), WayOf(step % 3), current)
  }

  function Probes(begin: nat, end: nat, steps: nat, current: Current): seq<Probe> {
    if steps == 0 then []
    else Probes(begin, end, steps - 1, current) + StepProbes(begin, end, steps - 1, current)
  }

  /** The one step that sends a probe. */
  function HomeStep(begin: nat, p: Probe): nat
    requires begin <= p.port
  {
    (p.port - begin) / DETECT_PORT_STEP * 3 + WayNo(p.way)
  }

  predicate Wanted(begin: nat, end: nat, p: Probe, current: Current) {
    && begin <= p.port <= end
    && (p.way.kind == NetQchat ==> !p.way.multicast)
    && current != On(p.way.kind, p.port)
  }

  /** A step probes at most five ports, in order, all of them one way; of the three steps for the same ports the first
    * looks for QuickChat, the second for Vypress, and the third for Vypress by multicast. */
  lemma {:induction false} StepsInOrder(begin: nat, end: nat, step: nat, current: Current)
    ensures |StepProbes(begin, end, step, current)| <= 5
    ensures forall k :: 0 <= k < |StepProbes(begin, end, step, current)| ==>
      var p := StepProbes(begin, end, step, current)[k];
      && begin + 5 * (step / 3) <= p.port < begin + 5 * (step / 3) + 5
      && p.way == if step % 3 == 0 then Way(NetQchat, false)
                  else if step % 3 == 1 then Way(NetVypress, false) else Way(NetVypress, true)
    ensures forall j, k :: 0 <= j < k < |StepProbes(begin, end, step, current)| ==>
      StepProbes(begin, end, step, current)[j].port < StepProbes(begin, end, step, current)[k].port
  {
    ChunkInOrder(ChunkBegin(begin, step), ChunkEnd(begin, end, step), WayOf(step % 3), current);
  }

  lemma {:induction false} ChunkInOrder(lo: nat, hi: nat, w: Way, current: Current)
    ensures var ps := ChunkProbes(lo, hi, w, current);
      && |ps| <= (if lo <= hi then hi + 1 - lo else 0)
      && (forall k :: 0 <= k < |ps| ==> lo <= ps[k].port <= hi && ps[k].way == w)
      && (forall j, k :: 0 <= j < k < |ps| ==> ps[j].port < ps[k].port)
    decreases hi + 1 - lo
  {
    if lo <= hi {
      ChunkInOrder(lo + 1, hi, w, current);
      ChunkStep(lo, hi, w, current);
    }
  }

  lemma StepSends(begin: nat, end: nat, step: nat, current: Current, p: Probe)
    requires begin <= end
    ensures Count(StepProbes(begin, end, step, current), p)
      == if Wanted(begin, end, p, current) && HomeStep(begin, p) == step then 1 else 0
  {
    var lo, hi, w := ChunkBegin(begin, step), ChunkEnd(begin, end, step), WayOf(step % 3);
    ChunkCount(lo, hi, w, current, p);
    hide ChunkProbes, Count, Skipped;
    if begin <= p.port {
      HomeChunk(begin, step, p.port);
      assert HomeStep(begin, p) == 3 * ((p.port - begin) / DETECT_PORT_STEP) + WayNo(p.way);
      ThreeDigits((p.port - begin) / DETECT_PORT_STEP, WayNo(p.way), step);
      assert Sensible(p.way) && WayNo(p.way) == step % 3 <==> p.way == w;
    }
  }

  lemma HomeChunk(begin: nat, step: nat, port: nat)
    requires begin <= port
    ensures ChunkBegin(begin, step) <= port <= ChunkBegin(begin, step) + DETECT_PORT_STEP - 1
      <==> (port - begin) / DETECT_PORT_STEP == step / 3
  {
    var k, j := (port - begin) / DETECT_PORT_STEP, (port - begin) % DETECT_PORT_STEP;
    assert port == begin + DETECT_PORT_STEP * k + j;
  }

  lemma ThreeDigits(k: nat, i: nat, step: nat)
    requires i <= 2
    ensures 3 * k + i == step <==> k == step / 3 && i == step % 3
  {
    assert step == 3 * (step / 3) + step % 3;
  }

  lemma {:induction false} ProbesCount(begin: nat, end: nat, steps: nat, current: Current, p: Probe)
    requires begin <= end
    ensures Count(Probes(begin, end, steps, current), p)
      == if Wanted(begin, end, p, current) && HomeStep(begin, p) < steps then 1 else 0
  {
    hide StepProbes, HomeStep, Wanted;
    if steps > 0 {
      ProbesCount(begin, end, steps - 1, current, p);
      CountAppend(Probes(begin, end, steps - 1, current), StepProbes(begin, end, steps - 1, current), p);
      StepSends(begin, end, steps - 1, current, p);
    }
  }

  /** Every port of the range is probed exactly once in every way, but for the network the client is
    * on; nothing else is probed. */
  lemma EveryProbeOnce(begin: nat, end: nat, current: Current, p: Probe)
    requires begin <= end
    ensures Count(Probes(begin, end, NumSteps(begin, end), current), p)
      == if Wanted(begin, end, p, current) then 1 else 0
  {
    assert Wanted(begin, end, p, current) ==> begin <= p.port <= end;
    hide Probes, Count, Wanted;
    ProbesCount(begin, end, NumSteps(begin, end), current, p);
    if begin <= p.port <= end {
      var k := (p.port - begin) / DETECT_PORT_STEP;
      var n := (end - begin + DETECT_PORT_STEP) / DETECT_PORT_STEP;
      assert DETECT_PORT_STEP * k <= end - begin < DETECT_PORT_STEP * n;
      assert k < n;
      assert WayNo(p.way) <= 2;
    }
  }

  /** The last chunk is the one that reaches the end of the range. */
  lemma LastChunk(begin: nat, end: nat, step: nat)
    requires begin <= end
    ensures 1 <= NumSteps(begin, end)
    ensures step < NumSteps(begin, end) ==> ChunkBegin(begin, step) <= end
    ensures step < NumSteps(begin, end) ==>
      (ChunkEnd(begin, end, step) < end <==> 3 * (step / 3) + 3 < NumSteps(begin, end))
  {
    var n := (end - begin + DETECT_PORT_STEP) / DETECT_PORT_STEP;
    var c := step / 3;
    assert NumSteps(begin, end) == 3 * n;
    assert DETECT_PORT_STEP * (n - 1) <= end - begin < DETECT_PORT_STEP * n;
    if step < 3 * n {
      assert c < n;
      assert DETECT_PORT_STEP * c <= DETECT_PORT_STEP * (n - 1);
      if c + 1 < n {
        assert DETECT_PORT_STEP * (c + 1) <= DETECT_PORT_STEP * (n - 1);
      }
    }
  }

  // ---------------------------------------------------------------- the counter of 16 bits

  function Next16(port: nat): nat { if port < 0xffff then port + 1 else 0 }

  /** The counter after a number of rounds. */
  function Counter(begin: nat, rounds: nat): nat {
    if rounds == 0 then begin else Next16(Counter(begin, rounds - 1))
  }

  lemma {:induction false} CounterRuns(begin: nat, rounds: nat)
    requires begin + rounds <= 0xffff
    ensures Counter(begin, rounds) == begin + rounds
  {
    if rounds > 0 { CounterRuns(begin, rounds - 1); }
  }

  lemma {:induction false} CounterBounded(begin: nat, rounds: nat)
    requires begin <= 0xffff
    ensures Counter(begin, rounds) <= 0xffff
  {
    if rounds > 0 { CounterBounded(begin, rounds - 1); }
  }

  /** The loop over the ports of a chunk comes to its end exactly if the chunk does not end with the
    * last port there is. */
  lemma PortLoopEndsExactly(begin: nat, end: nat)
    requires begin <= end <= 0xffff
    ensures (exists rounds :: Counter(begin, rounds) > end) <==> end < 0xffff
  {
    if end < 0xffff {
      CounterRuns(begin, end + 1 - begin);
      assert Counter(begin, end + 1 - begin) > end;
    } else {
      forall rounds ensures Counter(begin, rounds) <= end {
        CounterBounded(begin, rounds);
      }
    }
  }

  // ---------------------------------------------------------------- the dialog

  class NetselectDlg {
    var rangeBegin: nat
    var rangeEnd: nat
    var rangeCurrentBegin: nat
    var rangeCurrentEnd: nat
    var detectNetType: NetType
    var detectUseMulticast: bool
    var detectNumSteps: nat
    var detectStep: nat
    const detectLinks: array<Option<Probe>>
    var sent: seq<Probe>   // the queries that went out

    ghost predicate Valid()
      reads this
    {
      && rangeBegin <= rangeEnd < 0xffff
      && detectLinks.Length == DETECT_PORT_STEP
      && detectNumSteps == NumSteps(rangeBegin, rangeEnd)
      && detectStep < detectNumSteps
      && rangeCurrentBegin == ChunkBegin(rangeBegin, detectStep)
      && rangeCurrentEnd == ChunkEnd(rangeBegin, rangeEnd, detectStep)
      && Way(detectNetType, detectUseMulticast) == WayOf(detectStep % 3)
    }

    constructor ()
      ensures detectLinks.Length == DETECT_PORT_STEP && fresh(detectLinks) && sent == []
    {
      rangeBegin, rangeEnd, rangeCurrentBegin, rangeCurrentEnd := 0, 0, 0, 0;
      detectNetType, detectUseMulticast, detectNumSteps, detectStep := NET_TYPE_FIRST, false, 0, 0;
      detectLinks := new Option<Probe>[DETECT_PORT_STEP](_ => None);
      sent := [];
    }

    /** dlg_advance_detect_step: false if there are no more steps. */
    method AdvanceDetectStep() returns (more: bool)
      requires Valid()
      modifies this
      ensures Valid() && rangeBegin == old(rangeBegin) && rangeEnd == old(rangeEnd) && sent == old(sent)
      ensures more <==> old(detectStep) + 1 < detectNumSteps
      ensures detectStep == if more then old(detectStep) + 1 else old(detectStep)
    {
      LastChunk(rangeBegin, rangeEnd, detectStep);
      ghost var c, i := detectStep / 3, detectStep % 3;
      assert detectStep == 3 * c + i;
      if !detectUseMulticast && detectNetType == NetVypress {
        detectUseMulticast := true;
        assert (detectStep + 1) / 3 == c && (detectStep + 1) % 3 == i + 1;
      } else if detectNetType != NET_TYPE_LAST {
        detectNetType := NetVypress;
        detectUseMulticast := false;
        assert (detectStep + 1) / 3 == c && (detectStep + 1) % 3 == i + 1;
      } else if rangeCurrentEnd < rangeEnd {
        detectNetType := NET_TYPE_FIRST;
        detectUseMulticast := false;
        rangeCurrentBegin := rangeCurrentBegin + DETECT_PORT_STEP;
        rangeCurrentEnd := Min(rangeEnd, rangeCurrentBegin + DETECT_PORT_STEP - 1);
        assert i == 2 && (detectStep + 1) / 3 == c + 1 && (detectStep + 1) % 3 == 0;
      } else {
        return false;
      }
      detectStep := detectStep + 1;
      more := true;
    }

    /** dlg_init_detect_links, with a counter of 16 bits. */
    method InitDetectLinks(current: Current)
      requires Valid()
      modifies this`sent, detectLinks
      ensures Valid()
      ensures sent == old(sent) + StepProbes(rangeBegin, rangeEnd, detectStep, current)
    {
      hide ChunkProbes, NumSteps;
      LastChunk(rangeBegin, rangeEnd, detectStep);
      var way := Way(detectNetType, detectUseMulticast);
      ghost var lo, hi := rangeCurrentBegin, rangeCurrentEnd;
      var port := rangeCurrentBegin;
      while port <= rangeCurrentEnd
        invariant lo <= port <= hi + 1
        invariant sent + ChunkProbes(port, hi, way, current) == old(sent) + ChunkProbes(lo, hi, way, current)
        decreases hi + 1 - port
      {
        var num := port - rangeCurrentBegin;
        ChunkStep(port, hi, way, current);
        ghost var rest := ChunkProbes(port + 1, hi, way, current);
        if Skipped(port, detectNetType, current) {
          detectLinks[num] := None;
        } else {
          detectLinks[num] := Some(Probe(port, way));
          assert sent + ([Probe(port, way)] + rest) == (sent + [Probe(port, way)]) + rest;
          sent := sent + [Probe(port, way)];
        }
        port := Next16(port);
      }
      ChunkEmpty(port, hi, way, current);
      assert sent + [] == sent;
    }

    method CleanupDetectLinks()
      requires detectLinks.Length == DETECT_PORT_STEP
      modifies detectLinks
      ensures forall i :: 0 <= i < DETECT_PORT_STEP ==> detectLinks[i] == None
    {
      var i := 0;
      while i < DETECT_PORT_STEP
        invariant 0 <= i <= DETECT_PORT_STEP
        invariant forall k :: 0 <= k < i ==> detectLinks[k] == None
      {
        detectLinks[i] := None;
        i := i + 1;
      }
    }

    /** The arithmetic of dlg_start_detection. */
    method StartDetection(begin: nat, end: nat, current: Current)
      requires begin <= end < 0xffff && detectLinks.Length == DETECT_PORT_STEP && sent == []
      modifies this, detectLinks
      ensures Valid() && rangeBegin == begin && rangeEnd == end && detectStep == 0
      ensures sent == Probes(begin, end, 1, current)
    {
      rangeBegin := begin;
      rangeEnd := end;
      rangeCurrentBegin := begin;
      rangeCurrentEnd := Min(rangeEnd, rangeCurrentBegin + DETECT_PORT_STEP - 1);
      detectNetType := NET_TYPE_FIRST;
      detectUseMulticast := false;
      detectNumSteps :=
        (rangeEnd - rangeBegin + 1 + DETECT_PORT_STEP - 1) / DETECT_PORT_STEP * (NET_TYPE_NUM + 1);
      detectStep := 0;
      LastChunk(begin, end, 0);
      CleanupDetectLinks();
      InitDetectLinks(current);
      assert Probes(begin, end, 1, current) == [] + StepProbes(begin, end, 0, current);
    }

    /** A detection from its start to the timeout that finds no more steps. */
    method Detect(begin: nat, end: nat, current: Current)
      requires begin <= end < 0xffff && detectLinks.Length == DETECT_PORT_STEP && sent == []
      modifies this, detectLinks
      ensures Valid() && rangeBegin == begin && rangeEnd == end
      ensures detectStep == detectNumSteps - 1
      ensures forall p :: Count(sent, p) == if Wanted(begin, end, p, current) then 1 else 0
    {
      hide StepProbes, NumSteps, Wanted, ChunkBegin, ChunkEnd, WayOf;
      StartDetection(begin, end, current);
      var more := true;
      while more
        invariant Valid() && rangeBegin == begin && rangeEnd == end
        invariant sent == Probes(begin, end, detectStep + 1, current)
        invariant !more ==> detectStep + 1 == detectNumSteps
        decreases detectNumSteps - detectStep, more
      {
        CleanupDetectLinks();
        more := AdvanceDetectStep();
        if more { InitDetectLinks(current); }
      }
      forall p ensures Count(sent, p) == if Wanted(begin, end, p, current) then 1 else 0 {
        EveryProbeOnce(begin, end, current, p);
      }
    }
  }
}
