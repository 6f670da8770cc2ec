/** SendRecvEach of src/redecomp/utils/MPIUtility.hpp as a step relation over all ranks, for any number
    of back-to-back calls on the same tag, and the array exchange of src/redecomp/utils/MPIArray.hpp
    that is built on it. */
module Exchange {

  /** Destination and source of round i on rank me. */
  function Dest(n: nat, me: nat, i: nat): nat
    requires n > 0
  {
    (me + i) % n
  }

  function Source(n: nat, me: nat, i: nat): nat
    requires n > 0 && i <= n
  {
    (me + n - i) % n
  }

  /** The round in which s sends to d. */
  function Round(n: nat, s: nat, d: nat): nat
    requires s < n && d < n
  {
    if s <= d then d - s else d + n - s
  }

  lemma ModOnce(x: nat, n: nat)
    requires x < 2 * n
    ensures x % n == if x < n then x else x - n
  {
    if x >= n { assert x == n + (x - n); }
  }

  /** Round i pairs each rank with one destination and one source, and the two views agree: the rank
      that me sends to in round i receives from me in round i. */
  lemma RoundsPair(n: nat, me: nat, i: nat)
    requires me < n && 1 <= i < n
    ensures Dest(n, me, i) < n && Dest(n, me, i) != me
    ensures Source(n, me, i) < n && Source(n, me, i) != me
    ensures Source(n, Dest(n, me, i), i) == me && Dest(n, Source(n, me, i), i) == me
    ensures Round(n, me, Dest(n, me, i)) == i && Round(n, Source(n, me, i), me) == i
  {
    ModOnce(me + i, n);
    ModOnce(me + n - i, n);
    ModOnce(Dest(n, me, i) + n - i, n);
    ModOnce(Source(n, me, i) + i, n);
  }

  lemma RoundIsInverse(n: nat, s: nat, d: nat)
    requires s < n && d < n && s != d
    ensures 1 <= Round(n, s, d) < n
    ensures Dest(n, s, Round(n, s, d)) == d && Source(n, d, Round(n, s, d)) == s
  {
    ModOnce(s + Round(n, s, d), n);
    ModOnce(d + n - Round(n, s, d), n);
  }

  /** What process_recv is called with. */
  datatype Receipt<T> = Receipt(call: nat, source: nat, data: T)

  datatype Phase = Sending | Receiving | Waiting

  /** Where a rank stands: in round `round` of call `call`; round n stands for the on-rank processing
      after the loop. */
  datatype Pc = Pc(call: nat, round: nat, phase: Phase)

  datatype State<T> = State(pc: seq<Pc>, channel: map<(nat, nat), seq<T>>, log: seq<seq<Receipt<T>>>)

  /** The containers that build_send produces: by call, source rank and destination rank. */
  type Payload<T> = (nat, nat, nat) -> T

  ghost predicate Shaped<T>(n: nat, calls: nat, s: State<T>) {
    && n > 0 && |s.pc| == n && |s.log| == n
    && (forall r :: 0 <= r < n ==> 1 <= s.pc[r].round <= n && s.pc[r].call <= calls)
    && (forall r :: 0 <= r < n && s.pc[r].round == n ==> s.pc[r].phase == Sending)
    && (forall a, b :: 0 <= a < n && 0 <= b < n ==> (a, b) in s.channel)
  }

  ghost function Start<T>(n: nat): State<T> {
    State(seq(n, _ => Pc(0, 1, Sending)),
          map a, b | 0 <= a < n && 0 <= b < n :: (a, b) := [],
          seq(n, _ => []))
  }

  /** Whether rank r can take its next step.  Under `eager` a send may complete before it is received;
      otherwise its wait returns only once the destination has received the message. */
  ghost predicate CanStep<T>(n: nat, calls: nat, s: State<T>, r: nat, eager: bool)
    requires Shaped(n, calls, s) && r < n
  {
    var pc := s.pc[r];
    && pc.call < calls
    && (pc.round == n || match pc.phase
          case Sending => true
          case Receiving => Source(n, r, pc.round) < n && s.channel[(Source(n, r, pc.round), r)] != []
          case Waiting => eager || (Dest(n, r, pc.round) < n && s.channel[(r, Dest(n, r, pc.round))] == []))
  }

  /** Where a rank stands after its next step. */
  function NextPc(n: nat, pc: Pc): Pc {
    if pc.round == n then Pc(pc.call + 1, 1, Sending)
    else match pc.phase
      case Sending => pc.(phase := Receiving)
      case Receiving => pc.(phase := Waiting)
      case Waiting => Pc(pc.call, pc.round + 1, Sending)
  }

  /** One step of rank r: build and send, receive and process, wait, or process its own data. */
  ghost function Step<T>(n: nat, calls: nat, payload: Payload<T>, s: State<T>, r: nat): State<T>
    requires Shaped(n, calls, s) && r < n && CanStep(n, calls, s, r, true)
  {
    var pc := s.pc[r];
    var next := s.pc[r := NextPc(n, pc)];
    if pc.round == n then
      State(next, s.channel, s.log[r := s.log[r] + [Receipt(pc.call, r, payload(pc.call, r, r))]])
    else match pc.phase
      case Sending =>
        var edge := (r, Dest(n, r, pc.round));
        var before := if edge in s.channel then s.channel[edge] else [];
        State(next, s.channel[edge := before + [payload(pc.call, r, edge.1)]], s.log)
      case Receiving =>
        var edge := (Source(n, r, pc.round), r);
        State(next, s.channel[edge := s.channel[edge][1..]],
              s.log[r := s.log[r] + [Receipt(pc.call, edge.0, s.channel[edge][0])]])
      case Waiting =>
        State(next, s.channel, s.log)
  }

  /** A run names the rank that moves at each step: any interleaving. */
  ghost predicate IsRun<T(!new)>(n: nat, calls: nat, payload: Payload<T>, run: seq<nat>, s: State<T>)
    requires n > 0
    decreases |run|
  {
    if run == [] then s == Start(n)
    else exists before: State<T> ::
        && IsRun(n, calls, payload, run[..|run| - 1], before)
        && Shaped(n, calls, before)
        && run[|run| - 1] < n
        && CanStep(n, calls, before, run[|run| - 1], true)
        && s == Step(n, calls, payload, before, run[|run| - 1])
  }

  /** Messages that a rank at pc has put into, or taken from, a channel used in round `round`. */
  ghost function Count(pc: Pc, round: nat, done: set<Phase>): nat {
    pc.call + if pc.round > round || (pc.round == round && pc.phase in done) then 1 else 0
  }

  ghost function Sent(pc: Pc, round: nat): nat { Count(pc, round, {Receiving, Waiting}) }

  ghost function Received(pc: Pc, round: nat): nat { Count(pc, round, {Waiting}) }

  /** What rank d must have processed in the first i rounds of call c, in order. */
  function RoundsLog<T>(n: nat, payload: Payload<T>, d: nat, c: nat, i: nat): (log: seq<Receipt<T>>)
    requires d < n && i < n
    ensures |log| == i
  {
    if i == 0 then []
    else RoundsLog(n, payload, d, c, i - 1) +
         [Receipt(c, Source(n, d, i), payload(c, Source(n, d, i), d))]
  }

  /** What rank d must have processed in one whole call. */
  function CallLog<T>(n: nat, payload: Payload<T>, d: nat, c: nat): seq<Receipt<T>>
    requires d < n
  {
    RoundsLog(n, payload, d, c, n - 1) + [Receipt(c, d, payload(c, d, d))]
  }

  function CallsLog<T>(n: nat, payload: Payload<T>, d: nat, calls: nat): seq<Receipt<T>>
    requires d < n
  {
    if calls == 0 then [] else CallsLog(n, payload, d, calls - 1) + CallLog(n, payload, d, calls - 1)
  }

  /** The log of rank d is a function of where it stands, whatever the interleaving was. */
  ghost function LogAt<T>(n: nat, payload: Payload<T>, d: nat, pc: Pc): seq<Receipt<T>>
    requires d < n && 1 <= pc.round <= n
  {
    CallsLog(n, payload, d, pc.call) +
    RoundsLog(n, payload, d, pc.call, if pc.phase == Waiting && pc.round < n then pc.round else pc.round - 1)
  }

  ghost predicate ChannelInv<T>(n: nat, payload: Payload<T>, s: State<T>, a: nat, b: nat)
    requires a < n && b < n && |s.pc| == n && (a, b) in s.channel
  {
    var (lo, hi) := (Received(s.pc[b], Round(n, a, b)), Sent(s.pc[a], Round(n, a, b)));
    lo <= hi && s.channel[(a, b)] == seq(hi - lo, j requires j >= 0 => payload(lo + j, a, b))
  }

  ghost predicate Inv<T>(n: nat, calls: nat, payload: Payload<T>, s: State<T>) {
    && Shaped(n, calls, s)
    && (forall a, b :: 0 <= a < n && 0 <= b < n && a != b ==> ChannelInv(n, payload, s, a, b))
    && (forall d :: 0 <= d < n ==> s.log[d] == LogAt(n, payload, d, s.pc[d]))
  }

  /** A step counts one message more in its own round when it sends or receives, and changes no other count. */
  lemma CountsMove(n: nat, pc: Pc, k: nat)
    requires 1 <= k < n && 1 <= pc.round <= n
    ensures Sent(NextPc(n, pc), k) == Sent(pc, k) + if pc.round == k && pc.phase == Sending then 1 else 0
    ensures Received(NextPc(n, pc), k) == Received(pc, k) + if pc.round == k && pc.phase == Receiving then 1 else 0
  {
  }

  /** A step of rank r keeps the account of every channel: it is the only one to send on channels from
      r, and the only one to receive on channels to r. */
  lemma StepChannel<T>(n: nat, calls: nat, payload: Payload<T>, s: State<T>, r: nat, a: nat, b: nat)
    requires Shaped(n, calls, s) && r < n && CanStep(n, calls, s, r, true)
    requires a < n && b < n && a != b && ChannelInv(n, payload, s, a, b)
    ensures ChannelInv(n, payload, Step(n, calls, payload, s, r), a, b)
  {
    var pc := s.pc[r];
    RoundIsInverse(n, a, b);
    if pc.round < n && pc.phase == Sending && (a, b) == (r, Dest(n, r, pc.round)) {
      StepSend(n, calls, payload, s, r);
    } else if pc.round < n && pc.phase == Receiving && (a, b) == (Source(n, r, pc.round), r) {
      StepReceive(n, calls, payload, s, r);
    } else {
      StepElsewhere(n, calls, payload, s, r, a, b);
    }
  }

  lemma StepElsewhere<T>(n: nat, calls: nat, payload: Payload<T>, s: State<T>, r: nat, a: nat, b: nat)
    requires Shaped(n, calls, s) && r < n && CanStep(n, calls, s, r, true)
    requires a < n && b < n && a != b && ChannelInv(n, payload, s, a, b)
    requires s.pc[r].round < n && s.pc[r].phase == Sending ==> (a, b) != (r, Dest(n, r, s.pc[r].round))
    requires s.pc[r].round < n && s.pc[r].phase == Receiving ==> (a, b) != (Source(n, r, s.pc[r].round), r)
    ensures ChannelInv(n, payload, Step(n, calls, payload, s, r), a, b)
  {
    var k := Round(n, a, b);
    RoundIsInverse(n, a, b);
    CountsMove(n, s.pc[r], k);
    var t := Step(n, calls, payload, s, r);
    assert t.channel[(a, b)] == s.channel[(a, b)];
    assert Sent(t.pc[a], k) == Sent(s.pc[a], k) && Received(t.pc[b], k) == Received(s.pc[b], k);
  }

  lemma StepSend<T>(n: nat, calls: nat, payload: Payload<T>, s: State<T>, r: nat)
    requires Shaped(n, calls, s) && r < n && CanStep(n, calls, s, r, true)
    requires s.pc[r].round < n && s.pc[r].phase == Sending
    requires Dest(n, r, s.pc[r].round) < n && ChannelInv(n, payload, s, r, Dest(n, r, s.pc[r].round))
    ensures ChannelInv(n, payload, Step(n, calls, payload, s, r), r, Dest(n, r, s.pc[r].round))
  {
    RoundsPair(n, r, s.pc[r].round);
    var b := Dest(n, r, s.pc[r].round);
    var t := Step(n, calls, payload, s, r);
    assert t.channel[(r, b)] == s.channel[(r, b)] + [payload(s.pc[r].call, r, b)];
    CountsMove(n, s.pc[r], s.pc[r].round);
  }

  lemma StepReceive<T>(n: nat, calls: nat, payload: Payload<T>, s: State<T>, r: nat)
    requires Shaped(n, calls, s) && r < n && CanStep(n, calls, s, r, true)
    requires s.pc[r].round < n && s.pc[r].phase == Receiving
    requires Source(n, r, s.pc[r].round) < n && ChannelInv(n, payload, s, Source(n, r, s.pc[r].round), r)
    ensures ChannelInv(n, payload, Step(n, calls, payload, s, r), Source(n, r, s.pc[r].round), r)
    ensures s.channel[(Source(n, r, s.pc[r].round), r)][0]
         == payload(s.pc[r].call, Source(n, r, s.pc[r].round), r)
  {
    RoundsPair(n, r, s.pc[r].round);
    var a := Source(n, r, s.pc[r].round);
    var t := Step(n, calls, payload, s, r);
    assert t.channel[(a, r)] == s.channel[(a, r)][1..];
    CountsMove(n, s.pc[r], s.pc[r].round);
  }

  /** What rank d is to process in its next step from pc. */
  ghost function NextReceipts<T>(n: nat, payload: Payload<T>, d: nat, pc: Pc): seq<Receipt<T>>
    requires d < n && 1 <= pc.round <= n
  {
    if pc.round == n then [Receipt(pc.call, d, payload(pc.call, d, d))]
    else if pc.phase == Receiving then
      [Receipt(pc.call, Source(n, d, pc.round), payload(pc.call, Source(n, d, pc.round), d))]
    else []
  }

  lemma LogMoves<T>(n: nat, payload: Payload<T>, d: nat, pc: Pc)
    requires d < n && 1 <= pc.round <= n && (pc.round == n ==> pc.phase == Sending)
    ensures LogAt(n, payload, d, NextPc(n, pc)) == LogAt(n, payload, d, pc) + NextReceipts(n, payload, d, pc)
  {
    var calls := CallsLog(n, payload, d, pc.call);
    var rounds := RoundsLog(n, payload, d, pc.call, pc.round - 1);
    var more := NextReceipts(n, payload, d, pc);
    assert calls + (rounds + more) == (calls + rounds) + more;
    if pc.round == n {
      assert CallsLog(n, payload, d, pc.call + 1) == calls + CallLog(n, payload, d, pc.call);
    }
  }

  lemma StepLog<T>(n: nat, calls: nat, payload: Payload<T>, s: State<T>, r: nat)
    requires Inv(n, calls, payload, s) && r < n && CanStep(n, calls, s, r, true)
    ensures Step(n, calls, payload, s, r).log[r] == LogAt(n, payload, r, NextPc(n, s.pc[r]))
  {
    var pc := s.pc[r];
    LogMoves(n, payload, r, pc);
    if pc.round < n && pc.phase == Receiving {
      RoundsPair(n, r, pc.round);
      assert ChannelInv(n, payload, s, Source(n, r, pc.round), r);
      StepReceive(n, calls, payload, s, r);
    }
  }

  lemma StepInv<T>(n: nat, calls: nat, payload: Payload<T>, s: State<T>, r: nat)
    requires Inv(n, calls, payload, s) && r < n && CanStep(n, calls, s, r, true)
    ensures Inv(n, calls, payload, Step(n, calls, payload, s, r))
  {
    var t := Step(n, calls, payload, s, r);
    if s.pc[r].round < n { RoundsPair(n, r, s.pc[r].round); }
    forall a, b | 0 <= a < n && 0 <= b < n && a != b
      ensures ChannelInv(n, payload, t, a, b)
    {
      StepChannel(n, calls, payload, s, r, a, b);
    }
    StepLog(n, calls, payload, s, r);
  }

  /** Steps a rank still has to take. */
  ghost function Remaining(n: nat, calls: nat, pc: Pc): int
    requires n > 0
  {
    (calls - pc.call) * (3 * n - 2) - 3 * (pc.round - 1) -
    (match pc.phase case Sending => 0 case Receiving => 1 case Waiting => 2)
  }

  ghost function TotalRemaining(n: nat, calls: nat, pcs: seq<Pc>): int
    requires n > 0
  {
    if pcs == [] then 0 else Remaining(n, calls, pcs[0]) + TotalRemaining(n, calls, pcs[1..])
  }

  lemma {:induction false} TotalUpdate(n: nat, calls: nat, pcs: seq<Pc>, r: nat, pc: Pc)
    requires n > 0 && r < |pcs|
    ensures TotalRemaining(n, calls, pcs[r := pc])
         == TotalRemaining(n, calls, pcs) - Remaining(n, calls, pcs[r]) + Remaining(n, calls, pc)
  {
    if r > 0 {
      TotalUpdate(n, calls, pcs[1..], r - 1, pc);
      assert pcs[r := pc][1..] == pcs[1..][r - 1 := pc];
    } else {
      assert pcs[r := pc][1..] == pcs[1..];
    }
  }

  lemma NextRemaining(n: nat, calls: nat, pc: Pc)
    requires 1 <= pc.round <= n && (pc.round == n ==> pc.phase == Sending)
    ensures Remaining(n, calls, NextPc(n, pc)) == Remaining(n, calls, pc) - 1
  {
    if pc.round == n {
      assert (calls - pc.call) * (3 * n - 2) == (calls - (pc.call + 1)) * (3 * n - 2) + (3 * n - 2);
    }
  }

  lemma StepRemaining<T>(n: nat, calls: nat, payload: Payload<T>, s: State<T>, r: nat)
    requires Shaped(n, calls, s) && r < n && CanStep(n, calls, s, r, true)
    ensures TotalRemaining(n, calls, Step(n, calls, payload, s, r).pc) == TotalRemaining(n, calls, s.pc) - 1
  {
    TotalUpdate(n, calls, s.pc, r, NextPc(n, s.pc[r]));
    NextRemaining(n, calls, s.pc[r]);
  }

  ghost predicate InRange(n: nat, calls: nat, pc: Pc) {
    && pc.call <= calls
    && 1 <= pc.round <= n
    && (pc.round == n ==> pc.phase == Sending)
    && (pc.call == calls ==> pc == Pc(calls, 1, Sending))
  }

  lemma RemainingBound(n: nat, calls: nat, pc: Pc)
    requires n > 0 && InRange(n, calls, pc)
    ensures Remaining(n, calls, pc) >= 0
    ensures Remaining(n, calls, pc) == 0 <==> pc.call == calls
  {
    if pc.call < calls { TimesAtLeast(calls - pc.call, 3 * n - 2); }
  }

  lemma TimesAtLeast(k: nat, p: nat)
    requires k >= 1
    ensures k * p >= p
  {
    assert k * p == (k - 1) * p + p;
  }

  lemma {:induction false} RemainingBounds(n: nat, calls: nat, pcs: seq<Pc>)
    requires n > 0 && forall r :: 0 <= r < |pcs| ==> InRange(n, calls, pcs[r])
    ensures TotalRemaining(n, calls, pcs) >= 0
    ensures TotalRemaining(n, calls, pcs) == 0 <==> forall r :: 0 <= r < |pcs| ==> pcs[r].call == calls
  {
    if pcs != [] {
      RemainingBound(n, calls, pcs[0]);
      RemainingBounds(n, calls, pcs[1..]);
      assert forall r :: 1 <= r < |pcs| ==> pcs[r] == pcs[1..][r - 1];
    }
  }

  ghost predicate Finished<T>(n: nat, calls: nat, s: State<T>) {
    |s.pc| == n && forall r :: 0 <= r < n ==> s.pc[r].call == calls
  }

  ghost predicate AllInRange<T>(n: nat, calls: nat, s: State<T>) {
    forall r :: 0 <= r < |s.pc| ==> InRange(n, calls, s.pc[r])
  }

  lemma StartInv<T>(n: nat, calls: nat, payload: Payload<T>)
    requires n > 0
    ensures Inv(n, calls, payload, Start<T>(n)) && AllInRange(n, calls, Start<T>(n))
  {
    forall a, b | 0 <= a < n && 0 <= b < n && a != b
      ensures ChannelInv(n, payload, Start<T>(n), a, b)
    {
      RoundIsInverse(n, a, b);
    }
  }

  lemma {:induction false} RunInv<T(!new)>(n: nat, calls: nat, payload: Payload<T>, run: seq<nat>, s: State<T>)
    requires n > 0 && IsRun(n, calls, payload, run, s)
    ensures Inv(n, calls, payload, s) && AllInRange(n, calls, s)
    ensures |run| + TotalRemaining(n, calls, s.pc) == TotalRemaining(n, calls, Start<T>(n).pc)
    decreases |run|
  {
    if run == [] {
      StartInv(n, calls, payload);
    } else {
      var r := run[|run| - 1];
      var before: State<T> :|
        && IsRun(n, calls, payload, run[..|run| - 1], before)
        && Shaped(n, calls, before)
        && r < n
        && CanStep(n, calls, before, r, true)
        && s == Step(n, calls, payload, before, r);
      RunInv(n, calls, payload, run[..|run| - 1], before);
      StepKeeps(n, calls, payload, before, r);
    }
  }

  lemma StepKeeps<T>(n: nat, calls: nat, payload: Payload<T>, s: State<T>, r: nat)
    requires Inv(n, calls, payload, s) && AllInRange(n, calls, s) && r < n && CanStep(n, calls, s, r, true)
    ensures var t := Step(n, calls, payload, s, r);
            && Inv(n, calls, payload, t) && AllInRange(n, calls, t)
            && TotalRemaining(n, calls, t.pc) == TotalRemaining(n, calls, s.pc) - 1
  {
    StepInv(n, calls, payload, s, r);
    StepRemaining(n, calls, payload, s, r);
  }

  ghost predicate Behind(a: Pc, b: Pc) {
    a.call < b.call || (a.call == b.call && a.round <= b.round)
  }

  lemma {:induction false} LeastAdvanced(pcs: seq<Pc>) returns (r: nat)
    requires pcs != []
    ensures r < |pcs| && forall q :: 0 <= q < |pcs| ==> Behind(pcs[r], pcs[q])
  {
    if |pcs| == 1 {
      r := 0;
    } else {
      var m := LeastAdvanced(pcs[1..]);
      assert forall q :: 1 <= q < |pcs| ==> pcs[q] == pcs[1..][q - 1];
      r := if Behind(pcs[0], pcs[m + 1]) then 0 else m + 1;
    }
  }

  /** The least advanced rank, if it waits for a message that is not there, waits for a rank of its own
      round that can send; if its message is not yet taken, its partner is ready to take it. */
  lemma PartnerMoves<T>(n: nat, calls: nat, payload: Payload<T>, s: State<T>, r: nat)
    requires Inv(n, calls, payload, s) && r < n && s.pc[r].call < calls && s.pc[r].round < n
    requires forall q :: 0 <= q < n ==> Behind(s.pc[r], s.pc[q])
    ensures Source(n, r, s.pc[r].round) < n && Dest(n, r, s.pc[r].round) < n
    ensures s.pc[r].phase == Receiving && s.channel[(Source(n, r, s.pc[r].round), r)] == []
            ==> CanStep(n, calls, s, Source(n, r, s.pc[r].round), false)
    ensures s.pc[r].phase == Waiting && s.channel[(r, Dest(n, r, s.pc[r].round))] != []
            ==> CanStep(n, calls, s, Dest(n, r, s.pc[r].round), false)
  {
    var pc := s.pc[r];
    RoundsPair(n, r, pc.round);
    if pc.phase == Receiving {
      assert ChannelInv(n, payload, s, Source(n, r, pc.round), r);
    } else if pc.phase == Waiting {
      assert ChannelInv(n, payload, s, r, Dest(n, r, pc.round));
    }
  }

  /** No deadlock, even when every wait holds out for its receive: unless all calls are complete, the
      least advanced rank or its partner of the round can move. */
  lemma NeverStuck<T>(n: nat, calls: nat, payload: Payload<T>, s: State<T>) returns (r: nat)
    requires Inv(n, calls, payload, s) && !Finished(n, calls, s)
    ensures r < n && CanStep(n, calls, s, r, false)
  {
    r := LeastAdvanced(s.pc);
    var pc := s.pc[r];
    if pc.round < n {
      PartnerMoves(n, calls, payload, s, r);
      var from, to := Source(n, r, pc.round), Dest(n, r, pc.round);
      if pc.phase == Receiving && s.channel[(from, r)] == [] {
        r := from;
      } else if pc.phase == Waiting && s.channel[(r, to)] != [] {
        r := to;
      }
    }
  }

  lemma FinalState<T>(n: nat, calls: nat, payload: Payload<T>, s: State<T>)
    requires Inv(n, calls, payload, s) && AllInRange(n, calls, s) && Finished(n, calls, s)
    ensures forall d :: 0 <= d < n ==> s.log[d] == CallsLog(n, payload, d, calls)
    ensures forall a, b :: 0 <= a < n && 0 <= b < n && a != b ==> s.channel[(a, b)] == []
  {
    forall d | 0 <= d < n ensures s.log[d] == CallsLog(n, payload, d, calls) {
      assert InRange(n, calls, s.pc[d]);
    }
    forall a, b | 0 <= a < n && 0 <= b < n && a != b ensures s.channel[(a, b)] == [] {
      assert ChannelInv(n, payload, s, a, b) && InRange(n, calls, s.pc[a]) && InRange(n, calls, s.pc[b]);
      RoundIsInverse(n, a, b);
    }
  }

  /** The exchange theorem.  For every rank count, every number of back-to-back calls and every
      interleaving: a run is bounded, with one step fewer to go after each step; while a call is
      incomplete some rank can move even if sends complete only when received; and at the end every
      rank has processed exactly CallsLog, call by call. */
  lemma ExchangeTheorem<T(!new)>(n: nat, calls: nat, payload: Payload<T>, run: seq<nat>, s: State<T>)
    requires n > 0 && IsRun(n, calls, payload, run, s)
    ensures Shaped(n, calls, s)
    ensures |run| <= n * (calls * (3 * n - 2))
    ensures |run| == n * (calls * (3 * n - 2)) <==> Finished(n, calls, s)
    ensures !Finished(n, calls, s) ==> exists r :: 0 <= r < n && CanStep(n, calls, s, r, false)
    ensures Finished(n, calls, s) ==> forall d :: 0 <= d < n ==> s.log[d] == CallsLog(n, payload, d, calls)
    ensures Finished(n, calls, s)
            ==> forall a, b :: 0 <= a < n && 0 <= b < n && a != b ==> s.channel[(a, b)] == []
  {
    RunInv(n, calls, payload, run, s);
    RemainingBounds(n, calls, s.pc);
    StartRemaining(n, calls, n);
    if !Finished(n, calls, s) {
      var r := NeverStuck(n, calls, payload, s);
    } else {
      FinalState(n, calls, payload, s);
    }
  }

  lemma {:induction false} StartRemaining(n: nat, calls: nat, k: nat)
    requires n > 0
    ensures TotalRemaining(n, calls, seq(k, _ => Pc(0, 1, Sending))) == k * (calls * (3 * n - 2))
  {
    if k > 0 {
      StartRemaining(n, calls, k - 1);
      assert seq(k, _ => Pc(0, 1, Sending))[1..] == seq(k - 1, _ => Pc(0, 1, Sending));
      assert k * (calls * (3 * n - 2)) == (k - 1) * (calls * (3 * n - 2)) + calls * (3 * n - 2);
    }
  }

  /** Within one call each source is processed exactly once, with what it built for d in that call. */
  lemma {:induction false} OncePerSource<T>(n: nat, payload: Payload<T>, d: nat, c: nat, s: nat)
    requires d < n && s < n
    ensures exists k :: 0 <= k < |CallLog(n, payload, d, c)|
                        && CallLog(n, payload, d, c)[k] == Receipt(c, s, payload(c, s, d))
    ensures forall k, l :: 0 <= k < l < |CallLog(n, payload, d, c)|
              ==> CallLog(n, payload, d, c)[k].source != CallLog(n, payload, d, c)[l].source
    ensures |CallLog(n, payload, d, c)| == n
  {
    var log := CallLog(n, payload, d, c);
    forall k | 0 <= k < n - 1
      ensures log[k] == Receipt(c, Source(n, d, k + 1), payload(c, Source(n, d, k + 1), d))
      ensures log[k].source != d && Round(n, log[k].source, d) == k + 1
    {
      RoundsLogAt(n, payload, d, c, n - 1, k);
      RoundsPair(n, d, k + 1);
    }
    if s == d {
      assert log[n - 1] == Receipt(c, s, payload(c, s, d));
    } else {
      RoundIsInverse(n, s, d);
      assert log[Round(n, s, d) - 1] == Receipt(c, s, payload(c, s, d));
    }
  }

  lemma {:induction false} RoundsLogAt<T>(n: nat, payload: Payload<T>, d: nat, c: nat, i: nat, k: nat)
    requires d < n && k < i < n
    ensures RoundsLog(n, payload, d, c, i)[k]
         == Receipt(c, Source(n, d, k + 1), payload(c, Source(n, d, k + 1), d))
  {
    if k < i - 1 { RoundsLogAt(n, payload, d, c, i - 1, k); }
  }

  /** The distributed meaning of MPIArray::SendRecvArrayEach: the square table of containers, indexed
      by owner and then by partner, is transposed. */
  function Transpose<T>(n: nat, data: seq<seq<T>>): (recv: seq<seq<T>>)
    requires Square(n, data)
    ensures Square(n, recv)
    ensures forall d, s :: 0 <= d < n && 0 <= s < n ==> recv[d][s] == data[s][d]
  {
    seq(n, d requires 0 <= d < n => seq(n, s requires 0 <= s < n => data[s][d]))
  }

  predicate Square<T>(n: nat, data: seq<seq<T>>) {
    |data| == n && forall r :: 0 <= r < n ==> |data[r]| == n
  }

  /** MPIArray::process_recv: stores each received container at its source rank. */
  method StoreReceipts<T>(initial: seq<T>, log: seq<Receipt<T>>) returns (at: seq<T>)
    requires forall k :: 0 <= k < |log| ==> log[k].source < |initial|
    requires forall k, l :: 0 <= k < l < |log| ==> log[k].source != log[l].source
    ensures |at| == |initial|
    ensures forall k :: 0 <= k < |log| ==> at[log[k].source] == log[k].data
    ensures forall s :: 0 <= s < |at| && (forall k :: 0 <= k < |log| ==> log[k].source != s) ==> at[s] == initial[s]
  {
    at := initial;
    for i := 0 to |log|
      invariant |at| == |initial|
      invariant forall k :: 0 <= k < i ==> at[log[k].source] == log[k].data
      invariant forall s :: 0 <= s < |at| && (forall k :: 0 <= k < i ==> log[k].source != s) ==> at[s] == initial[s]
    {
      at := at[log[i].source := log[i].data];
    }
  }

  /** SendRecvArrayEach on rank d: storing the receipts of a call in which every rank s sends data[s][.]
      leaves row d of the transposed table, whatever the array held before. */
  method SendRecvArrayEach<T>(n: nat, data: seq<seq<T>>, d: nat, c: nat, initial: seq<T>) returns (at: seq<T>)
    requires Square(n, data) && d < n && |initial| == n
    ensures at == Transpose(n, data)[d]
  {
    var payload := (c: nat, s: nat, d: nat) => if s < n && d < n then data[s][d] else data[0][0];
    var log := CallLog(n, payload, d, c);
    forall s | 0 <= s < n
      ensures exists k :: 0 <= k < |log| && log[k] == Receipt(c, s, data[s][d])
      ensures forall k, l :: 0 <= k < l < |log| ==> log[k].source != log[l].source
    {
      OncePerSource(n, payload, d, c, s);
    }
    OncePerSource(n, payload, d, c, d);
    SourcesInRange(n, payload, d, c);
    at := StoreReceipts(initial, log);
    forall s | 0 <= s < n ensures at[s] == Transpose(n, data)[d][s] {
      var k :| 0 <= k < |log| && log[k] == Receipt(c, s, data[s][d]);
    }
  }

  lemma SourcesInRange<T>(n: nat, payload: Payload<T>, d: nat, c: nat)
    requires d < n
    ensures forall k :: 0 <= k < |CallLog(n, payload, d, c)| ==> CallLog(n, payload, d, c)[k].source < n
  {
    forall k | 0 <= k < n - 1 ensures CallLog(n, payload, d, c)[k].source < n {
      RoundsLogAt(n, payload, d, c, n - 1, k);
      RoundsPair(n, d, k + 1);
    }
  }

  /** Exchanging twice returns every container to the rank it came from. */
  lemma ExchangeTwice<T>(n: nat, data: seq<seq<T>>)
    requires Square(n, data)
    ensures Transpose(n, Transpose(n, data)) == data
  {
    var back := Transpose(n, Transpose(n, data));
    forall r | 0 <= r < n ensures back[r] == data[r] {
      assert forall s :: 0 <= s < n ==> back[r][s] == data[r][s];
    }
  }
}
