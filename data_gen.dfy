/** The generator table of the grid model: parallel per-generator vectors
    (active setpoint, voltage setpoint, reactive limits, grid bus, status), the
    result vectors, the per-bus reactive totals, and the loops that write the
    generators' contributions into the solver's buffers. */
module GenTable {
  import opened Numeric
  import opened Common

  /** The exceptions the generator table throws. */
  datatype GenError =
    | QLimitsSizeMismatch   // min_q and max_q do not have the same length
    | MinQAboveMaxQ         // some generator has min_q > max_q
    | OnDeactivatedBus      // a connected generator sits on a bus the solver dropped
    | GenIdOutOfRange       // the generator index is past the end of status_
    | GenDisconnected       // the generator addressed is disconnected

  /** Widening added to every reactive range when set_q splits a bus's reactive power. */
  const EpsQ: real := 0.0001

  /** The limits init accepts: as many minima as maxima, none above its maximum. */
  predicate QLimitsOrdered(minQ: seq<real>, maxQ: seq<real>)
  {
    |minQ| == |maxQ| && forall g :: 0 <= g < |minQ| ==> minQ[g] <= maxQ[g]
  }

  /** The guard of the setters and of the slack queries: `status_.at(gen_id)`
      throws past the end, and a disconnected generator is refused. */
  function CheckConnected(status: seq<bool>, genId: int): Outcome<GenError>
  {
    if !(0 <= genId < |status|) then Fail(GenIdOutOfRange)
    else if !status[genId] then Fail(GenDisconnected)
    else Pass
  }

  /** The validation loop of init. */
  method ValidateQLimits(minQ: seq<real>, maxQ: seq<real>) returns (o: Outcome<GenError>)
    ensures o == (if |minQ| != |maxQ| then Fail(QLimitsSizeMismatch)
                  else if !QLimitsOrdered(minQ, maxQ) then Fail(MinQAboveMaxQ)
                  else Pass)
  {
    if |minQ| != |maxQ| {
      return Fail(QLimitsSizeMismatch);
    }
    var g := 0;
    while g < |minQ|
      invariant 0 <= g <= |minQ|
      invariant forall h :: 0 <= h < g ==> minQ[h] <= maxQ[h]
    {
      if minQ[g] > maxQ[g] {
        return Fail(MinQAboveMaxQ);
      }
      g := g + 1;
    }
    return Pass;
  }

  // ---------------------------------------------------------------------------
  // PV buses

  /** The PV-bus list being built and the caller's per-solver-bus "already added" marks. */
  datatype PvState = PvState(pv: seq<int>, added: seq<bool>)

  /** Every connected generator's solver bus is the sentinel, the slack bus, or an index of the marks. */
  predicate PvBusesFit(on: seq<bool>, at: seq<int>, slack: int, nbMarks: int)
    requires |at| == |on|
  {
    forall g :: 0 <= g < |on| && on[g] ==> at[g] == DeactivatedBus || at[g] == slack || 0 <= at[g] < nbMarks
  }

  /** One iteration of fillpv for a generator on solver bus `b`. */
  function PvStep(s: PvState, on: bool, b: int, slack: int): PvState
    requires on && b != DeactivatedBus && b != slack ==> 0 <= b < |s.added|
  {
    if !on || b == DeactivatedBus || b == slack || s.added[b] then s
    else PvState(s.pv + [b], s.added[b := true])
  }

  /** The list and marks after the first `k` iterations of fillpv. */
  function PvAfter(on: seq<bool>, at: seq<int>, slack: int, s0: PvState, k: nat): (s: PvState)
    requires |at| == |on| && k <= |on|
    requires PvBusesFit(on, at, slack, |s0.added|)
    ensures |s.added| == |s0.added|
  {
    if k == 0 then s0
    else PvStep(PvAfter(on, at, slack, s0, k - 1), on[k - 1], at[k - 1], slack)
  }

  /** `s` extends `s0` as fillpv may: the old list is a prefix; every appended bus
      is not the slack bus, was unmarked before, is marked now and is appended
      once; and a bus is marked now exactly when it was marked or was appended. */
  ghost predicate Appended(s0: PvState, s: PvState, slack: int)
  {
    && |s.added| == |s0.added|
    && |s0.pv| <= |s.pv| && s.pv[..|s0.pv|] == s0.pv
    && (forall i :: |s0.pv| <= i < |s.pv| ==>
          s.pv[i] != slack && 0 <= s.pv[i] < |s0.added| && !s0.added[s.pv[i]] && s.added[s.pv[i]])
    && (forall i, j :: |s0.pv| <= i < j < |s.pv| ==> s.pv[i] != s.pv[j])
    && (forall b :: 0 <= b < |s0.added| ==> (s.added[b] <==> s0.added[b] || b in s.pv[|s0.pv|..]))
  }

  /** The caller's invariant on the PV list: no bus twice, every listed bus marked. */
  ghost predicate PvConsistent(s: PvState)
  {
    && (forall i, j :: 0 <= i < j < |s.pv| ==> s.pv[i] != s.pv[j])
    && (forall i :: 0 <= i < |s.pv| ==> 0 <= s.pv[i] < |s.added| && s.added[s.pv[i]])
  }

  /** fillpv only appends to the PV list, never the slack bus, never a marked bus,
      never a bus twice, and marks exactly what it appends. */
  lemma {:induction false} PvAfterAppends(on: seq<bool>, at: seq<int>, slack: int, s0: PvState, k: nat)
    requires |at| == |on| && k <= |on|
    requires PvBusesFit(on, at, slack, |s0.added|)
    ensures Appended(s0, PvAfter(on, at, slack, s0, k), slack)
  {
    if k > 0 {
      PvAfterAppends(on, at, slack, s0, k - 1);
      var s := PvAfter(on, at, slack, s0, k - 1);
      var b := at[k - 1];
      if on[k - 1] && b != DeactivatedBus && b != slack && !s.added[b] {
        var s' := PvState(s.pv + [b], s.added[b := true]);
        assert PvAfter(on, at, slack, s0, k) == s';
        var m := |s0.pv|;
        assert s'.pv[..m] == s.pv[..m];
        assert s'.pv[m..] == s.pv[m..] + [b];
        assert !s0.added[b];
        assert b !in s.pv[m..];
        forall i, j | m <= i < j < |s'.pv|
          ensures s'.pv[i] != s'.pv[j]
        {
          if j == |s.pv| {
            assert s'.pv[i] == s.pv[m..][i - m];
          }
        }
        forall c | 0 <= c < |s0.added|
          ensures s'.added[c] <==> s0.added[c] || c in s'.pv[m..]
        {
          if c != b {
            assert c in s'.pv[m..] <==> c in s.pv[m..];
          }
        }
      }
    }
  }

  /** Every connected generator's solver bus other than the slack bus is marked afterwards. */
  lemma {:induction false} PvAfterCovers(on: seq<bool>, at: seq<int>, slack: int, s0: PvState, k: nat)
    requires |at| == |on| && k <= |on|
    requires PvBusesFit(on, at, slack, |s0.added|)
    ensures forall g :: 0 <= g < k && on[g] && at[g] != DeactivatedBus && at[g] != slack ==>
              PvAfter(on, at, slack, s0, k).added[at[g]]
  {
    if k > 0 {
      PvAfterCovers(on, at, slack, s0, k - 1);
    }
  }

  /** fillpv keeps the caller's invariant: the list gains no duplicate and every listed bus stays marked. */
  lemma {:induction false} PvAfterConsistent(on: seq<bool>, at: seq<int>, slack: int, s0: PvState, k: nat)
    requires |at| == |on| && k <= |on|
    requires PvBusesFit(on, at, slack, |s0.added|)
    requires PvConsistent(s0)
    ensures PvConsistent(PvAfter(on, at, slack, s0, k))
  {
    PvAfterAppends(on, at, slack, s0, k);
    var s := PvAfter(on, at, slack, s0, k);
    var m := |s0.pv|;
    forall i | 0 <= i < |s.pv|
      ensures 0 <= s.pv[i] < |s.added| && s.added[s.pv[i]]
    {
      if i < m {
        assert s.pv[i] == s.pv[..m][i] == s0.pv[i];
        assert s.pv[i] in s.pv[..m];
      }
    }
    forall i, j | 0 <= i < j < |s.pv|
      ensures s.pv[i] != s.pv[j]
    {
      if j < m {
        assert s.pv[i] == s.pv[..m][i] && s.pv[j] == s.pv[..m][j];
      } else if i < m {
        assert s.pv[i] == s.pv[..m][i] == s0.pv[i];
      }
    }
  }

  // ---------------------------------------------------------------------------
  // Voltage magnitudes for the DC approximation

  /** Vm after get_vm_for_dc as written: a bus carrying a connected generator takes
      `vm_pu_[bus]` (the setpoint vector indexed by the bus id) when that is nonzero. */
  function DcVmAsWritten(vm0: seq<real>, on: seq<bool>, at: seq<int>, vmPu: seq<real>): (vm: seq<real>)
    requires |at| == |on|
    ensures |vm| == |vm0|
  {
    seq(|vm0|, b requires 0 <= b < |vm0| =>
      if CountAt(on, at, |on|, b) > 0 && b < |vmPu| && vmPu[b] != 0.0 then vmPu[b] else vm0[b])
  }

  /** The nonzero setpoint of the last connected generator `g < k` on bus `b`,
      or `dflt` when there is none. */
  function LastSetpoint(on: seq<bool>, at: seq<int>, vmPu: seq<real>, k: nat, b: int, dflt: real): real
    requires k <= |on| && k <= |at| && k <= |vmPu|
  {
    if k == 0 then dflt
    else if on[k - 1] && at[k - 1] == b && vmPu[k - 1] != 0.0 then vmPu[k - 1]
    else LastSetpoint(on, at, vmPu, k - 1, b, dflt)
  }

  /** Vm after get_vm_for_dc with the setpoint vector indexed by the generator. */
  function DcVmIntended(vm0: seq<real>, on: seq<bool>, at: seq<int>, vmPu: seq<real>): (vm: seq<real>)
    requires |at| == |on| && |vmPu| == |on|
    ensures |vm| == |vm0|
  {
    seq(|vm0|, b requires 0 <= b < |vm0| => LastSetpoint(on, at, vmPu, |on|, b, vm0[b]))
  }

  /** Corrected behaviour: each bus keeps its value or takes the nonzero setpoint
      of a connected generator attached to that very bus. */
  lemma {:induction false} LastSetpointOfBusGen(on: seq<bool>, at: seq<int>, vmPu: seq<real>, k: nat, b: int, dflt: real)
    requires k <= |on| && k <= |at| && k <= |vmPu|
    ensures var r := LastSetpoint(on, at, vmPu, k, b, dflt);
            r == dflt || exists g :: 0 <= g < k && on[g] && at[g] == b && vmPu[g] != 0.0 && vmPu[g] == r
  {
    if k > 0 && !(on[k - 1] && at[k - 1] == b && vmPu[k - 1] != 0.0) {
      LastSetpointOfBusGen(on, at, vmPu, k - 1, b, dflt);
    }
  }

  /** Corrected behaviour: when the connected generators of a bus agree on a nonzero
      setpoint `v`, the bus takes `v`. */
  lemma {:induction false} LastSetpointAgreed(on: seq<bool>, at: seq<int>, vmPu: seq<real>, k: nat, b: int,
                                              dflt: real, v: real, g: nat)
    requires k <= |on| && k <= |at| && k <= |vmPu|
    requires g < k && on[g] && at[g] == b && vmPu[g] != 0.0
    requires forall h :: 0 <= h < k && on[h] && at[h] == b && vmPu[h] != 0.0 ==> vmPu[h] == v
    ensures LastSetpoint(on, at, vmPu, k, b, dflt) == v
  {
    if g < k - 1 && !(on[k - 1] && at[k - 1] == b && vmPu[k - 1] != 0.0) {
      LastSetpointAgreed(on, at, vmPu, k - 1, b, dflt, v, g);
    }
  }

  /** Generator 0 on bus 1 with setpoint 1.02, generator 1 on bus 0 with setpoint
      1.05: as written, each bus receives the other generator's setpoint. */
  lemma DcVmIndexMixup()
    ensures DcVmAsWritten([1.0, 1.0], [true, true], [1, 0], [1.02, 1.05]) == [1.02, 1.05]
    ensures DcVmIntended([1.0, 1.0], [true, true], [1, 0], [1.02, 1.05]) == [1.05, 1.02]
  {
    var on, at, vmPu := [true, true], [1, 0], [1.02, 1.05];
    assert CountAt(on, at, 2, 0) == 1 && CountAt(on, at, 2, 1) == 1;
    var asWritten := DcVmAsWritten([1.0, 1.0], on, at, vmPu);
    assert asWritten[0] == 1.02 && asWritten[1] == 1.05;
    assert LastSetpoint(on, at, vmPu, 2, 0, 1.0) == 1.05;
    assert LastSetpoint(on, at, vmPu, 2, 1, 1.0) == 1.02;
    var intended := DcVmIntended([1.0, 1.0], on, at, vmPu);
    assert intended[0] == 1.05 && intended[1] == 1.02;
  }

  // ---------------------------------------------------------------------------
  // Reactive power split

  /** The per-bus reactive totals: sum of min_q, sum of max_q, number of connected generators. */
  datatype BusTotals = BusTotals(qMin: seq<real>, qMax: seq<real>, count: seq<int>)

  /** The totals init_q_vector(nbBus) computes from the generators on their grid buses. */
  function ExpectedTotals(on: seq<bool>, at: seq<int>, minQ: seq<real>, maxQ: seq<real>, nbBus: nat): BusTotals
    requires |at| == |on| && |minQ| == |on| && |maxQ| == |on|
  {
    BusTotals(seq(nbBus, b => SumAt(on, at, minQ, |on|, b)),
              seq(nbBus, b => SumAt(on, at, maxQ, |on|, b)),
              seq(nbBus, b => CountAt(on, at, |on|, b)))
  }

  /** One generator's reactive share: all of its bus's reactive power when it is
      alone there, otherwise a part proportional to its reactive range widened by EpsQ. */
  function QShare(qBus: real, minMe: real, maxMe: real, minBus: real, maxBus: real, nbWithMe: int): real
    requires nbWithMe == 1 || maxBus - minBus + nbWithMe as real * EpsQ != 0.0
  {
    if nbWithMe == 1 then qBus
    else qBus * (1.0 / (maxBus - minBus + nbWithMe as real * EpsQ) * (maxMe - minMe + EpsQ))
  }

  /** Every connected generator's bus indexes the bus vectors and its share has a nonzero denominator. */
  predicate QSplitDefined(on: seq<bool>, at: seq<int>, t: BusTotals, qByBus: seq<real>)
    requires |at| == |on|
  {
    forall g :: 0 <= g < |on| && on[g] ==>
      && 0 <= at[g] < |qByBus| && at[g] < |t.qMin| && at[g] < |t.qMax| && at[g] < |t.count|
      && (t.count[at[g]] == 1 || t.qMax[at[g]] - t.qMin[at[g]] + t.count[at[g]] as real * EpsQ != 0.0)
  }

  /** res_q_ after set_q: 0 for a disconnected generator, its share otherwise. */
  function QShares(on: seq<bool>, at: seq<int>, minQ: seq<real>, maxQ: seq<real>, t: BusTotals,
                   qByBus: seq<real>): (r: seq<real>)
    requires |at| == |on| && |minQ| == |on| && |maxQ| == |on|
    requires QSplitDefined(on, at, t, qByBus)
    ensures |r| == |on|
  {
    seq(|on|, g requires 0 <= g < |on| =>
      if !on[g] then 0.0
      else QShare(qByBus[at[g]], minQ[g], maxQ[g], t.qMin[at[g]], t.qMax[at[g]], t.count[at[g]]))
  }

  /** With limits ordered as init guarantees, a connected generator's bus counts at
      least one generator and the split's denominator is at least count * EpsQ > 0. */
  lemma QDenominatorBound(on: seq<bool>, at: seq<int>, minQ: seq<real>, maxQ: seq<real>, g: nat)
    requires |at| == |on| && |minQ| == |on| && |maxQ| == |on|
    requires QLimitsOrdered(minQ, maxQ)
    requires g < |on| && on[g]
    ensures var c := CountAt(on, at, |on|, at[g]);
            && c >= 1
            && SumAt(on, at, maxQ, |on|, at[g]) - SumAt(on, at, minQ, |on|, at[g]) + c as real * EpsQ
               >= c as real * EpsQ > 0.0
  {
    CountAtZeroIff(on, at, |on|, at[g]);
    SumAtMonotone(on, at, minQ, maxQ, |on|, at[g]);
  }

  /** The totals of init_q_vector make every share of set_q well defined. */
  lemma QSplitDefinedFromInit(on: seq<bool>, at: seq<int>, minQ: seq<real>, maxQ: seq<real>, nbBus: nat,
                              qByBus: seq<real>)
    requires |at| == |on| && |minQ| == |on| && |maxQ| == |on|
    requires QLimitsOrdered(minQ, maxQ)
    requires forall g :: 0 <= g < |on| && on[g] ==> 0 <= at[g] < nbBus && at[g] < |qByBus|
    ensures QSplitDefined(on, at, ExpectedTotals(on, at, minQ, maxQ, nbBus), qByBus)
  {
    var t := ExpectedTotals(on, at, minQ, maxQ, nbBus);
    forall g | 0 <= g < |on| && on[g]
      ensures t.count[at[g]] == 1 || t.qMax[at[g]] - t.qMin[at[g]] + t.count[at[g]] as real * EpsQ != 0.0
    {
      QDenominatorBound(on, at, minQ, maxQ, g);
    }
  }

  /** A generator alone on its bus takes all of that bus's reactive power. */
  lemma QShareAlone(on: seq<bool>, at: seq<int>, minQ: seq<real>, maxQ: seq<real>, nbBus: nat,
                    qByBus: seq<real>, g: nat)
    requires |at| == |on| && |minQ| == |on| && |maxQ| == |on|
    requires QLimitsOrdered(minQ, maxQ)
    requires forall h :: 0 <= h < |on| && on[h] ==> 0 <= at[h] < nbBus && at[h] < |qByBus|
    requires g < |on| && on[g]
    requires forall h :: 0 <= h < |on| && h != g ==> !(on[h] && at[h] == at[g])
    ensures QSplitDefined(on, at, ExpectedTotals(on, at, minQ, maxQ, nbBus), qByBus)
    ensures QShares(on, at, minQ, maxQ, ExpectedTotals(on, at, minQ, maxQ, nbBus), qByBus)[g] == qByBus[at[g]]
  {
    QSplitDefinedFromInit(on, at, minQ, maxQ, nbBus, qByBus);
    CountAtAlone(on, at, |on|, g);
  }

  /** With one generator counted on bus `b`, a generator there takes all of the bus's reactive power. */
  lemma QSharesSingle(on: seq<bool>, at: seq<int>, minQ: seq<real>, maxQ: seq<real>,
                      t: BusTotals, qByBus: seq<real>, b: int, h: nat)
    requires |at| == |on| && |minQ| == |on| && |maxQ| == |on|
    requires QSplitDefined(on, at, t, qByBus)
    requires h < |on| && on[h] && at[h] == b && t.count[b] == 1
    ensures QShares(on, at, minQ, maxQ, t, qByBus)[h] == qByBus[b]
  {
  }

  /** The shares of the generators on bus `b` sum to `qByBus[b]` whenever the
      totals at `b` are the sums over the generators on `b`. */
  lemma QSharesSumOnBus(on: seq<bool>, at: seq<int>, minQ: seq<real>, maxQ: seq<real>,
                        t: BusTotals, qByBus: seq<real>, b: int)
    requires |at| == |on| && |minQ| == |on| && |maxQ| == |on|
    requires QSplitDefined(on, at, t, qByBus)
    requires 0 <= b < |qByBus| && b < |t.qMin| && b < |t.qMax| && b < |t.count|
    requires t.qMin[b] == SumAt(on, at, minQ, |on|, b) && t.qMax[b] == SumAt(on, at, maxQ, |on|, b)
    requires t.count[b] == CountAt(on, at, |on|, b)
    requires t.count[b] == 1 || t.qMax[b] - t.qMin[b] + t.count[b] as real * EpsQ != 0.0
    ensures SumAt(on, at, QShares(on, at, minQ, maxQ, t, qByBus), |on|, b) == qByBus[b]
  {
    var shares := QShares(on, at, minQ, maxQ, t, qByBus);
    if t.count[b] == 1 {
      forall h | 0 <= h < |on| && on[h] && at[h] == b
        ensures shares[h] == qByBus[b]
      {
        QSharesSingle(on, at, minQ, maxQ, t, qByBus, b, h);
      }
      SumAtSingle(on, at, shares, qByBus[b], |on|, b);
    } else {
      QSharesSumShared(on, at, minQ, maxQ, t, qByBus, b);
    }
  }

  /** On a bus with several generators, each share is the bus's reactive power
      times the generator's range widened by EpsQ, over the bus's widened range. */
  lemma QSharesProportional(on: seq<bool>, at: seq<int>, minQ: seq<real>, maxQ: seq<real>,
                            t: BusTotals, qByBus: seq<real>, b: int)
    requires |at| == |on| && |minQ| == |on| && |maxQ| == |on|
    requires QSplitDefined(on, at, t, qByBus)
    requires 0 <= b < |qByBus| && b < |t.qMin| && b < |t.qMax| && b < |t.count| && t.count[b] != 1
    requires t.qMax[b] - t.qMin[b] + t.count[b] as real * EpsQ != 0.0
    ensures Proportional(on, at, QShares(on, at, minQ, maxQ, t, qByBus), minQ, maxQ, EpsQ, qByBus[b],
                         1.0 / (t.qMax[b] - t.qMin[b] + t.count[b] as real * EpsQ), |on|, b)
  {
  }

  /** The case of several generators on bus `b`: their widened ranges add up to the
      denominator, so their proportional shares add up to the whole. */
  lemma QSharesSumShared(on: seq<bool>, at: seq<int>, minQ: seq<real>, maxQ: seq<real>,
                         t: BusTotals, qByBus: seq<real>, b: int)
    requires |at| == |on| && |minQ| == |on| && |maxQ| == |on|
    requires QSplitDefined(on, at, t, qByBus)
    requires 0 <= b < |qByBus| && b < |t.qMin| && b < |t.qMax| && b < |t.count|
    requires t.qMin[b] == SumAt(on, at, minQ, |on|, b) && t.qMax[b] == SumAt(on, at, maxQ, |on|, b)
    requires t.count[b] == CountAt(on, at, |on|, b)
    requires t.count[b] != 1 && t.qMax[b] - t.qMin[b] + t.count[b] as real * EpsQ != 0.0
    ensures SumAt(on, at, QShares(on, at, minQ, maxQ, t, qByBus), |on|, b) == qByBus[b]
  {
    QSharesProportional(on, at, minQ, maxQ, t, qByBus, b);
    assert t.count[b] as real * EpsQ == CountAt(on, at, |on|, b) as real * EpsQ;
    SumAtWhole(on, at, QShares(on, at, minQ, maxQ, t, qByBus), minQ, maxQ, EpsQ, qByBus[b],
               1.0 / (t.qMax[b] - t.qMin[b] + t.count[b] as real * EpsQ),
               t.qMax[b] - t.qMin[b] + t.count[b] as real * EpsQ, |on|, b);
  }

  /** Conservation of the split: with the totals of init_q_vector under the same
      statuses, the shares of the generators on a bus sum to that bus's reactive power. */
  lemma QSharesSumToBusQ(on: seq<bool>, at: seq<int>, minQ: seq<real>, maxQ: seq<real>, nbBus: nat,
                         qByBus: seq<real>, g: nat)
    requires |at| == |on| && |minQ| == |on| && |maxQ| == |on|
    requires QLimitsOrdered(minQ, maxQ)
    requires forall h :: 0 <= h < |on| && on[h] ==> 0 <= at[h] < nbBus && at[h] < |qByBus|
    requires g < |on| && on[g]
    ensures QSplitDefined(on, at, ExpectedTotals(on, at, minQ, maxQ, nbBus), qByBus)
    ensures SumAt(on, at, QShares(on, at, minQ, maxQ, ExpectedTotals(on, at, minQ, maxQ, nbBus), qByBus),
                  |on|, at[g]) == qByBus[at[g]]
  {
    QSplitDefinedFromInit(on, at, minQ, maxQ, nbBus, qByBus);
    QDenominatorBound(on, at, minQ, maxQ, g);
    QSharesSumOnBus(on, at, minQ, maxQ, ExpectedTotals(on, at, minQ, maxQ, nbBus), qByBus, at[g]);
  }

  // ---------------------------------------------------------------------------
  // The table

  class DataGen {
    var pMw: seq<real>
    var vmPu: seq<real>
    var minQ: seq<real>
    var maxQ: seq<real>
    var busId: seq<int>
    var status: seq<bool>

    var resP: seq<real>
    var resQ: seq<real>
    var resV: seq<real>

    var totalQMinPerBus: seq<real>
    var totalQMaxPerBus: seq<real>
    var totalGenPerBus: seq<int>

    /** An empty table. */
    constructor ()
      ensures pMw == [] && vmPu == [] && minQ == [] && maxQ == [] && busId == [] && status == []
      ensures resP == [] && resQ == [] && resV == []
      ensures totalQMinPerBus == [] && totalQMaxPerBus == [] && totalGenPerBus == []
    {
      pMw, vmPu, minQ, maxQ, busId, status := [], [], [], [], [], [];
      resP, resQ, resV := [], [], [];
      totalQMinPerBus, totalQMaxPerBus, totalGenPerBus := [], [], [];
    }

    /** The loops over the generators (nb() of them, one per active setpoint) read
        a status and a grid bus per generator. */
    ghost predicate Indexed()
      reads this
    {
      |status| == |pMw| && |busId| == |pMw|
    }

    /** ... and the reactive split reads both reactive limits too. */
    ghost predicate Aligned()
      reads this
    {
      Indexed() && |minQ| == |pMw| && |maxQ| == |pMw|
    }

    function Totals(): BusTotals
      reads this
    {
      BusTotals(totalQMinPerBus, totalQMaxPerBus, totalGenPerBus)
    }

    /** init: stores the five vectors, then validates the reactive limits; only a
        successful validation connects every generator. */
    method Init(genP: seq<real>, genV: seq<real>, genMinQ: seq<real>, genMaxQ: seq<real>, genBusId: seq<int>)
      returns (o: Outcome<GenError>)
      modifies this
      ensures pMw == genP && vmPu == genV && minQ == genMinQ && maxQ == genMaxQ && busId == genBusId
      ensures o == (if |genMinQ| != |genMaxQ| then Fail(QLimitsSizeMismatch)
                    else if !QLimitsOrdered(genMinQ, genMaxQ) then Fail(MinQAboveMaxQ)
                    else Pass)
      ensures status == if o.Pass? then seq(|genP|, _ => true) else old(status)
      ensures resP == old(resP) && resQ == old(resQ) && resV == old(resV)
      ensures Totals() == old(Totals())
    {
      pMw, vmPu, busId, minQ, maxQ := genP, genV, genBusId, genMinQ, genMaxQ;
      o := ValidateQLimits(minQ, maxQ);
      if o.Pass? {
        status := seq(|genP|, _ => true);
      }
    }

    /** fillSbus: adds each connected generator's active power to its solver bus
        of Sbus, stopping with an exception at the first connected generator on a
        deactivated bus. */
    method FillSbus(sbus: array<Complex>, toSolver: seq<int>) returns (o: Outcome<GenError>)
      requires Indexed()
      requires forall g :: 0 <= g < |pMw| && status[g] ==> 0 <= busId[g] < |toSolver|
      requires BusesFit(status, SolverBuses(status, busId, toSolver), sbus.Length)
      modifies sbus
      ensures var at := SolverBuses(status, busId, toSolver);
              var k := FirstDeactivated(status, at);
              && o == (if k == |pMw| then Pass else Fail(OnDeactivatedBus))
              && forall b :: 0 <= b < sbus.Length ==>
                   sbus[b] == Add(old(sbus[b]), Complex(SumAt(status, at, pMw, k, b), 0.0))
    {
      var n := |pMw|;
      ghost var at := SolverBuses(status, busId, toSolver);
      var g := 0;
      while g < n
        invariant 0 <= g <= n
        invariant forall h :: 0 <= h < g ==> !(status[h] && at[h] == DeactivatedBus)
        invariant forall b :: 0 <= b < sbus.Length ==>
                    sbus[b] == Add(old(sbus[b]), Complex(SumAt(status, at, pMw, g, b), 0.0))
      {
        if status[g] {
          var busSolver := toSolver[busId[g]];
          if busSolver == DeactivatedBus {
            return Fail(OnDeactivatedBus);
          }
          sbus[busSolver] := Add(sbus[busSolver], Complex(pMw[g], 0.0));
        }
        g := g + 1;
      }
      return Pass;
    }

    /** fillpv: appends the solver bus of each connected generator to the PV list
        unless it is the slack bus or already marked, and marks it. */
    method FillPv(busPv: seq<int>, added: array<bool>, slackBusSolver: int, toSolver: seq<int>)
      returns (o: Outcome<GenError>, pv: seq<int>)
      requires Indexed()
      requires forall g :: 0 <= g < |pMw| && status[g] ==> 0 <= busId[g] < |toSolver|
      requires PvBusesFit(status, SolverBuses(status, busId, toSolver), slackBusSolver, added.Length)
      modifies added
      ensures var at := SolverBuses(status, busId, toSolver);
              var k := FirstDeactivated(status, at);
              && o == (if k == |pMw| then Pass else Fail(OnDeactivatedBus))
              && PvState(pv, added[..]) == PvAfter(status, at, slackBusSolver, PvState(busPv, old(added[..])), k)
    {
      var n := |pMw|;
      ghost var at := SolverBuses(status, busId, toSolver);
      ghost var s0 := PvState(busPv, added[..]);
      pv := busPv;
      var g := 0;
      while g < n
        invariant 0 <= g <= n
        invariant forall h :: 0 <= h < g ==> !(status[h] && at[h] == DeactivatedBus)
        invariant PvState(pv, added[..]) == PvAfter(status, at, slackBusSolver, s0, g)
      {
        if status[g] {
          var busSolver := toSolver[busId[g]];
          if busSolver == DeactivatedBus {
            o := Fail(OnDeactivatedBus);
            return;
          }
          if busSolver != slackBusSolver && !added[busSolver] {
            pv := pv + [busSolver];
            added[busSolver] := true;
          }
        }
        g := g + 1;
      }
      o := Pass;
    }

    /** get_vm_for_dc as written: the setpoint is read at the bus id. */
    method GetVmForDc(vm: array<real>)
      requires Indexed()
      requires forall g :: 0 <= g < |pMw| && status[g] ==> 0 <= busId[g] < |vmPu| && busId[g] < vm.Length
      modifies vm
      ensures vm[..] == DcVmAsWritten(old(vm[..]), status, busId, vmPu)
    {
      var n := |pMw|;
      var g := 0;
      while g < n
        invariant 0 <= g <= n
        invariant forall b :: 0 <= b < vm.Length ==>
                    vm[b] == if CountAt(status, busId, g, b) > 0 && b < |vmPu| && vmPu[b] != 0.0
                             then vmPu[b] else old(vm[b])
      {
        if status[g] {
          var busMe := busId[g];
          var setpoint := vmPu[busMe];
          if setpoint != 0.0 {
            vm[busMe] := setpoint;
          }
        }
        g := g + 1;
      }
    }

    /** get_vm_for_dc with the setpoint read at the generator index. */
    method GetVmForDcFixed(vm: array<real>)
      requires Indexed() && |vmPu| == |pMw|
      requires forall g :: 0 <= g < |pMw| && status[g] ==> 0 <= busId[g] < vm.Length
      modifies vm
      ensures vm[..] == DcVmIntended(old(vm[..]), status, busId, vmPu)
    {
      var n := |pMw|;
      var g := 0;
      while g < n
        invariant 0 <= g <= n
        invariant forall b :: 0 <= b < vm.Length ==> vm[b] == LastSetpoint(status, busId, vmPu, g, b, old(vm[b]))
      {
        if status[g] {
          var busMe := busId[g];
          var setpoint := vmPu[g];
          if setpoint != 0.0 {
            vm[busMe] := setpoint;
          }
        }
        g := g + 1;
      }
    }

    /** change_p: refused for a generator past the end or disconnected; otherwise
        only that generator's active setpoint changes. */
    method ChangeP(genId: int, newP: real) returns (o: Outcome<GenError>)
      requires |status| <= |pMw|
      modifies this`pMw
      ensures o == CheckConnected(status, genId)
      ensures pMw == if o.Pass? then old(pMw)[genId := newP] else old(pMw)
    {
      o := CheckConnected(status, genId);
      if o.Pass? {
        pMw := pMw[genId := newP];
      }
    }

    /** change_v: the same guard, for the voltage setpoint. */
    method ChangeV(genId: int, newVPu: real) returns (o: Outcome<GenError>)
      requires |status| <= |vmPu|
      modifies this`vmPu
      ensures o == CheckConnected(status, genId)
      ensures vmPu == if o.Pass? then old(vmPu)[genId := newVPu] else old(vmPu)
    {
      o := CheckConnected(status, genId);
      if o.Pass? {
        vmPu := vmPu[genId := newVPu];
      }
    }

    /** get_slack_bus_id: the grid bus of a connected generator. */
    function SlackBusId(genId: int): (r: Result<int, GenError>)
      reads this
      requires |status| <= |busId|
      ensures r.Ok? <==> 0 <= genId < |status| && status[genId]
      ensures r.Ok? ==> r.value == busId[genId]
      ensures r.Err? ==> r.error == (if 0 <= genId < |status| then GenDisconnected else GenIdOutOfRange)
    {
      match CheckConnected(status, genId)
      case Pass => Ok(busId[genId])
      case Fail(e) => Err(e)
    }

    /** set_p_slack: overwrites the active result of a connected generator. */
    method SetPSlack(slackGenId: int, pSlack: real) returns (o: Outcome<GenError>)
      requires 0 <= slackGenId < |status| && status[slackGenId] ==> slackGenId < |resP|
      modifies this`resP
      ensures o == CheckConnected(status, slackGenId)
      ensures resP == if o.Pass? then old(resP)[slackGenId := pSlack] else old(resP)
    {
      o := CheckConnected(status, slackGenId);
      if o.Pass? {
        resP := resP[slackGenId := pSlack];
      }
    }

    /** init_q_vector: per grid bus, the sums of the connected generators' reactive
        limits and their number. */
    method InitQVector(nbBus: nat)
      requires Aligned()
      requires forall g :: 0 <= g < |pMw| && status[g] ==> 0 <= busId[g] < nbBus
      modifies this`totalQMinPerBus, this`totalQMaxPerBus, this`totalGenPerBus
      ensures Totals() == ExpectedTotals(status, busId, minQ, maxQ, nbBus)
    {
      var n := |pMw|;
      totalQMinPerBus := seq(nbBus, _ => 0.0);
      totalQMaxPerBus := seq(nbBus, _ => 0.0);
      totalGenPerBus := seq(nbBus, _ => 0);
      var g := 0;
      while g < n
        invariant 0 <= g <= n
        invariant |totalQMinPerBus| == nbBus && |totalQMaxPerBus| == nbBus && |totalGenPerBus| == nbBus
        invariant forall b :: 0 <= b < nbBus ==> totalQMinPerBus[b] == SumAt(status, busId, minQ, g, b)
        invariant forall b :: 0 <= b < nbBus ==> totalQMaxPerBus[b] == SumAt(status, busId, maxQ, g, b)
        invariant forall b :: 0 <= b < nbBus ==> totalGenPerBus[b] == CountAt(status, busId, g, b)
      {
        if status[g] {
          var b := busId[g];
          totalQMinPerBus := totalQMinPerBus[b := totalQMinPerBus[b] + minQ[g]];
          totalQMaxPerBus := totalQMaxPerBus[b := totalQMaxPerBus[b] + maxQ[g]];
          totalGenPerBus := totalGenPerBus[b := totalGenPerBus[b] + 1];
        }
        g := g + 1;
      }
    }

    /** set_q: splits each bus's reactive power among its connected generators. */
    method SetQ(qByBus: seq<real>)
      requires Aligned()
      requires QSplitDefined(status, busId, Totals(), qByBus)
      modifies this`resQ
      ensures resQ == QShares(status, busId, minQ, maxQ, Totals(), qByBus)
    {
      var n := |pMw|;
      ghost var shares := QShares(status, busId, minQ, maxQ, Totals(), qByBus);
      resQ := seq(n, _ => 0.0);
      var g := 0;
      while g < n
        invariant 0 <= g <= n && |resQ| == n
        invariant forall h :: 0 <= h < n ==> resQ[h] == if h < g then shares[h] else 0.0
      {
        if status[g] {
          var b := busId[g];
          var qToAbsorb := qByBus[b];
          var nbGenWithMe := totalGenPerBus[b];
          var realQ;
          if nbGenWithMe == 1 {
            realQ := qToAbsorb;
          } else {
            var ratio := 1.0 / (totalQMaxPerBus[b] - totalQMinPerBus[b] + nbGenWithMe as real * EpsQ)
                         * (maxQ[g] - minQ[g] + EpsQ);
            realQ := qToAbsorb * ratio;
          }
          resQ := resQ[g := realQ];
        }
        g := g + 1;
      }
    }

    /** compute_results: the active result is the active setpoint; `vKv` stands for
        the voltages in kV that the unit converter computes. */
    method ComputeResults(vKv: seq<real>)
      modifies this`resP, this`resV
      ensures resP == pMw && resV == vKv
    {
      resV := vKv;
      resP := pMw;
    }

    /** reset_results: all three result vectors become empty. */
    method ResetResults()
      modifies this`resP, this`resQ, this`resV
      ensures resP == [] && resQ == [] && resV == []
    {
      resP, resQ, resV := [], [], [];
    }
  }
}
