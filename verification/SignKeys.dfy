/** How many key files signing needs: with fewer signers than t + 1 nobody returns, and with more the
    last ones do not. */
module SignKeys {
  import opened Schedules
  import opened Library
  import opened KeyFiles
  import opened SignRun
  import opened SignProof
  import opened SignTheorem
  import opened SignInvariants
  import R = Rounds

  /** The signer with number a + 1 has returned. One with a number beyond t + 1 is no party of the protocol:
      its program panics (SignProgram.Sign). */
  ghost predicate Returns(S: Setup, schedule: seq<nat>, a: nat)
    requires |S.signers| > 0
  {
    var parties := R.Run(SignProtocol(S), schedule).parties;
    a < |parties| && parties[a].stage.Done?
  }

  /** Each of the first m signers takes a turn, and nobody else. */
  ghost predicate SweepOfFirst(m: nat, schedule: seq<nat>) {
    (forall a :: 0 <= a < m ==> a in schedule) && forall a :: a in schedule ==> a < m
  }

  lemma {:induction false} ConcatOfFirst(m: nat, sweeps: seq<seq<nat>>, a: nat)
    requires (forall i :: 0 <= i < |sweeps| ==> SweepOfFirst(m, sweeps[i])) && a >= m
    ensures a !in Concat(sweeps)
  {
    if |sweeps| > 0 {
      assert SweepOfFirst(m, sweeps[0]);
      ConcatOfFirst(m, sweeps[1..], a);
    }
  }

  /** In every interleaving in which one of the t + 1 signers never takes part, no other signer returns or
      panics, and none hears anything: all that take part poll for ever. */
  lemma TooFewKeepPolling(S: Setup, D: Dealing, schedule: seq<nat>, a: nat, b: nat)
    requires S.C.q > 0 && |S.signers| == S.t + 1 && Honest(S, D) && R.WellFormed(SignProtocol(S))
    requires a < |S.signers| && b < |S.signers| && a != b && b !in schedule
    ensures |R.Run(SignProtocol(S), schedule).parties| == |S.signers|
    ensures
      var p := R.Run(SignProtocol(S), schedule).parties[a];
      p.heard == [] && !p.stage.Done? && !p.stage.Crashed?
  {
    R.AbsentBlocks(SignProtocol(S), schedule, a, b);
    RepliesAlwaysPass(S, D, schedule, a);
  }

  /** With t keys, one less than are needed, no signer ever returns or panics. */
  lemma ThresholdKeysAreTooFew(S: Setup, D: Dealing, schedule: seq<nat>, a: nat)
    requires S.C.q > 0 && |S.signers| == S.t + 1 && Honest(S, D) && R.WellFormed(SignProtocol(S))
    requires (forall b :: b in schedule ==> b < S.t) && a < S.t
    ensures !Returns(S, schedule, a)
    ensures |R.Run(SignProtocol(S), schedule).parties| == |S.signers| && !R.Run(SignProtocol(S), schedule).parties[a].stage.Crashed?
  {
    TooFewKeepPolling(S, D, schedule, a, S.t);
  }

  lemma ReturnedIsDone(S: Setup, schedule: seq<nat>, a: nat)
    requires |S.signers| > 0
    ensures Returns(S, schedule, a) ==>
      a < |R.Run(SignProtocol(S), schedule).parties| && R.Run(SignProtocol(S), schedule).parties[a].stage.Done?
  {
  }

  lemma RunSize(S: Setup, schedule: seq<nat>)
    requires |S.signers| > 0 && R.WellFormed(SignProtocol(S))
    ensures |R.Run(SignProtocol(S), schedule).parties| == |S.signers|
  {
    R.RunInv(SignProtocol(S), schedule);
  }

  lemma SweepOfAll(S: Setup, m: nat, sweep: seq<nat>)
    requires SweepOfFirst(m, sweep) && m == |S.signers|
    ensures R.Sweep(SignProtocol(S), sweep)
  {
  }

  lemma AllDoneIsAllReturn(S: Setup, schedule: seq<nat>)
    requires |S.signers| > 0 && R.WellFormed(SignProtocol(S))
    ensures R.AllDone(R.Run(SignProtocol(S), schedule)) <==> forall a :: 0 <= a < |S.signers| ==> Returns(S, schedule, a)
  {
    RunSize(S, schedule);
    var s := R.Run(SignProtocol(S), schedule);
    forall a | 0 <= a < |S.signers|
      ensures Returns(S, schedule, a) <==> s.parties[a].stage.Done?
    {
    }
  }

  /** With m signers, all of which keep getting turns, all return if and only if m is t + 1 and the randomness
      and the message are usable. */
  lemma AllReturn(S: Setup, D: Dealing, m: nat, sweeps: seq<seq<nat>>)
    requires S.C.q > 0 && |S.signers| == S.t + 1 && Honest(S, D) && R.WellFormed(SignProtocol(S))
    requires m > 0 && |sweeps| >= R.Enough(SignProtocol(S))
    requires forall i :: 0 <= i < |sweeps| ==> SweepOfFirst(m, sweeps[i])
    ensures (forall a :: 0 <= a < m ==> Returns(S, Concat(sweeps), a)) <==> m == S.t + 1 && Usable(S, Secret(D))
  {
    hide R.Enough, Usable, Honest, Returns, R.AllDone, R.Run, SweepOfFirst, R.Sweep, SignProtocol;
    var P, schedule := SignProtocol(S), Concat(sweeps);
    if m < S.t + 1 {
      ConcatOfFirst(m, sweeps, m);
      TooFewKeepPolling(S, D, schedule, 0, m);
      ReturnedIsDone(S, schedule, 0);
    } else if m > S.t + 1 {
      RunSize(S, schedule);
      var last := m - 1;
      ReturnedIsDone(S, schedule, last);
      assert !Returns(S, Concat(sweeps), last);
    } else {
      forall i | 0 <= i < |sweeps|
        ensures R.Sweep(P, sweeps[i])
      {
        SweepOfAll(S, m, sweeps[i]);
      }
      FairSigningFinishes(S, D, sweeps);
      AllDoneIsAllReturn(S, schedule);
    }
  }
}
