/** The search for the registration parameters (Registration.register and
    Registration.randomSearch). The cost J(theta) = 1 - NCC of the moving
    image transformed by theta against the reference, the random
    perturbations and the BOBYQA optimizer are outside the model: they are
    given as functions. What is modelled is how the incumbent (the best
    parameters so far) is kept. */
module RegistrationSearch {
  import opened Wrappers

  /** Six parameters: three translations and three rotation angles. */
  type Theta = seq<real>

  /** The number of perturbations randomSearch draws for every restart. */
  const Samples: nat := 30

  /** The incumbent of randomSearch: the best parameters so far and their
      cost, where None stands for the initial +infinity. */
  datatype Incumbent = Incumbent(theta: Theta, cost: Option<real>)

  /** One sample: taken when it is strictly better than the incumbent;
      every cost beats +infinity. */
  function Improve(J: Theta -> real, inc: Incumbent, t: Theta): Incumbent {
    if inc.cost.None? || J(t) < inc.cost.value then Incumbent(t, Some(J(t))) else inc
  }

  /** The incumbent after the samples, in order. */
  function Scan(J: Theta -> real, inc: Incumbent, samples: seq<Theta>): Incumbent {
    if |samples| == 0 then inc else Improve(J, Scan(J, inc, samples[..|samples| - 1]), samples[|samples| - 1])
  }

  /** randomSearch: starting from the initial parameters at cost +infinity,
      keep every sample that is strictly cheaper than the incumbent. */
  method RandomSearch(J: Theta -> real, init: Theta, samples: seq<Theta>) returns (best: Theta)
    ensures best == Scan(J, Incumbent(init, None), samples).theta
  {
    var inc := Incumbent(init, None);
    var i := 0;
    while i < |samples|
      invariant 0 <= i <= |samples| && inc == Scan(J, Incumbent(init, None), samples[..i])
    {
      var t := samples[i];
      var j := J(t);
      if inc.cost.None? || j < inc.cost.value {
        inc := Incumbent(t, Some(j));
      }
      assert samples[..i + 1][..i] == samples[..i];
      i := i + 1;
    }
    assert samples[..i] == samples;
    best := inc.theta;
  }

  /** The scan keeps the first sample of least cost: before any sample the
      incumbent is the start; afterwards it is a sample, no sample is
      cheaper, every earlier sample is strictly dearer, and its cost is
      recorded with it. */
  lemma {:induction false} ScanFirstMinimum(J: Theta -> real, init: Theta, samples: seq<Theta>)
    ensures var inc := Scan(J, Incumbent(init, None), samples);
      && (|samples| == 0 ==> inc == Incumbent(init, None))
      && (|samples| > 0 ==>
            && inc.cost == Some(J(inc.theta))
            && (forall k :: 0 <= k < |samples| ==> J(inc.theta) <= J(samples[k]))
            && exists k :: 0 <= k < |samples| && samples[k] == inc.theta
                           && forall k' :: 0 <= k' < k ==> J(samples[k']) > J(inc.theta))
  {
    if |samples| > 0 {
      var n := |samples| - 1;
      var prefix := samples[..n];
      ScanFirstMinimum(J, init, prefix);
      var before := Scan(J, Incumbent(init, None), prefix);
      var inc := Scan(J, Incumbent(init, None), samples);
      if n == 0 {
        assert inc.theta == samples[0];
      } else if J(samples[n]) < before.cost.value {
        assert inc.theta == samples[n];
        forall k | 0 <= k < |samples| ensures J(inc.theta) <= J(samples[k]) {
          if k < n {
            assert samples[k] == prefix[k];
          }
        }
        forall k' | 0 <= k' < n ensures J(samples[k']) > J(inc.theta) {
          assert samples[k'] == prefix[k'];
        }
      } else {
        assert inc == before;
        var k :| 0 <= k < n && prefix[k] == before.theta
                 && forall k' :: 0 <= k' < k ==> J(prefix[k']) > J(before.theta);
        forall j | 0 <= j < |samples| ensures J(inc.theta) <= J(samples[j]) {
          if j < n {
            assert samples[j] == prefix[j];
          }
        }
        forall k' | 0 <= k' < k ensures J(samples[k']) > J(inc.theta) {
          assert samples[k'] == prefix[k'];
        }
        assert samples[k] == inc.theta;
      }
    }
  }

  /** The starting parameters of run i: the initial ones for the first run,
      the result of a random search over Samples perturbations otherwise. */
  function Start(J: Theta -> real, init: Theta, perturb: (nat, nat) -> Theta, i: nat): Theta {
    if i == 0 then init
    else Scan(J, Incumbent(init, None), seq(Samples, k requires 0 <= k => perturb(i, k))).theta
  }

  /** The parameters the optimizer ends run i with. */
  function Run(J: Theta -> real, init: Theta, perturb: (nat, nat) -> Theta, optimize: (nat, Theta) -> Theta,
               i: nat): Theta
  {
    optimize(i, Start(J, init, perturb, i))
  }

  /** The best parameters after the first n runs: the initial parameters,
      replaced by a run's result only when it is strictly cheaper. */
  function BestAfter(J: Theta -> real, init: Theta, perturb: (nat, nat) -> Theta,
                     optimize: (nat, Theta) -> Theta, n: nat): Theta
  {
    if n == 0 then init
    else
      var b := BestAfter(J, init, perturb, optimize, n - 1);
      var r := Run(J, init, perturb, optimize, n - 1);
      if J(r) < J(b) then r else b
  }

  /** register: 1 + restarts runs of the optimizer, the first from the
      initial parameters and every later one from a random search around
      them; a run's result replaces the best one only when strictly cheaper. */
  method Register(J: Theta -> real, init: Theta, restarts: nat, perturb: (nat, nat) -> Theta,
                  optimize: (nat, Theta) -> Theta) returns (best: Theta)
    ensures best == BestAfter(J, init, perturb, optimize, 1 + restarts)
  {
    best := init;
    var bestJ := J(best);
    var i := 0;
    while i < 1 + restarts
      invariant 0 <= i <= 1 + restarts
      invariant best == BestAfter(J, init, perturb, optimize, i) && bestJ == J(best)
    {
      var theta := init;
      if i != 0 {
        theta := RandomSearch(J, init, seq(Samples, k requires 0 <= k => perturb(i, k)));
      }
      var current := optimize(i, theta);
      var currentJ := J(current);
      if currentJ < bestJ {
        bestJ := currentJ;
        best := current;
      }
      i := i + 1;
    }
  }

  /** The result of register is never worse than the initial parameters nor
      than any run; it is the initial parameters or the result of a run; and
      it is the first run's result of that cost, the initial parameters
      winning ties. */
  lemma {:induction false} BestAfterProperties(J: Theta -> real, init: Theta, perturb: (nat, nat) -> Theta,
                                               optimize: (nat, Theta) -> Theta, n: nat)
    ensures var b := BestAfter(J, init, perturb, optimize, n);
      && J(b) <= J(init)
      && (forall i :: 0 <= i < n ==> J(b) <= J(Run(J, init, perturb, optimize, i)))
      && (b == init || exists i :: 0 <= i < n && b == Run(J, init, perturb, optimize, i))
      && (J(b) < J(init) ==>
            exists i :: 0 <= i < n && b == Run(J, init, perturb, optimize, i)
                        && forall i' :: 0 <= i' < i ==> J(Run(J, init, perturb, optimize, i')) > J(b))
  {
    if n > 0 {
      BestAfterProperties(J, init, perturb, optimize, n - 1);
      var b := BestAfter(J, init, perturb, optimize, n - 1);
      var r := Run(J, init, perturb, optimize, n - 1);
      if J(r) < J(b) {
        assert BestAfter(J, init, perturb, optimize, n) == r;
        assert forall i' :: 0 <= i' < n - 1 ==> J(Run(J, init, perturb, optimize, i')) > J(r);
      } else {
        assert BestAfter(J, init, perturb, optimize, n) == b;
      }
    }
  }
}
