/**
  The prover's loop: round messages summed over subnets and parties, and the
  running claim from the first round to the last.
 */
module SumcheckProver {
  import opened Wrappers
  import opened Field
  import opened Polynomials
  import opened Sumcheck

  // -------------------------------------------------------------------------
  // Receiving
  // -------------------------------------------------------------------------

  /** One party's message: additive shares, and public values that only the first party's counts for. */
  datatype Msg = Msg(secret: seq<Fe>, public: Option<seq<Fe>>)

  /** What one subnet contributes to position `k`. */
  function Contribution(subnet: seq<Msg>, k: nat): Fe
    requires |subnet| == 3 && forall i :: 0 <= i < 3 ==> k < |subnet[i].secret|
    requires subnet[0].public.Some? ==> k < |subnet[0].public.value|
  {
    var open := Add(Add(subnet[0].secret[k], subnet[1].secret[k]), subnet[2].secret[k]);
    if subnet[0].public.Some? then Add(open, subnet[0].public.value[k]) else open
  }

  ghost predicate WellFormed(subnet: seq<Msg>, n: nat) {
    && |subnet| == 3 && (forall i :: 0 <= i < 3 ==> |subnet[i].secret| == n)
    && (subnet[0].public.Some? ==> |subnet[0].public.value| == n)
  }

  ghost predicate AllWellFormed(subnets: seq<seq<Msg>>, n: nat) {
    forall i :: 0 <= i < |subnets| ==> WellFormed(subnets[i], n)
  }

  ghost function SumAt(subnets: seq<seq<Msg>>, n: nat, k: nat): Fe
    requires AllWellFormed(subnets, n) && k < n
  {
    if subnets == [] then Zero else Add(Contribution(subnets[0], k), SumAt(subnets[1..], n, k))
  }

  lemma {:induction false} SumAtSnoc(subnets: seq<seq<Msg>>, s: seq<Msg>, n: nat, k: nat)
    requires AllWellFormed(subnets, n) && WellFormed(s, n) && k < n
    ensures AllWellFormed(subnets + [s], n)
    ensures SumAt(subnets + [s], n, k) == Add(SumAt(subnets, n, k), Contribution(s, k))
  {
    var all := subnets + [s];
    if subnets == [] {
      assert all[1..] == [];
      AddComm(Zero, Contribution(s, k));
    } else {
      SumAtSnoc(subnets[1..], s, n, k);
      assert all[1..] == subnets[1..] + [s];
      AddAssoc(Contribution(subnets[0], k), SumAt(subnets[1..], n, k), Contribution(s, k));
    }
  }

  /** `total += src`, as far as both reach. */
  function AddOnto(total: seq<Fe>, src: seq<Fe>): (r: seq<Fe>)
    ensures |r| == |total|
  {
    seq<Fe>(|total|, k requires 0 <= k < |total| => if k < |src| then Add(total[k], src[k]) else total[k])
  }

  /** `combine_additive_vec`: the parties' vectors must have one length. */
  function CombineAdditive(a: seq<Fe>, b: seq<Fe>, c: seq<Fe>): Option<seq<Fe>> {
    if |a| == |b| == |c| then Some(seq<Fe>(|a|, k requires 0 <= k < |a| => Add(Add(a[k], b[k]), c[k]))) else None
  }

  /** Three parties, vectors of one length, and public values, if any, for every evaluation point. */
  predicate Acceptable(subnet: seq<Msg>, n: nat) {
    && |subnet| == 3 && |subnet[0].secret| == |subnet[1].secret| == |subnet[2].secret|
    && (subnet[0].public.Some? ==> |subnet[0].public.value| == n)
  }

  /** Adds one subnet's shares and public values. */
  method AddSubnet(total: seq<Fe>, subnet: seq<Msg>) returns (r: Result<seq<Fe>>)
    ensures r.Ok? <==> Acceptable(subnet, |total|)
    ensures r.Ok? ==> |r.value| == |total|
    ensures WellFormed(subnet, |total|) ==>
              r.Ok? && forall k :: 0 <= k < |total| ==> r.value[k] == Add(total[k], Contribution(subnet, k))
  {
    if |subnet| != 3 {
      return Err;
    }
    var open := CombineAdditive(subnet[0].secret, subnet[1].secret, subnet[2].secret);
    if open.None? {
      return Err;
    }
    var sum := AddOnto(total, open.value);
    if subnet[0].public.Some? {
      var public := subnet[0].public.value;
      if |public| != |total| {
        return Err;
      }
      ghost var before := sum;
      sum := AddOnto(sum, public);
      forall k | 0 <= k < |total|
        ensures k < |open.value| ==> sum[k] == Add(total[k], Add(open.value[k], public[k]))
      {
        if k < |open.value| {
          AddAssoc(total[k], open.value[k], public[k]);
        }
      }
    }
    r := Ok(sum);
  }

  /** The number of evaluation points is what the first message has. */
  function RoundLength(subnets: seq<seq<Msg>>): nat {
    if subnets != [] && subnets[0] != [] then |subnets[0][0].secret| else 0
  }

  /** The sum over all subnets of shares and public values; it fails exactly on a subnet that is not acceptable. */
  method ReceiveRoundEvals(subnets: seq<seq<Msg>>) returns (r: Result<seq<Fe>>)
    ensures r.Ok? <==> forall i :: 0 <= i < |subnets| ==> Acceptable(subnets[i], RoundLength(subnets))
    ensures forall n: nat :: subnets != [] && AllWellFormed(subnets, n) ==>
              r.Ok? && |r.value| == n && forall k :: 0 <= k < n ==> r.value[k] == SumAt(subnets, n, k)
  {
    var n := RoundLength(subnets);
    var total := Zeros(n);
    assert forall m: nat :: subnets != [] && AllWellFormed(subnets, m) ==> WellFormed(subnets[0], m) && m == n;
    for i := 0 to |subnets|
      invariant |total| == n && forall j :: 0 <= j < i ==> Acceptable(subnets[j], n)
      invariant AllWellFormed(subnets, n) ==>
                  AllWellFormed(subnets[..i], n) && forall k :: 0 <= k < n ==> total[k] == SumAt(subnets[..i], n, k)
    {
      var next := AddSubnet(total, subnets[i]);
      if next.Err? {
        return Err;
      }
      assert subnets[..i + 1] == subnets[..i] + [subnets[i]];
      if AllWellFormed(subnets, n) {
        forall k | 0 <= k < n
          ensures AllWellFormed(subnets[..i + 1], n) && next.value[k] == SumAt(subnets[..i + 1], n, k)
        {
          SumAtSnoc(subnets[..i], subnets[i], n, k);
        }
        assert AllWellFormed(subnets[..i + 1], n);
      }
      total := next.value;
    }
    assert subnets[..|subnets|] == subnets;
    r := Ok(total);
  }

  /** The messages carry `evals`, split in any way over subnets, parties and public values. */
  ghost predicate Splits(subnets: seq<seq<Msg>>, evals: seq<Fe>) {
    && subnets != [] && AllWellFormed(subnets, |evals|)
    && forall k :: 0 <= k < |evals| ==> SumAt(subnets, |evals|, k) == evals[k]
  }

  // -------------------------------------------------------------------------
  // The loop
  // -------------------------------------------------------------------------

  /** The claims scaled to the full cube and weighted; scaling by more than 255 bits aborts. */
  method InitialBatchedClaim(insts: seq<Instance>, cs: seq<Fe>, max: nat) returns (r: Option<Fe>)
    requires Sizes(insts, cs, max)
    ensures r.Some? <==> forall i :: 0 <= i < |insts| ==> max - insts[i].n <= 255
    ensures r.Some? ==> r.value == ScaledClaims(insts, cs, max)
  {
    var sum := Zero;
    var i := |insts|;
    assert insts[i..] == [] && cs[i..] == [];
    while i > 0
      invariant 0 <= i <= |insts| && forall j :: i <= j < |insts| ==> max - insts[j].n <= 255
      invariant Sizes(insts[i..], cs[i..], max) && sum == ScaledClaims(insts[i..], cs[i..], max)
    {
      i := i - 1;
      var scaled := MulPow2(insts[i].claim, max - insts[i].n);
      if scaled.None? {
        return None;
      }
      assert insts[i..][1..] == insts[i + 1..] && cs[i..][1..] == cs[i + 1..];
      sum := Add(Mul(scaled.value, cs[i]), sum);
    }
    assert insts[0..] == insts && cs[0..] == cs;
    r := Some(sum);
  }

  /**
    An honest run: the remaining sum before each round and the round polynomials.
    `RunOf` gives the run of a batch.
   */
  datatype Run = Run(max: nat, d: nat, challenges: Point, sum: nat -> Fe, poly: nat -> Poly) {

    /** Each remaining sum splits at the next variable, and the challenge fixes that variable. */
    ghost predicate Coherent() {
      && max <= |challenges| && 0 < d
      && forall j: nat :: j < max ==>
           && |poly(j)| == d + 1
           && sum(j) == Add(Eval(poly(j), Zero), Eval(poly(j), One))
           && sum(j + 1) == Eval(poly(j), challenges[j])
    }

    /** In every round the workers' messages carry the round polynomial. */
    ghost predicate Honest(responses: seq<seq<seq<Msg>>>)
      requires 0 < d
    {
      max <= |responses| && forall j: nat :: j < max ==> Splits(responses[j], RoundEvals(poly(j), d))
    }

    /** None of the first `n` round polynomials is constant. */
    ghost predicate NeverConstant(n: nat) {
      forall j: nat :: j < n ==> NonConstant(poly(j))
    }
  }

  ghost function RunOf(insts: seq<Instance>, cs: seq<Fe>, max: nat, d: nat, challenges: Point): (run: Run)
    requires ValidBatch(insts, cs, max, d) && max <= |challenges| && 0 < d
  {
    Run(max, d, challenges,
        (j: nat) => if j <= max then Remaining(insts, cs, max, challenges[..j]) else Zero,
        (j: nat) => if j < max then RoundPoly(insts, cs, max, d, challenges[..j]) else [])
  }

  lemma RunCoherent(insts: seq<Instance>, cs: seq<Fe>, max: nat, d: nat, challenges: Point)
    requires ValidBatch(insts, cs, max, d) && max <= |challenges| && 0 < d
    ensures RunOf(insts, cs, max, d, challenges).Coherent()
  {
    var run := RunOf(insts, cs, max, d, challenges);
    forall j: nat | j < max
      ensures |run.poly(j)| == d + 1
      ensures run.sum(j) == Add(Eval(run.poly(j), Zero), Eval(run.poly(j), One))
      ensures run.sum(j + 1) == Eval(run.poly(j), challenges[j])
    {
      RoundSplits(insts, cs, max, d, challenges[..j]);
      RoundPolyIs(insts, cs, max, d, challenges[..j], challenges[j]);
      NextPrefix(challenges, j);
    }
  }

  lemma NextPrefix(r: Point, j: nat)
    requires j < |r|
    ensures r[..j] + [r[j]] == r[..j + 1]
  {
  }

  /** Each instance at the challenges of its own variables, weighted. */
  ghost function FinalValue(insts: seq<Instance>, cs: seq<Fe>, max: nat, r: Point): Fe
    requires Sizes(insts, cs, max) && |r| == max
  {
    if insts == [] then Zero
    else Add(Mul(cs[0], insts[0].g(r[max - insts[0].n..])), FinalValue(insts[1..], cs[1..], max, r))
  }

  lemma FinalClaim(insts: seq<Instance>, cs: seq<Fe>, max: nat, r: Point)
    requires Sizes(insts, cs, max) && |r| == max
    ensures Remaining(insts, cs, max, r) == FinalValue(insts, cs, max, r)
  {
    BatchedIsFinal(insts, cs, max, r);
  }

  lemma {:induction false} BatchedIsFinal(insts: seq<Instance>, cs: seq<Fe>, max: nat, r: Point)
    requires Sizes(insts, cs, max) && |r| == max
    ensures Batched(insts, cs, max, r) == FinalValue(insts, cs, max, r)
  {
    if insts != [] {
      BatchedIsFinal(insts[1..], cs[1..], max, r);
    }
  }

  lemma StartClaim(insts: seq<Instance>, cs: seq<Fe>, max: nat)
    requires Sizes(insts, cs, max) && HonestClaims(insts)
    ensures ScaledClaims(insts, cs, max) == Remaining(insts, cs, max, [])
  {
    InitialClaim(insts, cs, max);
    CubeSumLinear(insts, cs, max, [], max);
  }

  /** Honest messages are received as what they carry. */
  method ReceiveHonest(response: seq<seq<Msg>>, ghost honest: seq<Fe>) returns (evals: seq<Fe>)
    requires Splits(response, honest)
    ensures evals == honest
  {
    var r := ReceiveRoundEvals(response);
    assert r.Ok? && |r.value| == |honest|;
    evals := r.value;
  }

  /** One turn of the loop: receive, check the length, and play the round. */
  method Turn(d: nat, fromEvals: seq<Fe> -> Poly, rj: Fe, response: seq<seq<Msg>>, claim: Fe, ghost p: Poly)
    returns (ok: bool, compressed: Poly, claim': Fe)
    requires 0 < d && Interpolates(fromEvals, d) && |p| == d + 1
    requires Splits(response, RoundEvals(p, d)) && claim == Add(Eval(p, Zero), Eval(p, One))
    ensures ok <==> NonConstant(p)
    ensures ok ==> claim' == Eval(p, rj) && Carries(compressed, p)
  {
    var evals := ReceiveHonest(response, RoundEvals(p, d));
    ok, compressed, claim' := Round(fromEvals, d, evals, claim, rj, p);
  }

  lemma NextVaries(run: Run, j: nat)
    requires run.NeverConstant(j) && NonConstant(run.poly(j))
    ensures run.NeverConstant(j + 1)
  {
  }

  lemma SomeConstant(run: Run, j: nat, n: nat)
    requires j < n && !NonConstant(run.poly(j))
    ensures !run.NeverConstant(n)
  {
  }

  /** The proof so far: one compressed polynomial for each round, in order. */
  ghost predicate CarriesRun(run: Run, compressed: seq<Poly>, n: nat) {
    |compressed| == n && forall j: nat :: j < n ==> Carries(compressed[j], run.poly(j))
  }

  lemma CarriesMore(run: Run, compressed: seq<Poly>, c: Poly, j: nat)
    requires CarriesRun(run, compressed, j) && Carries(c, run.poly(j))
    ensures CarriesRun(run, compressed + [c], j + 1)
  {
  }

  /**
    The first `n` rounds of an honest run.  Whatever `n`, the running claim after
    them is the remaining sum, the proof carries their polynomials, and they
    complete exactly when none of their polynomials is constant.
   */
  method Rounds(ghost run: Run, n: nat, d: nat, fromEvals: seq<Fe> -> Poly, challenges: Point,
                responses: seq<seq<seq<Msg>>>, initial: Fe)
    returns (ok: bool, claim: Fe, compressed: seq<Poly>)
    requires run.Coherent() && run.Honest(responses) && Interpolates(fromEvals, d)
    requires n <= run.max && run.d == d && run.challenges == challenges && initial == run.sum(0)
    ensures ok <==> run.NeverConstant(n)
    ensures ok ==> claim == run.sum(n) && CarriesRun(run, compressed, n)
  {
    ok, claim, compressed := false, initial, [];
    for j := 0 to n
      invariant claim == run.sum(j) && run.NeverConstant(j) && CarriesRun(run, compressed, j)
    {
      var fine, c, next := Turn(d, fromEvals, challenges[j], responses[j], claim, run.poly(j));
      if !fine {
        SomeConstant(run, j, n);
        return;
      }
      NextVaries(run, j);
      CarriesMore(run, compressed, c, j);
      claim, compressed := next, compressed + [c];
    }
    ok := true;
  }

  /**
    What a compressed polynomial of the proof says: decompressed against the
    remaining sum before its round, it has at every point the sum that remains
    when the next variable is fixed there.
   */
  ghost predicate ProvesRound(insts: seq<Instance>, cs: seq<Fe>, max: nat, d: nat, r: Point, c: Poly)
    requires Sizes(insts, cs, max) && |r| < max
  {
    && 0 < |c| <= d
    && forall x :: Eval(Decompressed(c, Remaining(insts, cs, max, r)), x) == Remaining(insts, cs, max, r + [x])
  }

  ghost predicate ProvesRounds(
      insts: seq<Instance>, cs: seq<Fe>, max: nat, d: nat, challenges: Point, compressed: seq<Poly>)
    requires Sizes(insts, cs, max) && |compressed| <= max <= |challenges|
  {
    forall j: nat :: j < |compressed| ==> ProvesRound(insts, cs, max, d, challenges[..j], compressed[j])
  }

  lemma ProofMeans(
      insts: seq<Instance>, cs: seq<Fe>, max: nat, n: nat, d: nat, challenges: Point, compressed: seq<Poly>)
    requires ValidBatch(insts, cs, max, d) && n <= max <= |challenges| && 0 < d
    requires CarriesRun(RunOf(insts, cs, max, d, challenges), compressed, n)
    ensures ProvesRounds(insts, cs, max, d, challenges, compressed)
  {
    forall j: nat | j < n
      ensures ProvesRound(insts, cs, max, d, challenges[..j], compressed[j])
    {
      var p := RunOf(insts, cs, max, d, challenges).poly(j);
      assert Carries(compressed[j], p);
      RoundSplits(insts, cs, max, d, challenges[..j]);
      forall x
        ensures Eval(Decompressed(compressed[j], Remaining(insts, cs, max, challenges[..j])), x)
             == Remaining(insts, cs, max, challenges[..j] + [x])
      {
        CarriesValues(compressed[j], p, x);
        RoundPolyIs(insts, cs, max, d, challenges[..j], x);
      }
      CarriesValues(compressed[j], p, Zero);
    }
  }

  // -------------------------------------------------------------------------
  // Verifying
  // -------------------------------------------------------------------------

  /** The claim a verifier arrives at that decompresses and evaluates round by round. */
  function Replayed(claim: Fe, compressed: seq<Poly>, r: Point): Fe
    requires |compressed| == |r| && forall j :: 0 <= j < |compressed| ==> compressed[j] != []
    decreases |r|
  {
    if r == [] then claim
    else Replayed(Eval(Decompressed(compressed[0], claim), r[0]), compressed[1..], r[1..])
  }

  /** A verifier that starts with one claim arrives at the other. */
  ghost predicate Replays(claim: Fe, compressed: seq<Poly>, r: Point, end: Fe) {
    && |compressed| == |r| && (forall j :: 0 <= j < |compressed| ==> compressed[j] != [])
    && Replayed(claim, compressed, r) == end
  }

  lemma {:induction false} ReplaySnoc(claim: Fe, compressed: seq<Poly>, r: Point, c: Poly, x: Fe)
    requires |compressed| == |r| && (forall j :: 0 <= j < |compressed| ==> compressed[j] != []) && c != []
    ensures Replayed(claim, compressed + [c], r + [x]) == Eval(Decompressed(c, Replayed(claim, compressed, r)), x)
    decreases |r|
  {
    if r == [] {
      assert (compressed + [c])[1..] == [] && (r + [x])[1..] == [];
    } else {
      assert (compressed + [c])[1..] == compressed[1..] + [c] && (r + [x])[1..] == r[1..] + [x];
      ReplaySnoc(Eval(Decompressed(compressed[0], claim), r[0]), compressed[1..], r[1..], c, x);
    }
  }

  /** Replaying the proof of an honest run leads through its remaining sums. */
  lemma {:induction false} ReplayHonest(run: Run, compressed: seq<Poly>, n: nat)
    requires run.Coherent() && n <= run.max && CarriesRun(run, compressed, n)
    ensures Replays(run.sum(0), compressed, run.challenges[..n], run.sum(n))
  {
    if n > 0 {
      var j := n - 1;
      assert compressed[..j] + [compressed[j]] == compressed;
      ReplayHonest(run, compressed[..j], j);
      ReplayNext(run, compressed[..j], compressed[j], j);
    }
  }

  lemma ReplayNext(run: Run, compressed: seq<Poly>, c: Poly, j: nat)
    requires run.Coherent() && j < run.max && Carries(c, run.poly(j))
    requires Replays(run.sum(0), compressed, run.challenges[..j], run.sum(j))
    ensures Replays(run.sum(0), compressed + [c], run.challenges[..j + 1], run.sum(j + 1))
  {
    CarriesValues(c, run.poly(j), run.challenges[j]);
    ReplaySnoc(run.sum(0), compressed, run.challenges[..j], c, run.challenges[j]);
    NextPrefix(run.challenges, j);
  }

  /**
    The verifier's loop.  It fails exactly on a wrong number of rounds, or a round
    polynomial that is empty or above the degree bound.
   */
  method Verify(claim: Fe, compressed: seq<Poly>, r: Point, rounds: nat, bound: nat) returns (e: Result<Fe>)
    requires |r| == rounds
    ensures e.Ok? <==> |compressed| == rounds && forall j :: 0 <= j < rounds ==> 0 < |compressed[j]| <= bound
    ensures e.Ok? ==> e.value == Replayed(claim, compressed, r)
  {
    if |compressed| != rounds {
      return Err;
    }
    var c := claim;
    for i := 0 to rounds
      invariant forall j :: 0 <= j < i ==> 0 < |compressed[j]| <= bound
      invariant c == Replayed(claim, compressed[..i], r[..i])
    {
      if |compressed[i]| > bound || compressed[i] == [] {
        return Err;
      }
      ReplaySnoc(claim, compressed[..i], r[..i], compressed[i], r[i]);
      assert compressed[..i] + [compressed[i]] == compressed[..i + 1] && r[..i] + [r[i]] == r[..i + 1];
      c := EvalFromHint(compressed[i], c, r[i]);
    }
    assert compressed[..rounds] == compressed && r[..rounds] == r;
    e := Ok(c);
  }

  /**
    The batched sumcheck, observed after any number `n` of its `max` rounds.  With
    honest claims and round messages the running claim is then the weighted sum of
    the padded instances over the remaining cube, and after the last round the
    weighted sum of the instances at the challenges.  It gets that far exactly
    when no instance has to be scaled by more than 255 bits and none of the round
    polynomials so far is constant.
   */
  method Prove(
      insts: seq<Instance>, cs: seq<Fe>, max: nat, n: nat, d: nat, fromEvals: seq<Fe> -> Poly, challenges: Point,
      responses: seq<seq<seq<Msg>>>)
    returns (ok: bool, claim: Fe, compressed: seq<Poly>)
    requires ValidBatch(insts, cs, max, d) && HonestClaims(insts) && n <= max <= |challenges|
    requires 0 < d && Interpolates(fromEvals, d) && RunOf(insts, cs, max, d, challenges).Honest(responses)
    ensures ok <==> (forall i :: 0 <= i < |insts| ==> max - insts[i].n <= 255)
                    && RunOf(insts, cs, max, d, challenges).NeverConstant(n)
    ensures ok ==> |compressed| == n && claim == Remaining(insts, cs, max, challenges[..n])
    ensures ok && n == max ==> claim == FinalValue(insts, cs, max, challenges[..max])
    ensures ok ==> ProvesRounds(insts, cs, max, d, challenges, compressed)
    ensures ok ==> Replays(ScaledClaims(insts, cs, max), compressed, challenges[..n], claim)
  {
    ok, claim, compressed := false, Zero, [];
    var initial := InitialBatchedClaim(insts, cs, max);
    if initial.None? {
      return;
    }
    ghost var run := RunOf(insts, cs, max, d, challenges);
    RunCoherent(insts, cs, max, d, challenges);
    StartClaim(insts, cs, max);
    assert challenges[..0] == [];
    ok, claim, compressed := Rounds(run, n, d, fromEvals, challenges, responses, initial.value);
    FinalClaim(insts, cs, max, challenges[..max]);
    if ok {
      ProofMeans(insts, cs, max, n, d, challenges, compressed);
      ReplayHonest(run, compressed, n);
    }
  }

  /** Prover and verifier together: the verifier ends with the value of the batch at the challenges. */
  method ProveAndVerify(
      insts: seq<Instance>, cs: seq<Fe>, max: nat, d: nat, fromEvals: seq<Fe> -> Poly, challenges: Point,
      responses: seq<seq<seq<Msg>>>)
    returns (ok: bool, e: Result<Fe>)
    requires ValidBatch(insts, cs, max, d) && HonestClaims(insts) && |challenges| == max
    requires 0 < d && Interpolates(fromEvals, d) && RunOf(insts, cs, max, d, challenges).Honest(responses)
    ensures ok <==> (forall i :: 0 <= i < |insts| ==> max - insts[i].n <= 255)
                    && RunOf(insts, cs, max, d, challenges).NeverConstant(max)
    ensures ok ==> e == Ok(FinalValue(insts, cs, max, challenges))
  {
    var claim, compressed;
    ok, claim, compressed := Prove(insts, cs, max, max, d, fromEvals, challenges, responses);
    e := Err;
    if ok {
      assert challenges[..max] == challenges;
      var initial := InitialBatchedClaim(insts, cs, max);
      e := Verify(initial.value, compressed, challenges, max, d);
    }
  }

  /** The round polynomial of a single instance in one variable. */
  lemma OneRound(z: Instance, c: Fe, d: nat)
    requires z.n == 1 && ValidBatch([z], [c], 1, d)
    ensures |z.line([], [])| == d + 1
    ensures RoundPoly([z], [c], 1, d, []) == AddPoly(ScalePoly(c, z.line([], [])), Zeros(d + 1))
  {
    var none: Point := [];
    var zs, cs := [z], [c];
    assert zs[1..] == [] && cs[1..] == [] && zs[0] == z && none[0..] == none;
    assert DegreeAtMost(z, d) && LineOf(z, 1, d, none, none) == z.line(none, none);
    assert BatchedLine(zs[1..], cs[1..], 1, d, none, none) == Zeros(d + 1);
    assert BatchedLine(zs, cs, 1, d, none, none) == AddPoly(ScalePoly(c, z.line(none, none)), Zeros(d + 1));
    assert RoundPoly(zs, cs, 1, d, none) == CubeLine(zs, cs, 1, d, none, none, 0);
  }

  lemma ConstantStays(c: Fe, p: Poly)
    requires !NonConstant(p)
    ensures !NonConstant(AddPoly(ScalePoly(c, p), Zeros(|p|)))
  {
    var q := AddPoly(ScalePoly(c, p), Zeros(|p|));
    forall i | 1 <= i < |q|
      ensures q[i] == Zero
    {
      assert p[i] == Zero;
      MulZero(c);
      AddZero(Zero);
    }
  }

  /** A constant polynomial in one variable, such as zero, is a valid batch that the prover aborts on. */
  lemma ConstantInstanceAborts(z: Instance, c: Fe, d: nat, challenges: Point)
    requires z.n == 1 && ValidBatch([z], [c], 1, d) && 0 < d && 1 <= |challenges| && !NonConstant(z.line([], []))
    ensures !RunOf([z], [c], 1, d, challenges).NeverConstant(1)
  {
    OneRound(z, c, d);
    ConstantStays(c, z.line([], []));
    assert challenges[..0] == [];
    SomeConstant(RunOf([z], [c], 1, d, challenges), 0, 1);
  }
}
