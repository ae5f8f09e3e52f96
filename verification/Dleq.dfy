/**
  Non-interactive proofs that two points have the same discrete logarithm with respect to two bases.
  The challenge is a function of the six points of the transcript and is left uninterpreted.
*/
module Dleq {
  import opened Field

  datatype Proof = Proof(c: int, r: int)
  datatype ProveResult = Proved(proof: Proof) | InvalidInput

  type Hash = (int, int, int, int, int, int) -> int

  /** The commitment point the verifier recomputes: x * r + y * c. */
  function Recompute(x: int, y: int, p: Proof, q: int): (t: int)
    requires 0 < q
  {
    ((x * p.r) % q + (y * p.c) % q) % q
  }

  /** `dleq_prove`; w is the random scalar. */
  function DleqProve(x1: int, y1: int, x2: int, y2: int, alpha: int, w: int, hash: Hash, q: int): (r: ProveResult)
    requires 0 < q
  {
    if (x1 * alpha) % q != y1 || (x2 * alpha) % q != y2 then InvalidInput
    else
      var c := hash(x1, y1, x2, y2, (x1 * w) % q, (x2 * w) % q) % q;
      Proved(Proof(c, (w - (alpha * c) % q) % q))
  }

  /** `dleq_verify` */
  predicate DleqVerify(x1: int, y1: int, x2: int, y2: int, p: Proof, hash: Hash, q: int)
    requires 0 < q
  {
    p.c == hash(x1, y1, x2, y2, Recompute(x1, y1, p, q), Recompute(x2, y2, p, q)) % q
  }

  /** y1 and y2 are the same multiple of x1 and x2. */
  ghost predicate SameExponent(x1: int, y1: int, x2: int, y2: int, q: int)
    requires 0 < q
  {
    exists alpha :: CommonExponent(x1, y1, x2, y2, alpha, q)
  }

  predicate CommonExponent(x1: int, y1: int, x2: int, y2: int, alpha: int, q: int)
    requires 0 < q
  {
    0 <= alpha < q && y1 == (x1 * alpha) % q && y2 == (x2 * alpha) % q
  }

  lemma RecomputeCong(x: int, y: int, p: Proof, q: int)
    requires 0 < q
    ensures Cong(Recompute(x, y, p, q), x * p.r + y * p.c, q)
  {
    CongMod(x * p.r, q);
    CongMod(y * p.c, q);
    CongAdd((x * p.r) % q, x * p.r, (y * p.c) % q, y * p.c, q);
    CongMod((x * p.r) % q + (y * p.c) % q, q);
  }

  /** The verifier's point is the prover's x * w. */
  lemma RecomputeGivesCommitment(x: int, y: int, alpha: int, w: int, c: int, q: int)
    requires 0 < q && y == (x * alpha) % q
    ensures Recompute(x, y, Proof(c, (w - (alpha * c) % q) % q), q) == (x * w) % q
  {
    var r := (w - (alpha * c) % q) % q;
    CongMod(alpha * c, q);
    CongSub(w, w, (alpha * c) % q, alpha * c, q);
    CongMod(w - (alpha * c) % q, q);
    CongMul(x, x, r, w - alpha * c, q);
    CongMod(x * alpha, q);
    CongMul(y, x * alpha, c, c, q);
    CongAdd(x * r, x * (w - alpha * c), y * c, (x * alpha) * c, q);
    Cancel(x, w, alpha, c);
    RecomputeCong(x, y, Proof(c, r), q);
    CongMod(x * w, q);
    CongSmall(Recompute(x, y, Proof(c, r), q), (x * w) % q, q);
  }

  lemma Cancel(x: int, w: int, alpha: int, c: int)
    ensures x * (w - alpha * c) + (x * alpha) * c == x * w
  {
    assert (x * alpha) * c == x * (alpha * c);
  }

  /** The prover succeeds exactly on true statements, and every proof it makes is accepted. */
  lemma Completeness(x1: int, y1: int, x2: int, y2: int, alpha: int, w: int, hash: Hash, q: int)
    requires 0 < q
    ensures var r := DleqProve(x1, y1, x2, y2, alpha, w, hash, q);
      && (0 <= alpha < q ==> (r.Proved? <==> CommonExponent(x1, y1, x2, y2, alpha, q)))
      && (r.Proved? ==> DleqVerify(x1, y1, x2, y2, r.proof, hash, q))
  {
    var r := DleqProve(x1, y1, x2, y2, alpha, w, hash, q);
    if r.Proved? {
      RecomputeGivesCommitment(x1, y1, alpha, w, r.proof.c, q);
      RecomputeGivesCommitment(x2, y2, alpha, w, r.proof.c, q);
    }
  }

  /** Two answers to different challenges for one commitment point reveal the exponent. */
  lemma ExtractOne(x: int, y: int, p: Proof, p': Proof, i: int, q: int)
    requires 0 < q && Recompute(x, y, p, q) == Recompute(x, y, p', q)
    requires Cong((p'.c - p.c) * i, 1, q) && 0 <= y < q
    ensures y == (x * (((p.r - p'.r) * i) % q)) % q
  {
    RecomputeCong(x, y, p, q);
    RecomputeCong(x, y, p', q);
    Rearrange(x, y, p, p');
    CongSub(x * p.r + y * p.c, x * p'.r + y * p'.c, x * p'.r + y * p.c, x * p'.r + y * p.c, q);
    SolveExponent(x, y, p'.c - p.c, p.r - p'.r, i, q);
  }

  lemma SolveExponent(x: int, y: int, d: int, e: int, i: int, q: int)
    requires 0 <= y < q && Cong(x * e, y * d, q) && Cong(d * i, 1, q)
    ensures y == (x * ((e * i) % q)) % q
  {
    CongMul(x * e, y * d, i, i, q);
    CongMul(y, y, d * i, 1, q);
    Regroup(x, y, d, e, i);
    CongMod(e * i, q);
    CongMul(x, x, (e * i) % q, e * i, q);
    CongMod(x * ((e * i) % q), q);
    CongSmall(y, (x * ((e * i) % q)) % q, q);
  }

  lemma Regroup(x: int, y: int, d: int, e: int, i: int)
    ensures y * (d * i) == (y * d) * i && x * (e * i) == (x * e) * i
  {
  }

  lemma Rearrange(x: int, y: int, p: Proof, p': Proof)
    ensures (x * p.r + y * p.c) - (x * p'.r + y * p.c) == x * (p.r - p'.r)
    ensures (x * p'.r + y * p'.c) - (x * p'.r + y * p.c) == y * (p'.c - p.c)
  {
  }

  lemma ExtractExponent(x1: int, y1: int, x2: int, y2: int, p: Proof, p': Proof, q: int)
    requires Prime(q) && 0 <= y1 < q && 0 <= y2 < q
    requires Recompute(x1, y1, p, q) == Recompute(x1, y1, p', q)
    requires Recompute(x2, y2, p, q) == Recompute(x2, y2, p', q)
    requires 0 <= p.c < q && 0 <= p'.c < q && p.c != p'.c
    ensures SameExponent(x1, y1, x2, y2, q)
  {
    var d := p'.c - p.c;
    if Cong(d, 0, q) {
      CongZeroDiff(p'.c, p.c, q);
      CongSmall(p'.c, p.c, q);
    }
    InvModInverts(d, q);
    var i := InvMod(d, q);
    ExtractOne(x1, y1, p, p', i, q);
    ExtractOne(x2, y2, p, p', i, q);
    assert CommonExponent(x1, y1, x2, y2, ((p.r - p'.r) * i) % q, q);
  }

  // ------------------------------------------------------------------ what acceptance means

  /** t1 and t2 are the points x1 * r + y1 * c and x2 * r + y2 * c of the proof. */
  predicate Opens(x1: int, y1: int, x2: int, y2: int, p: Proof, t1: int, t2: int, q: int)
    requires 0 < q
  {
    0 <= t1 < q && 0 <= t2 < q && Cong(t1, x1 * p.r + y1 * p.c, q) && Cong(t2, x2 * p.r + y2 * p.c, q)
  }

  /** A proof is accepted exactly if its challenge is the hash of the statement and its two points. */
  lemma AcceptedIff(x1: int, y1: int, x2: int, y2: int, p: Proof, t1: int, t2: int, hash: Hash, q: int)
    requires 0 < q && Opens(x1, y1, x2, y2, p, t1, t2, q)
    ensures t1 == Recompute(x1, y1, p, q) && t2 == Recompute(x2, y2, p, q)
    ensures DleqVerify(x1, y1, x2, y2, p, hash, q) <==> p.c == hash(x1, y1, x2, y2, t1, t2) % q
  {
    RecomputeCong(x1, y1, p, q);
    RecomputeCong(x2, y2, p, q);
    CongSmall(t1, Recompute(x1, y1, p, q), q);
    CongSmall(t2, Recompute(x2, y2, p, q), q);
  }

  /**
    Special soundness: proofs with the same two points that are accepted under hashes with different challenges
    for them exist only for true statements.
  */
  lemma SpecialSoundness(x1: int, y1: int, x2: int, y2: int, p: Proof, p': Proof, t1: int, t2: int,
                         hash: Hash, hash': Hash, q: int)
    requires Prime(q) && 0 <= y1 < q && 0 <= y2 < q
    requires Opens(x1, y1, x2, y2, p, t1, t2, q) && Opens(x1, y1, x2, y2, p', t1, t2, q)
    requires DleqVerify(x1, y1, x2, y2, p, hash, q) && DleqVerify(x1, y1, x2, y2, p', hash', q)
    requires hash(x1, y1, x2, y2, t1, t2) % q != hash'(x1, y1, x2, y2, t1, t2) % q
    ensures SameExponent(x1, y1, x2, y2, q)
  {
    AcceptedIff(x1, y1, x2, y2, p, t1, t2, hash, q);
    AcceptedIff(x1, y1, x2, y2, p', t1, t2, hash', q);
    ExtractExponent(x1, y1, x2, y2, p, p', q);
  }

  /**
    For a false statement every pair of points can answer one challenge at most: if a proof with them is accepted,
    none is accepted under a hash with another challenge.
  */
  lemma FalseStatementAnswersOneChallenge(x1: int, y1: int, x2: int, y2: int, p: Proof, p': Proof, t1: int, t2: int,
                                          hash: Hash, hash': Hash, q: int)
    requires Prime(q) && 0 <= y1 < q && 0 <= y2 < q && !SameExponent(x1, y1, x2, y2, q)
    requires Opens(x1, y1, x2, y2, p, t1, t2, q) && DleqVerify(x1, y1, x2, y2, p, hash, q)
    requires hash'(x1, y1, x2, y2, t1, t2) % q != p.c && Opens(x1, y1, x2, y2, p', t1, t2, q)
    ensures !DleqVerify(x1, y1, x2, y2, p', hash', q)
  {
    AcceptedIff(x1, y1, x2, y2, p, t1, t2, hash, q);
    if DleqVerify(x1, y1, x2, y2, p', hash', q) {
      SpecialSoundness(x1, y1, x2, y2, p, p', t1, t2, hash, hash', q);
    }
  }

  // ------------------------------------------------------------------ which proofs the prover makes

  lemma ResponseCong(alpha: int, w: int, c: int, q: int)
    requires 0 < q
    ensures Cong((w - (alpha * c) % q) % q, w - alpha * c, q)
  {
    CongMod(alpha * c, q);
    CongSub(w, w, (alpha * c) % q, alpha * c, q);
    CongMod(w - (alpha * c) % q, q);
  }

  /**
    For a true statement every accepted proof is made by the prover for exactly one random scalar; so the proof
    is as random as the scalar, and the response alone tells nothing about the exponent.
  */
  lemma EveryAcceptedProofIsMadeOnce(x1: int, y1: int, x2: int, y2: int, alpha: int, p: Proof, hash: Hash, q: int)
    returns (w: int)
    requires 0 < q && CommonExponent(x1, y1, x2, y2, alpha, q) && 0 <= p.r < q
    requires DleqVerify(x1, y1, x2, y2, p, hash, q)
    ensures 0 <= w < q && DleqProve(x1, y1, x2, y2, alpha, w, hash, q) == Proved(p)
    ensures forall v :: 0 <= v < q && DleqProve(x1, y1, x2, y2, alpha, v, hash, q) == Proved(p) ==> v == w
  {
    w := (p.r + alpha * p.c) % q;
    CongMod(p.r + alpha * p.c, q);
    CongSub(w, p.r + alpha * p.c, alpha * p.c, alpha * p.c, q);
    ResponseCong(alpha, w, p.c, q);
    CongSmall((w - (alpha * p.c) % q) % q, p.r, q);
    RecomputeGivesCommitment(x1, y1, alpha, w, p.c, q);
    RecomputeGivesCommitment(x2, y2, alpha, w, p.c, q);
    forall v | 0 <= v < q && DleqProve(x1, y1, x2, y2, alpha, v, hash, q) == Proved(p) ensures v == w {
      ResponseCong(alpha, v, p.c, q);
      CongAdd(p.r, v - alpha * p.c, alpha * p.c, alpha * p.c, q);
      CongSmall(v, w, q);
    }
  }
}
