/** The proofs an instance accumulates and the gates they open: engine/src/gates.rs. What the
    binding publishes and what it verifies are its own. */
module Approvals {
  import opened Wrappers
  import opened Model
  import opened Gates
  import opened Requests

  datatype Proof = Proof(scope: Scope, authenticator: string, submitter: string, at: Seconds)

  /** `proofs_for`. */
  function ProofsFor(proofs: seq<Proof>, scope: Scope): set<string> {
    set i | 0 <= i < |proofs| && proofs[i].scope == scope :: proofs[i].authenticator
  }

  /** Time since the request; a clock behind it counts as none. */
  function Since(now: Seconds, requested: Option<Seconds>): Seconds {
    if requested.Some? && now >= requested.value then now - requested.value
    else if requested.Some? then 0 else now
  }

  /** Where an instance stands in being approved: pending, waiting at a step, applying, closed, or
      somewhere no proof moves it from. */
  datatype Standing = Asking | WaitingAtStep | Going | Shut | Elsewhere

  /** What came of submitting a proof: it was recorded; it was refused, or the verb was; or the host
      contract had changed and every proof fell with it. */
  datatype Submission = Recorded | Refused | ContractFell

  class Approvals {
    const planGate: Option<GateExpr>
    const stepGates: map<nat, GateExpr>
    var proofs: seq<Proof>
    var standing: Standing
    ghost var verified: set<(Scope, string)>

    /** What is recorded is what the binding verified since the contract last changed. */
    ghost predicate Valid()
      reads this
    {
      forall s, a :: (s, a) in verified <==> a in ProofsFor(proofs, s)
    }

    ghost function Verified(scope: Scope): set<string>
      reads this
      requires Valid()
      ensures Verified(scope) == ProofsFor(proofs, scope)
    {
      ProofsFor(proofs, scope)
    }

    constructor (planGate: Option<GateExpr>, stepGates: map<nat, GateExpr>)
      ensures Valid() && verified == {} && standing == Asking && this.planGate == planGate && this.stepGates == stepGates
    {
      this.planGate, this.stepGates := planGate, stepGates;
      proofs, standing, verified := [], Asking, {};
    }

    /** A verified proof is recorded once a scope and authenticator. */
    method Accept(scope: Scope, authenticator: string, submitter: string, at: Seconds)
      requires Valid()
      modifies this`proofs, this`verified
      ensures Valid() && verified == old(verified) + {(scope, authenticator)}
      ensures proofs == if (scope, authenticator) in old(verified) then old(proofs)
                        else old(proofs) + [Proof(scope, authenticator, submitter, at)]
    {
      if authenticator !in ProofsFor(proofs, scope) {
        ghost var before := proofs;
        proofs := proofs + [Proof(scope, authenticator, submitter, at)];
        forall s ensures ProofsFor(proofs, s) == ProofsFor(before, s) + (if s == scope then {authenticator} else {}) {
          OneMoreProof(before, Proof(scope, authenticator, submitter, at), s);
        }
      }
      verified := verified + {(scope, authenticator)};
    }

    /** The gate a scope's proofs are for; an acknowledgement is for none. */
    function GateOf(scope: Scope): Option<GateExpr> {
      match scope
      case Plan => planGate
      case Step(n) => if n in stepGates then Some(stepGates[n]) else None
      case Ack(_) => None
    }

    /** R0301: a changed host contract takes every proof with it. A pending instance is closed, one
        that is applying is refused; from anywhere else the machine has no way, so nothing is
        kept of it. A waiting one is left for its walk to refuse. */
    method ContractChanged() returns (s: Submission)
      requires Valid() && !standing.WaitingAtStep?
      modifies this
      ensures Valid() && (s.ContractFell? || s.Refused?)
      ensures s.ContractFell? <==> old(standing).Asking? || old(standing).Going?
      ensures s.ContractFell? ==> verified == {} && proofs == [] && standing == if old(standing).Asking? then Shut else Elsewhere
      ensures s.Refused? ==> proofs == old(proofs) && verified == old(verified) && standing == old(standing)
    {
      if !standing.Asking? && !standing.Going? { return Refused; }
      proofs, verified := [], {};
      standing := if standing.Asking? then Shut else Elsewhere;
      return ContractFell;
    }

    /** `gate_satisfied`: the gate is open exactly when its threshold is met by authenticators
        whose proofs verified in this very scope, or the binding approves everything. */
    method GateOpen(scope: Scope, g: GateExpr, auths: seq<Authenticator>, now: Seconds, requested: Option<Seconds>, always: bool) returns (open: bool)
      requires Valid()
      ensures open <==> always || Eval(auths, g, Verified(scope), Since(now, requested))
    {
      SatisfiedMeansTheThreshold(auths, g, ProofsFor(proofs, scope), Since(now, requested));
      if always { return true; }
      var paths := SatisfyingPaths(auths, g);
      var have, elapsed := ProofsFor(proofs, scope), Since(now, requested);
      open := exists p :: p in paths && Open(p, have, elapsed);
    }

    /** The gate of a scope that can move the instance from its standing is open. */
    ghost predicate OpensNow(scope: Scope, from: Standing, auths: seq<Authenticator>, now: Seconds, requested: Option<Seconds>, always: bool)
      reads this
      requires Valid()
    {
      && Opens(scope, from) && GateOf(scope).Some?
      && (always || Eval(auths, GateOf(scope).value, Verified(scope), Since(now, requested)))
    }

    /** `approve_proof`, then `after_proof`: the contract is looked at before the proof; then the
        plan's gate opens a pending instance, a step's gate ends a wait; a proof in any other
        scope or standing changes nothing but the record. */
    method ApproveProof(scope: Scope, authenticator: string, submitter: string, changed: bool, accepted: bool,
                        auths: seq<Authenticator>, now: Seconds, requested: Option<Seconds>, always: bool) returns (s: Submission)
      requires Valid()
      modifies this
      ensures Valid()
      ensures s == if changed && !old(standing).WaitingAtStep? then (if old(standing).Asking? || old(standing).Going? then ContractFell else Refused)
                   else if accepted then Recorded else Refused
      ensures s.ContractFell? ==> verified == {} && proofs == [] && standing == if old(standing).Asking? then Shut else Elsewhere
      ensures s.Refused? ==> proofs == old(proofs) && verified == old(verified) && standing == old(standing)
      ensures s.Recorded? ==> verified == old(verified) + {(scope, authenticator)}
      ensures s.Recorded? ==> standing == if OpensNow(scope, old(standing), auths, now, requested, always) then Going else old(standing)
    {
      if changed && !standing.WaitingAtStep? {
        s := ContractChanged();
        return;
      }
      if !accepted { return Refused; }
      Accept(scope, authenticator, submitter, now);
      var gate := GateOf(scope);
      if gate.Some? && Opens(scope, standing) {
        var open := GateOpen(scope, gate.value, auths, now, requested, always);
        if open { standing := Going; }
      }
      return Recorded;
    }
  }

  predicate Opens(scope: Scope, standing: Standing) {
    (scope.Plan? && standing.Asking?) || (scope.Step? && standing.WaitingAtStep?)
  }

  lemma OneMoreProof(proofs: seq<Proof>, p: Proof, s: Scope)
    ensures ProofsFor(proofs + [p], s) == ProofsFor(proofs, s) + (if s == p.scope then {p.authenticator} else {})
  {
    var more := proofs + [p];
    forall a ensures a in ProofsFor(more, s) <==> a in ProofsFor(proofs, s) || (s == p.scope && a == p.authenticator) {
      if i :| 0 <= i < |proofs| && proofs[i].scope == s && proofs[i].authenticator == a { assert more[i] == proofs[i]; }
      if s == p.scope && a == p.authenticator { assert more[|proofs|] == p; }
    }
  }

  /** A proof in one scope opens nothing in another. */
  lemma OtherScopesAddNothing(proofs: seq<Proof>, p: Proof, scope: Scope, auths: seq<Authenticator>, g: GateExpr, t: Seconds)
    requires p.scope != scope
    ensures Satisfied(auths, g, ProofsFor(proofs + [p], scope), t) <==> Satisfied(auths, g, ProofsFor(proofs, scope), t)
  {
    OneMoreProof(proofs, p, scope);
  }
}
