/** Policies and their normal form: exactly eight constraints, padded with empty ones. */
module Policies {
  import opened Wrappers

  const MAX_CONSTRAINTS := 8
  const TOO_MANY := "policy exceeds MAX_CONSTRAINTS=8"

  // The identifiers of types.ts.
  const CREDENTIAL_TYPES := 6
  const PASSPORT := 1
  const INSTAGRAM := 3
  const CLAIM_IDS := 5
  const INSTAGRAM_HANDLE_HASH := 4
  const CONSTRAINT_OPS := 5
  const OP_EQ := 1

  datatype Constraint = Constraint(claimId: int, op: int, value: int)

  datatype Policy = Policy(credentialType: int, constraints: seq<Constraint>)

  const EMPTY := Constraint(0, 0, 0)

  function Padded(constraints: seq<Constraint>, size: nat): seq<Constraint> {
    if |constraints| >= size then constraints else constraints + seq(size - |constraints|, i => EMPTY)
  }

  method PadConstraints(constraints: seq<Constraint>, size: nat) returns (next: seq<Constraint>)
    ensures next == Padded(constraints, size)
  {
    next := constraints;
    while |next| < size
      invariant |constraints| <= |next| && (|next| <= size || next == constraints)
      invariant next == constraints + seq(|next| - |constraints|, i => EMPTY)
    {
      next := next + [EMPTY];
    }
  }

  function NormalizePolicy(policy: Policy): Result<Policy> {
    if |policy.constraints| > MAX_CONSTRAINTS then Err(TOO_MANY)
    else Ok(policy.(constraints := Padded(policy.constraints, MAX_CONSTRAINTS)))
  }

  /** The constraint a policy puts at a place, empty beyond its list. */
  function ConstraintAt(policy: Policy, i: nat): Constraint {
    if i < |policy.constraints| then policy.constraints[i] else EMPTY
  }

  /** Policies within the limit have one normal form exactly when they constrain the same places alike. */
  lemma NormalFormIff(p: Policy, q: Policy)
    requires |p.constraints| <= MAX_CONSTRAINTS && |q.constraints| <= MAX_CONSTRAINTS
    ensures NormalizePolicy(p) == NormalizePolicy(q) <==>
              p.credentialType == q.credentialType && forall i :: 0 <= i < MAX_CONSTRAINTS ==> ConstraintAt(p, i) == ConstraintAt(q, i)
  {
    NormalAt(p);
    NormalAt(q);
    var m, n := NormalizePolicy(p).value, NormalizePolicy(q).value;
    if p.credentialType == q.credentialType && forall i :: 0 <= i < MAX_CONSTRAINTS ==> ConstraintAt(p, i) == ConstraintAt(q, i) {
      assert m.constraints == n.constraints;
    }
  }

  /** A normal form has eight constraints, and is its own normal form. */
  lemma NormalAt(p: Policy)
    requires |p.constraints| <= MAX_CONSTRAINTS
    ensures NormalizePolicy(p).Ok?
    ensures var m := NormalizePolicy(p).value;
            && |m.constraints| == MAX_CONSTRAINTS && NormalizePolicy(m) == Ok(m)
            && forall i :: 0 <= i < MAX_CONSTRAINTS ==> m.constraints[i] == ConstraintAt(p, i)
  {
  }
}
