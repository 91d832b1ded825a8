/** Abstract IAM documents. ARNs are produced by the CDK library, so a
    resource is named by what it refers to rather than by its ARN text. */
module Iam {
  import opened Optional

  datatype Resource =
    | DatabaseArn(database: string)                 // glue_db.database_arn
    | BucketArn(bucket: string)                     // bucket.bucket_arn
    | ObjectsArn(bucket: string, keyPattern: string) // bucket.arn_for_objects(keyPattern)
    | Star                                          // the literal "*"

  /** An `iam.PolicyStatement`; every statement these operations build has
      effect ALLOW and exactly one resource. */
  datatype Statement = Statement(actions: seq<string>, resource: Resource)

  /** An `iam.Policy` (with an optional `policy_name`) or an inline
      `iam.PolicyDocument`. */
  datatype Policy = Policy(name: Option<string>, statements: seq<Statement>)

  /** A principal with the inline policies attached to it so far. */
  datatype Role = Role(name: string, policies: seq<Policy>)

  /** `role.attach_inline_policy(policy)`: appends; nothing attached before
      is removed or changed. */
  function AttachInlinePolicy(role: Role, policy: Policy): (r: Role)
    ensures r.name == role.name
    ensures |r.policies| == |role.policies| + 1
    ensures Grows(role, r)
    ensures r.policies[|role.policies|] == policy
  {
    role.(policies := role.policies + [policy])
  }

  /** `after` is `before` with zero or more policies appended. */
  predicate Grows(before: Role, after: Role) {
    after.name == before.name && before.policies <= after.policies
  }

  /** The actions the statements of `statements` grant on `resource`, in
      statement order. */
  function ActionsOn(statements: seq<Statement>, resource: Resource): seq<string> {
    if statements == [] then []
    else (if statements[0].resource == resource then statements[0].actions else [])
         + ActionsOn(statements[1..], resource)
  }

  /** Every statement of every policy of the role, in attachment order. */
  function AllStatements(policies: seq<Policy>): seq<Statement> {
    if policies == [] then [] else policies[0].statements + AllStatements(policies[1..])
  }

  lemma {:induction false} AllStatementsAppend(ps: seq<Policy>, qs: seq<Policy>)
    ensures AllStatements(ps + qs) == AllStatements(ps) + AllStatements(qs)
  {
    if ps == [] {
      assert ps + qs == qs;
    } else {
      assert (ps + qs)[1..] == ps[1..] + qs;
      AllStatementsAppend(ps[1..], qs);
    }
  }

  lemma {:induction false} ActionsOnAppend(s: seq<Statement>, t: seq<Statement>, resource: Resource)
    ensures ActionsOn(s + t, resource) == ActionsOn(s, resource) + ActionsOn(t, resource)
  {
    if s == [] {
      assert s + t == t;
    } else {
      assert (s + t)[1..] == s[1..] + t;
      ActionsOnAppend(s[1..], t, resource);
    }
  }

  lemma ActionsOnSingle(s: Statement, resource: Resource)
    ensures ActionsOn([s], resource) == if s.resource == resource then s.actions else []
  {
    assert [s][1..] == [];
  }

  lemma AllStatementsSingle(p: Policy)
    ensures AllStatements([p]) == p.statements
  {
    assert [p][1..] == [];
  }

  /** Attaching a policy never takes away an action the role already had on
      a resource: the old actions remain a prefix of the new ones. */
  lemma AttachKeepsActions(role: Role, policy: Policy, resource: Resource)
    ensures ActionsOn(AllStatements(role.policies), resource)
            <= ActionsOn(AllStatements(AttachInlinePolicy(role, policy).policies), resource)
  {
    AllStatementsAppend(role.policies, [policy]);
    ActionsOnAppend(AllStatements(role.policies), AllStatements([policy]), resource);
  }

  /** The actions a role has on a resource after attaching a policy: those
      it had, followed by those the policy grants. */
  lemma AttachAddsActions(role: Role, policy: Policy, resource: Resource)
    ensures ActionsOn(AllStatements(AttachInlinePolicy(role, policy).policies), resource)
            == ActionsOn(AllStatements(role.policies), resource) + ActionsOn(policy.statements, resource)
  {
    AllStatementsAppend(role.policies, [policy]);
    AllStatementsSingle(policy);
    ActionsOnAppend(AllStatements(role.policies), policy.statements, resource);
  }
}
