/** A zone of the data lake: one bucket, one Glue database named after the
    zone, one crawler role; and the operations that register locations,
    declare tables and crawlers, attach lifecycle rules and grant access
    (vre_data_lake/zone.py). */
module Zones {
  import opened Optional
  import opened Text
  import opened Iam
  import opened Permissions
  import opened Filetypes
  import opened ZoneNames

  datatype Error = InvalidZoneName(name: string)

  /** What a Lake Formation permission record is about. */
  datatype LakeResource =
    | DatabaseResource(database: string)
    | TableResource(database: string, table: string)
    | DataLocationResource(location: Resource)

  /** An `lf.CfnPermissions` record. `dependsOn` lists the positions, in the
      zone's declaration log, of the declarations it must follow. */
  datatype LakePermission = LakePermission(
    principal: string,
    resource: LakeResource,
    permissions: seq<string>,
    dependsOn: seq<nat>)

  /** An `lf.CfnResource`: a location registered with Lake Formation through
      the named role (never the service-linked role). */
  datatype Registration = Registration(location: Resource, roleName: string)

  /** A `glue.CfnTable`, reduced to what the zone computes for it; the
      storage-descriptor constants are left out. */
  datatype Table = Table(name: string, description: string, database: string, location: string)

  /** A `glue.CfnCrawler`. Classifiers and schedules are references to
      constructs the caller made, kept as opaque names. */
  datatype Crawler = Crawler(
    name: string,
    description: string,
    roleName: string,
    target: string,
    classifiers: Option<seq<string>>,
    database: string,
    schedule: Option<string>,
    configuration: string)

  /** A construct the zone declares, in declaration order. */
  datatype Declaration =
    | PermissionsDecl(grant: LakePermission)
    | RegistrationDecl(registration: Registration)
    | TableDecl(table: Table)
    | CrawlerDecl(crawler: Crawler)

  /** An `s3.LifecycleRule` as handed in: its keyword values by name. */
  datatype LifecycleRule = LifecycleRule(values: map<string, string>)

  /** A rule as added to the bucket: the zone-chosen prefix and the other values. */
  datatype BucketRule = BucketRule(prefix: string, values: map<string, string>)

  /** The zone's state. The Glue database is named `name`; `bucket` is the
      bucket's name. */
  datatype Zone = Zone(
    name: string,
    bucket: string,
    registrationRole: Role,
    crawlerRole: Role,
    declarations: seq<Declaration>,
    lifecycleRules: seq<BucketRule>)

  /** The result of a table grant: the new zone, the grantee with its
      policies, and the position of the Lake Formation record, if any. */
  datatype TableGrant = TableGrant(zone: Zone, role: Role, record: Option<nat>)

  const CrawlerConfiguration: string :=
    "{\"Grouping\": {\"TableGroupingPolicy\": \"CombineCompatibleSchemas\"}, \"Version\": 1.0}"

  /** The Lake Formation permissions the crawler role holds on the database
      from the start. */
  const CrawlerDatabasePermissions: seq<string> := ["CREATE_TABLE", "ALTER", "DESCRIBE"]

  const DataLocationAccess: seq<string> := ["DATA_LOCATION_ACCESS"]

  /** The table permissions a crawler needs on the table it fills. */
  const CrawlerTablePermissions: seq<TablePermission> := [TablePermission.Alter, TablePermission.Describe]

  /** The objects under a prefix: `bucket.arn_for_objects` of the prefix followed by a slash and a star. */
  function ObjectsUnder(bucket: string, prefix: string): Resource {
    ObjectsArn(bucket, prefix + "/*")
  }

  /** `bucket.s3_url_for_object(key)` */
  function ObjectUrl(bucket: string, key: string): string {
    "s3://" + bucket + "/" + key
  }

  function ListBucket(bucket: string): Statement {
    Statement(["s3:ListBucket"], BucketArn(bucket))
  }

  function TablePolicyName(zoneName: string, prefix: string): string {
    zoneName + "-" + prefix + "-Table-Policy"
  }

  function DatabasePolicyName(zoneName: string): string {
    zoneName + "-DB-Policy"
  }

  // ---------------------------------------------------------------------
  // Construction
  // ---------------------------------------------------------------------

  /** The crawler role as created: full S3 access to the zone's bucket and
      its objects, and Lake Formation data access. */
  function InitialCrawlerRole(id: string, bucket: string): (r: Role)
    ensures r.name == id + "-Crawler-Role" && |r.policies| == 1 && r.policies[0].name.None?
    ensures ActionsOn(AllStatements(r.policies), BucketArn(bucket)) == ["s3:*"]
    ensures ActionsOn(AllStatements(r.policies), ObjectsArn(bucket, "*")) == ["s3:*"]
    ensures ActionsOn(AllStatements(r.policies), Star) == [GetDataAccess]
    ensures forall res :: res != BucketArn(bucket) && res != ObjectsArn(bucket, "*") && res != Star ==>
              ActionsOn(AllStatements(r.policies), res) == []
  {
    var statements := [Statement(["s3:*"], BucketArn(bucket)), Statement(["s3:*"], ObjectsArn(bucket, "*")),
                       Statement([GetDataAccess], Star)];
    AllStatementsSingle(Policy(None, statements));
    forall res ensures ActionsOn(statements, res) ==
        (if res == BucketArn(bucket) then ["s3:*"] else []) + (if res == ObjectsArn(bucket, "*") then ["s3:*"] else [])
        + (if res == Star then [GetDataAccess] else [])
    {
      assert statements == [statements[0]] + ([statements[1]] + [statements[2]]);
      ActionsOnAppend([statements[0]], [statements[1]] + [statements[2]], res);
      ActionsOnAppend([statements[1]], [statements[2]], res);
      ActionsOnSingle(statements[0], res);
      ActionsOnSingle(statements[1], res);
      ActionsOnSingle(statements[2], res);
    }
    Role(id + "-Crawler-Role", [Policy(None, [
      Statement(["s3:*"], BucketArn(bucket)),
      Statement(["s3:*"], ObjectsArn(bucket, "*")),
      Statement([GetDataAccess], Star)])])
  }

  /** `Zone.__init__`: rejects a name the pattern does not match before
      anything is declared; otherwise names the bucket after the zone with
      `_` replaced by `-`, lets the registration role list the bucket, and
      gives the crawler role CREATE_TABLE, ALTER and DESCRIBE on the
      database. */
  function NewZone(id: string, zoneName: string, registrationRole: Role): (r: Result<Zone, Error>)
    ensures r.Err? <==> !Accepted(zoneName)
    ensures r.Err? ==> r.error == InvalidZoneName(zoneName)
    ensures r.Ok? ==> r.value.name == zoneName
    ensures r.Ok? ==> r.value.bucket == ReplaceChar(zoneName, '_', '-')
    ensures r.Ok? ==> |r.value.bucket| == |zoneName| && '_' !in r.value.bucket
    ensures r.Ok? ==> r.value.registrationRole == AttachInlinePolicy(registrationRole, Policy(None, [ListBucket(r.value.bucket)]))
    ensures r.Ok? ==> r.value.crawlerRole == InitialCrawlerRole(id, r.value.bucket)
    ensures r.Ok? ==> Grows(registrationRole, r.value.registrationRole)
    ensures r.Ok? ==> ActionsOn(AllStatements(r.value.registrationRole.policies), BucketArn(r.value.bucket))
                      == ActionsOn(AllStatements(registrationRole.policies), BucketArn(r.value.bucket)) + ["s3:ListBucket"]
    ensures r.Ok? ==> r.value.declarations == [PermissionsDecl(LakePermission(
                        r.value.crawlerRole.name, DatabaseResource(zoneName), CrawlerDatabasePermissions, []))]
    ensures r.Ok? ==> r.value.lifecycleRules == []
    ensures r.Ok? ==> Valid(r.value)
  {
    PatternMatchAcceptsIff(zoneName);
    if PatternMatch(zoneName).None? then Err(InvalidZoneName(zoneName))
    else
      var bucket := ReplaceChar(zoneName, '_', '-');
      var crawlerRole := InitialCrawlerRole(id, bucket);
      var policy := Policy(None, [ListBucket(bucket)]);
      var registration := AttachInlinePolicy(registrationRole, policy);
      AttachAddsActions(registrationRole, policy, BucketArn(bucket));
      ActionsOnSingle(ListBucket(bucket), BucketArn(bucket));
      Ok(Zone(zoneName, bucket, registration, crawlerRole,
        [PermissionsDecl(LakePermission(crawlerRole.name, DatabaseResource(zoneName), CrawlerDatabasePermissions, []))],
        []))
  }

  // ---------------------------------------------------------------------
  // Invariants
  // ---------------------------------------------------------------------

  /** What every reachable zone satisfies: each Lake Formation record grants
      something, each dependency edge points back to an earlier table
      declaration, each table location ends with `/`, and each crawler runs
      as the zone's crawler role. */
  predicate Valid(z: Zone) {
    && (forall i :: 0 <= i < |z.declarations| && z.declarations[i].PermissionsDecl? ==>
          z.declarations[i].grant.permissions != [])
    && (forall i, k ::
          (0 <= i < |z.declarations| && z.declarations[i].PermissionsDecl?
           && 0 <= k < |z.declarations[i].grant.dependsOn|) ==>
          (z.declarations[i].grant.dependsOn[k] < i
           && z.declarations[z.declarations[i].grant.dependsOn[k]].TableDecl?))
    && (forall i :: 0 <= i < |z.declarations| && z.declarations[i].TableDecl? ==>
          EndsWithSlash(z.declarations[i].table.location))
    && (forall i :: 0 <= i < |z.declarations| && z.declarations[i].CrawlerDecl? ==>
          z.declarations[i].crawler.roleName == z.crawlerRole.name)
  }

  /** `after` keeps every declaration of `before` in place, up to added
      dependency edges, and only appends to the roles and rules. */
  predicate Extends(before: Zone, after: Zone) {
    && after.name == before.name
    && after.bucket == before.bucket
    && Grows(before.registrationRole, after.registrationRole)
    && Grows(before.crawlerRole, after.crawlerRole)
    && before.lifecycleRules <= after.lifecycleRules
    && |before.declarations| <= |after.declarations|
    && forall i :: 0 <= i < |before.declarations| ==>
         SameUpToDependencies(before.declarations[i], after.declarations[i])
  }

  predicate SameUpToDependencies(d: Declaration, e: Declaration) {
    if d.PermissionsDecl? then
      e.PermissionsDecl? && e.grant.(dependsOn := d.grant.dependsOn) == d.grant
      && d.grant.dependsOn <= e.grant.dependsOn
    else e == d
  }

  lemma ExtendsTransitive(a: Zone, b: Zone, c: Zone)
    requires Extends(a, b) && Extends(b, c)
    ensures Extends(a, c)
  {
    forall i | 0 <= i < |a.declarations|
      ensures SameUpToDependencies(a.declarations[i], c.declarations[i])
    {
      assert SameUpToDependencies(a.declarations[i], b.declarations[i]);
      assert SameUpToDependencies(b.declarations[i], c.declarations[i]);
    }
  }

  /** Appending declarations that are valid on their own keeps a zone valid. */
  lemma AppendKeepsValid(z: Zone, more: seq<Declaration>)
    requires forall d :: d in more ==> d.PermissionsDecl? ==> d.grant.permissions != [] && d.grant.dependsOn == []
    requires forall d :: d in more ==> d.TableDecl? ==> EndsWithSlash(d.table.location)
    requires forall d :: d in more ==> d.CrawlerDecl? ==> d.crawler.roleName == z.crawlerRole.name
    ensures Valid(z) ==> Valid(z.(declarations := z.declarations + more))
  {
    if !Valid(z) { return; }
    var ds := z.declarations + more;
    forall i | 0 <= i < |ds|
      ensures ds[i].PermissionsDecl? ==> ds[i].grant.permissions != []
      ensures ds[i].TableDecl? ==> EndsWithSlash(ds[i].table.location)
      ensures ds[i].CrawlerDecl? ==> ds[i].crawler.roleName == z.crawlerRole.name
    {
      if i >= |z.declarations| {
        assert ds[i] in more;
      }
    }
    forall i, k | 0 <= i < |ds| && ds[i].PermissionsDecl? && 0 <= k < |ds[i].grant.dependsOn|
      ensures ds[i].grant.dependsOn[k] < i && ds[ds[i].grant.dependsOn[k]].TableDecl?
    {
    }
  }

  /** Appending one declaration that is valid on its own keeps a zone
      valid, and extends it. */
  lemma AppendOneKeepsValid(z: Zone, d: Declaration)
    requires d.PermissionsDecl? ==> d.grant.permissions != [] && d.grant.dependsOn == []
    requires d.TableDecl? ==> EndsWithSlash(d.table.location)
    requires d.CrawlerDecl? ==> d.crawler.roleName == z.crawlerRole.name
    ensures Valid(z) ==> Valid(z.(declarations := z.declarations + [d]))
    ensures Extends(z, z.(declarations := z.declarations + [d]))
  {
    AppendKeepsValid(z, [d]);
    AppendExtends(z, [d]);
  }

  /** Validity looks only at the declaration log and the crawler role's name. */
  lemma ValidDependsOnLogAndCrawler(a: Zone, b: Zone)
    requires a.declarations == b.declarations && a.crawlerRole.name == b.crawlerRole.name
    ensures Valid(a) <==> Valid(b)
  {
  }

  lemma AppendExtends(z: Zone, more: seq<Declaration>)
    ensures Extends(z, z.(declarations := z.declarations + more))
  {
    var after := z.(declarations := z.declarations + more);
    forall i | 0 <= i < |z.declarations|
      ensures SameUpToDependencies(z.declarations[i], after.declarations[i])
    {
      assert after.declarations[i] == z.declarations[i];
    }
  }

  // ---------------------------------------------------------------------
  // Statement assembly
  // ---------------------------------------------------------------------

  /** The order in which statement kinds appear in a table policy. */
  function Rank(resource: Resource): nat {
    match resource
    case DatabaseArn(_) => 0
    case Star => 1
    case ObjectsArn(_, _) => 2
    case BucketArn(_) => 3
  }

  /** The statements `grant_table_access_to_role` builds from its three
      action lists: a Glue statement on the database, a Lake Formation
      statement on `*`, and an S3 statement on the prefix's objects followed
      by `s3:ListBucket` on the bucket, each present iff its list is
      non-empty. Reading the actions back per resource gives the three lists. */
  function AssembleStatements(database: string, bucket: string, prefix: string,
                              glue: seq<string>, lake: seq<string>, s3: seq<string>): (r: seq<Statement>)
    ensures ActionsOn(r, DatabaseArn(database)) == glue
    ensures ActionsOn(r, Star) == lake
    ensures ActionsOn(r, ObjectsUnder(bucket, prefix)) == s3
    ensures ActionsOn(r, BucketArn(bucket)) == (if s3 == [] then [] else ["s3:ListBucket"])
    ensures r == [] <==> glue == [] && lake == [] && s3 == []
  {
    var r := StatementIfAny(glue, DatabaseArn(database)) + StatementIfAny(lake, Star)
             + S3StatementsIfAny(s3, bucket, prefix);
    forall res ensures ActionsOn(r, res) ==
        (if res == DatabaseArn(database) then glue else [])
        + (if res == Star then lake else [])
        + ActionsOn(S3StatementsIfAny(s3, bucket, prefix), res)
    {
      ActionsOnAppend(StatementIfAny(glue, DatabaseArn(database)) + StatementIfAny(lake, Star),
                      S3StatementsIfAny(s3, bucket, prefix), res);
      ActionsOnAppend(StatementIfAny(glue, DatabaseArn(database)), StatementIfAny(lake, Star), res);
    }
    r
  }

  /** The shape of a table policy: no statement is empty, statements come
      in the order database, `*`, objects, bucket, each at most once, and the
      objects statement is immediately followed by `s3:ListBucket` on the
      bucket. */
  predicate WellShaped(r: seq<Statement>, database: string, bucket: string, prefix: string) {
    && |r| <= 4
    && (forall i :: 0 <= i < |r| ==> r[i].actions != [])
    && (forall i :: 0 <= i < |r| ==>
          r[i].resource in {DatabaseArn(database), Star, ObjectsUnder(bucket, prefix), BucketArn(bucket)})
    && (forall i, j :: 0 <= i < j < |r| ==> Rank(r[i].resource) < Rank(r[j].resource))
    && (forall i :: 0 <= i < |r| && r[i].resource.ObjectsArn? ==>
          i + 1 < |r| && r[i + 1] == ListBucket(bucket))
  }

  lemma AssembleStatementsShape(database: string, bucket: string, prefix: string,
                                glue: seq<string>, lake: seq<string>, s3: seq<string>)
    ensures WellShaped(AssembleStatements(database, bucket, prefix, glue, lake, s3), database, bucket, prefix)
  {
    var gs := StatementIfAny(glue, DatabaseArn(database));
    var rest := StatementIfAny(lake, Star) + S3StatementsIfAny(s3, bucket, prefix);
    LakeAndS3Shape(lake, s3, database, bucket, prefix);
    GlueShape(glue, rest, database, bucket, prefix);
    assert gs + StatementIfAny(lake, Star) + S3StatementsIfAny(s3, bucket, prefix) == gs + rest;
  }

  /** The Glue statement, if any, goes in front of the rest. */
  lemma GlueShape(glue: seq<string>, rest: seq<Statement>, database: string, bucket: string, prefix: string)
    requires WellShaped(rest, database, bucket, prefix) && |rest| <= 3
    requires forall i :: 0 <= i < |rest| ==> rest[i].resource != DatabaseArn(database)
    ensures WellShaped(StatementIfAny(glue, DatabaseArn(database)) + rest, database, bucket, prefix)
  {
    var gs := StatementIfAny(glue, DatabaseArn(database));
    if glue != [] {
      assert gs == [Statement(glue, DatabaseArn(database))];
      PrependKeepsShape(Statement(glue, DatabaseArn(database)), rest, database, bucket, prefix);
    } else {
      assert gs + rest == rest;
    }
  }

  /** The Lake Formation and S3 part of a table policy is well shaped, and
      never mentions the database. */
  lemma LakeAndS3Shape(lake: seq<string>, s3: seq<string>, database: string, bucket: string, prefix: string)
    ensures var rest := StatementIfAny(lake, Star) + S3StatementsIfAny(s3, bucket, prefix);
            WellShaped(rest, database, bucket, prefix) && |rest| <= 3
            && forall i :: 0 <= i < |rest| ==> rest[i].resource != DatabaseArn(database)
  {
    var ls := StatementIfAny(lake, Star);
    var os := S3StatementsIfAny(s3, bucket, prefix);
    S3StatementsShape(s3, bucket, prefix, database);
    if lake != [] {
      assert ls == [Statement(lake, Star)];
      PrependKeepsShape(Statement(lake, Star), os, database, bucket, prefix);
    } else {
      assert ls + os == os;
    }
  }

  /** A statement on the database or on `*` may be put in front of a
      well-shaped list whose statements all rank after it. */
  lemma PrependKeepsShape(s: Statement, t: seq<Statement>, database: string, bucket: string, prefix: string)
    requires WellShaped(t, database, bucket, prefix) && |t| <= 3
    requires s.actions != [] && (s.resource == DatabaseArn(database) || s.resource == Star)
    requires forall i :: 0 <= i < |t| ==> Rank(s.resource) < Rank(t[i].resource)
    ensures WellShaped([s] + t, database, bucket, prefix)
  {
    var r := [s] + t;
    forall i, j | 0 <= i < j < |r| ensures Rank(r[i].resource) < Rank(r[j].resource) {
      if i > 0 {
        assert r[i] == t[i - 1] && r[j] == t[j - 1];
      } else {
        assert r[j] == t[j - 1];
      }
    }
    forall i | 0 <= i < |r| && r[i].resource.ObjectsArn? ensures i + 1 < |r| && r[i + 1] == ListBucket(bucket) {
      assert r[i] == t[i - 1];
    }
  }

  lemma S3StatementsShape(s3: seq<string>, bucket: string, prefix: string, database: string)
    ensures WellShaped(S3StatementsIfAny(s3, bucket, prefix), database, bucket, prefix)
  {
    var os := S3StatementsIfAny(s3, bucket, prefix);
    if s3 != [] {
      assert os[0].resource == ObjectsUnder(bucket, prefix) && os[1] == ListBucket(bucket);
    }
  }

  /** One statement on `resource` when there are actions for it, else none. */
  function StatementIfAny(actions: seq<string>, resource: Resource): (r: seq<Statement>)
    ensures |r| <= 1 && (r == [] <==> actions == [])
    ensures forall i :: 0 <= i < |r| ==> r[i] == Statement(actions, resource)
    ensures forall res :: ActionsOn(r, res) == if res == resource then actions else []
  {
    if actions == [] then []
    else
      forall res ensures ActionsOn([Statement(actions, resource)], res) == if res == resource then actions else [] {
        ActionsOnSingle(Statement(actions, resource), res);
      }
      [Statement(actions, resource)]
  }

  /** The S3 statement on the prefix's objects and the `s3:ListBucket`
      statement that always accompanies it, when there are S3 actions. */
  function S3StatementsIfAny(s3: seq<string>, bucket: string, prefix: string): (r: seq<Statement>)
    ensures r == [] <==> s3 == []
    ensures r != [] ==> r == [Statement(s3, ObjectsUnder(bucket, prefix)), ListBucket(bucket)]
    ensures ActionsOn(r, ObjectsUnder(bucket, prefix)) == s3
    ensures ActionsOn(r, BucketArn(bucket)) == (if s3 == [] then [] else ["s3:ListBucket"])
    ensures forall res :: res != ObjectsUnder(bucket, prefix) && res != BucketArn(bucket) ==> ActionsOn(r, res) == []
  {
    if s3 == [] then []
    else
      var objects := Statement(s3, ObjectsUnder(bucket, prefix));
      forall res ensures ActionsOn([objects, ListBucket(bucket)], res) ==
                         ActionsOn([objects], res) + ActionsOn([ListBucket(bucket)], res) {
        ActionsOnAppend([objects], [ListBucket(bucket)], res);
        assert [objects] + [ListBucket(bucket)] == [objects, ListBucket(bucket)];
      }
      forall res ensures ActionsOn([objects], res) == (if res == objects.resource then s3 else []) {
        ActionsOnSingle(objects, res);
      }
      forall res ensures ActionsOn([ListBucket(bucket)], res) == (if res == BucketArn(bucket) then ["s3:ListBucket"] else []) {
        ActionsOnSingle(ListBucket(bucket), res);
      }
      [objects, ListBucket(bucket)]
  }

  /** The statements of a table grant for `ps`: the Glue actions on the
      database, the Lake Formation actions on `*`, the S3 actions on the
      prefix's objects with `s3:ListBucket` on the bucket when there are any.
      Every table permission compiles to at least one action, so there are
      statements exactly when permissions are asked for. */
  function TableStatements(z: Zone, prefix: string, ps: seq<TablePermission>): (r: seq<Statement>)
    ensures ActionsOn(r, DatabaseArn(z.name)) == GlueActions(ps)
    ensures ActionsOn(r, Star) == LakeActions(ps)
    ensures ActionsOn(r, ObjectsUnder(z.bucket, prefix)) == S3Actions(ps)
    ensures ActionsOn(r, BucketArn(z.bucket)) == (if S3Actions(ps) == [] then [] else ["s3:ListBucket"])
    ensures r == [] <==> ps == []
  {
    NonEmptyGrantHasActions(ps);
    AssembleStatements(z.name, z.bucket, prefix, GlueActions(ps), LakeActions(ps), S3Actions(ps))
  }

  /** Every table permission compiles to a Glue or a Lake Formation action. */
  lemma NonEmptyGrantHasActions(ps: seq<TablePermission>)
    ensures ps != [] <==> GlueActions(ps) != [] || LakeActions(ps) != []
  {
    if ps != [] {
      var p := ps[0];
      assert p in ps;
      LakeActionsEmptyIff(ps);
    }
  }

  /** A read-only grant: SELECT yields Lake Formation data access on `*`,
      reading the prefix's objects, and listing the bucket; nothing on the
      Glue database. */
  lemma SelectGrantStatements(z: Zone, prefix: string)
    ensures TableStatements(z, prefix, [Select]) == [
              Statement([GetDataAccess], Star),
              Statement(["s3:GetObject", "s3:GetObjectVersion"], ObjectsUnder(z.bucket, prefix)),
              ListBucket(z.bucket)]
  {
    SelectGrantActions();
    LakeAndS3Statements(z.name, z.bucket, prefix, [GetDataAccess], ["s3:GetObject", "s3:GetObjectVersion"]);
  }

  lemma SelectGrantActions()
    ensures GlueActions([Select]) == []
    ensures LakeActions([Select]) == [GetDataAccess]
    ensures S3Actions([Select]) == ["s3:GetObject", "s3:GetObjectVersion"]
  {
    GlueActionsEmptyIff([Select]);
    S3ActionsExamples();
    SelectLakeActions();
  }

  lemma SelectLakeActions()
    ensures LakeActions([Select]) == [GetDataAccess]
  {
    assert multiset([Select]) == multiset{Select};
    assert DataPermissionCount([Select]) == 1;
  }

  /** With no Glue actions, the policy is the `*` statement and the two S3
      statements. */
  lemma LakeAndS3Statements(database: string, bucket: string, prefix: string, lake: seq<string>, s3: seq<string>)
    requires lake != [] && s3 != []
    ensures AssembleStatements(database, bucket, prefix, [], lake, s3)
            == [Statement(lake, Star), Statement(s3, ObjectsUnder(bucket, prefix)), ListBucket(bucket)]
  {
    assert StatementIfAny([], DatabaseArn(database)) == [];
    assert StatementIfAny(lake, Star) == [Statement(lake, Star)];
  }

  // ---------------------------------------------------------------------
  // Grants
  // ---------------------------------------------------------------------

  /** `grant_db_access_to_role`: a no-op on an empty list; otherwise one
      Lake Formation database record and one policy with a single statement
      on the database, one action per permission in input order. */
  function GrantDatabaseAccess(z: Zone, role: Role, ps: seq<DatabasePermission>): (r: (Zone, Role))
    ensures ps == [] ==> r == (z, role)
    ensures ps != [] ==> r.0 == z.(declarations := z.declarations + [PermissionsDecl(
              LakePermission(role.name, DatabaseResource(z.name), DatabaseValues(ps), []))])
    ensures ps != [] ==> r.1.policies == role.policies + [Policy(Some(DatabasePolicyName(z.name)),
              [Statement(DatabaseActions(ps), DatabaseArn(z.name))])]
    ensures Grows(role, r.1) && Extends(z, r.0)
    ensures Valid(z) ==> Valid(r.0)
  {
    if ps == [] then (z, role)
    else
      var record := LakePermission(role.name, DatabaseResource(z.name), DatabaseValues(ps), []);
      var z' := z.(declarations := z.declarations + [PermissionsDecl(record)]);
      AppendOneKeepsValid(z, PermissionsDecl(record));
      (z', AttachInlinePolicy(role, Policy(Some(DatabasePolicyName(z.name)),
            [Statement(DatabaseActions(ps), DatabaseArn(z.name))])))
  }

  /** `grant_table_access_to_role`: a no-op returning no record on an empty
      list; otherwise one Lake Formation table record carrying the
      permissions' values in input order, and one policy holding the
      assembled statements. */
  method GrantTableAccess(z: Zone, role: Role, prefix: string, ps: seq<TablePermission>) returns (r: TableGrant)
    ensures r.record.None? <==> ps == []
    ensures ps == [] ==> r.zone == z && r.role == role
    ensures ps != [] ==> r.record == Some(|z.declarations|)
    ensures ps != [] ==> r.zone == z.(declarations := z.declarations + [PermissionsDecl(
              LakePermission(role.name, TableResource(z.name, prefix), TableValues(ps), []))])
    ensures ps != [] ==> r.role.policies == role.policies + [Policy(Some(TablePolicyName(z.name, prefix)),
              TableStatements(z, prefix, ps))]
    ensures Grows(role, r.role) && Extends(z, r.zone)
    ensures Valid(z) ==> Valid(r.zone)
  {
    if ps == [] {
      return TableGrant(z, role, None);
    }
    var record := LakePermission(role.name, TableResource(z.name, prefix), TableValues(ps), []);
    AppendOneKeepsValid(z, PermissionsDecl(record));
    var statements := TableStatements(z, prefix, ps);
    var role' := if statements != [] then AttachInlinePolicy(role, Policy(Some(TablePolicyName(z.name, prefix)), statements))
                 else role;
    r := TableGrant(z.(declarations := z.declarations + [PermissionsDecl(record)]), role', Some(|z.declarations|));
  }

  /** `lake_permissions.node.add_dependency(target)`: adds an ordering edge
      to the record at `record`; nothing else changes. */
  function AddDependency(z: Zone, record: nat, target: nat): (r: Zone)
    requires record < |z.declarations| && z.declarations[record].PermissionsDecl?
    ensures |r.declarations| == |z.declarations|
    ensures r.declarations[record].PermissionsDecl?
    ensures r.declarations[record].grant.dependsOn == z.declarations[record].grant.dependsOn + [target]
    ensures forall i :: 0 <= i < |z.declarations| && i != record ==> r.declarations[i] == z.declarations[i]
    ensures r == z.(declarations := r.declarations)
    ensures Extends(z, r)
  {
    var g := z.declarations[record].grant;
    var d := PermissionsDecl(g.(dependsOn := g.dependsOn + [target]));
    var r := z.(declarations := z.declarations[record := d]);
    assert SameUpToDependencies(z.declarations[record], r.declarations[record]);
    r
  }

  /** Adding an edge to a freshly appended record rewrites only that record. */
  lemma AddDependencyToLast(z: Zone, g: LakePermission, target: nat)
    requires g.dependsOn == []
    ensures AddDependency(z.(declarations := z.declarations + [PermissionsDecl(g)]), |z.declarations|, target).declarations
            == z.declarations + [PermissionsDecl(g.(dependsOn := [target]))]
  {
    assert g.dependsOn + [target] == [target];
  }

  /** An edge from a record to an earlier table declaration keeps a zone
      valid. */
  lemma AddDependencyKeepsValid(z: Zone, record: nat, target: nat)
    requires record < |z.declarations| && z.declarations[record].PermissionsDecl?
    requires target < record && z.declarations[target].TableDecl?
    ensures Valid(z) ==> Valid(AddDependency(z, record, target))
  {
    if !Valid(z) { return; }
    var r := AddDependency(z, record, target);
    var ds := r.declarations;
    forall i, k | 0 <= i < |ds| && ds[i].PermissionsDecl? && 0 <= k < |ds[i].grant.dependsOn|
      ensures ds[i].grant.dependsOn[k] < i && ds[ds[i].grant.dependsOn[k]].TableDecl?
    {
      var j := ds[i].grant.dependsOn[k];
      if i == record && k == |z.declarations[record].grant.dependsOn| {
        assert j == target;
      } else {
        assert j == z.declarations[i].grant.dependsOn[k];
        assert z.declarations[j].TableDecl?;
      }
    }
    forall i | 0 <= i < |ds| && ds[i].PermissionsDecl? ensures ds[i].grant.permissions != [] {
      if i != record {
        assert ds[i] == z.declarations[i];
      }
    }
  }

  // ---------------------------------------------------------------------
  // Registration, tables, crawlers, lifecycle rules
  // ---------------------------------------------------------------------

  /** The policy `register_resource` attaches to the registration role. */
  function RegistrationPolicy(bucket: string, prefix: string): Policy {
    Policy(None, [Statement(["s3:PutObject", "s3:GetObject", "s3:DeleteObject"], ObjectsUnder(bucket, prefix))])
  }

  /** `register_resource`: lets the registration role put, get and delete
      objects under the prefix, and registers those objects with Lake
      Formation through that role. */
  function RegisterResource(z: Zone, prefix: string): (r: Zone)
    ensures r.declarations == z.declarations + [RegistrationDecl(
              Registration(ObjectsUnder(z.bucket, prefix), z.registrationRole.name))]
    ensures ActionsOn(AllStatements(r.registrationRole.policies), ObjectsUnder(z.bucket, prefix))
            == ActionsOn(AllStatements(z.registrationRole.policies), ObjectsUnder(z.bucket, prefix))
               + ["s3:PutObject", "s3:GetObject", "s3:DeleteObject"]
    ensures r.registrationRole == AttachInlinePolicy(z.registrationRole, RegistrationPolicy(z.bucket, prefix))
    ensures r.crawlerRole == z.crawlerRole && r.lifecycleRules == z.lifecycleRules
    ensures Extends(z, r)
    ensures Valid(z) ==> Valid(r)
  {
    var resource := ObjectsUnder(z.bucket, prefix);
    var policy := RegistrationPolicy(z.bucket, prefix);
    var statement := policy.statements[0];
    var decl := RegistrationDecl(Registration(resource, z.registrationRole.name));
    AttachAddsActions(z.registrationRole, policy, resource);
    ActionsOnSingle(statement, resource);
    AppendOneKeepsValid(z, decl);
    z.(registrationRole := AttachInlinePolicy(z.registrationRole, policy),
       declarations := z.declarations + [decl])
  }

  /** `create_table`: declares a table named after the prefix, whose
      location is the prefix's S3 URL with a trailing `/` ensured. Returns
      the table's position in the declaration log as its handle. */
  function CreateGlueTable(z: Zone, prefix: string, description: string): (r: (Zone, nat))
    ensures r.1 == |z.declarations|
    ensures var n := |z.declarations|;
            && |r.0.declarations| == n + 1 && r.0.declarations[..n] == z.declarations
            && r.0.declarations[n].TableDecl?
            && r.0.declarations[n].table.name == prefix
            && r.0.declarations[n].table.description == description
            && r.0.declarations[n].table.database == z.name
            && EndsWithSlash(r.0.declarations[n].table.location)
            && ObjectUrl(z.bucket, prefix) <= r.0.declarations[n].table.location
            && |r.0.declarations[n].table.location| <= |ObjectUrl(z.bucket, prefix)| + 1
            && (EndsWithSlash(ObjectUrl(z.bucket, prefix)) ==> r.0.declarations[n].table.location == ObjectUrl(z.bucket, prefix))
    ensures r.0.registrationRole == z.registrationRole && r.0.crawlerRole == z.crawlerRole
    ensures r.0.lifecycleRules == z.lifecycleRules
    ensures Extends(z, r.0)
    ensures Valid(z) ==> Valid(r.0)
  {
    var table := Table(prefix, description, z.name, EnsureTrailingSlash(ObjectUrl(z.bucket, prefix)));
    AppendOneKeepsValid(z, TableDecl(table));
    (z.(declarations := z.declarations + [TableDecl(table)]), |z.declarations|)
  }

  /** The data-location record that lets the crawler role reach the
      prefix's objects. */
  function CrawlerAccessRecord(z: Zone, prefix: string): Declaration {
    PermissionsDecl(LakePermission(z.crawlerRole.name,
      DataLocationResource(ObjectsUnder(z.bucket, prefix)), DataLocationAccess, []))
  }

  /** The table record of the crawler's ALTER and DESCRIBE grant. */
  function CrawlerTableRecord(z: Zone, prefix: string): Declaration {
    PermissionsDecl(LakePermission(z.crawlerRole.name, TableResource(z.name, prefix), ["ALTER", "DESCRIBE"], []))
  }

  /** The policy of the crawler's ALTER and DESCRIBE grant. */
  function CrawlerTablePolicy(database: string, prefix: string): Policy {
    Policy(Some(TablePolicyName(database, prefix)), [Statement(["glue:UpdateTable", "glue:GetTable"], DatabaseArn(database))])
  }

  /** `_authorize_crawling_resource`: gives the crawler role data-location
      access to the prefix's objects, then grants it ALTER and DESCRIBE on
      the prefix's table. That grant compiles to a single Glue statement
      `[glue:UpdateTable, glue:GetTable]` on the database: no Lake Formation
      and no S3 statement. */
  method AuthorizeCrawlingResource(z: Zone, prefix: string) returns (r: Zone)
    ensures r.declarations == z.declarations + [CrawlerAccessRecord(z, prefix), CrawlerTableRecord(z, prefix)]
    ensures r.crawlerRole == AttachInlinePolicy(z.crawlerRole, CrawlerTablePolicy(z.name, prefix))
    ensures r.registrationRole == z.registrationRole && r.lifecycleRules == z.lifecycleRules
    ensures Extends(z, r)
    ensures Valid(z) ==> Valid(r)
  {
    var z1 := z.(declarations := z.declarations + [CrawlerAccessRecord(z, prefix)]);
    var g := GrantTableAccess(z1, z1.crawlerRole, prefix, CrawlerTablePermissions);
    CrawlerGrantStatements(z1, prefix);
    CrawlerTableValues();
    CrawlerRecordsKeepValid(z, prefix);
    r := g.zone.(crawlerRole := g.role);
    ValidDependsOnLogAndCrawler(r, g.zone);
  }

  /** The two records `_authorize_crawling_resource` appends keep a zone
      valid. */
  lemma CrawlerRecordsKeepValid(z: Zone, prefix: string)
    ensures var more := [CrawlerAccessRecord(z, prefix), CrawlerTableRecord(z, prefix)];
            && (Valid(z) ==> Valid(z.(declarations := z.declarations + more)))
            && Extends(z, z.(declarations := z.declarations + more))
            && z.declarations + more == z.declarations + [more[0]] + [more[1]]
  {
    var more := [CrawlerAccessRecord(z, prefix), CrawlerTableRecord(z, prefix)];
    AppendExtends(z, more);
    AppendKeepsValid(z, more);
  }

  /** The crawler's table grant compiles to exactly one statement. */
  lemma CrawlerGrantStatements(z: Zone, prefix: string)
    ensures TableStatements(z, prefix, CrawlerTablePermissions)
            == [Statement(["glue:UpdateTable", "glue:GetTable"], DatabaseArn(z.name))]
  {
    CrawlerGrantActions();
    OnlyGlueStatement(z.name, z.bucket, prefix, ["glue:UpdateTable", "glue:GetTable"]);
  }

  /** The crawler's Lake Formation table record carries ALTER and DESCRIBE. */
  lemma CrawlerTableValues()
    ensures TableValues(CrawlerTablePermissions) == ["ALTER", "DESCRIBE"]
  {
    var values := TableValues(CrawlerTablePermissions);
    assert values[0] == "ALTER" && values[1] == "DESCRIBE";
  }

  /** ALTER and DESCRIBE compile to two Glue actions and nothing else. */
  lemma CrawlerGrantActions()
    ensures GlueActions(CrawlerTablePermissions) == ["glue:UpdateTable", "glue:GetTable"]
    ensures LakeActions(CrawlerTablePermissions) == []
    ensures S3Actions(CrawlerTablePermissions) == []
  {
    GlueActionsExamples();
    LakeActionsEmptyIff(CrawlerTablePermissions);
    S3ActionsEmptyIff(CrawlerTablePermissions);
  }

  /** With Glue actions only, the policy is the single Glue statement. */
  lemma OnlyGlueStatement(database: string, bucket: string, prefix: string, glue: seq<string>)
    requires glue != []
    ensures AssembleStatements(database, bucket, prefix, glue, [], []) == [Statement(glue, DatabaseArn(database))]
  {
    assert StatementIfAny(glue, DatabaseArn(database)) == [Statement(glue, DatabaseArn(database))];
  }

  /** The crawler `create_crawler` declares for a prefix: it crawls the
      prefix's S3 URL into the zone's database as the crawler role, and has
      the caller's classifier as its only classifier, or no classifier list
      at all. */
  function CrawlerFor(z: Zone, prefix: string, schedule: Option<string>, classifier: Option<string>): (c: Crawler)
    ensures c.name == z.name + "-" + prefix + "-crawler"
    ensures c.roleName == z.crawlerRole.name
    ensures c.target == ObjectUrl(z.bucket, prefix) && c.database == z.name
    ensures c.schedule == schedule && c.configuration == CrawlerConfiguration
    ensures c.classifiers.None? <==> classifier.None?
    ensures classifier.Some? ==> c.classifiers == Some([classifier.value])
  {
    var classifiers := if classifier.Some? then Some([classifier.value]) else None;
    Crawler(z.name + "-" + prefix + "-crawler",
      "Crawls the data lake dataset named '" + prefix + "'.",
      z.crawlerRole.name, ObjectUrl(z.bucket, prefix), classifiers, z.name, schedule, CrawlerConfiguration)
  }

  /** `create_crawler`: declares the crawler, then authorizes the crawler
      role for the prefix. Returns the crawler's position in the declaration
      log. The file type is accepted but never read: the result is fixed by
      the other arguments alone. */
  method CreateCrawler(z: Zone, prefix: string, filetype: Filetype,
                       schedule: Option<string>, classifier: Option<string>) returns (r: Zone, crawler: nat)
    ensures crawler == |z.declarations|
    ensures r.declarations == z.declarations + [CrawlerDecl(CrawlerFor(z, prefix, schedule, classifier)),
              CrawlerAccessRecord(z, prefix), CrawlerTableRecord(z, prefix)]
    ensures r.crawlerRole == AttachInlinePolicy(z.crawlerRole, CrawlerTablePolicy(z.name, prefix))
    ensures r.registrationRole == z.registrationRole && r.lifecycleRules == z.lifecycleRules
    ensures Extends(z, r)
    ensures Valid(z) ==> Valid(r)
  {
    var d := CrawlerDecl(CrawlerFor(z, prefix, schedule, classifier));
    var z1 := z.(declarations := z.declarations + [d]);
    AppendOneKeepsValid(z, d);
    r := AuthorizeCrawlingResource(z1, prefix);
    ExtendsTransitive(z, z1, r);
    crawler := |z.declarations|;
  }

  /** One lifecycle rule as added to the bucket: the caller's `prefix`, if
      any, is dropped and replaced by the zone prefix with a trailing `/`. */
  function NormaliseRule(prefix: string, rule: LifecycleRule): (r: BucketRule)
    ensures r.prefix == EnsureTrailingSlash(prefix)
    ensures "prefix" !in r.values
    ensures r.values.Keys == rule.values.Keys - {"prefix"}
    ensures forall k :: k in r.values ==> r.values[k] == rule.values[k]
  {
    BucketRule(EnsureTrailingSlash(prefix), rule.values - {"prefix"})
  }

  /** The rules `add_lifecycle_rules` adds, one per input rule, in order. */
  function NormaliseRules(prefix: string, rules: seq<LifecycleRule>): (r: seq<BucketRule>)
    ensures |r| == |rules|
    ensures forall i :: 0 <= i < |rules| ==>
              r[i].prefix == EnsureTrailingSlash(prefix) && "prefix" !in r[i].values
              && r[i].values.Keys == rules[i].values.Keys - {"prefix"}
              && forall k :: k in r[i].values ==> r[i].values[k] == rules[i].values[k]
  {
    if rules == [] then [] else [NormaliseRule(prefix, rules[0])] + NormaliseRules(prefix, rules[1..])
  }

  /** `add_lifecycle_rules`: appends the normalised rules to the bucket;
      nothing else changes. */
  function AddLifecycleRules(z: Zone, prefix: string, rules: seq<LifecycleRule>): (r: Zone)
    ensures |r.lifecycleRules| == |z.lifecycleRules| + |rules|
    ensures r.lifecycleRules[..|z.lifecycleRules|] == z.lifecycleRules
    ensures r.lifecycleRules[|z.lifecycleRules|..] == NormaliseRules(prefix, rules)
    ensures r.(lifecycleRules := z.lifecycleRules) == z
    ensures Extends(z, r)
    ensures Valid(z) ==> Valid(r)
  {
    var r := z.(lifecycleRules := z.lifecycleRules + NormaliseRules(prefix, rules));
    assert r.lifecycleRules[..|z.lifecycleRules|] == z.lifecycleRules;
    r
  }
}
