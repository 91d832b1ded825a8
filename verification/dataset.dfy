/** A dataset: one S3 prefix of a zone, declared as a registered location,
    a Glue table and a crawler, with lifecycle rules on the prefix
    (vre_data_lake/dataset.py). */
module Datasets {
  import opened Optional
  import opened Text
  import opened Iam
  import opened Permissions
  import opened Filetypes
  import opened Zones

  /** The prefix the dataset lives under and the position of its table in
      the zone's declaration log. */
  datatype Dataset = Dataset(prefix: string, table: nat)

  /** `grant_access_to_role` on an empty permission list: the zone returns
      no permissions record, and adding a dependency to it fails. */
  datatype DatasetError = NoPermissionsRecord

  /** The dataset's table handle names a table declaration for its prefix. */
  predicate ValidDataset(ds: Dataset, z: Zone) {
    ds.table < |z.declarations| && z.declarations[ds.table].TableDecl?
    && z.declarations[ds.table].table.name == ds.prefix
  }

  /** `Dataset.__init__`: registers the prefix, creates its table, creates
      its crawler and adds the lifecycle rules, in that order. Five
      declarations are appended: the registration, the table, the crawler,
      and the crawler role's data-location and table records. */
  method NewDataset(z: Zone, description: string, filetype: Filetype, prefix: string,
                    rules: seq<LifecycleRule>, classifier: Option<string>, schedule: Option<string>)
    returns (ds: Dataset, r: Zone)
    ensures ds == Dataset(prefix, |z.declarations| + 1)
    ensures r.declarations == z.declarations + [
              RegistrationDecl(Registration(ObjectsUnder(z.bucket, prefix), z.registrationRole.name)),
              TableDecl(Table(prefix, description, z.name, EnsureTrailingSlash(ObjectUrl(z.bucket, prefix)))),
              CrawlerDecl(CrawlerFor(z, prefix, schedule, classifier)),
              CrawlerAccessRecord(z, prefix),
              CrawlerTableRecord(z, prefix)]
    ensures r.crawlerRole == AttachInlinePolicy(z.crawlerRole, CrawlerTablePolicy(z.name, prefix))
    ensures r.registrationRole == AttachInlinePolicy(z.registrationRole, RegistrationPolicy(z.bucket, prefix))
    ensures ActionsOn(AllStatements(r.registrationRole.policies), ObjectsUnder(z.bucket, prefix))
            == ActionsOn(AllStatements(z.registrationRole.policies), ObjectsUnder(z.bucket, prefix))
               + ["s3:PutObject", "s3:GetObject", "s3:DeleteObject"]
    ensures r.lifecycleRules == z.lifecycleRules + NormaliseRules(prefix, rules)
    ensures Extends(z, r)
    ensures ValidDataset(ds, r)
    ensures Valid(z) ==> Valid(r)
  {
    var reg := RegistrationDecl(Registration(ObjectsUnder(z.bucket, prefix), z.registrationRole.name));
    var tbl := TableDecl(Table(prefix, description, z.name, EnsureTrailingSlash(ObjectUrl(z.bucket, prefix))));
    var z1 := RegisterResource(z, prefix);
    var (z2, table) := CreateGlueTable(z1, prefix, description);
    assert z2.declarations == z.declarations + [reg, tbl];
    var z3, crawler := CreateCrawler(z2, prefix, filetype, schedule, classifier);
    assert z3.declarations == z.declarations + [reg, tbl, CrawlerDecl(CrawlerFor(z, prefix, schedule, classifier)),
             CrawlerAccessRecord(z, prefix), CrawlerTableRecord(z, prefix)];
    r := AddLifecycleRules(z3, prefix, rules);
    ds := Dataset(prefix, table);
    ExtendsTransitive(z, z1, z2);
    ExtendsTransitive(z, z2, z3);
    ExtendsTransitive(z, z3, r);
    assert r.lifecycleRules == z.lifecycleRules + NormaliseRules(prefix, rules) by {
      assert r.lifecycleRules == r.lifecycleRules[..|z3.lifecycleRules|] + r.lifecycleRules[|z3.lifecycleRules|..];
    }
  }

  /** `grant_access_to_role`: forwards to the zone's table grant for the
      dataset's prefix, then makes the returned record depend on the
      dataset's table. With no permissions there is no record, and the
      call fails. */
  method GrantAccessToRole(ds: Dataset, z: Zone, role: Role, ps: seq<TablePermission>)
    returns (r: Result<(Zone, Role), DatasetError>)
    ensures r.Err? <==> ps == []
    ensures r.Err? ==> r.error == NoPermissionsRecord
    ensures r.Ok? ==> r.value.0 == z.(declarations := z.declarations + [PermissionsDecl(
              LakePermission(role.name, TableResource(z.name, ds.prefix), TableValues(ps), [ds.table]))])
    ensures r.Ok? ==> r.value.1.policies == role.policies + [Policy(Some(TablePolicyName(z.name, ds.prefix)),
              TableStatements(z, ds.prefix, ps))]
    ensures r.Ok? ==> Grows(role, r.value.1) && Extends(z, r.value.0)
    ensures r.Ok? && Valid(z) && ValidDataset(ds, z) ==> Valid(r.value.0)
  {
    var g := GrantTableAccess(z, role, ds.prefix, ps);
    if g.record.None? {
      return Err(NoPermissionsRecord);
    }
    var record := g.record.value;
    var z' := AddDependency(g.zone, record, ds.table);
    AddDependencyToLast(z, LakePermission(role.name, TableResource(z.name, ds.prefix), TableValues(ps), []), ds.table);
    if ValidDataset(ds, z) {
      assert g.zone.declarations[ds.table] == z.declarations[ds.table];
      AddDependencyKeepsValid(g.zone, record, ds.table);
    }
    ExtendsTransitive(z, g.zone, z');
    r := Ok((z', g.role));
  }

  /** A dataset stays valid as its zone grows. */
  lemma ExtendsKeepsDataset(ds: Dataset, z: Zone, z': Zone)
    requires ValidDataset(ds, z) && Extends(z, z')
    ensures ValidDataset(ds, z')
  {
    assert SameUpToDependencies(z.declarations[ds.table], z'.declarations[ds.table]);
  }
}
