/** The permission vocabulary and the four lookup tables that compile a
    permission list into IAM action names (vre_data_lake/zone.py). */
module Permissions {
  import opened Optional
  import opened ActionPatterns

  datatype DatabasePermission = Alter | CreateTable | Describe | Drop | Super

  datatype TablePermission = Alter | Delete | Describe | Drop | Insert | Select | Super

  /** The enum's `.value`, handed to Lake Formation as the permission name.
      SUPER's value is spelled `Super`. */
  function DatabaseValue(p: DatabasePermission): string {
    match p
    case Alter => "ALTER"
    case CreateTable => "CREATE_TABLE"
    case Describe => "DESCRIBE"
    case Drop => "DROP"
    case Super => "Super"
  }

  function TableValue(p: TablePermission): string {
    match p
    case Alter => "ALTER"
    case Delete => "DELETE"
    case Describe => "DESCRIBE"
    case Drop => "DROP"
    case Insert => "INSERT"
    case Select => "SELECT"
    case Super => "Super"
  }

  /** `[p.value for p in permissions]` */
  function TableValues(ps: seq<TablePermission>): (r: seq<string>)
    ensures |r| == |ps|
    ensures forall i :: 0 <= i < |ps| ==> r[i] == TableValue(ps[i])
  {
    if ps == [] then [] else [TableValue(ps[0])] + TableValues(ps[1..])
  }

  function DatabaseValues(ps: seq<DatabasePermission>): (r: seq<string>)
    ensures |r| == |ps|
    ensures forall i :: 0 <= i < |ps| ==> r[i] == DatabaseValue(ps[i])
  {
    if ps == [] then [] else [DatabaseValue(ps[0])] + DatabaseValues(ps[1..])
  }

  /** Distinct permissions have distinct values, so the value list of a
      grant determines the permission list it was made from. */
  lemma {:induction false} TableValuesInjective(ps: seq<TablePermission>, qs: seq<TablePermission>)
    requires TableValues(ps) == TableValues(qs)
    ensures ps == qs
  {
    if ps != [] {
      assert TableValue(ps[0]) == TableValue(qs[0]);
      assert TableValues(ps[1..]) == TableValues(qs[1..]);
      TableValuesInjective(ps[1..], qs[1..]);
    }
  }

  // ---------------------------------------------------------------------
  // Database permissions
  // ---------------------------------------------------------------------

  /** One entry of `_map_db_permissions_to_iam_permissions`'s table. */
  function DatabaseAction(p: DatabasePermission): string {
    match p
    case Alter => "glue:UpdateDatabase"
    case CreateTable => "glue:CreateTable"
    case Describe => "glue:GetDatabase"
    case Drop => "glue:DeleteDatabase"
    case Super => "glue:*Database*"
  }

  /** `_map_db_permissions_to_iam_permissions`: one action per input
      permission, in input order, duplicates kept. */
  function DatabaseActions(ps: seq<DatabasePermission>): (r: seq<string>)
    ensures |r| == |ps|
    ensures forall i :: 0 <= i < |ps| ==> r[i] == DatabaseAction(ps[i])
  {
    if ps == [] then [] else [DatabaseAction(ps[0])] + DatabaseActions(ps[1..])
  }

  /** The database permission an action stands for: the inverse table. */
  function DatabasePermissionOf(action: string): (r: Option<DatabasePermission>)
    ensures r.Some? ==> DatabaseAction(r.value) == action
    ensures r.None? ==> forall p :: DatabaseAction(p) != action
  {
    if action == "glue:UpdateDatabase" then Some(DatabasePermission.Alter)
    else if action == "glue:CreateTable" then Some(CreateTable)
    else if action == "glue:GetDatabase" then Some(DatabasePermission.Describe)
    else if action == "glue:DeleteDatabase" then Some(DatabasePermission.Drop)
    else if action == "glue:*Database*" then Some(DatabasePermission.Super)
    else None
  }

  /** Decodes a compiled database action list back to permissions. */
  function DatabasePermissionsOf(actions: seq<string>): Option<seq<DatabasePermission>> {
    if actions == [] then Some([])
    else match (DatabasePermissionOf(actions[0]), DatabasePermissionsOf(actions[1..]))
      case (Some(p), Some(rest)) => Some([p] + rest)
      case _ => None
  }

  /** The database map loses nothing: decoding its output gives back the
      input list, order and duplicates included. */
  lemma {:induction false} DatabaseActionsRoundTrip(ps: seq<DatabasePermission>)
    ensures DatabasePermissionsOf(DatabaseActions(ps)) == Some(ps)
  {
    if ps != [] {
      var actions := DatabaseActions(ps);
      assert actions[1..] == DatabaseActions(ps[1..]);
      DatabaseActionsRoundTrip(ps[1..]);
      assert DatabasePermissionOf(actions[0]) == Some(ps[0]);
      assert [ps[0]] + ps[1..] == ps;
    }
  }

  /** `glue:*X*` matches `glue:` + anything + `X`. */
  lemma GlueInfixCovers(infix: string, before: string)
    requires forall i :: 0 <= i < |infix| ==> !IsWildcard(infix[i])
    ensures Matches("glue:*" + infix + "*", "glue:" + before + infix)
  {
    InfixPatternMatches("glue:", infix, before, "");
    assert "glue:" + "*" + infix + "*" == "glue:*" + infix + "*";
    assert "glue:" + before + infix + "" == "glue:" + before + infix;
  }

  /** SUPER's wildcard `glue:*Database*` covers the ALTER, DESCRIBE and DROP
      actions. */
  lemma DatabaseSuperCovers(p: DatabasePermission)
    requires p != CreateTable
    ensures Matches(DatabaseAction(DatabasePermission.Super), DatabaseAction(p))
  {
    match p
    case Alter => DatabaseVerbCovered("Update", "glue:UpdateDatabase");
    case Describe => DatabaseVerbCovered("Get", "glue:GetDatabase");
    case Drop => DatabaseVerbCovered("Delete", "glue:DeleteDatabase");
    case Super => DatabaseSuperCoversItself();
  }

  /** `glue:*Database*` matches `glue:` + verb + `Database`. */
  lemma DatabaseVerbCovered(verb: string, action: string)
    requires action == "glue:" + verb + "Database"
    ensures Matches("glue:*Database*", action)
  {
    GlueInfixCovers("Database", verb);
    assert "glue:*" + "Database" + "*" == "glue:*Database*";
  }

  lemma DatabaseSuperCoversItself()
    ensures Matches("glue:*Database*", "glue:*Database*")
  {
    InfixPatternMatches("glue:", "Database", "*", "*");
    assert "glue:" + "*" + "Database" + "*" == "glue:*Database*";
  }

  /** ... but not CREATE_TABLE: `glue:*Database*` does not match
      `glue:CreateTable`, so a role granted only SUPER on a database gets no
      IAM permission to create tables in it. */
  lemma DatabaseSuperMissesCreateTable()
    ensures !Matches(DatabaseAction(DatabasePermission.Super), DatabaseAction(CreateTable))
  {
    if Matches("glue:*Database*", "glue:CreateTable") {
      LiteralCharsOccur("glue:*Database*", "glue:CreateTable", 6);
      assert false;
    }
  }

  // ---------------------------------------------------------------------
  // Table permissions
  // ---------------------------------------------------------------------

  /** The three table maps of zone.py. A `None` entry is an empty list. */
  datatype TableMap = GlueMap | LakeMap | S3Map

  const GetDataAccess: string := "lakeformation:GetDataAccess"

  function Entry(m: TableMap, p: TablePermission): seq<string> {
    match m
    case GlueMap => (
      match p
      case Alter => ["glue:UpdateTable"]
      case Describe => ["glue:GetTable"]
      case Drop => ["glue:DeleteTable"]
      case Super => ["glue:*Table*", "glue:*Partition*"]
      case _ => [])
    case LakeMap => (
      match p
      case Delete | Insert | Select | Super => [GetDataAccess]
      case _ => [])
    case S3Map => (
      match p
      case Delete => ["s3:DeleteObject"]
      case Insert => ["s3:PutObject"]
      case Select => ["s3:GetObject", "s3:GetObjectVersion"]
      case Super => ["s3:DeleteObject", "s3:PutObject", "s3:GetObject", "s3:GetObjectVersion"]
      case _ => [])
  }

  /** The key order of the Python dict literals, which the Glue and S3 maps
      iterate. */
  const MapOrder: seq<TablePermission> :=
    [TablePermission.Alter, Delete, TablePermission.Describe, TablePermission.Drop, Insert, Select, TablePermission.Super]

  /** `[a for p in table if table[p] and p in ps for a in table[p]]`:
      walks `order` and emits the entry of each permission present in `ps`. */
  function CollectInOrder(m: TableMap, order: seq<TablePermission>, ps: seq<TablePermission>): seq<string> {
    if order == [] then []
    else (if order[0] in ps then Entry(m, order[0]) else []) + CollectInOrder(m, order[1..], ps)
  }

  /** `_map_table_permissions_to_glue_iam_permissions`: the entries of
      ALTER, DESCRIBE, DROP and SUPER, in that fixed order, each once if the
      permission is present; DELETE, INSERT and SELECT add nothing. */
  function GlueActions(ps: seq<TablePermission>): (r: seq<string>)
    ensures r == Present(GlueMap, TablePermission.Alter, ps) + (Present(GlueMap, TablePermission.Describe, ps)
                 + (Present(GlueMap, TablePermission.Drop, ps) + Present(GlueMap, TablePermission.Super, ps)))
  {
    CollectMapOrder(GlueMap, ps);
    assert Present(GlueMap, Delete, ps) == [] && Present(GlueMap, Insert, ps) == [] && Present(GlueMap, Select, ps) == [];
    CollectInOrder(GlueMap, MapOrder, ps)
  }

  /** `_map_table_permissions_to_s3_iam_permissions`: the entries of
      DELETE, INSERT, SELECT and SUPER, in that fixed order, each once if the
      permission is present; ALTER, DESCRIBE and DROP add nothing. */
  function S3Actions(ps: seq<TablePermission>): (r: seq<string>)
    ensures r == Present(S3Map, Delete, ps) + (Present(S3Map, Insert, ps)
                 + (Present(S3Map, Select, ps) + Present(S3Map, TablePermission.Super, ps)))
  {
    CollectMapOrder(S3Map, ps);
    assert Present(S3Map, TablePermission.Alter, ps) == [] && Present(S3Map, TablePermission.Describe, ps) == []
           && Present(S3Map, TablePermission.Drop, ps) == [];
    CollectInOrder(S3Map, MapOrder, ps)
  }

  /** How many elements of `ps` are data permissions (DELETE, INSERT,
      SELECT, SUPER), counted with multiplicity. */
  function DataPermissionCount(ps: seq<TablePermission>): nat {
    multiset(ps)[Delete] + multiset(ps)[Insert] + multiset(ps)[Select] + multiset(ps)[TablePermission.Super]
  }

  /** `_map_table_permissions_to_lake_iam_permissions`: walks the INPUT, so
      every data permission in it, repeated or not, contributes one
      `lakeformation:GetDataAccess`. */
  function LakeActions(ps: seq<TablePermission>): (r: seq<string>)
    ensures |r| == DataPermissionCount(ps)
    ensures forall i :: 0 <= i < |r| ==> r[i] == GetDataAccess
  {
    if ps == [] then []
    else
      DataPermissionCountStep(ps);
      Entry(LakeMap, ps[0]) + LakeActions(ps[1..])
  }

  lemma DataPermissionCountStep(ps: seq<TablePermission>)
    requires ps != []
    ensures DataPermissionCount(ps) == |Entry(LakeMap, ps[0])| + DataPermissionCount(ps[1..])
  {
    assert ps == [ps[0]] + ps[1..];
    assert multiset(ps) == multiset{ps[0]} + multiset(ps[1..]);
  }

  /** The Lake Formation map distributes over concatenation of the input:
      it preserves input order. */
  lemma {:induction false} LakeActionsConcat(ps: seq<TablePermission>, qs: seq<TablePermission>)
    ensures LakeActions(ps + qs) == LakeActions(ps) + LakeActions(qs)
  {
    if ps != [] {
      assert (ps + qs)[0] == ps[0];
      assert (ps + qs)[1..] == ps[1..] + qs;
      LakeActionsConcat(ps[1..], qs);
    }
  }

  /** What each map emits, permission by permission, for the ones present. */
  lemma {:induction false} CollectMembership(m: TableMap, order: seq<TablePermission>, ps: seq<TablePermission>, a: string)
    ensures a in CollectInOrder(m, order, ps) <==>
            exists p :: p in order && p in ps && a in Entry(m, p)
  {
    if order != [] {
      CollectMembership(m, order[1..], ps, a);
      var rest := CollectInOrder(m, order[1..], ps);
      assert CollectInOrder(m, order, ps) == (if order[0] in ps then Entry(m, order[0]) else []) + rest;
      if exists p :: p in order && p in ps && a in Entry(m, p) {
        var p :| p in order && p in ps && a in Entry(m, p);
        if p != order[0] {
          assert p in order[1..];
        }
      }
    }
  }

  /** The Glue and S3 maps depend only on WHICH permissions are present:
      not on their order, nor on repetitions. */
  lemma {:induction false} CollectDependsOnlyOnPresence(m: TableMap, order: seq<TablePermission>, ps: seq<TablePermission>, qs: seq<TablePermission>)
    requires forall p :: p in ps <==> p in qs
    ensures CollectInOrder(m, order, ps) == CollectInOrder(m, order, qs)
  {
    if order != [] {
      CollectDependsOnlyOnPresence(m, order[1..], ps, qs);
    }
  }

  lemma GlueAndS3DependOnlyOnPresence(ps: seq<TablePermission>, qs: seq<TablePermission>)
    requires forall p :: p in ps <==> p in qs
    ensures GlueActions(ps) == GlueActions(qs)
    ensures S3Actions(ps) == S3Actions(qs)
  {
    CollectDependsOnlyOnPresence(GlueMap, MapOrder, ps, qs);
    CollectDependsOnlyOnPresence(S3Map, MapOrder, ps, qs);
  }

  /** The contribution of permission `p` to a fixed-order map. */
  function Present(m: TableMap, p: TablePermission, ps: seq<TablePermission>): seq<string> {
    if p in ps then Entry(m, p) else []
  }

  lemma CollectCons(m: TableMap, p: TablePermission, rest: seq<TablePermission>, ps: seq<TablePermission>)
    ensures CollectInOrder(m, [p] + rest, ps) == Present(m, p, ps) + CollectInOrder(m, rest, ps)
  {
    assert ([p] + rest)[1..] == rest;
  }

  /** The last four keys of the dict order. */
  lemma CollectLastFour(m: TableMap, ps: seq<TablePermission>)
    ensures CollectInOrder(m, [TablePermission.Drop, Insert, Select, TablePermission.Super], ps) ==
      Present(m, TablePermission.Drop, ps) + (Present(m, Insert, ps) + (Present(m, Select, ps)
      + Present(m, TablePermission.Super, ps)))
  {
    var o3 := [TablePermission.Super];
    var o2 := [Select] + o3;
    var o1 := [Insert] + o2;
    CollectCons(m, TablePermission.Super, [], ps);
    assert [TablePermission.Super] + [] == o3;
    CollectCons(m, Select, o3, ps);
    CollectCons(m, Insert, o2, ps);
    CollectCons(m, TablePermission.Drop, o1, ps);
    assert [TablePermission.Drop] + o1 == [TablePermission.Drop, Insert, Select, TablePermission.Super];
  }

  /** A fixed-order map walks the seven keys in dict order. */
  lemma CollectMapOrder(m: TableMap, ps: seq<TablePermission>)
    ensures CollectInOrder(m, MapOrder, ps) ==
      Present(m, TablePermission.Alter, ps) + (Present(m, Delete, ps) + (Present(m, TablePermission.Describe, ps)
      + (Present(m, TablePermission.Drop, ps) + (Present(m, Insert, ps) + (Present(m, Select, ps)
      + Present(m, TablePermission.Super, ps))))))
  {
    var o3 := [TablePermission.Drop, Insert, Select, TablePermission.Super];
    var o2 := [TablePermission.Describe] + o3;
    var o1 := [Delete] + o2;
    assert [TablePermission.Alter] + o1 == MapOrder;
    CollectLastFour(m, ps);
    CollectCons(m, TablePermission.Describe, o3, ps);
    CollectCons(m, Delete, o2, ps);
    CollectCons(m, TablePermission.Alter, o1, ps);
  }

  /** Metadata-only permissions: they add no Lake Formation or S3 action. */
  predicate IsMetadataPermission(p: TablePermission) {
    p == TablePermission.Alter || p == TablePermission.Describe || p == TablePermission.Drop
  }

  /** The Glue list is empty exactly when only data permissions are asked for. */
  lemma GlueActionsEmptyIff(ps: seq<TablePermission>)
    ensures GlueActions(ps) == [] <==> forall p :: p in ps ==> p == Delete || p == Insert || p == Select
  {
  }

  /** The S3 list is empty exactly when only metadata permissions are asked for. */
  lemma S3ActionsEmptyIff(ps: seq<TablePermission>)
    ensures S3Actions(ps) == [] <==> forall p :: p in ps ==> IsMetadataPermission(p)
  {
  }

  /** The Lake Formation list is empty exactly when only metadata permissions
      are asked for. */
  lemma LakeActionsEmptyIff(ps: seq<TablePermission>)
    ensures LakeActions(ps) == [] <==> forall p :: p in ps ==> IsMetadataPermission(p)
  {
    if LakeActions(ps) == [] {
      forall p | p in ps ensures IsMetadataPermission(p) {
        assert multiset(ps)[p] > 0;
      }
    } else {
      assert DataPermissionCount(ps) > 0;
      var p :| p in [Delete, Insert, Select, TablePermission.Super] && multiset(ps)[p] > 0;
      assert p in ps;
    }
  }

  /** SUPER's S3 entry contains every other permission's S3 actions, so the
      S3 actions of any list are among those of `[SUPER]`. */
  lemma S3SuperCoversAll(ps: seq<TablePermission>, a: string)
    requires a in S3Actions(ps)
    ensures a in Entry(S3Map, TablePermission.Super)
    ensures a in S3Actions([TablePermission.Super])
  {
    CollectMembership(S3Map, MapOrder, ps, a);
    var p :| p in MapOrder && p in ps && a in Entry(S3Map, p);
    S3EntryWithinSuper(p, a);
    S3ActionsOfSuper();
  }

  lemma S3EntryWithinSuper(p: TablePermission, a: string)
    requires a in Entry(S3Map, p)
    ensures a in Entry(S3Map, TablePermission.Super)
  {
  }

  lemma S3ActionsOfSuper()
    ensures S3Actions([TablePermission.Super]) == Entry(S3Map, TablePermission.Super)
  {
  }

  /** SUPER's Lake Formation entry equals every other non-empty one. */
  lemma LakeSuperCoversAll(p: TablePermission, a: string)
    requires a in Entry(LakeMap, p)
    ensures a in Entry(LakeMap, TablePermission.Super)
  {
  }

  /** SUPER's Glue entry is a pair of wildcards that match every other
      permission's Glue action. */
  lemma GlueSuperCoversAll(p: TablePermission, a: string)
    requires a in Entry(GlueMap, p)
    ensures exists w :: w in Entry(GlueMap, TablePermission.Super) && Matches(w, a)
  {
    if p == TablePermission.Super {
      GlueSuperCoversItself(a);
    } else {
      assert "glue:*Table*" in Entry(GlueMap, TablePermission.Super);
      TableVerbCovered(p, a);
    }
  }

  lemma TableVerbCovered(p: TablePermission, a: string)
    requires p != TablePermission.Super && a in Entry(GlueMap, p)
    ensures Matches("glue:*Table*", a)
  {
    var verb := if p == TablePermission.Alter then "Update"
                else if p == TablePermission.Describe then "Get" else "Delete";
    GlueInfixCovers("Table", verb);
    assert "glue:*" + "Table" + "*" == "glue:*Table*";
    assert a == "glue:" + verb + "Table";
  }

  lemma GlueSuperCoversItself(a: string)
    requires a in Entry(GlueMap, TablePermission.Super)
    ensures Matches(a, a)
  {
    if a == "glue:*Table*" {
      InfixPatternMatches("glue:", "Table", "*", "*");
      assert "glue:" + "*" + "Table" + "*" == a;
    } else {
      InfixPatternMatches("glue:", "Partition", "*", "*");
      assert "glue:" + "*" + "Partition" + "*" == a;
    }
  }

  /** The Lake Formation map keeps repetitions: SELECT twice yields two
      `GetDataAccess` actions, SELECT once only one. */
  lemma LakeActionsKeepRepeats()
    ensures LakeActions([Select, Insert]) == [GetDataAccess, GetDataAccess]
    ensures LakeActions([Select, Select]) != LakeActions([Select])
  {
    assert multiset([Select, Select])[Select] == 2;
    assert multiset([Select, Insert])[Select] == 1;
  }

  /** The Lake Formation map ignores metadata permissions. */
  lemma LakeActionsIgnoreMetadata()
    ensures LakeActions([TablePermission.Alter, TablePermission.Describe, TablePermission.Drop]) == []
  {
    assert multiset([TablePermission.Alter, TablePermission.Describe, TablePermission.Drop])[Select] == 0;
  }

  /** The Glue actions of any list holding exactly ALTER and DESCRIBE, in
      whatever order and with whatever repetitions. */
  lemma GlueActionsOfAlterDescribe(ps: seq<TablePermission>)
    requires forall p :: p in ps <==> p == TablePermission.Alter || p == TablePermission.Describe
    ensures GlueActions(ps) == ["glue:UpdateTable", "glue:GetTable"]
  {
    assert TablePermission.Drop !in ps && TablePermission.Super !in ps;
    assert Present(GlueMap, TablePermission.Alter, ps) == ["glue:UpdateTable"];
    assert Present(GlueMap, TablePermission.Describe, ps) == ["glue:GetTable"];
  }

  /** The Glue map ignores input order and repetitions. */
  lemma GlueActionsExamples()
    ensures GlueActions([TablePermission.Alter, TablePermission.Describe]) == ["glue:UpdateTable", "glue:GetTable"]
    ensures GlueActions([TablePermission.Describe, TablePermission.Alter, TablePermission.Alter])
            == GlueActions([TablePermission.Alter, TablePermission.Describe])
  {
    GlueActionsOfAlterDescribe([TablePermission.Alter, TablePermission.Describe]);
    GlueAndS3DependOnlyOnPresence([TablePermission.Describe, TablePermission.Alter, TablePermission.Alter],
                                  [TablePermission.Alter, TablePermission.Describe]);
  }

  lemma S3ActionsExamples()
    ensures S3Actions([Select]) == ["s3:GetObject", "s3:GetObjectVersion"]
    ensures S3Actions([TablePermission.Alter, TablePermission.Describe]) == []
  {
    var sel := [Select];
    assert Delete !in sel && Insert !in sel && TablePermission.Super !in sel && Select in sel;
    assert Present(S3Map, Select, sel) == ["s3:GetObject", "s3:GetObjectVersion"];
    S3ActionsEmptyIff([TablePermission.Alter, TablePermission.Describe]);
  }
}
