# vre_data_lake core, modelled in Dafny

`vre_data_lake` is an AWS CDK application. It builds a research data lake out of *zones*. Each zone has:

- one S3 bucket;
- one Glue database named after the zone;
- one Glue crawler role.

Each zone holds *datasets*. A dataset is an S3 prefix that is registered with Lake Formation and has its own Glue table, crawler and bucket lifecycle rules. Roles are given access to a zone or to a dataset as lists of Lake Formation permissions (`ALTER`, `DESCRIBE`, `SELECT`, `SUPER`, ...). The zone compiles such a list into two things: a Lake Formation permission record, and an IAM policy of Glue, Lake Formation and S3 actions.

This project models that core as pure functions over immutable values:

- `Permissions` holds the two permission enums and the four lookup tables that turn a permission list into IAM action names.
- `ActionPatterns` holds IAM's `*`/`?` action wildcards, matched case-sensitively. They are used to state which actions a `SUPER` wildcard covers.
- `Iam` holds roles, policies, statements and abstract resources. A role is a name plus an append-only list of policies.
- `ZoneNames` holds the zone-name check.
- `Zones` holds the zone state and its operations: construction, database and table grants, location registration, tables, crawlers, crawler self-authorisation and lifecycle rules.
- `Datasets` holds the dataset construction sequence and the dataset grant.
- `Filetypes` holds the file-type enum and its Glue classifier names.
- `Text` and `Optional` are small shared helpers.

A zone is a record with these parts:

- its name and bucket;
- its registration role and its crawler role;
- an ordered *declaration log*, holding every Lake Formation permission record, registered location, table and crawler the zone declares;
- the bucket's lifecycle rules.

Every operation returns the new zone, plus the updated grantee role when there is one. A handle returned by the source, such as a table or a permission record, is a position in the declaration log. `Zones.Valid` is the invariant every operation preserves:

- every permission record grants something;
- every dependency edge points back to an earlier table;
- every table location ends in `/`;
- every crawler runs as the zone's crawler role.

`Zones.Extends` says that a later zone only appended. It keeps every earlier declaration in place, except that a permission record may gain dependency edges.

ARNs and URLs are produced by the CDK library, so resources are abstract: `DatabaseArn`, `BucketArn`, `ObjectsArn(bucket, pattern)` and `Star`.

Where the code and its description differ, the model follows the code:

- The zone-name check is `re.match`, which anchors at the start only. A name is therefore accepted when its first character is an ASCII letter and its second is a word character, whatever follows. `"ab-c"` is accepted even though the error message asks for alphanumerics and underscores only.
- The Lake Formation map walks the input list, so repeated permissions give repeated `lakeformation:GetDataAccess` actions. The Glue and S3 maps walk the fixed key order, so repetitions there have no effect.
- `Dataset.grant_access_to_role` with an empty permission list gets `None` back from the zone. It then fails on `None.node`, so the model returns an error for it rather than a no-op.

## Model

| member | source | states |
|---|---|---|
| Permissions.DatabaseActions | vre_data_lake/zone.py:266-274 | one action per input permission, at the same position, so input order and duplicates are kept |
| Permissions.DatabasePermissionOf | vre_data_lake/zone.py:267-273 | the inverse of the database table: it finds the permission whose action is the given one, and returns none exactly when no permission maps to it |
| Permissions.DatabaseActionsRoundTrip | vre_data_lake/zone.py:266-274 | decoding the database map's output gives back the input list, so the map loses nothing |
| Permissions.DatabaseSuperCovers | vre_data_lake/zone.py:267-273 | SUPER's `glue:*Database*` wildcard matches the actions of ALTER, DESCRIBE, DROP and SUPER |
| Permissions.DatabaseSuperMissesCreateTable | vre_data_lake/zone.py:269-272 | SUPER's wildcard does not match `glue:CreateTable`, so a database SUPER grant does not include creating tables |
| Permissions.TableValues | vre_data_lake/zone.py:364 | the Lake Formation record carries each permission's enum value, in input order |
| Permissions.DatabaseValues | vre_data_lake/zone.py:287 | the database record carries each permission's enum value, in input order |
| Permissions.TableValuesInjective | vre_data_lake/zone.py:23-30 | two permission lists with the same value lists are equal, so the record determines the requested permissions |
| Permissions.GlueActions | vre_data_lake/zone.py:304-319 | the Glue output is ALTER's, DESCRIBE's, DROP's and SUPER's entries in that fixed order, each once if the permission is present; DELETE, INSERT and SELECT add nothing |
| Permissions.S3Actions | vre_data_lake/zone.py:334-350 | the S3 output is DELETE's, INSERT's, SELECT's and SUPER's entries in that fixed order, each once if the permission is present; ALTER, DESCRIBE and DROP add nothing |
| Permissions.CollectMembership | vre_data_lake/zone.py:314-318 | an action is emitted iff some permission that is both in the key order and in the input has it in its entry |
| Permissions.GlueAndS3DependOnlyOnPresence | vre_data_lake/zone.py:304-350 | two inputs holding the same permissions, in any order and with any repetitions, give the same Glue actions and the same S3 actions |
| Permissions.GlueActionsEmptyIff | vre_data_lake/zone.py:305-318 | the Glue list is empty iff only DELETE, INSERT and SELECT are requested |
| Permissions.S3ActionsEmptyIff | vre_data_lake/zone.py:336-349 | the S3 list is empty iff only metadata permissions (ALTER, DESCRIBE, DROP) are requested |
| Permissions.LakeActions | vre_data_lake/zone.py:321-332 | one `lakeformation:GetDataAccess` for each input element that is DELETE, INSERT, SELECT or SUPER, repetitions counted, and nothing else |
| Permissions.LakeActionsConcat | vre_data_lake/zone.py:332 | the Lake Formation map distributes over concatenation of its input |
| Permissions.LakeActionsEmptyIff | vre_data_lake/zone.py:322-332 | the Lake Formation list is empty iff only metadata permissions are requested |
| Permissions.LakeActionsKeepRepeats | vre_data_lake/zone.py:323-332 | `[SELECT, INSERT]` gives two `GetDataAccess` actions, and `[SELECT, SELECT]` gives more than `[SELECT]` |
| Permissions.LakeActionsIgnoreMetadata | vre_data_lake/zone.py:323-332 | `[ALTER, DESCRIBE, DROP]` gives no Lake Formation action |
| Permissions.S3SuperCoversAll | vre_data_lake/zone.py:336-349 | every S3 action of any permission list is in SUPER's S3 entry and among the S3 actions of `[SUPER]` |
| Permissions.LakeSuperCoversAll | vre_data_lake/zone.py:323-331 | every Lake Formation action of any permission is SUPER's too |
| Permissions.GlueSuperCoversAll | vre_data_lake/zone.py:305-313 | every Glue action of any permission is matched by one of SUPER's wildcards `glue:*Table*` and `glue:*Partition*` |
| Permissions.GlueActionsOfAlterDescribe | vre_data_lake/zone.py:304-319 | any list holding exactly ALTER and DESCRIBE, in any order and with any repetitions, gives `[glue:UpdateTable, glue:GetTable]` |
| Permissions.GlueActionsExamples | vre_data_lake/zone.py:304-319 | `[DESCRIBE, ALTER, ALTER]` and `[ALTER, DESCRIBE]` give the same Glue actions |
| Permissions.S3ActionsExamples | vre_data_lake/zone.py:334-350 | SELECT gives `s3:GetObject` and `s3:GetObjectVersion`; ALTER and DESCRIBE give no S3 action |
| Text.EnsureTrailingSlash | vre_data_lake/zone.py:144-146 | the result ends in `/`, extends the input by at most one character, and equals the input exactly when the input already ends in `/` |
| Text.EnsureTrailingSlashIdempotent | vre_data_lake/zone.py:260-262 | normalising the trailing slash twice is the same as once |
| Text.ReplaceChar | vre_data_lake/zone.py:49 | the result has the input's length, replaces every occurrence of the character and keeps every other character |
| ZoneNames.PatternMatch | vre_data_lake/zone.py:42 | a match spans a letter followed by a greedy run of at least one word character, and stops at the first non-word character or at the end |
| ZoneNames.PatternMatchAcceptsIff | vre_data_lake/zone.py:42-43 | the pattern matches iff the name has at least two characters, the first an ASCII letter and the second a word character |
| ZoneNames.AcceptedIgnoresTail | vre_data_lake/zone.py:42 | an accepted name stays accepted whatever follows its first two characters |
| ZoneNames.FullyValidIsAccepted | vre_data_lake/zone.py:42-43 | a name made of a letter and then only word characters is accepted and matched entirely |
| ZoneNames.AcceptsInvalidTail | vre_data_lake/zone.py:42-43 | `ab-c` is accepted though not fully valid; `a`, `1ab` and `a-b` are rejected |
| Iam.AttachInlinePolicy | vre_data_lake/zone.py:402-407 | attaching appends exactly the given policy, keeps the name and removes nothing |
| Iam.AttachAddsActions | vre_data_lake/zone.py:53-65 | after attaching, a role's actions on a resource are its old ones followed by those the new policy grants |
| Iam.AttachKeepsActions | vre_data_lake/zone.py:402-407 | attaching never takes away an action a role already had on a resource |
| Zones.NewZone | vre_data_lake/zone.py:42-108 | fails with the name iff the name check rejects it, and then declares nothing; otherwise the bucket is the name with every `_` replaced by `-`, the registration role gains exactly one policy granting `s3:ListBucket` on the bucket, the crawler role is the initial crawler role for the bucket, the only declaration is the crawler role's CREATE_TABLE, ALTER and DESCRIBE record, and the zone is valid |
| Zones.InitialCrawlerRole | vre_data_lake/zone.py:80-103 | the crawler role has one inline policy granting `s3:*` on the bucket and on all its objects and `lakeformation:GetDataAccess` on `*`, and nothing on any other resource |
| Zones.AssembleStatements | vre_data_lake/zone.py:366-400 | reading the policy back per resource gives the Glue actions on the database, the Lake Formation actions on `*`, the S3 actions on the prefix's objects, and `s3:ListBucket` on the bucket iff there are S3 actions; there are no statements iff all three lists are empty |
| Zones.AssembleStatementsShape | vre_data_lake/zone.py:369-400 | no statement is empty; statements come in the order database, `*`, objects, bucket, each at most once; the objects statement is immediately followed by `s3:ListBucket` |
| Zones.StatementIfAny | vre_data_lake/zone.py:370-385 | one statement on the resource iff there are actions, granting exactly those actions there and nothing elsewhere |
| Zones.S3StatementsIfAny | vre_data_lake/zone.py:386-400 | when there are S3 actions, the objects statement and then `s3:ListBucket` on the bucket; otherwise nothing |
| Zones.NonEmptyGrantHasActions | vre_data_lake/zone.py:366-401 | a permission list is non-empty iff it compiles to some Glue or Lake Formation action |
| Zones.TableStatements | vre_data_lake/zone.py:366-400 | the grant's policy grants exactly the Glue actions on the database, the Lake Formation actions on `*`, the S3 actions on the prefix's objects, and `s3:ListBucket` on the bucket iff there are S3 actions; it has statements iff permissions are asked for, so a policy is always attached to a non-empty grant |
| Zones.SelectGrantStatements | vre_data_lake/zone.py:366-400 | SELECT yields `GetDataAccess` on `*`, reading the prefix's objects, and listing the bucket, with nothing on the database |
| Zones.GrantDatabaseAccess | vre_data_lake/zone.py:276-301 | an empty list changes nothing; otherwise one database record with the permission values and one `-DB-Policy` with one statement of the mapped actions on the database; the role only grows and validity is kept |
| Zones.GrantTableAccess | vre_data_lake/zone.py:352-409 | no record iff the list is empty, and then nothing changes; otherwise one table record at the end of the log with the values in input order, and one `-Table-Policy` with the assembled statements; the role only grows and validity is kept |
| Zones.AddDependency | vre_data_lake/dataset.py:41 | the record gains the target as its last dependency edge; every other declaration, both roles and the lifecycle rules are unchanged |
| Zones.AddDependencyToLast | vre_data_lake/dataset.py:41 | adding an edge to a freshly appended record gives the log with that record depending on the target only |
| Zones.AddDependencyKeepsValid | vre_data_lake/dataset.py:41 | an edge from a record to an earlier table keeps the zone valid |
| Zones.RegisterResource | vre_data_lake/zone.py:227-254 | registers the prefix's objects through the registration role, which gains exactly one policy, granting put, get and delete on those objects only; the crawler role and rules are unchanged and validity is kept |
| Zones.CreateGlueTable | vre_data_lake/zone.py:143-152 | appends one table named after the prefix in the zone's database, and returns its position; its location is the prefix's S3 URL with a `/` added only if missing |
| Zones.AuthorizeCrawlingResource | vre_data_lake/zone.py:122-141 | appends the crawler role's DATA_LOCATION_ACCESS record on the prefix's objects and its ALTER, DESCRIBE table record; the crawler role gains exactly one statement `[glue:UpdateTable, glue:GetTable]` on the database |
| Zones.CrawlerRecordsKeepValid | vre_data_lake/zone.py:122-141 | the two records of crawler authorisation keep a zone valid and extend it |
| Zones.CrawlerGrantStatements | vre_data_lake/zone.py:134-141 | the crawler's ALTER, DESCRIBE grant compiles to a single Glue statement on the database, with no Lake Formation or S3 statement |
| Zones.CrawlerGrantActions | vre_data_lake/zone.py:137-140 | ALTER and DESCRIBE map to `glue:UpdateTable` and `glue:GetTable` and to no Lake Formation or S3 action |
| Zones.CrawlerTableValues | vre_data_lake/zone.py:137-140 | the crawler's table record carries `ALTER` and `DESCRIBE` |
| Zones.OnlyGlueStatement | vre_data_lake/zone.py:369-377 | with Glue actions only, the policy is the single Glue statement on the database |
| Zones.CrawlerFor | vre_data_lake/zone.py:201-223 | the crawler is named after the zone and prefix, crawls the prefix's URL into the zone's database as the crawler role, and has no classifier list iff no classifier is given, otherwise exactly that one |
| Zones.CreateCrawler | vre_data_lake/zone.py:194-225 | appends the crawler and then the two authorisation records; the result does not depend on the file type; validity is kept |
| Zones.NormaliseRule | vre_data_lake/zone.py:257-263 | the caller's `prefix` is dropped and replaced by the zone prefix ending in `/`; every other value passes through unchanged |
| Zones.NormaliseRules | vre_data_lake/zone.py:256-263 | one bucket rule per input rule, in order, each normalised |
| Zones.AddLifecycleRules | vre_data_lake/zone.py:256-263 | the old rules stay as a prefix, the normalised rules follow, and nothing else in the zone changes |
| Datasets.NewDataset | vre_data_lake/dataset.py:16-33 | registration, table, crawler and the crawler's two records are appended in that order for the dataset's prefix; the stored handle is the table's position; the registration role gains exactly the registration policy and the crawler role its ALTER, DESCRIBE policy; lifecycle rules are appended; validity is kept |
| Datasets.GrantAccessToRole | vre_data_lake/dataset.py:35-41 | fails iff the list is empty; otherwise the zone gains exactly the table record for the dataset's prefix, depending on the dataset's table, and nothing else in it changes; the role gains the table policy; validity is kept |
| Datasets.ExtendsKeepsDataset | vre_data_lake/dataset.py:27-31 | a dataset's table handle stays valid as its zone grows |
| Filetypes.GlueClassifier | vre_data_lake/filetype.py:28-53 | every classifier name is non-empty, and only OTHER maps to `UNKNOWN` |
| Filetypes.ClassifierNamesAreLowerCase | vre_data_lake/filetype.py:30-51 | every variant but OTHER maps to a lower-case identifier of letters and `_` |
| Filetypes.AllFiletypesComplete | vre_data_lake/filetype.py:3-26 | the list of all variants contains every variant |
| Filetypes.FiletypeOfClassifier | vre_data_lake/filetype.py:29-53 | the inverse lookup finds a variant with the given name, and returns none only when no variant has it |
| Filetypes.GlueClassifierInjective | vre_data_lake/filetype.py:30-52 | distinct variants have distinct classifier names |
| Filetypes.ClassifierRoundTrip | vre_data_lake/filetype.py:28-53 | looking up a variant's classifier name gives the variant back |
| Filetypes.ClassifierSpotValues | vre_data_lake/filetype.py:28-53 | CSV is `csv`, APACHE_PARQUET is `parquet`, AMAZON_DYNAMODB is `dynamicdb`, OTHER is `UNKNOWN`, and there are 23 variants |

## Left out

- The sample-data `BucketDeployment` (zone.py:67-74) is left out. It uploads local files.
- Managed policy attachments, construct ids and the hard-coded catalog id are left out. They are arguments handed to the CDK library.
- Most of the `CfnTable` storage-descriptor constants (zone.py:147-191) are left out. The table keeps its name, description, database and location.
- ARN and URL formatting (`arn_for_objects`, `s3_url_for_object`, `bucket_arn`, `database_arn`) is library code. Resources are abstract constructors, and `ObjectUrl` is a plain `s3://bucket/key` join.
- The crawler configuration is the output of `json.dumps` of a constant. It is kept as a constant string.
- `vre_data_lake/role.py`, the stack, `app.py` and `setup.py` are not part of this model. A role is only a name and its inline policies.
- The registration role is passed to a zone by reference in the source and may be shared between zones. The model keeps a copy per zone, so the sharing is not modelled.
- `add_lifecycle_rules` deletes `prefix` from the caller's own rule objects. The model leaves the caller's rules unchanged and only models the rules added to the bucket.
- Construct-id uniqueness and reference validity are checked by CDK and CloudFormation, not by this code.
- Datasets.GrantAccessToRole: takes a permission sequence. A `None` argument behaves like the empty list in the source (`not None` holds), and the model covers it only through the empty-list case.
- Zones.CrawlerFor: its contract leaves the crawler's description text unstated.
- Zones.GrantTableAccess: the policy name is given as the policy's `policy_name`. The construct id it also carries is not modelled.
