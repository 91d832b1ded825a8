/** The file formats a dataset may hold, and the Glue crawler classifier
    name each one corresponds to (vre_data_lake/filetype.py). */
module Filetypes {
  import opened Optional

  datatype Filetype =
    | ApacheAvro | ApacheOrc | ApacheParquet | Json | BinaryJson | Xml | AmazonIon
    | CombinedApacheLog | ApacheLog | LinuxKernelLog | MicrosoftLog | RubyLog
    | Squid3Log | RedisMonitorLog | RedisLog | Csv | AmazonRedshift | Mysql
    | Postgresql | OracleDatabase | MicrosoftSqlServer | AmazonDynamodb | Other

  /** Every declared variant, in declaration order. */
  const AllFiletypes: seq<Filetype> := [
    ApacheAvro, ApacheOrc, ApacheParquet, Json, BinaryJson, Xml, AmazonIon,
    CombinedApacheLog, ApacheLog, LinuxKernelLog, MicrosoftLog, RubyLog,
    Squid3Log, RedisMonitorLog, RedisLog, Csv, AmazonRedshift, Mysql,
    Postgresql, OracleDatabase, MicrosoftSqlServer, AmazonDynamodb, Other
  ]

  /** The sentinel classifier name of a format Glue does not know. */
  const Unknown: string := "UNKNOWN"

  /** A classifier name Glue accepts: a non-empty lower-case identifier. */
  predicate IsLowerIdentifier(s: string) {
    |s| > 0 && forall c :: c in s ==> 'a' <= c <= 'z' || c == '_'
  }

  /** `Filetype.glue_classifer`: total over every variant; `Other` alone maps
      to the `UNKNOWN` sentinel. */
  function GlueClassifier(f: Filetype): (r: string)
    ensures |r| > 0
    ensures f == Other <==> r == Unknown
  {
    match f
    case ApacheAvro => "avro"
    case ApacheOrc => "orc"
    case ApacheParquet => "parquet"
    case Json => "json"
    case BinaryJson => "bson"
    case Xml => "xml"
    case AmazonIon => "ion"
    case CombinedApacheLog => "combined_apache"
    case ApacheLog => "apache"
    case LinuxKernelLog => "linux_kernel"
    case MicrosoftLog => "microsoft_log"
    case RubyLog => "ruby_logger"
    case Squid3Log => "squid"
    case RedisMonitorLog => "redismonlog"
    case RedisLog => "redislog"
    case Csv => "csv"
    case AmazonRedshift => "redshift"
    case Mysql => "mysql"
    case Postgresql => "postgresql"
    case OracleDatabase => "oracle"
    case MicrosoftSqlServer => "sqlserver"
    case AmazonDynamodb => "dynamicdb"
    case Other => Unknown
  }

  /** Every format Glue knows has a lower-case classifier name. */
  lemma ClassifierNamesAreLowerCase(f: Filetype)
    requires f != Other
    ensures IsLowerIdentifier(GlueClassifier(f))
  {
  }

  /** Every value of the enumeration is one of the declared variants. */
  lemma AllFiletypesComplete(f: Filetype)
    ensures f in AllFiletypes
  {
  }

  /** The first candidate whose classifier name is `name`. */
  function FindByClassifier(candidates: seq<Filetype>, name: string): (r: Option<Filetype>)
    ensures r.Some? ==> r.value in candidates && GlueClassifier(r.value) == name
    ensures r.None? ==> forall f :: f in candidates ==> GlueClassifier(f) != name
  {
    if candidates == [] then None
    else if GlueClassifier(candidates[0]) == name then Some(candidates[0])
    else FindByClassifier(candidates[1..], name)
  }

  /** The format a classifier name stands for: the inverse of `GlueClassifier`. */
  function FiletypeOfClassifier(name: string): (r: Option<Filetype>)
    ensures r.Some? ==> GlueClassifier(r.value) == name
    ensures r.None? ==> forall f :: GlueClassifier(f) != name
  {
    var r := FindByClassifier(AllFiletypes, name);
    assert r.None? ==> forall f :: GlueClassifier(f) != name by {
      forall f ensures r.None? ==> GlueClassifier(f) != name {
        AllFiletypesComplete(f);
      }
    }
    r
  }

  /** Distinct formats have distinct classifier names. */
  lemma GlueClassifierInjective(f: Filetype, g: Filetype)
    requires f != g
    ensures GlueClassifier(f) != GlueClassifier(g)
  {
  }

  /** Looking a format's classifier name back up gives the format. */
  lemma ClassifierRoundTrip(f: Filetype)
    ensures FiletypeOfClassifier(GlueClassifier(f)) == Some(f)
  {
    var r := FiletypeOfClassifier(GlueClassifier(f));
    if r != Some(f) {
      GlueClassifierInjective(r.value, f);
    }
  }

  /** A few entries of the table, including the `dynamicdb` spelling. */
  lemma ClassifierSpotValues()
    ensures GlueClassifier(Csv) == "csv"
    ensures GlueClassifier(ApacheParquet) == "parquet"
    ensures GlueClassifier(AmazonDynamodb) == "dynamicdb"
    ensures GlueClassifier(Other) == "UNKNOWN"
    ensures |AllFiletypes| == 23
  {
  }
}
