/**
 * The built-in skill table (`SKILL_SYNONYMS`) and the proof that its groups
 * are disjoint and written in normal form, which is what makes the synonym
 * lookup well behaved.
 *
 * Each entry is a function of its own and the table reads entry `i` through
 * `EntryAt(i)`, so that a proof about one or two entries has only those
 * entries' text in view.
 */
module SkillTable {
  import opened PyText

  /** One dictionary entry: a canonical skill and its synonym list. */
  type Entry = (string, seq<string>)

  /** A synonym table: canonical keys with their synonym lists, in dictionary order. */
  type Table = seq<Entry>

  function PythonEntry(): Entry { ("python", ["python3", "py", "python programming"]) }
  function JavascriptEntry(): Entry { ("javascript", ["js", "ecmascript", "node.js", "nodejs"]) }
  function SqlEntry(): Entry { ("sql", ["structured query language", "t-sql", "pl/sql", "mysql", "postgresql", "postgres"]) }
  function TableauEntry(): Entry { ("tableau", ["tableau desktop", "tableau server"]) }
  function PowerBiEntry(): Entry { ("power bi", ["powerbi", "microsoft power bi", "power-bi"]) }
  function ExcelEntry(): Entry { ("excel", ["microsoft excel", "ms excel", "spreadsheets"]) }
  function SnowflakeEntry(): Entry { ("snowflake", ["snowflake data warehouse"]) }
  function DbtEntry(): Entry { ("dbt", ["data build tool", "dbt-core"]) }
  function AwsEntry(): Entry { ("aws", ["amazon web services", "amazon aws"]) }
  function AzureEntry(): Entry { ("azure", ["microsoft azure", "azure cloud"]) }
  function GcpEntry(): Entry { ("gcp", ["google cloud", "google cloud platform"]) }
  function DataEngineeringEntry(): Entry { ("data engineering", ["data engineer", "data pipeline", "etl"]) }
  function DataScienceEntry(): Entry { ("data science", ["data scientist", "machine learning", "ml"]) }
  function BusinessIntelligenceEntry(): Entry { ("business intelligence", ["bi", "business analytics"]) }
  function CybersecurityEntry(): Entry { ("cybersecurity", ["cyber security", "information security", "infosec"]) }
  function EpicEntry(): Entry { ("epic", ["epic systems", "epic emr", "epic ehr"]) }
  function CptEntry(): Entry { ("cpt", ["cpt codes", "current procedural terminology"]) }
  function IcdEntry(): Entry { ("icd", ["icd-10", "icd codes", "international classification of diseases"]) }

  /** The number of entries of the built-in table. */
  const EntryCount: nat := 18

  /** Entry `i` of the built-in table, in the order the dictionary lists them. */
  function EntryAt(i: nat): Entry
    requires i < EntryCount
  {
    match i
    case 0 => PythonEntry()
    case 1 => JavascriptEntry()
    case 2 => SqlEntry()
    case 3 => TableauEntry()
    case 4 => PowerBiEntry()
    case 5 => ExcelEntry()
    case 6 => SnowflakeEntry()
    case 7 => DbtEntry()
    case 8 => AwsEntry()
    case 9 => AzureEntry()
    case 10 => GcpEntry()
    case 11 => DataEngineeringEntry()
    case 12 => DataScienceEntry()
    case 13 => BusinessIntelligenceEntry()
    case 14 => CybersecurityEntry()
    case 15 => EpicEntry()
    case 16 => CptEntry()
    case _ => IcdEntry()
  }

  /** The canonical skills with their synonym lists, in the order the table lists them. */
  function SkillSynonyms(): (t: Table)
    ensures |t| == EntryCount
  {
    [PythonEntry(), JavascriptEntry(), SqlEntry(), TableauEntry(), PowerBiEntry(), ExcelEntry(),
     SnowflakeEntry(), DbtEntry(), AwsEntry(), AzureEntry(), GcpEntry(), DataEngineeringEntry(),
     DataScienceEntry(), BusinessIntelligenceEntry(), CybersecurityEntry(), EpicEntry(), CptEntry(), IcdEntry()]
  }

  /** Position `i` of the table holds entry `i`. */
  lemma EntryOfTable(i: nat)
    requires i < EntryCount
    ensures SkillSynonyms()[i] == EntryAt(i)
  {
  }

  /** Lowercase and trimmed already. */
  predicate InNormalForm(s: string)
  {
    NoUpper(s) && Stripped(s)
  }

  /** An entry written in normal form whose key is not among its own synonyms. */
  predicate EntryNormal(e: Entry)
  {
    InNormalForm(e.0) && e.0 !in e.1 && forall s :: s in e.1 ==> InNormalForm(s)
  }

  /** Two entries share no name: distinct keys, neither key listed by the other, disjoint lists. */
  predicate EntriesApart(a: Entry, b: Entry)
  {
    a.0 != b.0 && a.0 !in b.1 && b.0 !in a.1 && forall s :: s in a.1 ==> s !in b.1
  }

  /** Every entry in normal form, and no name shared by two entries. */
  predicate WellFormed(t: Table)
  {
    && (forall i :: 0 <= i < |t| ==> EntryNormal(t[i]))
    && (forall i, j :: 0 <= i < j < |t| ==> EntriesApart(t[i], t[j]))
  }

  // ---------------------------------------------------------------------
  // Each name is in normal form, one name at a time

  lemma PythonNormal0() ensures InNormalForm("python") {}
  lemma PythonNormal1() ensures InNormalForm("python3") {}
  lemma PythonNormal2() ensures InNormalForm("py") {}
  lemma PythonNormal3() ensures InNormalForm("python programming") {}
  lemma PythonNormal() ensures EntryNormal(PythonEntry()) { PythonNormal0(); PythonNormal1(); PythonNormal2(); PythonNormal3(); }

  lemma JavascriptNormal0() ensures InNormalForm("javascript") {}
  lemma JavascriptNormal1() ensures InNormalForm("js") {}
  lemma JavascriptNormal2() ensures InNormalForm("ecmascript") {}
  lemma JavascriptNormal3() ensures InNormalForm("node.js") {}
  lemma JavascriptNormal4() ensures InNormalForm("nodejs") {}
  lemma JavascriptNormal() ensures EntryNormal(JavascriptEntry()) { JavascriptNormal0(); JavascriptNormal1(); JavascriptNormal2(); JavascriptNormal3(); JavascriptNormal4(); }

  lemma SqlNormal0() ensures InNormalForm("sql") {}
  lemma SqlNormal1() ensures InNormalForm("structured query language") {}
  lemma SqlNormal2() ensures InNormalForm("t-sql") {}
  lemma SqlNormal3() ensures InNormalForm("pl/sql") {}
  lemma SqlNormal4() ensures InNormalForm("mysql") {}
  lemma SqlNormal5() ensures InNormalForm("postgresql") {}
  lemma SqlNormal6() ensures InNormalForm("postgres") {}
  lemma SqlNormal() ensures EntryNormal(SqlEntry()) { SqlNormal0(); SqlNormal1(); SqlNormal2(); SqlNormal3(); SqlNormal4(); SqlNormal5(); SqlNormal6(); }

  lemma TableauNormal0() ensures InNormalForm("tableau") {}
  lemma TableauNormal1() ensures InNormalForm("tableau desktop") {}
  lemma TableauNormal2() ensures InNormalForm("tableau server") {}
  lemma TableauNormal() ensures EntryNormal(TableauEntry()) { TableauNormal0(); TableauNormal1(); TableauNormal2(); }

  lemma PowerBiNormal0() ensures InNormalForm("power bi") {}
  lemma PowerBiNormal1() ensures InNormalForm("powerbi") {}
  lemma PowerBiNormal2() ensures InNormalForm("microsoft power bi") {}
  lemma PowerBiNormal3() ensures InNormalForm("power-bi") {}
  lemma PowerBiNormal() ensures EntryNormal(PowerBiEntry()) { PowerBiNormal0(); PowerBiNormal1(); PowerBiNormal2(); PowerBiNormal3(); }

  lemma ExcelNormal0() ensures InNormalForm("excel") {}
  lemma ExcelNormal1() ensures InNormalForm("microsoft excel") {}
  lemma ExcelNormal2() ensures InNormalForm("ms excel") {}
  lemma ExcelNormal3() ensures InNormalForm("spreadsheets") {}
  lemma ExcelNormal() ensures EntryNormal(ExcelEntry()) { ExcelNormal0(); ExcelNormal1(); ExcelNormal2(); ExcelNormal3(); }

  lemma SnowflakeNormal0() ensures InNormalForm("snowflake") {}
  lemma SnowflakeNormal1() ensures InNormalForm("snowflake data warehouse") {}
  lemma SnowflakeNormal() ensures EntryNormal(SnowflakeEntry()) { SnowflakeNormal0(); SnowflakeNormal1(); }

  lemma DbtNormal0() ensures InNormalForm("dbt") {}
  lemma DbtNormal1() ensures InNormalForm("data build tool") {}
  lemma DbtNormal2() ensures InNormalForm("dbt-core") {}
  lemma DbtNormal() ensures EntryNormal(DbtEntry()) { DbtNormal0(); DbtNormal1(); DbtNormal2(); }

  lemma AwsNormal0() ensures InNormalForm("aws") {}
  lemma AwsNormal1() ensures InNormalForm("amazon web services") {}
  lemma AwsNormal2() ensures InNormalForm("amazon aws") {}
  lemma AwsNormal() ensures EntryNormal(AwsEntry()) { AwsNormal0(); AwsNormal1(); AwsNormal2(); }

  lemma AzureNormal0() ensures InNormalForm("azure") {}
  lemma AzureNormal1() ensures InNormalForm("microsoft azure") {}
  lemma AzureNormal2() ensures InNormalForm("azure cloud") {}
  lemma AzureNormal() ensures EntryNormal(AzureEntry()) { AzureNormal0(); AzureNormal1(); AzureNormal2(); }

  lemma GcpNormal0() ensures InNormalForm("gcp") {}
  lemma GcpNormal1() ensures InNormalForm("google cloud") {}
  lemma GcpNormal2() ensures InNormalForm("google cloud platform") {}
  lemma GcpNormal() ensures EntryNormal(GcpEntry()) { GcpNormal0(); GcpNormal1(); GcpNormal2(); }

  lemma DataEngineeringNormal0() ensures InNormalForm("data engineering") {}
  lemma DataEngineeringNormal1() ensures InNormalForm("data engineer") {}
  lemma DataEngineeringNormal2() ensures InNormalForm("data pipeline") {}
  lemma DataEngineeringNormal3() ensures InNormalForm("etl") {}
  lemma DataEngineeringNormal() ensures EntryNormal(DataEngineeringEntry()) { DataEngineeringNormal0(); DataEngineeringNormal1(); DataEngineeringNormal2(); DataEngineeringNormal3(); }

  lemma DataScienceNormal0() ensures InNormalForm("data science") {}
  lemma DataScienceNormal1() ensures InNormalForm("data scientist") {}
  lemma DataScienceNormal2() ensures InNormalForm("machine learning") {}
  lemma DataScienceNormal3() ensures InNormalForm("ml") {}
  lemma DataScienceNormal() ensures EntryNormal(DataScienceEntry()) { DataScienceNormal0(); DataScienceNormal1(); DataScienceNormal2(); DataScienceNormal3(); }

  lemma BusinessIntelligenceNormal0() ensures InNormalForm("business intelligence") {}
  lemma BusinessIntelligenceNormal1() ensures InNormalForm("bi") {}
  lemma BusinessIntelligenceNormal2() ensures InNormalForm("business analytics") {}
  lemma BusinessIntelligenceNormal() ensures EntryNormal(BusinessIntelligenceEntry()) { BusinessIntelligenceNormal0(); BusinessIntelligenceNormal1(); BusinessIntelligenceNormal2(); }

  lemma CybersecurityNormal0() ensures InNormalForm("cybersecurity") {}
  lemma CybersecurityNormal1() ensures InNormalForm("cyber security") {}
  lemma CybersecurityNormal2() ensures InNormalForm("information security") {}
  lemma CybersecurityNormal3() ensures InNormalForm("infosec") {}
  lemma CybersecurityNormal() ensures EntryNormal(CybersecurityEntry()) { CybersecurityNormal0(); CybersecurityNormal1(); CybersecurityNormal2(); CybersecurityNormal3(); }

  lemma EpicNormal0() ensures InNormalForm("epic") {}
  lemma EpicNormal1() ensures InNormalForm("epic systems") {}
  lemma EpicNormal2() ensures InNormalForm("epic emr") {}
  lemma EpicNormal3() ensures InNormalForm("epic ehr") {}
  lemma EpicNormal() ensures EntryNormal(EpicEntry()) { EpicNormal0(); EpicNormal1(); EpicNormal2(); EpicNormal3(); }

  lemma CptNormal0() ensures InNormalForm("cpt") {}
  lemma CptNormal1() ensures InNormalForm("cpt codes") {}
  lemma CptNormal2() ensures InNormalForm("current procedural terminology") {}
  lemma CptNormal() ensures EntryNormal(CptEntry()) { CptNormal0(); CptNormal1(); CptNormal2(); }

  lemma IcdNormal0() ensures InNormalForm("icd") {}
  lemma IcdNormal1() ensures InNormalForm("icd-10") {}
  lemma IcdNormal2() ensures InNormalForm("icd codes") {}
  lemma IcdNormal3() ensures InNormalForm("international classification of diseases") {}
  lemma IcdNormal() ensures EntryNormal(IcdEntry()) { IcdNormal0(); IcdNormal1(); IcdNormal2(); IcdNormal3(); }

  lemma EntriesNormal()
    ensures forall i :: 0 <= i < EntryCount ==> EntryNormal(EntryAt(i))
  {
    forall i | 0 <= i < EntryCount ensures EntryNormal(EntryAt(i)) {
      if i == 0 { PythonNormal(); }
      else if i == 1 { JavascriptNormal(); }
      else if i == 2 { SqlNormal(); }
      else if i == 3 { TableauNormal(); }
      else if i == 4 { PowerBiNormal(); }
      else if i == 5 { ExcelNormal(); }
      else if i == 6 { SnowflakeNormal(); }
      else if i == 7 { DbtNormal(); }
      else if i == 8 { AwsNormal(); }
      else if i == 9 { AzureNormal(); }
      else if i == 10 { GcpNormal(); }
      else if i == 11 { DataEngineeringNormal(); }
      else if i == 12 { DataScienceNormal(); }
      else if i == 13 { BusinessIntelligenceNormal(); }
      else if i == 14 { CybersecurityNormal(); }
      else if i == 15 { EpicNormal(); }
      else if i == 16 { CptNormal(); }
      else { IcdNormal(); }
    }
  }

  // ---------------------------------------------------------------------
  // No two entries share a name, proved a few pairs at a time

  lemma PythonApart1()
    ensures EntriesApart(PythonEntry(), JavascriptEntry())
  {
  }
  lemma PythonApart2()
    ensures EntriesApart(PythonEntry(), SqlEntry())
    ensures EntriesApart(PythonEntry(), TableauEntry())
  {
  }
  lemma PythonApart3()
    ensures EntriesApart(PythonEntry(), PowerBiEntry())
    ensures EntriesApart(PythonEntry(), ExcelEntry())
    ensures EntriesApart(PythonEntry(), SnowflakeEntry())
  {
  }
  lemma PythonApart4()
    ensures EntriesApart(PythonEntry(), DbtEntry())
    ensures EntriesApart(PythonEntry(), AwsEntry())
    ensures EntriesApart(PythonEntry(), AzureEntry())
  {
  }
  lemma PythonApart5()
    ensures EntriesApart(PythonEntry(), GcpEntry())
    ensures EntriesApart(PythonEntry(), DataEngineeringEntry())
  {
  }
  lemma PythonApart6()
    ensures EntriesApart(PythonEntry(), DataScienceEntry())
    ensures EntriesApart(PythonEntry(), BusinessIntelligenceEntry())
  {
  }
  lemma PythonApart7()
    ensures EntriesApart(PythonEntry(), CybersecurityEntry())
    ensures EntriesApart(PythonEntry(), EpicEntry())
  {
  }
  lemma PythonApart8()
    ensures EntriesApart(PythonEntry(), CptEntry())
    ensures EntriesApart(PythonEntry(), IcdEntry())
  {
  }

  /** Entry 0 ("python") shares no name with a later entry. */
  lemma PythonApartFromLater()
    ensures forall j :: 0 < j < EntryCount ==> EntriesApart(EntryAt(0), EntryAt(j))
  {
    PythonApart1(); PythonApart2(); PythonApart3(); PythonApart4(); PythonApart5(); PythonApart6(); PythonApart7(); PythonApart8();
    forall j | 0 < j < EntryCount ensures EntriesApart(EntryAt(0), EntryAt(j)) {
      if j == 1 { }
      else if j == 2 { }
      else if j == 3 { }
      else if j == 4 { }
      else if j == 5 { }
      else if j == 6 { }
      else if j == 7 { }
      else if j == 8 { }
      else if j == 9 { }
      else if j == 10 { }
      else if j == 11 { }
      else if j == 12 { }
      else if j == 13 { }
      else if j == 14 { }
      else if j == 15 { }
      else if j == 16 { }
      else { }
    }
  }

  lemma JavascriptApart1()
    ensures EntriesApart(JavascriptEntry(), SqlEntry())
  {
  }
  lemma JavascriptApart2()
    ensures EntriesApart(JavascriptEntry(), TableauEntry())
    ensures EntriesApart(JavascriptEntry(), PowerBiEntry())
  {
  }
  lemma JavascriptApart3()
    ensures EntriesApart(JavascriptEntry(), ExcelEntry())
    ensures EntriesApart(JavascriptEntry(), SnowflakeEntry())
  {
  }
  lemma JavascriptApart4()
    ensures EntriesApart(JavascriptEntry(), DbtEntry())
    ensures EntriesApart(JavascriptEntry(), AwsEntry())
  {
  }
  lemma JavascriptApart5()
    ensures EntriesApart(JavascriptEntry(), AzureEntry())
    ensures EntriesApart(JavascriptEntry(), GcpEntry())
  {
  }
  lemma JavascriptApart6()
    ensures EntriesApart(JavascriptEntry(), DataEngineeringEntry())
    ensures EntriesApart(JavascriptEntry(), DataScienceEntry())
  {
  }
  lemma JavascriptApart7()
    ensures EntriesApart(JavascriptEntry(), BusinessIntelligenceEntry())
    ensures EntriesApart(JavascriptEntry(), CybersecurityEntry())
  {
  }
  lemma JavascriptApart8()
    ensures EntriesApart(JavascriptEntry(), EpicEntry())
    ensures EntriesApart(JavascriptEntry(), CptEntry())
  {
  }
  lemma JavascriptApart9()
    ensures EntriesApart(JavascriptEntry(), IcdEntry())
  {
  }

  /** Entry 1 ("javascript") shares no name with a later entry. */
  lemma JavascriptApartFromLater()
    ensures forall j :: 1 < j < EntryCount ==> EntriesApart(EntryAt(1), EntryAt(j))
  {
    JavascriptApart1(); JavascriptApart2(); JavascriptApart3(); JavascriptApart4(); JavascriptApart5(); JavascriptApart6(); JavascriptApart7(); JavascriptApart8(); JavascriptApart9();
    forall j | 1 < j < EntryCount ensures EntriesApart(EntryAt(1), EntryAt(j)) {
      if j == 2 { }
      else if j == 3 { }
      else if j == 4 { }
      else if j == 5 { }
      else if j == 6 { }
      else if j == 7 { }
      else if j == 8 { }
      else if j == 9 { }
      else if j == 10 { }
      else if j == 11 { }
      else if j == 12 { }
      else if j == 13 { }
      else if j == 14 { }
      else if j == 15 { }
      else if j == 16 { }
      else { }
    }
  }

  lemma SqlApart1()
    ensures EntriesApart(SqlEntry(), TableauEntry())
  {
  }
  lemma SqlApart2()
    ensures EntriesApart(SqlEntry(), PowerBiEntry())
  {
  }
  lemma SqlApart3()
    ensures EntriesApart(SqlEntry(), ExcelEntry())
  {
  }
  lemma SqlApart4()
    ensures EntriesApart(SqlEntry(), SnowflakeEntry())
    ensures EntriesApart(SqlEntry(), DbtEntry())
  {
  }
  lemma SqlApart5()
    ensures EntriesApart(SqlEntry(), AwsEntry())
  {
  }
  lemma SqlApart6()
    ensures EntriesApart(SqlEntry(), AzureEntry())
  {
  }
  lemma SqlApart7()
    ensures EntriesApart(SqlEntry(), GcpEntry())
  {
  }
  lemma SqlApart8()
    ensures EntriesApart(SqlEntry(), DataEngineeringEntry())
  {
  }
  lemma SqlApart9()
    ensures EntriesApart(SqlEntry(), DataScienceEntry())
  {
  }
  lemma SqlApart10()
    ensures EntriesApart(SqlEntry(), BusinessIntelligenceEntry())
  {
  }
  lemma SqlApart11()
    ensures EntriesApart(SqlEntry(), CybersecurityEntry())
  {
  }
  lemma SqlApart12()
    ensures EntriesApart(SqlEntry(), EpicEntry())
  {
  }
  lemma SqlApart13()
    ensures EntriesApart(SqlEntry(), CptEntry())
  {
  }
  lemma SqlApart14()
    ensures EntriesApart(SqlEntry(), IcdEntry())
  {
  }

  /** Entry 2 ("sql") shares no name with a later entry. */
  lemma SqlApartFromLater()
    ensures forall j :: 2 < j < EntryCount ==> EntriesApart(EntryAt(2), EntryAt(j))
  {
    SqlApart1(); SqlApart2(); SqlApart3(); SqlApart4(); SqlApart5(); SqlApart6(); SqlApart7(); SqlApart8(); SqlApart9(); SqlApart10(); SqlApart11(); SqlApart12(); SqlApart13(); SqlApart14();
    forall j | 2 < j < EntryCount ensures EntriesApart(EntryAt(2), EntryAt(j)) {
      if j == 3 { }
      else if j == 4 { }
      else if j == 5 { }
      else if j == 6 { }
      else if j == 7 { }
      else if j == 8 { }
      else if j == 9 { }
      else if j == 10 { }
      else if j == 11 { }
      else if j == 12 { }
      else if j == 13 { }
      else if j == 14 { }
      else if j == 15 { }
      else if j == 16 { }
      else { }
    }
  }

  lemma TableauApart1()
    ensures EntriesApart(TableauEntry(), PowerBiEntry())
    ensures EntriesApart(TableauEntry(), ExcelEntry())
    ensures EntriesApart(TableauEntry(), SnowflakeEntry())
    ensures EntriesApart(TableauEntry(), DbtEntry())
  {
  }
  lemma TableauApart2()
    ensures EntriesApart(TableauEntry(), AwsEntry())
    ensures EntriesApart(TableauEntry(), AzureEntry())
    ensures EntriesApart(TableauEntry(), GcpEntry())
    ensures EntriesApart(TableauEntry(), DataEngineeringEntry())
  {
  }
  lemma TableauApart3()
    ensures EntriesApart(TableauEntry(), DataScienceEntry())
    ensures EntriesApart(TableauEntry(), BusinessIntelligenceEntry())
    ensures EntriesApart(TableauEntry(), CybersecurityEntry())
  {
  }
  lemma TableauApart4()
    ensures EntriesApart(TableauEntry(), EpicEntry())
    ensures EntriesApart(TableauEntry(), CptEntry())
    ensures EntriesApart(TableauEntry(), IcdEntry())
  {
  }

  /** Entry 3 ("tableau") shares no name with a later entry. */
  lemma TableauApartFromLater()
    ensures forall j :: 3 < j < EntryCount ==> EntriesApart(EntryAt(3), EntryAt(j))
  {
    TableauApart1(); TableauApart2(); TableauApart3(); TableauApart4();
    forall j | 3 < j < EntryCount ensures EntriesApart(EntryAt(3), EntryAt(j)) {
      if j == 4 { }
      else if j == 5 { }
      else if j == 6 { }
      else if j == 7 { }
      else if j == 8 { }
      else if j == 9 { }
      else if j == 10 { }
      else if j == 11 { }
      else if j == 12 { }
      else if j == 13 { }
      else if j == 14 { }
      else if j == 15 { }
      else if j == 16 { }
      else { }
    }
  }

  lemma PowerBiApart1()
    ensures EntriesApart(PowerBiEntry(), ExcelEntry())
    ensures EntriesApart(PowerBiEntry(), SnowflakeEntry())
    ensures EntriesApart(PowerBiEntry(), DbtEntry())
  {
  }
  lemma PowerBiApart2()
    ensures EntriesApart(PowerBiEntry(), AwsEntry())
    ensures EntriesApart(PowerBiEntry(), AzureEntry())
    ensures EntriesApart(PowerBiEntry(), GcpEntry())
  {
  }
  lemma PowerBiApart3()
    ensures EntriesApart(PowerBiEntry(), DataEngineeringEntry())
    ensures EntriesApart(PowerBiEntry(), DataScienceEntry())
  {
  }
  lemma PowerBiApart4()
    ensures EntriesApart(PowerBiEntry(), BusinessIntelligenceEntry())
    ensures EntriesApart(PowerBiEntry(), CybersecurityEntry())
  {
  }
  lemma PowerBiApart5()
    ensures EntriesApart(PowerBiEntry(), EpicEntry())
    ensures EntriesApart(PowerBiEntry(), CptEntry())
  {
  }
  lemma PowerBiApart6()
    ensures EntriesApart(PowerBiEntry(), IcdEntry())
  {
  }

  /** Entry 4 ("power bi") shares no name with a later entry. */
  lemma PowerBiApartFromLater()
    ensures forall j :: 4 < j < EntryCount ==> EntriesApart(EntryAt(4), EntryAt(j))
  {
    PowerBiApart1(); PowerBiApart2(); PowerBiApart3(); PowerBiApart4(); PowerBiApart5(); PowerBiApart6();
    forall j | 4 < j < EntryCount ensures EntriesApart(EntryAt(4), EntryAt(j)) {
      if j == 5 { }
      else if j == 6 { }
      else if j == 7 { }
      else if j == 8 { }
      else if j == 9 { }
      else if j == 10 { }
      else if j == 11 { }
      else if j == 12 { }
      else if j == 13 { }
      else if j == 14 { }
      else if j == 15 { }
      else if j == 16 { }
      else { }
    }
  }

  lemma ExcelApart1()
    ensures EntriesApart(ExcelEntry(), SnowflakeEntry())
    ensures EntriesApart(ExcelEntry(), DbtEntry())
    ensures EntriesApart(ExcelEntry(), AwsEntry())
  {
  }
  lemma ExcelApart2()
    ensures EntriesApart(ExcelEntry(), AzureEntry())
    ensures EntriesApart(ExcelEntry(), GcpEntry())
    ensures EntriesApart(ExcelEntry(), DataEngineeringEntry())
  {
  }
  lemma ExcelApart3()
    ensures EntriesApart(ExcelEntry(), DataScienceEntry())
    ensures EntriesApart(ExcelEntry(), BusinessIntelligenceEntry())
  {
  }
  lemma ExcelApart4()
    ensures EntriesApart(ExcelEntry(), CybersecurityEntry())
    ensures EntriesApart(ExcelEntry(), EpicEntry())
  {
  }
  lemma ExcelApart5()
    ensures EntriesApart(ExcelEntry(), CptEntry())
    ensures EntriesApart(ExcelEntry(), IcdEntry())
  {
  }

  /** Entry 5 ("excel") shares no name with a later entry. */
  lemma ExcelApartFromLater()
    ensures forall j :: 5 < j < EntryCount ==> EntriesApart(EntryAt(5), EntryAt(j))
  {
    ExcelApart1(); ExcelApart2(); ExcelApart3(); ExcelApart4(); ExcelApart5();
    forall j | 5 < j < EntryCount ensures EntriesApart(EntryAt(5), EntryAt(j)) {
      if j == 6 { }
      else if j == 7 { }
      else if j == 8 { }
      else if j == 9 { }
      else if j == 10 { }
      else if j == 11 { }
      else if j == 12 { }
      else if j == 13 { }
      else if j == 14 { }
      else if j == 15 { }
      else if j == 16 { }
      else { }
    }
  }

  lemma SnowflakeApart1()
    ensures EntriesApart(SnowflakeEntry(), DbtEntry())
    ensures EntriesApart(SnowflakeEntry(), AwsEntry())
    ensures EntriesApart(SnowflakeEntry(), AzureEntry())
    ensures EntriesApart(SnowflakeEntry(), GcpEntry())
    ensures EntriesApart(SnowflakeEntry(), DataEngineeringEntry())
    ensures EntriesApart(SnowflakeEntry(), DataScienceEntry())
  {
  }
  lemma SnowflakeApart2()
    ensures EntriesApart(SnowflakeEntry(), BusinessIntelligenceEntry())
    ensures EntriesApart(SnowflakeEntry(), CybersecurityEntry())
    ensures EntriesApart(SnowflakeEntry(), EpicEntry())
    ensures EntriesApart(SnowflakeEntry(), CptEntry())
    ensures EntriesApart(SnowflakeEntry(), IcdEntry())
  {
  }

  /** Entry 6 ("snowflake") shares no name with a later entry. */
  lemma SnowflakeApartFromLater()
    ensures forall j :: 6 < j < EntryCount ==> EntriesApart(EntryAt(6), EntryAt(j))
  {
    SnowflakeApart1(); SnowflakeApart2();
    forall j | 6 < j < EntryCount ensures EntriesApart(EntryAt(6), EntryAt(j)) {
      if j == 7 { }
      else if j == 8 { }
      else if j == 9 { }
      else if j == 10 { }
      else if j == 11 { }
      else if j == 12 { }
      else if j == 13 { }
      else if j == 14 { }
      else if j == 15 { }
      else if j == 16 { }
      else { }
    }
  }

  lemma DbtApart1()
    ensures EntriesApart(DbtEntry(), AwsEntry())
    ensures EntriesApart(DbtEntry(), AzureEntry())
    ensures EntriesApart(DbtEntry(), GcpEntry())
    ensures EntriesApart(DbtEntry(), DataEngineeringEntry())
  {
  }
  lemma DbtApart2()
    ensures EntriesApart(DbtEntry(), DataScienceEntry())
    ensures EntriesApart(DbtEntry(), BusinessIntelligenceEntry())
    ensures EntriesApart(DbtEntry(), CybersecurityEntry())
  {
  }
  lemma DbtApart3()
    ensures EntriesApart(DbtEntry(), EpicEntry())
    ensures EntriesApart(DbtEntry(), CptEntry())
    ensures EntriesApart(DbtEntry(), IcdEntry())
  {
  }

  /** Entry 7 ("dbt") shares no name with a later entry. */
  lemma DbtApartFromLater()
    ensures forall j :: 7 < j < EntryCount ==> EntriesApart(EntryAt(7), EntryAt(j))
  {
    DbtApart1(); DbtApart2(); DbtApart3();
    forall j | 7 < j < EntryCount ensures EntriesApart(EntryAt(7), EntryAt(j)) {
      if j == 8 { }
      else if j == 9 { }
      else if j == 10 { }
      else if j == 11 { }
      else if j == 12 { }
      else if j == 13 { }
      else if j == 14 { }
      else if j == 15 { }
      else if j == 16 { }
      else { }
    }
  }

  lemma AwsApart1()
    ensures EntriesApart(AwsEntry(), AzureEntry())
    ensures EntriesApart(AwsEntry(), GcpEntry())
    ensures EntriesApart(AwsEntry(), DataEngineeringEntry())
  {
  }
  lemma AwsApart2()
    ensures EntriesApart(AwsEntry(), DataScienceEntry())
    ensures EntriesApart(AwsEntry(), BusinessIntelligenceEntry())
    ensures EntriesApart(AwsEntry(), CybersecurityEntry())
  {
  }
  lemma AwsApart3()
    ensures EntriesApart(AwsEntry(), EpicEntry())
    ensures EntriesApart(AwsEntry(), CptEntry())
    ensures EntriesApart(AwsEntry(), IcdEntry())
  {
  }

  /** Entry 8 ("aws") shares no name with a later entry. */
  lemma AwsApartFromLater()
    ensures forall j :: 8 < j < EntryCount ==> EntriesApart(EntryAt(8), EntryAt(j))
  {
    AwsApart1(); AwsApart2(); AwsApart3();
    forall j | 8 < j < EntryCount ensures EntriesApart(EntryAt(8), EntryAt(j)) {
      if j == 9 { }
      else if j == 10 { }
      else if j == 11 { }
      else if j == 12 { }
      else if j == 13 { }
      else if j == 14 { }
      else if j == 15 { }
      else if j == 16 { }
      else { }
    }
  }

  lemma AzureApart1()
    ensures EntriesApart(AzureEntry(), GcpEntry())
    ensures EntriesApart(AzureEntry(), DataEngineeringEntry())
    ensures EntriesApart(AzureEntry(), DataScienceEntry())
  {
  }
  lemma AzureApart2()
    ensures EntriesApart(AzureEntry(), BusinessIntelligenceEntry())
    ensures EntriesApart(AzureEntry(), CybersecurityEntry())
    ensures EntriesApart(AzureEntry(), EpicEntry())
  {
  }
  lemma AzureApart3()
    ensures EntriesApart(AzureEntry(), CptEntry())
    ensures EntriesApart(AzureEntry(), IcdEntry())
  {
  }

  /** Entry 9 ("azure") shares no name with a later entry. */
  lemma AzureApartFromLater()
    ensures forall j :: 9 < j < EntryCount ==> EntriesApart(EntryAt(9), EntryAt(j))
  {
    AzureApart1(); AzureApart2(); AzureApart3();
    forall j | 9 < j < EntryCount ensures EntriesApart(EntryAt(9), EntryAt(j)) {
      if j == 10 { }
      else if j == 11 { }
      else if j == 12 { }
      else if j == 13 { }
      else if j == 14 { }
      else if j == 15 { }
      else if j == 16 { }
      else { }
    }
  }

  lemma GcpApart1()
    ensures EntriesApart(GcpEntry(), DataEngineeringEntry())
    ensures EntriesApart(GcpEntry(), DataScienceEntry())
    ensures EntriesApart(GcpEntry(), BusinessIntelligenceEntry())
  {
  }
  lemma GcpApart2()
    ensures EntriesApart(GcpEntry(), CybersecurityEntry())
    ensures EntriesApart(GcpEntry(), EpicEntry())
    ensures EntriesApart(GcpEntry(), CptEntry())
  {
  }
  lemma GcpApart3()
    ensures EntriesApart(GcpEntry(), IcdEntry())
  {
  }

  /** Entry 10 ("gcp") shares no name with a later entry. */
  lemma GcpApartFromLater()
    ensures forall j :: 10 < j < EntryCount ==> EntriesApart(EntryAt(10), EntryAt(j))
  {
    GcpApart1(); GcpApart2(); GcpApart3();
    forall j | 10 < j < EntryCount ensures EntriesApart(EntryAt(10), EntryAt(j)) {
      if j == 11 { }
      else if j == 12 { }
      else if j == 13 { }
      else if j == 14 { }
      else if j == 15 { }
      else if j == 16 { }
      else { }
    }
  }

  lemma DataEngineeringApart1()
    ensures EntriesApart(DataEngineeringEntry(), DataScienceEntry())
    ensures EntriesApart(DataEngineeringEntry(), BusinessIntelligenceEntry())
  {
  }
  lemma DataEngineeringApart2()
    ensures EntriesApart(DataEngineeringEntry(), CybersecurityEntry())
    ensures EntriesApart(DataEngineeringEntry(), EpicEntry())
  {
  }
  lemma DataEngineeringApart3()
    ensures EntriesApart(DataEngineeringEntry(), CptEntry())
    ensures EntriesApart(DataEngineeringEntry(), IcdEntry())
  {
  }

  /** Entry 11 ("data engineering") shares no name with a later entry. */
  lemma DataEngineeringApartFromLater()
    ensures forall j :: 11 < j < EntryCount ==> EntriesApart(EntryAt(11), EntryAt(j))
  {
    DataEngineeringApart1(); DataEngineeringApart2(); DataEngineeringApart3();
    forall j | 11 < j < EntryCount ensures EntriesApart(EntryAt(11), EntryAt(j)) {
      if j == 12 { }
      else if j == 13 { }
      else if j == 14 { }
      else if j == 15 { }
      else if j == 16 { }
      else { }
    }
  }

  lemma DataScienceApart1()
    ensures EntriesApart(DataScienceEntry(), BusinessIntelligenceEntry())
    ensures EntriesApart(DataScienceEntry(), CybersecurityEntry())
  {
  }
  lemma DataScienceApart2()
    ensures EntriesApart(DataScienceEntry(), EpicEntry())
    ensures EntriesApart(DataScienceEntry(), CptEntry())
  {
  }
  lemma DataScienceApart3()
    ensures EntriesApart(DataScienceEntry(), IcdEntry())
  {
  }

  /** Entry 12 ("data science") shares no name with a later entry. */
  lemma DataScienceApartFromLater()
    ensures forall j :: 12 < j < EntryCount ==> EntriesApart(EntryAt(12), EntryAt(j))
  {
    DataScienceApart1(); DataScienceApart2(); DataScienceApart3();
    forall j | 12 < j < EntryCount ensures EntriesApart(EntryAt(12), EntryAt(j)) {
      if j == 13 { }
      else if j == 14 { }
      else if j == 15 { }
      else if j == 16 { }
      else { }
    }
  }

  lemma BusinessIntelligenceApart1()
    ensures EntriesApart(BusinessIntelligenceEntry(), CybersecurityEntry())
    ensures EntriesApart(BusinessIntelligenceEntry(), EpicEntry())
    ensures EntriesApart(BusinessIntelligenceEntry(), CptEntry())
  {
  }
  lemma BusinessIntelligenceApart2()
    ensures EntriesApart(BusinessIntelligenceEntry(), IcdEntry())
  {
  }

  /** Entry 13 ("business intelligence") shares no name with a later entry. */
  lemma BusinessIntelligenceApartFromLater()
    ensures forall j :: 13 < j < EntryCount ==> EntriesApart(EntryAt(13), EntryAt(j))
  {
    BusinessIntelligenceApart1(); BusinessIntelligenceApart2();
    forall j | 13 < j < EntryCount ensures EntriesApart(EntryAt(13), EntryAt(j)) {
      if j == 14 { }
      else if j == 15 { }
      else if j == 16 { }
      else { }
    }
  }

  lemma CybersecurityApart1()
    ensures EntriesApart(CybersecurityEntry(), EpicEntry())
    ensures EntriesApart(CybersecurityEntry(), CptEntry())
  {
  }
  lemma CybersecurityApart2()
    ensures EntriesApart(CybersecurityEntry(), IcdEntry())
  {
  }

  /** Entry 14 ("cybersecurity") shares no name with a later entry. */
  lemma CybersecurityApartFromLater()
    ensures forall j :: 14 < j < EntryCount ==> EntriesApart(EntryAt(14), EntryAt(j))
  {
    CybersecurityApart1(); CybersecurityApart2();
    forall j | 14 < j < EntryCount ensures EntriesApart(EntryAt(14), EntryAt(j)) {
      if j == 15 { }
      else if j == 16 { }
      else { }
    }
  }

  lemma EpicApart()
    ensures EntriesApart(EpicEntry(), CptEntry())
    ensures EntriesApart(EpicEntry(), IcdEntry())
  {
  }

  /** Entry 15 ("epic") shares no name with a later entry. */
  lemma EpicApartFromLater()
    ensures forall j :: 15 < j < EntryCount ==> EntriesApart(EntryAt(15), EntryAt(j))
  {
    EpicApart();
    forall j | 15 < j < EntryCount ensures EntriesApart(EntryAt(15), EntryAt(j)) {
      if j == 16 { }
      else { }
    }
  }

  lemma CptApart()
    ensures EntriesApart(CptEntry(), IcdEntry())
  {
  }

  /** Entry 16 ("cpt") shares no name with a later entry. */
  lemma CptApartFromLater()
    ensures forall j :: 16 < j < EntryCount ==> EntriesApart(EntryAt(16), EntryAt(j))
  {
    CptApart();
  }

  /** The first nine entries share no name with a later entry. */
  lemma EntriesApartEarly()
    ensures forall i, j :: 0 <= i < 9 && i < j < EntryCount ==> EntriesApart(EntryAt(i), EntryAt(j))
  {
    forall i, j | 0 <= i < 9 && i < j < EntryCount ensures EntriesApart(EntryAt(i), EntryAt(j)) {
      if i == 0 { PythonApartFromLater(); }
      else if i == 1 { JavascriptApartFromLater(); }
      else if i == 2 { SqlApartFromLater(); }
      else if i == 3 { TableauApartFromLater(); }
      else if i == 4 { PowerBiApartFromLater(); }
      else if i == 5 { ExcelApartFromLater(); }
      else if i == 6 { SnowflakeApartFromLater(); }
      else if i == 7 { DbtApartFromLater(); }
      else { AwsApartFromLater(); }
    }
  }

  /** The remaining entries share no name with a later entry. */
  lemma EntriesApartLate()
    ensures forall i, j :: 9 <= i < j < EntryCount ==> EntriesApart(EntryAt(i), EntryAt(j))
  {
    forall i, j | 9 <= i < j < EntryCount ensures EntriesApart(EntryAt(i), EntryAt(j)) {
      if i == 9 { AzureApartFromLater(); }
      else if i == 10 { GcpApartFromLater(); }
      else if i == 11 { DataEngineeringApartFromLater(); }
      else if i == 12 { DataScienceApartFromLater(); }
      else if i == 13 { BusinessIntelligenceApartFromLater(); }
      else if i == 14 { CybersecurityApartFromLater(); }
      else if i == 15 { EpicApartFromLater(); }
      else { CptApartFromLater(); }
    }
  }

  lemma EntriesApartPairwise()
    ensures forall i, j :: 0 <= i < j < EntryCount ==> EntriesApart(EntryAt(i), EntryAt(j))
  {
    EntriesApartEarly();
    EntriesApartLate();
  }

  /** The built-in table has groups that do not overlap, written in normal form. */
  lemma SkillSynonymsWellFormed()
    ensures WellFormed(SkillSynonyms())
  {
    EntriesNormal();
    EntriesApartPairwise();
    assert forall i :: 0 <= i < EntryCount ==> SkillSynonyms()[i] == EntryAt(i);
  }
}
