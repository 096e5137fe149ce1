/** The two vendor report layouts (GNX and CGW): each is a table of
    patterns bound onto a fresh registry, after which every field is
    extracted and the registry is tabulated into one row. */
module Vendors {
  import opened Matcher
  import opened Registry
  import opened ReportParsers

  /** The fields a layout binds: every registry field except the nine for a
      non-familial variant, in registry order. */
  const BoundNames: seq<string> := [
    "PROTOCOL",
    "SUBJECTID",
    "LGMID",
    "SEX",
    "YEAROFBIRTH",
    "GENENAME_FAMILIAL",
    "CHROMOSOME_FAMILIAL",
    "POSITION_FAMILIAL",
    "REFERENCE_FAMILIAL",
    "ALTERNATE_FAMILIAL",
    "TRANSCRIPT_FAMILIAL",
    "C_SYNTAX_FAMILIAL",
    "P_SYNTAX_FAMILIAL",
    "ZYGOSITY_FAMILIAL",
    "APOE_C130R_rs429358_STATUS",
    "APOE_R176C_rs7412_STATUS",
    "BDNF_V66M_rs6265_STATUS"
  ]

  /** The bound fields are the registry with the non-familial run cut out. */
  lemma BoundNamesCut()
    ensures BoundNames == AnnoNames[..14] + AnnoNames[23..]
  {
  }

  /** A layout names exactly the bound fields, in registry order. */
  predicate LayoutTable(t: PatternTable)
  {
    TableKeys(t) == BoundNames
  }

  /** What a layout table therefore is: 17 distinct registry fields, none of
      them non-familial, and every field that is not non-familial among them. */
  lemma LayoutTableFacts(t: PatternTable)
    requires LayoutTable(t)
    ensures |t| == 17 && Distinct(TableKeys(t))
    ensures forall i :: 0 <= i < |t| ==> t[i].0 in AnnoNames && t[i].0 !in NonFamilialNames
    ensures forall k :: k in AnnoNames && k !in NonFamilialNames ==> k in TableKeys(t)
    ensures KeysIn(t, InitialAnnos())
  {
    InitialRegistry();
    BoundNamesCut();
    SplitNames(AnnoNames, 14, 23);
    assert forall i :: 0 <= i < |t| ==> t[i].0 == TableKeys(t)[i];
  }

  /** Cutting a run out of a list of distinct names: what is left is
      distinct, disjoint from the run, and holds every other name. */
  lemma SplitNames(names: seq<string>, lo: nat, hi: nat)
    requires lo <= hi <= |names| && Distinct(names)
    ensures |names[..lo] + names[hi..]| == |names| - (hi - lo)
    ensures Distinct(names[..lo] + names[hi..])
    ensures forall x :: x in names[..lo] + names[hi..] ==> x in names && x !in names[lo..hi]
    ensures forall x :: x in names && x !in names[lo..hi] ==> x in names[..lo] + names[hi..]
  {
    var rest := names[..lo] + names[hi..];
    assert forall i :: 0 <= i < |rest| ==> rest[i] == names[if i < lo then i else i + (hi - lo)];
    forall x | x in rest
      ensures x in names && x !in names[lo..hi]
    {
      var i :| 0 <= i < |rest| && rest[i] == x;
      var j := if i < lo then i else i + (hi - lo);
      assert names[j] == x;
    }
    forall x | x in names && x !in names[lo..hi]
      ensures x in rest
    {
      var j :| 0 <= j < |names| && names[j] == x;
      if j < lo {
        assert rest[j] == x;
      } else if j >= hi {
        assert rest[j - (hi - lo)] == x;
      }
    }
  }

  /** The GNX layout: the pattern bound to each field it names. */
  function GnxPattern(name: string): string
  {
    match name
    case "PROTOCOL"                   => @"CLINICAL GENOMICS REPORT\n+.+\n+(\w+)"
    case "SUBJECTID"                  => @"CLINICAL GENOMICS REPORT\n+.+\n+\w+[,|\s+]\s+(\d+)"
    case "LGMID"                      => @"Accession:\s+(\w+.+?\w*)\s"
    case "SEX"                        => @"Sex:\s+(\w+)"
    case "YEAROFBIRTH"                => @"DOB: \d+\/\d+\/(\d+)"
    case "GENENAME_FAMILIAL"          => @"Genomic location .+\nTranscript\n+(\w+)"
    case "CHROMOSOME_FAMILIAL"        => @"Level 1.+\n.+Genomic location .+\nTranscript\n\n.+\n\s+.+p\.\w+\s+\w+\s+(chr\w+)"
    case "POSITION_FAMILIAL"          => @"Level 1.+\n.+Genomic location .+\nTranscript\n\n.+\n\s+.+p\.\w+\s+\w+\s+chr\w+:(\d+)"
    case "REFERENCE_FAMILIAL"         => @"Level 1.+\n.+Genomic location .+\nTranscript\n\n.+\n\s+.+p\.\w+\s+\w+\s+chr\w+:\d+\s+(\w)"
    case "ALTERNATE_FAMILIAL"         => @"Level 1.+\n.+Genomic location .+\nTranscript\n\n.+\n\s+.+p\.\w+\s+\w+\s+chr\w+:\d+\s+\w>(\w)"
    case "TRANSCRIPT_FAMILIAL"        => @"Level 1.+\n.+Genomic location .+\nTranscript\n\n.+\n\s+.+p\.\w+\s+\w+\s+chr\w+:\d+\s+\w>\w\n(\w+.+)"
    case "C_SYNTAX_FAMILIAL"          => @"Level 1.+\n.+Genomic location .+\nTranscript\n+\w+\n\s+(c.+?)\s"
    case "P_SYNTAX_FAMILIAL"          => @"Level 1.+\n.+Genomic location .+\nTranscript\n+\w+\n\s+c.+?\s+(p\.\w+)"
    case "ZYGOSITY_FAMILIAL"          => @"Level 1.+\n.+Genomic location .+\nTranscript\n\n.+\n\s+.+p\.\w+\s+(\w+)"
    case "APOE_C130R_rs429358_STATUS" => @"(homo\w*|hetero\w*).*rs429358"
    case "APOE_R176C_rs7412_STATUS"   => @"(homo\w*|hetero\w*).*45412079C"
    case "BDNF_V66M_rs6265_STATUS"    => @"(homo\w*|hetero\w*).*v66M"
    case _ => ""
  }

  /** The GNX layout as a table, in the order it is written. */
  function GnxPatterns(): (t: PatternTable)
    ensures LayoutTable(t)
  {
    seq(|BoundNames|, i requires 0 <= i < |BoundNames| => (BoundNames[i], GnxPattern(BoundNames[i])))
  }

  /** The CGW layout: the pattern bound to each field it names. */
  function CgwPattern(name: string): string
  {
    match name
    case "PROTOCOL"                   => @"Name:\s+(\w+.+?)[,|\s]"
    case "SUBJECTID"                  => @"Name:\s+\w+.+?[,|\s]\s+(\w+)"
    case "LGMID"                      => @"Accession\nName.+\s+\d+\s+(.+)"
    case "SEX"                        => @"Gender:\s+(\w+)"
    case "YEAROFBIRTH"                => @"DOB:\s+\d+/\d+/(\d+)"
    case "GENENAME_FAMILIAL"          => @"for the Familial Variant:\s\w+[,]\s*(\w+)"
    case "CHROMOSOME_FAMILIAL"        => @"CLINICAL GENOMICS REPORT.+\n+\s+\w+\s+\((chr\w+)"
    case "POSITION_FAMILIAL"          => @"CLINICAL GENOMICS REPORT.+\n+\s+\w+\s+\(chr\w+:\w+\.(\d+)"
    case "REFERENCE_FAMILIAL"         => @"CLINICAL GENOMICS REPORT.+\n+\s+\w+\s+\(chr\w+:\w+\.\d+\w>(\w)"
    case "ALTERNATE_FAMILIAL"         => @"CLINICAL GENOMICS REPORT.+\n+\s+\w+\s+\(chr\w+:\w+\.\d+(\w)>"
    case "TRANSCRIPT_FAMILIAL"        => @"CLINICAL GENOMICS REPORT.+\n+\s+\w+\s+\(chr.+\n\s+(\w+.+?):"
    case "C_SYNTAX_FAMILIAL"          => @"CLINICAL GENOMICS REPORT.+\n+\s+\w+\s+\(chr.+\n\s+\w+.+?\:(c.+?)\s"
    case "P_SYNTAX_FAMILIAL"          => @"CLINICAL GENOMICS REPORT.+\n+\s+\w+\s+\(chr.+\n\s+\w+.+?\:c.+?\s+.+\:(p.+)"
    case "ZYGOSITY_FAMILIAL"          => @"for the Familial Variant:\s(\w+)"
    case "APOE_C130R_rs429358_STATUS" => @"(hetero\w+|homo\w+).*C130R"
    case "APOE_R176C_rs7412_STATUS"   => @"(hetero\w+|homo\w+).+R176C"
    case "BDNF_V66M_rs6265_STATUS"    => @"(hetero\w+|homo\w+).+V66"
    case _ => ""
  }

  /** The CGW layout as a table, in the order it is written. */
  function CgwPatterns(): (t: PatternTable)
    ensures LayoutTable(t)
  {
    seq(|BoundNames|, i requires 0 <= i < |BoundNames| => (BoundNames[i], CgwPattern(BoundNames[i])))
  }


  /** The registry of a report parsed with layout `t`: the layout is bound
      onto the initial registry and every field is extracted once. */
  function ReportAnnos(t: PatternTable, engine: Engine, text: string): Annos
    requires KeysIn(t, InitialAnnos())
  {
    ExtractAll(SetPatterns(InitialAnnos(), t), engine, text)
  }

  /** The row a report parsed with layout `t` contributes. */
  function ReportFrame(t: PatternTable, engine: Engine, text: string): Frame
    requires KeysIn(t, InitialAnnos())
  {
    InitialRegistry();
    Tabulate(AnnoNames, ReportAnnos(t, engine, text))
  }

  /** What a parsed report holds, field by field: a bound field holds the
      group its layout pattern captures, or stays empty when the search
      fails; a non-familial field has the empty pattern and is always empty,
      in the registry and in the report's row. */
  lemma LayoutResult(t: PatternTable, engine: Engine, text: string)
    requires LayoutTable(t)
    ensures KeysIn(t, InitialAnnos())
    ensures forall j :: 0 <= j < |t| ==>
      ReportAnnos(t, engine, text)[t[j].0] == Entry(t[j].1, Search(engine, t[j].1, text).GetOr(""))
    ensures forall k :: k in NonFamilialNames ==>
      ReportAnnos(t, engine, text)[k] == Entry("", "") && Cell(ReportFrame(t, engine, text), k) == Some("")
  {
    LayoutTableFacts(t);
    LayoutBound(t, engine, text);
    LayoutUnbound(t, engine, text);
    InitialRegistry();
    TabulateCells(AnnoNames, ReportAnnos(t, engine, text));
  }

  /** A bound field ends up with its layout pattern and the captured group. */
  lemma LayoutBound(t: PatternTable, engine: Engine, text: string)
    requires LayoutTable(t) && KeysIn(t, InitialAnnos())
    ensures forall j :: 0 <= j < |t| ==>
      ReportAnnos(t, engine, text)[t[j].0] == Entry(t[j].1, Search(engine, t[j].1, text).GetOr(""))
  {
    LayoutTableFacts(t);
    InitialRegistry();
    UpdatePatternsEffect(InitialAnnos(), t);
    ExtractAllEffect(SetPatterns(InitialAnnos(), t), engine, text);
  }

  /** A non-familial field keeps the empty pattern and the empty value. */
  lemma LayoutUnbound(t: PatternTable, engine: Engine, text: string)
    requires LayoutTable(t) && KeysIn(t, InitialAnnos())
    ensures forall k :: k in NonFamilialNames ==> ReportAnnos(t, engine, text)[k] == Entry("", "")
  {
    LayoutTableFacts(t);
    InitialRegistry();
    var bound := SetPatterns(InitialAnnos(), t);
    UpdatePatternsEffect(InitialAnnos(), t);
    forall k | k in NonFamilialNames
      ensures ReportAnnos(t, engine, text)[k] == Entry("", "")
    {
      assert k !in TableKeys(t);
      assert bound[k] == Entry("", "");
      EmptyPatternKeepsValue(bound, engine, text, k);
    }
  }

  /** Extracting a report in either layout always reports the nine
      non-familial fields as failed, whatever the text. */
  lemma NonFamilialAlwaysReported(t: PatternTable, engine: Engine, text: string)
    requires LayoutTable(t)
    ensures KeysIn(t, InitialAnnos())
    ensures forall k :: k in NonFamilialNames ==>
      k in FailedKeys(AnnoNames, SetPatterns(InitialAnnos(), t), engine, text)
  {
    LayoutTableFacts(t);
    InitialRegistry();
    var bound := SetPatterns(InitialAnnos(), t);
    UpdatePatternsEffect(InitialAnnos(), t);
    FailedKeysSpec(AnnoNames, bound, engine, text);
    forall k | k in NonFamilialNames
      ensures k in FailedKeys(AnnoNames, bound, engine, text)
    {
      assert k !in TableKeys(t);
      assert bound[k].pattern == "";
    }
  }

  /** What both layouts' constructors do after building the registry: bind
      the layout, extract every field, tabulate the row. Every name of a
      layout is a field, so the binding never stops at a key error. */
  method ParseReport(t: PatternTable, text: string, engine: Engine) returns (r: ReportParser, df: Frame)
    requires LayoutTable(t)
    ensures KeysIn(t, InitialAnnos())
    ensures fresh(r) && r.Valid()
    ensures r.text == text && r.engine == engine && r.keys == AnnoNames
    ensures r.annos == ReportAnnos(t, engine, text)
    ensures df == ReportFrame(t, engine, text)
  {
    LayoutTableFacts(t);
    r := new ReportParser(text, engine);
    var ok := r.UpdatePatterns(t);
    assert ok;
    assert t[..FirstMissing(InitialAnnos(), t)] == t;
    var failures := r.LoopGetAnno();
    df := r.GenerateDf();
  }

  /** A report in the GNX layout. */
  class GnxParser {
    /** The registry the report was parsed into. */
    const report: ReportParser
    /** The report's single row. */
    const df: Frame

    constructor (text: string, engine: Engine)
      ensures KeysIn(GnxPatterns(), InitialAnnos())
      ensures fresh(report) && report.Valid()
      ensures report.text == text && report.engine == engine && report.keys == AnnoNames
      ensures report.annos == ReportAnnos(GnxPatterns(), engine, text)
      ensures df == ReportFrame(GnxPatterns(), engine, text)
    {
      var r, f := ParseReport(GnxPatterns(), text, engine);
      report, df := r, f;
    }
  }

  /** A report in the CGW layout. */
  class CgwParser {
    /** The registry the report was parsed into. */
    const report: ReportParser
    /** The report's single row. */
    const df: Frame

    constructor (text: string, engine: Engine)
      ensures KeysIn(CgwPatterns(), InitialAnnos())
      ensures fresh(report) && report.Valid()
      ensures report.text == text && report.engine == engine && report.keys == AnnoNames
      ensures report.annos == ReportAnnos(CgwPatterns(), engine, text)
      ensures df == ReportFrame(CgwPatterns(), engine, text)
    {
      var r, f := ParseReport(CgwPatterns(), text, engine);
      report, df := r, f;
    }
  }
}
