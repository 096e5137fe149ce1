/** The annotation registry of a report parser, as values: the 26 field
    names in their fixed order, the `{pattern, value}` record of each field,
    and the specification functions that say what binding a layout,
    extracting every field and tabulating the result do to it. */
module Registry {
  import opened Matcher

  /** The record a field name maps to. */
  datatype Entry = Entry(pattern: string, value: string)

  /** Field name -> record. The order of the names is kept separately. */
  type Annos = map<string, Entry>

  /** A vendor layout: field name -> regular expression, in insertion order. */
  type PatternTable = seq<(string, string)>

  /** The registry's field names, in the order the report columns follow. */
  const AnnoNames: seq<string> := [
    "PROTOCOL",
    "SUBJECTID",
    "LGMID",
    "SEX",
    "YEAROFBIRTH",
    "GENENAME_FAMILIAL",
    "CHROMOSOME_FAMILIAL",
    "POSITION_FAMILIAL",
    "REFERENCE_FAMILIAL",
    "ALTERNATE_FAMILIAL",
    "TRANSCRIPT_FAMILIAL",
    "C_SYNTAX_FAMILIAL",
    "P_SYNTAX_FAMILIAL",
    "ZYGOSITY_FAMILIAL",
    "GENENAME_NON-FAMILIAL",
    "CHROMOSOME_NON-FAMILIAL",
    "POSITION_NON-FAMILIAL",
    "REFERENCE_NON-FAMILIAL",
    "ALTERNATE_NON-FAMILIAL",
    "TRANSCRIPT_NON-FAMILIAL",
    "C_SYNTAX_NON-FAMILIAL",
    "P_SYNTAX_NON-FAMILIAL",
    "ZYGOSITY_NON-FAMILIAL",
    "APOE_C130R_rs429358_STATUS",
    "APOE_R176C_rs7412_STATUS",
    "BDNF_V66M_rs6265_STATUS"
  ]

  /** The nine fields for a non-familial variant, which no layout binds. */
  const NonFamilialNames: seq<string> := AnnoNames[14..23]

  predicate Distinct(s: seq<string>)
  {
    forall i, j :: 0 <= i < j < |s| ==> s[i] != s[j]
  }

  /** The state right after construction: every field bound to the empty
      pattern and holding the empty value. */
  function InitialAnnos(): Annos
  {
    map k | k in AnnoNames :: Entry("", "")
  }

  lemma InitialRegistry()
    ensures |AnnoNames| == 26 && Distinct(AnnoNames)
    ensures forall k :: k in InitialAnnos() <==> k in AnnoNames
    ensures forall k :: k in InitialAnnos() ==> InitialAnnos()[k] == Entry("", "")
  {
  }

  /** `s` ends with `suffix`. */
  predicate EndsWith(s: string, suffix: string)
  {
    |suffix| <= |s| && s[|s| - |suffix|..] == suffix
  }

  /** The nine non-familial fields are the ones named "..._NON-FAMILIAL":
      each of them carries the suffix and no field before or after their run
      does. */
  lemma NonFamilialBySuffix()
    ensures forall k :: k in NonFamilialNames ==> EndsWith(k, "_NON-FAMILIAL")
    ensures forall k :: k in AnnoNames[..14] || k in AnnoNames[23..] ==> !EndsWith(k, "_NON-FAMILIAL")
  {
    NonFamilialSuffixed();
    LeadingUnhyphenated();
    TrailingUnhyphenated();
    forall k | k in AnnoNames[..14] || k in AnnoNames[23..]
      ensures !EndsWith(k, "_NON-FAMILIAL")
    {
      if EndsWith(k, "_NON-FAMILIAL") {
        HyphenInSuffix(k);
      }
    }
  }

  /** Each of the nine carries the suffix. */
  lemma NonFamilialSuffixed()
    ensures forall k :: k in NonFamilialNames ==> EndsWith(k, "_NON-FAMILIAL")
  {
  }

  /** No field before the non-familial run has a hyphen in its name. */
  lemma LeadingUnhyphenated()
    ensures forall k :: k in AnnoNames[..14] ==> '-' !in k
  {
  }

  /** No field after the non-familial run has a hyphen in its name. */
  lemma TrailingUnhyphenated()
    ensures forall k :: k in AnnoNames[23..] ==> '-' !in k
  {
  }

  /** A name ending in "_NON-FAMILIAL" contains a hyphen. */
  lemma HyphenInSuffix(k: string)
    requires EndsWith(k, "_NON-FAMILIAL")
    ensures '-' in k
  {
    assert k[|k| - 9] == "_NON-FAMILIAL"[4];
  }

  // ---------------------------------------------------------------------
  // Binding a layout (_update_patterns)
  // ---------------------------------------------------------------------

  function TableKeys(t: PatternTable): seq<string>
  {
    seq(|t|, i requires 0 <= i < |t| => t[i].0)
  }

  /** Every name of the table is a field of the registry. */
  predicate KeysIn(t: PatternTable, a: Annos)
  {
    forall i :: 0 <= i < |t| ==> t[i].0 in a
  }

  /** How many leading table entries can be written before a name that is
      not a field stops the update with a key error. */
  function FirstMissing(a: Annos, t: PatternTable): (n: nat)
    ensures n <= |t| && KeysIn(t[..n], a)
    ensures n < |t| ==> t[n].0 !in a
    ensures n == |t| <==> KeysIn(t, a)
  {
    if t == [] then 0
    else if t[0].0 !in a then 0
    else
      var m := FirstMissing(a, t[1..]);
      assert t[..m + 1] == [t[0]] + t[1..][..m];
      1 + m
  }

  /** The first entry whose name is not a field is where the update stops. */
  lemma FirstMissingAt(a: Annos, t: PatternTable, n: nat)
    requires n < |t| && KeysIn(t[..n], a) && t[n].0 !in a
    ensures FirstMissing(a, t) == n && !KeysIn(t, a)
  {
  }

  /** The pattern the table assigns to `k` last, if it names `k` at all. */
  function LastFor(t: PatternTable, k: string): Option<string>
  {
    if t == [] then None
    else if t[|t| - 1].0 == k then Some(t[|t| - 1].1)
    else LastFor(t[..|t| - 1], k)
  }

  /** The registry after writing the table's patterns one entry at a time. */
  function SetPatterns(a: Annos, t: PatternTable): (r: Annos)
    requires KeysIn(t, a)
    ensures r.Keys == a.Keys
    decreases |t|
  {
    if t == [] then a
    else
      var r0 := SetPatterns(a, t[..|t| - 1]);
      var (k, p) := t[|t| - 1];
      r0[k := Entry(p, r0[k].value)]
  }

  /** Writing one more table entry on top of a prefix. */
  lemma SetPatternsStep(a: Annos, t: PatternTable, n: nat)
    requires n < |t| && KeysIn(t[..n + 1], a)
    ensures KeysIn(t[..n], a)
    ensures SetPatterns(a, t[..n + 1]) ==
      var r := SetPatterns(a, t[..n]);
      r[t[n].0 := Entry(t[n].1, r[t[n].0].value)]
  {
    assert t[..n + 1][..n] == t[..n];
    assert forall i :: 0 <= i < n ==> t[..n][i] == t[..n + 1][i];
  }

  /** Field by field: a field takes the last pattern the table gives it,
      keeps its own pattern when the table does not name it, and never
      changes its value. */
  lemma {:induction false} SetPatternsAt(a: Annos, t: PatternTable, k: string)
    requires KeysIn(t, a) && k in a
    ensures SetPatterns(a, t)[k] == Entry(LastFor(t, k).GetOr(a[k].pattern), a[k].value)
    decreases |t|
  {
    if t != [] {
      SetPatternsAt(a, t[..|t| - 1], k);
    }
  }

  lemma {:induction false} LastForAbsent(t: PatternTable, k: string)
    requires k !in TableKeys(t)
    ensures LastFor(t, k) == None
    decreases |t|
  {
    if t != [] {
      assert TableKeys(t)[|t| - 1] == t[|t| - 1].0;
      assert TableKeys(t[..|t| - 1]) == TableKeys(t)[..|t| - 1];
      LastForAbsent(t[..|t| - 1], k);
    }
  }

  lemma {:induction false} LastForDistinct(t: PatternTable, j: nat)
    requires Distinct(TableKeys(t)) && j < |t|
    ensures LastFor(t, t[j].0) == Some(t[j].1)
    decreases |t|
  {
    if j < |t| - 1 {
      assert TableKeys(t)[j] != TableKeys(t)[|t| - 1];
      assert TableKeys(t[..|t| - 1]) == TableKeys(t)[..|t| - 1];
      LastForDistinct(t[..|t| - 1], j);
    }
  }

  /** With a table whose names are distinct (a dictionary), every named
      field gets exactly the table's pattern, every other field is left as
      it was, and no value changes. */
  lemma UpdatePatternsEffect(a: Annos, t: PatternTable)
    requires KeysIn(t, a) && Distinct(TableKeys(t))
    ensures forall j :: 0 <= j < |t| ==>
      SetPatterns(a, t)[t[j].0] == Entry(t[j].1, a[t[j].0].value)
    ensures forall k :: k in a && k !in TableKeys(t) ==> SetPatterns(a, t)[k] == a[k]
  {
    forall j | 0 <= j < |t|
      ensures SetPatterns(a, t)[t[j].0] == Entry(t[j].1, a[t[j].0].value)
    {
      SetPatternsAt(a, t, t[j].0);
      LastForDistinct(t, j);
    }
    forall k | k in a && k !in TableKeys(t)
      ensures SetPatterns(a, t)[k] == a[k]
    {
      SetPatternsAt(a, t, k);
      LastForAbsent(t, k);
    }
  }

  /** Binding the same layout twice is the same as binding it once. */
  lemma SetPatternsIdempotent(a: Annos, t: PatternTable)
    requires KeysIn(t, a)
    ensures KeysIn(t, SetPatterns(a, t))
    ensures SetPatterns(SetPatterns(a, t), t) == SetPatterns(a, t)
  {
    var once := SetPatterns(a, t);
    var twice := SetPatterns(once, t);
    forall k | k in a
      ensures twice[k] == once[k]
    {
      SetPatternsAt(a, t, k);
      SetPatternsAt(once, t, k);
    }
  }

  // ---------------------------------------------------------------------
  // Extracting every field (_get_anno, _loop_get_anno)
  // ---------------------------------------------------------------------

  /** One field after its extraction attempt: on success the value becomes
      the captured group; on failure the record is left as it was. */
  function Extract(e: Entry, engine: Engine, text: string): Entry
  {
    match Search(engine, e.pattern, text)
    case Some(v) => Entry(e.pattern, v)
    case None => e
  }

  /** The registry after one extraction attempt per field. */
  function ExtractAll(a: Annos, engine: Engine, text: string): (r: Annos)
    ensures r.Keys == a.Keys
  {
    map k | k in a :: Extract(a[k], engine, text)
  }

  /** The fields whose extraction attempt fails, in the order given. A name
      that is not a field fails too (the write would raise a key error). */
  function FailedKeys(keys: seq<string>, a: Annos, engine: Engine, text: string): seq<string>
  {
    if keys == [] then []
    else
      FailedKeys(keys[..|keys| - 1], a, engine, text)
        + (if Fails(keys[|keys| - 1], a, engine, text) then [keys[|keys| - 1]] else [])
  }

  predicate Fails(k: string, a: Annos, engine: Engine, text: string)
  {
    k !in a || Search(engine, a[k].pattern, text).None?
  }

  /** Growing a prefix of a list of distinct names by one adds a name it
      did not hold. */
  lemma PrefixStep(s: seq<string>, i: nat)
    requires Distinct(s) && i < |s|
    ensures s[i] !in s[..i]
    ensures forall x :: x in s[..i + 1] <==> x in s[..i] || x == s[i]
  {
    assert s[..i + 1] == s[..i] + [s[i]];
  }

  /** Trying one more field after a prefix of the order. */
  lemma FailedKeysStep(keys: seq<string>, a: Annos, engine: Engine, text: string, i: nat)
    requires i < |keys|
    ensures FailedKeys(keys[..i + 1], a, engine, text) ==
      FailedKeys(keys[..i], a, engine, text) + (if Fails(keys[i], a, engine, text) then [keys[i]] else [])
  {
    assert keys[..i + 1][..i] == keys[..i];
  }

  /** What extracting every field does to each record: the pattern and the
      key set never change, a value changes only to a captured group, and a
      failed field keeps its value. */
  lemma ExtractAllEffect(a: Annos, engine: Engine, text: string)
    ensures ExtractAll(a, engine, text).Keys == a.Keys
    ensures forall k :: k in a ==> ExtractAll(a, engine, text)[k].pattern == a[k].pattern
    ensures forall k :: k in a ==>
      ExtractAll(a, engine, text)[k].value ==
        Search(engine, a[k].pattern, text).GetOr(a[k].value)
  {
  }

  /** A field bound to the empty pattern is never filled in. */
  lemma EmptyPatternKeepsValue(a: Annos, engine: Engine, text: string, k: string)
    requires k in a && a[k].pattern == ""
    ensures ExtractAll(a, engine, text)[k] == a[k]
  {
  }

  /** Running the extraction a second time over the same text changes nothing. */
  lemma ExtractAllIdempotent(a: Annos, engine: Engine, text: string)
    ensures ExtractAll(ExtractAll(a, engine, text), engine, text) == ExtractAll(a, engine, text)
  {
    var once := ExtractAll(a, engine, text);
    assert forall k :: k in once ==> Extract(once[k], engine, text) == once[k];
  }

  /** Every name listed as failed is a field whose search fails, and every
      field whose search fails is listed. */
  lemma {:induction false} FailedKeysSpec(keys: seq<string>, a: Annos, engine: Engine, text: string)
    ensures forall k :: k in FailedKeys(keys, a, engine, text) <==> k in keys && Fails(k, a, engine, text)
    decreases |keys|
  {
    if keys != [] {
      FailedKeysSpec(keys[..|keys| - 1], a, engine, text);
      assert keys == keys[..|keys| - 1] + [keys[|keys| - 1]];
    }
  }

  // ---------------------------------------------------------------------
  // Tabulating (_generate_df)
  // ---------------------------------------------------------------------

  /** A table with named columns and rows of cells. */
  datatype Frame = Frame(columns: seq<string>, rows: seq<seq<string>>)

  /** The single-row table of the registry's values, columns in key order. */
  function Tabulate(keys: seq<string>, a: Annos): (f: Frame)
    requires forall i :: 0 <= i < |keys| ==> keys[i] in a
    ensures |f.rows| == 1 && |f.rows[0]| == |f.columns|
  {
    Frame(keys, [seq(|keys|, i requires 0 <= i < |keys| => a[keys[i]].value)])
  }

  /** Position of the first column called `k`. */
  function ColumnIndex(cols: seq<string>, k: string): (r: Option<nat>)
    ensures r.Some? ==> r.value < |cols| && cols[r.value] == k && k !in cols[..r.value]
    ensures r.None? <==> k !in cols
  {
    if cols == [] then None
    else if cols[0] == k then Some(0)
    else match ColumnIndex(cols[1..], k)
      case None => None
      case Some(i) =>
        assert cols[..i + 1] == [cols[0]] + cols[1..][..i];
        Some(i + 1)
  }

  /** The first-row cell of column `k`, looked up by name. */
  function Cell(f: Frame, k: string): Option<string>
  {
    match ColumnIndex(f.columns, k)
    case None => None
    case Some(i) => if |f.rows| > 0 && i < |f.rows[0]| then Some(f.rows[0][i]) else None
  }

  /** Reading the table back by column name gives each field's value, and
      nothing for a name that is not a field. */
  lemma TabulateCells(keys: seq<string>, a: Annos)
    requires forall i :: 0 <= i < |keys| ==> keys[i] in a
    ensures Tabulate(keys, a).columns == keys
    ensures forall k :: Cell(Tabulate(keys, a), k) ==
                        if k in keys then Some(a[k].value) else None
  {
    var f := Tabulate(keys, a);
    forall k
      ensures Cell(f, k) == if k in keys then Some(a[k].value) else None
    {
      match ColumnIndex(keys, k)
      case None =>
      case Some(i) =>
        assert f.rows[0][i] == a[keys[i]].value;
    }
  }
}
