/** The report parser object: the registry it updates in place, the text of
    the one report it reads, and the steps a vendor layout runs on it. */
module ReportParsers {
  import opened Matcher
  import opened Registry

  class ReportParser {
    /** The report's plain text, as the PDF converter produced it. */
    const text: string
    /** The regular-expression engine the extraction runs on. */
    const engine: Engine
    /** The registry's names in dictionary order. */
    var keys: seq<string>
    /** The registry: field name -> {pattern, value}. */
    var annos: Annos

    /** The dictionary invariant: the order lists each field exactly once. */
    ghost predicate Valid()
      reads this
    {
      Distinct(keys) && (forall k :: k in annos <==> k in keys)
    }

    /** A fresh registry of the 26 fields, all patterns and values empty. */
    constructor (text: string, engine: Engine)
      ensures Valid()
      ensures this.text == text && this.engine == engine
      ensures keys == AnnoNames && annos == InitialAnnos()
    {
      InitialRegistry();
      this.text := text;
      this.engine := engine;
      keys := AnnoNames;
      annos := InitialAnnos();
    }

    /** Writes the table's patterns in order. A name that is not a field
        raises a key error: the update stops there, with the entries before
        it already written. */
    method UpdatePatterns(table: PatternTable) returns (ok: bool)
      requires Valid()
      modifies this
      ensures Valid() && keys == old(keys) && annos.Keys == old(annos).Keys
      ensures ok <==> KeysIn(table, old(annos))
      ensures annos == SetPatterns(old(annos), table[..FirstMissing(old(annos), table)])
    {
      var n := 0;
      while n < |table|
        invariant n <= |table| && KeysIn(table[..n], old(annos))
        invariant Valid() && keys == old(keys)
        invariant annos == SetPatterns(old(annos), table[..n])
      {
        var (k, p) := table[n];
        if k !in annos {
          FirstMissingAt(old(annos), table, n);
          return false;
        }
        assert KeysIn(table[..n + 1], old(annos)) by {
          assert forall i :: 0 <= i < n ==> table[..n + 1][i] == table[..n][i];
        }
        SetPatternsStep(old(annos), table, n);
        annos := annos[k := Entry(p, annos[k].value)];
        n := n + 1;
      }
      assert table[..n] == table;
      ok := true;
    }

    /** One extraction: on success the field's value becomes group 1 of the
        match. On failure (no match, no group 1, or a name that is not a
        field) nothing is written. */
    method GetAnno(name: string, pattern: string) returns (ok: bool)
      requires Valid()
      modifies this
      ensures Valid() && keys == old(keys)
      ensures ok <==> name in old(annos) && Search(engine, pattern, text).Some?
      ensures ok ==> annos == old(annos)[name := Entry(old(annos)[name].pattern,
                                                       Search(engine, pattern, text).value)]
      ensures !ok ==> annos == old(annos)
    {
      var extracted := Search(engine, pattern, text);
      if extracted.None? || name !in annos {
        return false;
      }
      annos := annos[name := Entry(annos[name].pattern, extracted.value)];
      ok := true;
    }

    /** Tries every field once, in registry order, with the field's own
        pattern. A failure is reported and the loop carries on: the result
        lists the failed fields in order. */
    method LoopGetAnno() returns (failures: seq<string>)
      requires Valid()
      modifies this
      ensures Valid() && keys == old(keys)
      ensures annos == ExtractAll(old(annos), engine, text)
      ensures failures == FailedKeys(keys, old(annos), engine, text)
    {
      var order := keys;
      ghost var start := annos;
      failures := [];
      for i := 0 to |order|
        invariant Valid() && keys == order
        invariant annos.Keys == start.Keys
        invariant forall k :: k in annos ==>
                    annos[k] == if k in order[..i] then Extract(start[k], engine, text)
                                else start[k]
        invariant failures == FailedKeys(order[..i], start, engine, text)
      {
        var k := order[i];
        PrefixStep(order, i);
        FailedKeysStep(order, start, engine, text, i);
        var ok := GetAnno(k, annos[k].pattern);
        if !ok {
          failures := failures + [k];
        }
      }
      assert order[..|order|] == order;
      assert annos.Keys == ExtractAll(start, engine, text).Keys;
    }

    /** The single-row table of the current values, one column per field in
        registry order. */
    function GenerateDf(): (f: Frame)
      reads this
      requires Valid()
      ensures |f.rows| == 1 && f.columns == keys
      ensures forall k :: Cell(f, k) == if k in annos then Some(annos[k].value) else None
    {
      TabulateCells(keys, annos);
      Tabulate(keys, annos)
    }
  }
}
