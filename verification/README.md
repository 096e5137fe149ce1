# PDF report ingest: field-registry extraction, modelled in Dafny

The ingest tool reads clinical-genomics lab reports that were converted from PDF
to plain text and pulls one row of fields out of each report. This project
models its core.

- **The registry.** A report parser keeps an ordered dictionary of 26
  annotation names. Each name maps to a `{pattern, value}` record, and both
  start out empty.
- **Layout binding.** A vendor layout (GNX or CGW) writes a regular expression
  into the `pattern` of 17 of those names.
- **Extraction.** Every name is then tried once, in registry order. On success
  the value becomes capture group 1 of the first match. On failure the value is
  left alone and the loop carries on.
- **Row generation.** The registry becomes one row whose columns follow
  registry order.
- **Dispatch.** A directory listing is walked. Each file name goes to the CGW
  parser, the GNX parser, or is skipped, by substring tests on the name.

Modules:

- `matcher.dfy` (`Matcher`): the regular-expression engine, left abstract. An
  `Engine` is a parameter of type `(pattern, text) -> Option<string>`.
  `Search` wraps it so that the empty pattern always fails. The empty pattern
  compiles to a regex with no group 1, so asking for group 1 raises.
- `registry.dfy` (`Registry`): the registry as values. It holds the 26 names,
  the `Entry` record, the specification functions (`SetPatterns`,
  `ExtractAll`, `FailedKeys`, `Tabulate`) and the lemmas about them.
- `report_parser.dfy` (`ReportParsers`): class `ReportParser`. Its
  `keys: seq<string>` field is the dictionary's order and its
  `annos: map<string, Entry>` field is the dictionary. Its methods update them
  in place and are proved against the specification functions.
- `vendors.dfy` (`Vendors`): the GNX and CGW pattern tables, written out
  verbatim, the facts about them, and the classes `GnxParser` and `CgwParser`.
- `dispatch.dfy` (`Dispatch`): the file-name rule `Classify` and the
  directory walk `GetPdfDfs`.

Python exceptions are modelled as results:

- `_update_patterns` raises `KeyError` at the first name that is not a field.
  Here `UpdatePatterns` returns `ok == false`, with the earlier entries already
  written.
- `_get_anno` raises before it assigns anything when there is no match, no
  group 1, or no such field. Here `GetAnno` returns `ok == false` and the
  registry is unchanged.

## Model

| member | source | states |
|---|---|---|
| `Registry.InitialRegistry` | report_ingest.py:28-54 | the registry has exactly 26 distinct names in the listed order; every record starts as pattern `''` and value `''` |
| `Registry.NonFamilialBySuffix` | report_ingest.py:29-54 | the nine fields no layout binds are exactly the ones named `..._NON-FAMILIAL`: each of them ends in that suffix, and no field before or after their run does |
| `ReportParsers.ReportParser.constructor` | report_ingest.py:26-54 | a new parser holds the given text and the initial registry, with keys in the listed order |
| `Registry.FirstMissing` | report_ingest.py:57-60 | the update stops at the first table entry whose name is not a field; all earlier names are fields; it runs to the end exactly when every name is a field |
| `Registry.SetPatterns` | report_ingest.py:57-60 | writing a table's patterns never adds or removes a field |
| `Registry.SetPatternsAt` | report_ingest.py:57-60 | field by field: a field gets the last pattern the table gives it, keeps its pattern when the table does not name it, and its value never changes |
| `Registry.UpdatePatternsEffect` | report_ingest.py:57-60 | for a dictionary (distinct names), every named field gets exactly the table's pattern with its value kept, and every other field is unchanged |
| `Registry.SetPatternsIdempotent` | report_ingest.py:57-60 | applying the same table twice gives the same registry as applying it once |
| `ReportParsers.ReportParser.UpdatePatterns` | report_ingest.py:57-60 | `ok` exactly when every table name is a field; the registry becomes the table written up to the first missing name; key set and key order unchanged |
| `ReportParsers.ReportParser.GetAnno` | report_ingest.py:62-68 | succeeds exactly when the name is a field and the search yields group 1; only then is that field's value set to the captured group, with its pattern kept; otherwise the registry is unchanged |
| `Matcher.Search` | report_ingest.py:64-66 | the empty pattern never yields a value, whatever the engine and the text (it has no group 1); any other pattern yields exactly what the engine's search for group 1 gives |
| `Registry.EmptyPatternKeepsValue` | report_ingest.py:62-68 | a field bound to the empty pattern is never changed by extraction |
| `ReportParsers.ReportParser.LoopGetAnno` | report_ingest.py:70-79 | every field is tried once with its own pattern; the registry becomes `ExtractAll` of the old one; the failed fields come back in registry order; key order unchanged |
| `Registry.ExtractAll` | report_ingest.py:70-79 | the registry after one extraction attempt per field never gains or loses a field |
| `Registry.ExtractAllEffect` | report_ingest.py:70-79 | extraction keeps the key set and every pattern; a value becomes the captured group when the search succeeds and otherwise stays as it was |
| `Registry.ExtractAllIdempotent` | report_ingest.py:70-79 | running the extraction loop a second time over the same text changes nothing |
| `Registry.FailedKeysSpec` | report_ingest.py:73-79 | a name is reported as failed exactly when it is in the order and its extraction fails; the loop does not stop at a failure |
| `Registry.Tabulate` | report_ingest.py:81-88 | the generated table has exactly one row, as wide as its column list |
| `Registry.TabulateCells` | report_ingest.py:81-88 | the columns are the keys in order, and reading the row by column name gives each field's current value (nothing for a non-field) |
| `ReportParsers.ReportParser.GenerateDf` | report_ingest.py:81-88 | one row; columns equal the registry order; each cell read by name equals that field's current value |
| `Vendors.BoundNamesCut` | report_ingest.py:95-112 | the 17 names a layout binds are the registry order with the nine NON-FAMILIAL names cut out |
| `Vendors.GnxPatterns` | report_ingest.py:95-112 | the GNX table names exactly the 17 bound fields in registry order |
| `Vendors.CgwPatterns` | report_ingest.py:120-137 | the CGW table names exactly the 17 bound fields in registry order |
| `Vendors.LayoutTableFacts` | report_ingest.py:95-137 | such a table has 17 distinct names, all registry fields and none NON-FAMILIAL, and it covers every other field, so the update never raises a key error |
| `Vendors.LayoutResult` | report_ingest.py:92-140 | after parsing, each bound field holds its layout pattern and the captured group (or `''` when the search fails); each NON-FAMILIAL field keeps pattern `''` and value `''`, in the registry and in the row |
| `Vendors.NonFamilialAlwaysReported` | report_ingest.py:73-79 | for either layout, every NON-FAMILIAL field is reported as failed, whatever the text |
| `Vendors.ParseReport` | report_ingest.py:113-115 | binding a layout succeeds (`ok`), and the resulting registry and row are `ReportAnnos` and `ReportFrame` of that layout |
| `Vendors.GnxParser.constructor` | report_ingest.py:92-115 | a GNX parser's registry and row are those of the GNX layout over its text |
| `Vendors.CgwParser.constructor` | report_ingest.py:117-140 | a CGW parser's registry and row are those of the CGW layout over its text |
| `Dispatch.Contains` | report_ingest.py:161-164 | Python's `in` on strings: a name that contains a tag is at least as long as it, and a name that starts with the tag contains it |
| `Dispatch.ContainsAppend` | report_ingest.py:161-164 | appending text to a name never removes a tag it contains |
| `Dispatch.Classify` | report_ingest.py:161-166 | a file is parsed only when its name contains ".pdf" and the tag of the parser it goes to; a GNX file never carries the "CGW" tag |
| `Dispatch.ClassifyRule` | report_ingest.py:161-166 | CGW exactly when the name contains "CGW" and ".pdf"; GNX exactly when it contains "GNX" and ".pdf" but not "CGW"; skipped exactly otherwise |
| `Dispatch.BothTagsGoToCgw` | report_ingest.py:161-164 | every name that carries both tags and ".pdf" goes to CGW, because the CGW condition comes first |
| `Dispatch.NoCgwAcrossTxt` | report_ingest.py:161-164 | appending ".txt" to a name without the "CGW" tag never creates one |
| `Dispatch.TextSidecarSameVendor` | report_ingest.py:161-166 | ".pdf" is a substring test, so the `.pdf.txt` side-car the converter writes next to any recognised report goes to the same parser as the report itself |
| `Dispatch.PdfFramesSpec` | report_ingest.py:156-167 | one single-row frame per accepted name, in listing order, each parsed with the layout its name selects; the accepted names are exactly the listed names that are not skipped |
| `Dispatch.GetPdfDfs` | report_ingest.py:156-167 | the collected list equals `PdfFrames` of the listing |

## Left out

- PDF-to-text conversion through the external `pdftotext` command (report_ingest.py:18-23). The report text is a constructor parameter.
- pdf_to_text.py (`find_files`, `pdfs_to_text`) is not part of this model. It is directory traversal and subprocess calls.
- The semantics of Python's `re` module. The engine is an opaque parameter, and only the rule that the empty pattern never yields group 1 is built in. A group 1 that exists but did not take part in the match (Python returns `None`) is not modelled; no vendor pattern has alternation outside group 1. Whether the vendor patterns pick out the right clinical fields is not claimed.
- `Vendors.GnxPattern` and `Vendors.CgwPattern` carry no contract. They are the vendor dictionaries written out verbatim (report_ingest.py:96-112, 121-137), and the `GnxPatterns`/`CgwPatterns` rows state what is proved about them. That each bound field gets a non-empty pattern, and that a name a layout does not list gets the empty one, hold by reading them and are not proved: deciding either takes the solver through every regular-expression literal and goes past the proof budget.
- pandas `DataFrame`, `pd.concat` and `to_excel`, and `argparse`/`main` (report_ingest.py:83-86, 142-177). A frame is modelled as a column list plus rows of string cells.
- Console messages (report_ingest.py:79, 160, 166). `LoopGetAnno` returns the list of failed fields in place of its error lines. A skipped file simply adds no row.
- `os.listdir` and `os.path.join` (report_ingest.py:158-159). The listing is a parameter in an arbitrary order, and `textOf` maps a listed name to the converted text of that file.
- Class inheritance. `GNXParser` and `CGWParser` subclass `ReportParser`; here they hold a `ReportParser` in a `report` field. The `gnx_patterns`/`cgw_patterns` attributes are not kept as fields; the tables are the functions `GnxPatterns`/`CgwPatterns`.
- `SetPatterns` takes any sequence of (name, pattern) pairs. A repeated name means the last entry wins. A Python dict cannot repeat a name, and `UpdatePatternsEffect` assumes distinct names.
- The commented-out test code (report_ingest.py:179-206) is not live code.
