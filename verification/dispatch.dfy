/** Choosing a layout from a report's file name, and collecting one row per
    recognised report of a directory listing. */
module Dispatch {
  import opened Matcher
  import opened Registry
  import opened Vendors

  /** `sub` occurs somewhere in `s` (a substring test, not a suffix test). */
  predicate Contains(s: string, sub: string)
    ensures Contains(s, sub) ==> |sub| <= |s|
    ensures sub <= s ==> Contains(s, sub)
  {
    assert sub <= s ==> OccursAt(s, sub, 0);
    exists i :: 0 <= i <= |s| - |sub| && OccursAt(s, sub, i)
  }

  /** `sub` occurs in `s` starting at position `i`. */
  predicate OccursAt(s: string, sub: string, i: int)
    requires 0 <= i <= |s| - |sub|
  {
    s[i..i + |sub|] == sub
  }

  /** Which parser a file goes to. */
  datatype Vendor = Cgw | Gnx | Skip

  /** CGW is tried first, then GNX; either needs ".pdf" in the name. */
  function Classify(name: string): (v: Vendor)
    ensures v != Skip ==> Contains(name, ".pdf")
    ensures v == Cgw ==> Contains(name, "CGW")
    ensures v == Gnx ==> Contains(name, "GNX") && !Contains(name, "CGW")
  {
    if Contains(name, "CGW") && Contains(name, ".pdf") then Cgw
    else if Contains(name, "GNX") && Contains(name, ".pdf") then Gnx
    else Skip
  }

  /** The precedence, both ways round: a name goes to CGW exactly when it
      carries "CGW" and ".pdf", to GNX exactly when it carries "GNX" and
      ".pdf" but not "CGW", and is skipped exactly when it lacks ".pdf" or
      carries neither tag. */
  lemma ClassifyRule(name: string)
    ensures Classify(name) == Cgw <==> Contains(name, "CGW") && Contains(name, ".pdf")
    ensures Classify(name) == Gnx <==>
      !Contains(name, "CGW") && Contains(name, "GNX") && Contains(name, ".pdf")
    ensures Classify(name) == Skip <==>
      !Contains(name, ".pdf") || (!Contains(name, "CGW") && !Contains(name, "GNX"))
  {
  }

  /** Appending to a name never removes a tag from it. */
  lemma ContainsAppend(s: string, t: string, sub: string)
    requires Contains(s, sub)
    ensures Contains(s + t, sub)
  {
    var i :| 0 <= i <= |s| - |sub| && OccursAt(s, sub, i);
    assert (s + t)[i..i + |sub|] == s[i..i + |sub|];
    assert OccursAt(s + t, sub, i);
  }

  /** Appending ".txt" cannot create a "CGW" tag: one reaching into the
      suffix would need a 'W' there. */
  lemma NoCgwAcrossTxt(s: string)
    requires !Contains(s, "CGW")
    ensures !Contains(s + ".txt", "CGW")
  {
    var u := s + ".txt";
    forall i | 0 <= i <= |u| - 3
      ensures !OccursAt(u, "CGW", i)
    {
      if i + 3 <= |s| {
        assert u[i..i + 3] == s[i..i + 3];
        assert !OccursAt(s, "CGW", i);
      } else {
        assert u[i + 2] == ".txt"[i + 2 - |s|];
        assert u[i..i + 3][2] == u[i + 2];
      }
    }
  }

  /** A name carrying both tags and ".pdf" goes to CGW: the CGW test comes
      first. */
  lemma BothTagsGoToCgw(name: string)
    requires Contains(name, "CGW") && Contains(name, "GNX") && Contains(name, ".pdf")
    ensures Classify(name) == Cgw
  {
  }

  /** The ".pdf" test is a substring test: the converter's ".txt" side-car
      of a recognised report is dispatched to the same parser as the report
      itself. */
  lemma TextSidecarSameVendor(name: string)
    requires Classify(name) != Skip
    ensures Classify(name + ".txt") == Classify(name)
  {
    ContainsAppend(name, ".txt", ".pdf");
    if Classify(name) == Cgw {
      ContainsAppend(name, ".txt", "CGW");
    } else {
      ContainsAppend(name, ".txt", "GNX");
      NoCgwAcrossTxt(name);
    }
  }

  /** The row a recognised file contributes. */
  function VendorFrame(v: Vendor, text: string, engine: Engine): Frame
    requires v != Skip
  {
    if v == Cgw then
      LayoutTableFacts(CgwPatterns());
      ReportFrame(CgwPatterns(), engine, text)
    else
      LayoutTableFacts(GnxPatterns());
      ReportFrame(GnxPatterns(), engine, text)
  }

  /** The listed names that are not skipped, in listing order. */
  function AcceptedNames(listing: seq<string>): seq<string>
  {
    if listing == [] then []
    else
      var name := listing[|listing| - 1];
      AcceptedNames(listing[..|listing| - 1]) + (if Classify(name) == Skip then [] else [name])
  }

  /** The rows collected from a listing, one file at a time. */
  function PdfFrames(listing: seq<string>, textOf: string -> string, engine: Engine): seq<Frame>
  {
    if listing == [] then []
    else
      var name := listing[|listing| - 1];
      var v := Classify(name);
      PdfFrames(listing[..|listing| - 1], textOf, engine)
        + (if v == Skip then [] else [VendorFrame(v, textOf(name), engine)])
  }

  /** One single-row frame per accepted name, in listing order, each parsed
      with the layout its name selects; the accepted names are exactly the
      listed names that are not skipped. */
  lemma {:induction false} PdfFramesSpec(listing: seq<string>, textOf: string -> string, engine: Engine)
    ensures forall x :: x in AcceptedNames(listing) <==> x in listing && Classify(x) != Skip
    ensures |PdfFrames(listing, textOf, engine)| == |AcceptedNames(listing)|
    ensures forall j :: 0 <= j < |AcceptedNames(listing)| ==>
      var name := AcceptedNames(listing)[j];
      Classify(name) != Skip &&
      PdfFrames(listing, textOf, engine)[j] == VendorFrame(Classify(name), textOf(name), engine) &&
      |PdfFrames(listing, textOf, engine)[j].rows| == 1
    decreases |listing|
  {
    if listing != [] {
      var init := listing[..|listing| - 1];
      PdfFramesSpec(init, textOf, engine);
      assert listing == init + [listing[|listing| - 1]];
    }
  }

  /** Walks the listing in order: a CGW report is parsed with the CGW
      layout, otherwise a GNX report with the GNX layout, and any other file
      is skipped; each parsed report adds its row. */
  method GetPdfDfs(listing: seq<string>, textOf: string -> string, engine: Engine)
    returns (dfs: seq<Frame>)
    ensures dfs == PdfFrames(listing, textOf, engine)
  {
    dfs := [];
    for i := 0 to |listing|
      invariant dfs == PdfFrames(listing[..i], textOf, engine)
    {
      var name := listing[i];
      assert listing[..i + 1][..i] == listing[..i];
      var vendor := Classify(name);
      if vendor == Cgw {
        var parser := new CgwParser(textOf(name), engine);
        dfs := dfs + [parser.df];
      } else if vendor == Gnx {
        var parser := new GnxParser(textOf(name), engine);
        dfs := dfs + [parser.df];
      }
    }
    assert listing[..|listing|] == listing;
  }
}
