/** The manifest line written for a PDF hit: the FTP prefix is removed from
    the href and five tab-separated fields follow. */
module Manifest {
  const FtpPrefix: string := "ftp://ftp.ncbi.nlm.nih.gov/pub/pmc/"
  const DatePlaceholder: string := "DatePlaceholder\n"
  const CitationPlaceholder: string := "CitationPlaceholder"
  const LicensePlaceholder: string := "LicensePlaceholder"
  const Tab: char := '\t'

  /** `str.removeprefix`: without the prefix when it is there, unchanged otherwise. */
  function RemovePrefix(s: string, prefix: string): (rest: string)
    ensures prefix <= s ==> prefix + rest == s
    ensures !(prefix <= s) ==> rest == s
  {
    if prefix <= s then s[|prefix|..] else s
  }

  /** `{subpath}\tCitationPlaceholder\t{pmc_id}\tPMID:{pubmed_id}\tLicensePlaceholder\n` */
  function ManifestLine(subpath: string, pmcId: string, pubmedId: string): (line: string)
    ensures subpath + [Tab] <= line
    ensures |line| > 0 && line[|line| - 1] == '\n'
  {
    Join([subpath, CitationPlaceholder, pmcId, "PMID:" + pubmedId, LicensePlaceholder], Tab) + "\n"
  }

  /** The fields of a line, put back together with `sep` between them. */
  function Join(fields: seq<string>, sep: char): string {
    if fields == [] then ""
    else if |fields| == 1 then fields[0]
    else fields[0] + [sep] + Join(fields[1..], sep)
  }

  /** The fields of a line, cut at every `sep`; always at least one field. */
  function Split(s: string, sep: char): (fields: seq<string>)
    ensures |fields| >= 1
  {
    if s == [] then [""]
    else
      var tail := Split(s[1..], sep);
      if s[0] == sep then [""] + tail else [[s[0]] + tail[0]] + tail[1..]
  }

  lemma {:induction false} SplitWithoutSeparator(s: string, sep: char)
    requires sep !in s
    ensures Split(s, sep) == [s]
  {
    if s != [] {
      SplitWithoutSeparator(s[1..], sep);
      assert [s[0]] + s[1..] == s;
    }
  }

  lemma {:induction false} SplitAtFirstSeparator(field: string, sep: char, rest: string)
    requires sep !in field
    ensures Split(field + [sep] + rest, sep) == [field] + Split(rest, sep)
  {
    var s := field + [sep] + rest;
    if field == [] {
      assert s[1..] == rest;
    } else {
      assert s[1..] == field[1..] + [sep] + rest;
      SplitAtFirstSeparator(field[1..], sep, rest);
      assert [field[0]] + field[1..] == field;
    }
  }

  /** Splitting undoes joining, as long as no field contains the separator. */
  lemma {:induction false} SplitJoin(fields: seq<string>, sep: char)
    requires |fields| >= 1
    requires forall i :: 0 <= i < |fields| ==> sep !in fields[i]
    ensures Split(Join(fields, sep), sep) == fields
  {
    if |fields| == 1 {
      SplitWithoutSeparator(fields[0], sep);
    } else {
      SplitJoin(fields[1..], sep);
      SplitAtFirstSeparator(fields[0], sep, Join(fields[1..], sep));
      assert [fields[0]] + fields[1..] == fields;
    }
  }

  /** A manifest line reads back as its five fields when none of the three
      values holds a tab: the relative path, the citation placeholder, the PMC
      id, `PMID:` followed by the PubMed id, and the license placeholder. */
  lemma ManifestLineFields(subpath: string, pmcId: string, pubmedId: string)
    requires Tab !in subpath && Tab !in pmcId && Tab !in pubmedId
    ensures var line := ManifestLine(subpath, pmcId, pubmedId);
      Split(line[..|line| - 1], Tab)
        == [subpath, CitationPlaceholder, pmcId, "PMID:" + pubmedId, LicensePlaceholder]
  {
    var fields := [subpath, CitationPlaceholder, pmcId, "PMID:" + pubmedId, LicensePlaceholder];
    assert Tab !in "PMID:" + pubmedId;
    SplitJoin(fields, Tab);
    var line := ManifestLine(subpath, pmcId, pubmedId);
    assert line[..|line| - 1] == Join(fields, Tab);
  }
}
