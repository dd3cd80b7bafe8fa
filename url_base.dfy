/** The two normalisations of the URL base given on the command line.

    The command layer (update_records, show_config) makes sure the base starts
    with '.', so that `url + base` is a host name under the base.  The zone
    lookup (find_hostedzoneid) instead strips one leading '.' and makes sure the
    name ends with '.', the absolute form of a domain name (RFC 1034, section
    3.1) in which hosted-zone names are listed.  The two results differ. */
module UrlBase {
  import opened Errors

  /** `s` without its first character when that is a '.'; at most one dot goes. */
  function StripLeadingDot(s: string): string
  {
    if |s| > 0 && s[0] == '.' then s[1..] else s
  }

  predicate EndsWithDot(s: string)
  {
    |s| > 0 && s[|s| - 1] == '.'
  }

  /** Command-line normalisation: `if urlbase[0] != "." : urlbase = "." + urlbase`.
      Indexing the empty string raises IndexError. */
  function WithLeadingDot(urlbase: string): (r: Result<string>)
    ensures r.Err? <==> urlbase == []
    ensures r.Err? ==> r.error == IndexError
    ensures r.Ok? ==> |r.value| > 0 && r.value[0] == '.'
    ensures r.Ok? && urlbase[0] == '.' ==> r.value == urlbase
    ensures r.Ok? && urlbase[0] != '.' ==> r.value == "." + urlbase
  {
    if |urlbase| == 0 then Err(IndexError)
    else if urlbase[0] != '.' then Ok("." + urlbase)
    else Ok(urlbase)
  }

  /** Zone-lookup normalisation: strip one leading '.', then append '.' unless
      the rest already ends with one.  `urlbase[0]` fails on "" and
      `urlbase[-1]` fails when nothing is left after the strip (input "."). */
  function ZoneName(urlbase: string): (r: Result<string>)
    ensures r.Err? <==> urlbase == [] || urlbase == "."
    ensures r.Err? ==> r.error == IndexError
    ensures r.Ok? ==> EndsWithDot(r.value)
    ensures r.Ok? && EndsWithDot(StripLeadingDot(urlbase)) ==> r.value == StripLeadingDot(urlbase)
    ensures r.Ok? && !EndsWithDot(StripLeadingDot(urlbase)) ==> r.value == StripLeadingDot(urlbase) + "."
  {
    if |urlbase| == 0 then Err(IndexError)
    else
      var stripped := if urlbase[0] == '.' then urlbase[1..] else urlbase;
      if |stripped| == 0 then Err(IndexError)
      else if stripped[|stripped| - 1] != '.' then Ok(stripped + ".")
      else Ok(stripped)
  }

  /** A name in absolute form: with a trailing '.' added unless it has one. */
  function Absolute(name: string): (r: string)
    ensures EndsWithDot(r)
  {
    if EndsWithDot(name) then name else name + "."
  }

  /** Once the command layer has added its dot, one more application changes nothing. */
  lemma WithLeadingDotIdempotent(urlbase: string)
    requires urlbase != []
    ensures WithLeadingDot(WithLeadingDot(urlbase).value) == WithLeadingDot(urlbase)
  {
  }

  /** Re-normalising a zone name changes nothing unless the first strip left a
      leading dot behind (an input starting with ".."). */
  lemma ZoneNameIdempotent(urlbase: string)
    requires ZoneName(urlbase).Ok?
    requires ZoneName(urlbase).value[0] != '.'
    ensures ZoneName(ZoneName(urlbase).value) == ZoneName(urlbase)
  {
  }

  /** The only command-line base whose dotted form the zone lookup rejects is ".". */
  lemma ZoneNameOfDottedBaseFails(urlbase: string)
    requires urlbase != []
    ensures ZoneName(WithLeadingDot(urlbase).value).Err? <==> urlbase == "."
  {
  }

  /** The asymmetry, reconciled: a record named `url + base`, written in
      absolute form, is the label `url` under the zone the lookup searches for.
      So the record names built from the dotted base lie in the zone found from
      that same base. */
  lemma RecordNameUnderZone(urlbase: string, url: string)
    requires urlbase != [] && urlbase != "."
    ensures
      var base := WithLeadingDot(urlbase).value;
      Absolute(url + base) == url + "." + ZoneName(base).value
  {
    var base := WithLeadingDot(urlbase).value;
    assert |base| >= 2 && base == "." + base[1..];
    assert StripLeadingDot(base) == base[1..];
    assert (url + base)[|url + base| - 1] == base[|base| - 1];
    if EndsWithDot(base) {
      assert url + base == url + "." + base[1..];
    } else {
      assert url + base + "." == url + "." + (base[1..] + ".");
    }
  }

  /** The zone name for a base with none, one and two leading dots. */
  lemma ZoneNameExamples()
    ensures ZoneName("example.com") == Ok("example.com.")
    ensures ZoneName(".example.com") == Ok("example.com.")
    ensures ZoneName("..example.com") == Ok(".example.com.")
  {
    assert "example.com" + "." == "example.com.";
    assert ".example.com"[1..] == "example.com";
    assert "..example.com"[1..] == ".example.com";
    assert ".example.com" + "." == ".example.com.";
  }
}
