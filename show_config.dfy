/** The `show-config` command (show_config): group the table's rows by company
    in order of first appearance and pad every gateway name to the width of the
    longest one.  The printing itself is not modelled; the result is the
    listing that would be printed, one entry per company. */
module ShowConfig {
  import opened Errors
  import opened UrlBase
  import opened RecordSet

  /** One entry of a company's device list: {"location": Gateway, "URL": url}. */
  datatype Device = Device(location: string, url: string)

  /** One printed device line: the padded location and `url + urlbase`. */
  datatype ListingLine = ListingLine(location: string, address: string)

  /** A company heading and its device lines. */
  datatype CompanyListing = CompanyListing(company: string, lines: seq<ListingLine>)

  function DeviceOf(row: DeviceRow): Device
  {
    Device(row.gateway, row.url)
  }

  function CompanySet(rows: seq<DeviceRow>): set<string>
  {
    set row | row in rows :: row.company
  }

  /** The companies of the table, each once, in order of first appearance:
      the key order of the dictionary show_config builds. */
  function Companies(rows: seq<DeviceRow>): (cs: seq<string>)
    ensures forall i, j :: 0 <= i < j < |cs| ==> cs[i] != cs[j]
  {
    if rows == [] then []
    else
      var init := rows[..|rows| - 1];
      var last := rows[|rows| - 1];
      var prev := Companies(init);
      if last.company in prev then prev else prev + [last.company]
  }

  /** Exactly the companies that occur in the table are listed. */
  lemma {:induction false} CompaniesListed(rows: seq<DeviceRow>, company: string)
    ensures company in Companies(rows) <==> company in CompanySet(rows)
    decreases |rows|
  {
    if rows != [] {
      var init := rows[..|rows| - 1];
      var last := rows[|rows| - 1];
      assert rows == init + [last];
      CompaniesListed(init, company);
      assert CompanySet(rows) == CompanySet(init) + {last.company};
    }
  }

  /** The devices of one company, in table order. */
  function DevicesOf(rows: seq<DeviceRow>, company: string): (devs: seq<Device>)
    ensures |devs| <= |rows|
  {
    if rows == [] then []
    else
      var init := rows[..|rows| - 1];
      var last := rows[|rows| - 1];
      var prev := DevicesOf(init, company);
      if last.company == company then prev + [DeviceOf(last)] else prev
  }

  /** One more row adds its device to its own company's list and to no other. */
  lemma DevicesStep(rows: seq<DeviceRow>, i: nat, company: string)
    requires i < |rows|
    ensures DevicesOf(rows[..i + 1], company) ==
      DevicesOf(rows[..i], company) + (if rows[i].company == company then [DeviceOf(rows[i])] else [])
  {
    assert rows[..i + 1][..i] == rows[..i];
  }

  /** A company has devices exactly when it occurs in the table. */
  lemma {:induction false} DevicesOfNonEmpty(rows: seq<DeviceRow>, company: string)
    ensures DevicesOf(rows, company) != [] <==> company in CompanySet(rows)
    decreases |rows|
  {
    if rows != [] {
      var init := rows[..|rows| - 1];
      var last := rows[|rows| - 1];
      assert rows == init + [last];
      DevicesOfNonEmpty(init, company);
      assert CompanySet(rows) == CompanySet(init) + {last.company};
    }
  }

  /** Each device listed for a company is the Gateway and url of one of that
      company's rows. */
  lemma {:induction false} DeviceFromRow(rows: seq<DeviceRow>, company: string, j: nat)
    requires j < |DevicesOf(rows, company)|
    ensures exists i :: 0 <= i < |rows| && rows[i].company == company && DevicesOf(rows, company)[j] == DeviceOf(rows[i])
    decreases |rows|
  {
    var init := rows[..|rows| - 1];
    var last := rows[|rows| - 1];
    var prev := DevicesOf(init, company);
    if j < |prev| {
      DeviceFromRow(init, company, j);
      var i :| 0 <= i < |init| && init[i].company == company && prev[j] == DeviceOf(init[i]);
      assert rows[i] == init[i];
      assert DevicesOf(rows, company)[j] == prev[j];
    } else {
      assert last.company == company && DevicesOf(rows, company)[j] == DeviceOf(last);
    }
  }

  /** `max_length`: the longest gateway name, 0 for an empty table. */
  function MaxGatewayLength(rows: seq<DeviceRow>): (m: nat)
    ensures rows == [] ==> m == 0
  {
    if rows == [] then 0
    else
      var prev := MaxGatewayLength(rows[..|rows| - 1]);
      var last := rows[|rows| - 1];
      if |last.gateway| > prev then |last.gateway| else prev
  }

  /** `max_length` is at least every gateway's length and is the length of one
      of them. */
  lemma {:induction false} MaxGatewayLengthIsMax(rows: seq<DeviceRow>)
    ensures forall i :: 0 <= i < |rows| ==> |rows[i].gateway| <= MaxGatewayLength(rows)
    ensures rows != [] ==> exists i :: 0 <= i < |rows| && |rows[i].gateway| == MaxGatewayLength(rows)
    decreases |rows|
  {
    if rows != [] {
      var init := rows[..|rows| - 1];
      var last := rows[|rows| - 1];
      MaxGatewayLengthIsMax(init);
      assert forall i :: 0 <= i < |init| ==> rows[i] == init[i];
      if init != [] && |last.gateway| <= MaxGatewayLength(init) {
        var i :| 0 <= i < |init| && |init[i].gateway| == MaxGatewayLength(init);
        assert |rows[i].gateway| == MaxGatewayLength(rows);
      } else {
        assert |rows[|rows| - 1].gateway| == MaxGatewayLength(rows);
      }
    }
  }

  /** `" " * n`, which is empty for n <= 0. */
  function Spaces(n: int): (s: string)
    ensures |s| == if n <= 0 then 0 else n
    ensures forall i :: 0 <= i < |s| ==> s[i] == ' '
  {
    if n <= 0 then [] else seq(n, _ => ' ')
  }

  /** The location followed by enough spaces to reach `width`. */
  function Pad(location: string, width: nat): (r: string)
    ensures |location| <= width ==> |r| == width
    ensures |location| > width ==> r == location
    ensures r[..|location|] == location
    ensures forall i :: |location| <= i < |r| ==> r[i] == ' '
  {
    location + Spaces(width - |location|)
  }

  /** The printed lines of one company: one per device, in order. */
  predicate ListsDevices(lines: seq<ListingLine>, devices: seq<Device>, width: nat, urlBase: string)
  {
    && |lines| == |devices|
    && forall j :: 0 <= j < |lines| ==>
         lines[j] == ListingLine(Pad(devices[j].location, width), devices[j].url + urlBase)
  }

  /** One more row appends its company unless that is already listed. */
  lemma CompaniesStep(rows: seq<DeviceRow>, i: nat)
    requires i < |rows|
    ensures Companies(rows[..i + 1]) ==
      if rows[i].company in Companies(rows[..i]) then Companies(rows[..i]) else Companies(rows[..i]) + [rows[i].company]
  {
    assert rows[..i + 1][..i] == rows[..i];
  }

  /** One more row raises the maximum to its own gateway length if that is larger. */
  lemma MaxStep(rows: seq<DeviceRow>, i: nat)
    requires i < |rows|
    ensures MaxGatewayLength(rows[..i + 1]) ==
      if |rows[i].gateway| > MaxGatewayLength(rows[..i]) then |rows[i].gateway| else MaxGatewayLength(rows[..i])
  {
    assert rows[..i + 1][..i] == rows[..i];
  }

  /** The dictionary show_config builds: each company of the table mapped to
      its devices. */
  function Grouping(rows: seq<DeviceRow>): map<string, seq<Device>>
  {
    map c | c in Companies(rows) :: DevicesOf(rows, c)
  }

  /** One more row appends its device to its own company's list, which is new
      and empty when the company is new, and leaves every other list as it was. */
  lemma GroupingStep(rows: seq<DeviceRow>, i: nat)
    requires i < |rows|
    ensures var row := rows[i];
      Grouping(rows[..i + 1]) == Grouping(rows[..i])[row.company := DevicesOf(rows[..i], row.company) + [DeviceOf(row)]]
  {
    var row := rows[i];
    var before, after := Grouping(rows[..i]), Grouping(rows[..i + 1]);
    var grown := before[row.company := DevicesOf(rows[..i], row.company) + [DeviceOf(row)]];
    CompaniesStep(rows, i);
    assert after.Keys == grown.Keys;
    forall company | company in after
      ensures after[company] == grown[company]
    {
      DevicesStep(rows, i, company);
    }
  }

  /** The loop over the rows: the ordered dictionary of companies and the
      running maximum of the gateway lengths. */
  method GroupByCompany(rows: seq<DeviceRow>) returns (companies: seq<string>, groups: map<string, seq<Device>>, maxLength: nat)
    ensures companies == Companies(rows)
    ensures forall c :: c in groups <==> c in companies
    ensures forall c :: c in groups ==> groups[c] == DevicesOf(rows, c)
    ensures maxLength == MaxGatewayLength(rows)
  {
    companies, groups, maxLength := [], map[], 0;
    var i := 0;
    while i < |rows|
      invariant 0 <= i <= |rows|
      invariant companies == Companies(rows[..i])
      invariant groups == Grouping(rows[..i])
      invariant maxLength == MaxGatewayLength(rows[..i])
    {
      var c := rows[i];
      var devices := [];
      if c.company in groups {
        devices := groups[c.company];
      } else {
        CompaniesListed(rows[..i], c.company);
        DevicesOfNonEmpty(rows[..i], c.company);
        companies := companies + [c.company];
      }
      GroupingStep(rows, i);
      groups := groups[c.company := devices + [DeviceOf(c)]];
      if |c.gateway| > maxLength {
        maxLength := |c.gateway|;
      }
      assert companies == Companies(rows[..i + 1]) by {
        CompaniesStep(rows, i);
      }
      assert maxLength == MaxGatewayLength(rows[..i + 1]) by {
        MaxStep(rows, i);
      }
      i := i + 1;
    }
    assert rows[..i] == rows;
  }

  /** First-appearance order: the companies of a leading part of the table
      come first, in the same order, among the companies of the whole table. */
  lemma {:induction false} CompaniesOfPrefix(rows: seq<DeviceRow>, n: nat)
    requires n <= |rows|
    ensures Companies(rows[..n]) <= Companies(rows)
    decreases |rows|
  {
    if n < |rows| {
      var init := rows[..|rows| - 1];
      assert init[..n] == rows[..n];
      CompaniesOfPrefix(init, n);
    } else {
      assert rows[..n] == rows;
    }
  }

  /** Within a company, devices keep table order: the devices of a leading
      part of the table come first among the company's devices. */
  lemma {:induction false} DevicesOfPrefix(rows: seq<DeviceRow>, company: string, n: nat)
    requires n <= |rows|
    ensures DevicesOf(rows[..n], company) <= DevicesOf(rows, company)
    decreases |rows|
  {
    if n < |rows| {
      var init := rows[..|rows| - 1];
      assert init[..n] == rows[..n];
      DevicesOfPrefix(init, company, n);
    } else {
      assert rows[..n] == rows;
    }
  }

  /** The number of device lines over the given companies. */
  function GroupSizes(rows: seq<DeviceRow>, companies: seq<string>): nat
  {
    if companies == [] then 0
    else GroupSizes(rows, companies[..|companies| - 1]) + |DevicesOf(rows, companies[|companies| - 1])|
  }

  /** One more row adds one line to its own company's group and none elsewhere. */
  lemma {:induction false} GroupSizesStep(rows: seq<DeviceRow>, row: DeviceRow, companies: seq<string>)
    requires forall i, j :: 0 <= i < j < |companies| ==> companies[i] != companies[j]
    ensures GroupSizes(rows + [row], companies) == GroupSizes(rows, companies) + if row.company in companies then 1 else 0
    decreases |companies|
  {
    if companies != [] {
      var init := companies[..|companies| - 1];
      var last := companies[|companies| - 1];
      assert companies == init + [last];
      GroupSizesStep(rows, row, init);
      assert (rows + [row])[..|rows|] == rows;
      assert last !in init;
    }
  }

  /** Every row lands in exactly one company's group: there is no filter, and
      the groups together hold as many devices as the table has rows. */
  lemma {:induction false} GroupsPartitionRows(rows: seq<DeviceRow>)
    ensures GroupSizes(rows, Companies(rows)) == |rows|
    decreases |rows|
  {
    if rows != [] {
      var init := rows[..|rows| - 1];
      var last := rows[|rows| - 1];
      assert rows == init + [last];
      GroupsPartitionRows(init);
      var prev := Companies(init);
      GroupSizesStep(init, last, prev);
      if last.company !in prev {
        CompaniesListed(init, last.company);
        DevicesOfNonEmpty(init, last.company);
        assert prev + [last.company] == Companies(rows);
        assert (prev + [last.company])[..|prev|] == prev;
      }
    }
  }

  /** Each row's device is listed under the row's own company (and, by
      GroupsPartitionRows, the groups hold nothing beyond the rows). */
  lemma RowInItsGroup(rows: seq<DeviceRow>, i: nat)
    requires i < |rows|
    ensures DeviceOf(rows[i]) in DevicesOf(rows, rows[i].company)
  {
    var company := rows[i].company;
    DevicesStep(rows, i, company);
    DevicesOfPrefix(rows, company, i + 1);
    var before := DevicesOf(rows[..i], company);
    assert DevicesOf(rows[..i + 1], company)[|before|] == DeviceOf(rows[i]);
    assert DevicesOf(rows, company)[|before|] == DeviceOf(rows[i]);
  }

  /** Every device line is padded to exactly the longest gateway's width. */
  lemma PaddedToWidestGateway(rows: seq<DeviceRow>, company: string, j: nat)
    requires j < |DevicesOf(rows, company)|
    ensures |Pad(DevicesOf(rows, company)[j].location, MaxGatewayLength(rows))| == MaxGatewayLength(rows)
  {
    DeviceFromRow(rows, company, j);
    MaxGatewayLengthIsMax(rows);
  }

  /** The inner loop of show_config: one padded line per device. */
  method LayOutDevices(devices: seq<Device>, maxLength: nat, urlBase: string) returns (lines: seq<ListingLine>)
    ensures ListsDevices(lines, devices, maxLength, urlBase)
  {
    lines := [];
    var j := 0;
    while j < |devices|
      invariant 0 <= j <= |devices|
      invariant ListsDevices(lines, devices[..j], maxLength, urlBase)
    {
      var device := devices[j];
      var spaces := Spaces(maxLength - |device.location|);
      lines := lines + [ListingLine(device.location + spaces, device.url + urlBase)];
      j := j + 1;
    }
    assert devices[..j] == devices;
  }

  /** show_config over a given table: dot the base, group, and lay out the
      padded device lines company by company. */
  method ShowConfig(urlbase: string, rows: seq<DeviceRow>) returns (r: Result<seq<CompanyListing>>)
    ensures r.Err? <==> urlbase == []
    ensures r.Err? ==> r.error == IndexError
    ensures r.Ok? ==> |r.value| == |Companies(rows)|
    ensures r.Ok? ==> forall k :: 0 <= k < |r.value| ==>
      && r.value[k].company == Companies(rows)[k]
      && ListsDevices(r.value[k].lines, DevicesOf(rows, Companies(rows)[k]), MaxGatewayLength(rows), WithLeadingDot(urlbase).value)
  {
    var dotted := WithLeadingDot(urlbase);
    if dotted.Err? {
      return Err(dotted.error);
    }
    var base := dotted.value;
    var companies, groups, maxLength := GroupByCompany(rows);
    var listing: seq<CompanyListing> := [];
    var k := 0;
    while k < |companies|
      invariant 0 <= k <= |companies|
      invariant |listing| == k
      invariant forall m :: 0 <= m < k ==>
        listing[m].company == companies[m] && ListsDevices(listing[m].lines, groups[companies[m]], maxLength, base)
    {
      var comp := companies[k];
      var lines := LayOutDevices(groups[comp], maxLength, base);
      listing := listing + [CompanyListing(comp, lines)];
      k := k + 1;
    }
    r := Ok(listing);
  }
}
