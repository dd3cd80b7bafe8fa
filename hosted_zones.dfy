/** The zone resolver (find_hostedzoneid): normalise the base, scan the listed
    hosted zones for the first exact name match, take the id out of its path. */
module HostedZones {
  import opened Errors
  import opened UrlBase

  /** One entry of the zone listing: its Name and its Id ("/hostedzone/<id>"). */
  datatype HostedZone = HostedZone(name: string, id: string)

  const NoZoneMessage := "No Hosted Zone Found"

  /** Python's `s.split(sep)` for a one-character separator: every separator
      ends a segment, so "" gives [""] and "/a" gives ["", "a"]. */
  function Split(s: string, sep: char): (parts: seq<string>)
    ensures |parts| >= 1
    ensures forall p :: p in parts ==> sep !in p
    decreases |s|
  {
    if s == [] then [[]]
    else
      var rest := Split(s[1..], sep);
      if s[0] == sep then [[]] + rest
      else [[s[0]] + rest[0]] + rest[1..]
  }

  /** `sep.join(parts)`, the inverse of Split. */
  function Join(parts: seq<string>, sep: char): string
    requires |parts| >= 1
    decreases |parts|
  {
    if |parts| == 1 then parts[0] else parts[0] + [sep] + Join(parts[1..], sep)
  }

  /** Splitting loses nothing: joining the segments gives the string back. */
  lemma {:induction false} SplitJoin(s: string, sep: char)
    ensures Join(Split(s, sep), sep) == s
    decreases |s|
  {
    if s != [] {
      var rest := Split(s[1..], sep);
      SplitJoin(s[1..], sep);
      if s[0] == sep {
        assert Split(s, sep)[1..] == rest;
      } else {
        var parts := Split(s, sep);
        assert parts[0] == [s[0]] + rest[0];
        if |rest| > 1 {
          assert parts[1..] == rest[1..];
        }
      }
    }
  }

  /** There is one more segment than there are separators. */
  lemma {:induction false} SplitCount(s: string, sep: char)
    ensures |Split(s, sep)| == multiset(s)[sep] + 1
    decreases |s|
  {
    if s != [] {
      SplitCount(s[1..], sep);
      assert s == [s[0]] + s[1..];
      assert multiset(s) == multiset([s[0]]) + multiset(s[1..]);
    }
  }

  /** A prefix free of the separator splits off as the first segment. */
  lemma {:induction false} SplitAfterSegment(p: string, sep: char, q: string)
    requires sep !in p
    ensures Split(p + [sep] + q, sep) == [p] + Split(q, sep)
    decreases |p|
  {
    if p == [] {
      assert p + [sep] + q == [sep] + q;
      assert ([sep] + q)[1..] == q;
    } else {
      var s := p + [sep] + q;
      assert s[1..] == p[1..] + [sep] + q;
      SplitAfterSegment(p[1..], sep, q);
      assert [p[0]] + p[1..] == p;
    }
  }

  /** A string without the separator is a single segment. */
  lemma {:induction false} SplitNoSeparator(s: string, sep: char)
    requires sep !in s
    ensures Split(s, sep) == [s]
    decreases |s|
  {
    if s != [] {
      SplitNoSeparator(s[1..], sep);
      assert [s[0]] + s[1..] == s;
    }
  }

  /** `Id.split('/')[2]`: the third segment, not the last; fewer than three
      segments is an IndexError. */
  function IdSegment(id: string): (r: Result<string>)
    ensures r.Err? ==> r.error == IndexError
    ensures r.Err? <==> multiset(id)['/'] < 2
    ensures r.Ok? ==> '/' !in r.value
  {
    SplitCount(id, '/');
    var parts := Split(id, '/');
    if |parts| < 3 then Err(IndexError)
    else
      assert parts[2] in parts;
      Ok(parts[2])
  }

  /** An id of the documented shape "/hostedzone/<id>" has three segments. */
  lemma HostedZonePathSegments(zoneId: string)
    requires '/' !in zoneId
    ensures Split(HostedZonePath(zoneId), '/') == [[], HostedZonePrefix, zoneId]
  {
    var h := HostedZonePrefix;
    var tail := h + ['/'] + zoneId;
    assert HostedZonePath(zoneId) == [] + ['/'] + tail;
    SplitAfterSegment([], '/', tail);
    SplitAfterSegment(h, '/', zoneId);
    SplitNoSeparator(zoneId, '/');
  }

  const HostedZonePrefix := "hostedzone"

  function HostedZonePath(zoneId: string): string
  {
    ['/'] + HostedZonePrefix + ['/'] + zoneId
  }

  /** For an id of the documented shape the resolver returns the bare zone id. */
  lemma HostedZonePathId(zoneId: string)
    requires '/' !in zoneId
    ensures IdSegment(HostedZonePath(zoneId)) == Ok(zoneId)
  {
    HostedZonePathSegments(zoneId);
  }

  /** The first entry in listing order whose name is exactly `name` decides;
      no match is a KeyError. */
  function ZoneIdFor(zones: seq<HostedZone>, name: string): (r: Result<string>)
    ensures r.Err? ==> r.error == IndexError || r.error == KeyError(NoZoneMessage)
    ensures r.Ok? ==> '/' !in r.value
  {
    if zones == [] then Err(KeyError(NoZoneMessage))
    else if zones[0].name == name then IdSegment(zones[0].id)
    else ZoneIdFor(zones[1..], name)
  }

  /** The resolver answers from the first matching zone, whatever follows it. */
  lemma {:induction false} ZoneIdForFirstMatch(zones: seq<HostedZone>, name: string, i: nat)
    requires i < |zones| && zones[i].name == name
    requires forall j :: 0 <= j < i ==> zones[j].name != name
    ensures ZoneIdFor(zones, name) == IdSegment(zones[i].id)
    decreases i
  {
    if i > 0 {
      ZoneIdForFirstMatch(zones[1..], name, i - 1);
    }
  }

  /** KeyError is raised exactly when no listed zone has the name. */
  lemma {:induction false} ZoneIdForNoMatch(zones: seq<HostedZone>, name: string)
    ensures ZoneIdFor(zones, name) == Err(KeyError(NoZoneMessage)) <==>
      forall j :: 0 <= j < |zones| ==> zones[j].name != name
    decreases |zones|
  {
    if zones != [] {
      ZoneIdForNoMatch(zones[1..], name);
      if zones[0].name != name {
        assert forall j :: 1 <= j < |zones| ==> zones[j].name == zones[1..][j - 1].name;
      }
    }
  }

  /** find_hostedzoneid over a given zone listing. */
  method FindHostedZoneId(urlbase: string, zones: seq<HostedZone>) returns (r: Result<string>)
    ensures ZoneName(urlbase).Err? ==> r == Err(IndexError)
    ensures ZoneName(urlbase).Ok? ==> r == ZoneIdFor(zones, ZoneName(urlbase).value)
  {
    var normalised := ZoneName(urlbase);
    if normalised.Err? {
      return Err(IndexError);
    }
    var name := normalised.value;
    var i := 0;
    while i < |zones|
      invariant 0 <= i <= |zones|
      invariant ZoneIdFor(zones[i..], name) == ZoneIdFor(zones, name)
    {
      if zones[i].name == name {
        return IdSegment(zones[i].id);
      }
      assert zones[i..][1..] == zones[i + 1..];
      i := i + 1;
    }
    return Err(KeyError(NoZoneMessage));
  }

  /** The third segment is taken even when the id has more after it. */
  lemma ThirdSegmentNotLast(zoneId: string, more: string)
    requires '/' !in zoneId
    ensures IdSegment(HostedZonePath(zoneId) + ['/'] + more) == Ok(zoneId)
  {
    var h := HostedZonePrefix;
    var inner := zoneId + ['/'] + more;
    var tail := h + ['/'] + inner;
    var id := HostedZonePath(zoneId) + ['/'] + more;
    assert id == [] + ['/'] + tail;
    SplitAfterSegment([], '/', tail);
    SplitAfterSegment(h, '/', inner);
    SplitAfterSegment(zoneId, '/', more);
    var parts := Split(id, '/');
    assert parts == [[]] + ([h] + ([zoneId] + Split(more, '/')));
    assert |parts| >= 3 && parts[2] == zoneId;
  }

  /** A listing holding the zone for ".example.com" resolves to its bare id. */
  lemma ZoneIdExample(zoneId: string)
    requires '/' !in zoneId
    ensures ZoneIdFor([HostedZone("example.com.", HostedZonePath(zoneId))], ZoneName(".example.com").value) == Ok(zoneId)
  {
    assert ZoneName(".example.com") == Ok("example.com.") by {
      assert ".example.com"[1..] + "." == "example.com.";
    }
    ZoneIdForFirstMatch([HostedZone("example.com.", HostedZonePath(zoneId))], "example.com.", 0);
    HostedZonePathId(zoneId);
  }

  /** A listing without the name gives KeyError, whatever the other zones are. */
  lemma ZoneNotListedExample(zoneId: string)
    ensures ZoneIdFor([HostedZone("example.org.", HostedZonePath(zoneId))], "example.com.") == Err(KeyError(NoZoneMessage))
  {
  }
}
