/** The `update` command (update_records): dot the base, build the batch, find
    the zone, and when asked to send, submit and wait for INSYNC. */
module Update {
  import opened Errors
  import opened UrlBase
  import opened RecordSet
  import opened HostedZones
  import opened SyncPoll

  /** What a successful run has produced: the batch, the zone it was sent to,
      and the outcome of the wait when the batch was sent. */
  datatype UpdateReport = UpdateReport(recordSet: ChangeBatch, hostedZoneId: string, sync: Option<SyncReport>)

  /** The outcome of one run.  It has no skip-check parameter: that flag never
      reaches the result. */
  function UpdateOutcome(urlbase: string, rows: seq<DeviceRow>, zones: seq<HostedZone>, send: bool,
                         status: nat -> string): (r: Result<UpdateReport>)
    ensures r.Err? ==> r.error == IndexError || r.error == KeyError(NoZoneMessage)
    ensures r.Ok? ==> (r.value.sync.Some? <==> send) && '/' !in r.value.hostedZoneId
    ensures r.Ok? ==> urlbase != [] && r.value.recordSet == RecordSetFor(rows, WithLeadingDot(urlbase).value)
  {
    match WithLeadingDot(urlbase)
    case Err(e) => Err(e)
    case Ok(base) =>
      var zone := match ZoneName(base)
        case Err(e) => Err(e)
        case Ok(name) => ZoneIdFor(zones, name);
      match zone
      case Err(e) => Err(e)
      case Ok(id) => Ok(UpdateReport(RecordSetFor(rows, base), id, if send then Some(Poll(status)) else None))
  }

  /** update_records over a given table, zone listing and status oracle.  The
      JSON file and console output are not modelled; the submission call is
      represented by the oracle of the change it creates. */
  method UpdateRecords(urlbase: string, rows: seq<DeviceRow>, zones: seq<HostedZone>, send: bool, skipCheck: bool,
                       status: nat -> string) returns (r: Result<UpdateReport>)
    ensures r == UpdateOutcome(urlbase, rows, zones, send, status)
  {
    var dotted := WithLeadingDot(urlbase);
    if dotted.Err? {
      return Err(dotted.error);
    }
    var base := dotted.value;
    var recordSet := CreateRecordSet(rows, base);
    var zoneId := FindHostedZoneId(base, zones);
    if zoneId.Err? {
      return Err(zoneId.error);
    }
    var sync: Option<SyncReport> := None;
    if send {
      var synced, secondsWaited, queries := AwaitInSync(status);
      sync := Some(SyncReport(synced, secondsWaited));
    }
    r := Ok(UpdateReport(recordSet, zoneId.value, sync));
  }

  /** A run that gets through the zone lookup polls exactly when it sends. */
  lemma PollsOnlyWhenSent(urlbase: string, rows: seq<DeviceRow>, zones: seq<HostedZone>, send: bool,
                          status: nat -> string)
    requires UpdateOutcome(urlbase, rows, zones, send, status).Ok?
    ensures UpdateOutcome(urlbase, rows, zones, send, status).value.sync.Some? <==> send
  {
  }

  /** The fatal errors: an empty base, the base ".", and a base whose zone is
      not listed; in each the run stops before anything is sent. */
  lemma UpdateFailures(urlbase: string, rows: seq<DeviceRow>, zones: seq<HostedZone>, send: bool,
                       status: nat -> string)
    ensures urlbase == [] || urlbase == "." ==> UpdateOutcome(urlbase, rows, zones, send, status) == Err(IndexError)
    ensures urlbase != [] && urlbase != "." ==>
      var name := ZoneName(WithLeadingDot(urlbase).value).value;
      ((forall j :: 0 <= j < |zones| ==> zones[j].name != name) <==>
       UpdateOutcome(urlbase, rows, zones, send, status) == Err(KeyError(NoZoneMessage)))
  {
    if urlbase != [] && urlbase != "." {
      ZoneNameOfDottedBaseFails(urlbase);
      ZoneIdForNoMatch(zones, ZoneName(WithLeadingDot(urlbase).value).value);
    }
  }

  /** Every record of a successful run, in absolute form, is its row's url
      label directly under the zone whose id the run found. */
  lemma RecordsLieInResolvedZone(urlbase: string, rows: seq<DeviceRow>, zones: seq<HostedZone>, send: bool,
                                 status: nat -> string, k: nat)
    requires UpdateOutcome(urlbase, rows, zones, send, status).Ok?
    requires k < |UpdateOutcome(urlbase, rows, zones, send, status).value.recordSet.changes|
    ensures
      var report := UpdateOutcome(urlbase, rows, zones, send, status).value;
      var name := ZoneName(WithLeadingDot(urlbase).value).value;
      && ZoneIdFor(zones, name) == Ok(report.hostedZoneId)
      && Absolute(report.recordSet.changes[k].recordSet.name) == Included(rows)[k].url + "." + name
  {
    ZoneNameOfDottedBaseFails(urlbase);
    RecordNameUnderZone(urlbase, Included(rows)[k].url);
  }

  /** A sync timeout is not an error: the run still succeeds, unsynced after
      sixty ticks. */
  lemma TimeoutIsNotAnError(urlbase: string, rows: seq<DeviceRow>, zones: seq<HostedZone>, status: nat -> string)
    requires UpdateOutcome(urlbase, rows, zones, false, status).Ok?
    requires forall i :: 0 <= i < SecondsToWaitForInSync ==> status(i) != InSync
    ensures UpdateOutcome(urlbase, rows, zones, true, status).Ok?
    ensures UpdateOutcome(urlbase, rows, zones, true, status).value.sync == Some(SyncReport(false, SecondsToWaitForInSync))
  {
    NeverInSyncTimesOut(status);
  }
}
