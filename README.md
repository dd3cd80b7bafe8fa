# Route53-URL-Updater, modelled in Dafny

`updateDeviceURLs.py` keeps a table of devices (company, gateway, url label,
IP address) in step with an Amazon Route 53 hosted zone. The `update` command
builds a batch of UPSERT changes for DNS A records (RFC 1035, section 3.2.2),
one for each row that has both a url and an ipaddress, each with TTL 300. It
then looks up the hosted zone for the URL base. When asked to send, it submits
the batch and polls the change status up to sixty times, stopping at the first
`INSYNC`. The `show-config` command groups the same table by company and pads
each gateway name to the width of the longest one.

The model keeps the script's data shaping and leaves out its I/O:

- The device table is a `seq<DeviceRow>`.
- The hosted-zone listing is a `seq<HostedZone>`.
- The status query is an oracle `status: nat -> string`. `status(i)` is the
  answer to the i-th query, counting from 0.
- Python exceptions that escape (`IndexError`, `KeyError`) are `Err` values of
  a `Result`.

Files and modules:

- `errors.dfy` (`Errors`): the escaping exceptions, `Result` and `Option`.
- `url_base.dfy` (`UrlBase`): the two normalisations of the URL base. The
  command layer prefixes a '.' (`WithLeadingDot`). The zone lookup strips one
  leading '.' and ensures a trailing '.' (`ZoneName`). `RecordNameUnderZone`
  proves how the two results fit together.
- `record_set.dfy` (`RecordSet`): `create_record_set`. The loop is the method
  `CreateRecordSet`; the batch it must build is the function `RecordSetFor`.
- `hosted_zones.dfy` (`HostedZones`): `find_hostedzoneid`, including Python's
  `str.split('/')` and the choice of the third segment of the zone Id.
- `sync_poll.dfy` (`SyncPoll`): the bounded poll loop of `update_records`.
- `update.dfy` (`Update`): the `update` pipeline as one method, tied to a
  function `UpdateOutcome`. That function takes no skip-check parameter, which
  shows that the `--skip-check` flag never affects the result.
- `show_config.dfy` (`ShowConfig`): the grouping, the maximum width and the
  padding of `show_config`.

Two points of the code are easy to misread, and the model follows the code
on both:

- The zone id is the third `/`-separated segment of the Id
  (`split('/')[2]`), not the last one. `ThirdSegmentNotLast` shows the
  difference.
- The skip-check flag is accepted and never read, so polling happens whenever
  `send` is set.

## Model

| member | source | states |
|---|---|---|
| `UrlBase.WithLeadingDot` | updateDeviceURLs.py:81-82 | Fails with IndexError exactly on the empty base. Otherwise the result starts with '.'. It is the base itself when that already starts with '.', and "." + base otherwise. |
| `UrlBase.WithLeadingDotIdempotent` | updateDeviceURLs.py:81-82 | Dotting an already dotted base changes nothing. |
| `UrlBase.ZoneName` | updateDeviceURLs.py:41-44 | Fails with IndexError exactly on "" and ".". Otherwise at most one leading '.' is removed and the result ends with '.'. A '.' is appended only when the stripped string did not already end with one. |
| `UrlBase.ZoneNameIdempotent` | updateDeviceURLs.py:41-44 | Normalising a zone name a second time changes nothing unless the result still starts with '.'. |
| `UrlBase.ZoneNameExamples` | updateDeviceURLs.py:41-44 | "example.com" and ".example.com" both give "example.com.". "..example.com" keeps one dot: ".example.com.". |
| `UrlBase.ZoneNameOfDottedBaseFails` | updateDeviceURLs.py:81-86 | After the command layer has dotted a non-empty base, the zone lookup's normalisation fails only for the base ".". |
| `UrlBase.RecordNameUnderZone` | updateDeviceURLs.py:81-86 | A record name `url + dotted base`, in absolute form, equals `url + "." + zone name`. So the record lies directly under the zone looked up from the same base. |
| `RecordSet.Included` | updateDeviceURLs.py:19-20 | A row is kept exactly when it is in the table and both its url and ipaddress are non-empty. No more rows are kept than there are in the table. |
| `RecordSet.RecordSetFor` | updateDeviceURLs.py:15-34 | The comment is "Upserting all device aliases". There is one change per kept row, in order. Each change is an UPSERT of type A with TTL 300, exactly one resource record whose value is the row's ipaddress, and the name url + base. |
| `RecordSet.CreateRecordSet` | updateDeviceURLs.py:11-36 | The appending loop returns exactly the batch `RecordSetFor` describes. |
| `RecordSet.IncludedConcat` | updateDeviceURLs.py:19-34 | Table order is kept: the rows kept from `a + b` are those kept from `a`, followed by those kept from `b`. |
| `RecordSet.CompleteIndicesStep` | updateDeviceURLs.py:19-20 | One more row adds its own position to the complete positions exactly when its url and ipaddress are both non-empty. |
| `RecordSet.IncludedCount` | updateDeviceURLs.py:19-20 | The number of rows kept equals the number of complete positions. |
| `RecordSet.ChangeCountIsCompleteRowCount` | updateDeviceURLs.py:19-34 | The number of changes equals the number of row positions whose url and ipaddress are both non-empty. |
| `RecordSet.ChangeIffComplete` | updateDeviceURLs.py:19-34 | The batch holds an UPSERT carrying a row's name (url + base) and its ipaddress if and only if both the row's url and ipaddress are non-empty. |
| `RecordSet.RecordSetExample` | updateDeviceURLs.py:19-34 | With rows dev1/10.0.0.1 and dev2/"" and base ".lan", the batch has exactly one change, named "dev1.lan". |
| `HostedZones.Split` | updateDeviceURLs.py:49 | `str.split` returns at least one segment, and no segment contains the separator. |
| `HostedZones.SplitJoin` | updateDeviceURLs.py:49 | Joining the segments with the separator gives back the original string. |
| `HostedZones.SplitCount` | updateDeviceURLs.py:49 | There is one more segment than there are separators. |
| `HostedZones.IdSegment` | updateDeviceURLs.py:49 | `Id.split('/')[2]` fails with IndexError exactly when the Id has fewer than two '/'. Otherwise the result contains no '/'. |
| `HostedZones.HostedZonePathId` | updateDeviceURLs.py:49 | For an Id "/hostedzone/X" with no '/' in X, the result is X. |
| `HostedZones.ThirdSegmentNotLast` | updateDeviceURLs.py:49 | For "/hostedzone/X/..." the result is still X, the third segment rather than the last. |
| `HostedZones.ZoneIdFor` | updateDeviceURLs.py:47-50 | The scan fails only with IndexError (an Id with fewer than two '/') or KeyError("No Hosted Zone Found"). A zone id it returns contains no '/'. |
| `HostedZones.ZoneIdForFirstMatch` | updateDeviceURLs.py:47-49 | The zone chosen is the first in listing order whose Name exactly equals the normalised base. Later zones do not matter. |
| `HostedZones.ZoneIdForNoMatch` | updateDeviceURLs.py:47-50 | The result is KeyError("No Hosted Zone Found") if and only if no listed zone has the name. |
| `HostedZones.FindHostedZoneId` | updateDeviceURLs.py:39-50 | Fails with IndexError when the normalisation does. Otherwise the linear scan with early return gives exactly the first-match result. |
| `HostedZones.ZoneIdExample` | updateDeviceURLs.py:41-49 | A listing with "example.com." / "/hostedzone/X" and the base ".example.com" resolves to X. |
| `HostedZones.ZoneNotListedExample` | updateDeviceURLs.py:47-50 | A listing without the name "example.com." gives KeyError. |
| `SyncPoll.FirstInSync` | updateDeviceURLs.py:102-110 | The result is the first tick in the range whose status is INSYNC, or the limit when there is none. Every earlier tick is not INSYNC. |
| `SyncPoll.Poll` | updateDeviceURLs.py:99-112 | `seconds_waited` is at most 60. The wait is synced exactly when it ended before 60 ticks, and then the answer at `seconds_waited` is INSYNC. Every earlier answer is not INSYNC. |
| `SyncPoll.AwaitInSync` | updateDeviceURLs.py:99-110 | `synced` holds iff one of the first 60 answers is INSYNC. When synced, the answer at `seconds_waited` is INSYNC and every earlier answer is not. The number of queries is `seconds_waited` plus one when synced, and never more than 60. |
| `SyncPoll.OnlyAskedTicksMatter` | updateDeviceURLs.py:102-106 | The loop stops right after the first INSYNC. Two oracles that agree up to that tick give the same outcome. |
| `SyncPoll.InSyncOnThirdQuery` | updateDeviceURLs.py:102-110 | INSYNC on the third query ends the wait, synced, after two ticks. |
| `SyncPoll.NeverInSyncTimesOut` | updateDeviceURLs.py:99-112 | With no INSYNC in the first 60 answers the loop ends unsynced after 60 ticks. |
| `Update.UpdateOutcome` | updateDeviceURLs.py:79-112 | A run fails only with IndexError or KeyError("No Hosted Zone Found"). A successful run carries a sync report exactly when `send` is set, a zone id without '/', and the batch for the dotted base. |
| `Update.UpdateRecords` | updateDeviceURLs.py:79-112 | The run's outcome is `UpdateOutcome` of the base, table, listing, send flag and oracle. The skip-check flag does not enter it. |
| `Update.PollsOnlyWhenSent` | updateDeviceURLs.py:95-112 | A run that gets past the zone lookup polls if and only if `send` is set. |
| `Update.UpdateFailures` | updateDeviceURLs.py:81-86 | The bases "" and "." end the run with IndexError. Otherwise the run ends with KeyError exactly when no listed zone has the normalised name. |
| `Update.RecordsLieInResolvedZone` | updateDeviceURLs.py:84-86 | In a successful run the zone id comes from the first zone named after the base, and each record name in absolute form is its url label under that zone. |
| `Update.TimeoutIsNotAnError` | updateDeviceURLs.py:109-112 | When the status never becomes INSYNC, a sending run still succeeds, reporting unsynced after 60 ticks. |
| `ShowConfig.Companies` | updateDeviceURLs.py:125-130 | No company is listed twice. |
| `ShowConfig.CompaniesListed` | updateDeviceURLs.py:127-130 | A company is listed exactly when some row of the table has it. |
| `ShowConfig.CompaniesStep` | updateDeviceURLs.py:127-128 | One more row appends its company to the listing unless that company is already listed. |
| `ShowConfig.CompaniesOfPrefix` | updateDeviceURLs.py:127-130 | First-appearance order: the companies of the first n rows are, in the same order, a prefix of the companies of the whole table. |
| `ShowConfig.DevicesOf` | updateDeviceURLs.py:128-130 | A company never has more devices than the table has rows. |
| `ShowConfig.DevicesStep` | updateDeviceURLs.py:130 | One more row appends its (Gateway, url) to its own company's devices and changes no other company's. |
| `ShowConfig.DevicesOfNonEmpty` | updateDeviceURLs.py:128-130 | A company has devices exactly when it occurs in the table. |
| `ShowConfig.DeviceFromRow` | updateDeviceURLs.py:130 | Each device listed for a company is the (Gateway, url) of one of that company's rows. |
| `ShowConfig.DevicesOfPrefix` | updateDeviceURLs.py:130 | Devices keep table order within their company. |
| `ShowConfig.GroupsPartitionRows` | updateDeviceURLs.py:127-130 | The company groups together hold as many devices as the table has rows. With `RowInItsGroup`, every row lands in exactly one group, and no row is filtered out. |
| `ShowConfig.GroupSizesStep` | updateDeviceURLs.py:127-130 | One more row adds one line to the groups exactly when its company is among those counted. |
| `ShowConfig.RowInItsGroup` | updateDeviceURLs.py:127-130 | Each row's (Gateway, url) is among the devices of the row's own company. |
| `ShowConfig.GroupingStep` | updateDeviceURLs.py:127-130 | One more row maps its company to that company's earlier devices plus its own, starting from an empty list for a new company. Every other entry of the dictionary is unchanged. |
| `ShowConfig.MaxGatewayLength` | updateDeviceURLs.py:126-132 | `max_length` is 0 for an empty table. |
| `ShowConfig.MaxGatewayLengthIsMax` | updateDeviceURLs.py:126-132 | `max_length` is at least every gateway's length and equals one of them when the table is not empty. |
| `ShowConfig.MaxStep` | updateDeviceURLs.py:131-132 | One more row raises `max_length` to its gateway's length exactly when that is larger. |
| `ShowConfig.Spaces` | updateDeviceURLs.py:136 | `" " * n` is n spaces, or empty when n <= 0. |
| `ShowConfig.Pad` | updateDeviceURLs.py:136-137 | The padded location starts with the location and continues with spaces only. It has exactly the width when the location fits, and is the location unchanged otherwise. |
| `ShowConfig.PaddedToWidestGateway` | updateDeviceURLs.py:131-137 | Every padded location has length exactly `max_length`. |
| `ShowConfig.GroupByCompany` | updateDeviceURLs.py:125-132 | The loop's dictionary has the companies as keys in first-appearance order. Each key maps to that company's devices in table order, and `max_length` is the longest gateway length. |
| `ShowConfig.LayOutDevices` | updateDeviceURLs.py:135-137 | There is one line per device, in order. Each line holds the location padded to the width and `url + base`. |
| `ShowConfig.ShowConfig` | updateDeviceURLs.py:118-138 | Fails with IndexError exactly on an empty base. Otherwise there is one listing per company in first-appearance order, each with its devices' padded lines. |

## Left out

- Reading the CSV file (`open`, `csv.DictReader`): rows are an input sequence.
  A missing column (a `KeyError` in the source) cannot occur, since every
  `DeviceRow` has all four fields. A cell missing at the end of a line, which
  `csv.DictReader` reads as `None`, is modelled as the empty string. For the
  record set this is exact, since `None` and "" both fail the url/ipaddress
  test.
- ShowConfig.ShowConfig and ShowConfig.GroupByCompany: a `None` cell is not
  modelled, because a `DeviceRow` holds strings only. In the source a `None`
  Gateway raises TypeError in `len` (line 131). A `None` url is printed as
  "None" (line 137). A `None` Company is a dictionary key distinct from ""
  (lines 128-130).
- The Route 53 calls (`list_hosted_zones`, `change_resource_record_sets`,
  `get_change`) are network I/O. The zone listing is an input sequence and the
  status answers are an oracle. Zone-listing pagination is not followed by the
  code and is not added. Failures of these calls, which would propagate as
  exceptions, are not modelled.
- The submission itself (`send_recordset_to_aws`) and the change id it returns
  are represented only by the oracle of the change's status.
- The JSON output file and `--print-output` are not modelled. Note that the
  code opens the file with mode 'wb' and hands it to `json.dump`, which writes
  text. That is an I/O-library concern outside this model.
- `sleep(1)` and wall-clock time: only the tick count is kept.
- Console output (`click.echo`, `print`, the progress dots and the arrow
  characters of the listing): only the padded location and the `url + base`
  text of each listing line are modelled.
- The click command-line parsing and `setup.py` packaging are not modelled.
