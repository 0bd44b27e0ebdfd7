# CIS AWS Foundations Benchmark auditor — a Dafny model

This project models the evaluation and reporting core of
`foundation_framework/aws-cis-foundation-benchmark-checklist.py`. That is a
Lambda function that audits an AWS account against version 1.1 of the CIS
Amazon Web Services Foundations Benchmark. Each control evaluator turns the
account's evidence into a result record:

- the verdict: `True`, `False`, or a text such as `"Manual"`;
- the fail reason, the offenders, whether the control is scored, its
  description and its control id.

The evidence is the IAM credential report, the password policy, the
CloudTrail trails, the security groups and the route tables.

The handler assembles these records into a numbered report with four
categories. It can render the report as an HTML table, obfuscate 12-digit
account numbers in it, and summarise the failed control ids as a JSON
annotation.

The modules follow the script's sections:

| file | module | contents |
|---|---|---|
| `results.dfy` | `Results` | the result record, the verdict, `str()` of a verdict, substring search, the flat-map `Gather` that specifies every offender loop |
| `elapsed.dfy` | `Elapsed` | `datetime` subtraction as a `timedelta` (days and seconds, floored) |
| `credentials.dfy` | `Credentials` | controls 1.1–1.4 and 1.12 over the credential report, and `get_cred_report`'s poll loop |
| `password_policy.dfy` | `PasswordPolicy` | controls 1.5–1.11 |
| `manual.dfy` | `Manual` | the constant controls 1.15, 1.17–1.20 and 3.15 |
| `trails.dfy` | `Trails` | controls 2.1, 2.2, 2.4 and 2.7 |
| `network.dfy` | `Network` | controls 4.1, 4.2, 4.4 and 4.5, Python 2's `int()` on a prefix length |
| `report.dfy` | `Report` | the handler's report assembly, `shortAnnotation`, the `json2html` colour |
| `redact.dfy` | `Redaction` | `re.sub(r"\d{12}", "111111111111", …)` and the in-place redaction loop |

Modelling choices:

- **Evidence.** What boto3 returns is an input. The credential report is a
  sequence of rows, each a `map<string, string>` from column to cell.
- **Loops.** The source's loops are `method`s with `while` or `for` loops. Each is
  proved equal to a recursive specification function. The properties are
  then proved about those functions.
- **Report.** A Python dict with dense integer keys is a sequence here.
  `Report.Assign` is the dict write `d[key] = v`: a key inside the
  sequence overwrites, the next key appends. The handler's 15 writes to
  `control3[1]` and its single call to the second definition of 4.5 are
  stated as lemmas.
- **Unguarded lookups.** A column read outside a `try` raises `KeyError`
  when it is missing, which crashes the Lambda. Such columns are required
  by the functions that read them (`Report.Readable`). The column sets of
  the row checks (`Credentials.Columns`) over-approximate what a row
  actually has read: 1.2 reads `mfa_active` only when `password_enabled` is
  "true", and `arn` is read only for a flagged row or inside a `try`.
  Requiring them of every row excludes nothing real, because the rows
  `csv.DictReader` builds from the credential report carry every header
  column.
- **Guarded lookups.** A lookup inside a `try` is an `Option`. Its failure
  path is modelled.

## Model

| member | source | states |
|---|---|---|
| `Results.Str` | foundation_framework/aws-cis-foundation-benchmark-checklist.py:1934-1936 | `str()` of a verdict is `"False"` exactly for a false boolean, and is the text itself for a text verdict |
| `Results.Enumeration` | foundation_framework/aws-cis-foundation-benchmark-checklist.py:150-158 | the record shape every enumerating control builds: passes iff there are no offenders, carries the reason only on failure, keeps the offenders as collected |
| `Results.ContainsIsSubstring` | foundation_framework/aws-cis-foundation-benchmark-checklist.py:1635 | the model's `in` on strings holds iff the text occurs at some offset |
| `Results.GatherConcat` | foundation_framework/aws-cis-foundation-benchmark-checklist.py:776-781 | collecting offenders over two concatenated inputs concatenates the two collections |
| `Results.GatherMembers` | foundation_framework/aws-cis-foundation-benchmark-checklist.py:1631-1646 | an offender is collected iff some element contributes it |
| `Results.GatherEmpty` | foundation_framework/aws-cis-foundation-benchmark-checklist.py:1748-1752 | nothing is collected iff no element contributes anything |
| `Results.GatherIgnoresOrder` | foundation_framework/aws-cis-foundation-benchmark-checklist.py:776-781 | the offenders collected over a permutation of the input are a permutation of the offenders |
| `Elapsed.DeltaParts` | foundation_framework/aws-cis-foundation-benchmark-checklist.py:97-100 | a `timedelta`'s days and seconds recombine to the elapsed seconds, and its seconds lie in one day |
| `Elapsed.DaysAbove` | foundation_framework/aws-cis-foundation-benchmark-checklist.py:187 | `delta.days > n` iff at least n+1 whole days elapsed |
| `Elapsed.WithinOneDay` | foundation_framework/aws-cis-foundation-benchmark-checklist.py:100 | `days == 0 and seconds > 0` iff strictly between 0 and 86400 seconds elapsed |
| `Credentials.Stamp` | foundation_framework/aws-cis-foundation-benchmark-checklist.py:182-213 | a missing column gives no timestamp, a present one is parsed |
| `Credentials.RootUse` | foundation_framework/aws-cis-foundation-benchmark-checklist.py:75-131 | 1.1 is a scored boolean control with no offenders, and its reason is empty iff it passes |
| `Credentials.RootUseMeaning` | foundation_framework/aws-cis-foundation-benchmark-checklist.py:95-130 | 1.1 fails iff the root password's or one of the root keys' last-use time parses and lies strictly between 0 and 86400 seconds before now |
| `Credentials.ReportOffendersConcat` | foundation_framework/aws-cis-foundation-benchmark-checklist.py:150-156 | the credential-report offenders of two row blocks concatenate |
| `Credentials.ReportOffendersMembers` | foundation_framework/aws-cis-foundation-benchmark-checklist.py:150-156 | an offender is reported iff some row of the report yields it |
| `Credentials.ReportOffendersEmpty` | foundation_framework/aws-cis-foundation-benchmark-checklist.py:150-156 | no offenders iff no row yields one |
| `Credentials.Control1_2` | foundation_framework/aws-cis-foundation-benchmark-checklist.py:135-158 | the 1.2 loop returns the 1.2 record over the whole report |
| `Credentials.MfaOffendersMeaning` | foundation_framework/aws-cis-foundation-benchmark-checklist.py:150-156 | an ARN is a 1.2 offender iff a row with that ARN has a password enabled and MFA inactive |
| `Credentials.MfaFailsMeaning` | foundation_framework/aws-cis-foundation-benchmark-checklist.py:150-157 | 1.2 fails iff some row has a password enabled and MFA inactive |
| `Credentials.UnusedInRow` | foundation_framework/aws-cis-foundation-benchmark-checklist.py:182-213 | one row's 1.3 checks return exactly that row's 1.3 offenders |
| `Credentials.Control1_3` | foundation_framework/aws-cis-foundation-benchmark-checklist.py:162-214 | the 1.3 loop returns the 1.3 record over the whole report |
| `Credentials.UnusedRowMembers` | foundation_framework/aws-cis-foundation-benchmark-checklist.py:182-213 | one row's 1.3 offenders are its stale credentials, each as ARN plus that credential's suffix |
| `Credentials.StaleMeaning` | foundation_framework/aws-cis-foundation-benchmark-checklist.py:183-187 | a credential is stale iff it is enabled, its last-use cell parses, and that instant is at least 91 × 86400 seconds before now, which is what `delta.days > 90` means |
| `Credentials.UnusedMeaning` | foundation_framework/aws-cis-foundation-benchmark-checklist.py:182-213 | an offender of 1.3 is some row's ARN with the suffix of a stale credential, and every such entry is reported |
| `Credentials.UnusedNeverFlagsPasswords` | foundation_framework/aws-cis-foundation-benchmark-checklist.py:185 | in a report without the column 'password_last_used_date', every 1.3 offender comes from an access key |
| `Credentials.RotationOfKey` | foundation_framework/aws-cis-foundation-benchmark-checklist.py:238-257 | one key's 1.4 checks return exactly its rotation findings |
| `Credentials.RotationInRow` | foundation_framework/aws-cis-foundation-benchmark-checklist.py:238-276 | one row's 1.4 checks return exactly that row's 1.4 offenders |
| `Credentials.Control1_4` | foundation_framework/aws-cis-foundation-benchmark-checklist.py:218-277 | the 1.4 loop returns the 1.4 record over the whole report |
| `Credentials.RotationRowMembers` | foundation_framework/aws-cis-foundation-benchmark-checklist.py:238-276 | one row's 1.4 offenders are the ARN with a key's rotation suffix, for exactly the active keys that are unrotated or used long after rotation |
| `Credentials.RotationMeaning` | foundation_framework/aws-cis-foundation-benchmark-checklist.py:238-276 | a 1.4 offender comes from some row of the report and one of its flagged keys, and every flag is reported |
| `Credentials.RotationThresholds` | foundation_framework/aws-cis-foundation-benchmark-checklist.py:241-252 | an active key is unrotated iff its rotation time parses and is at least 91 × 86400 seconds before now; it is used long after rotation iff both times parse and use is at least 2 × 86400 seconds after rotation |
| `Credentials.RootKeyExists` | foundation_framework/aws-cis-foundation-benchmark-checklist.py:445-463 | 1.12 fails iff one of the root account's two access keys is active; it has a fail reason only on failure |
| `Credentials.GetCredReport` | foundation_framework/aws-cis-foundation-benchmark-checklist.py:1817-1839 | at most 11 generate calls; fails, with the fixed status text after 11 calls, iff none of the first 11 states is COMPLETE; otherwise returns the report after the first COMPLETE |
| `PasswordPolicy.AccountCheck` | foundation_framework/aws-cis-foundation-benchmark-checklist.py:281-299 | the record shape of a single-condition policy control |
| `PasswordPolicy.Uppercase` | foundation_framework/aws-cis-foundation-benchmark-checklist.py:281-299 | 1.5 fails iff uppercase characters are not required, with that control's reason text on a failure and an empty one on a pass; scored, with its description and no offenders |
| `PasswordPolicy.Lowercase` | foundation_framework/aws-cis-foundation-benchmark-checklist.py:303-321 | 1.6 fails iff lowercase characters are not required, and it then gives 1.5's uppercase reason text, an empty one on a pass; scored, with its description and no offenders |
| `PasswordPolicy.Symbol` | foundation_framework/aws-cis-foundation-benchmark-checklist.py:325-343 | 1.7 fails iff symbols are not required, with that control's reason text on a failure and an empty one on a pass; scored, with its description and no offenders |
| `PasswordPolicy.Number` | foundation_framework/aws-cis-foundation-benchmark-checklist.py:347-365 | 1.8 fails iff numbers are not required, with that control's reason text on a failure and an empty one on a pass; scored, with its description and no offenders |
| `PasswordPolicy.Length` | foundation_framework/aws-cis-foundation-benchmark-checklist.py:369-387 | 1.9 fails iff the minimum length is below 14, with that control's reason text on a failure and an empty one on a pass; scored, with its description and no offenders |
| `PasswordPolicy.Reuse` | foundation_framework/aws-cis-foundation-benchmark-checklist.py:391-415 | 1.10 passes iff reuse prevention is present and exactly 24, with that control's reason text on a failure and an empty one on a pass; scored, with its description and no offenders |
| `PasswordPolicy.Expire` | foundation_framework/aws-cis-foundation-benchmark-checklist.py:419-441 | 1.11 fails when passwords do not expire, and otherwise iff the maximum age exceeds 90, with that control's reason text on a failure and an empty one on a pass; scored, with its description and no offenders |
| `Manual.SecurityQuestions` | foundation_framework/aws-cis-foundation-benchmark-checklist.py:507-520 | 1.15 is the unscored "Manual" record |
| `Manual.DetailedBilling` | foundation_framework/aws-cis-foundation-benchmark-checklist.py:554-567 | 1.17 is a scored "Manual" record |
| `Manual.IamMasterManagerRoles` | foundation_framework/aws-cis-foundation-benchmark-checklist.py:571-583 | 1.18's result is the string "True", which prints like a pass, with a fixed reason |
| `Manual.ContactDetails` | foundation_framework/aws-cis-foundation-benchmark-checklist.py:587-600 | 1.19 is a scored "Manual" record |
| `Manual.SecurityContact` | foundation_framework/aws-cis-foundation-benchmark-checklist.py:604-617 | 1.20 is a scored "Manual" record |
| `Manual.SnsSubscribers` | foundation_framework/aws-cis-foundation-benchmark-checklist.py:1600-1613 | 3.15 is an unscored boolean pass that carries the manual-verification reason |
| `Trails.AllRegionsResult` | foundation_framework/aws-cis-foundation-benchmark-checklist.py:730-757 | 2.1 is scored and never lists offenders |
| `Trails.Control2_1` | foundation_framework/aws-cis-foundation-benchmark-checklist.py:745-756 | the 2.1 loop, with its early break, returns the 2.1 record |
| `Trails.AllRegionsMeaning` | foundation_framework/aws-cis-foundation-benchmark-checklist.py:745-756 | 2.1 passes iff some region has a multi-region trail that is logging, and otherwise fails with its reason |
| `Trails.CollectTrailOffenders` | foundation_framework/aws-cis-foundation-benchmark-checklist.py:776-781 | the nested trail loop collects exactly the per-trail offenders, in region and trail order |
| `Trails.Control2_2` | foundation_framework/aws-cis-foundation-benchmark-checklist.py:761-782 | the 2.2 loops return the 2.2 record |
| `Trails.ValidationMeaning` | foundation_framework/aws-cis-foundation-benchmark-checklist.py:776-781 | 2.2 lists the ARN of exactly the trails whose log file validation is off |
| `Trails.Control2_4` | foundation_framework/aws-cis-foundation-benchmark-checklist.py:818-846 | the 2.4 loops return the 2.4 record |
| `Trails.CloudWatchMeaning` | foundation_framework/aws-cis-foundation-benchmark-checklist.py:833-845 | 2.4 lists the ARN of exactly the trails whose log group is absent or does not contain "arn:aws:logs" |
| `Trails.Control2_7` | foundation_framework/aws-cis-foundation-benchmark-checklist.py:951-975 | the 2.7 loops return the 2.7 record |
| `Trails.KmsMeaning` | foundation_framework/aws-cis-foundation-benchmark-checklist.py:963-974 | 2.7 lists "Trail:" plus the ARN of exactly the trails without a KMS key entry, and reports under id "2.6" |
| `Trails.CloudTrailsOffendersMembers` | foundation_framework/aws-cis-foundation-benchmark-checklist.py:776-781 | a trail offender is reported iff some trail of some region yields it |
| `Trails.OffendersIgnoreRegionOrder` | foundation_framework/aws-cis-foundation-benchmark-checklist.py:776-781 | the dict's iteration order changes only the order of the offenders |
| `Network.GroupOpenPort` | foundation_framework/aws-cis-foundation-benchmark-checklist.py:1635-1646 | one group's rule loop returns exactly its offenders for the port |
| `Network.OpenPortOffenders` | foundation_framework/aws-cis-foundation-benchmark-checklist.py:1631-1646 | the region and group loops return exactly the port's offenders |
| `Network.Control4_1` | foundation_framework/aws-cis-foundation-benchmark-checklist.py:1619-1647 | 4.1 is the port-22 record over all regions |
| `Network.Control4_2` | foundation_framework/aws-cis-foundation-benchmark-checklist.py:1651-1679 | 4.2 is the port-3389 record over all regions |
| `Network.RuleVerdict` | foundation_framework/aws-cis-foundation-benchmark-checklist.py:1637-1646 | a rule whose range covers the port yields the bare group id; one without port numbers yields "region : group" iff its protocol is "-1"; others yield nothing |
| `Network.PortOffendersMembers` | foundation_framework/aws-cis-foundation-benchmark-checklist.py:1631-1646 | an offender is reported iff some world-open group of some region has a rule that yields it |
| `Network.WorldRuleListed` | foundation_framework/aws-cis-foundation-benchmark-checklist.py:1634-1641 | when the rendering shows the address ranges, a group with a rule from 0.0.0.0/0 whose port range holds the port is listed by its group id |
| `Network.RangesTextShowsRanges` | foundation_framework/aws-cis-foundation-benchmark-checklist.py:1635 | a text of all the rules' address ranges is a rendering that shows every range |
| `Network.OnlyWorldGroupListed` | foundation_framework/aws-cis-foundation-benchmark-checklist.py:1631-1646 | of two groups that differ only in their ranges, with port 22 open to 0.0.0.0/0 in one and to 10.0.0.0/8 in the other, 4.1 lists only the first |
| `Network.Control4_4` | foundation_framework/aws-cis-foundation-benchmark-checklist.py:1724-1753 | 4.4 is the default-group record over all regions |
| `Network.DefaultGroupsMeaning` | foundation_framework/aws-cis-foundation-benchmark-checklist.py:1748-1752 | 4.4 passes iff every default group has no ingress and no egress rule, and each offender names such a group |
| `Network.DefaultGroupsOffendersMembers` | foundation_framework/aws-cis-foundation-benchmark-checklist.py:1738-1752 | a 4.4 offender is "region : group id" exactly for a default group of that region with an ingress or an egress rule |
| `Network.TrimLeft` | foundation_framework/aws-cis-foundation-benchmark-checklist.py:1806 | `int()` drops exactly the leading whitespace |
| `Network.TrimRight` | foundation_framework/aws-cis-foundation-benchmark-checklist.py:1806 | `int()` drops exactly the trailing whitespace |
| `Network.ParseInt` | foundation_framework/aws-cis-foundation-benchmark-checklist.py:1806 | `int()` accepts only texts with a digit |
| `Network.ParseDecimal` | foundation_framework/aws-cis-foundation-benchmark-checklist.py:1806 | `int()` reads back every integer's decimal text |
| `Network.AfterSlash` | foundation_framework/aws-cis-foundation-benchmark-checklist.py:1806 | `split("/", 1)[1]` exists iff the text has a "/", and is a proper suffix of it |
| `Network.AfterSlashOf` | foundation_framework/aws-cis-foundation-benchmark-checklist.py:1806 | the text after the first "/" of "address/rest" is rest when the address has no "/" |
| `Network.CheckRoute` | foundation_framework/aws-cis-foundation-benchmark-checklist.py:1804-1811 | the `try` block flags a route exactly when it is a large peering route |
| `Network.LargePeerRoutes` | foundation_framework/aws-cis-foundation-benchmark-checklist.py:1803-1811 | the route loop returns exactly one table's offenders |
| `Network.RegionLargePeerRoutes` | foundation_framework/aws-cis-foundation-benchmark-checklist.py:1800-1811 | the table loop returns exactly one region's offenders |
| `Network.Control4_5` | foundation_framework/aws-cis-foundation-benchmark-checklist.py:1787-1812 | the 4.5 loops return the unscored 4.5 record |
| `Network.PeerRoutePrefix` | foundation_framework/aws-cis-foundation-benchmark-checklist.py:1806 | a route to a peering connection with destination "address/n" is large iff n < 24 |
| `Network.NoPeeringNoOffender` | foundation_framework/aws-cis-foundation-benchmark-checklist.py:1805 | a route without a peering id, or with an empty one, is never an offender |
| `Network.PeeringOffendersMembers` | foundation_framework/aws-cis-foundation-benchmark-checklist.py:1800-1811 | a 4.5 offender is "region : table" for some table with a large peering route, and every such table is reported |
| `Report.Assign` | foundation_framework/aws-cis-foundation-benchmark-checklist.py:2028-2085 | `d[key] = v` on a dense dict: the entry at key becomes v, all others stay, and the size grows only for the next new key |
| `Report.ShortAnnotation` | foundation_framework/aws-cis-foundation-benchmark-checklist.py:1954-1969 | the annotation is the JSON object whose "FailedControls" list holds the ids of the results that are false, in report order |
| `Report.FailedInCategoryMembers` | foundation_framework/aws-cis-foundation-benchmark-checklist.py:1964-1966 | an id is listed from a category iff some result there has that id and is the boolean false |
| `Report.FailedIdsMembers` | foundation_framework/aws-cis-foundation-benchmark-checklist.py:1963-1966 | an id is listed iff some result of some category has that id and is the boolean false, so "Manual" and "True" results are never listed |
| `Report.FailedIdsPrefix` | foundation_framework/aws-cis-foundation-benchmark-checklist.py:1963-1966 | the ids listed for the first categories begin the whole list |
| `Report.NoFailureNoEntry` | foundation_framework/aws-cis-foundation-benchmark-checklist.py:1965 | a category with no false result lists no id |
| `Report.JsonItemsInclude` | foundation_framework/aws-cis-foundation-benchmark-checklist.py:1969 | every id appears quoted in the JSON list text |
| `Report.StyleMeaning` | foundation_framework/aws-cis-foundation-benchmark-checklist.py:1934-1939 | a result is coloured red iff it prints "False", yellow iff it is "Manual", and green exactly for every other value, including the text "True" |
| `Report.CredentialWrites` | foundation_framework/aws-cis-foundation-benchmark-checklist.py:2028-2031 | the writes to keys 1–4 leave the results of 1.1–1.4 in order |
| `Report.PolicyWrites` | foundation_framework/aws-cis-foundation-benchmark-checklist.py:2032-2038 | the writes to keys 5–11 append the results of 1.5–1.11 |
| `Report.IamWrites` | foundation_framework/aws-cis-foundation-benchmark-checklist.py:2040-2051 | the writes to keys 13–24 append the results of 1.13–1.24 |
| `Report.Category1Results` | foundation_framework/aws-cis-foundation-benchmark-checklist.py:2027-2051 | category 1 is the 24 results of 1.1–1.24 in key order |
| `Report.Category2Results` | foundation_framework/aws-cis-foundation-benchmark-checklist.py:2053-2061 | category 2 is the 8 results of 2.1–2.8 in key order |
| `Report.Category3Results` | foundation_framework/aws-cis-foundation-benchmark-checklist.py:2063-2078 | after the 15 writes to key 1, category 3 is the single result of 3.15 |
| `Report.Category4Results` | foundation_framework/aws-cis-foundation-benchmark-checklist.py:2080-2085 | category 4 is the 5 results of 4.1–4.5 in key order |
| `Report.LambdaHandler` | foundation_framework/aws-cis-foundation-benchmark-checklist.py:1997-2093 | the run aborts with the no-report status iff the credential report never completes; otherwise it yields the assembled four-category report |
| `Report.OnlyLastLogMetricKept` | foundation_framework/aws-cis-foundation-benchmark-checklist.py:2064-2078 | category 3 holds only 3.15: no result of 3.1–3.14 survives, and category 3 never lists a failure |
| `Report.PeeringReportedOnce` | foundation_framework/aws-cis-foundation-benchmark-checklist.py:2081-2085 | category 4 has five entries, and the 4.5 one is the route-table result |
| `Report.KmsFailureAnnouncedAs26` | foundation_framework/aws-cis-foundation-benchmark-checklist.py:2060 | key 7 of category 2 carries the KMS result under id "2.6", which the annotation lists when it fails |
| `Redaction.RedactAt` | foundation_framework/aws-cis-foundation-benchmark-checklist.py:2105 | every character is kept or becomes '1'; digits stay digits, and non-digits are unchanged |
| `Redaction.RedactMaximalRun` | foundation_framework/aws-cis-foundation-benchmark-checklist.py:2105 | in a maximal run of L digits, the first 12⌊L/12⌋ become '1' and the rest are kept |
| `Redaction.RedactIdempotent` | foundation_framework/aws-cis-foundation-benchmark-checklist.py:2105 | redacting twice is redacting once |
| `Redaction.RedactReport` | foundation_framework/aws-cis-foundation-benchmark-checklist.py:2103-2105 | the loop redacts every line of the report in place |

## Left out

- AWS calls (boto3): their responses are inputs of the model (`Report.Evidence`). The account's region list is implicit in the per-region inputs.
- `datetime.strptime` is a parameter `parse` that yields seconds or nothing. The time the controls take "now" is one parameter `now` shared by all controls. The source reads the clock separately in each control.
- `str()` of a security group's rules is a parameter `render` of the rules, their address ranges included. Only whether its text contains "0.0.0.0/0" matters to 4.1 and 4.2. The lemmas about open groups assume only that the text shows every range (`Network.ShowsRanges`). The other entries of boto3's response (range descriptions, IPv6 ranges, group pairs) are not modelled. A group whose text mentions "0.0.0.0/0" only in such an entry, which the code would list, is therefore outside the model.
- 4.1 and 4.2 each call `describe_security_groups` on their own. The model gives both the same response (`groups`).
- `csv.DictReader` parsing of the credential report is not modelled. The rows are inputs.
- `time.sleep` between polls is not modelled.
- `json.dumps` is modelled as a list of quoted ids. It does not escape quotes or backslashes, which real control ids never contain.
- `json2html`: only the colour choice per result is modelled (`Report.ResultStyle`). The HTML text, the table layout and the `strftime` timestamp are not.
- `s3report` is not modelled, because it only uploads to S3 and signs a URL. `set_evaluation` is not modelled either, because it only calls AWS Config. So the `print`s, `invokingEvent`, and the `CONFIG_RULE`, `SCRIPT_OUTPUT_JSON` and `S3_WEB_REPORT` switches are left out too.
- `Redaction.RedactReport`: the `S3_WEB_REPORT_OBFUSCATE_ACCOUNT` switch (line 2102) is not modelled. The model always redacts, which is what the switch's setting of True at line 60 does.
- `sys.exit` in 1.1 is modelled as the `Aborted` outcome of `Report.LambdaHandler`.
- Controls 1.13, 1.14, 1.16, 1.21–1.24, 2.3, 2.5, 2.6, 2.8, 3.1–3.14 and 4.3 are results the handler is given (`Report.OtherResults`), because each inspects a further AWS response in its own way. Their evaluators are not modelled. 3.1–3.14 cannot reach the report anyway: their writes are all overwritten.
- `Network.ParseInt`: Python 2's `int()` is modelled as optional whitespace, an optional sign and one or more ASCII digits. It does not accept white space between the sign and the digits (Python 2 reads `int("- 5")` as -5, so a peering route to "10.0.0.0/- 5" would count as large there and is not flagged here), underscores, non-ASCII digits or a `long` suffix.
- `Credentials.ReportOffenders`: it is defined on every row, giving nothing for a row that lacks a column the control reads. The source raises `KeyError` on such a row, and the controls require every row to have those columns.
- `Report.Category1Results`: it writes key 12 between the policy writes and the writes of 1.13–1.24, as the source does. The evaluators of those later controls are not modelled, so their order relative to key 12 is not captured.
- `Trails.OffendersIgnoreRegionOrder`: Python 2 dict iteration order is unspecified. The model takes one order as input and proves that the offenders do not depend on it up to order.
- Concurrency and the Lambda runtime itself are out of scope.

## Behaviour kept from the code

Where the code and its comments or the benchmark's intent differ, the model
follows the code:

- 1.3 reads the column `password_last_used_date`, which the credential report does not have. Its password branch therefore never flags anything on a real report (`Credentials.UnusedNeverFlagsPasswords`).
- 1.4 flags a key as ":unused" when its last use lies more than one whole day after its last rotation. The comment and the reason text speak of keys not used since rotation, so the test is the inverse of what they describe. A key that is used a week after rotation is flagged, and one never used since rotation is not (`Credentials.RotationThresholds`, `Credentials.UsedLongAfterRotation`).
- 1.6 fails with 1.5's "uppercase" reason text (`PasswordPolicy.Lowercase`).
- 2.7 reports under control id "2.6" (`Report.KmsFailureAnnouncedAs26`).
- 1.18's result is the string "True", not a boolean (`Manual.IamMasterManagerRoles`). 3.15 is a boolean pass even though its reason says to verify it manually.
- The handler writes 3.1–3.15 all to `control3[1]`. Only 3.15 is kept (`Report.OnlyLastLogMetricKept`).
- 4.5 is defined twice with the same body, and the second definition is the one called.
- 1.1 does not count a use at exactly the current second as within 24 hours, because `seconds > 0` is required.
- The obfuscation replaces every 12-digit chunk of a longer digit run, not only runs of exactly 12 digits (`Redaction.RedactMaximalRun`).
